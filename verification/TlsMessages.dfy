/**
  ClientHello and ServerHello of internal/tlsdissector/msg.go, the record layer
  of record.go and the two parsers of dissector.go (RFC 8446 sections 4.1.2,
  4.1.3 and 5.1).
 */
module TlsMessages {
  import opened Common
  import opened Streams
  import opened TlsExtensions
  import opened TlsExtensionCodec

  const CLIENT_HELLO: byte := 1
  const SERVER_HELLO: byte := 2
  const VERSION_TLS10: uint16 := 0x0301
  const VERSION_TLS12: uint16 := 0x0303
  const VERSION_TLS13: uint16 := 0x0304

  type uint32 = x: int | 0 <= x < 4294967296
  type Opaque28 = b: Bytes | |b| == 28 witness [0, 0, 0, 0, 0, 0, 0, 0, 0, 0, 0, 0, 0, 0, 0, 0, 0, 0, 0, 0, 0, 0, 0, 0, 0, 0, 0, 0]

  datatype Random = Random(time: uint32, opaque28: Opaque28)

  datatype Client = Client(version: uint16, random: Random, sessionID: Bytes, cipherSuites: seq<uint16>,
                           compressionMethods: Bytes, extensions: seq<Extension>)

  datatype Server = Server(version: uint16, random: Random, sessionID: Bytes, cipherSuite: uint16,
                           compressionMethod: byte, extensions: seq<Extension>)

  // ----- The pieces of a hello body -----

  function RandomWire(r: Random): (w: Bytes)
    ensures |w| == 32
  {
    BE32(r.time) + r.opaque28
  }

  function Vec8(d: Bytes): Bytes { [Low8(|d|)] + d }

  function Block16(d: Bytes): Bytes { BE16(|d|) + d }

  /** Version and random, which the length check guarantees to be there. */
  function ReadFixed(b: Bytes): (uint16, Random)
    requires |b| >= 34
  {
    (Read16(b, 0), Random(Read32(b, 2), b[6..34]))
  }

  /** `readSession`: an empty session id leaves the receiver's field alone. */
  function ReadSession(b: Bytes, prior: Bytes): Outcome<(Bytes, nat)> {
    if |b| == 0 || |b| < 1 + b[0] as int then Err
    else if b[0] == 0 then Ok((prior, 1))
    else Ok((b[1..1 + b[0] as int], 1 + b[0] as int))
  }

  /** `readCipherSuites` notes a bad length but still runs its loop, which may leave the slice. */
  function ReadCipherSuites(b: Bytes): Outcome<(seq<uint16>, nat)> {
    if |b| < 2 then Err
    else
      var n := Read16(b, 0) as int / 2;
      if |b| < 2 + 2 * n then Panic
      else if |b| < 2 + Read16(b, 0) as int then Err
      else Ok((U16s(b[2..], n), 2 + 2 * n))
  }

  /** `readCompressionMethods`: a bad length always runs off the slice. */
  function ReadCompression(b: Bytes): Outcome<(Bytes, nat)> {
    if |b| == 0 then Err
    else if |b| < 1 + b[0] as int then Panic
    else Ok((b[1..1 + b[0] as int], 1 + b[0] as int))
  }

  function ReadExtensionBlock(b: Bytes): Outcome<seq<Extension>> {
    if |b| < 2 || |b| < 2 + Read16(b, 0) as int then Err
    else ReadExts(b[2..2 + Read16(b, 0) as int])
  }

  predicate KnownVersion(v: uint16) { VERSION_TLS10 <= v <= VERSION_TLS13 }

  // ----- ClientHello -----

  function ClientTail(m: Client): Bytes { Block16(ExtsWire(m.extensions)) }

  function ClientSuites(m: Client): Bytes { BE16(2 * |m.cipherSuites|) + U16Bytes(m.cipherSuites) }

  function ClientBody(m: Client): Bytes {
    BE16(m.version) + RandomWire(m.random) + Vec8(m.sessionID) + ClientSuites(m) +
      Vec8(m.compressionMethods) + ClientTail(m)
  }

  /** What `WriteTo` writes. */
  function HandshakeWire(msgType: byte, body: Bytes): Bytes {
    [msgType] + BE24(|body|) + body
  }

  /** The body decoder applied to a receiver that already holds `m`. */
  function DecodeClientBody(b: Bytes, m: Client): Outcome<Client>
    requires |b| >= 34
  {
    var (version, random) := ReadFixed(b);
    if !KnownVersion(version) then Err
    else DecodeClientRest(b[34..], m.(version := version, random := random))
  }

  function DecodeClientRest(b: Bytes, m: Client): Outcome<Client> {
    match ReadSession(b, m.sessionID)
    case Err => Err
    case Panic => Panic
    case Ok((sid, n1)) =>
      if n1 > |b| then Err
      else match ReadCipherSuites(b[n1..])
        case Err => Err
        case Panic => Panic
        case Ok((suites, n2)) =>
          if n1 + n2 > |b| then Err
          else DecodeClientEnd(b[n1 + n2..], m.(sessionID := sid, cipherSuites := m.cipherSuites + suites))
  }

  function DecodeClientEnd(b: Bytes, m: Client): Outcome<Client> {
    match ReadCompression(b)
    case Err => Err
    case Panic => Panic
    case Ok((methods, n)) =>
      if n > |b| then Err
      else match ReadExtensionBlock(b[n..])
        case Err => Err
        case Panic => Panic
        case Ok(es) => Ok(m.(compressionMethods := m.compressionMethods + methods, extensions := es))
  }

  /** The handshake header: the type must match, at least 34 body bytes must be announced and present. */
  function HandshakeBody(msgType: byte, b: Bytes): Outcome<Bytes> {
    if |b| < 4 || b[0] != msgType || Read24(b, 1) < 34 || |b| < 4 + Read24(b, 1) then Err
    else Ok(b[4..4 + Read24(b, 1)])
  }

  function DecodeClient(b: Bytes, m: Client): Outcome<Client> {
    match HandshakeBody(CLIENT_HELLO, b)
    case Ok(body) => if |body| < 34 then Err else DecodeClientBody(body, m)
    case Err => Err
    case Panic => Panic
  }

  /** The size limits of the wire format, on the message itself. */
  predicate WireClient(m: Client) {
    KnownVersion(m.version) && |m.sessionID| <= 255 && |m.cipherSuites| <= 32767 && |m.compressionMethods| <= 255 &&
    WireFits(m.extensions) && |ExtsWire(m.extensions)| <= 65535
  }

  const BLANK_RANDOM := Random(0, [0, 0, 0, 0, 0, 0, 0, 0, 0, 0, 0, 0, 0, 0, 0, 0, 0, 0, 0, 0, 0, 0, 0, 0, 0, 0, 0, 0])
  const BLANK_CLIENT := Client(0, BLANK_RANDOM, [], [], [], [])

  lemma FixedRoundTrip(version: uint16, random: Random, tail: Bytes)
    ensures var b := BE16(version) + RandomWire(random) + tail;
      |b| >= 34 && ReadFixed(b) == (version, random) && b[34..] == tail
  {
    var b := BE16(version) + RandomWire(random) + tail;
    assert b[0..2] == BE16(version) && b[2..6] == BE32(random.time) && b[6..34] == random.opaque28;
    Read16OfBE16(version, b, 0);
    Read32OfBE32(random.time, b, 2);
  }

  lemma SessionRoundTrip(sid: Bytes, tail: Bytes)
    requires |sid| <= 255
    ensures ReadSession(Vec8(sid) + tail, []) == Ok((sid, |Vec8(sid)|)) && (Vec8(sid) + tail)[|Vec8(sid)|..] == tail
  {
    var b := Vec8(sid) + tail;
    assert b[0] == |sid| && b[1..1 + |sid|] == sid;
  }

  lemma CompressionRoundTrip(d: Bytes, tail: Bytes)
    requires |d| <= 255
    ensures ReadCompression(Vec8(d) + tail) == Ok((d, |Vec8(d)|)) && (Vec8(d) + tail)[|Vec8(d)|..] == tail
  {
    var b := Vec8(d) + tail;
    assert b[0] == |d| && b[1..1 + |d|] == d;
  }

  lemma SuitesRoundTrip(m: Client, tail: Bytes)
    requires |m.cipherSuites| <= 32767
    ensures |ClientSuites(m)| == 2 + 2 * |m.cipherSuites|
    ensures ReadCipherSuites(ClientSuites(m) + tail) == Ok((m.cipherSuites, |ClientSuites(m)|))
    ensures (ClientSuites(m) + tail)[|ClientSuites(m)|..] == tail
  {
    var cs := m.cipherSuites;
    var b := ClientSuites(m) + tail;
    U16RoundTrip(cs, tail);
    assert b[0..2] == BE16(2 * |cs|) && b[2..] == U16Bytes(cs) + tail;
    Read16OfBE16(2 * |cs|, b, 0);
  }

  lemma BlockField(d: Bytes)
    requires |d| <= 65535
    ensures var b := Block16(d); Read16(b, 0) as int == |d| && b[2..2 + |d|] == d
  {
    ListField(d);
    assert Block16(d)[2..2 + |d|] == d;
  }

  lemma BlockRoundTrip(es: seq<Extension>)
    requires WireFits(es) && |ExtsWire(es)| <= 65535
    ensures ReadExtensionBlock(Block16(ExtsWire(es))) == Ok(es)
  {
    BlockField(ExtsWire(es));
    ExtsRoundTrip(es);
  }

  lemma ClientEndRoundTrip(m: Client, before: Client)
    requires WireClient(m) && before.compressionMethods == []
    ensures DecodeClientEnd(Vec8(m.compressionMethods) + ClientTail(m), before) ==
      Ok(before.(compressionMethods := m.compressionMethods, extensions := m.extensions))
  {
    CompressionRoundTrip(m.compressionMethods, ClientTail(m));
    BlockRoundTrip(m.extensions);
    assert [] + m.compressionMethods == m.compressionMethods;
  }

  /** Session, suites and the rest, given what each piece reads as. */
  lemma DecodeClientRestOf(sw: Bytes, cw: Bytes, end: Bytes, sid: Bytes, suites: seq<uint16>, before: Client, m: Client)
    requires ReadSession(sw + (cw + end), before.sessionID) == Ok((sid, |sw|))
    requires ReadCipherSuites(cw + end) == Ok((suites, |cw|))
    requires DecodeClientEnd(end, before.(sessionID := sid, cipherSuites := before.cipherSuites + suites)) == Ok(m)
    ensures DecodeClientRest(sw + (cw + end), before) == Ok(m)
  {
    var b := sw + (cw + end);
    assert b[|sw|..] == cw + end && b[|sw| + |cw|..] == end;
  }

  lemma ClientRestRoundTrip(m: Client, before: Client)
    requires WireClient(m) && before.sessionID == [] && before.cipherSuites == [] && before.compressionMethods == []
    ensures var end := Vec8(m.compressionMethods) + ClientTail(m);
      DecodeClientRest(Vec8(m.sessionID) + (ClientSuites(m) + end), before) ==
      Ok(m.(version := before.version, random := before.random))
  {
    var end := Vec8(m.compressionMethods) + ClientTail(m);
    SessionRoundTrip(m.sessionID, ClientSuites(m) + end);
    SuitesRoundTrip(m, end);
    assert [] + m.cipherSuites == m.cipherSuites;
    ClientEndRoundTrip(m, before.(sessionID := m.sessionID, cipherSuites := m.cipherSuites));
    DecodeClientRestOf(Vec8(m.sessionID), ClientSuites(m), end, m.sessionID, m.cipherSuites, before,
                       m.(version := before.version, random := before.random));
  }

  lemma ClientBodyRoundTrip(m: Client)
    requires WireClient(m)
    ensures 34 <= |ClientBody(m)| < 16777216 && DecodeClientBody(ClientBody(m), BLANK_CLIENT) == Ok(m)
  {
    var rest := Vec8(m.sessionID) + (ClientSuites(m) + (Vec8(m.compressionMethods) + ClientTail(m)));
    assert ClientBody(m) == BE16(m.version) + RandomWire(m.random) + rest;
    FixedRoundTrip(m.version, m.random, rest);
    ClientRestRoundTrip(m, BLANK_CLIENT.(version := m.version, random := m.random));
    SuitesRoundTrip(m, []);
  }

  lemma HandshakeRoundTrip(msgType: byte, body: Bytes, tail: Bytes)
    requires 34 <= |body| < 16777216
    ensures HandshakeBody(msgType, HandshakeWire(msgType, body) + tail) == Ok(body)
  {
    var b := HandshakeWire(msgType, body) + tail;
    assert b[1..4] == BE24(|body|) && b[4..4 + |body|] == body;
    Read24OfBE24(|body|, b, 1);
  }

  // ----- The limits are necessary -----

  /** The body found behind a header is at worst cut off. */
  lemma BodyCutOff(msgType: byte, body: Bytes, tail: Bytes)
    requires HandshakeBody(msgType, HandshakeWire(msgType, body) + tail).Ok?
    ensures HandshakeBody(msgType, HandshakeWire(msgType, body) + tail).value <= body
  {
    var b := HandshakeWire(msgType, body) + tail;
    assert b[1..4] == BE24(|body|);
    Read24OfBE24(|body|, b, 1);
    assert b[4..4 + |body|] == body;
    var n := Read24(b, 1);
    assert b[4..4 + n] == body[..n];
  }

  lemma FixedNeeds(p: Bytes, version: uint16, random: Random, rest: Bytes)
    requires p <= BE16(version) + RandomWire(random) + rest && |p| >= 34
    ensures ReadFixed(p) == (version, random) && p[34..] <= rest
  {
    FixedRoundTrip(version, random, rest);
    var b := BE16(version) + RandomWire(random) + rest;
    assert p == b[..|p|] && p[6..34] == b[6..34] && p[34..] == b[34..][..|p| - 34];
  }

  lemma SessionNeeds(p: Bytes, sid: Bytes, rest: Bytes, n: nat)
    requires p <= Vec8(sid) + rest && ReadSession(p, []) == Ok((sid, n))
    ensures |sid| <= 255 && n == 1 + |sid| <= |p| && p[n..] <= rest
  {
    var b := Vec8(sid) + rest;
    assert p[0] == b[0] == |sid| % 256;
    assert b[n..] == rest && p == b[..|p|];
    assert p[n..] == b[n..][..|p| - n];
  }

  lemma SuitesNeed(p: Bytes, m: Client, rest: Bytes, n: nat)
    requires p <= ClientSuites(m) + rest && ReadCipherSuites(p) == Ok((m.cipherSuites, n))
    ensures |m.cipherSuites| <= 32767 && n == |ClientSuites(m)| <= |p| && p[n..] <= rest
  {
    var cs := m.cipherSuites;
    var b := ClientSuites(m) + rest;
    U16RoundTrip(cs, []);
    ListField(U16Bytes(cs));
    assert b[0..2] == BE16(2 * |cs|) && p == b[..|p|];
    Read16OfBE16(2 * |cs|, b, 0);
    assert Read16(p, 0) == Read16(b, 0);
    assert |cs| == Read16(p, 0) as int / 2;
    assert b[n..] == rest && p[n..] == b[n..][..|p| - n];
  }

  lemma CompressionNeeds(p: Bytes, d: Bytes, rest: Bytes, n: nat)
    requires p <= Vec8(d) + rest && ReadCompression(p) == Ok((d, n))
    ensures |d| <= 255 && n == 1 + |d| <= |p| && p[n..] <= rest
  {
    var b := Vec8(d) + rest;
    assert p[0] == b[0] == |d| % 256;
    assert b[n..] == rest && p == b[..|p|];
    assert p[n..] == b[n..][..|p| - n];
  }

  lemma BlockNeeds(p: Bytes, es: seq<Extension>)
    requires p <= Block16(ExtsWire(es)) && ReadExtensionBlock(p) == Ok(es)
    ensures WireFits(es) && |ExtsWire(es)| <= 65535
  {
    var w := ExtsWire(es);
    ListField(w);
    var k := Read16(p, 0) as int;
    assert Read16(p, 0) == Read16(Block16(w), 0);
    assert p[2..2 + k] == w[..k];
    ReadExtsFit(w[..k]);
    ReadExtsNeeds(es, w[..k]);
  }

  lemma ClientEndNeeds(p: Bytes, m: Client, before: Client)
    requires p <= Vec8(m.compressionMethods) + ClientTail(m) && before.compressionMethods == []
    requires DecodeClientEnd(p, before) == Ok(m)
    ensures |m.compressionMethods| <= 255 && WireFits(m.extensions) && |ExtsWire(m.extensions)| <= 65535
  {
    var (methods, n) := ReadCompression(p).value;
    assert [] + methods == methods;
    CompressionNeeds(p, m.compressionMethods, ClientTail(m), n);
    BlockNeeds(p[n..], m.extensions);
  }

  /** What each piece read as, when the whole could be read. */
  lemma ClientRestSteps(p: Bytes, m: Client, before: Client) returns (sid: Bytes, n1: nat, suites: seq<uint16>, n2: nat)
    requires DecodeClientRest(p, before) == Ok(m)
    ensures ReadSession(p, before.sessionID) == Ok((sid, n1)) && n1 <= |p| && n1 + n2 <= |p| && m.sessionID == sid
    ensures ReadCipherSuites(p[n1..]) == Ok((suites, n2)) && m.cipherSuites == before.cipherSuites + suites
    ensures DecodeClientEnd(p[n1 + n2..], before.(sessionID := sid, cipherSuites := before.cipherSuites + suites)) == Ok(m)
  {
    sid, n1 := ReadSession(p, before.sessionID).value.0, ReadSession(p, before.sessionID).value.1;
    suites, n2 := ReadCipherSuites(p[n1..]).value.0, ReadCipherSuites(p[n1..]).value.1;
  }

  lemma ClientRestNeeds(p: Bytes, m: Client, before: Client)
    requires p <= Vec8(m.sessionID) + (ClientSuites(m) + (Vec8(m.compressionMethods) + ClientTail(m)))
    requires before.sessionID == [] && before.cipherSuites == [] && before.compressionMethods == []
    requires DecodeClientRest(p, before) == Ok(m)
    ensures |m.sessionID| <= 255 && |m.cipherSuites| <= 32767 && |m.compressionMethods| <= 255
    ensures WireFits(m.extensions) && |ExtsWire(m.extensions)| <= 65535
  {
    var end := Vec8(m.compressionMethods) + ClientTail(m);
    var sid, n1, suites, n2 := ClientRestSteps(p, m, before);
    assert [] + suites == suites;
    SessionNeeds(p, m.sessionID, ClientSuites(m) + end, n1);
    SuitesNeed(p[n1..], m, end, n2);
    assert p[n1..][n2..] == p[n1 + n2..];
    ClientEndNeeds(p[n1 + n2..], m, before.(sessionID := sid, cipherSuites := before.cipherSuites + suites));
  }

  /** Everything in front of the pieces. */
  lemma ClientBodySplits(m: Client)
    ensures ClientBody(m) == BE16(m.version) + RandomWire(m.random) +
      (Vec8(m.sessionID) + (ClientSuites(m) + (Vec8(m.compressionMethods) + ClientTail(m))))
  {
  }

  lemma ClientBodyNeeds(p: Bytes, m: Client, before: Client)
    requires before.sessionID == [] && before.cipherSuites == [] && before.compressionMethods == []
    requires p <= ClientBody(m) && |p| >= 34 && DecodeClientBody(p, before) == Ok(m)
    ensures WireClient(m)
  {
    ClientBodySplits(m);
    FixedNeeds(p, m.version, m.random, Vec8(m.sessionID) + (ClientSuites(m) + (Vec8(m.compressionMethods) + ClientTail(m))));
    assert KnownVersion(m.version);
    ClientRestNeeds(p[34..], m, before.(version := m.version, random := m.random));
  }

  /**
    What is written for a ClientHello decodes back to it, whatever follows in the
    stream, exactly when it is within the wire limits.
   */
  lemma ClientRoundTrip(m: Client, tail: Bytes)
    ensures DecodeClient(HandshakeWire(CLIENT_HELLO, ClientBody(m)) + tail, BLANK_CLIENT) == Ok(m) <==> WireClient(m)
  {
    if WireClient(m) {
      ClientBodyRoundTrip(m);
      HandshakeRoundTrip(CLIENT_HELLO, ClientBody(m), tail);
    } else if DecodeClient(HandshakeWire(CLIENT_HELLO, ClientBody(m)) + tail, BLANK_CLIENT) == Ok(m) {
      BodyCutOff(CLIENT_HELLO, ClientBody(m), tail);
      ClientBodyNeeds(HandshakeBody(CLIENT_HELLO, HandshakeWire(CLIENT_HELLO, ClientBody(m)) + tail).value, m, BLANK_CLIENT);
    }
  }

  // ----- ServerHello -----

  function ServerBody(m: Server): Bytes {
    BE16(m.version) + RandomWire(m.random) + Vec8(m.sessionID) + BE16(m.cipherSuite) +
      [m.compressionMethod] + Block16(ExtsWire(m.extensions))
  }

  function DecodeServerBody(b: Bytes, m: Server): Outcome<Server>
    requires |b| >= 34
  {
    var (version, random) := ReadFixed(b);
    if !KnownVersion(version) then Err
    else DecodeServerRest(b[34..], m.(version := version, random := random))
  }

  /** The suite and compression bytes are sliced without a length check. */
  function DecodeServerRest(b: Bytes, m: Server): Outcome<Server> {
    match ReadSession(b, m.sessionID)
    case Err => Err
    case Panic => Panic
    case Ok((sid, n)) =>
      if |b| < n + 3 then Panic
      else match ReadExtensionBlock(b[n + 3..])
        case Err => Err
        case Panic => Panic
        case Ok(es) =>
          Ok(m.(sessionID := sid, cipherSuite := Read16(b, n), compressionMethod := b[n + 2], extensions := es))
  }

  function DecodeServer(b: Bytes, m: Server): Outcome<Server> {
    match HandshakeBody(SERVER_HELLO, b)
    case Ok(body) => if |body| < 34 then Err else DecodeServerBody(body, m)
    case Err => Err
    case Panic => Panic
  }

  predicate WireServer(m: Server) {
    KnownVersion(m.version) && |m.sessionID| <= 255 && WireFits(m.extensions) && |ExtsWire(m.extensions)| <= 65535
  }

  const BLANK_SERVER := Server(0, BLANK_RANDOM, [], 0, 0, [])

  lemma ServerFields(before: Bytes, suite: uint16, comp: byte, block: Bytes)
    ensures var b := before + (BE16(suite) + ([comp] + block)); var n := |before|;
      |b| >= n + 3 && Read16(b, n) == suite && b[n + 2] == comp && b[n + 3..] == block
  {
    var b := before + (BE16(suite) + ([comp] + block));
    assert b[|before|..|before| + 2] == BE16(suite);
    Read16OfBE16(suite, b, |before|);
  }

  /** What follows version and random. */
  function ServerRest(m: Server): Bytes {
    Vec8(m.sessionID) + (BE16(m.cipherSuite) + ([m.compressionMethod] + Block16(ExtsWire(m.extensions))))
  }

  lemma ServerRestRoundTrip(m: Server, before: Server)
    requires WireServer(m) && before.sessionID == []
    ensures DecodeServerRest(ServerRest(m), before) == Ok(m.(version := before.version, random := before.random))
  {
    var block := Block16(ExtsWire(m.extensions));
    SessionRoundTrip(m.sessionID, BE16(m.cipherSuite) + ([m.compressionMethod] + block));
    ServerFields(Vec8(m.sessionID), m.cipherSuite, m.compressionMethod, block);
    BlockRoundTrip(m.extensions);
  }

  lemma ServerBodyRoundTrip(m: Server)
    requires WireServer(m)
    ensures 34 <= |ServerBody(m)| < 16777216 && DecodeServerBody(ServerBody(m), BLANK_SERVER) == Ok(m)
  {
    var rest := ServerRest(m);
    assert ServerBody(m) == BE16(m.version) + RandomWire(m.random) + rest;
    FixedRoundTrip(m.version, m.random, rest);
    ServerRestRoundTrip(m, BLANK_SERVER.(version := m.version, random := m.random));
  }

  lemma ServerRestNeeds(p: Bytes, m: Server, before: Server)
    requires p <= ServerRest(m) && before.sessionID == [] && DecodeServerRest(p, before) == Ok(m)
    ensures |m.sessionID| <= 255 && WireFits(m.extensions) && |ExtsWire(m.extensions)| <= 65535
  {
    var block := Block16(ExtsWire(m.extensions));
    var fields := BE16(m.cipherSuite) + ([m.compressionMethod] + block);
    var (sid, n) := ReadSession(p, []).value;
    SessionNeeds(p, m.sessionID, fields, n);
    assert fields[3..] == block;
    assert p[n..] == fields[..|p| - n];
    assert p[n + 3..] == fields[3..][..|p| - n - 3];
    BlockNeeds(p[n + 3..], m.extensions);
  }

  lemma ServerBodySplits(m: Server)
    ensures ServerBody(m) == BE16(m.version) + RandomWire(m.random) + ServerRest(m)
  {
  }

  lemma ServerBodyNeeds(p: Bytes, m: Server, before: Server)
    requires before.sessionID == [] && p <= ServerBody(m) && |p| >= 34 && DecodeServerBody(p, before) == Ok(m)
    ensures WireServer(m)
  {
    ServerBodySplits(m);
    FixedNeeds(p, m.version, m.random, ServerRest(m));
    assert KnownVersion(m.version);
    ServerRestNeeds(p[34..], m, before.(version := m.version, random := m.random));
  }

  /**
    What is written for a ServerHello decodes back to it, whatever follows in the
    stream, exactly when it is within the wire limits.
   */
  lemma ServerRoundTrip(m: Server, tail: Bytes)
    ensures DecodeServer(HandshakeWire(SERVER_HELLO, ServerBody(m)) + tail, BLANK_SERVER) == Ok(m) <==> WireServer(m)
  {
    if WireServer(m) {
      ServerBodyRoundTrip(m);
      HandshakeRoundTrip(SERVER_HELLO, ServerBody(m), tail);
    } else if DecodeServer(HandshakeWire(SERVER_HELLO, ServerBody(m)) + tail, BLANK_SERVER) == Ok(m) {
      BodyCutOff(SERVER_HELLO, ServerBody(m), tail);
      ServerBodyNeeds(HandshakeBody(SERVER_HELLO, HandshakeWire(SERVER_HELLO, ServerBody(m)) + tail).value, m, BLANK_SERVER);
    }
  }

  /** The limits of a hello: TLS 1.0 to 1.3, and what the length fields can say. */
  lemma HelloLimits(c: Client, s: Server)
    ensures WireClient(c) <==>
      (0x0301 <= c.version <= 0x0304 && |c.sessionID| <= 255 && |c.cipherSuites| <= 32767 && |c.compressionMethods| <= 255 &&
       (forall e <- c.extensions :: WireExt(e) && |EncodeExt(e)| <= 65535) && |ExtsWire(c.extensions)| <= 65535)
    ensures WireServer(s) <==>
      (0x0301 <= s.version <= 0x0304 && |s.sessionID| <= 255 &&
       (forall e <- s.extensions :: WireExt(e) && |EncodeExt(e)| <= 65535) && |ExtsWire(s.extensions)| <= 65535)
  {
    assert forall i :: 0 <= i < |c.extensions| ==> c.extensions[i] in c.extensions;
    assert forall i :: 0 <= i < |s.extensions| ==> s.extensions[i] in s.extensions;
  }
}
