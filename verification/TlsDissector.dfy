/**
  The message and record objects of internal/tlsdissector with the methods that
  fill and write them, and the two parsers that read a hello off a stream.
 */
module TlsDissector {
  import opened Common
  import opened Streams
  import opened TlsExtensions
  import opened TlsExtensionCodec
  import opened TlsMessages

  const HANDSHAKE: byte := 0x16

  /** Patching the two placeholders of a hello once everything is appended. */
  method PatchHello(buf: Bytes, pos: nat, extLen: nat, ghost msgType: byte, ghost head: Bytes, ghost exts: Bytes)
    returns (b: Bytes)
    requires buf == [msgType] + [0, 0, 0] + head + [0, 0] + exts && pos == 4 + |head| && extLen == |exts|
    ensures b == HandshakeWire(msgType, head + Block16(exts))
  {
    var plen := |buf| - 4;
    b := buf[1 := BE24(plen)[0]][2 := BE24(plen)[1]][3 := BE24(plen)[2]];
    assert b[..4] == [msgType] + BE24(plen) && b[4..] == head + ([0, 0] + exts);
    ghost var was := b;
    b := b[pos := BE16(extLen)[0]][pos + 1 := BE16(extLen)[1]];
    assert b[..pos] == was[..pos] == [msgType] + BE24(plen) + head;
    assert b[pos..pos + 2] == BE16(extLen) && b[pos + 2..] == was[pos + 2..] == exts;
    assert b == b[..pos] + b[pos..pos + 2] + b[pos + 2..];
    assert |head + Block16(exts)| == plen;
  }

  /** The handshake header, read with two `ReadFull` calls. */
  method ReadHandshake(r: Reader, msgType: byte) returns (res: Outcome<Bytes>)
    modifies r
    ensures res == HandshakeBody(msgType, old(r.Rest()))
    ensures res.Ok? ==> |res.value| >= 34
  {
    ghost var all := r.Rest();
    var b, got := r.ReadFull(4);
    if !got.Done? { return Err; }
    if b[0] != msgType { return Err; }
    var length := Read24(b, 1);
    assert length == Read24(all, 1);
    if length < 34 { return Err; }
    b, got := r.ReadFull(length);
    if !got.Done? { return Err; }
    assert b == all[4..4 + length];
    res := Ok(b);
  }

  class ClientHelloMsg {
    var version: uint16
    var random: Random
    var sessionID: Bytes
    var cipherSuites: seq<uint16>
    var compressionMethods: Bytes
    var extensions: seq<Extension>

    constructor (m: Client)
      ensures V() == m
    {
      version, random, sessionID := m.version, m.random, m.sessionID;
      cipherSuites, compressionMethods, extensions := m.cipherSuites, m.compressionMethods, m.extensions;
    }

    function V(): Client
      reads this
    {
      Client(version, random, sessionID, cipherSuites, compressionMethods, extensions)
    }

    /** `WriteTo`: append with placeholders, then patch the lengths where the placeholders stand. */
    method WriteTo() returns (data: Bytes)
      ensures data == HandshakeWire(CLIENT_HELLO, ClientBody(V()))
    {
      ghost var head := BE16(version) + RandomWire(random) + Vec8(sessionID) + ClientSuites(V()) + Vec8(compressionMethods);
      var buf := [CLIENT_HELLO] + [0, 0, 0] + BE16(version);
      var pos := 6;
      buf := buf + BE32(random.time) + random.opaque28;
      pos := pos + 32;
      buf := buf + [Low8(|sessionID|)] + sessionID;
      pos := pos + (1 + |sessionID|);
      buf := WriteU16s(buf + BE16(|cipherSuites| * 2), cipherSuites);
      U16RoundTrip(cipherSuites, []);
      pos := pos + (2 + |cipherSuites| * 2);
      buf := buf + [Low8(|compressionMethods|)] + compressionMethods;
      pos := pos + (1 + |compressionMethods|);
      assert buf == [CLIENT_HELLO] + [0, 0, 0] + head;
      var extLen;
      buf, extLen := WriteExtensions(buf + [0, 0], extensions);
      data := PatchHello(buf, pos, extLen, CLIENT_HELLO, head, ExtsWire(extensions));
    }

    /** `readSession`. */
    method TakeSession(b: Bytes) returns (r: Outcome<nat>)
      modifies `sessionID
      ensures match ReadSession(b, old(sessionID))
        case Ok((sid, n)) => r == Ok(n) && sessionID == sid
        case Err => r.Err?
        case Panic => r.Panic?
    {
      if |b| == 0 { return Err; }
      var nlen: nat := b[0];
      if |b| < 1 + nlen { return Err; }
      if nlen > 0 {
        sessionID := b[1..1 + nlen];
      }
      r := Ok(1 + nlen);
    }

    /** `readCipherSuites`, which appends to the field as it goes. */
    method TakeCipherSuites(b: Bytes) returns (r: Outcome<nat>)
      modifies `cipherSuites
      ensures match ReadCipherSuites(b)
        case Ok((suites, n)) => r == Ok(n) && cipherSuites == old(cipherSuites) + suites
        case Err => r.Err?
        case Panic => r.Panic?
    {
      if |b| < 2 { return Err; }
      var nlen: nat := Read16(b, 0);
      var n := 2;
      var short := |b| < n + nlen;
      var i := 0;
      while i < nlen / 2
        invariant 0 <= i <= nlen / 2 && n == 2 + 2 * i <= |b|
        invariant cipherSuites == old(cipherSuites) + U16s(b[2..], i)
      {
        if n + 2 > |b| { return Panic; }
        cipherSuites := cipherSuites + [Read16(b, n)];
        n := n + 2;
        i := i + 1;
        assert U16s(b[2..], i) == U16s(b[2..], i - 1) + [Read16(b, n - 2)];
      }
      r := if short then Err else Ok(n);
    }

    /** `readCompressionMethods`. */
    method TakeCompression(b: Bytes) returns (r: Outcome<nat>)
      modifies `compressionMethods
      ensures match ReadCompression(b)
        case Ok((methods, n)) => r == Ok(n) && compressionMethods == old(compressionMethods) + methods
        case Err => r.Err?
        case Panic => r.Panic?
    {
      if |b| == 0 { return Err; }
      var nlen: nat := b[0];
      var n := 1;
      var i := 0;
      while i < nlen
        invariant 0 <= i <= nlen && n == 1 + i <= |b|
        invariant compressionMethods == old(compressionMethods) + b[1..n]
      {
        if n >= |b| { return Panic; }
        compressionMethods := compressionMethods + [b[n]];
        n := n + 1;
        i := i + 1;
        assert b[1..n] == b[1..n - 1] + [b[n - 1]];
      }
      r := Ok(n);
    }

    /** The last part of `ReadFrom`: compression methods and extensions. */
    method TakeEnd(b: Bytes) returns (r: Outcome<()>)
      modifies `compressionMethods, `extensions
      ensures match DecodeClientEnd(b, old(V()))
        case Ok(m) => r == Ok(()) && V() == m
        case Err => r.Err?
        case Panic => r.Panic?
    {
      var n := TakeCompression(b);
      if n.Err? { return Err; }
      if n.Panic? { return Panic; }
      var es := TakeExtensions(b[n.value..]);
      if es.Err? { return Err; }
      if es.Panic? { return Panic; }
      extensions := es.value;
      r := Ok(());
    }

    /** The part of `ReadFrom` after version and random, advancing `pos` through the body. */
    method TakeRest(b: Bytes) returns (r: Outcome<()>)
      modifies `sessionID, `cipherSuites, `compressionMethods, `extensions
      ensures match DecodeClientRest(b, old(V()))
        case Ok(m) => r == Ok(()) && V() == m
        case Err => r.Err?
        case Panic => r.Panic?
    {
      var n := TakeSession(b);
      if n.Err? { return Err; }
      var pos := n.value;
      n := TakeCipherSuites(b[pos..]);
      if n.Err? { return Err; }
      if n.Panic? { return Panic; }
      pos := pos + n.value;
      r := TakeEnd(b[pos..]);
    }

    /** `ReadFrom`: what it stores depends on the bytes alone, not on how they arrive. */
    method ReadFrom(r: Reader) returns (res: Outcome<()>)
      modifies this, r
      ensures match DecodeClient(old(r.Rest()), old(V()))
        case Ok(m) => res == Ok(()) && V() == m
        case Err => res.Err?
        case Panic => res.Panic?
    {
      var body := ReadHandshake(r, CLIENT_HELLO);
      if body.Err? { return Err; }
      var b := body.value;
      version := Read16(b, 0);
      if !(VERSION_TLS10 <= version <= VERSION_TLS13) { return Err; }
      random := Random(Read32(b, 2), b[6..34]);
      res := TakeRest(b[34..]);
    }
  }

  /** `readExtensions` of either message, behind its length field. */
  method TakeExtensions(b: Bytes) returns (r: Outcome<seq<Extension>>)
    ensures r == ReadExtensionBlock(b)
  {
    if |b| < 2 { return Err; }
    var nlen: nat := Read16(b, 0);
    if |b| < 2 + nlen { return Err; }
    r := ReadExtensions(b[2..2 + nlen]);
  }

  class ServerHelloMsg {
    var version: uint16
    var random: Random
    var sessionID: Bytes
    var cipherSuite: uint16
    var compressionMethod: byte
    var extensions: seq<Extension>

    constructor (m: Server)
      ensures V() == m
    {
      version, random, sessionID := m.version, m.random, m.sessionID;
      cipherSuite, compressionMethod, extensions := m.cipherSuite, m.compressionMethod, m.extensions;
    }

    function V(): Server
      reads this
    {
      Server(version, random, sessionID, cipherSuite, compressionMethod, extensions)
    }

    method WriteTo() returns (data: Bytes)
      ensures data == HandshakeWire(SERVER_HELLO, ServerBody(V()))
    {
      ghost var head := BE16(version) + RandomWire(random) + Vec8(sessionID) + BE16(cipherSuite) + [compressionMethod];
      var buf := [SERVER_HELLO] + [0, 0, 0] + BE16(version);
      var pos := 6;
      buf := buf + BE32(random.time) + random.opaque28;
      pos := pos + 32;
      buf := buf + [Low8(|sessionID|)] + sessionID;
      pos := pos + (1 + |sessionID|);
      buf := buf + BE16(cipherSuite);
      pos := pos + 2;
      buf := buf + [compressionMethod];
      pos := pos + 1;
      assert buf == [SERVER_HELLO] + [0, 0, 0] + head;
      var extLen;
      buf, extLen := WriteExtensions(buf + [0, 0], extensions);
      data := PatchHello(buf, pos, extLen, SERVER_HELLO, head, ExtsWire(extensions));
    }

    method ReadFrom(r: Reader) returns (res: Outcome<()>)
      modifies this, r
      ensures match DecodeServer(old(r.Rest()), old(V()))
        case Ok(m) => res == Ok(()) && V() == m
        case Err => res.Err?
        case Panic => res.Panic?
    {
      var body := ReadHandshake(r, SERVER_HELLO);
      if body.Err? { return Err; }
      var b := body.value;
      version := Read16(b, 0);
      if !(VERSION_TLS10 <= version <= VERSION_TLS13) { return Err; }
      random := Random(Read32(b, 2), b[6..34]);
      b := b[34..];
      // readSession
      if |b| == 0 { return Err; }
      var nlen: nat := b[0];
      if |b| < 1 + nlen { return Err; }
      if nlen > 0 { sessionID := b[1..1 + nlen]; }
      var n := 1 + nlen;
      if |b| < n + 2 { return Panic; }
      cipherSuite := Read16(b, n);
      if |b| < n + 3 { return Panic; }
      compressionMethod := b[n + 2];
      var es := TakeExtensions(b[n + 3..]);
      if es.Err? { return Err; }
      if es.Panic? { return Panic; }
      extensions := es.value;
      res := Ok(());
    }
  }

  // ----- Records -----

  datatype RecordValue = RecordValue(typ: byte, version: uint16, opaqueData: Bytes)

  function RecordWire(rec: RecordValue): Bytes {
    [rec.typ] + BE16(rec.version) + Block16(rec.opaqueData)
  }

  function DecodeRecord(b: Bytes): Outcome<(RecordValue, nat)> {
    if |b| < 5 || |b| < 5 + Read16(b, 3) as int then Err
    else Ok((RecordValue(b[0], Read16(b, 1), b[5..5 + Read16(b, 3) as int]), 5 + Read16(b, 3) as int))
  }

  /** A record reads back, whatever follows, exactly when its data fits the two-byte length. */
  lemma RecordRoundTrip(rec: RecordValue, tail: Bytes)
    ensures DecodeRecord(RecordWire(rec) + tail) == Ok((rec, |RecordWire(rec)|)) <==> |rec.opaqueData| <= 65535
  {
    var b := RecordWire(rec) + tail;
    var d := rec.opaqueData;
    assert b[1..3] == BE16(rec.version) && b[3..5] == BE16(|d|);
    Read16OfBE16(rec.version, b, 1);
    Read16OfBE16(|d|, b, 3);
    if |d| <= 65535 { assert b[5..5 + |d|] == d; }
  }

  class Record {
    var typ: byte
    var version: uint16
    var opaqueData: Bytes

    constructor ()
    {
      typ, version, opaqueData := 0, 0, [];
    }

    method WriteTo() returns (data: Bytes)
      ensures data == RecordWire(RecordValue(typ, version, opaqueData))
    {
      data := [typ];
      data := data + BE16(version);
      data := data + BE16(|opaqueData|);
      data := data + opaqueData;
    }

    method ReadFrom(r: Reader) returns (ok: bool)
      modifies this, r
      ensures match DecodeRecord(old(r.Rest()))
        case Ok((rec, n)) => ok && rec == RecordValue(typ, version, opaqueData) && n <= |old(r.Rest())| && r.Rest() == old(r.Rest())[n..]
        case _ => !ok
    {
      ghost var all := r.Rest();
      var b, got := r.ReadFull(5);
      if !got.Done? { return false; }
      typ, version := b[0], Read16(b, 1);
      var length: nat := Read16(b, 3);
      opaqueData, got := r.ReadFull(length);
      ok := got.Done?;
      if ok {
        assert opaqueData == all[5..5 + length] && r.Rest() == all[5 + length..];
      }
    }
  }

  // ----- The parsers -----

  datatype ClientInfo = ClientInfo(sessionID: Bytes, cipherSuites: seq<uint16>, compressionMethods: Bytes,
                                   supportedProtos: seq<Bytes>, supportedVersions: seq<uint16>, serverName: Bytes)

  /** The last server name, ALPN list and version list of an extension list; blank if there is none. */
  function LastName(es: seq<Extension>): Bytes {
    if |es| == 0 then [] else if es[|es| - 1].ServerName? then es[|es| - 1].name else LastName(es[..|es| - 1])
  }

  function LastProtos(es: seq<Extension>): seq<Bytes> {
    if |es| == 0 then [] else if es[|es| - 1].ALPN? then es[|es| - 1].protos else LastProtos(es[..|es| - 1])
  }

  function LastVersions(es: seq<Extension>): seq<uint16> {
    if |es| == 0 then [] else if es[|es| - 1].SupportedVersions? then es[|es| - 1].versions else LastVersions(es[..|es| - 1])
  }

  function InfoOf(m: Client): ClientInfo {
    ClientInfo(m.sessionID, m.cipherSuites, m.compressionMethods,
               LastProtos(m.extensions), LastVersions(m.extensions), LastName(m.extensions))
  }

  function ParsedClient(b: Bytes): Outcome<ClientInfo> {
    match DecodeRecord(b)
    case Err => Err
    case Panic => Panic
    case Ok((rec, _)) =>
      if rec.typ != HANDSHAKE then Err
      else match DecodeClient(rec.opaqueData, BLANK_CLIENT)
        case Ok(m) => Ok(InfoOf(m))
        case Err => Err
        case Panic => Panic
  }

  /** The extension loop of `ParseClientHello`. */
  method ScanClient(es: seq<Extension>) returns (protos: seq<Bytes>, versions: seq<uint16>, name: Bytes)
    ensures protos == LastProtos(es) && versions == LastVersions(es) && name == LastName(es)
  {
    protos, versions, name := [], [], [];
    var i := 0;
    while i < |es|
      invariant 0 <= i <= |es|
      invariant protos == LastProtos(es[..i]) && versions == LastVersions(es[..i]) && name == LastName(es[..i])
    {
      assert es[..i + 1][..i] == es[..i];
      match es[i] {
        case ServerName(_, n) => name := n;
        case SupportedVersions(v, _) => versions := v;
        case ALPN(p) => protos := p;
        case _ =>
      }
      i := i + 1;
    }
    assert es[..i] == es;
  }

  method ParseClientHello(r: Reader) returns (res: Outcome<ClientInfo>)
    modifies r
    ensures res == ParsedClient(old(r.Rest()))
  {
    var record := new Record();
    var ok := record.ReadFrom(r);
    if !ok { return Err; }
    if record.typ != HANDSHAKE { return Err; }
    var msg := new ClientHelloMsg(BLANK_CLIENT);
    var sub := new Reader([record.opaqueData]);
    assert sub.Rest() == record.opaqueData by { assert Concat([record.opaqueData]) == record.opaqueData + Concat([]); }
    var decoded := msg.ReadFrom(sub);
    if decoded.Err? { return Err; }
    if decoded.Panic? { return Panic; }
    var protos, versions, name := ScanClient(msg.extensions);
    res := Ok(ClientInfo(msg.sessionID, msg.cipherSuites, msg.compressionMethods, protos, versions, name));
  }

  /**
    End to end: a ClientHello within the wire limits, wrapped in one handshake
    record, is reported with its own SNI, ALPN and versions, however the stream
    is chunked and whatever follows.
   */
  lemma ClientHelloReported(m: Client, version: uint16, tail: Bytes)
    requires WireClient(m) && |HandshakeWire(CLIENT_HELLO, ClientBody(m))| <= 65535
    ensures ParsedClient(RecordWire(RecordValue(HANDSHAKE, version, HandshakeWire(CLIENT_HELLO, ClientBody(m)))) + tail)
      == Ok(InfoOf(m))
  {
    var data := HandshakeWire(CLIENT_HELLO, ClientBody(m));
    RecordRoundTrip(RecordValue(HANDSHAKE, version, data), tail);
    ClientRoundTrip(m, []);
    assert data + [] == data;
  }

  /** With one extension of each kind, the reported values are exactly those extensions' own. */
  lemma {:induction false} LastOfUnique(es: seq<Extension>, k: nat)
    requires k < |es|
    requires forall i :: 0 <= i < |es| && i != k ==> TypeOf(es[i]) != TypeOf(es[k])
    ensures es[k].ServerName? ==> LastName(es) == es[k].name
    ensures es[k].ALPN? ==> LastProtos(es) == es[k].protos
    ensures es[k].SupportedVersions? ==> LastVersions(es) == es[k].versions
    decreases |es|
  {
    var n := |es| - 1;
    if k < n {
      assert TypeOf(es[n]) != TypeOf(es[k]);
      LastOfUnique(es[..n], k);
    }
  }

  datatype ServerInfo = ServerInfo(sessionID: Bytes, cipherSuite: uint16, compressionMethod: byte, proto: Bytes, version: uint16)

  /** The first version of the last non-empty version list, TLS 1.2 if there is none. */
  function LastVersion(es: seq<Extension>): uint16 {
    if |es| == 0 then VERSION_TLS12
    else if es[|es| - 1].SupportedVersions? && |es[|es| - 1].versions| > 0 then es[|es| - 1].versions[0]
    else LastVersion(es[..|es| - 1])
  }

  function LastProto(es: seq<Extension>): Bytes {
    if |es| == 0 then []
    else if es[|es| - 1].ALPN? && |es[|es| - 1].protos| > 0 then es[|es| - 1].protos[0]
    else LastProto(es[..|es| - 1])
  }

  function ServerInfoOf(m: Server): ServerInfo {
    ServerInfo(m.sessionID, m.cipherSuite, m.compressionMethod, LastProto(m.extensions), LastVersion(m.extensions))
  }

  /** An alert record and any other record type are errors; only a handshake record is decoded. */
  function ParsedServer(b: Bytes): Outcome<ServerInfo> {
    match DecodeRecord(b)
    case Err => Err
    case Panic => Panic
    case Ok((rec, _)) =>
      if rec.typ != HANDSHAKE then Err
      else match DecodeServer(rec.opaqueData, BLANK_SERVER)
        case Ok(m) => Ok(ServerInfoOf(m))
        case Err => Err
        case Panic => Panic
  }

  /** The extension loop of `ParseServerHello`. */
  method ScanServer(es: seq<Extension>) returns (proto: Bytes, version: uint16)
    ensures proto == LastProto(es) && version == LastVersion(es)
  {
    proto, version := [], VERSION_TLS12;
    var i := 0;
    while i < |es|
      invariant 0 <= i <= |es|
      invariant proto == LastProto(es[..i]) && version == LastVersion(es[..i])
    {
      assert es[..i + 1][..i] == es[..i];
      match es[i] {
        case SupportedVersions(v, _) => if |v| > 0 { version := v[0]; }
        case ALPN(p) => if |p| > 0 { proto := p[0]; }
        case _ =>
      }
      i := i + 1;
    }
    assert es[..i] == es;
  }

  method ParseServerHello(r: Reader) returns (res: Outcome<ServerInfo>)
    modifies r
    ensures res == ParsedServer(old(r.Rest()))
  {
    var record := new Record();
    var ok := record.ReadFrom(r);
    if !ok { return Err; }
    if record.typ != HANDSHAKE { return Err; }
    var msg := new ServerHelloMsg(BLANK_SERVER);
    var sub := new Reader([record.opaqueData]);
    assert sub.Rest() == record.opaqueData by { assert Concat([record.opaqueData]) == record.opaqueData + Concat([]); }
    var decoded := msg.ReadFrom(sub);
    if decoded.Err? { return Err; }
    if decoded.Panic? { return Panic; }
    var proto, version := ScanServer(msg.extensions);
    res := Ok(ServerInfo(msg.sessionID, msg.cipherSuite, msg.compressionMethod, proto, version));
  }

  lemma ServerHelloReported(m: Server, version: uint16, tail: Bytes)
    requires WireServer(m) && |HandshakeWire(SERVER_HELLO, ServerBody(m))| <= 65535
    ensures ParsedServer(RecordWire(RecordValue(HANDSHAKE, version, HandshakeWire(SERVER_HELLO, ServerBody(m)))) + tail)
      == Ok(ServerInfoOf(m))
  {
    var data := HandshakeWire(SERVER_HELLO, ServerBody(m));
    RecordRoundTrip(RecordValue(HANDSHAKE, version, data), tail);
    ServerRoundTrip(m, []);
    assert data + [] == data;
  }

  // ----- What the reports say, extension by extension -----

  /** Position `k` holds the last extension of the kind; `|es|` stands for there being none. */
  ghost predicate Standing(es: seq<Extension>, k: nat, kind: Extension -> bool) {
    k <= |es| && (k < |es| ==> kind(es[k])) && forall j :: 0 <= j < |es| && (k == |es| || k < j) ==> !kind(es[j])
  }

  predicate IsServerName(e: Extension) { e.ServerName? }
  predicate IsProtos(e: Extension) { e.ALPN? }
  predicate IsVersions(e: Extension) { e.SupportedVersions? }
  predicate NamesProto(e: Extension) { e.ALPN? && e.protos != [] }
  predicate NamesVersion(e: Extension) { e.SupportedVersions? && e.versions != [] }

  lemma {:induction false} StandingExists(es: seq<Extension>, kind: Extension -> bool) returns (k: nat)
    ensures Standing(es, k, kind)
    decreases |es|
  {
    var n := |es| - 1;
    if |es| == 0 || kind(es[n]) { return if |es| == 0 then 0 else n; }
    k := StandingExists(es[..n], kind);
    if k == n { k := |es|; }
  }

  lemma {:induction false} LastNameIs(es: seq<Extension>, k: nat)
    requires Standing(es, k, IsServerName)
    ensures LastName(es) == if k < |es| then es[k].name else []
    decreases |es|
  {
    if |es| > 0 && k != |es| - 1 { LastNameIs(es[..|es| - 1], if k == |es| then k - 1 else k); }
  }

  lemma {:induction false} LastProtosIs(es: seq<Extension>, k: nat)
    requires Standing(es, k, IsProtos)
    ensures LastProtos(es) == if k < |es| then es[k].protos else []
    decreases |es|
  {
    if |es| > 0 && k != |es| - 1 { LastProtosIs(es[..|es| - 1], if k == |es| then k - 1 else k); }
  }

  lemma {:induction false} LastVersionsIs(es: seq<Extension>, k: nat)
    requires Standing(es, k, IsVersions)
    ensures LastVersions(es) == if k < |es| then es[k].versions else []
    decreases |es|
  {
    if |es| > 0 && k != |es| - 1 { LastVersionsIs(es[..|es| - 1], if k == |es| then k - 1 else k); }
  }

  /** A record of content type 22 with a handshake message of type 1. */
  function ClientRecord(m: Client, version: uint16): Bytes {
    RecordWire(RecordValue(22, version, HandshakeWire(1, ClientBody(m))))
  }

  /**
    The report of a ClientHello within the wire limits, field by field: its own
    session id, suites and compression methods, and of server names, protocol
    lists and version lists the last one, or nothing where there is none.
   */
  lemma ClientReport(m: Client, version: uint16, tail: Bytes, n: nat, p: nat, v: nat)
    requires WireClient(m) && |HandshakeWire(1, ClientBody(m))| <= 65535
    requires Standing(m.extensions, n, IsServerName) && Standing(m.extensions, p, IsProtos)
    requires Standing(m.extensions, v, IsVersions)
    ensures ParsedClient(ClientRecord(m, version) + tail).Ok?
    ensures var info := ParsedClient(ClientRecord(m, version) + tail).value;
      info.sessionID == m.sessionID && info.cipherSuites == m.cipherSuites && info.compressionMethods == m.compressionMethods
    ensures var info := ParsedClient(ClientRecord(m, version) + tail).value; var es := m.extensions;
      info.serverName == (if n < |es| then es[n].name else []) &&
      info.supportedProtos == (if p < |es| then es[p].protos else []) &&
      info.supportedVersions == if v < |es| then es[v].versions else []
  {
    ClientHelloReported(m, version, tail);
    LastNameIs(m.extensions, n);
    LastProtosIs(m.extensions, p);
    LastVersionsIs(m.extensions, v);
  }

  lemma {:induction false} LastProtoIs(es: seq<Extension>, k: nat)
    requires Standing(es, k, NamesProto)
    ensures LastProto(es) == if k < |es| then es[k].protos[0] else []
    decreases |es|
  {
    if |es| > 0 && k != |es| - 1 { LastProtoIs(es[..|es| - 1], if k == |es| then k - 1 else k); }
  }

  lemma {:induction false} LastVersionIs(es: seq<Extension>, k: nat)
    requires Standing(es, k, NamesVersion)
    ensures LastVersion(es) == if k < |es| then es[k].versions[0] else 0x0303
    decreases |es|
  {
    if |es| > 0 && k != |es| - 1 { LastVersionIs(es[..|es| - 1], if k == |es| then k - 1 else k); }
  }

  /** A record of content type 22 with a handshake message of type 2. */
  function ServerRecord(m: Server, version: uint16): Bytes {
    RecordWire(RecordValue(22, version, HandshakeWire(2, ServerBody(m))))
  }

  /**
    The report of a ServerHello, field by field: its own session id, suite and
    compression method, and of non-empty protocol and version lists the first
    entry of the last one; without a version list it is TLS 1.2.
   */
  lemma ServerReport(m: Server, version: uint16, tail: Bytes, p: nat, v: nat)
    requires WireServer(m) && |HandshakeWire(2, ServerBody(m))| <= 65535
    requires Standing(m.extensions, p, NamesProto)
    requires Standing(m.extensions, v, NamesVersion)
    ensures ParsedServer(ServerRecord(m, version) + tail).Ok?
    ensures var info := ParsedServer(ServerRecord(m, version) + tail).value;
      info.sessionID == m.sessionID && info.cipherSuite == m.cipherSuite && info.compressionMethod == m.compressionMethod
    ensures var info := ParsedServer(ServerRecord(m, version) + tail).value; var es := m.extensions;
      info.proto == (if p < |es| then es[p].protos[0] else []) &&
      info.version == if v < |es| then es[v].versions[0] else 0x0303
  {
    ServerHelloReported(m, version, tail);
    LastProtoIs(m.extensions, p);
    LastVersionIs(m.extensions, v);
  }

  /** Whatever is not a handshake record, alerts included, is an error for both parsers. */
  lemma OnlyHandshakesParsed(rec: RecordValue, tail: Bytes)
    requires rec.typ != 22 && |rec.opaqueData| <= 65535
    ensures ParsedClient(RecordWire(rec) + tail) == Err && ParsedServer(RecordWire(rec) + tail) == Err
  {
    RecordRoundTrip(rec, tail);
  }

  // ----- On the wire -----

  /**
    The bytes of a small ClientHello, section 4.1.2 of RFC 8446: content type 22,
    handshake type 1, version 0x0303, a one-byte session id, one suite, one
    compression method, and the server name extension of type 0 (section 3 of
    RFC 6066), each length in big endian before what it measures.
   */
  lemma SmallClientHelloBytes(opaque28: Opaque28, sid: byte, suite: byte, comp: byte, name: byte)
    ensures var m := Client(0x0303, Random(9, opaque28), [sid], [0x1300 + suite as int], [comp], [ServerName(0, [name])]);
      ClientRecord(m, 0x0301) == [22] + [3, 1] + ([0, 58] + ([1] + [0, 0, 54] + SmallBody(opaque28, sid, suite, comp, name)))
  {
    var m := Client(0x0303, Random(9, opaque28), [sid], [0x1300 + suite as int], [comp], [ServerName(0, [name])]);
    SmallBodyBytes(m, opaque28, sid, suite, comp, name);
    assert |HandshakeWire(1, ClientBody(m))| == 58;
    BigEndian(3, 1);
    BigEndian(0, 58);
    assert BE24(54) == [0, 0, 54];
  }

  /** The bytes of a small ServerHello without extensions, section 4.1.3 of RFC 8446: handshake type 2. */
  lemma SmallServerHelloBytes(opaque28: Opaque28, sid: byte, suite: byte, comp: byte)
    ensures var m := Server(0x0303, Random(9, opaque28), [sid], 0x1300 + suite as int, comp, []);
      ServerRecord(m, 0x0303) == [22] + [3, 3] + ([0, 45] + ([2] + [0, 0, 41] +
        ([3, 3] + ([0, 0, 0, 9] + opaque28) + [1, sid] + [0x13, suite] + [comp] + ([0, 0] + []))))
  {
    var m := Server(0x0303, Random(9, opaque28), [sid], 0x1300 + suite as int, comp, []);
    assert BE32(9) == [0, 0, 0, 9] && Vec8(m.sessionID) == [1, sid] && ExtsWire(m.extensions) == [];
    assert |ServerBody(m)| == 41 && |HandshakeWire(2, ServerBody(m))| == 45;
    BigEndian(3, 3);
    BigEndian(0x13, suite);
    BigEndian(0, 45);
    assert BE24(41) == [0, 0, 41];
  }

  function SmallBody(opaque28: Opaque28, sid: byte, suite: byte, comp: byte, name: byte): Bytes {
    [3, 3] + ([0, 0, 0, 9] + opaque28) + [1, sid] + [0, 2, 0x13, suite] + [1, comp] +
      ([0, 10] + [0, 0, 0, 6, 0, 4, 0, 0, 1, name])
  }

  lemma SmallBodyBytes(m: Client, opaque28: Opaque28, sid: byte, suite: byte, comp: byte, name: byte)
    requires m == Client(0x0303, Random(9, opaque28), [sid], [0x1300 + suite as int], [comp], [ServerName(0, [name])])
    ensures ClientBody(m) == SmallBody(opaque28, sid, suite, comp, name) && |ClientBody(m)| == 54
  {
    SmallSuites(m, suite);
    SmallExtension(m, name);
    assert BE32(9) == [0, 0, 0, 9] && Vec8(m.sessionID) == [1, sid] && Vec8(m.compressionMethods) == [1, comp];
  }

  lemma SmallSuites(m: Client, suite: byte)
    requires m.cipherSuites == [0x1300 + suite as int]
    ensures ClientSuites(m) == [0, 2, 0x13, suite]
  {
    assert U16Bytes(m.cipherSuites) == BE16(m.cipherSuites[0]) + U16Bytes([]);
  }

  lemma SmallExtension(m: Client, name: byte)
    requires m.extensions == [ServerName(0, [name])]
    ensures ClientTail(m) == [0, 10] + [0, 0, 0, 6, 0, 4, 0, 0, 1, name]
  {
    var e := m.extensions[0];
    assert EncodeExt(e) == [0, 4, 0, 0, 1, name];
    assert ExtWire(e) == [0, 0, 0, 6, 0, 4, 0, 0, 1, name];
    assert ExtsWire(m.extensions) == ExtWire(e) + ExtsWire([]);
  }
}
