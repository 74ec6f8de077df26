/**
  TLS hello extensions of internal/tlsdissector/extension.go: what `Encode`
  writes, what `Decode` accepts, and which extensions survive the trip
  (RFC 8446 section 4.2, RFC 6066 section 3, RFC 7301 section 3.1).

  Decoders that index past the end panic in the original, so a result is a
  value, an error or a panic.
 */
module TlsExtensions {
  import opened Common
  import opened Streams

  datatype Outcome<+T> = Ok(value: T) | Err | Panic

  const EXT_SERVER_NAME: uint16 := 0x00
  const EXT_SUPPORTED_GROUPS: uint16 := 0x0a
  const EXT_EC_POINT_FORMATS: uint16 := 0x0b
  const EXT_SIGNATURE_ALGORITHMS: uint16 := 0x0d
  const EXT_ALPN: uint16 := 0x10
  const EXT_ENCRYPT_THEN_MAC: uint16 := 0x16
  const EXT_EXTENDED_MASTER_SECRET: uint16 := 0x17
  const EXT_SESSION_TICKET: uint16 := 0x23
  const EXT_SUPPORTED_VERSIONS: uint16 := 0x2b
  const EXT_RENEGOTIATION_INFO: uint16 := 0xff01

  datatype Extension =
    | ServerName(nameType: byte, name: Bytes)
    | SupportedGroups(groups: seq<uint16>)
    | ECPointFormats(formats: Bytes)
    | SignatureAlgorithms(algorithms: seq<uint16>)
    | ALPN(protos: seq<Bytes>)
    | EncryptThenMac(data: Bytes)
    | ExtendedMasterSecret(data: Bytes)
    | SessionTicket(data: Bytes)
    | SupportedVersions(versions: seq<uint16>, server: bool)
    | RenegotiationInfo(data: Bytes)
    | Unknown(types: uint16, raw: Bytes)

  function TypeOf(e: Extension): uint16 {
    match e
    case ServerName(_, _) => EXT_SERVER_NAME
    case SupportedGroups(_) => EXT_SUPPORTED_GROUPS
    case ECPointFormats(_) => EXT_EC_POINT_FORMATS
    case SignatureAlgorithms(_) => EXT_SIGNATURE_ALGORITHMS
    case ALPN(_) => EXT_ALPN
    case EncryptThenMac(_) => EXT_ENCRYPT_THEN_MAC
    case ExtendedMasterSecret(_) => EXT_EXTENDED_MASTER_SECRET
    case SessionTicket(_) => EXT_SESSION_TICKET
    case SupportedVersions(_, _) => EXT_SUPPORTED_VERSIONS
    case RenegotiationInfo(_) => EXT_RENEGOTIATION_INFO
    case Unknown(t, _) => t
  }

  /** The extension `NewExtension` allocates for a type, before any decoding. */
  function Blank(t: uint16): Extension {
    if t == EXT_SERVER_NAME then ServerName(0, [])
    else if t == EXT_SUPPORTED_GROUPS then SupportedGroups([])
    else if t == EXT_EC_POINT_FORMATS then ECPointFormats([])
    else if t == EXT_SIGNATURE_ALGORITHMS then SignatureAlgorithms([])
    else if t == EXT_ALPN then ALPN([])
    else if t == EXT_ENCRYPT_THEN_MAC then EncryptThenMac([])
    else if t == EXT_EXTENDED_MASTER_SECRET then ExtendedMasterSecret([])
    else if t == EXT_SESSION_TICKET then SessionTicket([])
    else if t == EXT_SUPPORTED_VERSIONS then SupportedVersions([], false)
    else if t == EXT_RENEGOTIATION_INFO then RenegotiationInfo([])
    else Unknown(t, [])
  }

  // ----- Lists of 16-bit values -----

  function U16Bytes(xs: seq<uint16>): Bytes {
    if |xs| == 0 then [] else BE16(xs[0]) + U16Bytes(xs[1..])
  }

  /** The first `n` big-endian values of `b`. */
  function U16s(b: Bytes, n: nat): seq<uint16>
    requires 2 * n <= |b|
  {
    seq(n, i requires 0 <= i < n => Read16(b, 2 * i))
  }

  lemma {:induction false} U16BytesAt(xs: seq<uint16>, i: nat)
    requires i < |xs|
    ensures |U16Bytes(xs)| == 2 * |xs| && U16Bytes(xs)[2 * i..2 * i + 2] == BE16(xs[i])
    decreases |xs|
  {
    var rest := U16Bytes(xs[1..]);
    if |xs| == 1 {
      assert xs[1..] == [];
    } else {
      U16BytesAt(xs[1..], if i == 0 then 0 else i - 1);
      if i > 0 { assert U16Bytes(xs)[2 * i..2 * i + 2] == rest[2 * (i - 1)..2 * (i - 1) + 2]; }
    }
  }

  lemma U16RoundTrip(xs: seq<uint16>, tail: Bytes)
    ensures |U16Bytes(xs)| == 2 * |xs| && U16s(U16Bytes(xs) + tail, |xs|) == xs
  {
    var b := U16Bytes(xs) + tail;
    if |xs| > 0 { U16BytesAt(xs, 0); }
    forall i | 0 <= i < |xs| ensures Read16(b, 2 * i) == xs[i] {
      U16BytesAt(xs, i);
      assert b[2 * i..2 * i + 2] == U16Bytes(xs)[2 * i..2 * i + 2];
      Read16OfBE16(xs[i], b, 2 * i);
    }
  }

  /** `for _, x := range xs { binary.Write(buf, BigEndian, x) }`. */
  method WriteU16s(buf: Bytes, xs: seq<uint16>) returns (out: Bytes)
    ensures out == buf + U16Bytes(xs)
  {
    out := buf;
    var i := 0;
    while i < |xs|
      invariant 0 <= i <= |xs|
      invariant out + U16Bytes(xs[i..]) == buf + U16Bytes(xs)
    {
      assert xs[i..][1..] == xs[i + 1..];
      out := out + BE16(xs[i]);
      i := i + 1;
    }
  }

  // ----- ALPN -----

  /** The protocol entries `Encode` writes; empty names are skipped. */
  function AlpnBody(protos: seq<Bytes>): Bytes {
    if |protos| == 0 then []
    else (if |protos[0]| == 0 then [] else [Low8(|protos[0]|)] + protos[0]) + AlpnBody(protos[1..])
  }

  /** The decoder's entry loop, which reads a length byte before looking whether any byte is left. */
  function AlpnEntries(b: Bytes): Outcome<seq<Bytes>>
    decreases |b|
  {
    if |b| == 0 then Panic
    else
      var n: nat := b[0];
      if |b| < 1 + n then Err
      else
        var first := if n == 0 then [] else [b[1..1 + n]];
        var rest := b[1 + n..];
        if |rest| == 0 then Ok(first)
        else match AlpnEntries(rest)
          case Ok(more) => Ok(first + more)
          case Err => Err
          case Panic => Panic
  }

  predicate AlpnFits(protos: seq<Bytes>) {
    forall i :: 0 <= i < |protos| ==> 1 <= |protos[i]| <= 255
  }

  lemma {:induction false} AlpnRoundTrip(protos: seq<Bytes>)
    requires |protos| > 0 && AlpnFits(protos)
    ensures AlpnEntries(AlpnBody(protos)) == Ok(protos)
    decreases |protos|
  {
    var p := protos[0];
    assert 1 <= |p| <= 255;
    var rest := AlpnBody(protos[1..]);
    var b := AlpnBody(protos);
    assert b == [|p|] + p + rest;
    assert b[0] == |p| && b[1..1 + |p|] == p && b[1 + |p|..] == rest;
    assert protos == [p] + protos[1..];
    if |protos| > 1 {
      assert AlpnFits(protos[1..]) && 1 <= |protos[1]| && protos[1..][0] == protos[1];
      AlpnRoundTrip(protos[1..]);
      assert |rest| > 0;
      assert AlpnEntries(b) == Ok([p] + protos[1..]);
    } else {
      assert protos[1..] == [] && rest == [];
      assert protos == [p] && AlpnEntries(b) == Ok([p]);
    }
  }

  /** Whatever the decoder returns is made of names of 1 to 255 bytes that fit the bytes it read. */
  lemma {:induction false} AlpnImage(b: Bytes)
    requires AlpnEntries(b).Ok?
    ensures AlpnFits(AlpnEntries(b).value) && |AlpnBody(AlpnEntries(b).value)| <= |b|
    decreases |b|
  {
    var n: nat := b[0];
    var rest := b[1 + n..];
    if |rest| > 0 {
      AlpnImage(rest);
      var more := AlpnEntries(rest).value;
      if n > 0 {
        assert ([b[1..1 + n]] + more)[1..] == more;
      } else {
        assert [] + more == more;
      }
    } else if n > 0 {
      assert AlpnBody([b[1..1 + n]][1..]) == [];
    }
  }

  /** The entry loop panics on no bytes at all, and on nothing else. */
  lemma {:induction false} AlpnEntriesPanic(b: Bytes)
    ensures AlpnEntries(b).Panic? <==> |b| == 0
    decreases |b|
  {
    if |b| > 0 && |b| > 1 + b[0] as int { AlpnEntriesPanic(b[1 + b[0] as int..]); }
  }

  // ----- Supported versions -----

  function NonZeroBytes(versions: seq<uint16>): Bytes {
    if |versions| == 0 then []
    else (if versions[0] == 0 then [] else BE16(versions[0])) + NonZeroBytes(versions[1..])
  }

  predicate AllNonZero(versions: seq<uint16>) {
    forall i :: 0 <= i < |versions| ==> versions[i] != 0
  }

  lemma {:induction false} NonZeroBytesLength(versions: seq<uint16>)
    ensures |NonZeroBytes(versions)| <= 2 * |versions|
    ensures |NonZeroBytes(versions)| == 2 * |versions| <==> AllNonZero(versions)
    ensures AllNonZero(versions) ==> NonZeroBytes(versions) == U16Bytes(versions)
    decreases |versions|
  {
    if |versions| > 0 {
      NonZeroBytesLength(versions[1..]);
      if AllNonZero(versions[1..]) && versions[0] != 0 {
        forall i | 0 <= i < |versions| ensures versions[i] != 0 {
          if i > 0 { assert versions[i] == versions[1..][i - 1]; }
        }
      }
    }
  }

  /** The decoder's version loop: it slices two bytes off as long as any are left. */
  function VersionEntries(b: Bytes): Outcome<seq<uint16>>
    decreases |b|
  {
    if |b| < 2 then Panic
    else if |b| == 2 then Ok([Read16(b, 0)])
    else match VersionEntries(b[2..])
      case Ok(more) => Ok([Read16(b, 0)] + more)
      case Err => Err
      case Panic => Panic
  }

  /** The loop succeeds exactly on a non-empty even number of bytes, and then reads them all as 16-bit values. */
  lemma {:induction false} VersionEntriesMeaning(b: Bytes)
    ensures VersionEntries(b) == if |b| > 0 && |b| % 2 == 0 then Ok(U16s(b, |b| / 2)) else Panic
    decreases |b|
  {
    if |b| == 2 {
      assert [Read16(b, 0)] == U16s(b, 1);
    } else if |b| > 2 {
      VersionEntriesMeaning(b[2..]);
      if |b| % 2 == 0 {
        var rest := U16s(b[2..], |b[2..]| / 2);
        assert |b[2..]| / 2 == |b| / 2 - 1;
        forall i | 0 <= i < |rest| ensures rest[i] == Read16(b, 2 * (i + 1)) {}
        assert [Read16(b, 0)] + rest == U16s(b, |b| / 2);
      }
    }
  }

  // ----- Encode and Decode -----

  function EncodeExt(e: Extension): Bytes {
    match e
    case ServerName(t, name) => BE16(3 + |name|) + [t] + BE16(|name|) + name
    case SupportedGroups(g) => BE16(2 * |g|) + U16Bytes(g)
    case ECPointFormats(f) => [Low8(|f|)] + f
    case SignatureAlgorithms(a) => BE16(2 * |a|) + U16Bytes(a)
    case ALPN(protos) => BE16(|AlpnBody(protos)|) + AlpnBody(protos)
    case EncryptThenMac(d) => d
    case ExtendedMasterSecret(d) => d
    case SessionTicket(d) => d
    case SupportedVersions(v, server) =>
      if |v| == 0 then []
      else if server then BE16(v[0])
      else [Low8(2 * |v|)] + NonZeroBytes(v)
    case RenegotiationInfo(d) => [Low8(|d|)] + d
    case Unknown(_, raw) => raw
  }

  function DecodeVec8(b: Bytes): Outcome<Bytes> {
    if |b| < 1 || |b| < 1 + b[0] as int then Err else Ok(b[1..1 + b[0] as int])
  }

  function DecodeServerName(b: Bytes): Outcome<Extension> {
    if |b| < 5 || |b| < 5 + Read16(b, 3) as int then Err
    else ServerNameAt(b, Read16(b, 3))
  }

  function ServerNameAt(b: Bytes, n: nat): Outcome<Extension>
    requires 5 + n <= |b|
  {
    Ok(ServerName(b[2], b[5..5 + n]))
  }

  /** Group lists round an odd byte length down. */
  function DecodeGroups(b: Bytes): Outcome<seq<uint16>> {
    if |b| < 2 then Err
    else
      var n := Read16(b, 0) as int / 2;
      if |b| < 2 + 2 * n then Err else Ok(U16s(b[2..], n))
  }

  /** Signature algorithms do not: an odd byte length reads one byte more, or panics at the end of the data. */
  function DecodeAlgorithms(b: Bytes): Outcome<seq<uint16>> {
    if |b| < 2 || |b| < 2 + Read16(b, 0) as int then Err
    else
      var n := (Read16(b, 0) as int + 1) / 2;
      if |b| < 2 + 2 * n then Panic else Ok(U16s(b[2..], n))
  }

  function DecodeAlpn(b: Bytes): Outcome<seq<Bytes>> {
    if |b| < 2 || |b| < 2 + Read16(b, 0) as int then Err
    else AlpnEntries(b[2..2 + Read16(b, 0) as int])
  }

  function DecodeVersions(b: Bytes): Outcome<(seq<uint16>, bool)> {
    if |b| < 2 then Err
    else if |b| == 2 then Ok(([Read16(b, 0)], true))
    else if |b| < 1 + b[0] as int then Err
    else match VersionEntries(b[1..1 + b[0] as int])
      case Ok(v) => Ok((v, false))
      case Err => Err
      case Panic => Panic
  }

  function Wrap<T>(o: Outcome<T>, f: T -> Extension): Outcome<Extension> {
    match o
    case Ok(v) => Ok(f(v))
    case Err => Err
    case Panic => Panic
  }

  /** `NewExtension`: empty data leaves the blank extension undecoded. */
  function NewExtension(t: uint16, b: Bytes): Outcome<Extension> {
    if |b| == 0 then Ok(Blank(t))
    else if t == EXT_SERVER_NAME then DecodeServerName(b)
    else if t == EXT_SUPPORTED_GROUPS then Wrap(DecodeGroups(b), g => SupportedGroups(g))
    else if t == EXT_EC_POINT_FORMATS then Wrap(DecodeVec8(b), f => ECPointFormats(f))
    else if t == EXT_SIGNATURE_ALGORITHMS then Wrap(DecodeAlgorithms(b), a => SignatureAlgorithms(a))
    else if t == EXT_ALPN then Wrap(DecodeAlpn(b), p => ALPN(p))
    else if t == EXT_ENCRYPT_THEN_MAC then Ok(EncryptThenMac(b))
    else if t == EXT_EXTENDED_MASTER_SECRET then Ok(ExtendedMasterSecret(b))
    else if t == EXT_SESSION_TICKET then Ok(SessionTicket(b))
    else if t == EXT_SUPPORTED_VERSIONS then Wrap(DecodeVersions(b), (v: (seq<uint16>, bool)) => SupportedVersions(v.0, v.1))
    else if t == EXT_RENEGOTIATION_INFO then Wrap(DecodeVec8(b), d => RenegotiationInfo(d))
    else Ok(Unknown(t, b))
  }

  // ----- Which extensions survive the trip -----

  /** Length fields do not overflow, no entry is dropped, and the list forms the decoder cannot read do not arise. */
  predicate WireExt(e: Extension) {
    match e
    case ServerName(_, name) => |name| <= 65535
    case SupportedGroups(g) => |g| <= 32767
    case ECPointFormats(f) => |f| <= 255
    case SignatureAlgorithms(a) => |a| <= 32767
    case ALPN(protos) => |protos| > 0 && AlpnFits(protos) && |AlpnBody(protos)| <= 65535
    case SupportedVersions(v, server) =>
      if server then |v| == 1 else |v| <= 127 && AllNonZero(v)
    case RenegotiationInfo(d) => |d| <= 255
    case Unknown(t, _) => Blank(t).Unknown?
    case _ => true
  }

  lemma Vec8RoundTrip(d: Bytes)
    ensures DecodeVec8([Low8(|d|)] + d) == Ok(d) <==> |d| <= 255
  {
    var b := [Low8(|d|)] + d;
    if |d| <= 255 { assert b[1..1 + |d|] == d; }
  }

  lemma ServerNameRoundTrip(t: byte, name: Bytes)
    ensures DecodeServerName(EncodeExt(ServerName(t, name))) == Ok(ServerName(t, name)) <==> |name| <= 65535
  {
    var b := EncodeExt(ServerName(t, name));
    assert b[3..5] == BE16(|name|) && b[2] == t;
    Read16OfBE16(|name|, b, 3);
    if |name| <= 65535 { assert b[5..5 + |name|] == name; }
  }

  /** What the two list decoders see: the length field modulo 65536, then the list. */
  lemma ListField(body: Bytes)
    ensures var b := BE16(|body|) + body; Read16(b, 0) == |body| % 65536 && b[2..] == body
  {
    var b := BE16(|body|) + body;
    assert b[0..2] == BE16(|body|);
    Read16OfBE16(|body|, b, 0);
  }

  /** How many values the byte length `2 * m` announces once cut to 16 bits. */
  function Announced(m: nat): (n: nat)
    ensures n == (2 * m) % 65536 / 2 == ((2 * m) % 65536 + 1) / 2 && n <= m
    ensures n == m <==> m <= 32767
  {
    m % 32768
  }

  /** Both list decoders read back exactly the values the length field announces. */
  lemma GroupsDecoded(xs: seq<uint16>)
    ensures |U16Bytes(xs)| == 2 * |xs|
    ensures DecodeGroups(BE16(2 * |xs|) + U16Bytes(xs)) == Ok(U16s(U16Bytes(xs), Announced(|xs|)))
  {
    U16RoundTrip(xs, []);
    ListField(U16Bytes(xs));
  }

  lemma AlgorithmsDecoded(xs: seq<uint16>)
    ensures |U16Bytes(xs)| == 2 * |xs|
    ensures DecodeAlgorithms(BE16(2 * |xs|) + U16Bytes(xs)) == Ok(U16s(U16Bytes(xs), Announced(|xs|)))
  {
    U16RoundTrip(xs, []);
    ListField(U16Bytes(xs));
    var b := BE16(2 * |xs|) + U16Bytes(xs);
    var n := Announced(|xs|);
    assert Read16(b, 0) as int == 2 * n && (Read16(b, 0) as int + 1) / 2 == n;
    assert b[2..] == U16Bytes(xs) && |b| >= 2 + 2 * n;
  }

  lemma U16ListRoundTrip(xs: seq<uint16>)
    ensures DecodeGroups(EncodeExt(SupportedGroups(xs))) == Ok(xs) <==> |xs| <= 32767
    ensures DecodeAlgorithms(EncodeExt(SignatureAlgorithms(xs))) == Ok(xs) <==> |xs| <= 32767
  {
    GroupsDecoded(xs);
    AlgorithmsDecoded(xs);
    var back := U16s(U16Bytes(xs), Announced(|xs|));
    assert |back| == Announced(|xs|);
    if |xs| <= 32767 {
      U16RoundTrip(xs, []);
      assert U16Bytes(xs) + [] == U16Bytes(xs);
    }
  }

  lemma AlpnExtRoundTrip(protos: seq<Bytes>)
    ensures DecodeAlpn(EncodeExt(ALPN(protos))) == Ok(protos) <==> WireExt(ALPN(protos))
  {
    var body := AlpnBody(protos);
    ListField(body);
    var b := BE16(|body|) + body;
    var k := Read16(b, 0) as int;
    assert b[2..2 + k] == body[..k];
    if WireExt(ALPN(protos)) {
      assert body[..k] == body;
      AlpnRoundTrip(protos);
    } else if AlpnEntries(body[..k]) == Ok(protos) {
      AlpnImage(body[..k]);
    }
  }

  /**
    The encoding of a protocol list makes the decoder panic exactly when it
    announces no bytes: an empty list, or one whose length wraps to 0.
   */
  lemma AlpnExtPanics(protos: seq<Bytes>)
    ensures DecodeAlpn(EncodeExt(ALPN(protos))).Panic? <==> |AlpnBody(protos)| % 0x1_0000 == 0
    ensures (forall i :: 0 <= i < |protos| ==> protos[i] == []) ==> DecodeAlpn(EncodeExt(ALPN(protos))).Panic?
  {
    var body := AlpnBody(protos);
    ListField(body);
    var b := BE16(|body|) + body;
    var k := Read16(b, 0) as int;
    assert b[2..2 + k] == body[..k];
    AlpnEntriesPanic(body[..k]);
    if forall i :: 0 <= i < |protos| ==> protos[i] == [] { EmptyNames(protos); }
  }

  lemma {:induction false} EmptyNames(protos: seq<Bytes>)
    requires forall i :: 0 <= i < |protos| ==> protos[i] == []
    ensures AlpnBody(protos) == []
    decreases |protos|
  {
    if |protos| > 0 { EmptyNames(protos[1..]); }
  }

  lemma ServerVersionRoundTrip(v: seq<uint16>)
    requires |v| > 0
    ensures DecodeVersions(BE16(v[0])) == Ok(([v[0]], true))
    ensures DecodeVersions(BE16(v[0])) == Ok((v, true)) <==> |v| == 1
  {
    Read16OfBE16(v[0], BE16(v[0]), 0);
    if |v| == 1 { assert v == [v[0]]; }
  }

  /** A client list: a length byte, then values. */
  lemma ClientVersionsDecoded(n: byte, body: Bytes)
    requires |body| >= 2
    ensures DecodeVersions([n] + body) ==
      if |body| < n as int then Err
      else if n > 0 && n % 2 == 0 then Ok((U16s(body, n as int / 2), false))
      else Panic
  {
    var b := [n] + body;
    if |body| >= n as int {
      assert b[1..1 + n as int] == body[..n];
      VersionEntriesMeaning(body[..n]);
      if n % 2 == 0 { assert U16s(body[..n], n as int / 2) == U16s(body, n as int / 2); }
    }
  }

  /** How many values the byte length `2 * m` announces once cut to 8 bits. */
  function AnnouncedByte(m: nat): (n: nat)
    ensures Low8(2 * m) as int == 2 * n && n <= m
    ensures n == m <==> m <= 127
  {
    m % 128
  }

  lemma ClientVersionsAnnounced(v: seq<uint16>, k: byte, n: nat)
    requires |v| > 0 && k as int == 2 * n && n <= |v| && (n == |v| <==> |v| <= 127)
    ensures DecodeVersions([k] + NonZeroBytes(v)) == Ok((v, false)) <==> |v| <= 127 && AllNonZero(v)
  {
    var body := NonZeroBytes(v);
    NonZeroBytesLength(v);
    NonZeroBytesEven(v);
    if |body| >= 2 {
      ClientVersionsDecoded(k, body);
      if n == |v| && AllNonZero(v) {
        U16RoundTrip(v, []);
        assert U16Bytes(v) + [] == U16Bytes(v);
      }
    }
  }

  lemma ClientVersionsRoundTrip(v: seq<uint16>)
    requires |v| > 0
    ensures DecodeVersions([Low8(2 * |v|)] + NonZeroBytes(v)) == Ok((v, false)) <==> |v| <= 127 && AllNonZero(v)
  {
    ClientVersionsAnnounced(v, Low8(2 * |v|), AnnouncedByte(|v|));
  }

  lemma {:induction false} NonZeroBytesEven(versions: seq<uint16>)
    ensures |NonZeroBytes(versions)| != 1
    ensures |NonZeroBytes(versions)| % 2 == 0
    decreases |versions|
  {
    if |versions| > 0 { NonZeroBytesEven(versions[1..]); }
  }

  lemma RawRoundTrip(e: Extension)
    requires e.EncryptThenMac? || e.ExtendedMasterSecret? || e.SessionTicket? || e.Unknown?
    ensures NewExtension(TypeOf(e), EncodeExt(e)) == Ok(e) <==> WireExt(e)
  {
  }

  lemma GroupsRoundTrip(xs: seq<uint16>)
    ensures NewExtension(EXT_SUPPORTED_GROUPS, EncodeExt(SupportedGroups(xs))) == Ok(SupportedGroups(xs)) <==> |xs| <= 32767
  {
    U16ListRoundTrip(xs);
  }

  lemma AlgorithmsRoundTrip(xs: seq<uint16>)
    ensures NewExtension(EXT_SIGNATURE_ALGORITHMS, EncodeExt(SignatureAlgorithms(xs))) == Ok(SignatureAlgorithms(xs))
      <==> |xs| <= 32767
  {
    U16ListRoundTrip(xs);
  }

  lemma VersionsRoundTrip(e: Extension)
    requires e.SupportedVersions?
    ensures NewExtension(TypeOf(e), EncodeExt(e)) == Ok(e) <==> WireExt(e)
  {
    if |e.versions| > 0 {
      if e.server { ServerVersionRoundTrip(e.versions); } else { ClientVersionsRoundTrip(e.versions); }
    }
  }

  /** Exactly the wire extensions are decoded back from their own encoding. */
  lemma ExtRoundTrip(e: Extension)
    ensures NewExtension(TypeOf(e), EncodeExt(e)) == Ok(e) <==> WireExt(e)
  {
    if e.SupportedGroups? {
      GroupsRoundTrip(e.groups);
    } else if e.SignatureAlgorithms? {
      AlgorithmsRoundTrip(e.algorithms);
    } else if e.ALPN? {
      AlpnExtRoundTrip(e.protos);
    } else if e.SupportedVersions? {
      VersionsRoundTrip(e);
    } else if e.ServerName? {
      ServerNameRoundTrip(e.nameType, e.name);
    } else if e.ECPointFormats? {
      Vec8RoundTrip(e.formats);
    } else if e.RenegotiationInfo? {
      Vec8RoundTrip(e.data);
    } else {
      RawRoundTrip(e);
    }
  }
}
