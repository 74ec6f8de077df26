/**
  The `Encode` and `Decode` methods of extension.go in their own step-by-step
  form, each proved equal to the wire functions of TlsExtensions.
 */
module TlsExtensionCodec {
  import opened Common
  import opened Streams
  import opened TlsExtensions

  function Prepend<T>(acc: seq<T>, o: Outcome<seq<T>>): Outcome<seq<T>> {
    match o
    case Ok(more) => Ok(acc + more)
    case Err => Err
    case Panic => Panic
  }

  lemma PrependLaws<T>(acc: seq<T>, x: seq<T>, o: Outcome<seq<T>>)
    ensures Prepend([], o) == o && Prepend(acc, Ok([])) == Ok(acc)
    ensures Prepend(acc + x, o) == Prepend(acc, Prepend(x, o))
  {
    assert acc + [] == acc;
    if o.Ok? {
      assert [] + o.value == o.value;
      assert acc + x + o.value == acc + (x + o.value);
    }
  }

  /** `data[0], data[1] = hi, lo` over a two-byte placeholder. */
  function Patch16(data: Bytes, n: nat): (r: Bytes)
    requires |data| >= 2
    ensures r == BE16(n) + data[2..]
  {
    data[0 := BE16(n)[0]][1 := BE16(n)[1]]
  }

  /** Reserve two bytes, append the entries, then patch the length over the placeholder. */
  method EncodeAlpnLoop(protos: seq<Bytes>) returns (data: Bytes)
    ensures data == EncodeExt(ALPN(protos))
  {
    var buf: Bytes := [0, 0];
    var i := 0;
    while i < |protos|
      invariant 0 <= i <= |protos|
      invariant |buf| >= 2 && buf + AlpnBody(protos[i..]) == [0, 0] + AlpnBody(protos)
    {
      assert protos[i..][0] == protos[i] && protos[i..][1..] == protos[i + 1..];
      if |protos[i]| != 0 {
        var entry := [Low8(|protos[i]|)] + protos[i];
        AppendPiece(buf, entry, AlpnBody(protos[i + 1..]));
        buf := buf + entry;
      }
      i := i + 1;
    }
    assert buf == [0, 0] + AlpnBody(protos);
    data := Patch16(buf, |buf| - 2);
  }

  method EncodeVersionsLoop(versions: seq<uint16>, server: bool) returns (data: Bytes)
    ensures data == EncodeExt(SupportedVersions(versions, server))
  {
    if |versions| == 0 {
      return [];
    }
    if server {
      return BE16(versions[0]);
    }
    data := [Low8(2 * |versions|)];
    var i := 0;
    while i < |versions|
      invariant 0 <= i <= |versions|
      invariant data + NonZeroBytes(versions[i..]) == [Low8(2 * |versions|)] + NonZeroBytes(versions)
    {
      assert versions[i..][0] == versions[i] && versions[i..][1..] == versions[i + 1..];
      if versions[i] != 0 {
        data := data + BE16(versions[i]);
      }
      i := i + 1;
    }
  }

  method EncodeU16List(xs: seq<uint16>) returns (data: Bytes)
    ensures data == EncodeExt(SupportedGroups(xs)) == EncodeExt(SignatureAlgorithms(xs))
  {
    data := WriteU16s(BE16(2 * |xs|), xs);
  }

  method Encode(e: Extension) returns (data: Bytes)
    ensures data == EncodeExt(e)
  {
    match e
    case ServerName(t, name) => data := BE16(1 + 2 + |name|) + [t] + BE16(|name|) + name;
    case SupportedGroups(g) => data := EncodeU16List(g);
    case ECPointFormats(f) => data := [Low8(|f|)] + f;
    case SignatureAlgorithms(a) => data := EncodeU16List(a);
    case ALPN(protos) => data := EncodeAlpnLoop(protos);
    case EncryptThenMac(d) => data := d;
    case ExtendedMasterSecret(d) => data := d;
    case SessionTicket(d) => data := d;
    case SupportedVersions(v, server) => data := EncodeVersionsLoop(v, server);
    case RenegotiationInfo(d) => data := [Low8(|d|)] + d;
    case Unknown(_, raw) => data := raw;
  }

  method DecodeGroupsLoop(b: Bytes) returns (r: Outcome<seq<uint16>>)
    ensures r == DecodeGroups(b)
  {
    if |b| < 2 { return Err; }
    var n := Read16(b, 0) as int / 2 * 2;
    if |b[2..]| < n { return Err; }
    var groups := [];
    var i := 0;
    while i < n
      invariant 0 <= i <= n && i % 2 == 0 && n % 2 == 0 && n <= |b| - 2
      invariant groups == U16s(b[2..], i / 2)
    {
      groups := groups + [Read16(b, 2 + i)];
      i := i + 2;
    }
    r := Ok(groups);
  }

  method DecodeAlgorithmsLoop(b: Bytes) returns (r: Outcome<seq<uint16>>)
    ensures r == DecodeAlgorithms(b)
  {
    if |b| < 2 { return Err; }
    var n: nat := Read16(b, 0);
    if |b[2..]| < n { return Err; }
    var algorithms := [];
    var i := 0;
    while i < n
      invariant 0 <= i <= n + 1 && i % 2 == 0 && 2 + i <= |b|
      invariant algorithms == U16s(b[2..], i / 2)
    {
      if |b[2 + i..]| < 2 { return Panic; }
      algorithms := algorithms + [Read16(b, 2 + i)];
      i := i + 2;
    }
    r := Ok(algorithms);
  }

  method DecodeAlpnLoop(data: Bytes) returns (r: Outcome<seq<Bytes>>)
    ensures r == DecodeAlpn(data)
  {
    if |data| < 2 { return Err; }
    var alpnLen: nat := Read16(data, 0);
    var b := data[2..];
    if |b| < alpnLen { return Err; }
    b := b[..alpnLen];
    assert b == data[2..2 + alpnLen];
    var protos: seq<Bytes> := [];
    PrependLaws([], [], AlpnEntries(b));
    while true
      invariant DecodeAlpn(data) == Prepend(protos, AlpnEntries(b))
      decreases |b|
    {
      if |b| == 0 { return Panic; }
      var n: nat := b[0];
      if |b[1..]| < n { return Err; }
      ghost var before := protos;
      ghost var first := if n == 0 then [] else [b[1..1 + n]];
      if n != 0 {
        protos := protos + [b[1..1 + n]];
      }
      assert protos == before + first;
      b := b[1 + n..];
      if |b| == 0 { return Ok(protos); }
      PrependLaws(before, first, AlpnEntries(b));
    }
  }

  method DecodeVersionsLoop(data: Bytes) returns (r: Outcome<(seq<uint16>, bool)>)
    ensures r == DecodeVersions(data)
  {
    if |data| < 2 { return Err; }
    if |data| == 2 { return Ok(([Read16(data, 0)], true)); }
    var verLen: nat := data[0];
    var b := data[1..];
    if |b| < verLen { return Err; }
    b := b[..verLen];
    ghost var start := b;
    assert b == data[1..1 + verLen];
    var versions: seq<uint16> := [];
    PrependLaws([], [], VersionEntries(b));
    while true
      invariant VersionEntries(start) == Prepend(versions, VersionEntries(b))
      decreases |b|
    {
      // Slicing off two bytes panics, at the latest when the rest is taken.
      if |b| < 2 { return Panic; }
      ghost var before, first := versions, [Read16(b, 0)];
      versions := versions + [Read16(b, 0)];
      b := b[2..];
      if |b| == 0 { return Ok((versions, false)); }
      PrependLaws(before, first, VersionEntries(b));
    }
  }

  /** `make` of `n` bytes and `copy` from `src`: as many bytes as both have, zeros behind. */
  method MakeAndCopy(n: nat, src: Bytes) returns (r: Bytes)
    ensures n <= |src| ==> r == src[..n]
    ensures |r| == n
  {
    var buf := new byte[n](_ => 0);
    var i := 0;
    while i < n && i < |src|
      invariant 0 <= i <= n && i <= |src| && buf[..i] == src[..i]
    {
      buf[i] := src[i];
      i := i + 1;
    }
    r := buf[..];
  }

  /** The two lengths in front are not compared. */
  method DecodeServerNameSteps(b: Bytes) returns (r: Outcome<Extension>)
    ensures r == DecodeServerName(b)
  {
    if |b| < 5 { return Err; }
    var nameType := b[2];
    var n: nat := Read16(b, 3);
    if |b[5..]| < n { return Err; }
    r := Ok(ServerName(nameType, b[5..5 + n]));
  }

  /** Point formats and renegotiation data: a length byte, then a copy. */
  method DecodeVec8Steps(b: Bytes) returns (r: Outcome<Bytes>)
    ensures r == DecodeVec8(b)
  {
    if |b| < 1 { return Err; }
    var n: nat := b[0];
    if |b[1..]| < n { return Err; }
    var data := MakeAndCopy(n, b[1..]);
    assert b[1..][..n] == b[1..1 + n];
    r := Ok(data);
  }

  /** `NewExtension`: the decoder of the type, unless there is no data. */
  method DecodeInto(t: uint16, data: Bytes) returns (r: Outcome<Extension>)
    ensures r == NewExtension(t, data)
  {
    if |data| == 0 { return Ok(Blank(t)); }
    if t == EXT_SERVER_NAME {
      r := DecodeServerNameSteps(data);
    } else if t == EXT_SUPPORTED_GROUPS {
      var g := DecodeGroupsLoop(data);
      r := Wrap(g, g => SupportedGroups(g));
    } else if t == EXT_EC_POINT_FORMATS {
      var f := DecodeVec8Steps(data);
      r := Wrap(f, f => ECPointFormats(f));
    } else if t == EXT_SIGNATURE_ALGORITHMS {
      var a := DecodeAlgorithmsLoop(data);
      r := Wrap(a, a => SignatureAlgorithms(a));
    } else if t == EXT_ALPN {
      var p := DecodeAlpnLoop(data);
      r := Wrap(p, p => ALPN(p));
    } else if t == EXT_SUPPORTED_VERSIONS {
      var v := DecodeVersionsLoop(data);
      r := Wrap(v, (v: (seq<uint16>, bool)) => SupportedVersions(v.0, v.1));
    } else if t == EXT_RENEGOTIATION_INFO {
      var d := DecodeVec8Steps(data);
      r := Wrap(d, d => RenegotiationInfo(d));
    } else {
      var raw := MakeAndCopy(|data|, data);
      assert data[..|data|] == data;
      r := Ok(RawExt(t, raw));
    }
  }

  /** The types whose data is kept as it is. */
  function RawExt(t: uint16, raw: Bytes): Extension {
    if t == EXT_ENCRYPT_THEN_MAC then EncryptThenMac(raw)
    else if t == EXT_EXTENDED_MASTER_SECRET then ExtendedMasterSecret(raw)
    else if t == EXT_SESSION_TICKET then SessionTicket(raw)
    else Unknown(t, raw)
  }

  // ----- The extensions block -----

  function ExtWire(e: Extension): Bytes {
    BE16(TypeOf(e)) + BE16(|EncodeExt(e)|) + EncodeExt(e)
  }

  function ExtsWire(es: seq<Extension>): Bytes {
    if |es| == 0 then [] else ExtWire(es[0]) + ExtsWire(es[1..])
  }

  /** The extension numbers of section 4.2 of RFC 8446 and of the registry it names. */
  lemma ExtensionNumbers(e: Extension)
    ensures e.ServerName? ==> TypeOf(e) == 0
    ensures e.SupportedGroups? ==> TypeOf(e) == 10
    ensures e.ECPointFormats? ==> TypeOf(e) == 11
    ensures e.SignatureAlgorithms? ==> TypeOf(e) == 13
    ensures e.ALPN? ==> TypeOf(e) == 16
    ensures e.EncryptThenMac? ==> TypeOf(e) == 22
    ensures e.ExtendedMasterSecret? ==> TypeOf(e) == 23
    ensures e.SessionTicket? ==> TypeOf(e) == 35
    ensures e.SupportedVersions? ==> TypeOf(e) == 43
    ensures e.RenegotiationInfo? ==> TypeOf(e) == 0xff01
  {
  }

  /** An extension on the wire: its number, the length of its data, its data. */
  lemma ExtensionHeader(e: Extension, hi: byte, lo: byte)
    requires |EncodeExt(e)| == hi as int * 256 + lo as int
    ensures ExtWire(e)[4..] == EncodeExt(e) && ExtWire(e)[2..4] == [hi, lo]
    ensures TypeOf(e) <= 255 ==> ExtWire(e)[..2] == [0, TypeOf(e)]
  {
    BigEndian(hi, lo);
    if TypeOf(e) <= 255 { BigEndian(0, TypeOf(e)); }
  }

  /** Small extensions, byte for byte: big-endian values, each list behind its length. */
  lemma SmallExtensions(a: byte, b: byte, c: byte, d: byte)
    ensures EncodeExt(SupportedGroups([a as int * 256 + b, c as int * 256 + d])) == [0, 4, a, b, c, d]
    ensures EncodeExt(SignatureAlgorithms([a as int * 256 + b])) == [0, 2, a, b]
    ensures EncodeExt(ECPointFormats([a, b])) == [2, a, b] && EncodeExt(RenegotiationInfo([])) == [0]
    ensures EncodeExt(ServerName(a, [b, c, d])) == [0, 6, a, 0, 3, b, c, d]
  {
    SmallList(a, b, c, d);
    BigEndian(0, 2);
    BigEndian(0, 3);
    BigEndian(0, 4);
    BigEndian(0, 6);
  }

  lemma SmallListExtensions(a: byte, b: byte, c: byte, d: byte)
    requires a > 0
    ensures EncodeExt(ALPN([[a, b], [c]])) == [0, 5, 2, a, b, 1, c]
    ensures EncodeExt(SupportedVersions([a as int * 256 + b, a as int * 256 + d], false)) == [4, a, b, a, d]
    ensures EncodeExt(SupportedVersions([a as int * 256 + b], true)) == [a, b]
  {
    SmallVersions(a, b, d);
    SmallProtos(a, b, c);
    BigEndian(a, b);
    BigEndian(0, 5);
  }

  lemma SmallList(a: byte, b: byte, c: byte, d: byte)
    ensures U16Bytes([a as int * 256 + b]) == [a, b]
    ensures U16Bytes([a as int * 256 + b, c as int * 256 + d]) == [a, b, c, d]
  {
    var x: uint16, y: uint16 := a as int * 256 + b, c as int * 256 + d;
    BigEndian(a, b);
    BigEndian(c, d);
    assert [x][1..] == [] && [y][1..] == [];
    assert U16Bytes([y]) == BE16(y) + U16Bytes([]) && U16Bytes([x]) == BE16(x) + U16Bytes([]);
    assert [x, y][1..] == [y];
  }

  lemma SmallVersions(a: byte, b: byte, d: byte)
    requires a > 0
    ensures NonZeroBytes([a as int * 256 + b, a as int * 256 + d]) == [a, b, a, d]
  {
    var x: uint16, y: uint16 := a as int * 256 + b, a as int * 256 + d;
    BigEndian(a, b);
    BigEndian(a, d);
    assert [y][1..] == [];
    assert NonZeroBytes([y]) == BE16(y) + NonZeroBytes([]);
    assert [x, y][1..] == [y];
  }

  lemma SmallProtos(a: byte, b: byte, c: byte)
    ensures AlpnBody([[a, b], [c]]) == [2, a, b, 1, c]
  {
    assert [[c]][1..] == [];
    assert AlpnBody([[c]]) == [1] + [c] + AlpnBody([]);
    assert [[a, b], [c]][1..] == [[c]];
  }

  /** `ReadExtension`: one extension and the bytes it took. */
  function ReadExt(b: Bytes): Outcome<(Extension, nat)> {
    if |b| < 4 || |b| < 4 + Read16(b, 2) as int then Err
    else match NewExtension(Read16(b, 0), b[4..4 + Read16(b, 2) as int])
      case Ok(e) => Ok((e, 4 + Read16(b, 2) as int))
      case Err => Err
      case Panic => Panic
  }

  function ReadExts(b: Bytes): Outcome<seq<Extension>>
    decreases |b|
  {
    if |b| == 0 then Ok([])
    else match ReadExt(b)
      case Ok((e, used)) => if used == 0 || used > |b| then Err else Prepend([e], ReadExts(b[used..]))
      case Err => Err
      case Panic => Panic
  }

  predicate WireFits(es: seq<Extension>) {
    forall i :: 0 <= i < |es| ==> WireExt(es[i]) && |EncodeExt(es[i])| <= 65535
  }

  lemma ExtHeader(t: uint16, d: Bytes, tail: Bytes)
    requires |d| <= 65535
    ensures var b := BE16(t) + BE16(|d|) + d + tail;
      Read16(b, 0) == t && Read16(b, 2) as int == |d| && b[4..4 + |d|] == d
  {
    var b := BE16(t) + BE16(|d|) + d + tail;
    assert b[0..2] == BE16(t) && b[2..4] == BE16(|d|);
    Read16OfBE16(t, b, 0);
    Read16OfBE16(|d|, b, 2);
  }

  lemma ReadExtOfWire(e: Extension, tail: Bytes)
    requires WireExt(e) && |EncodeExt(e)| <= 65535
    ensures |ExtWire(e)| == 4 + |EncodeExt(e)|
    ensures ReadExt(ExtWire(e) + tail) == Ok((e, |ExtWire(e)|))
  {
    ExtHeader(TypeOf(e), EncodeExt(e), tail);
    ExtRoundTrip(e);
  }

  /** Any list of wire extensions reads back as the same list. */
  lemma {:induction false} ExtsRoundTrip(es: seq<Extension>)
    requires WireFits(es)
    ensures ReadExts(ExtsWire(es)) == Ok(es)
    decreases |es|
  {
    if |es| > 0 {
      var rest := ExtsWire(es[1..]);
      var w := ExtWire(es[0]);
      ReadExtOfWire(es[0], rest);
      assert (w + rest)[|w|..] == rest;
      ExtsRoundTrip(es[1..]);
      assert es == [es[0]] + es[1..];
    }
  }

  lemma {:induction false} NonZeroShort(v: seq<uint16>)
    ensures |NonZeroBytes(v)| <= 2 * |v|
    decreases |v|
  {
    if |v| > 0 { NonZeroShort(v[1..]); }
  }

  /** What is decoded from bytes that fit a length field fits one again. */
  lemma DecodedFits(t: uint16, b: Bytes)
    requires NewExtension(t, b).Ok? && |b| <= 65535
    ensures |EncodeExt(NewExtension(t, b).value)| <= 65535
  {
    var e := NewExtension(t, b).value;
    if e.SupportedGroups? {
      U16RoundTrip(e.groups, []);
    } else if e.SignatureAlgorithms? {
      U16RoundTrip(e.algorithms, []);
    } else if e.ALPN? && |b| > 0 {
      AlpnImage(b[2..2 + Read16(b, 0) as int]);
    } else if e.SupportedVersions? {
      NonZeroShort(e.versions);
      if |b| > 2 { VersionEntriesMeaning(b[1..1 + b[0] as int]); }
    }
  }

  lemma {:induction false} ReadExtsFit(b: Bytes)
    requires ReadExts(b).Ok?
    ensures forall i :: 0 <= i < |ReadExts(b).value| ==> |EncodeExt(ReadExts(b).value[i])| <= 65535
    decreases |b|
  {
    if |b| > 0 {
      var (e, used) := ReadExt(b).value;
      DecodedFits(Read16(b, 0), b[4..4 + Read16(b, 2) as int]);
      ReadExtsFit(b[used..]);
      assert ReadExts(b).value == [e] + ReadExts(b[used..]).value;
    }
  }

  /** A cut-off extension block that reads as the whole list was not cut off, and the list is a wire list. */
  lemma {:induction false} ReadExtsNeeds(es: seq<Extension>, p: Bytes)
    requires p <= ExtsWire(es) && ReadExts(p) == Ok(es)
    requires forall i :: 0 <= i < |es| ==> |EncodeExt(es[i])| <= 65535
    ensures p == ExtsWire(es) && WireFits(es)
    decreases |es|
  {
    if |es| > 0 {
      var w, rest := EncodeExt(es[0]), ExtsWire(es[1..]);
      var b := BE16(TypeOf(es[0])) + BE16(|w|) + w + rest;
      ExtHeader(TypeOf(es[0]), w, rest);
      assert p == b[..|p|];
      assert |p| > 0;
      var (e, used) := ReadExt(p).value;
      var more := ReadExts(p[used..]).value;
      assert es == [e] + more;
      assert Read16(p, 0) == Read16(b, 0) && Read16(p, 2) == Read16(b, 2);
      assert p[4..4 + |w|] == b[4..4 + |w|];
      ExtRoundTrip(es[0]);
      assert p[used..] <= rest by { assert b[used..] == rest; }
      ReadExtsNeeds(es[1..], p[used..]);
      assert p == b[..used] + p[used..];
    }
  }

  /** `readExtensions`: a loop over a reader of the block. */
  method ReadExtensions(block: Bytes) returns (r: Outcome<seq<Extension>>)
    ensures r == ReadExts(block)
  {
    var b := block;
    var exts: seq<Extension> := [];
    PrependLaws([], [], ReadExts(b));
    while |b| > 0
      invariant ReadExts(block) == Prepend(exts, ReadExts(b))
    {
      if |b| < 4 { return Err; }
      var t, n: nat := Read16(b, 0), Read16(b, 2);
      if |b| < 4 + n { return Err; }
      var e := DecodeInto(t, b[4..4 + n]);
      if e.Err? { return Err; }
      if e.Panic? { return Panic; }
      ghost var before := exts;
      exts := exts + [e.value];
      b := b[4 + n..];
      PrependLaws(before, [e.value], ReadExts(b));
    }
    PrependLaws(exts, [], ReadExts(b));
    r := Ok(exts);
  }

  lemma AppendPiece(out: Bytes, piece: Bytes, rest: Bytes)
    ensures out + piece + rest == out + (piece + rest)
  {
  }

  /** The extension loop of `WriteTo`, which also adds up the block's length. */
  method WriteExtensions(buf: Bytes, es: seq<Extension>) returns (out: Bytes, extLen: nat)
    ensures out == buf + ExtsWire(es) && extLen == |ExtsWire(es)|
  {
    out, extLen := buf, 0;
    var i := 0;
    while i < |es|
      invariant 0 <= i <= |es|
      invariant out + ExtsWire(es[i..]) == buf + ExtsWire(es)
      invariant |buf| + extLen == |out|
    {
      assert es[i..][0] == es[i] && es[i..][1..] == es[i + 1..];
      var b := Encode(es[i]);
      var piece := BE16(TypeOf(es[i])) + BE16(|b|) + b;
      AppendPiece(out, piece, ExtsWire(es[i + 1..]));
      out := out + piece;
      extLen := extLen + 4 + |b|;
      i := i + 1;
    }
  }

  /** The limits of the wire format, on each kind of extension. */
  lemma WireLimits(e: Extension)
    ensures e.ServerName? ==> (WireExt(e) <==> |e.name| <= 65535)
    ensures e.SupportedGroups? ==> (WireExt(e) <==> |e.groups| <= 32767)
    ensures e.SignatureAlgorithms? ==> (WireExt(e) <==> |e.algorithms| <= 32767)
    ensures e.ECPointFormats? ==> (WireExt(e) <==> |e.formats| <= 255)
    ensures e.RenegotiationInfo? ==> (WireExt(e) <==> |e.data| <= 255)
    ensures e.ALPN? ==> (WireExt(e) <==>
      (e.protos != [] && (forall p <- e.protos :: 0 < |p| < 256) && NamesLength(e.protos) <= 65535))
    ensures e.SupportedVersions? && e.server ==> (WireExt(e) <==> |e.versions| == 1)
    ensures e.SupportedVersions? && !e.server ==> (WireExt(e) <==> (|e.versions| <= 127 && 0 !in e.versions))
    ensures e.EncryptThenMac? || e.ExtendedMasterSecret? || e.SessionTicket? ==> WireExt(e)
    ensures e.Unknown? ==> (WireExt(e) <==> e.types !in {0, 10, 11, 13, 16, 22, 23, 35, 43, 0xff01})
  {
    if e.ALPN? && AlpnFits(e.protos) { NamesFill(e.protos); }
  }

  /** The bytes a list of names takes with a length byte each. */
  function NamesLength(protos: seq<Bytes>): nat {
    if protos == [] then 0 else 1 + |protos[0]| + NamesLength(protos[1..])
  }

  lemma {:induction false} NamesFill(protos: seq<Bytes>)
    requires AlpnFits(protos)
    ensures |AlpnBody(protos)| == NamesLength(protos)
    decreases |protos|
  {
    if |protos| > 0 { NamesFill(protos[1..]); }
  }
}
