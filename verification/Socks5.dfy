/** The SOCKS5 codec of internal/gosocks5/socks5.go (RFC 1928 and RFC 1929). */
module Socks5 {
  import opened Common
  import opened Streams

  const VER5: byte := 5
  const USER_PASS_VER: byte := 1
  const ADDR_IPV4: byte := 1
  const ADDR_DOMAIN: byte := 3
  const ADDR_IPV6: byte := 4

  type Ip4 = b: Bytes | |b| == 4 witness [0, 0, 0, 0]
  type Ip16 = b: Bytes | |b| == 16 witness [0, 0, 0, 0, 0, 0, 0, 0, 0, 0, 0, 0, 0, 0, 0, 0]

  /**
    IP text conversion of package net: `to4`/`to16` are `ParseIP(host).To4()`
    and `.To16()` (None for nil), `text` is `IP(b).String()`.
   */
  datatype IpText = IpText(to4: Bytes -> Option<Ip4>, to16: Bytes -> Option<Ip16>, text: Bytes -> Bytes)

  /** The text of an IP address parses back to it. */
  ghost predicate TextParses(ip: IpText) {
    (forall b: Ip4 :: ip.to4(ip.text(b)) == Some(b)) && (forall b: Ip16 :: ip.to16(ip.text(b)) == Some(b))
  }

  datatype Address = Address(typ: byte, host: Bytes, port: uint16)

  datatype Error = ShortStream | BadVersion | BadAddrType

  datatype Result<+T> = Ok(value: T) | Err(error: Error)

  // ----- Addr -----

  predicate KnownType(t: byte) { t == ADDR_IPV4 || t == ADDR_IPV6 || t == ADDR_DOMAIN }

  /** `checkType`. */
  function Checked(ip: IpText, a: Address): Address {
    if KnownType(a.typ) then a
    else if a.host == [] then a.(typ := ADDR_IPV4)
    else if ip.to16(a.host).None? then a.(typ := ADDR_DOMAIN)
    else if ip.to4(a.host).Some? then a.(typ := ADDR_IPV4)
    else a.(typ := ADDR_IPV6)
  }

  function Zeros(n: nat): (z: Bytes)
    ensures |z| == n
  {
    seq(n, _ => 0)
  }

  function Ip4Of(ip: IpText, host: Bytes): Ip4 {
    if ip.to4(host).Some? then ip.to4(host).value else Zeros(4)
  }

  function Ip16Of(ip: IpText, host: Bytes): Ip16 {
    if ip.to16(host).Some? then ip.to16(host).value else Zeros(16)
  }

  /** The bytes between the type and the port of an address whose type is checked. */
  function HostWire(ip: IpText, a: Address): Bytes
    requires KnownType(a.typ)
  {
    if a.typ == ADDR_IPV4 then Ip4Of(ip, a.host)
    else if a.typ == ADDR_IPV6 then Ip16Of(ip, a.host)
    else [Low8(|a.host|)] + a.host
  }

  /** The host after the type byte, and the number of bytes it takes. */
  function DecodeHost(ip: IpText, typ: byte, b: Bytes): Result<(Bytes, nat)> {
    if typ == ADDR_IPV4 then
      if |b| < 4 then Err(ShortStream) else Ok((ip.text(b[..4]), 4))
    else if typ == ADDR_IPV6 then
      if |b| < 16 then Err(ShortStream) else Ok((ip.text(b[..16]), 16))
    else if typ == ADDR_DOMAIN then
      if |b| < 1 || |b| < 1 + b[0] as int then Err(ShortStream)
      else Ok((b[1..1 + b[0] as int], 1 + b[0] as int))
    else Err(BadAddrType)
  }

  /** The address at the front of `b` and the number of bytes it takes. */
  function DecodeAddr(ip: IpText, b: Bytes): Result<(Address, nat)> {
    if |b| < 1 then Err(ShortStream)
    else match DecodeHost(ip, b[0], b[1..])
      case Err(e) => Err(e)
      case Ok((host, used)) =>
        if |b| < used + 3 then Err(ShortStream)
        else Ok((Address(b[0], host, Read16(b, used + 1)), used + 3))
  }

  /** What an address looks like after a trip over the wire: the checked type, and an IP host in canonical text. */
  function Normal(ip: IpText, a: Address): Address {
    var c := Checked(ip, a);
    if c.typ == ADDR_IPV4 then c.(host := ip.text(Ip4Of(ip, c.host)))
    else if c.typ == ADDR_IPV6 then c.(host := ip.text(Ip16Of(ip, c.host)))
    else c
  }

  /** A domain fits its length byte. */
  predicate Encodable(ip: IpText, a: Address) {
    Checked(ip, a).typ == ADDR_DOMAIN ==> |a.host| <= 255
  }

  function AddrWire(ip: IpText, a: Address): Bytes {
    var c := Checked(ip, a);
    [c.typ] + HostWire(ip, c) + BE16(c.port)
  }

  /** `Addr.Length`. */
  function Length(ip: IpText, a: Address): nat {
    var t := Checked(ip, a).typ;
    if t == ADDR_IPV4 then 7 else if t == ADDR_IPV6 then 19 else 4 + |a.host|
  }

  lemma HostRoundTrip(ip: IpText, a: Address, tail: Bytes)
    requires Encodable(ip, a)
    ensures var c := Checked(ip, a);
      DecodeHost(ip, c.typ, HostWire(ip, c) + tail) == Ok((Normal(ip, a).host, |HostWire(ip, c)|))
  {
    var c := Checked(ip, a);
    CutPieces([], HostWire(ip, c), tail);
    if c.typ == ADDR_DOMAIN {
      CutPieces([Low8(|a.host|)], a.host, tail);
      assert HostWire(ip, c) + tail == [Low8(|a.host|)] + a.host + tail;
    }
  }

  lemma DecodeAddrOf(ip: IpText, typ: byte, hw: Bytes, host: Bytes, port: uint16, tail: Bytes)
    requires DecodeHost(ip, typ, hw + (BE16(port) + tail)) == Ok((host, |hw|))
    ensures DecodeAddr(ip, [typ] + hw + BE16(port) + tail) == Ok((Address(typ, host, port), |hw| + 3))
  {
    var b := [typ] + hw + BE16(port) + tail;
    assert b[1..] == hw + (BE16(port) + tail);
    CutPieces([typ] + hw, BE16(port), tail);
    Read16OfBE16(port, b, 1 + |hw|);
  }

  /**
    `Length` announces the bytes `Encode` writes, and those bytes read back as
    the normal form, whatever follows, exactly when a domain fits its length byte.
   */
  lemma AddrRoundTrip(ip: IpText, a: Address, tail: Bytes)
    ensures |AddrWire(ip, a)| == Length(ip, a) && AddrWire(ip, a)[0] == Checked(ip, a).typ
    ensures DecodeAddr(ip, AddrWire(ip, a) + tail) == Ok((Normal(ip, a), Length(ip, a))) <==> Encodable(ip, a)
  {
    var c := Checked(ip, a);
    if Encodable(ip, a) {
      HostRoundTrip(ip, a, BE16(a.port) + tail);
      DecodeAddrOf(ip, c.typ, HostWire(ip, c), Normal(ip, a).host, a.port, tail);
    } else {
      assert Normal(ip, a).host == a.host;
      assert (AddrWire(ip, a) + tail)[0] == ADDR_DOMAIN;
    }
  }

  /**
    The wire form loses nothing exactly when the type is set and an IP host is in
    canonical text; a second trip never changes it.
   */
  lemma NormalIsStable(ip: IpText, a: Address)
    requires TextParses(ip)
    ensures Normal(ip, Normal(ip, a)) == Normal(ip, a)
    ensures Normal(ip, a) == a <==>
      a.typ == ADDR_DOMAIN || (a.typ == ADDR_IPV4 && exists b: Ip4 :: a.host == ip.text(b)) ||
      (a.typ == ADDR_IPV6 && exists b: Ip16 :: a.host == ip.text(b))
    ensures Encodable(ip, a) ==> Encodable(ip, Normal(ip, a)) && AddrWire(ip, Normal(ip, a)) == AddrWire(ip, a)
  {
    var c := Checked(ip, a);
    var b4, b16 := Ip4Of(ip, c.host), Ip16Of(ip, c.host);
    assert ip.to4(ip.text(b4)) == Some(b4) && ip.to16(ip.text(b16)) == Some(b16);
  }

  // ----- What becomes of an address whose type was never set -----

  /**
    An untyped IP address arrives as the same IP address: the same four bytes if
    it has an IPv4 form, else the same sixteen, with the port it was sent with.
   */
  lemma UntypedIpArrives(ip: IpText, a: Address, tail: Bytes)
    requires TextParses(ip)
    requires a.typ != 1 && a.typ != 3 && a.typ != 4 && a.host != [] && ip.to16(a.host).Some?
    ensures DecodeAddr(ip, AddrWire(ip, a) + tail).Ok?
    ensures var got := DecodeAddr(ip, AddrWire(ip, a) + tail).value.0;
      got.port == a.port && (ip.to4(a.host).Some? ==> got.typ == 1 && ip.to4(got.host) == ip.to4(a.host)) &&
      (ip.to4(a.host).None? ==> got.typ == 4 && ip.to16(got.host) == ip.to16(a.host))
    ensures DecodeAddr(ip, AddrWire(ip, a) + tail).value.1 == if ip.to4(a.host).Some? then 7 else 19
  {
    AddrRoundTrip(ip, a, tail);
    var b4, b16 := Ip4Of(ip, a.host), Ip16Of(ip, a.host);
    assert ip.to4(ip.text(b4)) == Some(b4) && ip.to16(ip.text(b16)) == Some(b16);
  }

  /** An untyped host that is no IP address arrives as itself, as a domain, exactly when it fits a length byte. */
  lemma UntypedDomainArrives(ip: IpText, a: Address, tail: Bytes)
    requires a.typ != 1 && a.typ != 3 && a.typ != 4 && a.host != [] && ip.to16(a.host).None?
    ensures DecodeAddr(ip, AddrWire(ip, a) + tail) == Ok((Address(3, a.host, a.port), 4 + |a.host|)) <==> |a.host| <= 255
  {
    AddrRoundTrip(ip, a, tail);
    assert Checked(ip, a) == a.(typ := ADDR_DOMAIN) && Normal(ip, a) == Address(3, a.host, a.port);
  }

  /** No host at all is sent as 0.0.0.0. */
  lemma UntypedEmptyHost(ip: IpText, a: Address, tail: Bytes)
    requires a.typ != 1 && a.typ != 3 && a.typ != 4 && a.host == [] && ip.to4([]).None?
    ensures DecodeAddr(ip, AddrWire(ip, a) + tail) == Ok((Address(1, ip.text([0, 0, 0, 0]), a.port), 7))
  {
    AddrRoundTrip(ip, a, tail);
    assert Zeros(4) == [0, 0, 0, 0];
  }

  /** A typed address arrives with the type and port it was given, an IP host as the same IP, a domain as itself. */
  lemma TypedArrives(ip: IpText, a: Address, tail: Bytes)
    requires TextParses(ip)
    requires (a.typ == 1 && ip.to4(a.host).Some?) || (a.typ == 4 && ip.to16(a.host).Some?) || (a.typ == 3 && |a.host| <= 255)
    ensures DecodeAddr(ip, AddrWire(ip, a) + tail).Ok?
    ensures var got := DecodeAddr(ip, AddrWire(ip, a) + tail).value.0;
      got.typ == a.typ && got.port == a.port && (a.typ == 1 ==> ip.to4(got.host) == ip.to4(a.host)) &&
      (a.typ == 4 ==> ip.to16(got.host) == ip.to16(a.host)) && (a.typ == 3 ==> got.host == a.host)
  {
    AddrRoundTrip(ip, a, tail);
    var b4, b16 := Ip4Of(ip, a.host), Ip16Of(ip, a.host);
    assert ip.to4(ip.text(b4)) == Some(b4) && ip.to16(ip.text(b16)) == Some(b16);
  }

  /** What follows the host is the port, or too short for one. */
  lemma DecodeAddrSteps(ip: IpText, all: Bytes, host: Bytes, used: nat, rest: Bytes)
    requires |all| > 0 && DecodeHost(ip, all[0], all[1..]) == Ok((host, used)) && used < |all| && rest == all[1..][used..]
    ensures |rest| < 2 ==> DecodeAddr(ip, all) == Err(ShortStream)
    ensures |rest| >= 2 ==> DecodeAddr(ip, all) == Ok((Address(all[0], host, Read16(rest[..2], 0)), used + 3))
    ensures |rest| >= 2 ==> used + 3 <= |all| && rest[2..] == all[used + 3..]
  {
    assert rest == all[used + 1..];
  }

  class Addr {
    var typ: byte
    var host: Bytes
    var port: uint16

    constructor (a: Address)
      ensures V() == a
    {
      typ, host, port := a.typ, a.host, a.port;
    }

    function V(): Address
      reads this
    {
      Address(typ, host, port)
    }

    method CheckType(ip: IpText)
      modifies this
      ensures V() == Checked(ip, old(V()))
    {
      if typ != ADDR_IPV4 && typ != ADDR_IPV6 && typ != ADDR_DOMAIN {
        typ := ADDR_IPV4;
        if host != [] {
          typ := ADDR_DOMAIN;
          if ip.to16(host).Some? {
            if ip.to4(host).Some? { typ := ADDR_IPV4; } else { typ := ADDR_IPV6; }
          }
        }
      }
    }

    /** `Length` also fixes the type in place. */
    method ComputeLength(ip: IpText) returns (n: nat)
      modifies this
      ensures V() == Checked(ip, old(V())) && n == Length(ip, V())
    {
      CheckType(ip);
      if typ == ADDR_IPV4 { n := 7; } else if typ == ADDR_IPV6 { n := 19; } else { n := 4 + |host|; }
    }

    /**
      `Encode` into the buffer from `off` on: the type is fixed in place, the wire
      form written, nothing before it touched. It panics exactly when what
      `Length` announces does not fit.
     */
    method Encode(ip: IpText, b: array<byte>, off: nat) returns (n: nat, panicked: bool)
      requires off <= b.Length
      modifies this, b
      ensures V() == Checked(ip, old(V()))
      ensures panicked <==> b.Length - off < Length(ip, old(V()))
      ensures !panicked ==> n == Length(ip, old(V())) && b[off..off + n] == AddrWire(ip, old(V()))
      ensures b[..off] == old(b[..off])
    {
      CheckType(ip);
      if b.Length - off < 1 { return 0, true; }
      ghost var before := b[..off];
      b[off] := typ;
      assert b[..off] == before && b[off..off + 1] == [typ];
      var pos;
      pos, panicked := CopyHost(ip, b, off);
      // What `PutUint16` needs, and has exactly when the host was copied in full.
      if panicked || b.Length - pos < 2 { return 0, true; }
      pos := CopyInto(b, pos, BE16(port), off, [typ] + HostWire(ip, V()));
      n := pos - off;
    }

    /** The switch of `Encode`, behind the type byte. */
    method CopyHost(ip: IpText, b: array<byte>, off: nat) returns (pos: nat, panicked: bool)
      requires off < b.Length && b[off] == typ && KnownType(typ)
      modifies b
      ensures panicked <==> typ == ADDR_DOMAIN && off + 1 == b.Length
      ensures !panicked ==> pos == Min(off + 1 + |HostWire(ip, V())|, b.Length)
      ensures off + 1 + |HostWire(ip, V())| <= b.Length ==> !panicked && b[off..pos] == [typ] + HostWire(ip, V())
      ensures b[..off] == old(b[..off])
    {
      pos, panicked := off + 1, false;
      assert b[off..pos] == [typ];
      if typ == ADDR_IPV4 {
        pos := CopyInto(b, pos, Ip4Of(ip, host), off, [typ]);
      } else if typ == ADDR_IPV6 {
        pos := CopyInto(b, pos, Ip16Of(ip, host), off, [typ]);
      } else {
        if b.Length - pos < 1 { return pos, true; }
        pos := CopyInto(b, pos, [Low8(|host|)], off, [typ]);
        pos := CopyInto(b, pos, host, off, [typ, Low8(|host|)]);
        assert [typ, Low8(|host|)] + host == [typ] + HostWire(ip, V());
      }
    }

    /** The switch of `ReadFrom`. */
    method ReadHost(ip: IpText, r: Reader) returns (n: nat, err: Option<Error>)
      modifies `host, r
      ensures match DecodeHost(ip, typ, old(r.Rest()))
        case Ok((h, used)) => err.None? && host == h && n == used <= |old(r.Rest())| && r.Rest() == old(r.Rest())[used..]
        case Err(e) => err == Some(e)
    {
      n, err := 0, None;
      ghost var all := r.Rest();
      var b, res;
      if typ == ADDR_IPV4 {
        b, res := r.ReadFull(4);
        if !res.Done? { return n, Some(ShortStream); }
        host, n := ip.text(b), 4;
      } else if typ == ADDR_IPV6 {
        b, res := r.ReadFull(16);
        if !res.Done? { return n, Some(ShortStream); }
        host, n := ip.text(b), 16;
      } else if typ == ADDR_DOMAIN {
        b, res := r.ReadFull(1);
        if !res.Done? { return n, Some(ShortStream); }
        var addrlen: nat := b[0];
        b, res := r.ReadFull(addrlen);
        if !res.Done? { return n, Some(ShortStream); }
        host, n := b, 1 + addrlen;
        assert r.Rest() == all[n..] && host == all[1..n];
      } else {
        return n, Some(BadAddrType);
      }
    }

    /** `ReadFrom`: the result depends on the bytes alone, not on how they arrive. */
    method ReadFrom(ip: IpText, r: Reader) returns (n: nat, err: Option<Error>)
      modifies this, r
      ensures match DecodeAddr(ip, old(r.Rest()))
        case Ok((a, used)) => err.None? && V() == a && n == used <= |old(r.Rest())| && r.Rest() == old(r.Rest())[used..]
        case Err(e) => err == Some(e)
    {
      n, err := 0, None;
      ghost var all := r.Rest();
      var b, res := r.ReadFull(1);
      if !res.Done? { return n, Some(ShortStream); }
      typ := b[0];
      ghost var more := r.Rest();
      assert typ == all[0] && more == all[1..];
      n, err := ReadHost(ip, r);
      if err.Some? { return; }
      ghost var rest := r.Rest();
      DecodeAddrSteps(ip, all, host, n, rest);
      n := n + 1;
      b, res := r.ReadFull(2);
      if !res.Done? { return n, Some(ShortStream); }
      assert b == rest[..2] && r.Rest() == rest[2..];
      port := Read16(b, 0);
      n := n + 2;
    }
  }

  function Min(a: int, b: int): int { if a < b then a else b }

  /**
    `pos += copy(b[pos:], src)`, which copies what fits. The bytes from `from` on
    so far are `done`; afterwards they are `done` and what was copied, and nothing
    before `from` moves.
   */
  method CopyInto(b: array<byte>, pos: nat, src: Bytes, ghost from: nat, ghost done: Bytes) returns (next: nat)
    requires from <= pos <= b.Length && b[from..pos] == done
    modifies b
    ensures next == pos + Min(|src|, b.Length - pos) && b[from..next] == done + src[..next - pos]
    ensures pos + |src| <= b.Length ==> b[from..next] == done + src
    ensures b[..from] == old(b[..from])
  {
    var k := Min(|src|, b.Length - pos);
    forall i | 0 <= i < k { b[pos + i] := src[i]; }
    next := pos + k;
    assert b[from..pos] == old(b[from..pos]) && b[pos..next] == src[..k];
  }

  // ----- Requests and replies -----

  /** The address written for a nil `Addr`. */
  const NO_ADDR := Address(0, [], 0)

  function OrNone(a: Option<Address>): Address { if a.Some? then a.value else NO_ADDR }

  /** VER CMD RSV ADDR; a reply has REP in place of CMD. */
  function MessageWire(ip: IpText, code: byte, a: Option<Address>): Bytes {
    [VER5, code, 0] + AddrWire(ip, OrNone(a))
  }

  function MessageLength(b: Bytes): Option<nat>
    requires |b| >= 5
  {
    if b[3] == ADDR_IPV4 then Some(10)
    else if b[3] == ADDR_IPV6 then Some(22)
    else if b[3] == ADDR_DOMAIN then Some(7 + b[4] as int)
    else None
  }

  /** The length of the message at the front of `b`, or why there is none. */
  function MessageSpan(b: Bytes): Result<nat> {
    if |b| < 5 then Err(ShortStream)
    else if b[0] != VER5 then Err(BadVersion)
    else match MessageLength(b)
      case None => Err(BadAddrType)
      case Some(length) => if |b| < length then Err(ShortStream) else Ok(length)
  }

  function DecodeMessage(ip: IpText, b: Bytes): Result<(byte, Address)> {
    match MessageSpan(b)
    case Err(e) => Err(e)
    case Ok(length) =>
      if length < 3 || length > |b| then Err(ShortStream)
      else match DecodeAddr(ip, b[3..length])
        case Ok((a, _)) => Ok((b[1], a))
        case Err(e) => Err(e)
  }

  /** A request or reply at the front of any byte stream is read back as written, with its address in normal form. */
  lemma MessageRoundTrip(ip: IpText, code: byte, a: Option<Address>, tail: Bytes)
    requires Encodable(ip, OrNone(a))
    ensures DecodeMessage(ip, MessageWire(ip, code, a) + tail) == Ok((code, Normal(ip, OrNone(a))))
  {
    var aw := AddrWire(ip, OrNone(a));
    var b := MessageWire(ip, code, a) + tail;
    AddrRoundTrip(ip, OrNone(a), []);
    assert aw + [] == aw;
    assert b[3] == aw[0] && b[4] == aw[1];
    assert MessageSpan(b) == Ok(3 + |aw|);
    assert b[3..3 + |aw|] == aw;
  }

  /**
    A request or reply byte for byte, sections 4 to 6 of RFC 1928: version 5, the
    code, a reserved zero, the address type (1 for four bytes, 3 for a name
    behind its length, 4 for sixteen bytes), the address, the port in big endian.
   */
  lemma MessageBytes(ip: IpText, code: byte, a: Address, hi: byte, lo: byte)
    requires a.port as int == hi as int * 256 + lo as int
    ensures a.typ == 1 && ip.to4(a.host).Some? ==> MessageWire(ip, code, Some(a)) == [5, code, 0, 1] + ip.to4(a.host).value + [hi, lo]
    ensures a.typ == 4 && ip.to16(a.host).Some? ==> MessageWire(ip, code, Some(a)) == [5, code, 0, 4] + ip.to16(a.host).value + [hi, lo]
    ensures a.typ == 3 && |a.host| <= 255 ==> MessageWire(ip, code, Some(a)) == [5, code, 0, 3, |a.host|] + a.host + [hi, lo]
  {
    BigEndian(hi, lo);
  }

  /** What is refused: another protocol version, another address type, a stream that ends early. */
  lemma RefusedMessages(ip: IpText, b: Bytes)
    ensures |b| < 5 ==> DecodeMessage(ip, b) == Err(ShortStream)
    ensures |b| >= 5 && b[0] != 5 ==> DecodeMessage(ip, b) == Err(BadVersion)
    ensures |b| >= 5 && b[0] == 5 && b[3] != 1 && b[3] != 3 && b[3] != 4 ==> DecodeMessage(ip, b) == Err(BadAddrType)
    ensures |b| >= 5 && b[0] == 5 && b[3] == 3 && |b| < 7 + b[4] as int ==> DecodeMessage(ip, b) == Err(ShortStream)
    ensures |b| >= 5 && b[0] == 5 && ((b[3] == 1 && |b| < 10) || (b[3] == 4 && |b| < 22)) ==> DecodeMessage(ip, b) == Err(ShortStream)
    ensures |b| > 0 && b[0] != 1 && b[0] != 3 && b[0] != 4 ==> DecodeAddr(ip, b) == Err(BadAddrType)
  {
  }

  /** `Request.Write` and, with REP for CMD, `Reply.Write`. */
  method WriteMessage(ip: IpText, code: byte, addr: Addr?) returns (wire: Bytes, panicked: bool)
    modifies addr
    ensures var a := if addr == null then None else Some(old(addr.V()));
      (panicked <==> !Encodable(ip, OrNone(a))) && (!panicked ==> wire == MessageWire(ip, code, a))
    ensures addr != null ==> addr.V() == Checked(ip, old(addr.V()))
  {
    var b := new byte[262];
    b[0], b[1], b[2], b[3] := VER5, code, 0, ADDR_IPV4;
    var target := addr;
    if target == null {
      target := new Addr(NO_ADDR);
    }
    assert b[..3] == [VER5, code, 0];
    var n;
    n, panicked := target.Encode(ip, b, 3);
    if panicked { return [], true; }
    wire := b[..3 + n];
  }

  /** The reading half: fill the 262-byte buffer at least up to the end of the message. */
  method FetchMessage(r: Reader) returns (b: Bytes, res: Result<nat>)
    modifies r
    ensures res == MessageSpan(old(r.Rest()))
    ensures res.Ok? ==> old(r.Rest()) == b + r.Rest() && 5 <= res.value <= |b| <= 262
  {
    ghost var all := r.Rest();
    var got;
    b, got := r.ReadAtLeast(262, 5);
    if !got.Done? { return b, Err(ShortStream); }
    assert forall i :: 0 <= i < 5 ==> all[i] == b[i];
    if b[0] != VER5 { return b, Err(BadVersion); }
    var length := 0;
    if b[3] == ADDR_IPV4 { length := 10; }
    else if b[3] == ADDR_IPV6 { length := 22; }
    else if b[3] == ADDR_DOMAIN { length := 7 + b[4] as int; }
    else { return b, Err(BadAddrType); }
    if |b| < length {
      var more, got2 := r.ReadFull(length - |b|);
      if !got2.Done? { return b, Err(ShortStream); }
      b := b + more;
    }
    res := Ok(length);
  }

  /**
    `ReadRequest` and `ReadReply`. The reader may take bytes beyond the message
    into its buffer, but what it returns does not depend on the chunks.
   */
  method ReadMessage(ip: IpText, r: Reader) returns (res: Result<(byte, Address)>)
    modifies r
    ensures res == DecodeMessage(ip, old(r.Rest()))
    ensures res.Ok? ==> |r.Rest()| <= |old(r.Rest())| <= |r.Rest()| + 262
  {
    ghost var all := r.Rest();
    var b, span := FetchMessage(r);
    if span.Err? { return Err(span.error); }
    assert b[3..span.value] == all[3..span.value];
    var a := ParseAddr(ip, b[3..span.value]);
    if a.Err? { return Err(a.error); }
    res := Ok((b[1], a.value));
  }

  /** `Addr.Decode` of a whole buffer. */
  method ParseAddr(ip: IpText, b: Bytes) returns (res: Result<Address>)
    ensures match DecodeAddr(ip, b)
      case Ok((a, _)) => res == Ok(a)
      case Err(e) => res == Err(e)
  {
    var r := new Reader([b]);
    assert r.Rest() == b by { assert Concat([b]) == b + Concat([]); }
    var addr := new Addr(NO_ADDR);
    var _, err := addr.ReadFrom(ip, r);
    res := if err.Some? then Err(err.value) else Ok(addr.V());
  }

  // ----- Username/password authentication -----

  datatype UserPass = UserPass(version: byte, username: Bytes, password: Bytes)

  /** What `Write` leaves in its 513-byte buffer; None when the fields overflow it and the code panics. */
  function UserPassWire(u: UserPass): Option<Bytes> {
    if 3 + |u.username| + |u.password| > 513 then None
    else Some([u.version, Low8(|u.username|)] + u.username + [Low8(|u.password|)] + u.password)
  }

  function DecodeUserPass(b: Bytes): Result<(UserPass, nat)> {
    if |b| < 2 then Err(ShortStream)
    else if b[0] != USER_PASS_VER then Err(BadVersion)
    else
      var ulen: nat := b[1];
      if |b| < 3 + ulen then Err(ShortStream)
      else
        var plen: nat := b[2 + ulen];
        if |b| < 3 + ulen + plen then Err(ShortStream)
        else Ok((UserPass(b[0], b[2..2 + ulen], b[3 + ulen..3 + ulen + plen]), 3 + ulen + plen))
  }

  /**
    A credential message reads back as written, whatever follows, exactly when its
    version is 1 and both fields fit a length byte.
   */
  lemma UserPassRoundTrip(u: UserPass, tail: Bytes)
    requires UserPassWire(u).Some?
    ensures DecodeUserPass(UserPassWire(u).value + tail) == Ok((u, |UserPassWire(u).value|)) <==>
      u.version == USER_PASS_VER && |u.username| <= 255 && |u.password| <= 255
  {
    var w := UserPassWire(u).value;
    var b := w + tail;
    assert b[0] == u.version && b[1] == Low8(|u.username|);
    if u.version == USER_PASS_VER && |u.username| <= 255 {
      assert b[2..2 + |u.username|] == u.username;
      assert b[2 + |u.username|] == Low8(|u.password|);
      if |u.password| <= 255 {
        assert b[3 + |u.username|..3 + |u.username| + |u.password|] == u.password;
      }
    }
  }

  /** The layout of section 2 of RFC 1929 on short fields: version, then each field behind its length, the user name first. */
  lemma ShortUserPassBytes(v: byte, a: byte, b: byte, c: byte)
    ensures UserPassWire(UserPass(v, [a, b], [c])) == Some([v, 2, a, b, 1, c])
    ensures UserPassWire(UserPass(v, [], [a])) == Some([v, 0, 1, a])
  {
    assert [v, 2] + [a, b] + [1] + [c] == [v, 2, a, b, 1, c] && [v, 0] + [] + [1] + [a] == [v, 0, 1, a];
  }

  /** Credentials of another version are refused, and so are those cut short. */
  lemma RefusedCredentials(b: Bytes)
    ensures |b| >= 2 && b[0] != 1 ==> DecodeUserPass(b) == Err(BadVersion)
    ensures |b| < 2 || (b[0] == 1 && |b| < 3 + b[1] as int) ==> DecodeUserPass(b) == Err(ShortStream)
  {
  }

  /** `Write` into its fixed buffer; the bounds checks are those of the slices it takes. */
  method WriteUserPass(u: UserPass) returns (wire: Bytes, panicked: bool)
    ensures panicked <==> UserPassWire(u).None?
    ensures !panicked ==> UserPassWire(u) == Some(wire)
  {
    var b := new byte[513](_ => 0);
    b[0] := u.version;
    var ulen := |u.username|;
    b[1] := Low8(ulen);
    var length := 2 + ulen;
    if length > b.Length { return [], true; }
    assert b[0..2] == [u.version, Low8(ulen)];
    ghost var done := [u.version, Low8(ulen)];
    var pos := CopyInto(b, 2, u.username, 0, done);
    done := done + u.username;
    if length >= b.Length { return [], true; }
    pos := CopyInto(b, pos, [Low8(|u.password|)], 0, done);
    done := done + [Low8(|u.password|)];
    if pos + |u.password| > b.Length { return [], true; }
    length := CopyInto(b, pos, u.password, 0, done);
    assert b[0..length] == b[..length];
    return b[..length], false;
  }

  method ReadUserPass(r: Reader) returns (res: Result<UserPass>)
    modifies r
    ensures match DecodeUserPass(old(r.Rest()))
      case Ok((u, used)) => res == Ok(u) && used <= |old(r.Rest())| && r.Rest() == old(r.Rest())[used..]
      case Err(e) => res == Err(e)
  {
    ghost var all := r.Rest();
    var b, got := r.ReadFull(2);
    if !got.Done? { return Err(ShortStream); }
    if b[0] != USER_PASS_VER { return Err(BadVersion); }
    var version, ulen: nat := b[0], b[1];
    UserPassSteps(all);
    var username, ok := ReadField(r, ulen);
    if !ok { return Err(ShortStream); }
    b, got := r.ReadFull(1);
    if !got.Done? { return Err(ShortStream); }
    var password;
    password, ok := ReadField(r, b[0]);
    if !ok { return Err(ShortStream); }
    res := Ok(UserPass(version, username, password));
  }

  /** `if n > 0 { io.ReadFull }`. */
  method ReadField(r: Reader, n: nat) returns (data: Bytes, ok: bool)
    modifies r
    ensures ok <==> |old(r.Rest())| >= n
    ensures ok ==> data == old(r.Rest())[..n] && r.Rest() == old(r.Rest())[n..]
  {
    data, ok := [], true;
    if n > 0 {
      var got;
      data, got := r.ReadFull(n);
      ok := got.Done?;
    }
  }

  /** The two fields one after the other, behind version and length. */
  lemma UserPassSteps(all: Bytes)
    requires |all| >= 2 && all[0] == USER_PASS_VER
    ensures var ulen: nat, rest := all[1], all[2..];
      if |rest| <= ulen then DecodeUserPass(all) == Err(ShortStream)
      else
        var plen: nat, last := rest[ulen..][0], rest[ulen..][1..];
        if |last| < plen then DecodeUserPass(all) == Err(ShortStream)
        else DecodeUserPass(all) == Ok((UserPass(1, rest[..ulen], last[..plen]), 3 + ulen + plen)) &&
             last[plen..] == all[3 + ulen + plen..]
  {
    var ulen: nat, rest := all[1], all[2..];
    if |rest| > ulen {
      var plen: nat, last := rest[ulen..][0], rest[ulen..][1..];
      assert last == all[3 + ulen..] && rest[ulen] == all[2 + ulen];
      assert rest[..ulen] == all[2..2 + ulen];
      if |last| >= plen { assert last[..plen] == all[3 + ulen..3 + ulen + plen]; }
    }
  }

  // ----- UDP datagrams -----

  datatype Datagram = Datagram(rsv: uint16, frag: byte, addr: Address, data: Bytes)

  function HeaderWire(ip: IpText, d: Datagram): Bytes {
    BE16(d.rsv) + [d.frag] + AddrWire(ip, d.addr)
  }

  function DatagramWire(ip: IpText, d: Datagram): Bytes {
    HeaderWire(ip, d) + d.data
  }

  /** RSV FRAG ADDR at the front of `b`, with the number of bytes they take. */
  function DecodeHeader(ip: IpText, b: Bytes): Result<(uint16, byte, Address, nat)> {
    if |b| < 3 then Err(ShortStream)
    else match DecodeAddr(ip, b[3..])
      case Err(e) => Err(e)
      case Ok((a, used)) => Ok((Read16(b, 0), b[2], a, 3 + used))
  }

  /** A zero reserved field means "everything that is left", any other is the data length. */
  function DecodeDatagram(ip: IpText, b: Bytes): Result<(Datagram, nat)> {
    match DecodeHeader(ip, b)
    case Err(e) => Err(e)
    case Ok((rsv, frag, a, used)) =>
      if used > |b| then Err(ShortStream)
      else
        var rest := b[used..];
        if rsv == 0 then Ok((Datagram(0, frag, a, rest), |b|))
        else if |rest| < rsv as int then Err(ShortStream)
        else Ok((Datagram(rsv, frag, a, rest[..rsv]), used + rsv as int))
  }

  function NormalDatagram(ip: IpText, d: Datagram): Datagram {
    d.(addr := Normal(ip, d.addr))
  }

  lemma HeaderDecoded(ip: IpText, d: Datagram, more: Bytes)
    requires Encodable(ip, d.addr)
    ensures |HeaderWire(ip, d)| == 3 + Length(ip, d.addr)
    ensures DecodeHeader(ip, HeaderWire(ip, d) + more) == Ok((d.rsv, d.frag, Normal(ip, d.addr), |HeaderWire(ip, d)|))
    ensures (HeaderWire(ip, d) + more)[|HeaderWire(ip, d)|..] == more
  {
    var aw := AddrWire(ip, d.addr);
    var b := HeaderWire(ip, d) + more;
    AddrRoundTrip(ip, d.addr, more);
    assert b[3..] == aw + more;
    assert b[0..2] == BE16(d.rsv) && b[2] == d.frag;
    Read16OfBE16(d.rsv, b, 0);
  }

  /** Section 7 of RFC 1928: the reserved field in big endian, the fragment, the address as in a request, the data. */
  lemma DatagramBytes(ip: IpText, d: Datagram, hi: byte, lo: byte)
    requires d.rsv as int == hi as int * 256 + lo as int
    ensures DatagramWire(ip, d) == [hi, lo, d.frag] + MessageWire(ip, 1, Some(d.addr))[3..] + d.data
  {
    BigEndian(hi, lo);
    assert MessageWire(ip, 1, Some(d.addr))[3..] == AddrWire(ip, d.addr);
  }

  /** The decoder applied to a written datagram followed by anything. */
  lemma DatagramDecoded(ip: IpText, d: Datagram, tail: Bytes)
    requires Encodable(ip, d.addr)
    ensures var w := DatagramWire(ip, d); var head := 3 + Length(ip, d.addr);
      |w| == head + |d.data| &&
      DecodeDatagram(ip, w + tail) ==
        if d.rsv == 0 then Ok((NormalDatagram(ip, d).(data := d.data + tail), |w + tail|))
        else if |d.data + tail| < d.rsv as int then Err(ShortStream)
        else Ok((NormalDatagram(ip, d).(data := (d.data + tail)[..d.rsv]), head + d.rsv as int))
  {
    HeaderDecoded(ip, d, d.data + tail);
    assert DatagramWire(ip, d) + tail == HeaderWire(ip, d) + (d.data + tail);
  }

  /** A datagram delimits itself in a stream exactly when its reserved field is its own non-zero data length. */
  lemma SelfDelimiting(ip: IpText, d: Datagram)
    requires Encodable(ip, d.addr)
    ensures (forall tail: Bytes :: DecodeDatagram(ip, DatagramWire(ip, d) + tail) ==
              Ok((NormalDatagram(ip, d), |DatagramWire(ip, d)|)))
      <==> d.rsv as int == |d.data| && d.rsv != 0
  {
    if d.rsv as int == |d.data| && d.rsv != 0 {
      forall tail: Bytes ensures DecodeDatagram(ip, DatagramWire(ip, d) + tail) ==
          Ok((NormalDatagram(ip, d), |DatagramWire(ip, d)|)) {
        DatagramDecoded(ip, d, tail);
        assert (d.data + tail)[..d.rsv] == d.data;
      }
    } else {
      var tail := Zeros(d.rsv as int + 1);
      DatagramDecoded(ip, d, tail);
      assert |d.data + tail| > |d.data|;
      assert DecodeDatagram(ip, DatagramWire(ip, d) + tail) != Ok((NormalDatagram(ip, d), |DatagramWire(ip, d)|));
    }
  }

  /** Reading datagrams one after another until the stream is used up. */
  function DecodeAll(ip: IpText, b: Bytes): Result<seq<Datagram>>
    decreases |b|
  {
    if |b| == 0 then Ok([])
    else match DecodeDatagram(ip, b)
      case Err(e) => Err(e)
      case Ok((d, used)) =>
        if used == 0 || used > |b| then Err(ShortStream)
        else match DecodeAll(ip, b[used..])
          case Err(e) => Err(e)
          case Ok(ds) => Ok([d] + ds)
  }

  predicate Framed(ip: IpText, d: Datagram) {
    Encodable(ip, d.addr) && d.rsv as int == |d.data| && d.rsv != 0
  }

  function WireAll(ip: IpText, ds: seq<Datagram>): Bytes {
    if |ds| == 0 then [] else DatagramWire(ip, ds[0]) + WireAll(ip, ds[1..])
  }

  function NormalAll(ip: IpText, ds: seq<Datagram>): seq<Datagram> {
    if |ds| == 0 then [] else [NormalDatagram(ip, ds[0])] + NormalAll(ip, ds[1..])
  }

  /** UDP-over-TCP framing: any list of framed datagrams is read back as the same list, using up every byte. */
  lemma {:induction false} FramingRoundTrip(ip: IpText, ds: seq<Datagram>)
    requires forall i :: 0 <= i < |ds| ==> Framed(ip, ds[i])
    ensures DecodeAll(ip, WireAll(ip, ds)) == Ok(NormalAll(ip, ds))
    decreases |ds|
  {
    if |ds| > 0 {
      assert Framed(ip, ds[0]);
      var rest := WireAll(ip, ds[1..]);
      var w := DatagramWire(ip, ds[0]);
      DatagramDecoded(ip, ds[0], rest);
      assert (ds[0].data + rest)[..ds[0].rsv] == ds[0].data;
      assert (w + rest)[|w|..] == rest;
      FramingRoundTrip(ip, ds[1..]);
    }
  }

  /** `UDPDatagram.WriteTo`, with the byte count it reports. */
  method WriteDatagram(ip: IpText, rsv: uint16, frag: byte, addr: Addr?, data: Bytes)
    returns (wire: Bytes, n: nat, panicked: bool)
    modifies addr
    ensures var a := if addr == null then NO_ADDR else old(addr.V());
      (panicked <==> !Encodable(ip, a)) &&
      (!panicked ==> wire == DatagramWire(ip, Datagram(rsv, frag, a, data)) && n == |wire|)
  {
    var target := addr;
    if target == null {
      target := new Addr(NO_ADDR);
    }
    var b := new byte[259](_ => 0);
    var k;
    k, panicked := target.Encode(ip, b, 0);
    if panicked { return [], 0, true; }
    assert b[..k] == AddrWire(ip, if addr == null then NO_ADDR else old(addr.V()));
    wire := BE16(rsv) + [frag] + b[..k] + data;
    n := 3 + k + |data|;
  }

  /** `UDPHeader.ReadFrom`. */
  method ReadHeader(ip: IpText, r: Reader) returns (res: Result<(uint16, byte, Address, nat)>, n: nat)
    modifies r
    ensures (n == 0 <==> old(r.Rest()) == []) && (n == 0 ==> r.Rest() == [])
    ensures res == DecodeHeader(ip, old(r.Rest()))
    ensures res.Ok? ==> res.value.3 <= |old(r.Rest())| && r.Rest() == old(r.Rest())[res.value.3..]
  {
    ghost var all := r.Rest();
    var b, got := r.ReadFull(3);
    n := |b|;
    if !got.Done? { return Err(ShortStream), n; }
    var addr := new Addr(NO_ADDR);
    var v, err := addr.ReadFrom(ip, r);
    n := n + v;
    if err.Some? { return Err(err.value), n; }
    assert all[3..][v..] == all[3 + v..];
    res := Ok((Read16(b, 0), b[2], addr.V(), n));
  }

  /** `UDPDatagram.ReadFrom`, with the byte count it reports. */
  method ReadDatagram(ip: IpText, r: Reader) returns (res: Result<Datagram>, n: nat)
    modifies r
    ensures match DecodeDatagram(ip, old(r.Rest()))
      case Ok((d, used)) => res == Ok(d) && n == used <= |old(r.Rest())| && r.Rest() == old(r.Rest())[used..]
      case Err(e) => res == Err(e)
    ensures (n == 0 <==> old(r.Rest()) == []) && (n == 0 ==> r.Rest() == [])
  {
    ghost var all := r.Rest();
    var head;
    head, n := ReadHeader(ip, r);
    if head.Err? { return Err(head.error), n; }
    var (rsv, frag, a, used) := head.value;
    n := used;
    var data, ok := ReadData(r, rsv);
    if !ok { return Err(ShortStream), n; }
    assert all[used..][|data|..] == all[used + |data|..];
    n := n + |data|;
    res := Ok(Datagram(rsv, frag, a, data));
  }

  /** Reading datagram after datagram from a connection until nothing is left, however the bytes arrive. */
  method ReadDatagrams(ip: IpText, r: Reader) returns (res: Result<seq<Datagram>>)
    modifies r
    ensures res == DecodeAll(ip, old(r.Rest()))
    ensures res.Ok? ==> r.Rest() == []
  {
    var ds: seq<Datagram> := [];
    ghost var rest := r.Rest();
    BehindLaws([], [], DecodeAll(ip, rest));
    while true
      invariant rest == r.Rest() && DecodeAll(ip, old(r.Rest())) == Behind(ds, DecodeAll(ip, rest))
      decreases |rest|
    {
      var d, n := ReadDatagram(ip, r);
      if n == 0 {
        BehindLaws(ds, [], DecodeAll(ip, rest));
        return Ok(ds);
      }
      if d.Err? { return Err(d.error); }
      BehindLaws(ds, [d.value], DecodeAll(ip, r.Rest()));
      rest, ds := r.Rest(), ds + [d.value];
    }
  }

  /** The datagrams read so far, in front of what the rest gives. */
  function Behind(ds: seq<Datagram>, more: Result<seq<Datagram>>): Result<seq<Datagram>> {
    match more
    case Ok(es) => Ok(ds + es)
    case Err(e) => Err(e)
  }

  lemma BehindLaws(ds: seq<Datagram>, x: seq<Datagram>, more: Result<seq<Datagram>>)
    ensures Behind([], more) == more && Behind(ds, Ok([])) == Ok(ds)
    ensures Behind(ds + x, more) == Behind(ds, Behind(x, more))
  {
    assert ds + [] == ds;
    if more.Ok? {
      assert [] + more.value == more.value;
      assert ds + x + more.value == ds + (x + more.value);
    }
  }

  /** The two ways `UDPDatagram.ReadFrom` finds the end of the data. */
  method ReadData(r: Reader, dlen: nat) returns (data: Bytes, ok: bool)
    modifies r
    ensures ok <==> dlen <= |old(r.Rest())|
    ensures ok ==> data == (if dlen == 0 then old(r.Rest()) else old(r.Rest())[..dlen])
    ensures ok ==> r.Rest() == old(r.Rest())[|data|..]
  {
    ok := true;
    if dlen == 0 {
      data := r.ReadAll();
    } else {
      var got;
      data, got := r.ReadFull(dlen);
      ok := got.Done?;
    }
  }
}
