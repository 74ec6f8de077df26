/**
  Byte helpers (`encoding/binary` big endian) and an `io.Reader` that hands out
  its bytes in chunks of its own choosing, with `io.ReadAtLeast` and `io.ReadFull`.
 */
module Streams {
  import opened Common

  type Bytes = seq<byte>

  /** `byte(n)`. */
  function Low8(n: nat): byte { n % 256 }

  /** `PutUint16(uint16(n))`: the conversion keeps the low 16 bits. */
  function BE16(n: nat): Bytes { [n / 256 % 256, n % 256] }

  function BE24(n: nat): Bytes { [n / 256 / 256 % 256, n / 256 % 256, n % 256] }

  function BE32(n: nat): Bytes { BE16(n / 65536) + BE16(n % 65536) }

  function Read16(b: Bytes, i: nat): uint16
    requires i + 2 <= |b|
  {
    b[i] as int * 256 + b[i + 1]
  }

  function Read24(b: Bytes, i: nat): nat
    requires i + 3 <= |b|
  {
    (b[i] as int * 256 + b[i + 1]) * 256 + b[i + 2]
  }

  function Read32(b: Bytes, i: nat): nat
    requires i + 4 <= |b|
  {
    Read16(b, i) as int * 65536 + Read16(b, i + 2)
  }

  /** The more significant byte comes first. */
  lemma BigEndian(hi: byte, lo: byte)
    ensures BE16(hi as int * 256 + lo as int) == [hi, lo]
  {
  }

  /** Reading a two-byte field back gives the value modulo 65536, wherever it stands. */
  lemma Read16OfBE16(n: nat, b: Bytes, i: nat)
    requires i + 2 <= |b| && b[i..i + 2] == BE16(n)
    ensures Read16(b, i) == n % 65536
  {
    assert b[i] == b[i..i + 2][0] && b[i + 1] == b[i..i + 2][1];
    var q := n / 256;
    assert n == q / 256 * 65536 + Read16(b, i);
  }

  lemma Read24OfBE24(n: nat, b: Bytes, i: nat)
    requires i + 3 <= |b| && b[i..i + 3] == BE24(n)
    ensures Read24(b, i) == n % 0x100_0000
  {
    assert b[i] == b[i..i + 3][0] && b[i + 1] == b[i..i + 3][1] && b[i + 2] == b[i..i + 3][2];
    var q := n / 256;
    assert n == q / 256 / 256 * 0x100_0000 + Read24(b, i);
  }

  lemma Read32OfBE32(n: nat, b: Bytes, i: nat)
    requires i + 4 <= |b| && b[i..i + 4] == BE32(n) && n < 4294967296
    ensures Read32(b, i) == n
  {
    assert b[i..i + 2] == b[i..i + 4][..2] && b[i + 2..i + 4] == b[i..i + 4][2..];
    Read16OfBE16(n / 65536, b, i);
    Read16OfBE16(n % 65536, b, i + 2);
  }

  /** Cutting a concatenation where its pieces meet. */
  lemma CutPieces(a: Bytes, m: Bytes, c: Bytes)
    ensures (a + m + c)[|a|..|a| + |m|] == m && (a + m + c)[|a| + |m|..] == c
    ensures (a + m + c)[|a|..] == m + c && (m + c)[..|m|] == m && (m + c)[|m|..] == c
  {
  }

  datatype ReadResult = Done | EOF | UnexpectedEOF

  function Concat(chunks: seq<Bytes>): Bytes {
    if chunks == [] then [] else chunks[0] + Concat(chunks[1..])
  }

  class Reader {
    var chunks: seq<Bytes>

    constructor (chunks: seq<Bytes>)
      ensures this.chunks == chunks && Rest() == Concat(chunks)
    {
      this.chunks := chunks;
    }

    /** The bytes not yet handed out. */
    ghost function Rest(): Bytes
      reads this
    {
      Concat(chunks)
    }

    /** One `Read` into a buffer of `max` bytes: at most one chunk, possibly no byte at all. */
    method Read(max: nat) returns (data: Bytes, eof: bool)
      requires max > 0
      modifies this
      ensures |data| <= max && old(Rest()) == data + Rest()
      ensures eof ==> data == [] && Rest() == []
      ensures !eof ==> |data| > 0 || |chunks| < |old(chunks)|
      ensures |chunks| <= |old(chunks)|
    {
      if chunks == [] {
        return [], true;
      }
      var first := chunks[0];
      if |first| <= max {
        data, chunks := first, chunks[1..];
      } else {
        data := first[..max];
        chunks := [first[max..]] + chunks[1..];
        assert first == first[..max] + first[max..];
      }
      eof := false;
    }

    /** `io.ReadAtLeast` into a buffer of `size` bytes; how much beyond `min` it takes depends on the chunks. */
    method ReadAtLeast(size: nat, min: nat) returns (data: Bytes, res: ReadResult)
      requires min <= size
      modifies this
      ensures old(Rest()) == data + Rest()
      ensures |data| <= size && (size == min ==> |data| <= min)
      ensures res.Done? <==> |data| >= min
      ensures !res.Done? ==> Rest() == [] && (res.EOF? <==> data == [])
    {
      data, res := [], Done;
      var eof := false;
      while |data| < min && !eof
        invariant old(Rest()) == data + Rest()
        invariant |data| <= size
        invariant eof ==> Rest() == []
        decreases !eof, size - |data|, |chunks|
      {
        var more;
        more, eof := Read(size - |data|);
        data := data + more;
      }
      if |data| < min {
        res := if data == [] then EOF else UnexpectedEOF;
      }
    }

    /** `io.ReadFull`: what it returns and leaves behind does not depend on the chunks. */
    method ReadFull(size: nat) returns (data: Bytes, res: ReadResult)
      modifies this
      ensures |old(Rest())| >= size ==> res.Done? && data == old(Rest())[..size] && Rest() == old(Rest())[size..]
      ensures |old(Rest())| < size ==> !res.Done? && data == old(Rest()) && Rest() == [] && (res.EOF? <==> data == [])
    {
      data, res := ReadAtLeast(size, size);
    }

    /** `io.Copy` to a buffer: everything that is left. */
    method ReadAll() returns (data: Bytes)
      modifies this
      ensures data == old(Rest()) && Rest() == []
    {
      data := [];
      while chunks != []
        invariant old(Rest()) == data + Rest()
        decreases |chunks|
      {
        data := data + chunks[0];
        chunks := chunks[1..];
      }
    }
  }
}
