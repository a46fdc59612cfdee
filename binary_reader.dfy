/** The position-tracking big-endian reader (binaryreader.py).

    The stream is the byte sequence `data`; the reader's position is `pos`.
    Each reading method has a grammar function `XAt(data, pos, ...)` that says
    what the read yields and where it leaves the reader; the method is proved
    to agree with it. */
module Binary {
  import opened Base

  /** The sizes read_int and read_uint accept (the keys of INT_FORMATS and
      UINT_FORMATS). */
  predicate IsIntSize(n: int) {
    n == 1 || n == 2 || n == 4 || n == 8
  }

  function Pow256(n: nat): (r: nat)
    ensures r >= 1
  {
    if n == 0 then 1 else 256 * Pow256(n - 1)
  }

  /** Half the range of an n-byte integer: 2^(8n-1). */
  function HalfRange(n: nat): (h: int)
    requires n > 0
    ensures h > 0 && 2 * h == Pow256(n)
  {
    128 * Pow256(n - 1)
  }

  lemma MulLe(x: int, y: int, p: int)
    requires x <= y && p >= 0
    ensures x * p <= y * p
    decreases y - x
  {
    if p > 0 && x < y {
      MulLe(x, y - 1, p);
    }
  }

  lemma MulAtLeast(a: int, d: int)
    requires a > 0 && d >= 1
    ensures a * d >= a
  {
    if d > 1 {
      MulAtLeast(a, d - 1);
      assert a * d == a * (d - 1) + a;
    }
  }

  /** Euclidean division is determined by its quotient and remainder. */
  lemma DivModUnique(x: int, a: int, q: int, r: int)
    requires a > 0 && 0 <= r < a && x == a * q + r
    ensures x % a == r && x / a == q
  {
    var q2, r2 := x / a, x % a;
    assert a * q + r == a * q2 + r2;
    assert a * (q - q2) == r2 - r;
    if q - q2 >= 1 {
      MulAtLeast(a, q - q2);
    } else if q2 - q >= 1 {
      MulAtLeast(a, q2 - q);
    }
  }

  /** The unsigned big-endian value of `bs` (struct formats B, >H, >I, >Q). */
  function BigEndian(bs: seq<Byte>): (v: nat)
    ensures v < Pow256(|bs|)
  {
    if bs == [] then 0
    else
      var prefix := bs[..|bs| - 1];
      var v' := BigEndian(prefix);
      MulLe(v', Pow256(|prefix|) - 1, 256);
      v' * 256 + bs[|bs| - 1]
  }

  /** The two's-complement big-endian value of `bs` (struct formats b, >h, >i, >q). */
  function Signed(bs: seq<Byte>): int {
    if |bs| > 0 && bs[0] >= 128 then BigEndian(bs) - Pow256(|bs|) else BigEndian(bs)
  }

  lemma Regroup(a: int, p: int, b: int, c: int)
    ensures (a * p + b) * 256 + c == a * (256 * p) + (b * 256 + c)
  {
  }

  /** The most significant byte weighs 256^(n-1). */
  lemma {:induction false} BigEndianHead(bs: seq<Byte>)
    requires |bs| > 0
    ensures BigEndian(bs) == bs[0] * Pow256(|bs| - 1) + BigEndian(bs[1..])
  {
    if |bs| == 1 {
      assert bs[..0] == [];
      assert bs[1..] == [];
    } else {
      var prefix := bs[..|bs| - 1];
      var last := bs[|bs| - 1];
      BigEndianHead(prefix);
      var tail := bs[1..];
      assert prefix[0] == bs[0];
      assert tail[..|tail| - 1] == prefix[1..];
      assert tail[|tail| - 1] == last;
      var b := BigEndian(prefix[1..]);
      assert BigEndian(tail) == b * 256 + last;
      assert BigEndian(bs) == (bs[0] * Pow256(|bs| - 2) + b) * 256 + last;
      Regroup(bs[0], Pow256(|bs| - 2), b, last);
    }
  }

  /** A signed read of n bytes lies in [-2^(8n-1), 2^(8n-1)), and is negative
      exactly when the first byte has its top bit set. */
  lemma SignedRange(bs: seq<Byte>)
    requires |bs| > 0
    ensures -HalfRange(|bs|) <= Signed(bs) < HalfRange(|bs|)
    ensures Signed(bs) < 0 <==> bs[0] >= 128
    ensures Signed(bs) >= 0 ==> Signed(bs) == BigEndian(bs)
  {
    BigEndianHead(bs);
    var p := Pow256(|bs| - 1);
    var rest := BigEndian(bs[1..]);
    assert 0 <= rest < p;
    if bs[0] >= 128 {
      MulLe(128, bs[0], p);
      MulLe(bs[0], 255, p);
    } else {
      MulLe(bs[0], 127, p);
    }
  }

  /** The big-endian encoding of v in n bytes (the inverse of BigEndian). */
  function UintBytes(v: nat, n: nat): (bs: seq<Byte>)
    requires v < Pow256(n)
    ensures |bs| == n
  {
    if n == 0 then [] else UintBytes(v / 256, n - 1) + [v % 256]
  }

  /** The two's-complement encoding of v in n bytes (the inverse of Signed). */
  function IntBytes(v: int, n: nat): (bs: seq<Byte>)
    requires n > 0 && -HalfRange(n) <= v < HalfRange(n)
    ensures |bs| == n
  {
    UintBytes(if v < 0 then v + Pow256(n) else v, n)
  }

  lemma {:induction false} BigEndianOfUintBytes(v: nat, n: nat)
    requires v < Pow256(n)
    ensures BigEndian(UintBytes(v, n)) == v
  {
    if n > 0 {
      var bs := UintBytes(v, n);
      BigEndianOfUintBytes(v / 256, n - 1);
      assert bs[..n - 1] == UintBytes(v / 256, n - 1);
    }
  }

  lemma {:induction false} UintBytesOfBigEndian(bs: seq<Byte>)
    ensures UintBytes(BigEndian(bs), |bs|) == bs
  {
    if bs != [] {
      var prefix := bs[..|bs| - 1];
      UintBytesOfBigEndian(prefix);
      var v := BigEndian(bs);
      assert v / 256 == BigEndian(prefix);
      assert v % 256 == bs[|bs| - 1];
      assert bs == prefix + [bs[|bs| - 1]];
    }
  }

  /** Decoding an encoded unsigned value gives it back, and re-encoding a
      decoded byte string gives the same bytes. */
  lemma UintRoundTrip(v: nat, n: nat, bs: seq<Byte>)
    requires v < Pow256(n)
    ensures BigEndian(UintBytes(v, n)) == v
    ensures UintBytes(BigEndian(bs), |bs|) == bs
  {
    BigEndianOfUintBytes(v, n);
    UintBytesOfBigEndian(bs);
  }

  /** Decoding a two's-complement encoding gives the value back. */
  lemma IntRoundTrip(v: int, n: nat)
    requires n > 0 && -HalfRange(n) <= v < HalfRange(n)
    ensures Signed(IntBytes(v, n)) == v
  {
    var u := if v < 0 then v + Pow256(n) else v;
    var bs := IntBytes(v, n);
    BigEndianOfUintBytes(u, n);
    BigEndianHead(bs);
    var p := Pow256(n - 1);
    var rest := BigEndian(bs[1..]);
    assert 0 <= rest < p;
    if v < 0 {
      if bs[0] < 128 {
        MulLe(bs[0], 127, p);
        assert false;
      }
    } else {
      if bs[0] >= 128 {
        MulLe(128, bs[0], p);
        assert false;
      }
    }
  }

  /** The number of padding bytes after a structure of `size` bytes aligned to
      `alignment`: none when it is already aligned, else up to the next multiple. */
  function PaddingOf(size: int, alignment: nat): (pad: nat)
    requires alignment > 0
    ensures pad < alignment
    ensures (size + pad) % alignment == 0
    ensures pad == (alignment - size % alignment) % alignment
    ensures size % alignment == 0 <==> pad == 0
  {
    var m, q := size % alignment, size / alignment;
    if m == 0 then
      DivModUnique(alignment, alignment, 1, 0);
      0
    else
      DivModUnique(size + (alignment - m), alignment, q + 1, 0);
      DivModUnique(alignment - m, alignment, 0, alignment - m);
      alignment - m
  }

  // ---------------------------------------------------------------------------
  // Grammar functions of the reader's primitive reads.

  /** read_raw(n): the next n bytes. A read past the end of the stream, or of a
      negative size, fails. */
  function RawAt(data: seq<Byte>, pos: nat, n: int): (r: Result<Parsed<seq<Byte>>>)
    ensures r.Success? <==> 0 <= n && pos + n <= |data|
    ensures r.Success? ==> r.value.next == pos + n && r.value.value == data[pos..pos + n]
    ensures r.Failure? ==> r.error == (if n < 0 then NegativeRead else EndOfStream)
  {
    if n < 0 then Failure(NegativeRead)
    else if pos + n > |data| then Failure(EndOfStream)
    else Success(Parsed(data[pos..pos + n], pos + n))
  }

  /** read_int(n): a signed big-endian integer of n bytes, n in {1,2,4,8}. */
  function IntAt(data: seq<Byte>, pos: nat, n: int): (r: Result<Parsed<int>>)
    ensures r.Success? <==> IsIntSize(n) && pos + n <= |data|
    ensures !IsIntSize(n) ==> r == Failure(BadIntSize)
    ensures r.Success? ==> r.value.next == pos + n && r.value.value == Signed(data[pos..pos + n])
    ensures r.Success? ==> -HalfRange(n) <= r.value.value < HalfRange(n)
  {
    if !IsIntSize(n) then Failure(BadIntSize)
    else
      var buf :- RawAt(data, pos, n);
      SignedRange(buf.value);
      Success(Parsed(Signed(buf.value), buf.next))
  }

  /** read_uint(n): an unsigned big-endian integer of n bytes, n in {1,2,4,8}. */
  function UintAt(data: seq<Byte>, pos: nat, n: int): (r: Result<Parsed<nat>>)
    ensures r.Success? <==> IsIntSize(n) && pos + n <= |data|
    ensures !IsIntSize(n) ==> r == Failure(BadIntSize)
    ensures r.Success? ==> r.value.next == pos + n && r.value.value == BigEndian(data[pos..pos + n])
    ensures r.Success? ==> r.value.value < Pow256(n)
  {
    if !IsIntSize(n) then Failure(BadIntSize)
    else
      var buf :- RawAt(data, pos, n);
      Success(Parsed(BigEndian(buf.value), buf.next))
  }

  /** read_double(): eight bytes, kept as an opaque IEEE-754 payload. */
  function DoubleAt(data: seq<Byte>, pos: nat): (r: Result<Parsed<seq<Byte>>>)
    ensures r.Success? <==> pos + 8 <= |data|
    ensures r.Success? ==> r.value.next == pos + 8 && r.value.value == data[pos..pos + 8]
  {
    RawAt(data, pos, 8)
  }

  // ---------------------------------------------------------------------------
  // The reader itself.

  class BinaryReader {
    const data: seq<Byte>
    var pos: nat

    constructor (stream: seq<Byte>)
      ensures data == stream && pos == 0
    {
      data := stream;
      pos := 0;
    }

    /** Read the next n bytes and move past them. */
    method ReadRaw(n: int) returns (r: Result<seq<Byte>>)
      modifies this
      ensures Agrees(r, RawAt(data, old(pos), n), pos)
    {
      if n < 0 {
        return Failure(NegativeRead);
      }
      if pos + n > |data| {
        return Failure(EndOfStream);
      }
      r := Success(data[pos..pos + n]);
      pos := pos + n;
    }

    /** Move by a signed offset, forward (possibly past the end of the stream)
        or backward. */
    method Skip(delta: int)
      requires pos + delta >= 0
      modifies this
      ensures pos == old(pos) + delta
    {
      pos := pos + delta;
    }

    /** Move to an absolute position, whatever the current one. */
    method SkipTo(target: nat)
      modifies this
      ensures pos == target
    {
      Skip(target - pos);
    }

    /** Skip the padding after a structure of `size` bytes aligned to `alignment`. */
    method SkipPadding(size: int, alignment: nat)
      requires alignment > 0
      modifies this
      ensures pos == old(pos) + PaddingOf(size, alignment)
    {
      if size % alignment == 0 {
        return;
      }
      Skip(alignment - size % alignment);
    }

    method ReadInt(n: int) returns (r: Result<int>)
      modifies this
      ensures Agrees(r, IntAt(data, old(pos), n), pos)
    {
      if !IsIntSize(n) {
        return Failure(BadIntSize);
      }
      var buf :- ReadRaw(n);
      r := Success(Signed(buf));
    }

    method ReadUint(n: int) returns (r: Result<nat>)
      modifies this
      ensures Agrees(r, UintAt(data, old(pos), n), pos)
    {
      if !IsIntSize(n) {
        return Failure(BadIntSize);
      }
      var buf :- ReadRaw(n);
      r := Success(BigEndian(buf));
    }

    method ReadDouble() returns (r: Result<seq<Byte>>)
      modifies this
      ensures Agrees(r, DoubleAt(data, old(pos)), pos)
    {
      r := ReadRaw(8);
    }
  }
}
