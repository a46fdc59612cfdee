/** PSD scalars read from the shared reader (psd_primitive.py): Unicode and
    Pascal strings, 8.24 fixed-point numbers, points, and the two section
    idioms (skip a length-prefixed section; compute where it ends). */
module PsdPrimitive {
  import opened Base
  import opened Binary

  /** A 2D point; on the wire y comes before x. */
  datatype Point = Point(x: real, y: real)

  /** The padding after `size` bytes, when an alignment is given. */
  function AlignPad(size: int, alignment: Option<nat>): nat
    requires alignment.Some? ==> alignment.value > 0
  {
    if alignment.Some? then PaddingOf(size, alignment.value) else 0
  }

  /** The n big-endian 16-bit code units starting at q, each read signed. */
  function CodeUnits(data: seq<Byte>, q: nat, n: nat): (units: seq<int>)
    requires q + 2 * n <= |data|
    ensures |units| == n
    ensures forall i | 0 <= i < n :: units[i] == Signed(data[q + 2 * i..q + 2 * i + 2])
  {
    seq(n, i requires 0 <= i < n => Signed(data[q + 2 * i..q + 2 * i + 2]))
  }

  /** One more code unit read. */
  lemma CodeUnitsSnoc(data: seq<Byte>, q: nat, n: nat)
    requires q + 2 * (n + 1) <= |data|
    ensures CodeUnits(data, q, n + 1) == CodeUnits(data, q, n) + [Signed(data[q + 2 * n..q + 2 * n + 2])]
  {
  }

  /** The code unit at index i of a run starting at q, as read_int(2) reads it. */
  function UnitAt(data: seq<Byte>, q: nat, i: nat): int
    requires q + 2 * i + 2 <= |data|
  {
    Signed(data[q + 2 * i..q + 2 * i + 2])
  }

  /** Every one of the n units from q is one unichr() accepts: not negative. */
  predicate UnitsValid(data: seq<Byte>, q: nat, n: nat)
    requires q + 2 * n <= |data|
  {
    forall i | 0 <= i < n :: UnitAt(data, q, i) >= 0
  }

  /** Some unit among the n from q that the stream still holds is negative. */
  predicate HasBadUnit(data: seq<Byte>, q: nat, n: nat) {
    exists i | 0 <= i < n && q + 2 * i + 2 <= |data| :: UnitAt(data, q, i) < 0
  }

  /** The units seen from q + 2 are those from q shifted by one. */
  lemma UnitsShift(data: seq<Byte>, q: nat, n: nat)
    requires q + 2 <= |data|
    ensures forall i | 0 <= i && q + 2 + 2 * i + 2 <= |data| :: UnitAt(data, q + 2, i) == UnitAt(data, q, i + 1)
    ensures HasBadUnit(data, q, n + 1) <==> UnitAt(data, q, 0) < 0 || HasBadUnit(data, q + 2, n)
    ensures q + 2 * (n + 1) <= |data| ==>
      (UnitsValid(data, q, n + 1) <==> UnitAt(data, q, 0) >= 0 && UnitsValid(data, q + 2, n))
  {
    forall i | 0 <= i && q + 2 + 2 * i + 2 <= |data|
      ensures UnitAt(data, q + 2, i) == UnitAt(data, q, i + 1)
    {
      assert q + 2 + 2 * i == q + 2 * (i + 1);
    }
    if HasBadUnit(data, q, n + 1) {
      var i :| 0 <= i < n + 1 && q + 2 * i + 2 <= |data| && UnitAt(data, q, i) < 0;
      if i > 0 {
        assert UnitAt(data, q + 2, i - 1) == UnitAt(data, q, i);
      }
    }
    if HasBadUnit(data, q + 2, n) {
      var i :| 0 <= i < n && q + 2 + 2 * i + 2 <= |data| && UnitAt(data, q + 2, i) < 0;
      assert UnitAt(data, q, i + 1) < 0;
    }
    if q + 2 * (n + 1) <= |data| && UnitAt(data, q, 0) >= 0 && UnitsValid(data, q + 2, n) {
      forall i | 0 <= i < n + 1
        ensures UnitAt(data, q, i) >= 0
      {
        if i > 0 {
          assert UnitAt(data, q + 2, i - 1) == UnitAt(data, q, i);
        }
      }
    }
  }

  /** The generator of read_psd_unicode: n units read one after another from
      q, each signed, each handed to unichr(). The first short read ends it
      with EndOfStream and the first negative unit with BadCodeUnit,
      whichever comes first in the stream. */
  function UnitsAt(data: seq<Byte>, q: nat, n: nat): (r: Result<seq<int>>)
    requires q <= |data|
    ensures r.Failure? ==> r.error == EndOfStream || r.error == BadCodeUnit
    decreases n
  {
    if n == 0 then Success([])
    else if q + 2 > |data| then Failure(EndOfStream)
    else
      var u := Signed(data[q..q + 2]);
      if u < 0 then Failure(BadCodeUnit)
      else Glue([u], UnitsAt(data, q + 2, n - 1))
  }

  /** The units are read exactly when the stream holds all n and unichr()
      accepts each; they are then the n signed units, each in [0, 0x8000). */
  lemma {:induction false} UnitsAccepted(data: seq<Byte>, q: nat, n: nat)
    requires q <= |data|
    ensures UnitsAt(data, q, n).Success? <==> q + 2 * n <= |data| && UnitsValid(data, q, n)
    ensures UnitsAt(data, q, n).Success? ==>
      && UnitsAt(data, q, n).value == CodeUnits(data, q, n)
      && forall i | 0 <= i < n :: 0 <= UnitsAt(data, q, n).value[i] < 0x8000
  {
    UnitsSucceed(data, q, n);
    if UnitsAt(data, q, n).Success? {
      UnitsValue(data, q, n);
    }
  }

  /** The read succeeds exactly when all n units are there and none is negative. */
  lemma {:induction false} UnitsSucceed(data: seq<Byte>, q: nat, n: nat)
    requires q <= |data|
    ensures UnitsAt(data, q, n).Success? <==> q + 2 * n <= |data| && UnitsValid(data, q, n)
    decreases n
  {
    if n > 0 && q + 2 <= |data| {
      UnitsShift(data, q, n - 1);
      assert Signed(data[q..q + 2]) == UnitAt(data, q, 0);
      UnitsSucceed(data, q + 2, n - 1);
    }
  }

  /** A successful read gives the units as read, each below 0x8000. */
  lemma {:induction false} UnitsValue(data: seq<Byte>, q: nat, n: nat)
    requires q <= |data| && UnitsAt(data, q, n).Success?
    ensures q + 2 * n <= |data|
    ensures UnitsAt(data, q, n).value == CodeUnits(data, q, n)
    ensures forall i | 0 <= i < n :: 0 <= UnitsAt(data, q, n).value[i] < 0x8000
    decreases n
  {
    if n > 0 {
      var u := Signed(data[q..q + 2]);
      UnitsValue(data, q + 2, n - 1);
      var rest := UnitsAt(data, q + 2, n - 1).value;
      SignedRange(data[q..q + 2]);
      assert HalfRange(2) == 0x8000;
      var all := CodeUnits(data, q, n);
      forall i | 0 <= i < n - 1
        ensures rest[i] == all[i + 1]
      {
        assert q + 2 + 2 * i == q + 2 * (i + 1);
      }
      assert [u] + rest == all;
    }
  }


  /** unichr() refuses a unit exactly when some unit the stream holds, before
      the n-th, is negative: that refusal comes before any later short read. */
  lemma {:induction false} UnitsRefused(data: seq<Byte>, q: nat, n: nat)
    requires q <= |data|
    ensures UnitsAt(data, q, n) == Failure(BadCodeUnit) <==> HasBadUnit(data, q, n)
    decreases n
  {
    if n > 0 && q + 2 <= |data| {
      UnitsShift(data, q, n - 1);
      assert Signed(data[q..q + 2]) == UnitAt(data, q, 0);
      UnitsRefused(data, q + 2, n - 1);
    }
  }

  /** read_psd_unicode(alignment): a signed 4-byte count L, then L code units
      (none when L is negative), then the padding of 2L bytes to `alignment`.
      Every unit must be below 0x8000: read signed, a larger one is negative
      and unichr() refuses it. */
  function UnicodeAt(data: seq<Byte>, pos: nat, alignment: Option<nat>): (r: Result<Parsed<seq<int>>>)
    requires alignment.Some? ==> alignment.value > 0
    ensures r.Success? <==>
      && pos + 4 <= |data|
      && var n := Max0(Signed(data[pos..pos + 4]));
         pos + 4 + 2 * n <= |data| && UnitsValid(data, pos + 4, n)
    ensures r.Success? ==>
      var len := Signed(data[pos..pos + 4]);
      && r.value.value == CodeUnits(data, pos + 4, Max0(len))
      && (forall i | 0 <= i < |r.value.value| :: 0 <= r.value.value[i] < 0x8000)
      && r.value.next == pos + 4 + 2 * Max0(len) + AlignPad(2 * len, alignment)
    ensures r.Failure? ==> r.error == EndOfStream || r.error == BadCodeUnit
    ensures r == Failure(BadCodeUnit) <==>
      pos + 4 <= |data| && HasBadUnit(data, pos + 4, Max0(Signed(data[pos..pos + 4])))
  {
    var len :- IntAt(data, pos, 4);
    var n := Max0(len.value);
    UnitsAccepted(data, len.next, n);
    UnitsRefused(data, len.next, n);
    var units :- UnitsAt(data, len.next, n);
    Success(Parsed(units, len.next + 2 * n + AlignPad(2 * len.value, alignment)))
  }

  /** The unsigned reading of n units, read_uint(2) for each: every 16-bit
      value, none refused. */
  function UnsignedUnits(data: seq<Byte>, q: nat, n: nat): (units: seq<nat>)
    requires q + 2 * n <= |data|
    ensures |units| == n
    ensures forall i | 0 <= i < n :: units[i] < 0x10000
    ensures forall i | 0 <= i < n && UnitAt(data, q, i) >= 0 :: units[i] == UnitAt(data, q, i)
  {
    seq(n, i requires 0 <= i < n => UnsignedUnit(data, q, i))
  }

  /** One unit read unsigned; it agrees with the signed read where that is
      not negative. */
  function UnsignedUnit(data: seq<Byte>, q: nat, i: nat): (u: nat)
    requires q + 2 * i + 2 <= |data|
    ensures u < 0x10000
    ensures UnitAt(data, q, i) >= 0 ==> u == UnitAt(data, q, i)
  {
    var bs := data[q + 2 * i..q + 2 * i + 2];
    assert Pow256(2) == 0x10000;
    BigEndian(bs)
  }

  /** The string "가" (U+AC00, bytes AC 00): read signed the unit is -21504,
      so read_psd_unicode fails, where the unsigned read gives 0xAC00. */
  lemma CodeUnitRefusedExample()
    ensures UnicodeAt([0, 0, 0, 1, 0xAC, 0x00], 0, None) == Failure(BadCodeUnit)
    ensures UnsignedUnits([0, 0, 0, 1, 0xAC, 0x00], 4, 1) == [0xAC00]
  {
    var data: seq<Byte> := [0, 0, 0, 1, 0xAC, 0x00];
    assert data[0..4] == [0, 0, 0, 1];
    assert data[4..6] == [0xAC, 0x00];
    var w: seq<Byte> := data[0..4];
    assert w == [0, 0, 0, 1];
    assert w[..3] == [0, 0, 0];
    assert w[..3][..2] == [0, 0];
    assert w[..3][..2][..1] == [0];
    assert w[..3][..2][..1][..0] == [];
    assert BigEndian(w[..3][..2][..1]) == 0;
    assert BigEndian(w[..3][..2]) == 0;
    assert BigEndian(w[..3]) == 0;
    assert BigEndian(w) == 1;
    assert UnitAt(data, 4, 0) < 0;
    assert BigEndian(data[4..6]) == 0xAC00;
    assert HasBadUnit(data, 4, 1);
  }

  /** read_psd_string(alignment): a 1-byte length L (read signed), then L raw
      bytes, then the padding of 1 + L bytes to `alignment`. A negative L fails. */
  function PascalStringAt(data: seq<Byte>, pos: nat, alignment: Option<nat>): (r: Result<Parsed<seq<Byte>>>)
    requires alignment.Some? ==> alignment.value > 0
    ensures r.Success? <==>
      pos + 1 <= |data| && 0 <= Signed(data[pos..pos + 1]) && pos + 1 + Signed(data[pos..pos + 1]) <= |data|
    ensures r.Success? ==>
      var len := Signed(data[pos..pos + 1]);
      && r.value.value == data[pos + 1..pos + 1 + len]
      && r.value.next == pos + 1 + len + AlignPad(1 + len, alignment)
  {
    var len :- IntAt(data, pos, 1);
    var s :- RawAt(data, len.next, len.value);
    Success(Parsed(s.value, s.next + AlignPad(1 + len.value, alignment)))
  }

  /** The value of a 32-bit fixed-point number with 24 fractional bits. */
  function FixedValue(bs: seq<Byte>): real {
    Signed(bs) as real / 16777216.0
  }

  /** read_fixed(): four bytes whose signed value is the number times 2^24. */
  function FixedAt(data: seq<Byte>, pos: nat): (r: Result<Parsed<real>>)
    ensures r.Success? <==> pos + 4 <= |data|
    ensures r.Success? ==>
      r.value.next == pos + 4 && r.value.value * 16777216.0 == Signed(data[pos..pos + 4]) as real
  {
    var v :- IntAt(data, pos, 4);
    Success(Parsed(v.value as real / 16777216.0, v.next))
  }

  /** read_point(): y first, then x. */
  function PointAt(data: seq<Byte>, pos: nat): (r: Result<Parsed<Point>>)
    ensures r.Success? <==> pos + 8 <= |data|
    ensures r.Success? ==>
      && r.value.next == pos + 8
      && r.value.value.y * 16777216.0 == Signed(data[pos..pos + 4]) as real
      && r.value.value.x * 16777216.0 == Signed(data[pos + 4..pos + 8]) as real
  {
    var y :- FixedAt(data, pos);
    var x :- FixedAt(data, y.next);
    Success(Parsed(Point(x.value, y.value), x.next))
  }

  /** skip_section(alignment): an unsigned 4-byte length, then that many bytes
      skipped, then the padding of the length. The skip itself never fails. */
  function SkipSectionAt(data: seq<Byte>, pos: nat, alignment: Option<nat>): (r: Result<Parsed<()>>)
    requires alignment.Some? ==> alignment.value > 0
    ensures r.Success? <==> pos + 4 <= |data|
    ensures r.Success? ==>
      var len := BigEndian(data[pos..pos + 4]);
      r.value.next == pos + 4 + len + AlignPad(len, alignment)
  {
    var len :- UintAt(data, pos, 4);
    Success(Parsed((), len.next + len.value + AlignPad(len.value, alignment)))
  }

  /** read_section_end(): the position just past the 4-byte length plus that
      length; only the length field is consumed. */
  function SectionEndAt(data: seq<Byte>, pos: nat): (r: Result<Parsed<nat>>)
    ensures r.Success? <==> pos + 4 <= |data|
    ensures r.Success? ==>
      && r.value.next == pos + 4
      && r.value.value == pos + 4 + BigEndian(data[pos..pos + 4])
      && r.value.value >= r.value.next
  {
    var len :- UintAt(data, pos, 4);
    Success(Parsed(len.next + len.value, len.next))
  }

  // ---------------------------------------------------------------------------
  // Properties of the primitives.

  /** A code unit read signed is negative exactly when its unsigned value is at
      least 0x8000, and then it is that value minus 0x10000. */
  lemma CodeUnitSign(bs: seq<Byte>)
    requires |bs| == 2
    ensures BigEndian(bs) >= 0x8000 ==> Signed(bs) == BigEndian(bs) - 0x10000
    ensures BigEndian(bs) < 0x8000 ==> Signed(bs) == BigEndian(bs)
  {
    BigEndianHead(bs);
    assert bs[1..] == [bs[1]];
    assert BigEndian([bs[1]]) == bs[1] by {
      assert [bs[1]][..0] == [];
    }
  }

  /** Alignment 2 never pads a Unicode string: 2L is always even. */
  lemma UnicodeAlignTwoNoPadding(data: seq<Byte>, pos: nat)
    ensures UnicodeAt(data, pos, Some(2)) == UnicodeAt(data, pos, None)
  {
    if pos + 4 <= |data| {
      var len := Signed(data[pos..pos + 4]);
      DivModUnique(2 * len, 2, len, 0);
    }
  }

  /** An encoded fixed-point value reads back as itself divided by 2^24. */
  lemma FixedRoundTrip(v: int)
    requires -0x8000_0000 <= v < 0x8000_0000
    ensures FixedAt(IntBytes(v, 4), 0) == Success(Parsed(v as real / 16777216.0, 4))
  {
    var bs := IntBytes(v, 4);
    assert HalfRange(4) == 0x8000_0000;
    IntRoundTrip(v, 4);
    assert bs[0..4] == bs;
  }

  // ---------------------------------------------------------------------------
  // The reader methods.

  /** One more unit read and accepted at p: the units glued so far grow by it. */
  lemma UnitsStep(data: seq<Byte>, p: nat, m: nat, acc: seq<int>, u: int)
    requires p + 2 <= |data|
    requires u == Signed(data[p..p + 2]) && u >= 0
    ensures Glue(acc, UnitsAt(data, p, m + 1)) == Glue(acc + [u], UnitsAt(data, p + 2, m))
  {
    GlueGlue(acc, [u], UnitsAt(data, p + 2, m));
  }

  method ReadPsdUnicode(rd: BinaryReader, alignment: Option<nat>) returns (r: Result<seq<int>>)
    requires alignment.Some? ==> alignment.value > 0
    modifies rd
    ensures Agrees(r, UnicodeAt(rd.data, old(rd.pos), alignment), rd.pos)
  {
    var length :- rd.ReadInt(4);
    var start := rd.pos;
    var n := Max0(length);
    var units: seq<int> := [];
    GlueEmpty(UnitsAt(rd.data, start, n));
    for i := 0 to n
      invariant rd.pos == start + 2 * i <= |rd.data|
      invariant Glue(units, UnitsAt(rd.data, rd.pos, n - i)) == UnitsAt(rd.data, start, n)
    {
      var p := rd.pos;
      var u := rd.ReadInt(2);
      if u.Failure? {
        return Failure(u.error);
      }
      if u.value < 0 {
        return Failure(BadCodeUnit);
      }
      UnitsStep(rd.data, p, n - i - 1, units, u.value);
      units := units + [u.value];
    }
    assert units + [] == units;
    assert UnitsAt(rd.data, start, n) == Success(units);
    if alignment.Some? {
      rd.SkipPadding(length * 2, alignment.value);
    }
    r := Success(units);
  }

  method ReadPsdString(rd: BinaryReader, alignment: Option<nat>) returns (r: Result<seq<Byte>>)
    requires alignment.Some? ==> alignment.value > 0
    modifies rd
    ensures Agrees(r, PascalStringAt(rd.data, old(rd.pos), alignment), rd.pos)
  {
    var length :- rd.ReadInt(1);
    var s :- rd.ReadRaw(length);
    if alignment.Some? {
      rd.SkipPadding(1 + length, alignment.value);
    }
    r := Success(s);
  }

  method ReadFixed(rd: BinaryReader) returns (r: Result<real>)
    modifies rd
    ensures Agrees(r, FixedAt(rd.data, old(rd.pos)), rd.pos)
  {
    var v :- rd.ReadInt(4);
    r := Success(v as real / 16777216.0);
  }

  method ReadPoint(rd: BinaryReader) returns (r: Result<Point>)
    modifies rd
    ensures Agrees(r, PointAt(rd.data, old(rd.pos)), rd.pos)
  {
    var y :- ReadFixed(rd);
    var x :- ReadFixed(rd);
    r := Success(Point(x, y));
  }

  method SkipSection(rd: BinaryReader, alignment: Option<nat>) returns (r: Result<()>)
    requires alignment.Some? ==> alignment.value > 0
    modifies rd
    ensures Agrees(r, SkipSectionAt(rd.data, old(rd.pos), alignment), rd.pos)
  {
    var length :- rd.ReadUint(4);
    rd.Skip(length);
    if alignment.Some? {
      rd.SkipPadding(length, alignment.value);
    }
    r := Success(());
  }

  method ReadSectionEnd(rd: BinaryReader) returns (r: Result<nat>)
    modifies rd
    ensures Agrees(r, SectionEndAt(rd.data, old(rd.pos)), rd.pos)
  {
    var length :- rd.ReadUint(4);
    r := Success(rd.pos + length);
  }
}
