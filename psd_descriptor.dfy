/** The descriptor decoder (psd_descriptor.py): a typed property list whose
    values are dispatched by a 4-byte tag over a closed set of eight shapes,
    one of which (Objc) is a nested descriptor and one (VlLs) a list of values. */
module PsdDescriptor {
  import opened Base
  import opened Binary
  import opened PsdPrimitive

  /** A descriptor key or class id: raw bytes. */
  type Id = seq<Byte>

  /** A decoded descriptor value, one constructor per tag. */
  datatype DValue =
    | Obj(fields: map<Id, DValue>)              // Objc: a nested descriptor
    | Double(bits: seq<Byte>)                   // doub: an opaque 8-byte double
    | UnitFloat(units: seq<Byte>, bits: seq<Byte>)  // UntF: a unit tag and a double
    | Bool(b: bool)                             // bool
    | Enum(enumType: Id, enumValue: Id)         // enum
    | Text(codeUnits: seq<int>)                   // TEXT: UTF-16 code units
    | List(values: seq<DValue>)                 // VlLs
    | Long(n: int)                              // long

  /** The eight value shapes the decoder knows. */
  datatype Kind = KObjc | KDoub | KUntF | KBool | KEnum | KText | KVlLs | KLong

  /** The tag that names each shape. */
  function TagName(k: Kind): (name: seq<Byte>)
    ensures |name| == 4
  {
    match k
    case KObjc => [0x4F, 0x62, 0x6A, 0x63]  // "Objc"
    case KDoub => [0x64, 0x6F, 0x75, 0x62]  // "doub"
    case KUntF => [0x55, 0x6E, 0x74, 0x46]  // "UntF"
    case KBool => [0x62, 0x6F, 0x6F, 0x6C]  // "bool"
    case KEnum => [0x65, 0x6E, 0x75, 0x6D]  // "enum"
    case KText => [0x54, 0x45, 0x58, 0x54]  // "TEXT"
    case KVlLs => [0x56, 0x6C, 0x4C, 0x73]  // "VlLs"
    case KLong => [0x6C, 0x6F, 0x6E, 0x67]  // "long"
  }

  /** The shape of a decoded value. */
  function KindOfValue(v: DValue): Kind {
    match v
    case Obj(_) => KObjc
    case Double(_) => KDoub
    case UnitFloat(_, _) => KUntF
    case Bool(_) => KBool
    case Enum(_, _) => KEnum
    case Text(_) => KText
    case List(_) => KVlLs
    case Long(_) => KLong
  }

  // ---------------------------------------------------------------------------
  // Tag dispatch: the tag is stripped of surrounding whitespace and looked up.

  /** The bytes Python 2's str.strip() removes: tab, LF, VT, FF, CR, space. */
  predicate IsSpace(b: Byte) {
    b == 9 || b == 10 || b == 11 || b == 12 || b == 13 || b == 32
  }

  function StripLeft(s: seq<Byte>): (r: seq<Byte>)
    ensures |r| <= |s|
  {
    if |s| > 0 && IsSpace(s[0]) then StripLeft(s[1..]) else s
  }

  function StripRight(s: seq<Byte>): (r: seq<Byte>)
    ensures |r| <= |s|
  {
    if |s| > 0 && IsSpace(s[|s| - 1]) then StripRight(s[..|s| - 1]) else s
  }

  /** The tag without its leading and trailing whitespace (str.strip()). */
  function Strip(s: seq<Byte>): (r: seq<Byte>)
    ensures |r| <= |s|
  {
    StripRight(StripLeft(s))
  }

  /** StripLeft drops exactly the leading whitespace. */
  lemma {:induction false} StripLeftShape(s: seq<Byte>)
    ensures var r := StripLeft(s); var i := |s| - |r|;
      && r == s[i..]
      && (forall j | 0 <= j < i :: IsSpace(s[j]))
      && (|r| > 0 ==> !IsSpace(r[0]))
  {
    if |s| > 0 && IsSpace(s[0]) {
      StripLeftShape(s[1..]);
    }
  }

  /** StripRight drops exactly the trailing whitespace. */
  lemma {:induction false} StripRightShape(s: seq<Byte>)
    ensures var r := StripRight(s);
      && r == s[..|r|]
      && (forall j | |r| <= j < |s| :: IsSpace(s[j]))
      && (|r| > 0 ==> !IsSpace(r[|r| - 1]))
  {
    if |s| > 0 && IsSpace(s[|s| - 1]) {
      StripRightShape(s[..|s| - 1]);
    }
  }

  /** Strip keeps one slice of the tag, drops only whitespace around it, and
      the slice neither starts nor ends with whitespace; so a tag it does not
      shorten is returned as it is. */
  lemma StripShape(s: seq<Byte>)
    ensures var r := Strip(s); var i := |s| - |StripLeft(s)|;
      && r == s[i..i + |r|]
      && (forall j | 0 <= j < i :: IsSpace(s[j]))
      && (forall j | i + |r| <= j < |s| :: IsSpace(s[j]))
      && (|r| > 0 ==> !IsSpace(r[0]) && !IsSpace(r[|r| - 1]))
      && (|r| == |s| ==> r == s)
  {
    var t := StripLeft(s);
    StripLeftShape(s);
    StripRightShape(t);
    var r := StripRight(t);
    var i := |s| - |t|;
    assert r == s[i..i + |r|];
    forall j | i + |r| <= j < |s| ensures IsSpace(s[j]) {
      assert s[j] == t[j - i];
    }
  }

  /** The shape a stripped tag names, if any. */
  function KindNamed(t: seq<Byte>): Option<Kind> {
    if t == TagName(KObjc) then Some(KObjc)
    else if t == TagName(KDoub) then Some(KDoub)
    else if t == TagName(KUntF) then Some(KUntF)
    else if t == TagName(KBool) then Some(KBool)
    else if t == TagName(KEnum) then Some(KEnum)
    else if t == TagName(KText) then Some(KText)
    else if t == TagName(KVlLs) then Some(KVlLs)
    else if t == TagName(KLong) then Some(KLong)
    else None
  }

  /** read_descriptor_item's lookup of `read_di_<stripped tag>`. */
  function KindOf(tag: seq<Byte>): Option<Kind> {
    KindNamed(Strip(tag))
  }

  lemma KindNamedIsName(t: seq<Byte>, k: Kind)
    ensures KindNamed(t) == Some(k) <==> t == TagName(k)
  {
    match k
    case KObjc => {} case KDoub => {} case KUntF => {} case KBool => {}
    case KEnum => {} case KText => {} case KVlLs => {} case KLong => {}
  }

  /** A name has no whitespace at either end, so stripping leaves it unchanged. */
  lemma StripName(k: Kind)
    ensures Strip(TagName(k)) == TagName(k)
  {
    var name := TagName(k);
    assert !IsSpace(name[0]) && !IsSpace(name[3]);
    assert StripLeft(name) == name;
  }

  /** A 4-byte tag decodes as shape k exactly when it is k's name. */
  lemma KindOfFourByteTag(tag: seq<Byte>, k: Kind)
    requires |tag| == 4
    ensures KindOf(tag) == Some(k) <==> tag == TagName(k)
  {
    var t := Strip(tag);
    KindNamedIsName(t, k);
    if tag == TagName(k) {
      StripName(k);
    }
    if t == TagName(k) {
      StripShape(tag);
    }
  }

  /** Dispatch is closed: a 4-byte tag that is none of the eight names is
      refused, and one that is a name is not. */
  lemma UnknownTagRefused(tag: seq<Byte>)
    requires |tag| == 4
    ensures KindOf(tag).None? <==> forall j: Kind :: tag != TagName(j)
  {
    if KindOf(tag).Some? {
      KindOfFourByteTag(tag, KindOf(tag).value);
    } else {
      forall j: Kind ensures tag != TagName(j) {
        KindOfFourByteTag(tag, j);
      }
    }
  }

  // ---------------------------------------------------------------------------
  // Items and the map they fill.

  /** The dictionary m after the items are stored into it one by one, in
      order: a later item with the same key replaces an earlier one. */
  function StoreAll<K, V>(m: map<K, V>, items: seq<(K, V)>): map<K, V>
    decreases |items|
  {
    if |items| == 0 then m
    else StoreAll(m[items[0].0 := items[0].1], items[1..])
  }

  /** The dictionary an item loop fills, starting from an empty one. */
  function ToMap<K, V>(items: seq<(K, V)>): map<K, V> {
    StoreAll(map[], items)
  }

  /** Storing a parsed item sequence into m, or the parse's failure. */
  function StoreInto<K, V>(m: map<K, V>, r: Result<Parsed<seq<(K, V)>>>): Result<Parsed<map<K, V>>> {
    match r
    case Success(p) => Success(Parsed(StoreAll(m, p.value), p.next))
    case Failure(e) => Failure(e)
  }

  /** Storing adds exactly the items' keys. */
  lemma {:induction false} StoreAllKeys<K, V>(m: map<K, V>, items: seq<(K, V)>)
    ensures StoreAll(m, items).Keys == m.Keys + set i | 0 <= i < |items| :: items[i].0
    decreases |items|
  {
    if |items| > 0 {
      var rest := items[1..];
      StoreAllKeys(m[items[0].0 := items[0].1], rest);
      assert forall i | 0 <= i < |rest| :: rest[i] == items[i + 1];
      var ks := set i | 0 <= i < |items| :: items[i].0;
      var rs := set i | 0 <= i < |rest| :: rest[i].0;
      assert ks == {items[0].0} + rs by {
        forall k | k in ks ensures k in {items[0].0} + rs {
          var i :| 0 <= i < |items| && items[i].0 == k;
          if i > 0 {
            assert rest[i - 1].0 == k;
          }
        }
      }
    }
  }

  /** The keys of the dictionary are exactly the keys of the items. */
  lemma ToMapKeys<K, V>(items: seq<(K, V)>)
    ensures ToMap(items).Keys == set i | 0 <= i < |items| :: items[i].0
  {
    StoreAllKeys(map[], items);
  }

  /** A key no item carries keeps its entry. */
  lemma {:induction false} StoreAllUntouched<K, V>(m: map<K, V>, items: seq<(K, V)>, k: K)
    requires forall j | 0 <= j < |items| :: items[j].0 != k
    ensures (k in StoreAll(m, items)) == (k in m)
    ensures k in m ==> StoreAll(m, items)[k] == m[k]
    decreases |items|
  {
    if |items| > 0 {
      var rest := items[1..];
      assert forall j | 0 <= j < |rest| :: rest[j] == items[j + 1];
      StoreAllUntouched(m[items[0].0 := items[0].1], rest, k);
    }
  }

  /** A repeated key keeps the value stored last. */
  lemma {:induction false} StoreAllLastWins<K, V>(m: map<K, V>, items: seq<(K, V)>, i: nat)
    requires i < |items|
    requires forall j | i < j < |items| :: items[j].0 != items[i].0
    ensures items[i].0 in StoreAll(m, items) && StoreAll(m, items)[items[i].0] == items[i].1
    decreases |items|
  {
    var rest := items[1..];
    assert forall j | 0 <= j < |rest| :: rest[j] == items[j + 1];
    if i == 0 {
      StoreAllUntouched(m[items[0].0 := items[0].1], rest, items[0].0);
    } else {
      StoreAllLastWins(m[items[0].0 := items[0].1], rest, i - 1);
    }
  }

  /** A repeated key keeps the value read last. */
  lemma ToMapLastWins<K, V>(items: seq<(K, V)>, i: nat)
    requires i < |items|
    requires forall j | i < j < |items| :: items[j].0 != items[i].0
    ensures items[i].0 in ToMap(items) && ToMap(items)[items[i].0] == items[i].1
  {
    StoreAllLastWins(map[], items, i);
  }

  /** N items give at most N keys. */
  lemma {:induction false} StoreAllSize<K, V>(m: map<K, V>, items: seq<(K, V)>)
    ensures |StoreAll(m, items).Keys| <= |m.Keys| + |items|
    decreases |items|
  {
    if |items| > 0 {
      var m2 := m[items[0].0 := items[0].1];
      StoreAllSize(m2, items[1..]);
      assert m2.Keys == m.Keys + {items[0].0};
    }
  }

  /** N items give at most N keys. */
  lemma ToMapSize<K, V>(items: seq<(K, V)>)
    ensures |ToMap(items).Keys| <= |items|
  {
    StoreAllSize(map[], items);
  }

  // ---------------------------------------------------------------------------
  // The grammar. Positions strictly increase on every read, so the measure is
  // the number of bytes left, then the rank of the reader in the call chain.

  /** read_descriptor_id(): a signed 4-byte length L, then L bytes, or 4 bytes
      when L is 0. */
  function IdAt(data: seq<Byte>, pos: nat): (r: Result<Parsed<Id>>)
    ensures r.Success? <==>
      pos + 4 <= |data| &&
      var len := Signed(data[pos..pos + 4]);
      0 <= len && pos + 4 + (if len == 0 then 4 else len) <= |data|
    ensures r.Success? ==>
      var len := Signed(data[pos..pos + 4]);
      var n := if len == 0 then 4 else len;
      r.value.value == data[pos + 4..pos + 4 + n] && r.value.next == pos + 4 + n
  {
    var len :- IntAt(data, pos, 4);
    RawAt(data, len.next, if len.value != 0 then len.value else 4)
  }

  /** read_di_doub(): an opaque 8-byte double. */
  function DoubAt(data: seq<Byte>, pos: nat): (r: Result<Parsed<DValue>>)
    ensures r.Success? <==> pos + 8 <= |data|
    ensures r.Success? ==> r.value == Parsed(Double(data[pos..pos + 8]), pos + 8)
  {
    var d :- DoubleAt(data, pos);
    Success(Parsed(Double(d.value), d.next))
  }

  /** read_di_UntF(): a 4-byte unit tag, then an 8-byte double. */
  function UntFAt(data: seq<Byte>, pos: nat): (r: Result<Parsed<DValue>>)
    ensures r.Success? <==> pos + 12 <= |data|
    ensures r.Success? ==> r.value == Parsed(UnitFloat(data[pos..pos + 4], data[pos + 4..pos + 12]), pos + 12)
  {
    var units :- RawAt(data, pos, 4);
    var d :- DoubleAt(data, units.next);
    Success(Parsed(UnitFloat(units.value, d.value), d.next))
  }

  /** read_di_bool(): one byte, read signed; true iff it is not zero. */
  function BoolAt(data: seq<Byte>, pos: nat): (r: Result<Parsed<DValue>>)
    ensures r.Success? <==> pos + 1 <= |data|
    ensures r.Success? ==> r.value == Parsed(Bool(data[pos] != 0), pos + 1)
  {
    var b :- IntAt(data, pos, 1);
    SignedOfOneByte(data[pos..pos + 1]);
    Success(Parsed(Bool(b.value != 0), b.next))
  }

  /** A single byte read signed is zero exactly when the byte is. */
  lemma SignedOfOneByte(bs: seq<Byte>)
    requires |bs| == 1
    ensures Signed(bs) == 0 <==> bs[0] == 0
  {
    SignedRange(bs);
    assert BigEndian(bs) == bs[0] by {
      assert bs[..0] == [];
    }
  }

  /** read_di_enum(): two descriptor ids, the enum type first, then its value. */
  function EnumAt(data: seq<Byte>, pos: nat): (r: Result<Parsed<DValue>>)
    ensures r.Success? <==> IdAt(data, pos).Success? && IdAt(data, IdAt(data, pos).value.next).Success?
    ensures r.Success? ==>
      var t := IdAt(data, pos).value;
      var e := IdAt(data, t.next).value;
      r.value == Parsed(Enum(t.value, e.value), e.next) && pos < r.value.next <= |data|
  {
    var t :- IdAt(data, pos);
    var e :- IdAt(data, t.next);
    Success(Parsed(Enum(t.value, e.value), e.next))
  }

  /** read_di_TEXT(): a Unicode string aligned to 2, which is never padded. */
  function TextAt(data: seq<Byte>, pos: nat): (r: Result<Parsed<DValue>>)
    ensures r.Success? <==> UnicodeAt(data, pos, None).Success?
    ensures r.Failure? ==> r.error == UnicodeAt(data, pos, None).error
    ensures r.Success? ==>
      var u := UnicodeAt(data, pos, None).value;
      r.value == Parsed(Text(u.value), u.next) && pos < r.value.next <= |data|
  {
    UnicodeAlignTwoNoPadding(data, pos);
    var t :- UnicodeAt(data, pos, Some(2));
    Success(Parsed(Text(t.value), t.next))
  }

  /** read_di_long(): a signed 4-byte integer. */
  function LongAt(data: seq<Byte>, pos: nat): (r: Result<Parsed<DValue>>)
    ensures r.Success? <==> pos + 4 <= |data|
    ensures r.Success? ==> r.value == Parsed(Long(Signed(data[pos..pos + 4])), pos + 4)
  {
    var n :- IntAt(data, pos, 4);
    Success(Parsed(Long(n.value), n.next))
  }

  /** read_descriptor_item(tag): the value the tag announces, read by the
      reader of the shape the stripped tag names; any other tag is refused. */
  function ItemValueAt(data: seq<Byte>, pos: nat, tag: seq<Byte>): (r: Result<Parsed<DValue>>)
    ensures KindOf(tag).None? ==> r == Failure(UnsupportedDescriptorType)
    ensures r.Success? ==> KindOf(tag) == Some(KindOfValue(r.value.value))
    ensures r.Success? ==> pos < r.value.next <= |data|
    decreases |data| - pos, 3
  {
    match KindOf(tag)
    case None => Failure(UnsupportedDescriptorType)
    case Some(k) => ShapeAt(data, pos, k)
  }

  /** read_di_<shape>(): the reader of one of the eight shapes. */
  function ShapeAt(data: seq<Byte>, pos: nat, k: Kind): (r: Result<Parsed<DValue>>)
    ensures r.Success? ==> KindOfValue(r.value.value) == k
    ensures r.Success? ==> pos < r.value.next <= |data|
    decreases |data| - pos, 2
  {
    if k == KObjc then
      var d :- DescriptorAt(data, pos);
      Success(Parsed(Obj(d.value), d.next))
    else if k == KVlLs then
      var l :- ValueListAt(data, pos);
      Success(Parsed(List(l.value), l.next))
    else LeafAt(data, pos, k)
  }

  /** The six shapes that hold no nested values. */
  function LeafAt(data: seq<Byte>, pos: nat, k: Kind): (r: Result<Parsed<DValue>>)
    requires k != KObjc && k != KVlLs
    ensures r.Success? ==> KindOfValue(r.value.value) == k
    ensures r.Success? ==> pos < r.value.next <= |data|
  {
    match k
    case KDoub => DoubAt(data, pos)
    case KUntF => UntFAt(data, pos)
    case KBool => BoolAt(data, pos)
    case KEnum => EnumAt(data, pos)
    case KText => TextAt(data, pos)
    case KLong => LongAt(data, pos)
  }

  /** read_descriptor(): a name, a class id, a signed count N, then N items
      (none when N is negative); the items fill a dictionary. */
  function DescriptorAt(data: seq<Byte>, pos: nat): (r: Result<Parsed<map<Id, DValue>>>)
    ensures r.Success? ==> pos < r.value.next <= |data|
    decreases |data| - pos, 1
  {
    var count :- HeaderAt(data, pos);
    StoreInto(map[], ItemsAt(data, count.next, Max0(count.value)))
  }

  /** The head of a descriptor: its name and class id, which are discarded,
      then the signed item count. A name that cannot be read, short or with
      a unit unichr() refuses, is the header's failure. */
  function HeaderAt(data: seq<Byte>, pos: nat): (r: Result<Parsed<int>>)
    ensures UnicodeAt(data, pos, Some(2)).Failure? ==> r == Failure(UnicodeAt(data, pos, Some(2)).error)
    ensures r.Success? ==> pos < r.value.next <= |data|
    ensures r.Success? ==>
      && UnicodeAt(data, pos, Some(2)).Success?
      && IdAt(data, UnicodeAt(data, pos, Some(2)).value.next).Success?
      && var idEnd := IdAt(data, UnicodeAt(data, pos, Some(2)).value.next).value.next;
         idEnd + 4 <= |data| && r.value == Parsed(Signed(data[idEnd..idEnd + 4]), idEnd + 4)
  {
    UnicodeAlignTwoNoPadding(data, pos);
    var name :- UnicodeAt(data, pos, Some(2));
    var classId :- IdAt(data, name.next);
    IntAt(data, classId.next, 4)
  }

  /** One item of a descriptor: its key, its 4-byte tag and the tagged value. */
  function ItemAt(data: seq<Byte>, pos: nat): (r: Result<Parsed<(Id, DValue)>>)
    ensures r.Success? ==> pos < r.value.next <= |data|
    decreases |data| - pos, 0
  {
    var key :- IdAt(data, pos);
    var tag :- RawAt(data, key.next, 4);
    var v :- ItemValueAt(data, tag.next, tag.value);
    Success(Parsed((key.value, v.value), v.next))
  }

  /** The n items of a descriptor, in wire order. */
  function ItemsAt(data: seq<Byte>, pos: nat, n: nat): (r: Result<Parsed<seq<(Id, DValue)>>>)
    requires pos <= |data|
    ensures r.Success? ==> |r.value.value| == n && pos <= r.value.next <= |data|
    decreases |data| - pos, 1
  {
    if n == 0 then Success(Parsed([], pos))
    else
      var item :- ItemAt(data, pos);
      Prepend([item.value], ItemsAt(data, item.next, n - 1))
  }

  /** read_di_VlLs(): a signed count C, then C tagged values (none when C is
      negative). */
  function ValueListAt(data: seq<Byte>, pos: nat): (r: Result<Parsed<seq<DValue>>>)
    ensures r.Success? ==> pos < r.value.next <= |data|
    ensures r.Success? ==> pos + 4 <= |data| && |r.value.value| == Max0(Signed(data[pos..pos + 4]))
    decreases |data| - pos, 1
  {
    var count :- IntAt(data, pos, 4);
    ListAt(data, count.next, Max0(count.value))
  }

  /** One list element: a 4-byte tag and the value it announces. */
  function TaggedValueAt(data: seq<Byte>, pos: nat): (r: Result<Parsed<DValue>>)
    ensures r.Success? ==> pos < r.value.next <= |data|
    ensures r.Success? ==> pos + 4 <= |data| && KindOf(data[pos..pos + 4]) == Some(KindOfValue(r.value.value))
    decreases |data| - pos, 0
  {
    var tag :- RawAt(data, pos, 4);
    ItemValueAt(data, tag.next, tag.value)
  }

  /** The n tagged values of a list, in wire order. */
  function ListAt(data: seq<Byte>, pos: nat, n: nat): (r: Result<Parsed<seq<DValue>>>)
    requires pos <= |data|
    ensures r.Success? ==> |r.value.value| == n && pos <= r.value.next <= |data|
    decreases |data| - pos, 1
  {
    if n == 0 then Success(Parsed([], pos))
    else
      var v :- TaggedValueAt(data, pos);
      Prepend([v.value], ListAt(data, v.next, n - 1))
  }

  /** One more list element read, with m still to come after it: the
      accumulated prefix acc grows by it into acc2. */
  lemma ListStep(data: seq<Byte>, p: nat, m: nat, acc: seq<DValue>, v: DValue, q: nat, acc2: seq<DValue>)
    requires p <= |data|
    requires acc2 == acc + [v]
    requires TaggedValueAt(data, p) == Success(Parsed(v, q))
    ensures q <= |data|
    ensures Prepend(acc2, ListAt(data, q, m)) == Prepend(acc, ListAt(data, p, m + 1))
  {
    PrependStep(acc, v, ListAt(data, q, m));
  }

  /** One more descriptor item read, with m still to come after it: the
      dictionary filled so far, acc, gets it stored and becomes acc2. */
  lemma ItemsStep(data: seq<Byte>, p: nat, m: nat, acc: map<Id, DValue>, item: (Id, DValue), q: nat, acc2: map<Id, DValue>)
    requires p <= |data|
    requires acc2 == acc[item.0 := item.1]
    requires ItemAt(data, p) == Success(Parsed(item, q))
    ensures q <= |data|
    ensures StoreInto(acc2, ItemsAt(data, q, m)) == StoreInto(acc, ItemsAt(data, p, m + 1))
  {
    var rest := ItemsAt(data, q, m);
    if rest.Success? {
      assert ([item] + rest.value.value)[1..] == rest.value.value;
    }
  }

  /** A failed item ends the whole item sequence with its error. */
  lemma ItemsFail(data: seq<Byte>, p: nat, m: nat, acc: map<Id, DValue>, e: Error)
    requires p <= |data| && 0 < m
    requires ItemAt(data, p) == Failure(e)
    ensures StoreInto(acc, ItemsAt(data, p, m)) == Failure(e)
  {
  }

  /** A failed list element ends the whole list with its error. */
  lemma ListFail(data: seq<Byte>, p: nat, m: nat, acc: seq<DValue>, e: Error)
    requires p <= |data| && 0 < m
    requires TaggedValueAt(data, p) == Failure(e)
    ensures Prepend(acc, ListAt(data, p, m)) == Failure(e)
  {
  }

  /** Unfolding a descriptor once its head has been read. */
  lemma DescriptorOfItems(data: seq<Byte>, p0: nat, count: int, start: nat)
    requires HeaderAt(data, p0) == Success(Parsed(count, start))
    ensures start <= |data|
    ensures DescriptorAt(data, p0) == StoreInto(map[], ItemsAt(data, start, Max0(count)))
  {
  }

  /** Unfolding a value list once its count has been read. */
  lemma ValueListOfElements(data: seq<Byte>, p0: nat, count: int, start: nat)
    requires IntAt(data, p0, 4) == Success(Parsed(count, start))
    ensures start <= |data|
    ensures ValueListAt(data, p0) == ListAt(data, start, Max0(count))
  {
  }

  // ---------------------------------------------------------------------------
  // Properties of the decoded values.

  /** A list is the tagged values repeated from its start. */
  lemma {:induction false} ListIsRepeat(data: seq<Byte>, pos: nat, n: nat)
    requires pos <= |data|
    ensures ListAt(data, pos, n) == RepeatAt((x: nat) => TaggedValueAt(data, x), pos, n)
    decreases n
  {
    if n > 0 && TaggedValueAt(data, pos).Success? {
      ListIsRepeat(data, TaggedValueAt(data, pos).value.next, n - 1);
    }
  }

  /** Element k of a decoded list is the tagged value read where the first
      k elements end. */
  lemma ListElement(data: seq<Byte>, pos: nat, n: nat, k: nat)
    requires pos <= |data|
    requires ListAt(data, pos, n).Success? && k < n
    ensures ListAt(data, pos, k).Success?
    ensures ListAt(data, pos, k).value.value == ListAt(data, pos, n).value.value[..k]
    ensures var at := ListAt(data, pos, k).value.next;
      && TaggedValueAt(data, at).Success?
      && TaggedValueAt(data, at).value.value == ListAt(data, pos, n).value.value[k]
  {
    ListIsRepeat(data, pos, n);
    ListIsRepeat(data, pos, k);
    RepeatElement((x: nat) => TaggedValueAt(data, x), pos, n, k);
  }

  /** The values of a decoded VlLs: element k is the tagged value read at the
      k-th position after the 4-byte count. */
  lemma ValueListElements(data: seq<Byte>, pos: nat, k: nat)
    requires ValueListAt(data, pos).Success?
    requires k < |ValueListAt(data, pos).value.value|
    ensures pos + 4 <= |data|
    ensures var count := Max0(Signed(data[pos..pos + 4]));
      && ListAt(data, pos + 4, count).Success?
      && ValueListAt(data, pos).value == ListAt(data, pos + 4, count).value
      && ListAt(data, pos + 4, k).Success?
      && var at := ListAt(data, pos + 4, k).value.next;
         && TaggedValueAt(data, at).Success?
         && TaggedValueAt(data, at).value.value == ValueListAt(data, pos).value.value[k]
  {
    var count := Max0(Signed(data[pos..pos + 4]));
    assert IntAt(data, pos, 4) == Success(Parsed(Signed(data[pos..pos + 4]), pos + 4));
    ListElement(data, pos + 4, count, k);
  }

  /** A descriptor's item sequence is its items repeated from its start. */
  lemma {:induction false} ItemsIsRepeat(data: seq<Byte>, pos: nat, n: nat)
    requires pos <= |data|
    ensures ItemsAt(data, pos, n) == RepeatAt((x: nat) => ItemAt(data, x), pos, n)
    decreases n
  {
    if n > 0 && ItemAt(data, pos).Success? {
      ItemsIsRepeat(data, ItemAt(data, pos).value.next, n - 1);
    }
  }

  /** Item k of a decoded descriptor's item sequence is the item read where
      the first k items end. */
  lemma ItemsElement(data: seq<Byte>, pos: nat, n: nat, k: nat)
    requires pos <= |data|
    requires ItemsAt(data, pos, n).Success? && k < n
    ensures ItemsAt(data, pos, k).Success?
    ensures ItemsAt(data, pos, k).value.value == ItemsAt(data, pos, n).value.value[..k]
    ensures var at := ItemsAt(data, pos, k).value.next;
      && ItemAt(data, at).Success?
      && ItemAt(data, at).value.value == ItemsAt(data, pos, n).value.value[k]
  {
    ItemsIsRepeat(data, pos, n);
    ItemsIsRepeat(data, pos, k);
    RepeatElement((x: nat) => ItemAt(data, x), pos, n, k);
  }

  /** The dictionary of a decoded descriptor: its keys are exactly the ids of
      the max(N, 0) items read after the header, and a key's entry is the
      value read last under it. */
  lemma DescriptorContents(data: seq<Byte>, pos: nat, i: nat)
    requires DescriptorAt(data, pos).Success?
    ensures HeaderAt(data, pos).Success?
    ensures var h := HeaderAt(data, pos).value;
      && ItemsAt(data, h.next, Max0(h.value)).Success?
      && var items := ItemsAt(data, h.next, Max0(h.value)).value.value;
         && DescriptorAt(data, pos).value.value.Keys == (set j | 0 <= j < |items| :: items[j].0)
         && DescriptorAt(data, pos).value.next == ItemsAt(data, h.next, Max0(h.value)).value.next
         && (i < |items| && (forall j | i < j < |items| :: items[j].0 != items[i].0) ==>
               DescriptorAt(data, pos).value.value[items[i].0] == items[i].1)
  {
    var h := HeaderAt(data, pos).value;
    var items := ItemsAt(data, h.next, Max0(h.value)).value.value;
    assert DescriptorAt(data, pos).value.value == ToMap(items);
    ToMapKeys(items);
    if i < |items| && (forall j | i < j < |items| :: items[j].0 != items[i].0) {
      ToMapLastWins(items, i);
    }
  }

  /** A descriptor has at most as many keys as its item count announces. */
  lemma DescriptorKeyBound(data: seq<Byte>, pos: nat)
    requires DescriptorAt(data, pos).Success?
    ensures HeaderAt(data, pos).Success?
    ensures |DescriptorAt(data, pos).value.value.Keys| <= Max0(HeaderAt(data, pos).value.value)
  {
    var count := HeaderAt(data, pos).value;
    ToMapSize(ItemsAt(data, count.next, Max0(count.value)).value.value);
  }

  /** A tag that is a shape's name is decoded by that shape's reader. */
  lemma DispatchByName(data: seq<Byte>, pos: nat, k: Kind)
    ensures ItemValueAt(data, pos, TagName(k)) == ShapeAt(data, pos, k)
  {
    KindOfFourByteTag(TagName(k), k);
  }

  // ---------------------------------------------------------------------------
  // The reader methods.

  method ReadDescriptorId(rd: BinaryReader) returns (r: Result<Id>)
    modifies rd
    ensures Agrees(r, IdAt(rd.data, old(rd.pos)), rd.pos)
  {
    var len :- rd.ReadInt(4);
    if len != 0 {
      r := rd.ReadRaw(len);
    } else {
      r := rd.ReadRaw(4);
    }
  }

  method ReadDescriptor(rd: BinaryReader) returns (r: Result<map<Id, DValue>>)
    modifies rd
    ensures Agrees(r, DescriptorAt(rd.data, old(rd.pos)), rd.pos)
    decreases |rd.data| - rd.pos, 1
  {
    ghost var p0 := rd.pos;
    var count :- ReadHeader(rd);
    DescriptorOfItems(rd.data, p0, count, rd.pos);
    r := ReadItems(rd, Max0(count));
  }

  /** read_descriptor's item loop: n items, each stored under its key. */
  method ReadItems(rd: BinaryReader, n: nat) returns (r: Result<map<Id, DValue>>)
    requires rd.pos <= |rd.data|
    modifies rd
    ensures Agrees(r, StoreInto(map[], ItemsAt(rd.data, old(rd.pos), n)), rd.pos)
    decreases |rd.data| - rd.pos, 1
  {
    ghost var start := rd.pos;
    ghost var whole := StoreInto(map[], ItemsAt(rd.data, start, n));
    var result: map<Id, DValue> := map[];
    var left := n;
    while left > 0
      invariant start <= rd.pos <= |rd.data|
      invariant StoreInto(result, ItemsAt(rd.data, rd.pos, left)) == whole
    {
      ghost var p := rd.pos;
      var item := ReadItem(rd);
      if item.Failure? {
        ItemsFail(rd.data, p, left, result, item.error);
        return Failure(item.error);
      }
      ghost var before := result;
      result := result[item.value.0 := item.value.1];
      left := left - 1;
      ItemsStep(rd.data, p, left, before, item.value, rd.pos, result);
    }
    r := Success(result);
  }

  method ReadHeader(rd: BinaryReader) returns (r: Result<int>)
    modifies rd
    ensures Agrees(r, HeaderAt(rd.data, old(rd.pos)), rd.pos)
  {
    UnicodeAlignTwoNoPadding(rd.data, rd.pos);
    var name :- ReadPsdUnicode(rd, Some(2));
    var classId :- ReadDescriptorId(rd);
    r := rd.ReadInt(4);
  }

  /** One pass of read_descriptor's loop: a key, a 4-byte tag, the value. */
  method ReadItem(rd: BinaryReader) returns (r: Result<(Id, DValue)>)
    modifies rd
    ensures Agrees(r, ItemAt(rd.data, old(rd.pos)), rd.pos)
    decreases |rd.data| - rd.pos, 0
  {
    var key :- ReadDescriptorId(rd);
    var tag :- rd.ReadRaw(4);
    var value :- ReadDescriptorItem(rd, tag);
    r := Success((key, value));
  }

  method ReadDescriptorItem(rd: BinaryReader, tag: seq<Byte>) returns (r: Result<DValue>)
    modifies rd
    ensures Agrees(r, ItemValueAt(rd.data, old(rd.pos), tag), rd.pos)
    decreases |rd.data| - rd.pos, 3
  {
    var kind := KindOf(tag);
    if kind.None? {
      return Failure(UnsupportedDescriptorType);
    }
    r := ReadShape(rd, kind.value);
  }

  /** The eight read_di_* readers. */
  method ReadShape(rd: BinaryReader, k: Kind) returns (r: Result<DValue>)
    modifies rd
    ensures Agrees(r, ShapeAt(rd.data, old(rd.pos), k), rd.pos)
    decreases |rd.data| - rd.pos, 2
  {
    match k
    case KObjc =>
      var d :- ReadDescriptor(rd);
      r := Success(Obj(d));
    case KDoub =>
      var d :- rd.ReadDouble();
      r := Success(Double(d));
    case KUntF =>
      var units :- rd.ReadRaw(4);
      var d :- rd.ReadDouble();
      r := Success(UnitFloat(units, d));
    case KBool =>
      var b :- rd.ReadInt(1);
      r := Success(Bool(b != 0));
    case KEnum =>
      var t :- ReadDescriptorId(rd);
      var e :- ReadDescriptorId(rd);
      r := Success(Enum(t, e));
    case KText =>
      UnicodeAlignTwoNoPadding(rd.data, rd.pos);
      var t :- ReadPsdUnicode(rd, Some(2));
      r := Success(Text(t));
    case KVlLs =>
      var l :- ReadValueList(rd);
      r := Success(List(l));
    case KLong =>
      var n :- rd.ReadInt(4);
      r := Success(Long(n));
  }

  method ReadValueList(rd: BinaryReader) returns (r: Result<seq<DValue>>)
    modifies rd
    ensures Agrees(r, ValueListAt(rd.data, old(rd.pos)), rd.pos)
    decreases |rd.data| - rd.pos, 1
  {
    ghost var p0 := rd.pos;
    var count :- rd.ReadInt(4);
    ValueListOfElements(rd.data, p0, count, rd.pos);
    r := ReadList(rd, Max0(count));
  }

  /** read_di_VlLs's loop: n tagged values, in wire order. */
  method ReadList(rd: BinaryReader, n: nat) returns (r: Result<seq<DValue>>)
    requires rd.pos <= |rd.data|
    modifies rd
    ensures Agrees(r, ListAt(rd.data, old(rd.pos), n), rd.pos)
    decreases |rd.data| - rd.pos, 1
  {
    ghost var start := rd.pos;
    ghost var whole := ListAt(rd.data, start, n);
    var results: seq<DValue> := [];
    PrependEmpty(whole);
    var left := n;
    while left > 0
      invariant start <= rd.pos <= |rd.data|
      invariant Prepend(results, ListAt(rd.data, rd.pos, left)) == whole
    {
      ghost var p := rd.pos;
      var value := ReadTaggedValue(rd);
      if value.Failure? {
        ListFail(rd.data, p, left, results, value.error);
        return Failure(value.error);
      }
      ghost var before := results;
      results := results + [value.value];
      left := left - 1;
      ListStep(rd.data, p, left, before, value.value, rd.pos, results);
    }
    assert results + [] == results;
    r := Success(results);
  }

  /** One pass of read_di_VlLs's loop: a 4-byte tag, then the value. */
  method ReadTaggedValue(rd: BinaryReader) returns (r: Result<DValue>)
    modifies rd
    ensures Agrees(r, TaggedValueAt(rd.data, old(rd.pos)), rd.pos)
    decreases |rd.data| - rd.pos, 0
  {
    var tag :- rd.ReadRaw(4);
    r := ReadDescriptorItem(rd, tag);
  }
}
