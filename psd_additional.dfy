/** Additional layer information (psd_additional.py): keyed, length-delimited
    blocks that are decoded, skipped as ignored, or skipped and remembered as
    unknown; and the 26-byte path records of a vector mask. */
module PsdAdditional {
  import opened Base
  import opened Binary
  import opened PsdPrimitive
  import opened PsdDescriptor

  /** A four-byte block key or signature. */
  type Key = seq<Byte>

  const SIG_8BIM: Key := [0x38, 0x42, 0x49, 0x4D]  // "8BIM"
  const SIG_8B64: Key := [0x38, 0x42, 0x36, 0x34]  // "8B64"

  const KEY_LUNI: Key := [0x6C, 0x75, 0x6E, 0x69]  // "luni"
  const KEY_LSCT: Key := [0x6C, 0x73, 0x63, 0x74]  // "lsct"
  const KEY_LSDK: Key := [0x6C, 0x73, 0x64, 0x6B]  // "lsdk"
  const KEY_VMSK: Key := [0x76, 0x6D, 0x73, 0x6B]  // "vmsk"
  const KEY_VSMS: Key := [0x76, 0x73, 0x6D, 0x73]  // "vsms"
  const KEY_VSCG: Key := [0x76, 0x73, 0x63, 0x67]  // "vscg"
  const KEY_VSTK: Key := [0x76, 0x73, 0x74, 0x6B]  // "vstk"
  const KEY_SOCO: Key := [0x53, 0x6F, 0x43, 0x6F]  // "SoCo"
  const KEY_LFX2: Key := [0x6C, 0x66, 0x78, 0x32]  // "lfx2"
  const KEY_TXT2: Key := [0x54, 0x78, 0x74, 0x32]  // "Txt2"

  /** IGNORED_KEYS: blocks that are known and deliberately skipped. */
  const IGNORED_KEYS: set<Key> := {
    [0x63, 0x6C, 0x62, 0x6C],  // "clbl" blend clipping elements
    [0x66, 0x78, 0x72, 0x70],  // "fxrp" reference point
    [0x69, 0x6E, 0x66, 0x78],  // "infx" blend interior elements
    [0x6B, 0x6E, 0x6B, 0x6F],  // "knko" knockout setting
    [0x6C, 0x63, 0x6C, 0x72],  // "lclr" sheet colour setting
    [0x6C, 0x6E, 0x73, 0x72],  // "lnsr" layer name source setting
    [0x6C, 0x73, 0x70, 0x66],  // "lspf" protected setting
    [0x6C, 0x79, 0x69, 0x64],  // "lyid" layer id
    [0x6C, 0x79, 0x76, 0x72],  // "lyvr" layer version
    [0x73, 0x68, 0x6D, 0x64]   // "shmd" metadata setting
  }

  // ---------------------------------------------------------------------------
  // Path records.

  /** One 26-byte record of a vector mask, by record type: 0/3 start a subpath
      (closed/open), 1/2/4/5 are knots (1 and 4 linked; 1/2 closed, 4/5 open),
      6 is the path fill rule, 7 the clipboard, 8 the initial fill rule. Any
      other type gives an empty record. */
  datatype PathRecord =
    | SubpathStart(closed: bool, knotCount: int, combineMode: int)
    | Knot(closed: bool, linked: bool, back: Point, anchor: Point, front: Point)
    | PathFillRule
    | Clipboard(top: real, left: real, bottom: real, right: real, resolution: real)
    | InitialFillRule(value: int)
    | Unrecognised

  /** The bytes a record of type t needs for its reads to succeed (skips past
      the end of the stream never fail). */
  function RecordNeeds(t: int): nat {
    if t == 0 || t == 3 then 6
    else if t == 1 || t == 2 || t == 4 || t == 5 then 26
    else if t == 7 then 22
    else if t == 8 then 4
    else 2
  }

  /** The bytes a record of type t consumes. */
  function RecordSize(t: int): nat {
    if 0 <= t <= 8 then 26 else 2
  }

  /** read_path_record(). */
  function PathRecordAt(data: seq<Byte>, pos: nat): (r: Result<Parsed<PathRecord>>)
    ensures r.Success? <==>
      pos + 2 <= |data| && pos + RecordNeeds(Signed(data[pos..pos + 2])) <= |data|
    ensures r.Success? ==> r.value.next == pos + RecordSize(Signed(data[pos..pos + 2]))
  {
    var t :- IntAt(data, pos, 2);
    if t.value == 0 || t.value == 3 then
      var count :- IntAt(data, t.next, 2);
      var mode :- IntAt(data, count.next, 2);
      Success(Parsed(SubpathStart(t.value < 3, count.value, mode.value), mode.next + 20))
    else if t.value == 1 || t.value == 2 || t.value == 4 || t.value == 5 then
      var back :- PointAt(data, t.next);
      var anchor :- PointAt(data, back.next);
      var front :- PointAt(data, anchor.next);
      Success(Parsed(Knot(t.value < 3, t.value == 1 || t.value == 4, back.value, anchor.value, front.value), front.next))
    else if t.value == 6 then
      Success(Parsed(PathFillRule, t.next + 24))
    else if t.value == 7 then
      var top :- FixedAt(data, t.next);
      var left :- FixedAt(data, top.next);
      var bottom :- FixedAt(data, left.next);
      var right :- FixedAt(data, bottom.next);
      var resolution :- FixedAt(data, right.next);
      Success(Parsed(Clipboard(top.value, left.value, bottom.value, right.value, resolution.value), resolution.next + 4))
    else if t.value == 8 then
      var v :- IntAt(data, t.next, 2);
      Success(Parsed(InitialFillRule(v.value), v.next + 22))
    else
      Success(Parsed(Unrecognised, t.next))
  }

  /** The record's variant, its open/closed mode and its linked flag are those
      its type announces. */
  lemma RecordKinds(data: seq<Byte>, pos: nat)
    requires PathRecordAt(data, pos).Success?
    ensures pos + 2 <= |data|
    ensures
      var t := Signed(data[pos..pos + 2]);
      var rec := PathRecordAt(data, pos).value.value;
      && (rec.SubpathStart? <==> t == 0 || t == 3)
      && (rec.Knot? <==> t == 1 || t == 2 || t == 4 || t == 5)
      && (rec.Unrecognised? <==> t < 0 || t > 8)
      && ((rec.SubpathStart? || rec.Knot?) ==> (rec.closed <==> t < 3))
      && (rec.Knot? ==> (rec.linked <==> t == 1 || t == 4))
  {
  }

  /** A subpath-start record holds the two signed 2-byte fields after its type. */
  lemma SubpathStartFields(data: seq<Byte>, pos: nat)
    requires PathRecordAt(data, pos).Success? && PathRecordAt(data, pos).value.value.SubpathStart?
    ensures pos + 6 <= |data|
    ensures PathRecordAt(data, pos).value.value.knotCount == Signed(data[pos + 2..pos + 4])
    ensures PathRecordAt(data, pos).value.value.combineMode == Signed(data[pos + 4..pos + 6])
  {
  }

  /** The records of a vector mask: read while at least 26 bytes remain before
      the section end. */
  function PathRecordsAt(data: seq<Byte>, pos: nat, end: int): (r: Result<Parsed<seq<PathRecord>>>)
    ensures r.Success? ==> pos <= r.value.next && end - r.value.next < 26
    decreases end - pos
  {
    if end - pos >= 26 then
      var rec :- PathRecordAt(data, pos);
      Prepend([rec.value], PathRecordsAt(data, rec.next, end))
    else Success(Parsed([], pos))
  }

  /** When every record has a recognised type, each takes 26 bytes, so the
      loop reads exactly as many records as whole 26-byte slots fit. */
  lemma {:induction false} RecordCount(data: seq<Byte>, pos: nat, end: int)
    requires pos <= end
    requires PathRecordsAt(data, pos, end).Success?
    requires forall i | 0 <= i < |PathRecordsAt(data, pos, end).value.value| ::
      !PathRecordsAt(data, pos, end).value.value[i].Unrecognised?
    ensures |PathRecordsAt(data, pos, end).value.value| == (end - pos) / 26
    ensures PathRecordsAt(data, pos, end).value.next == pos + 26 * ((end - pos) / 26)
    decreases end - pos
  {
    var rs := PathRecordsAt(data, pos, end).value;
    if end - pos >= 26 {
      var rec := PathRecordAt(data, pos).value;
      var rest := PathRecordsAt(data, rec.next, end).value;
      assert rs.value == [rec.value] + rest.value;
      assert rs.value[0] == rec.value;
      RecordKinds(data, pos);
      assert rec.next == pos + 26;
      forall i | 0 <= i < |rest.value|
        ensures !rest.value[i].Unrecognised?
      {
        assert rest.value[i] == rs.value[i + 1];
      }
      RecordCount(data, rec.next, end);
      DivModUnique(end - pos, 26, (end - rec.next) / 26 + 1, (end - rec.next) % 26);
    } else {
      DivModUnique(end - pos, 26, 0, end - pos);
    }
  }

  // ---------------------------------------------------------------------------
  // The block decoders (the read_ali_* methods).

  /** A decoded block. */
  datatype AliValue =
    | Unicode(codeUnits: seq<int>)                          // luni
    | SectionDivider(dividerType: int)                      // lsct, lsdk
    | VectorMask(flags: nat, records: seq<PathRecord>)      // vmsk, vsms
    | StrokeData(key: Key, desc: map<Id, DValue>)           // vscg
    | Descriptor(fields: map<Id, DValue>)                   // vstk, SoCo, lfx2
    | NoValue                                               // Txt2

  /** The decoders, one per read_ali_* method; lsdk and vsms are aliases. */
  datatype Decoder = DLuni | DLsct | DVmsk | DVscg | DVstk | DSoCo | DLfx2 | DTxt2

  /** The read_ali_<key> method a key selects, if there is one. */
  function DecoderOf(key: Key): Option<Decoder> {
    if key == KEY_LUNI then Some(DLuni)
    else if key == KEY_LSCT || key == KEY_LSDK then Some(DLsct)
    else if key == KEY_VMSK || key == KEY_VSMS then Some(DVmsk)
    else if key == KEY_VSCG then Some(DVscg)
    else if key == KEY_VSTK then Some(DVstk)
    else if key == KEY_SOCO then Some(DSoCo)
    else if key == KEY_LFX2 then Some(DLfx2)
    else if key == KEY_TXT2 then Some(DTxt2)
    else None
  }

  /** read_ali_luni(): the section length, then a Unicode string with the
      default 4-byte alignment; the section end is not skipped to. A name
      that cannot be read, short or with a unit unichr() refuses, fails. */
  function LuniAt(data: seq<Byte>, pos: nat): (r: Result<Parsed<AliValue>>)
    ensures r.Success? ==> pos + 4 <= |data|
    ensures pos + 4 <= |data| && UnicodeAt(data, pos + 4, Some(4)).Failure? ==>
      r == Failure(UnicodeAt(data, pos + 4, Some(4)).error)
    ensures r.Success? ==>
      && UnicodeAt(data, pos + 4, Some(4)).Success?
      && r.value == Parsed(Unicode(UnicodeAt(data, pos + 4, Some(4)).value.value), UnicodeAt(data, pos + 4, Some(4)).value.next)
  {
    var end :- SectionEndAt(data, pos);
    var u :- UnicodeAt(data, end.next, Some(4));
    Success(Parsed(Unicode(u.value), u.next))
  }

  /** read_ali_lsct(): the section length, a signed 4-byte divider type, then
      on to the section end. */
  function LsctAt(data: seq<Byte>, pos: nat): (r: Result<Parsed<AliValue>>)
    ensures r.Success? <==> pos + 8 <= |data|
    ensures r.Success? ==>
      r.value == Parsed(SectionDivider(Signed(data[pos + 4..pos + 8])), pos + 4 + BigEndian(data[pos..pos + 4]))
  {
    var end :- SectionEndAt(data, pos);
    var t :- IntAt(data, end.next, 4);
    Success(Parsed(SectionDivider(t.value), end.value))
  }

  /** read_ali_vmsk(): the section length, version 3, 4-byte unsigned flags,
      the path records, then on to the section end. */
  function VmskAt(data: seq<Byte>, pos: nat): (r: Result<Parsed<AliValue>>)
    ensures r.Success? ==>
      && pos + 12 <= |data|
      && Signed(data[pos + 4..pos + 8]) == 3
      && r.value.next == pos + 4 + BigEndian(data[pos..pos + 4])
      && r.value.value.VectorMask?
      && r.value.value.flags == BigEndian(data[pos + 8..pos + 12])
    ensures pos + 8 <= |data| && Signed(data[pos + 4..pos + 8]) != 3 ==> r == Failure(BadVersion)
  {
    var end :- SectionEndAt(data, pos);
    var version :- IntAt(data, end.next, 4);
    if version.value != 3 then Failure(BadVersion)
    else
      var flags :- UintAt(data, version.next, 4);
      var records :- PathRecordsAt(data, flags.next, end.value);
      Success(Parsed(VectorMask(flags.value, records.value), end.value))
  }

  /** The records of a vector mask are those the record loop reads from just
      after the flags up to the section end. */
  lemma VmskRecords(data: seq<Byte>, pos: nat)
    requires VmskAt(data, pos).Success?
    ensures pos + 12 <= |data|
    ensures
      var end := pos + 4 + BigEndian(data[pos..pos + 4]);
      && PathRecordsAt(data, pos + 12, end).Success?
      && VmskAt(data, pos).value.value.records == PathRecordsAt(data, pos + 12, end).value.value
  {
  }

  /** `assert self.read_int(4) == v`: a signed 4-byte integer that must be v. */
  function ExpectIntAt(data: seq<Byte>, pos: nat, v: int): (r: Result<Parsed<()>>)
    ensures r.Success? <==> pos + 4 <= |data| && Signed(data[pos..pos + 4]) == v
    ensures r.Success? ==> r.value.next == pos + 4
    ensures pos + 4 <= |data| && Signed(data[pos..pos + 4]) != v ==> r == Failure(BadVersion)
  {
    var h :- IntAt(data, pos, 4);
    if h.value != v then Failure(BadVersion) else Success(Parsed((), h.next))
  }

  /** The header integer 16, then a descriptor. */
  function Version16DescriptorAt(data: seq<Byte>, pos: nat): (r: Result<Parsed<map<Id, DValue>>>)
    ensures r.Success? ==> pos + 4 <= |data| && Signed(data[pos..pos + 4]) == 16
    ensures r.Success? ==> r == DescriptorAt(data, pos + 4)
    ensures pos + 4 <= |data| && Signed(data[pos..pos + 4]) != 16 ==> r == Failure(BadVersion)
  {
    var h :- ExpectIntAt(data, pos, 16);
    DescriptorAt(data, h.next)
  }

  /** read_ali_vscg(): the section length, a 4-byte key, the header 16, a
      descriptor, then on to the section end; the value is keyed by the inner
      key. */
  function VscgAt(data: seq<Byte>, pos: nat): (r: Result<Parsed<AliValue>>)
    ensures r.Success? ==> pos + 8 <= |data|
    ensures r.Success? ==> r.value.next == pos + 4 + BigEndian(data[pos..pos + 4])
    ensures r.Success? ==>
      && Version16DescriptorAt(data, pos + 8).Success?
      && r.value.value == StrokeData(data[pos + 4..pos + 8], Version16DescriptorAt(data, pos + 8).value.value)
  {
    var end :- SectionEndAt(data, pos);
    var key :- RawAt(data, end.next, 4);
    var desc :- Version16DescriptorAt(data, key.next);
    Success(Parsed(StrokeData(key.value, desc.value), end.value))
  }

  /** read_ali_vstk() and read_ali_SoCo(), which read the same layout: the
      section length, the header 16, a descriptor, then on to the section
      end. */
  function DescriptorBlockAt(data: seq<Byte>, pos: nat): (r: Result<Parsed<AliValue>>)
    ensures r.Success? ==> pos + 4 <= |data|
    ensures r.Success? ==> r.value.next == pos + 4 + BigEndian(data[pos..pos + 4])
    ensures r.Success? ==>
      && Version16DescriptorAt(data, pos + 4).Success?
      && r.value.value == Descriptor(Version16DescriptorAt(data, pos + 4).value.value)
  {
    var end :- SectionEndAt(data, pos);
    var desc :- Version16DescriptorAt(data, end.next);
    Success(Parsed(Descriptor(desc.value), end.value))
  }

  /** read_ali_lfx2(): the section length, the header integers 0 then 16, a
      descriptor, then on to the section end. */
  function Lfx2At(data: seq<Byte>, pos: nat): (r: Result<Parsed<AliValue>>)
    ensures r.Success? ==> pos + 8 <= |data| && Signed(data[pos + 4..pos + 8]) == 0
    ensures r.Success? ==> r.value.next == pos + 4 + BigEndian(data[pos..pos + 4])
    ensures r.Success? ==>
      && Version16DescriptorAt(data, pos + 8).Success?
      && r.value.value == Descriptor(Version16DescriptorAt(data, pos + 8).value.value)
    ensures pos + 8 <= |data| && Signed(data[pos + 4..pos + 8]) != 0 ==> r == Failure(BadVersion)
  {
    var end :- SectionEndAt(data, pos);
    var zero :- ExpectIntAt(data, end.next, 0);
    var desc :- Version16DescriptorAt(data, zero.next);
    Success(Parsed(Descriptor(desc.value), end.value))
  }

  /** read_ali_Txt2(): the section is skipped with 2-byte alignment; the
      stored value is None. */
  function Txt2At(data: seq<Byte>, pos: nat): (r: Result<Parsed<AliValue>>)
    ensures r.Success? <==> pos + 4 <= |data|
    ensures r.Success? ==>
      var len := BigEndian(data[pos..pos + 4]);
      r.value == Parsed(NoValue, pos + 4 + len + PaddingOf(len, 2))
  {
    var s :- SkipSectionAt(data, pos, Some(2));
    Success(Parsed(NoValue, s.next))
  }

  /** The block body a decoder reads, starting at its section length. */
  function DecodeAt(data: seq<Byte>, pos: nat, d: Decoder): (r: Result<Parsed<AliValue>>)
    ensures r.Success? ==> pos + 4 <= r.value.next
  {
    match d
    case DLuni => LuniAt(data, pos)
    case DLsct => LsctAt(data, pos)
    case DVmsk => VmskAt(data, pos)
    case DVscg => VscgAt(data, pos)
    case DVstk => DescriptorBlockAt(data, pos)
    case DSoCo => DescriptorBlockAt(data, pos)
    case DLfx2 => Lfx2At(data, pos)
    case DTxt2 => Txt2At(data, pos)
  }

  // ---------------------------------------------------------------------------
  // The dispatcher.

  /** The dictionary the blocks are collected into: the decoded values by key,
      and the set stored under 'unknown', which exists once a first unknown
      key has been met. */
  datatype Info = Info(values: map<Key, AliValue>, unknown: Option<set<Key>>)

  /** The unknown set with one more key added (created on first use). */
  function AddUnknown(unknown: Option<set<Key>>, key: Key): (u: Option<set<Key>>)
    ensures u.Some? && key in u.value
    ensures u.value == (if unknown.Some? then unknown.value else {}) + {key}
  {
    if unknown.Some? then Some(unknown.value + {key}) else Some({key})
  }

  /** read_additional_layer_info(data): a signature that must be "8BIM" or
      "8B64", a 4-byte key, then the block, which is decoded into `info` when
      the key has a decoder, skipped when the key is ignored, and otherwise
      skipped with the key recorded as unknown. */
  function AdditionalInfoAt(data: seq<Byte>, pos: nat, info: Info): (r: Result<Parsed<Info>>)
    ensures r.Success? ==> pos + 12 <= r.value.next
    ensures pos + 4 <= |data| && data[pos..pos + 4] != SIG_8BIM && data[pos..pos + 4] != SIG_8B64 ==>
      r == Failure(BadSignature)
  {
    var sig :- RawAt(data, pos, 4);
    if sig.value != SIG_8BIM && sig.value != SIG_8B64 then Failure(BadSignature)
    else
      var key :- RawAt(data, sig.next, 4);
      match DecoderOf(key.value)
      case Some(d) =>
        var v :- DecodeAt(data, key.next, d);
        Success(Parsed(info.(values := info.values[key.value := v.value]), v.next))
      case None =>
        if key.value in IGNORED_KEYS then
          var s :- SkipSectionAt(data, key.next, None);
          Success(Parsed(info, s.next))
        else
          var s :- SkipSectionAt(data, key.next, None);
          Success(Parsed(info.(unknown := AddUnknown(info.unknown, key.value)), s.next))
  }

  /** How a successful block changes the dictionary, by the order of the
      dispatch: a decodable key is (over)written with its value; otherwise an
      ignored key changes nothing; otherwise the key joins the unknown set.
      Entries under other keys are never touched. */
  lemma DispatchOrder(data: seq<Byte>, pos: nat, info: Info)
    requires AdditionalInfoAt(data, pos, info).Success?
    ensures pos + 8 <= |data|
    ensures data[pos..pos + 4] == SIG_8BIM || data[pos..pos + 4] == SIG_8B64
    ensures
      var key := data[pos + 4..pos + 8];
      var after := AdditionalInfoAt(data, pos, info).value.value;
      && (DecoderOf(key).Some? ==>
            && DecodeAt(data, pos + 8, DecoderOf(key).value).Success?
            && after == info.(values := info.values[key := DecodeAt(data, pos + 8, DecoderOf(key).value).value.value]))
      && (DecoderOf(key).None? && key in IGNORED_KEYS ==> after == info)
      && (DecoderOf(key).None? && key !in IGNORED_KEYS ==>
            after == info.(unknown := AddUnknown(info.unknown, key)))
      && (forall k | k in info.values && k != key :: k in after.values && after.values[k] == info.values[k])
  {
  }

  /** No key is both decoded and ignored, so the ignore list never hides a
      decoder. */
  lemma DecodedKeysNotIgnored(key: Key)
    requires DecoderOf(key).Some?
    ensures key !in IGNORED_KEYS
  {
  }

  /** The aliases: lsdk decodes as lsct, and vsms as vmsk. */
  lemma Aliases()
    ensures DecoderOf(KEY_LSDK) == DecoderOf(KEY_LSCT) == Some(DLsct)
    ensures DecoderOf(KEY_VSMS) == DecoderOf(KEY_VMSK) == Some(DVmsk)
  {
  }

  /** The additional-info loops (`while pos < end_pos`): blocks are read until
      the position reaches the end. */
  function InfoLoopAt(data: seq<Byte>, pos: nat, end: int, info: Info): (r: Result<Parsed<Info>>)
    ensures r.Success? ==> pos <= r.value.next && end <= r.value.next
    ensures r.Success? && pos < end ==> pos + 12 <= r.value.next
    decreases end - pos
  {
    if pos < end then
      var one :- AdditionalInfoAt(data, pos, info);
      InfoLoopAt(data, one.next, end, one.value)
    else Success(Parsed(info, pos))
  }

  // ---------------------------------------------------------------------------
  // The reader methods.

  method ReadPathRecord(rd: BinaryReader) returns (r: Result<PathRecord>)
    modifies rd
    ensures Agrees(r, PathRecordAt(rd.data, old(rd.pos)), rd.pos)
  {
    var t :- rd.ReadInt(2);
    if t == 0 || t == 3 {
      var count :- rd.ReadInt(2);
      var mode :- rd.ReadInt(2);
      rd.Skip(20);
      r := Success(SubpathStart(t < 3, count, mode));
    } else if t == 1 || t == 2 || t == 4 || t == 5 {
      var back :- ReadPoint(rd);
      var anchor :- ReadPoint(rd);
      var front :- ReadPoint(rd);
      r := Success(Knot(t < 3, t == 1 || t == 4, back, anchor, front));
    } else if t == 6 {
      rd.Skip(24);
      r := Success(PathFillRule);
    } else if t == 7 {
      var top :- ReadFixed(rd);
      var left :- ReadFixed(rd);
      var bottom :- ReadFixed(rd);
      var right :- ReadFixed(rd);
      var resolution :- ReadFixed(rd);
      rd.Skip(4);
      r := Success(Clipboard(top, left, bottom, right, resolution));
    } else if t == 8 {
      var v :- rd.ReadInt(2);
      rd.Skip(22);
      r := Success(InitialFillRule(v));
    } else {
      r := Success(Unrecognised);
    }
  }

  /** One more record read: the accumulated prefix grows by it. */
  lemma RecordsStep(data: seq<Byte>, p: nat, end: int, acc: seq<PathRecord>, rec: PathRecord, q: nat, acc2: seq<PathRecord>)
    requires end - p >= 26
    requires acc2 == acc + [rec]
    requires PathRecordAt(data, p) == Success(Parsed(rec, q))
    ensures Prepend(acc2, PathRecordsAt(data, q, end)) == Prepend(acc, PathRecordsAt(data, p, end))
  {
    PrependStep(acc, rec, PathRecordsAt(data, q, end));
  }

  /** The record loop of read_ali_vmsk. */
  method ReadPathRecords(rd: BinaryReader, end: int) returns (r: Result<seq<PathRecord>>)
    modifies rd
    ensures Agrees(r, PathRecordsAt(rd.data, old(rd.pos), end), rd.pos)
  {
    ghost var start := rd.pos;
    ghost var whole := PathRecordsAt(rd.data, start, end);
    var records: seq<PathRecord> := [];
    PrependEmpty(whole);
    while end - rd.pos >= 26
      invariant start <= rd.pos
      invariant Prepend(records, PathRecordsAt(rd.data, rd.pos, end)) == whole
      decreases end - rd.pos
    {
      ghost var p := rd.pos;
      var rec := ReadPathRecord(rd);
      if rec.Failure? {
        return Failure(rec.error);
      }
      ghost var before := records;
      records := records + [rec.value];
      RecordsStep(rd.data, p, end, before, rec.value, rd.pos, records);
    }
    assert records + [] == records;
    r := Success(records);
  }

  method ReadLuni(rd: BinaryReader) returns (r: Result<AliValue>)
    modifies rd
    ensures Agrees(r, LuniAt(rd.data, old(rd.pos)), rd.pos)
  {
    var end :- ReadSectionEnd(rd);
    var u :- ReadPsdUnicode(rd, Some(4));
    r := Success(Unicode(u));
  }

  method ReadLsct(rd: BinaryReader) returns (r: Result<AliValue>)
    modifies rd
    ensures Agrees(r, LsctAt(rd.data, old(rd.pos)), rd.pos)
  {
    var end :- ReadSectionEnd(rd);
    var t :- rd.ReadInt(4);
    rd.SkipTo(end);
    r := Success(SectionDivider(t));
  }

  method ReadVmsk(rd: BinaryReader) returns (r: Result<AliValue>)
    modifies rd
    ensures Agrees(r, VmskAt(rd.data, old(rd.pos)), rd.pos)
  {
    var end :- ReadSectionEnd(rd);
    var version :- rd.ReadInt(4);
    if version != 3 {
      return Failure(BadVersion);
    }
    var flags :- rd.ReadUint(4);
    var records :- ReadPathRecords(rd, end);
    rd.SkipTo(end);
    r := Success(VectorMask(flags, records));
  }

  method ExpectInt(rd: BinaryReader, v: int) returns (r: Result<()>)
    modifies rd
    ensures Agrees(r, ExpectIntAt(rd.data, old(rd.pos), v), rd.pos)
  {
    var h :- rd.ReadInt(4);
    if h != v {
      return Failure(BadVersion);
    }
    r := Success(());
  }

  method ReadVersion16Descriptor(rd: BinaryReader) returns (r: Result<map<Id, DValue>>)
    modifies rd
    ensures Agrees(r, Version16DescriptorAt(rd.data, old(rd.pos)), rd.pos)
  {
    var _ :- ExpectInt(rd, 16);
    r := ReadDescriptor(rd);
  }

  method ReadVscg(rd: BinaryReader) returns (r: Result<AliValue>)
    modifies rd
    ensures Agrees(r, VscgAt(rd.data, old(rd.pos)), rd.pos)
  {
    var end :- ReadSectionEnd(rd);
    var key :- rd.ReadRaw(4);
    var desc :- ReadVersion16Descriptor(rd);
    rd.SkipTo(end);
    r := Success(StrokeData(key, desc));
  }

  /** read_ali_vstk() and read_ali_SoCo(). */
  method ReadDescriptorBlock(rd: BinaryReader) returns (r: Result<AliValue>)
    modifies rd
    ensures Agrees(r, DescriptorBlockAt(rd.data, old(rd.pos)), rd.pos)
  {
    var end :- ReadSectionEnd(rd);
    var desc :- ReadVersion16Descriptor(rd);
    rd.SkipTo(end);
    r := Success(Descriptor(desc));
  }

  method ReadLfx2(rd: BinaryReader) returns (r: Result<AliValue>)
    modifies rd
    ensures Agrees(r, Lfx2At(rd.data, old(rd.pos)), rd.pos)
  {
    var end :- ReadSectionEnd(rd);
    var _ :- ExpectInt(rd, 0);
    var desc :- ReadVersion16Descriptor(rd);
    rd.SkipTo(end);
    r := Success(Descriptor(desc));
  }

  method ReadTxt2(rd: BinaryReader) returns (r: Result<AliValue>)
    modifies rd
    ensures Agrees(r, Txt2At(rd.data, old(rd.pos)), rd.pos)
  {
    var _ :- SkipSection(rd, Some(2));
    r := Success(NoValue);
  }

  /** getattr(self, 'read_ali_' + key)(). */
  method ReadBlock(rd: BinaryReader, d: Decoder) returns (r: Result<AliValue>)
    modifies rd
    ensures Agrees(r, DecodeAt(rd.data, old(rd.pos), d), rd.pos)
  {
    match d
    case DLuni => r := ReadLuni(rd);
    case DLsct => r := ReadLsct(rd);
    case DVmsk => r := ReadVmsk(rd);
    case DVscg => r := ReadVscg(rd);
    case DVstk => r := ReadDescriptorBlock(rd);
    case DSoCo => r := ReadDescriptorBlock(rd);
    case DLfx2 => r := ReadLfx2(rd);
    case DTxt2 => r := ReadTxt2(rd);
  }

  /** The caller's dictionary, updated in place by the dispatcher. */
  class InfoTable {
    var values: map<Key, AliValue>
    var unknown: Option<set<Key>>

    function Contents(): Info
      reads this
    {
      Info(values, unknown)
    }

    constructor ()
      ensures Contents() == Info(map[], None)
    {
      values := map[];
      unknown := None;
    }
  }

  /** The outcome of a dispatch step, with the reader now at `pos` and the
      table now holding `now`, is the one the grammar predicts. */
  ghost predicate AgreesInfo(r: Result<()>, s: Result<Parsed<Info>>, pos: int, now: Info) {
    match s
    case Success(p) => r == Success(()) && pos == p.next && now == p.value
    case Failure(e) => r == Failure(e)
  }

  method ReadAdditionalLayerInfo(rd: BinaryReader, table: InfoTable) returns (r: Result<()>)
    modifies rd, table
    ensures AgreesInfo(r, AdditionalInfoAt(rd.data, old(rd.pos), old(table.Contents())), rd.pos, table.Contents())
  {
    var sig :- rd.ReadRaw(4);
    if sig != SIG_8BIM && sig != SIG_8B64 {
      return Failure(BadSignature);
    }
    var key :- rd.ReadRaw(4);
    var d := DecoderOf(key);
    if d.Some? {
      var v :- ReadBlock(rd, d.value);
      table.values := table.values[key := v];
    } else if key in IGNORED_KEYS {
      var _ :- SkipSection(rd, None);
    } else {
      table.unknown := AddUnknown(table.unknown, key);
      var _ :- SkipSection(rd, None);
    }
    r := Success(());
  }

  /** The `while self.pos < end_pos` loop over additional-info blocks. */
  method ReadInfoLoop(rd: BinaryReader, end: int, table: InfoTable) returns (r: Result<()>)
    modifies rd, table
    ensures AgreesInfo(r, InfoLoopAt(rd.data, old(rd.pos), end, old(table.Contents())), rd.pos, table.Contents())
  {
    ghost var whole := InfoLoopAt(rd.data, rd.pos, end, table.Contents());
    while rd.pos < end
      invariant InfoLoopAt(rd.data, rd.pos, end, table.Contents()) == whole
      decreases end - rd.pos
    {
      ghost var p := rd.pos;
      ghost var before := table.Contents();
      var step := ReadAdditionalLayerInfo(rd, table);
      if step.Failure? {
        return Failure(step.error);
      }
      assert InfoLoopAt(rd.data, p, end, before) == InfoLoopAt(rd.data, rd.pos, end, table.Contents());
    }
    r := Success(());
  }
}
