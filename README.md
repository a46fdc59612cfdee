# PSD import: a verified model of the decoder and its SVG converters

This project models the core of an Inkscape extension that imports Adobe
Photoshop (PSD) documents. It has three layers.

- **A byte cursor and the PSD primitives.** The `BinaryReader` class holds
  the stream and `pos`. It reads big-endian integers of 1, 2, 4 or 8 bytes,
  skips, and aligns. On top of it sit the PSD scalars:
  - length-prefixed UTF-16 strings and Pascal strings;
  - 8.24 fixed-point numbers and points;
  - the "section end = pos + length" idiom.
- **The decoders that use that cursor.** These are:
  - the descriptor decoder, a recursive reader of typed property lists;
  - the additional-layer-info dispatcher with its `IGNORED_KEYS`;
  - the vector-mask path-record reader;
  - the document driver: the header, layer records, and the loops that run
    up to a section end.
- **The SVG post-processors.** These are:
  - the conversion of path records into subpath segments, and the
    combine-mode rules that sort subpaths into a filled path and a mask;
  - the construction of gradient stops from colour and opacity stops, and
    the option checks, reversal and type dispatch of a gradient;
  - the id counter, the bounding-box path and the colour formatting.

Every reader is written twice:

- a pure function over `(data, pos)` that returns `Result<Parsed<T>>`, which
  holds the value and the position after it; this function is the reader's
  specification;
- a method that advances `BinaryReader.pos`. It is proved to agree with that
  function (`Agrees(r, XAt(rd.data, old(rd.pos)), rd.pos)`).

The properties are proved about the functions: consumption, value ranges,
error cases, round trips and dispatch order. Loops, such as the descriptor's
item loop, the path-record loop, the layer loop and the gradient-stop loop,
are loops. Their invariants tie them to the recursive definitions.

A failed `assert`, a `KeyError` or a `TypeError` in the source becomes a
`Failure` carrying an `Error` value. The preconditions are those the
source's callers meet: a positive alignment, a non-zero direction, and a
reader at the start of the stream for the whole document.

Files and modules:

| file                    | module             | source                                      |
|-------------------------|--------------------|---------------------------------------------|
| `base.dfy`              | `Base`             | shared results, errors and sequence helpers |
| `binary_reader.dfy`     | `Binary`           | `binaryreader.py`                           |
| `psd_primitive.dfy`     | `PsdPrimitive`     | `psd_primitive.py`                          |
| `psd_descriptor.dfy`    | `PsdDescriptor`    | `psd_descriptor.py`                         |
| `psd_additional.dfy`    | `PsdAdditional`    | `psd_additional.py`                         |
| `psd_reader.dfy`        | `PsdReader`        | `psdreader.py`                              |
| `svg_util.dfy`          | `SvgUtil`          | `p2s_util.py`                               |
| `svg_path.dfy`          | `SvgPath`          | `p2s_path.py`                               |
| `svg_gradient.dfy`      | `SvgGradient`      | `p2s_gradient.py` (`construct_gradient_stops`) |
| `svg_gradient_item.dfy` | `SvgGradientItem`  | `p2s_gradient.py` (`construct_gradient` and its geometry) |

Modelling decisions that follow the code:

- **Signed and unsigned reads.**
  - The code units of a PSD Unicode string are read with the signed 2-byte
    read, so units at or above 0x8000 come out negative. `unichr` raises
    `ValueError` on a negative argument, so such a string fails with
    BadCodeUnit. The failure is the first one in stream order: a short read
    before the first negative unit gives EndOfStream. This holds for every
    string read this way: the descriptor's names and `TEXT` values and the
    `luni` layer name.
  - A layer channel's length is a signed 4-byte read.
  - The layer count is `abs` of a signed 2-byte value.
  - The Pascal-string length is a signed 1-byte read.
- **The layer record.**
  - The blend mode is read and then dropped, as the source does.
  - After the per-layer additional-info loop the reader is not moved to the
    section end. The loop only guarantees that it ends at or past that end.
- **Integer division.**
  - Python 2 divides the box's half extents and midpoint as integers, with
    floor division. Dafny's `/` by 2 on `int` gives the same result.
  - All other arithmetic in the gradient code is over `real`.
- **Stop locations.**
  - The stop list is built from the distinct locations of the two stop
    lists.
  - `SortedLocations` proves that these locations are exactly the keys of
    the location map the source sorts.
- **Ids.** The module-level counter behind `next_id` is an `IdGenerator`
  object with a `last` field.

## Model

All source paths are under `inkscape/.config/inkscape/extensions/psd_import/`,
written out in full in the table.

| member | source | states |
|---|---|---|
| Binary.PaddingOf | inkscape/.config/inkscape/extensions/psd_import/binaryreader.py:48-55 | the padding is below the alignment, brings `size` to a multiple of it, and is zero exactly when `size` already is one |
| Binary.BigEndian | inkscape/.config/inkscape/extensions/psd_import/binaryreader.py:67-74 | the unsigned big-endian value of n bytes is below 256^n |
| Binary.SignedRange | inkscape/.config/inkscape/extensions/psd_import/binaryreader.py:58-65 | the two's-complement value of n bytes lies in [-2^(8n-1), 2^(8n-1)); it is negative exactly when the top bit of the first byte is set, and otherwise equals the unsigned value |
| Binary.UintRoundTrip | inkscape/.config/inkscape/extensions/psd_import/binaryreader.py:67-74 | unsigned big-endian decoding and encoding are inverse both ways |
| Binary.IntRoundTrip | inkscape/.config/inkscape/extensions/psd_import/binaryreader.py:58-65 | decoding the two's-complement encoding of any value in range gives it back |
| Binary.RawAt | inkscape/.config/inkscape/extensions/psd_import/binaryreader.py:34-37 | a read of n bytes succeeds exactly when n >= 0 and n bytes remain; it then returns those bytes and ends n further on; otherwise it fails with NegativeRead or EndOfStream |
| Binary.IntAt | inkscape/.config/inkscape/extensions/psd_import/binaryreader.py:58-65 | a signed read succeeds exactly for sizes 1, 2, 4 or 8 with the bytes present; any other size fails with BadIntSize; on success it gives the two's-complement value, in range, and ends n bytes on |
| Binary.UintAt | inkscape/.config/inkscape/extensions/psd_import/binaryreader.py:67-74 | the same for the unsigned read, with the value below 256^n |
| Binary.DoubleAt | inkscape/.config/inkscape/extensions/psd_import/binaryreader.py:76-80 | a double read succeeds exactly when 8 bytes remain, consumes exactly 8 and returns them as an opaque payload |
| Binary.BinaryReader.constructor | inkscape/.config/inkscape/extensions/psd_import/binaryreader.py:29-31 | the reader wraps the stream at position 0 |
| Binary.BinaryReader.ReadRaw | inkscape/.config/inkscape/extensions/psd_import/binaryreader.py:34-37 | the result and the new position are those of RawAt at the old position |
| Binary.BinaryReader.Skip | inkscape/.config/inkscape/extensions/psd_import/binaryreader.py:39-42 | the position moves by the signed amount, forward or backward |
| Binary.BinaryReader.SkipTo | inkscape/.config/inkscape/extensions/psd_import/binaryreader.py:44-46 | afterwards the position is the target, whatever it was before |
| Binary.BinaryReader.SkipPadding | inkscape/.config/inkscape/extensions/psd_import/binaryreader.py:48-55 | the position moves by exactly PaddingOf(size, alignment) |
| Binary.BinaryReader.ReadInt | inkscape/.config/inkscape/extensions/psd_import/binaryreader.py:58-65 | the result and the new position are those of IntAt |
| Binary.BinaryReader.ReadUint | inkscape/.config/inkscape/extensions/psd_import/binaryreader.py:67-74 | the result and the new position are those of UintAt |
| Binary.BinaryReader.ReadDouble | inkscape/.config/inkscape/extensions/psd_import/binaryreader.py:76-80 | the result and the new position are those of DoubleAt |
| PsdPrimitive.CodeUnits | inkscape/.config/inkscape/extensions/psd_import/psd_primitive.py:29 | n code units, the i-th being the signed 2-byte value at offset 2i |
| PsdPrimitive.UnitsAt | inkscape/.config/inkscape/extensions/psd_import/psd_primitive.py:29 | the generator of units: every failure is EndOfStream or BadCodeUnit, the first in stream order |
| PsdPrimitive.UnitsAccepted | inkscape/.config/inkscape/extensions/psd_import/psd_primitive.py:29 | the units are read exactly when all n are present and none is negative; they are then the n signed units, each in [0, 0x8000) |
| PsdPrimitive.UnitsRefused | inkscape/.config/inkscape/extensions/psd_import/psd_primitive.py:29 | the read fails with BadCodeUnit exactly when some unit that is present reads negative before the stream runs short |
| PsdPrimitive.UnicodeAt | inkscape/.config/inkscape/extensions/psd_import/psd_primitive.py:26-34 | succeeds exactly when the 4-byte length L and max(L, 0) code units are present and every unit is non-negative; returns those units, each in [0, 0x8000), and ends at 4 + 2·max(L, 0) plus the padding of 2L to the alignment, or no padding without an alignment; fails with BadCodeUnit exactly when a present unit reads negative, otherwise with EndOfStream |
| PsdPrimitive.CodeUnitSign | inkscape/.config/inkscape/extensions/psd_import/psd_primitive.py:29 | the signed read gives a code unit at or above 0x8000 as its value minus 0x10000, which is negative and which UnicodeAt therefore refuses; any other unit comes out as itself |
| PsdPrimitive.UnsignedUnits | inkscape/.config/inkscape/extensions/psd_import/psd_primitive.py:29 | the corrected reading, `read_uint(2)` for each unit: every value below 0x10000, none refused, equal to the signed unit wherever that is non-negative |
| PsdPrimitive.CodeUnitRefusedExample | inkscape/.config/inkscape/extensions/psd_import/psd_primitive.py:29 | the one-unit string U+AC00 (bytes 00 00 00 01 AC 00) fails with BadCodeUnit, while the unsigned reading gives 0xAC00 |
| PsdPrimitive.UnicodeAlignTwoNoPadding | inkscape/.config/inkscape/extensions/psd_import/psd_primitive.py:31-32 | with alignment 2 the string reads exactly as with no alignment, because 2L is even |
| PsdPrimitive.PascalStringAt | inkscape/.config/inkscape/extensions/psd_import/psd_primitive.py:36-45 | succeeds exactly when the signed 1-byte length L is non-negative and L bytes follow; returns them and ends at 1 + L plus the padding of 1 + L |
| PsdPrimitive.FixedAt | inkscape/.config/inkscape/extensions/psd_import/psd_primitive.py:47-49 | consumes 4 bytes and returns r with r·2^24 equal to their signed value |
| PsdPrimitive.FixedRoundTrip | inkscape/.config/inkscape/extensions/psd_import/psd_primitive.py:47-49 | the fixed-point reading of the 4-byte encoding of v is exactly v / 2^24 |
| PsdPrimitive.PointAt | inkscape/.config/inkscape/extensions/psd_import/psd_primitive.py:51-55 | consumes 8 bytes; y comes from the first four and x from the last four |
| PsdPrimitive.SkipSectionAt | inkscape/.config/inkscape/extensions/psd_import/psd_primitive.py:57-64 | ends at 4 + the unsigned length, plus that length's padding when an alignment is given |
| PsdPrimitive.SectionEndAt | inkscape/.config/inkscape/extensions/psd_import/psd_primitive.py:66-71 | consumes only the 4-byte length and returns the position after it plus the length |
| PsdPrimitive.ReadPsdUnicode | inkscape/.config/inkscape/extensions/psd_import/psd_primitive.py:26-34 | the loop over code units agrees with UnicodeAt: it stops at the first short read with EndOfStream or at the first negative unit with BadCodeUnit |
| PsdPrimitive.ReadPsdString | inkscape/.config/inkscape/extensions/psd_import/psd_primitive.py:36-45 | agrees with PascalStringAt |
| PsdPrimitive.ReadFixed | inkscape/.config/inkscape/extensions/psd_import/psd_primitive.py:47-49 | agrees with FixedAt |
| PsdPrimitive.ReadPoint | inkscape/.config/inkscape/extensions/psd_import/psd_primitive.py:51-55 | agrees with PointAt |
| PsdPrimitive.SkipSection | inkscape/.config/inkscape/extensions/psd_import/psd_primitive.py:57-64 | agrees with SkipSectionAt |
| PsdPrimitive.ReadSectionEnd | inkscape/.config/inkscape/extensions/psd_import/psd_primitive.py:66-71 | agrees with SectionEndAt |
| PsdDescriptor.StripShape | inkscape/.config/inkscape/extensions/psd_import/psd_descriptor.py:51 | `strip()` removes exactly the leading and trailing whitespace: what is left is a contiguous slice that neither begins nor ends with a space, and everything cut off is space |
| PsdDescriptor.KindOfFourByteTag | inkscape/.config/inkscape/extensions/psd_import/psd_descriptor.py:50-54 | a 4-byte tag selects kind k exactly when it is k's name |
| PsdDescriptor.UnknownTagRefused | inkscape/.config/inkscape/extensions/psd_import/psd_descriptor.py:50-54 | a 4-byte tag selects no reader exactly when it is none of the eight names |
| PsdDescriptor.ItemValueAt | inkscape/.config/inkscape/extensions/psd_import/psd_descriptor.py:50-54 | an unknown tag fails with UnsupportedDescriptorType; a decoded value has the kind its tag names and consumes at least one byte |
| PsdDescriptor.DispatchByName | inkscape/.config/inkscape/extensions/psd_import/psd_descriptor.py:50-54 | each of the eight tags dispatches to its own value reader |
| PsdDescriptor.ShapeAt | inkscape/.config/inkscape/extensions/psd_import/psd_descriptor.py:57-91 | the reader for kind k yields a value of kind k |
| PsdDescriptor.IdAt | inkscape/.config/inkscape/extensions/psd_import/psd_descriptor.py:43-48 | after a 4-byte length L the id is the next 4 bytes when L = 0 and the next L bytes otherwise; it consumes 4 + (4 or L) bytes and fails when they are missing |
| PsdDescriptor.DoubAt | inkscape/.config/inkscape/extensions/psd_import/psd_descriptor.py:60-61 | `doub` is the next 8 bytes |
| PsdDescriptor.UntFAt | inkscape/.config/inkscape/extensions/psd_import/psd_descriptor.py:63-66 | `UntF` is a 4-byte unit tag followed by an 8-byte double |
| PsdDescriptor.BoolAt | inkscape/.config/inkscape/extensions/psd_import/psd_descriptor.py:68-69 | `bool` is one byte, true exactly when it is non-zero |
| PsdDescriptor.SignedOfOneByte | inkscape/.config/inkscape/extensions/psd_import/psd_descriptor.py:69 | the signed value of one byte is zero exactly when the byte is |
| PsdDescriptor.EnumAt | inkscape/.config/inkscape/extensions/psd_import/psd_descriptor.py:71-77 | `enum` is two descriptor ids, the type then the value |
| PsdDescriptor.TextAt | inkscape/.config/inkscape/extensions/psd_import/psd_descriptor.py:79-80 | `TEXT` is the Unicode string with no padding; it fails with the string's own error, so with BadCodeUnit on a unit at or above 0x8000 |
| PsdDescriptor.LongAt | inkscape/.config/inkscape/extensions/psd_import/psd_descriptor.py:90-91 | `long` is a signed 4-byte integer |
| PsdDescriptor.HeaderAt | inkscape/.config/inkscape/extensions/psd_import/psd_descriptor.py:28-31 | a descriptor begins with a name (Unicode, alignment 2), a class id and a signed 4-byte count; a name that cannot be read, short or with a unit at or above 0x8000, fails the header with the name's error |
| PsdDescriptor.DescriptorAt | inkscape/.config/inkscape/extensions/psd_import/psd_descriptor.py:27-41 | the descriptor reader: the header, then max(N, 0) items stored in order into an empty map; a success ends past its start and within the data (its keys and values are stated by DescriptorContents and DescriptorKeyBound) |
| PsdDescriptor.DescriptorContents | inkscape/.config/inkscape/extensions/psd_import/psd_descriptor.py:27-41 | a decoded descriptor's keys are exactly the ids of the max(N, 0) items read after its header, it ends where they end, and an id not repeated later maps to the value read with it, so a repeated id keeps the last value |
| PsdDescriptor.ItemsAt | inkscape/.config/inkscape/extensions/psd_import/psd_descriptor.py:35-39 | the item loop yields exactly n (id, value) pairs |
| PsdDescriptor.ItemsElement | inkscape/.config/inkscape/extensions/psd_import/psd_descriptor.py:35-39 | item k of a decoded item sequence is the item read where the first k items end, and the first k are its prefix |
| PsdDescriptor.ToMapKeys | inkscape/.config/inkscape/extensions/psd_import/psd_descriptor.py:33-39 | the keys of the map are exactly the ids read |
| PsdDescriptor.ToMapLastWins | inkscape/.config/inkscape/extensions/psd_import/psd_descriptor.py:33-39 | a repeated id keeps the value read last |
| PsdDescriptor.ToMapSize | inkscape/.config/inkscape/extensions/psd_import/psd_descriptor.py:33-39 | the map has at most as many keys as items were read |
| PsdDescriptor.DescriptorKeyBound | inkscape/.config/inkscape/extensions/psd_import/psd_descriptor.py:31-39 | a decoded descriptor has at most max(N, 0) keys |
| PsdDescriptor.ValueListAt | inkscape/.config/inkscape/extensions/psd_import/psd_descriptor.py:82-88 | `VlLs` yields exactly max(C, 0) values for its signed count C |
| PsdDescriptor.ValueListElements | inkscape/.config/inkscape/extensions/psd_import/psd_descriptor.py:82-88 | a decoded `VlLs` is the list of max(C, 0) tagged values after the 4-byte count C, and its element k is the tagged value read where the first k end |
| PsdDescriptor.TaggedValueAt | inkscape/.config/inkscape/extensions/psd_import/psd_descriptor.py:86-87 | a list element is a 4-byte tag and a value of the kind it names |
| PsdDescriptor.ListAt | inkscape/.config/inkscape/extensions/psd_import/psd_descriptor.py:85-87 | the list loop yields exactly n values |
| PsdDescriptor.ListElement | inkscape/.config/inkscape/extensions/psd_import/psd_descriptor.py:85-87 | element k of a decoded list is the tagged value read where the first k elements end, and the first k are its prefix |
| PsdDescriptor.ReadDescriptorId | inkscape/.config/inkscape/extensions/psd_import/psd_descriptor.py:43-48 | agrees with IdAt |
| PsdDescriptor.ReadDescriptor | inkscape/.config/inkscape/extensions/psd_import/psd_descriptor.py:27-41 | agrees with DescriptorAt |
| PsdDescriptor.ReadHeader | inkscape/.config/inkscape/extensions/psd_import/psd_descriptor.py:28-31 | agrees with HeaderAt, including its BadCodeUnit failure |
| PsdDescriptor.ReadItems | inkscape/.config/inkscape/extensions/psd_import/psd_descriptor.py:35-39 | the `for` loop filling the result map agrees with storing ItemsAt's pairs in order |
| PsdDescriptor.ReadItem | inkscape/.config/inkscape/extensions/psd_import/psd_descriptor.py:36-39 | agrees with ItemAt |
| PsdDescriptor.ReadDescriptorItem | inkscape/.config/inkscape/extensions/psd_import/psd_descriptor.py:50-54 | agrees with ItemValueAt |
| PsdDescriptor.ReadShape | inkscape/.config/inkscape/extensions/psd_import/psd_descriptor.py:57-91 | agrees with ShapeAt |
| PsdDescriptor.ReadValueList | inkscape/.config/inkscape/extensions/psd_import/psd_descriptor.py:82-88 | agrees with ValueListAt |
| PsdDescriptor.ReadList | inkscape/.config/inkscape/extensions/psd_import/psd_descriptor.py:85-87 | the appending loop agrees with ListAt |
| PsdDescriptor.ReadTaggedValue | inkscape/.config/inkscape/extensions/psd_import/psd_descriptor.py:86-87 | agrees with TaggedValueAt |
| PsdAdditional.PathRecordAt | inkscape/.config/inkscape/extensions/psd_import/psd_additional.py:143-176 | a record succeeds exactly when its reads have their bytes; it consumes 26 bytes for types 0 to 8 and only the 2-byte type otherwise |
| PsdAdditional.RecordKinds | inkscape/.config/inkscape/extensions/psd_import/psd_additional.py:147-156 | types 0 and 3 start a subpath and 1, 2, 4, 5 are knots; a type outside 0 to 8 gives an empty record; types below 3 are closed; a knot is linked exactly for types 1 and 4 |
| PsdAdditional.SubpathStartFields | inkscape/.config/inkscape/extensions/psd_import/psd_additional.py:150-151 | a subpath start holds the signed knot count then the signed combine mode |
| PsdAdditional.PathRecordsAt | inkscape/.config/inkscape/extensions/psd_import/psd_additional.py:84-85 | the loop stops with fewer than 26 bytes left before the end |
| PsdAdditional.RecordCount | inkscape/.config/inkscape/extensions/psd_import/psd_additional.py:82-85 | with recognised records only, it reads floor((end - pos)/26) records and stops 26 times that after pos |
| PsdAdditional.LuniAt | inkscape/.config/inkscape/extensions/psd_import/psd_additional.py:58-61 | `luni` is the Unicode string after the length, with 4-byte alignment, and not moved to its section end; a name that cannot be read, short or with a unit at or above 0x8000, fails with the name's error |
| PsdAdditional.LsctAt | inkscape/.config/inkscape/extensions/psd_import/psd_additional.py:63-68 | `lsct` is the signed 4-byte type, and reading ends at the section end |
| PsdAdditional.VmskAt | inkscape/.config/inkscape/extensions/psd_import/psd_additional.py:73-90 | `vmsk` fails with BadVersion unless its version is 3; it reads the flags as a u32 and ends exactly at the section end |
| PsdAdditional.VmskRecords | inkscape/.config/inkscape/extensions/psd_import/psd_additional.py:81-87 | the vector mask's records are those of the record loop up to the section end |
| PsdAdditional.Version16DescriptorAt | inkscape/.config/inkscape/extensions/psd_import/psd_additional.py:119-120 | a version int other than 16 fails with BadVersion; with 16 the descriptor follows |
| PsdAdditional.VscgAt | inkscape/.config/inkscape/extensions/psd_import/psd_additional.py:94-101 | `vscg` is the 4-byte key and the version-16 descriptor, paired, ending at the section end |
| PsdAdditional.DescriptorBlockAt | inkscape/.config/inkscape/extensions/psd_import/psd_additional.py:103-122 | `vstk` and `SoCo` are a version-16 descriptor ending at the section end |
| PsdAdditional.Lfx2At | inkscape/.config/inkscape/extensions/psd_import/psd_additional.py:124-131 | `lfx2` fails unless its first int is 0 and its second 16; it then reads the descriptor and ends at the section end |
| PsdAdditional.Txt2At | inkscape/.config/inkscape/extensions/psd_import/psd_additional.py:134-140 | `Txt2` skips its section with 2-byte alignment and yields no value |
| PsdAdditional.DecodeAt | inkscape/.config/inkscape/extensions/psd_import/psd_additional.py:46-48 | the `read_ali_<key>` reader that a decoded key selects, one per key (`vstk` and `SoCo` share the descriptor-block layout); every decoder consumes at least 4 bytes |
| PsdAdditional.Aliases | inkscape/.config/inkscape/extensions/psd_import/psd_additional.py:71-92 | `lsdk` decodes as `lsct` and `vsms` as `vmsk` |
| PsdAdditional.DecodedKeysNotIgnored | inkscape/.config/inkscape/extensions/psd_import/psd_additional.py:28-39 | no key with a decoder is in IGNORED_KEYS |
| PsdAdditional.AddUnknown | inkscape/.config/inkscape/extensions/psd_import/psd_additional.py:52-54 | the unknown set is created on first use and gains exactly the key |
| PsdAdditional.AdditionalInfoAt | inkscape/.config/inkscape/extensions/psd_import/psd_additional.py:42-55 | a block whose signature is neither `8BIM` nor `8B64` fails with BadSignature; a block spans at least its 12-byte header |
| PsdAdditional.DispatchOrder | inkscape/.config/inkscape/extensions/psd_import/psd_additional.py:46-55 | a decoded key's value is stored under it; otherwise an ignored key leaves the table unchanged and any other key joins the unknown set; every other entry is unchanged |
| PsdAdditional.InfoLoopAt | inkscape/.config/inkscape/extensions/psd_import/psdreader.py:159-160 | the loop running while pos < end stops at or past end |
| PsdAdditional.ReadPathRecord | inkscape/.config/inkscape/extensions/psd_import/psd_additional.py:143-176 | agrees with PathRecordAt |
| PsdAdditional.ReadPathRecords | inkscape/.config/inkscape/extensions/psd_import/psd_additional.py:84-85 | the `while end - pos >= 26` loop agrees with PathRecordsAt |
| PsdAdditional.ReadLuni | inkscape/.config/inkscape/extensions/psd_import/psd_additional.py:58-61 | agrees with LuniAt, including its BadCodeUnit failure |
| PsdAdditional.ReadLsct | inkscape/.config/inkscape/extensions/psd_import/psd_additional.py:63-68 | agrees with LsctAt |
| PsdAdditional.ReadVmsk | inkscape/.config/inkscape/extensions/psd_import/psd_additional.py:73-90 | agrees with VmskAt |
| PsdAdditional.ReadVscg | inkscape/.config/inkscape/extensions/psd_import/psd_additional.py:94-101 | agrees with VscgAt |
| PsdAdditional.ReadDescriptorBlock | inkscape/.config/inkscape/extensions/psd_import/psd_additional.py:103-122 | agrees with DescriptorBlockAt |
| PsdAdditional.ReadLfx2 | inkscape/.config/inkscape/extensions/psd_import/psd_additional.py:124-131 | agrees with Lfx2At |
| PsdAdditional.ReadTxt2 | inkscape/.config/inkscape/extensions/psd_import/psd_additional.py:134-140 | agrees with Txt2At |
| PsdAdditional.ReadBlock | inkscape/.config/inkscape/extensions/psd_import/psd_additional.py:46-48 | the decoder a key selects agrees with DecodeAt |
| PsdAdditional.InfoTable.constructor | inkscape/.config/inkscape/extensions/psd_import/psdreader.py:99 | a new table is empty, with no unknown set |
| PsdAdditional.ReadAdditionalLayerInfo | inkscape/.config/inkscape/extensions/psd_import/psd_additional.py:42-55 | the table's new contents and the new position are those of AdditionalInfoAt on the old contents |
| PsdAdditional.ReadInfoLoop | inkscape/.config/inkscape/extensions/psd_import/psdreader.py:100-101 | the loop's table and position agree with InfoLoopAt |
| PsdReader.FileHeaderAt | inkscape/.config/inkscape/extensions/psd_import/psdreader.py:64-84 | an accepted header consumes exactly 26 bytes |
| PsdReader.HeaderChecksAt | inkscape/.config/inkscape/extensions/psd_import/psdreader.py:65-68 | the signature bytes, then version, then the two reserved fields, each checked in that order; a success consumes exactly 12 bytes (the exact conditions are HeaderAccepted and HeaderRejected) |
| PsdReader.HeaderAccepted | inkscape/.config/inkscape/extensions/psd_import/psdreader.py:64-84 | the header is accepted exactly when 26 bytes are present, the signature is `8BPS`, the version is 1 and both reserved fields are 0; the bounds are then (0, 0, height, width) and the dimensions (width, height) |
| PsdReader.HeaderRejected | inkscape/.config/inkscape/extensions/psd_import/psdreader.py:65-68 | a wrong signature fails with BadSignature, then a wrong version with BadVersion, then a non-zero reserved field with NonZeroReserved |
| PsdReader.RectAt | inkscape/.config/inkscape/extensions/psd_import/psdreader.py:122-127 | a layer's bounds are four signed ints in the order top, left, bottom, right |
| PsdReader.ChannelAt | inkscape/.config/inkscape/extensions/psd_import/psdreader.py:133-136 | a channel is a signed 2-byte id and a signed 4-byte length |
| PsdReader.ChannelsAt | inkscape/.config/inkscape/extensions/psd_import/psdreader.py:131-137 | the loop yields exactly n channels |
| PsdReader.ChannelsLayout | inkscape/.config/inkscape/extensions/psd_import/psdreader.py:129-137 | n channels succeed exactly when 6n bytes are present; entry i is read at offset 6i, in wire order |
| PsdReader.BlendingLayout | inkscape/.config/inkscape/extensions/psd_import/psdreader.py:139-144 | without `8BIM` the record fails with BadSignature; after the blend mode come the opacity, clipping and flags bytes and one skipped byte |
| PsdReader.LayerHeadLayout | inkscape/.config/inkscape/extensions/psd_import/psdreader.py:122-144 | the bounds, then the u16 channel count with that many channels, then the blending fields, at their exact offsets |
| PsdReader.LayerRecordAt | inkscape/.config/inkscape/extensions/psd_import/psdreader.py:119-162 | a layer record is its head (bounds, channels, blending fields) followed by the extra-data block; the layer keeps the bounds, channels, opacity, clipping, flags, name and additional info, and drops the blend mode |
| PsdReader.LayerExtraAt | inkscape/.config/inkscape/extensions/psd_import/psdreader.py:151-160 | the extra-data loop stops at or past the section end |
| PsdReader.LayersAt | inkscape/.config/inkscape/extensions/psd_import/psdreader.py:113-114 | exactly n layer records are read |
| PsdReader.LayerInfoAt | inkscape/.config/inkscape/extensions/psd_import/psdreader.py:106-117 | the number of layers is the absolute value of the signed count, and reading ends exactly at the section end |
| PsdReader.LayerAndMaskAt | inkscape/.config/inkscape/extensions/psd_import/psdreader.py:92-104 | the layer-and-mask section ends exactly at its section end |
| PsdReader.PsdHeaderFirst | inkscape/.config/inkscape/extensions/psd_import/psdreader.py:51-58 | a header failure is the document's failure |
| PsdReader.PsdHeaderFields | inkscape/.config/inkscape/extensions/psd_import/psdreader.py:51-58 | a decoded document carries the header's bounds and dimensions |
| PsdReader.PsdSections | inkscape/.config/inkscape/extensions/psd_import/psdreader.py:54-57 | after the header, the colour-mode and image-resource sections are skipped; the document then succeeds or fails exactly as the layer-and-mask section does, and carries its layers and extra data |
| PsdReader.PsdAt | inkscape/.config/inkscape/extensions/psd_import/psdreader.py:51-62 | the document reader from position 0: the header, the colour-mode and image-resource sections skipped, then the layer and mask information; the first failure is the result (stated by PsdHeaderFirst, PsdHeaderFields and PsdSections) |
| PsdReader.ReadHeaderChecks | inkscape/.config/inkscape/extensions/psd_import/psdreader.py:65-68 | agrees with the header's checks |
| PsdReader.ReadHeader | inkscape/.config/inkscape/extensions/psd_import/psdreader.py:64-84 | agrees with FileHeaderAt |
| PsdReader.ReadRect | inkscape/.config/inkscape/extensions/psd_import/psdreader.py:122-127 | agrees with RectAt |
| PsdReader.ReadChannel | inkscape/.config/inkscape/extensions/psd_import/psdreader.py:133-136 | agrees with ChannelAt |
| PsdReader.ReadChannels | inkscape/.config/inkscape/extensions/psd_import/psdreader.py:129-137 | the appending loop agrees with ChannelsAt |
| PsdReader.ReadBlending | inkscape/.config/inkscape/extensions/psd_import/psdreader.py:139-144 | agrees with the blending fields' reader |
| PsdReader.ReadLayerHead | inkscape/.config/inkscape/extensions/psd_import/psdreader.py:122-144 | agrees with the layer head's reader |
| PsdReader.ReadLayerExtra | inkscape/.config/inkscape/extensions/psd_import/psdreader.py:151-160 | agrees with LayerExtraAt |
| PsdReader.ReadLayerRecord | inkscape/.config/inkscape/extensions/psd_import/psdreader.py:119-162 | agrees with the layer record's reader |
| PsdReader.ReadLayers | inkscape/.config/inkscape/extensions/psd_import/psdreader.py:113-114 | the loop agrees with LayersAt |
| PsdReader.ReadLayerInfo | inkscape/.config/inkscape/extensions/psd_import/psdreader.py:106-117 | agrees with LayerInfoAt |
| PsdReader.ReadLayerAndMaskInfo | inkscape/.config/inkscape/extensions/psd_import/psdreader.py:92-104 | agrees with LayerAndMaskAt |
| PsdReader.ReadPsd | inkscape/.config/inkscape/extensions/psd_import/psdreader.py:51-62 | from the start of the stream, agrees with the whole-document reader, every failure propagated |
| SvgUtil.FormatIntRoundTrip | inkscape/.config/inkscape/extensions/psd_import/p2s_util.py:30 | the `%d` text of any integer parses back to it |
| SvgUtil.FormatIntChars | inkscape/.config/inkscape/extensions/psd_import/p2s_util.py:30 | the `%d` text is non-empty and made of digits and `-` only |
| SvgUtil.FormatInt | inkscape/.config/inkscape/extensions/psd_import/p2s_util.py:30 | `%d` of an integer: a minus sign for a negative value, then the decimal digits of its magnitude (stated by FormatIntRoundTrip and FormatIntChars) |
| SvgUtil.IdsDistinct | inkscape/.config/inkscape/extensions/psd_import/p2s_util.py:26-30 | two counter values give the same id exactly when they are equal |
| SvgUtil.IdGenerator.constructor | inkscape/.config/inkscape/extensions/psd_import/p2s_util.py:26 | the counter starts at 0 |
| SvgUtil.IdGenerator.NextId | inkscape/.config/inkscape/extensions/psd_import/p2s_util.py:27-30 | the counter goes up by exactly 1; the id is `_` followed by its new value; it differs from every id returned before |
| SvgUtil.Trunc | inkscape/.config/inkscape/extensions/psd_import/p2s_util.py:33-35 | `int()` truncates toward zero: below x for positive x and above it for negative x, by less than 1 |
| SvgUtil.ParseColor | inkscape/.config/inkscape/extensions/psd_import/p2s_util.py:32-36 | `rgb(r, g, b)` of the three channels, each truncated by `int()` (stated by ParseColorRoundTrip) |
| SvgUtil.ParseColorRoundTrip | inkscape/.config/inkscape/extensions/psd_import/p2s_util.py:32-36 | reading back `rgb(r, g, b)` gives the three truncated channels |
| SvgUtil.BoxCorners | inkscape/.config/inkscape/extensions/psd_import/p2s_util.py:38-40 | five corners, the first and last both (left, top), each step along one axis |
| SvgUtil.BoxPathData | inkscape/.config/inkscape/extensions/psd_import/p2s_util.py:38-40 | `M`, the five corners from the top left round to it again, then `Z` (stated by BoxPathText and BoxPathRoundTrip) |
| SvgUtil.BoxPathText | inkscape/.config/inkscape/extensions/psd_import/p2s_util.py:38-40 | the box path is `M`, the corners in order, then `Z` |
| SvgUtil.BoxPathRoundTrip | inkscape/.config/inkscape/extensions/psd_import/p2s_util.py:38-40 | reading the box path back gives the bounds it was made from |
| SvgPath.RenderCorners | inkscape/.config/inkscape/extensions/psd_import/p2s_path.py:28-31 | the unit point (0, 0) lands on (left, top) and (1, 1) on (right, bottom) |
| SvgPath.RenderInBounds | inkscape/.config/inkscape/extensions/psd_import/p2s_path.py:28-31 | a point in the unit square lands inside the bounds |
| SvgPath.UnitPlace | inkscape/.config/inkscape/extensions/psd_import/p2s_path.py:29-30 | one axis, `lo + t·(hi - lo)`, maps 0 to lo and 1 to hi, and [0, 1] into [lo, hi] |
| SvgPath.OpenSegments | inkscape/.config/inkscape/extensions/psd_import/p2s_path.py:80-91 | the first knot moves to its anchor; each later knot is one cubic (previous front, this back, this anchor); k knots give k segments |
| SvgPath.FinishPath | inkscape/.config/inkscape/extensions/psd_import/p2s_path.py:49-64 | from the loop's tracked state, the finished entry is that of the subpath's knots |
| SvgPath.ConvertFrom | inkscape/.config/inkscape/extensions/psd_import/p2s_path.py:27-96 | the records in order: a subpath start finishes the current subpath and opens one with its closedness and combine mode, a knot extends the current subpath, fill-rule and clipboard records are skipped, and a record without a type fails (stated by ConvertFails, KnotRun, OneSubpath and EntriesStartWithMove) |
| SvgPath.PathDataOf | inkscape/.config/inkscape/extensions/psd_import/p2s_path.py:27-96 | the conversion from an empty state with no combine mode and no knots |
| SvgPath.PathRecordsToPathData | inkscape/.config/inkscape/extensions/psd_import/p2s_path.py:27-96 | the record loop agrees with the subpath conversion PathDataOf |
| SvgPath.ConvertFails | inkscape/.config/inkscape/extensions/psd_import/p2s_path.py:66-91 | conversion fails exactly when some record is an empty one (no type), with UnknownRecord; other non-knot records are ignored |
| SvgPath.KnotRun | inkscape/.config/inkscape/extensions/psd_import/p2s_path.py:79-91 | a run of knots only extends the current subpath's knots |
| SvgPath.OneSubpath | inkscape/.config/inkscape/extensions/psd_import/p2s_path.py:49-91 | a subpath with no knots gives no entry; otherwise one entry with its combine mode, the open segments, and for a closed one the closing cubic (last front, first back, first anchor) and `Z` |
| SvgPath.EntriesStartWithMove | inkscape/.config/inkscape/extensions/psd_import/p2s_path.py:80-85 | every entry's segments begin with a move |
| SvgPath.SortEntry | inkscape/.config/inkscape/extensions/psd_import/p2s_path.py:110-150 | one subpath sorted by its mode: -1 switches an unset or lone non-zero rule to even-odd and is mode 0; 1 and 0 join the filled group after checking no subtracted subpath came before and the rule agrees; 2 joins the subtracted group; any other or missing mode fails (stated by CombineRules) |
| SvgPath.CombineRules | inkscape/.config/inkscape/extensions/psd_import/p2s_path.py:110-154 | mode 2 always joins the negative group. Modes 1 and 0 succeed exactly when no negative entry came first and the rule is not the other one. Mode -1 succeeds exactly when no negative entry came first and the rule is not nonzero unless one positive entry exists. Any other or missing mode fails. Failures are UnknownCombineMode or CombineModeConflict |
| SvgPath.SortAllGroups | inkscape/.config/inkscape/extensions/psd_import/p2s_path.py:110-154 | the positive group is the filled entries and the negative group the subtracted ones, in order; the positive rule is set exactly when a positive entry exists |
| SvgPath.SortAllOrder | inkscape/.config/inkscape/extensions/psd_import/p2s_path.py:130-154 | in an accepted list every mode is one of -1, 0, 1, 2, and every entry after a subtracted one is subtracted |
| SvgPath.BuildPathOf | inkscape/.config/inkscape/extensions/psd_import/p2s_path.py:98-188 | all subpaths sorted, the groups and rules swapped when inverted, a mask exactly when the subtracted side is non-empty, and the box outline when the filled side is empty (stated by BuildPathShape) |
| SvgPath.BuildPathShape | inkscape/.config/inkscape/extensions/psd_import/p2s_path.py:156-186 | `invert` swaps the groups and their rules. A mask exists exactly when the hidden group is non-empty; it then holds the box and that group, with a rule. An empty shown group becomes the box path. The path has a fill rule exactly when inverted or some subpath is filled |
| SvgPath.BuildPathFromData | inkscape/.config/inkscape/extensions/psd_import/p2s_path.py:98-188 | the result is the built path with the next id as mask id; the counter advances exactly when a mask is made |
| SvgPath.DisabledMask | inkscape/.config/inkscape/extensions/psd_import/p2s_path.py:190-197 | with flag bit 4 the path is the box, with no mask, and the nonzero rule exactly when flag bit 1 inverts it |
| SvgPath.ConstructPathOf | inkscape/.config/inkscape/extensions/psd_import/p2s_path.py:190-197 | flag bit 4 disables the mask and gives no subpaths, flag bit 1 inverts, and the rest is BuildPathOf (stated by DisabledMask and ConstructPath) |
| SvgPath.ConstructPath | inkscape/.config/inkscape/extensions/psd_import/p2s_path.py:190-197 | flag bit 4 gives empty data, flag bit 1 sets invert, and the rest is BuildPathFromData |
| SvgGradient.SortBy | inkscape/.config/inkscape/extensions/psd_import/p2s_gradient.py:146-147 | sorting is a permutation |
| SvgGradient.SortBySorted | inkscape/.config/inkscape/extensions/psd_import/p2s_gradient.py:146-147 | sorting orders by location |
| SvgGradient.SortByStable | inkscape/.config/inkscape/extensions/psd_import/p2s_gradient.py:146-147 | the sort is stable: the stops at each location keep their order |
| SvgGradient.SortedLast | inkscape/.config/inkscape/extensions/psd_import/p2s_gradient.py:146-156 | sorting changes neither which stop is last at a location nor which locations occur |
| SvgGradient.LocationMapAt | inkscape/.config/inkscape/extensions/psd_import/p2s_gradient.py:149-156 | the map's keys are the locations of both lists; each entry holds the last colour stop and the last opacity stop there |
| SvgGradient.BuildLocationMap | inkscape/.config/inkscape/extensions/psd_import/p2s_gradient.py:149-156 | the two filling loops build LocationMap |
| SvgGradient.LerpBounds | inkscape/.config/inkscape/extensions/psd_import/p2s_gradient.py:222-225 | the interpolation meets its two ends and stays between them |
| SvgGradient.OpacityMix | inkscape/.config/inkscape/extensions/psd_import/p2s_gradient.py:218-225 | the weights `1 - dist/len` give the straight line between the two opacities |
| SvgGradient.MixAsWrittenSwapped | inkscape/.config/inkscape/extensions/psd_import/p2s_gradient.py:193-197 | the colour weights as written are in [0, 1] and sum to 1, but they give the interpolation with the colours exchanged, so at the lower stop's own location the upper colour |
| SvgGradient.MixAsWritten | inkscape/.config/inkscape/extensions/psd_import/p2s_gradient.py:193-197 | the colour between two stops as the source mixes it is the straight line from the upper stop's colour at the lower location to the lower stop's colour at the upper one |
| SvgGradient.MixAsWrittenExample | inkscape/.config/inkscape/extensions/psd_import/p2s_gradient.py:193-197 | from black at 0 to white at 100, at 25 the formula as written gives 191.25 and the intended one 63.75 |
| SvgGradient.Mix | inkscape/.config/inkscape/extensions/psd_import/p2s_gradient.py:188-198 | the corrected colour interpolation is the straight line per channel |
| SvgGradient.ColorSearch | inkscape/.config/inkscape/extensions/psd_import/p2s_gradient.py:188-198 | the loop over the colour stops from index i: the first stop past l and the one before it, mixed by MixAsWritten (stated by ColorSearchBrackets) |
| SvgGradient.ColorAt | inkscape/.config/inkscape/extensions/psd_import/p2s_gradient.py:177-200 | the colour at a location, in the source's order: a colour stop at l, no colour stop (IndexOutOfRange), below the first stop, at or after the last, else ColorSearch |
| SvgGradient.ColorSearchBrackets | inkscape/.config/inkscape/extensions/psd_import/p2s_gradient.py:188-198 | the search finds the first stop past l, with l at or after the one before it, and mixes those two with the weights as written: the straight line from the upper stop's colour at the lower location to the lower stop's at the upper one |
| SvgGradient.ColorAtLocation | inkscape/.config/inkscape/extensions/psd_import/p2s_gradient.py:177-200 | in order: a colour stop at l itself, then no stops (IndexOutOfRange), then the first colour below the first stop, then the last at or after the last, and otherwise the as-written mix of the bracketing stops |
| SvgGradient.OpacitySearchBrackets | inkscape/.config/inkscape/extensions/psd_import/p2s_gradient.py:213-225 | the same search for opacities, interpolating value / 100 |
| SvgGradient.OpacityAt | inkscape/.config/inkscape/extensions/psd_import/p2s_gradient.py:202-227 | the same resolution for opacity, each value divided by 100, the interpolation by OpacityMix |
| SvgGradient.OpacityAtLocation | inkscape/.config/inkscape/extensions/psd_import/p2s_gradient.py:202-227 | the same resolution for opacity, each value divided by 100 |
| SvgGradient.Blend | inkscape/.config/inkscape/extensions/psd_import/p2s_gradient.py:158-175 | without a base colour the stop is unchanged; with one, the colour is mixed over the base by the opacity times the gradient's opacity and becomes opaque (stated by BlendBounds) |
| SvgGradient.BlendBounds | inkscape/.config/inkscape/extensions/psd_import/p2s_gradient.py:158-175 | over a base colour the stop is opaque. Full weight keeps the colour and zero weight gives the base. A weight in [0, 1] keeps each channel between the two |
| SvgGradient.SortedDistinct | inkscape/.config/inkscape/extensions/psd_import/p2s_gradient.py:230 | strictly increasing, holding exactly the given values |
| SvgGradient.IncreasingCard | inkscape/.config/inkscape/extensions/psd_import/p2s_gradient.py:230 | a strictly increasing list has no repeats |
| SvgGradient.Locations | inkscape/.config/inkscape/extensions/psd_import/p2s_gradient.py:149-156 | exactly the locations of the colour and the opacity stops |
| SvgGradient.SortedLocations | inkscape/.config/inkscape/extensions/psd_import/p2s_gradient.py:146-156 | the sorted distinct locations do not depend on the sort and are exactly the location map's keys |
| SvgGradient.LocationCount | inkscape/.config/inkscape/extensions/psd_import/p2s_gradient.py:230 | there is one location per distinct location of either list, and none exactly when both lists are empty |
| SvgGradient.PositionOrder | inkscape/.config/inkscape/extensions/psd_import/p2s_gradient.py:234-236 | the minimum maps to 0 and the maximum to 1; positions keep the order and stay in [0, 1] |
| SvgGradient.StopAt | inkscape/.config/inkscape/extensions/psd_import/p2s_gradient.py:240-251 | a built stop sits at its normalised position; its colour is the colour found at the location and its opacity the opacity found there, both blended over the base when there is one (then opaque) and taken as found when there is none; with both lists non-empty it fails with DivisionByZero exactly when min = max |
| SvgGradient.StopsFromColors | inkscape/.config/inkscape/extensions/psd_import/p2s_gradient.py:240-251 | in a successful run, the stop at index k carries the colour and opacity found at location k, blended over the base |
| SvgGradient.StopsFromOffsets | inkscape/.config/inkscape/extensions/psd_import/p2s_gradient.py:240-251 | one stop per location, in order, each at its position |
| SvgGradient.StopsFromFails | inkscape/.config/inkscape/extensions/psd_import/p2s_gradient.py:230-251 | with both lists non-empty, the stops fail with DivisionByZero exactly when min = max and succeed otherwise |
| SvgGradient.MissingKind | inkscape/.config/inkscape/extensions/psd_import/p2s_gradient.py:183-186 | an empty colour or opacity list fails with IndexOutOfRange |
| SvgGradient.StopsOfContext | inkscape/.config/inkscape/extensions/psd_import/p2s_gradient.py:143-253 | the stops come from the sorted lists, their location map and the sorted distinct locations; with no locations it fails with IndexOutOfRange |
| SvgGradient.StopsOf | inkscape/.config/inkscape/extensions/psd_import/p2s_gradient.py:143-253 | the stop lists sorted, the location map, the sorted distinct locations, one stop per location; no locations gives IndexOutOfRange (stated by StopsErrors, StopsShape and PlacedStops) |
| SvgGradient.StopsErrors | inkscape/.config/inkscape/extensions/psd_import/p2s_gradient.py:143-253 | the stops are built exactly when both lists are non-empty with at least two distinct locations; otherwise IndexOutOfRange for an empty list and DivisionByZero for a single location |
| SvgGradient.PlacedStops | inkscape/.config/inkscape/extensions/psd_import/p2s_gradient.py:234-236 | stops at the normalised positions of increasing locations run from 0 to 1, strictly increasing |
| SvgGradient.StopsShape | inkscape/.config/inkscape/extensions/psd_import/p2s_gradient.py:143-253 | one stop per distinct location in ascending order, the first at 0 and the last at 1, strictly increasing, all opaque over a base colour; the k-th stop carries the colour and opacity that the sorted lists and their location map give at the k-th location, blended over the base |
| SvgGradient.StopsColors | inkscape/.config/inkscape/extensions/psd_import/p2s_gradient.py:234-253 | the k-th merged stop carries the colour and opacity that the sorted lists and their location map give at the k-th distinct location, blended over the base |
| SvgGradient.ConstructGradientStops | inkscape/.config/inkscape/extensions/psd_import/p2s_gradient.py:143-253 | the sorting, map building and stop loop agree with StopsOf, whose colours are mixed as the source mixes them |
| SvgGradientItem.MinReach | inkscape/.config/inkscape/extensions/psd_import/p2s_gradient.py:45 | `min(abs(fx), abs(fy))` is one of them and no larger than either, with an infinite reach ignored |
| SvgGradientItem.GradientPoints | inkscape/.config/inkscape/extensions/psd_import/p2s_gradient.py:29-58 | the two end points, f along the direction either side of the box's middle, f the smaller finite reach times the scale (stated by PointsSymmetric and MinReachWithin) |
| SvgGradientItem.PointsSymmetric | inkscape/.config/inkscape/extensions/psd_import/p2s_gradient.py:29-58 | the two end points are symmetric about the box's middle, each f along the direction from it, with f >= 0 for a non-negative scale |
| SvgGradientItem.MinReachWithin | inkscape/.config/inkscape/extensions/psd_import/p2s_gradient.py:42-45 | at scale 1 the end points stay within the box's half extents along each axis |
| SvgGradientItem.GradientOffset | inkscape/.config/inkscape/extensions/psd_import/p2s_gradient.py:60-69 | the offset succeeds exactly when both units are `#Prc`, and fails with UnsupportedGradient otherwise |
| SvgGradientItem.OffsetScale | inkscape/.config/inkscape/extensions/psd_import/p2s_gradient.py:65-67 | 0% is no offset, 100% the full width and height, and the offset is additive in the percentages |
| SvgGradientItem.Reverse | inkscape/.config/inkscape/extensions/psd_import/p2s_gradient.py:92 | element i of the reversal is element n - 1 - i |
| SvgGradientItem.ReversedAt | inkscape/.config/inkscape/extensions/psd_import/p2s_gradient.py:91-95 | reversed stops are in the opposite order with each offset o replaced by 1 - o |
| SvgGradientItem.ReversedTwice | inkscape/.config/inkscape/extensions/psd_import/p2s_gradient.py:91-95 | reversing twice gives the stops back |
| SvgGradientItem.ReversedSpans | inkscape/.config/inkscape/extensions/psd_import/p2s_gradient.py:91-95 | a reversed stop list still runs from 0 to 1, strictly increasing, with the colours and opacities in the opposite order |
| SvgGradientItem.ReverseStops | inkscape/.config/inkscape/extensions/psd_import/p2s_gradient.py:91-95 | the in-place reversal and offset loop agree with ReversedStops |
| SvgGradientItem.RadialRadius | inkscape/.config/inkscape/extensions/psd_import/p2s_gradient.py:123-130 | the corrected squared radius is the centre's squared distance to either end point, both moved by the offset |
| SvgGradientItem.RadialAsWrittenOffset | inkscape/.config/inkscape/extensions/psd_import/p2s_gradient.py:123-130 | the radius as written differs from the corrected one by the offset's terms, and agrees with it when there is no offset |
| SvgGradientItem.RadialAsWritten | inkscape/.config/inkscape/extensions/psd_import/p2s_gradient.py:123-130 | the squared radius as the source computes it, from the offset centre to the first end point without the offset |
| SvgGradientItem.RadialAsWrittenExample | inkscape/.config/inkscape/extensions/psd_import/p2s_gradient.py:123-130 | for end points (0,50), (100,50) and offset (50,0) the squared radius as written is 10000 and the intended one 2500 |
| SvgGradientItem.Acceptance | inkscape/.config/inkscape/extensions/psd_import/p2s_gradient.py:75-139 | a gradient is built exactly when Algn is true, the angle unit is `#Ang`, the opacity unit is `#Prc`, the opacity is 100 or a base is given, the mode is `BlnM`/`Nrml`, the scale unit is `#Prc`, the type is `GrdT` `Lnr ` or `Rdl `, the offset units are `#Prc` and the stops are built. A failing stop list gives its own error; anything else gives UnsupportedGradient |
| SvgGradientItem.GradientWith | inkscape/.config/inkscape/extensions/psd_import/p2s_gradient.py:71-141 | construct_gradient: the option checks in the source's order, the stops' outcome, the mode check, the reversal on `Rvrs`, then Dispatch (stated by Acceptance and GradientShape) |
| SvgGradientItem.Dispatch | inkscape/.config/inkscape/extensions/psd_import/p2s_gradient.py:97-139 | the scale and type checks, the end points, the offset, then ItemOf (stated by DispatchKind, DispatchLinear and DispatchRadial) |
| SvgGradientItem.ItemOf | inkscape/.config/inkscape/extensions/psd_import/p2s_gradient.py:103-139 | `Lnr ` gives the end points moved by the offset, `Rdl ` the middle moved by the offset with RadialAsWritten as its squared radius, and any other type UnsupportedGradient |
| SvgGradientItem.GradientDispatch | inkscape/.config/inkscape/extensions/psd_import/p2s_gradient.py:86-95 | an accepted gradient's stops are the built ones, reversed when Rvrs is set |
| SvgGradientItem.DispatchKind | inkscape/.config/inkscape/extensions/psd_import/p2s_gradient.py:97-139 | the gradient carries the given stops and is linear exactly for type `Lnr ` |
| SvgGradientItem.DispatchLinear | inkscape/.config/inkscape/extensions/psd_import/p2s_gradient.py:103-110 | a linear gradient's end points are the computed points plus the offset |
| SvgGradientItem.DispatchRadial | inkscape/.config/inkscape/extensions/psd_import/p2s_gradient.py:119-130 | a radial gradient's centre is the box's middle plus the offset, and its squared radius is the squared distance from that centre to the unmoved first end point, that is |(p2 - middle) + offset|^2 |
| SvgGradientItem.GradientShape | inkscape/.config/inkscape/extensions/psd_import/p2s_gradient.py:71-141 | an accepted gradient has the (possibly reversed) stops, is linear exactly for `Lnr `, and has the end points, the centre and the as-written radius of DispatchLinear and DispatchRadial |
| SvgGradientItem.StopsSpan | inkscape/.config/inkscape/extensions/psd_import/p2s_gradient.py:143-253 | built stops run from 0 to 1, strictly increasing |
| SvgGradientItem.GradientStopsSpan | inkscape/.config/inkscape/extensions/psd_import/p2s_gradient.py:71-141 | a gradient's stops still run from 0 to 1, reversed or not |
| SvgGradientItem.ConstructGradient | inkscape/.config/inkscape/extensions/psd_import/p2s_gradient.py:71-141 | the checks, stop construction, in-place reversal and dispatch agree with the gradient function on the stops StopsOf builds, colours and radius as the source computes them |
| SvgGradientItem.PlaceGradient | inkscape/.config/inkscape/extensions/psd_import/p2s_gradient.py:97-139 | the scale and type checks, end points, offset and as-written radius agree with Dispatch |

## Left out

- Binary.BinaryReader.ReadRaw: a short read fails with EndOfStream, where the stream would return fewer bytes and a later `struct.unpack` or comparison would fail. A negative size fails with NegativeRead, where `read(-n)` would read to the end of the stream while `pos` moves back.
- Binary.BinaryReader.Skip: requires that the new position is not negative, since the stream's `seek` fails there. Every caller in the model meets this: skips are forward, and `SkipTo` targets a `nat`. Skipping past the end is allowed, as in the source.
- Binary.DoubleAt: a double is the opaque 8-byte payload. IEEE-754 decoding is floating point and is not modelled.
- PsdPrimitive.UnicodeAt: the string is the sequence of code units. The refusal of a negative unit by `unichr` is modelled, but the conversion of the accepted units to text is left out.
- Text formatting with `%f` of points, offsets and opacities is not modelled. Coordinates and stop values stay `real`, so the rounding to six decimals that the reversal reads back is absent.
- SvgGradientItem.GradientWith: trigonometry and the square root are left out.
  - The direction `(cos θ, -sin θ)` of the angle is a parameter `dir`, required to be non-zero, as a unit vector is.
  - The radial radius is kept squared.
- SvgGradientItem.MinReachWithin: stated for scale 1 on MinReach; the Python `float('inf')` for a zero component is `None`.
- The lxml elements (`<path>`, `<mask>`, `<linearGradient>`, `<radialGradient>`, `<stop>`) are datatypes holding the attributes the code sets. A path's `d` is a list of segments, and a stop is a record of offset, colour and opacity.
- `construct_gradient` in the source takes a descriptor dictionary. The model takes a typed record (`GradientDesc`) that holds the entries it reads. A missing entry (`KeyError`) is therefore not modelled.
- The descriptor and layer dictionaries are datatypes. The additional-info dictionary that the reader mutates is an `InfoTable` object holding a value map and an optional unknown-key set. That set appears only when the first unknown key is seen.
- The assertion messages are not modelled. Every failed assertion becomes one `Error` value:
  - `construct_gradient`'s checks, including the unknown-type branch, all become UnsupportedGradient;
  - the fill-rule `assert`s of `build_path_from_data` become CombineModeConflict;
  - the unknown-mode branch (`%d % None` raises a `TypeError` when the mode is missing) becomes UnknownCombineMode.
- The `assert False, 'unreachable code'` after the colour and opacity searches is not modelled. The searches are proved to find their bracket, so that branch cannot be reached.
- `dump`, `dump_hex` and the `stderr` output of `read_psd`'s exception handler are I/O. Only the propagation of the failure is kept.
- Pixel and channel image data, the colour-mode data, the image resources, the global layer mask, and the mask and blending-range data of a layer are skipped, as in the source, and are not decoded.

## Findings

| source | as written | input that shows it | evidently intended | confidence | as-written member | corrected member |
|---|---|---|---|---|---|---|
| inkscape/.config/inkscape/extensions/psd_import/p2s_gradient.py:193-197 | the colour between two stops gives weight `(l - lo)/len` to the lower stop's colour and `(hi - l)/len` to the upper one's | colour stops black at 0 and white at 100, location 25: the red channel is 191.25 | each colour weighted by its nearness, as the opacity code does: 63.75 | not executed | SvgGradient.MixAsWritten | SvgGradient.Mix |
| inkscape/.config/inkscape/extensions/psd_import/p2s_gradient.py:123-130 | the radial radius is measured from the offset centre to the first end point without the offset | end points (0, 50) and (100, 50), offset (50, 0): the squared radius is 10000 | half the distance between the end points, which the offset does not change: 2500 | not executed | SvgGradientItem.RadialAsWritten | SvgGradientItem.RadialRadius |
| inkscape/.config/inkscape/extensions/psd_import/psd_primitive.py:29 | each code unit is read with the signed `read_int(2)` and handed to `unichr`, which refuses a negative argument | the one-unit string U+AC00, bytes 00 00 00 01 AC 00: the unit reads as -21504 and the string fails | the unsigned `read_uint(2)`, which reads 0xAC00 | not executed | PsdPrimitive.CodeUnitRefusedExample | PsdPrimitive.UnsignedUnits |

All three rows have proofs. For the colours, `MixAsWrittenSwapped` proves that the
formula as written is the intended one with the colours exchanged, and
`MixAsWrittenExample` gives the numbers. For the radius,
`RadialAsWrittenOffset` gives the difference in closed form, and
`RadialAsWrittenExample` gives the numbers. For the code units,
`CodeUnitSign` proves that every unit at or above 0x8000 reads negative,
`UnitsRefused` that such a unit fails the string, and
`CodeUnitRefusedExample` gives the bytes. The rest of the model computes
what the source computes: the colour search uses `MixAsWritten`, the
radial gradient `RadialAsWritten`, and the Unicode reader refuses negative
units. `Mix`, `RadialRadius` and `UnsignedUnits` are the corrected
definitions, with their intended properties proved beside them.
