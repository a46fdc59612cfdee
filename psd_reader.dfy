/** The document driver (psdreader.py): the 26-byte file header, the two
    skipped sections, and the layer-and-mask section with its layer records
    and additional-info blocks, read in file order from position 0. */
module PsdReader {
  import opened Base
  import opened Binary
  import opened PsdPrimitive
  import opened PsdAdditional

  const SIG_8BPS: seq<Byte> := [0x38, 0x42, 0x50, 0x53]  // "8BPS"

  /** The document's 'dimensions' dictionary. */
  datatype Dimensions = Dimensions(width: int, height: int)

  /** What read_header stores; the channel count, depth and colour mode it
      reads are discarded. */
  datatype FileHeader = FileHeader(bounds: Rect, dimensions: Dimensions)

  /** One entry of a layer's channel list. */
  datatype Channel = Channel(id: int, length: int)

  /** A layer record. The blend mode is read but not kept. */
  datatype Layer = Layer(
    bounds: Rect,
    channels: seq<Channel>,
    opacity: nat,
    clipping: nat,
    flags: nat,
    name: seq<Byte>,
    extra: Info)

  /** The decoded document: the psd dictionary. */
  datatype Psd = Psd(bounds: Rect, dimensions: Dimensions, layers: seq<Layer>, extra: Info)

  /** The additional-info dictionary a loop starts from. */
  const EMPTY_INFO := Info(map[], None)

  /** One byte read unsigned is that byte. */
  lemma OneByte(bs: seq<Byte>)
    requires |bs| == 1
    ensures BigEndian(bs) == bs[0]
  {
    assert bs[..0] == [];
  }

  // ---------------------------------------------------------------------------
  // The file header.

  /** The first twelve bytes of the header: the signature, the version and
      the two must-be-zero fields, each checked in turn. */
  function HeaderChecksAt(data: seq<Byte>, pos: nat): (r: Result<Parsed<()>>)
    ensures r.Success? ==> r.value.next == pos + 12
  {
    var sig :- RawAt(data, pos, 4);
    if sig.value != SIG_8BPS then Failure(BadSignature)
    else
      var version :- IntAt(data, sig.next, 2);
      if version.value != 1 then Failure(BadVersion)
      else
        var reserved2 :- IntAt(data, version.next, 2);
        if reserved2.value != 0 then Failure(NonZeroReserved)
        else
          var reserved4 :- IntAt(data, reserved2.next, 4);
          if reserved4.value != 0 then Failure(NonZeroReserved)
          else Success(Parsed((), reserved4.next))
  }

  /** read_header(): the checked fields, then channel count, height, width,
      depth and colour mode; the document bounds span (0, 0) to
      (height, width). */
  function FileHeaderAt(data: seq<Byte>, pos: nat): (r: Result<Parsed<FileHeader>>)
    ensures r.Success? ==> r.value.next == pos + 26
  {
    var checked :- HeaderChecksAt(data, pos);
    var channels :- IntAt(data, checked.next, 2);
    var height :- IntAt(data, channels.next, 4);
    var width :- IntAt(data, height.next, 4);
    var depth :- IntAt(data, width.next, 2);
    var mode :- IntAt(data, depth.next, 2);
    Success(Parsed(
      FileHeader(Rect(0, 0, height.value, width.value), Dimensions(width.value, height.value)),
      mode.next))
  }

  /** The header is accepted exactly when its 26 bytes are present, the
      signature is "8BPS", the version 1 and both reserved fields 0; it then
      takes exactly 26 bytes, and the bounds and dimensions come from the
      height and width fields. */
  lemma HeaderAccepted(data: seq<Byte>, pos: nat)
    ensures FileHeaderAt(data, pos).Success? <==>
      && pos + 26 <= |data|
      && data[pos..pos + 4] == SIG_8BPS
      && Signed(data[pos + 4..pos + 6]) == 1
      && Signed(data[pos + 6..pos + 8]) == 0
      && Signed(data[pos + 8..pos + 12]) == 0
    ensures FileHeaderAt(data, pos).Success? ==>
      var height := Signed(data[pos + 14..pos + 18]);
      var width := Signed(data[pos + 18..pos + 22]);
      && FileHeaderAt(data, pos).value.next == pos + 26
      && FileHeaderAt(data, pos).value.value.bounds == Rect(0, 0, height, width)
      && FileHeaderAt(data, pos).value.value.dimensions == Dimensions(width, height)
  {
  }

  /** Which check rejects a header: the first one that fails, in file order. */
  lemma HeaderRejected(data: seq<Byte>, pos: nat)
    requires pos + 26 <= |data|
    ensures data[pos..pos + 4] != SIG_8BPS ==> FileHeaderAt(data, pos) == Failure(BadSignature)
    ensures data[pos..pos + 4] == SIG_8BPS && Signed(data[pos + 4..pos + 6]) != 1 ==>
      FileHeaderAt(data, pos) == Failure(BadVersion)
    ensures
      (&& data[pos..pos + 4] == SIG_8BPS
       && Signed(data[pos + 4..pos + 6]) == 1
       && (Signed(data[pos + 6..pos + 8]) != 0 || Signed(data[pos + 8..pos + 12]) != 0)) ==>
      FileHeaderAt(data, pos) == Failure(NonZeroReserved)
  {
  }

  // ---------------------------------------------------------------------------
  // Layer records.

  /** Four signed 4-byte coordinates in the order top, left, bottom, right. */
  function RectAt(data: seq<Byte>, pos: nat): (r: Result<Parsed<Rect>>)
    ensures r.Success? <==> pos + 16 <= |data|
    ensures r.Success? ==>
      && r.value.next == pos + 16
      && r.value.value == Rect(
           Signed(data[pos..pos + 4]), Signed(data[pos + 4..pos + 8]),
           Signed(data[pos + 8..pos + 12]), Signed(data[pos + 12..pos + 16]))
  {
    var top :- IntAt(data, pos, 4);
    var left :- IntAt(data, top.next, 4);
    var bottom :- IntAt(data, left.next, 4);
    var right :- IntAt(data, bottom.next, 4);
    Success(Parsed(Rect(top.value, left.value, bottom.value, right.value), right.next))
  }

  /** A channel entry: a signed 2-byte id, then a signed 4-byte length. */
  function ChannelAt(data: seq<Byte>, pos: nat): (r: Result<Parsed<Channel>>)
    ensures r.Success? <==> pos + 6 <= |data|
    ensures r.Success? ==>
      r.value == Parsed(Channel(Signed(data[pos..pos + 2]), Signed(data[pos + 2..pos + 6])), pos + 6)
  {
    var id :- IntAt(data, pos, 2);
    var length :- IntAt(data, id.next, 4);
    Success(Parsed(Channel(id.value, length.value), length.next))
  }

  /** A channel entry as a reader of one value from a position. */
  function ChannelReader(data: seq<Byte>): nat -> Result<Parsed<Channel>> {
    (p: nat) => ChannelAt(data, p)
  }

  /** The n channel entries of a layer, in wire order. */
  function ChannelsAt(data: seq<Byte>, pos: nat, n: nat): (r: Result<Parsed<seq<Channel>>>)
    ensures r.Success? ==> |r.value.value| == n
  {
    RepeatAt(ChannelReader(data), pos, n)
  }

  /** The channel list is read exactly when its 6n bytes are present (an
      empty list reads nothing); it then holds n entries, the i-th decoded
      from bytes 6i to 6i + 6. */
  lemma {:induction false} ChannelsLayout(data: seq<Byte>, pos: nat, n: nat)
    ensures ChannelsAt(data, pos, n).Success? <==> n == 0 || pos + 6 * n <= |data|
    ensures ChannelsAt(data, pos, n).Success? ==>
      var cs := ChannelsAt(data, pos, n).value;
      && cs.next == pos + 6 * n
      && |cs.value| == n
      && forall i | 0 <= i < n ::
           cs.value[i] == Channel(Signed(data[pos + 6 * i..pos + 6 * i + 2]), Signed(data[pos + 6 * i + 2..pos + 6 * i + 6]))
    decreases n
  {
    if n > 0 && pos + 6 <= |data| {
      ChannelsLayout(data, pos + 6, n - 1);
      var rest := ChannelsAt(data, pos + 6, n - 1);
      if rest.Success? {
        var cs := ChannelsAt(data, pos, n).value;
        forall i | 0 <= i < n
          ensures cs.value[i] == Channel(Signed(data[pos + 6 * i..pos + 6 * i + 2]), Signed(data[pos + 6 * i + 2..pos + 6 * i + 6]))
        {
          if i > 0 {
            assert cs.value[i] == rest.value.value[i - 1];
            assert pos + 6 + 6 * (i - 1) == pos + 6 * i;
          }
        }
      }
    }
  }

  /** What a layer record holds between its channel list and its extra-data
      section: opacity, clipping and flags. */
  datatype Blending = Blending(opacity: nat, clipping: nat, flags: nat)

  /** The "8BIM" signature, the blend mode (read and discarded), opacity,
      clipping and flags as unsigned bytes, and one skipped filler byte. */
  function BlendingAt(data: seq<Byte>, pos: nat): (r: Result<Parsed<Blending>>)
  {
    var sig :- RawAt(data, pos, 4);
    if sig.value != SIG_8BIM then Failure(BadSignature)
    else
      var blendMode :- RawAt(data, sig.next, 4);
      var opacity :- UintAt(data, blendMode.next, 1);
      var clipping :- UintAt(data, opacity.next, 1);
      var flags :- UintAt(data, clipping.next, 1);
      Success(Parsed(Blending(opacity.value, clipping.value, flags.value), flags.next + 1))
  }

  /** The blending fields need "8BIM" and eleven bytes (the filler byte is
      skipped, never read); they take twelve bytes, and opacity, clipping and
      flags are the 9th, 10th and 11th bytes. */
  lemma BlendingLayout(data: seq<Byte>, pos: nat)
    ensures BlendingAt(data, pos).Success? <==> pos + 11 <= |data| && data[pos..pos + 4] == SIG_8BIM
    ensures BlendingAt(data, pos).Success? ==>
      BlendingAt(data, pos).value == Parsed(Blending(data[pos + 8], data[pos + 9], data[pos + 10]), pos + 12)
    ensures pos + 4 <= |data| && data[pos..pos + 4] != SIG_8BIM ==> BlendingAt(data, pos) == Failure(BadSignature)
  {
    if pos + 11 <= |data| {
      OneByte(data[pos + 8..pos + 9]);
      OneByte(data[pos + 9..pos + 10]);
      OneByte(data[pos + 10..pos + 11]);
    }
  }

  /** The head of a layer record: bounds, an unsigned 2-byte channel count,
      the channel list and the blending fields. */
  datatype LayerHead = LayerHead(bounds: Rect, channels: seq<Channel>, blending: Blending)

  function LayerHeadAt(data: seq<Byte>, pos: nat): (r: Result<Parsed<LayerHead>>)
  {
    var bounds :- RectAt(data, pos);
    var count :- UintAt(data, bounds.next, 2);
    var channels :- ChannelsAt(data, count.next, count.value);
    var blending :- BlendingAt(data, channels.next);
    Success(Parsed(LayerHead(bounds.value, channels.value, blending.value), blending.next))
  }

  /** A layer head's bounds are its first sixteen bytes in the order top,
      left, bottom, right; its channel list holds the unsigned count at bytes
      16-17 of entries; "8BIM" follows the list, and opacity, clipping and
      flags are the 9th to 11th bytes after it. */
  lemma LayerHeadLayout(data: seq<Byte>, pos: nat)
    requires LayerHeadAt(data, pos).Success?
    ensures pos + 18 <= |data|
    ensures
      var count := BigEndian(data[pos + 16..pos + 18]);
      var q := pos + 18 + 6 * count;
      var head := LayerHeadAt(data, pos).value;
      && head.value.bounds == Rect(
           Signed(data[pos..pos + 4]), Signed(data[pos + 4..pos + 8]),
           Signed(data[pos + 8..pos + 12]), Signed(data[pos + 12..pos + 16]))
      && |head.value.channels| == count
      && q + 11 <= |data|
      && data[q..q + 4] == SIG_8BIM
      && head.value.blending == Blending(data[q + 8], data[q + 9], data[q + 10])
      && head.next == q + 12
  {
    assert RectAt(data, pos).value.next == pos + 16;
    var count := BigEndian(data[pos + 16..pos + 18]);
    assert UintAt(data, pos + 16, 2).value == Parsed(count, pos + 18);
    ChannelsLayout(data, pos + 18, count);
    assert ChannelsAt(data, pos + 18, count).value.next == pos + 18 + 6 * count;
    BlendingLayout(data, pos + 18 + 6 * count);
  }

  /** The extra-data section of a layer record: its end position, the mask
      and blending-range sections (skipped), the Pascal name padded to 4,
      then additional-info blocks while the position is before the end. */
  function LayerExtraAt(data: seq<Byte>, pos: nat): (r: Result<Parsed<(seq<Byte>, Info)>>)
    ensures r.Success? ==> pos + 4 <= |data| && pos + 4 + BigEndian(data[pos..pos + 4]) <= r.value.next
  {
    var end :- SectionEndAt(data, pos);
    var mask :- SkipSectionAt(data, end.next, None);
    var ranges :- SkipSectionAt(data, mask.next, None);
    var name :- PascalStringAt(data, ranges.next, Some(4));
    var extra :- InfoLoopAt(data, name.next, end.value, EMPTY_INFO);
    Success(Parsed((name.value, extra.value), extra.next))
  }

  /** read_layer_record(). The reader is not moved to the extra-data
      section's end afterwards. */
  function LayerRecordAt(data: seq<Byte>, pos: nat): (r: Result<Parsed<Layer>>)
  {
    var head :- LayerHeadAt(data, pos);
    var extra :- LayerExtraAt(data, head.next);
    var h := head.value;
    Success(Parsed(
      Layer(h.bounds, h.channels, h.blending.opacity, h.blending.clipping, h.blending.flags, extra.value.0, extra.value.1),
      extra.next))
  }

  /** read_layer_record() as a reader of one value from a position. */
  function LayerReader(data: seq<Byte>): nat -> Result<Parsed<Layer>> {
    (p: nat) => LayerRecordAt(data, p)
  }

  /** The n layer records of the layer-info section, in order. */
  function LayersAt(data: seq<Byte>, pos: nat, n: nat): (r: Result<Parsed<seq<Layer>>>)
    ensures r.Success? ==> |r.value.value| == n
  {
    RepeatAt(LayerReader(data), pos, n)
  }

  /** read_layer_info(): the section end, a signed 2-byte count whose absolute
      value is the number of layer records, the records, then on to the end. */
  function LayerInfoAt(data: seq<Byte>, pos: nat): (r: Result<Parsed<seq<Layer>>>)
    ensures r.Success? ==>
      && pos + 6 <= |data|
      && |r.value.value| == Abs(Signed(data[pos + 4..pos + 6]))
      && r.value.next == pos + 4 + BigEndian(data[pos..pos + 4])
  {
    var end :- SectionEndAt(data, pos);
    var count :- IntAt(data, end.next, 2);
    var layers :- LayersAt(data, count.next, Abs(count.value));
    Success(Parsed(layers.value, end.value))
  }

  /** read_layer_and_mask_info(): the section end, the layer info, the global
      layer mask info (skipped), additional-info blocks while the position is
      before the end, then on to the end. */
  function LayerAndMaskAt(data: seq<Byte>, pos: nat): (r: Result<Parsed<(seq<Layer>, Info)>>)
    ensures r.Success? ==> pos + 4 <= |data| && r.value.next == pos + 4 + BigEndian(data[pos..pos + 4])
  {
    var end :- SectionEndAt(data, pos);
    var layers :- LayerInfoAt(data, end.next);
    var globalMask :- SkipSectionAt(data, layers.next, None);
    var extra :- InfoLoopAt(data, globalMask.next, end.value, EMPTY_INFO);
    Success(Parsed((layers.value, extra.value), end.value))
  }

  /** read_psd(): from the start of the file, the header, the colour-mode data
      and the image resources (both skipped), then the layer-and-mask info.
      Any failure aborts the whole decode. */
  function PsdAt(data: seq<Byte>): (r: Result<Parsed<Psd>>)
  {
    var header :- FileHeaderAt(data, 0);
    var colourMode :- SkipSectionAt(data, header.next, None);
    var resources :- SkipSectionAt(data, colourMode.next, None);
    var layerAndMask :- LayerAndMaskAt(data, resources.next);
    var h := header.value;
    Success(Parsed(Psd(h.bounds, h.dimensions, layerAndMask.value.0, layerAndMask.value.1), layerAndMask.next))
  }

  /** A rejected header is the decode's error: nothing after it is read. */
  lemma PsdHeaderFirst(data: seq<Byte>)
    requires FileHeaderAt(data, 0).Failure?
    ensures PsdAt(data) == Failure(FileHeaderAt(data, 0).error)
  {
  }

  /** The document's bounds and dimensions are those of its header. */
  lemma PsdHeaderFields(data: seq<Byte>)
    requires PsdAt(data).Success?
    ensures FileHeaderAt(data, 0).Success?
    ensures PsdAt(data).value.value.bounds == FileHeaderAt(data, 0).value.value.bounds
    ensures PsdAt(data).value.value.dimensions == FileHeaderAt(data, 0).value.value.dimensions
  {
  }

  /** The steps run in file order: after the 26-byte header the colour-mode
      section starts at byte 26, the image resources just after it, and the
      layer-and-mask info at `layerAndMask`, just after them; that last step
      decides the outcome, its failure being the decode's failure and its
      layers and extra blocks being the document's. */
  lemma PsdSections(data: seq<Byte>, resources: nat, layerAndMask: nat)
    requires FileHeaderAt(data, 0).Success?
    requires 30 <= |data| && resources == 30 + BigEndian(data[26..30])
    requires resources + 4 <= |data| && layerAndMask == resources + 4 + BigEndian(data[resources..resources + 4])
    ensures PsdAt(data).Success? <==> LayerAndMaskAt(data, layerAndMask).Success?
    ensures PsdAt(data).Failure? ==> PsdAt(data).error == LayerAndMaskAt(data, layerAndMask).error
    ensures PsdAt(data).Success? ==>
      (PsdAt(data).value.value.layers, PsdAt(data).value.value.extra) == LayerAndMaskAt(data, layerAndMask).value.value
  {
    assert FileHeaderAt(data, 0).value.next == 26;
    assert SkipSectionAt(data, 26, None).value.next == resources;
    assert SkipSectionAt(data, resources, None).value.next == layerAndMask;
  }

  // ---------------------------------------------------------------------------
  // The reader methods.

  method ReadHeaderChecks(rd: BinaryReader) returns (r: Result<()>)
    modifies rd
    ensures Agrees(r, HeaderChecksAt(rd.data, old(rd.pos)), rd.pos)
  {
    var sig :- rd.ReadRaw(4);
    if sig != SIG_8BPS {
      return Failure(BadSignature);
    }
    var version :- rd.ReadInt(2);
    if version != 1 {
      return Failure(BadVersion);
    }
    var reserved2 :- rd.ReadInt(2);
    if reserved2 != 0 {
      return Failure(NonZeroReserved);
    }
    var reserved4 :- rd.ReadInt(4);
    if reserved4 != 0 {
      return Failure(NonZeroReserved);
    }
    r := Success(());
  }

  method ReadHeader(rd: BinaryReader) returns (r: Result<FileHeader>)
    modifies rd
    ensures Agrees(r, FileHeaderAt(rd.data, old(rd.pos)), rd.pos)
  {
    var _ :- ReadHeaderChecks(rd);
    var channels :- rd.ReadInt(2);
    var height :- rd.ReadInt(4);
    var width :- rd.ReadInt(4);
    var depth :- rd.ReadInt(2);
    var mode :- rd.ReadInt(2);
    r := Success(FileHeader(Rect(0, 0, height, width), Dimensions(width, height)));
  }

  method ReadRect(rd: BinaryReader) returns (r: Result<Rect>)
    modifies rd
    ensures Agrees(r, RectAt(rd.data, old(rd.pos)), rd.pos)
  {
    var top :- rd.ReadInt(4);
    var left :- rd.ReadInt(4);
    var bottom :- rd.ReadInt(4);
    var right :- rd.ReadInt(4);
    r := Success(Rect(top, left, bottom, right));
  }

  method ReadChannel(rd: BinaryReader) returns (r: Result<Channel>)
    modifies rd
    ensures Agrees(r, ChannelAt(rd.data, old(rd.pos)), rd.pos)
  {
    var id :- rd.ReadInt(2);
    var length :- rd.ReadInt(4);
    r := Success(Channel(id, length));
  }

  /** The channel loop of read_layer_record. */
  method ReadChannels(rd: BinaryReader, n: nat) returns (r: Result<seq<Channel>>)
    modifies rd
    ensures Agrees(r, ChannelsAt(rd.data, old(rd.pos), n), rd.pos)
  {
    ghost var start := rd.pos;
    var channels: seq<Channel> := [];
    var i := 0;
    while i < n
      invariant i <= n
      invariant RepeatAt(ChannelReader(rd.data), start, i) == Success(Parsed(channels, rd.pos))
    {
      ghost var p := rd.pos;
      var c := ReadChannel(rd);
      if c.Failure? {
        RepeatFailAfter(ChannelReader(rd.data), start, i, channels, p, c.error, n);
        return Failure(c.error);
      }
      RepeatSnoc(ChannelReader(rd.data), start, i, channels, p, c.value, rd.pos);
      channels := channels + [c.value];
      i := i + 1;
    }
    r := Success(channels);
  }

  method ReadBlending(rd: BinaryReader) returns (r: Result<Blending>)
    modifies rd
    ensures Agrees(r, BlendingAt(rd.data, old(rd.pos)), rd.pos)
  {
    var sig :- rd.ReadRaw(4);
    if sig != SIG_8BIM {
      return Failure(BadSignature);
    }
    var blendMode :- rd.ReadRaw(4);
    var opacity :- rd.ReadUint(1);
    var clipping :- rd.ReadUint(1);
    var flags :- rd.ReadUint(1);
    rd.Skip(1);
    r := Success(Blending(opacity, clipping, flags));
  }

  method ReadLayerHead(rd: BinaryReader) returns (r: Result<LayerHead>)
    modifies rd
    ensures Agrees(r, LayerHeadAt(rd.data, old(rd.pos)), rd.pos)
  {
    var bounds :- ReadRect(rd);
    var count :- rd.ReadUint(2);
    var channels :- ReadChannels(rd, count);
    var blending :- ReadBlending(rd);
    r := Success(LayerHead(bounds, channels, blending));
  }

  /** The extra-data part of read_layer_record; the layer's 'extra'
      dictionary is a fresh table filled in place by the block loop. */
  method ReadLayerExtra(rd: BinaryReader) returns (r: Result<(seq<Byte>, Info)>)
    modifies rd
    ensures Agrees(r, LayerExtraAt(rd.data, old(rd.pos)), rd.pos)
  {
    var end :- ReadSectionEnd(rd);
    var _ :- SkipSection(rd, None);
    var _ :- SkipSection(rd, None);
    var name :- ReadPsdString(rd, Some(4));
    var table := new InfoTable();
    var _ :- ReadInfoLoop(rd, end, table);
    r := Success((name, table.Contents()));
  }

  method ReadLayerRecord(rd: BinaryReader) returns (r: Result<Layer>)
    modifies rd
    ensures Agrees(r, LayerRecordAt(rd.data, old(rd.pos)), rd.pos)
  {
    var head :- ReadLayerHead(rd);
    var extra :- ReadLayerExtra(rd);
    r := Success(Layer(head.bounds, head.channels, head.blending.opacity, head.blending.clipping,
                       head.blending.flags, extra.0, extra.1));
  }

  /** The layer-record loop of read_layer_info. */
  method ReadLayers(rd: BinaryReader, n: nat) returns (r: Result<seq<Layer>>)
    modifies rd
    ensures Agrees(r, LayersAt(rd.data, old(rd.pos), n), rd.pos)
  {
    ghost var start := rd.pos;
    var layers: seq<Layer> := [];
    var i := 0;
    while i < n
      invariant i <= n
      invariant RepeatAt(LayerReader(rd.data), start, i) == Success(Parsed(layers, rd.pos))
    {
      ghost var p := rd.pos;
      var layer := ReadLayerRecord(rd);
      if layer.Failure? {
        RepeatFailAfter(LayerReader(rd.data), start, i, layers, p, layer.error, n);
        return Failure(layer.error);
      }
      RepeatSnoc(LayerReader(rd.data), start, i, layers, p, layer.value, rd.pos);
      layers := layers + [layer.value];
      i := i + 1;
    }
    r := Success(layers);
  }

  method ReadLayerInfo(rd: BinaryReader) returns (r: Result<seq<Layer>>)
    modifies rd
    ensures Agrees(r, LayerInfoAt(rd.data, old(rd.pos)), rd.pos)
  {
    var end :- ReadSectionEnd(rd);
    var count :- rd.ReadInt(2);
    var layers :- ReadLayers(rd, Abs(count));
    rd.SkipTo(end);
    r := Success(layers);
  }

  /** read_layer_and_mask_info(); the document-level 'extra' dictionary is a
      fresh table filled in place by the block loop. */
  method ReadLayerAndMaskInfo(rd: BinaryReader) returns (r: Result<(seq<Layer>, Info)>)
    modifies rd
    ensures Agrees(r, LayerAndMaskAt(rd.data, old(rd.pos)), rd.pos)
  {
    var end :- ReadSectionEnd(rd);
    var layers :- ReadLayerInfo(rd);
    var _ :- SkipSection(rd, None);
    var table := new InfoTable();
    var _ :- ReadInfoLoop(rd, end, table);
    rd.SkipTo(end);
    r := Success((layers, table.Contents()));
  }

  /** read_psd() on a fresh reader over the whole file. */
  method ReadPsd(rd: BinaryReader) returns (r: Result<Psd>)
    requires rd.pos == 0
    modifies rd
    ensures Agrees(r, PsdAt(rd.data), rd.pos)
  {
    var header :- ReadHeader(rd);
    var _ :- SkipSection(rd, None);
    var _ :- SkipSection(rd, None);
    var layerAndMask :- ReadLayerAndMaskInfo(rd);
    r := Success(Psd(header.bounds, header.dimensions, layerAndMask.0, layerAndMask.1));
  }
}
