/**
 * The write side's layer dispatch: inferring one header per layer, pairing
 * every layer with its header to build the writers, and routing a block to
 * the writer of its layer.
 *
 * The channel data of a layer is an abstract value `C`; what it contributes
 * (its channel list, its level mode, the channel writer it creates for a
 * header and the bytes that writer extracts for a block) comes in as
 * functions. Panics are modelled as values so that the cases in which the
 * source panics can be stated.
 */
module WriteLayers {
  import opened Meta

  /** `image::Blocks`: how the caller asks for the layer to be cut. */
  datatype ImageBlocks = ImageScanLines | ImageTiles(tileSize: Vec2, roundingMode: RoundingMode)

  /** `image::Encoding`. */
  datatype Encoding = Encoding(compression: Compression, blocks: ImageBlocks, lineOrder: LineOrder)

  /** `image::Layer<C>`. */
  datatype Layer<C> = Layer(channelData: C, attributes: seq<Attribute>, size: Vec2, encoding: Encoding)

  /** What the channel data of a layer supplies to the layer code. */
  datatype ChannelsOps<!C, !W> = ChannelsOps(
    inferChannelList: C -> ChannelList,
    levelMode: C -> LevelMode,
    createWriter: (C, Header) -> W,
    extract: (W, Header, BlockIndex) -> seq<Byte>)

  /** `LayerWriter<C>`: the channel writer of one layer. */
  datatype LayerWriter<W> = LayerWriter(channels: W)

  /** `AllLayersWriter<C>`: one layer writer per layer, in layer order. */
  datatype AllLayersWriter<W> = AllLayersWriter(layers: seq<LayerWriter<W>>)

  /** Why a call panics. */
  datatype PanicReason = IndexOutOfBounds | SliceOutOfRange | UnwrapNone

  /** A call that returns a value or panics. */
  datatype Outcome<T> = Done(value: T) | Panic(reason: PanicReason)

  /** The header's description of the block layout, as `Layer::infer_headers` writes it. */
  function HeaderBlocks<C, W>(ops: ChannelsOps<C, W>, layer: Layer<C>): (b: Blocks)
    ensures b.ScanLines? <==> layer.encoding.blocks.ImageScanLines?
    ensures b.Tiles? ==>
      && layer.encoding.blocks == ImageTiles(b.description.tileSize, b.description.roundingMode)
      && b.description.levelMode == ops.levelMode(layer.channelData)
  {
    match layer.encoding.blocks
    case ImageScanLines => ScanLines
    case ImageTiles(tileSize, roundingMode) =>
      Tiles(TileDescription(tileSize, ops.levelMode(layer.channelData), roundingMode))
  }

  /**
   * `Layer::infer_headers`: exactly one header, which carries the layer's
   * channel list, encoding, size and attributes, the image's attributes as
   * shared attributes, and no deep data.
   */
  function LayerInferHeaders<C, W>(ops: ChannelsOps<C, W>, layer: Layer<C>, imageAttributes: seq<Attribute>)
    : (headers: seq<Header>)
    ensures |headers| == 1
    ensures var h := headers[0];
      && h.channels == ops.inferChannelList(layer.channelData)
      && h.layerSize == layer.size
      && h.sharedAttributes == imageAttributes
      && h.ownAttributes == layer.attributes
      && !h.deep && h.deepDataVersion == None && h.chunkCount == 0 && h.maxSamplesPerPixel == None
  {
    [Header(
      ops.inferChannelList(layer.channelData),
      layer.encoding.compression,
      HeaderBlocks(ops, layer),
      layer.encoding.lineOrder,
      layer.size,
      imageAttributes,
      layer.attributes,
      false,
      None,
      0,
      None)]
  }

  /** The caller's encoding, read back from a header. */
  function EncodingOf(header: Header): Encoding
  {
    Encoding(
      header.compression,
      match header.blocks
      case ScanLines => ImageScanLines
      case Tiles(description) => ImageTiles(description.tileSize, description.roundingMode),
      header.lineOrder)
  }

  /**
   * The inferred header loses nothing of the layer's encoding: scan lines
   * stay scan lines, tiles keep their size and rounding mode and take the
   * channel data's level mode, and the compression and line order are copied.
   */
  lemma InferredEncodingRoundTrip<C, W>(ops: ChannelsOps<C, W>, layer: Layer<C>, imageAttributes: seq<Attribute>)
    ensures var h := LayerInferHeaders(ops, layer, imageAttributes)[0];
      && EncodingOf(h) == layer.encoding
      && h.compression == layer.encoding.compression
      && h.lineOrder == layer.encoding.lineOrder
      && (h.blocks.ScanLines? <==> layer.encoding.blocks.ImageScanLines?)
      && (h.blocks.Tiles? ==> h.blocks.description.levelMode == ops.levelMode(layer.channelData))
  {
    var h := LayerInferHeaders(ops, layer, imageAttributes)[0];
    match layer.encoding.blocks
    case ImageScanLines =>
      assert h.blocks == ScanLines;
    case ImageTiles(tileSize, roundingMode) =>
      assert h.blocks == Tiles(TileDescription(tileSize, ops.levelMode(layer.channelData), roundingMode));
  }

  /**
   * `Layers::infer_headers`: one header per layer, in layer order, each the
   * single header its layer infers.
   */
  function LayersInferHeaders<C, W>(ops: ChannelsOps<C, W>, layers: seq<Layer<C>>, imageAttributes: seq<Attribute>)
    : (headers: seq<Header>)
    ensures |headers| == |layers|
    ensures forall i :: 0 <= i < |layers| ==> [headers[i]] == LayerInferHeaders(ops, layers[i], imageAttributes)
  {
    seq(|layers|, i requires 0 <= i < |layers| => LayerInferHeaders(ops, layers[i], imageAttributes)[0])
  }

  /** No header the write side infers is a deep one, so the flat reader accepts it. */
  lemma {:induction false} InferredHeadersAreFlat<C, W>(ops: ChannelsOps<C, W>, layers: seq<Layer<C>>,
                                                       imageAttributes: seq<Attribute>, i: nat)
    requires i < |layers|
    ensures var h := LayersInferHeaders(ops, layers, imageAttributes)[i];
      !h.deep && h.deepDataVersion == None && h.chunkCount == 0 && h.maxSamplesPerPixel == None
  {
    var hs := LayersInferHeaders(ops, layers, imageAttributes);
    assert [hs[i]] == LayerInferHeaders(ops, layers[i], imageAttributes);
    assert hs[i] == [hs[i]][0];
  }

  /** `Layer::create_writer`: the channel writer for the first header; no header panics. */
  function LayerCreateWriter<C, W>(ops: ChannelsOps<C, W>, layer: Layer<C>, headers: seq<Header>)
    : (r: Outcome<LayerWriter<W>>)
    ensures r.Panic? <==> headers == []
    ensures r.Panic? ==> r.reason == UnwrapNone
    ensures r.Done? ==> r.value.channels == ops.createWriter(layer.channelData, headers[0])
  {
    if headers == [] then Panic(UnwrapNone)
    else Done(LayerWriter(ops.createWriter(layer.channelData, headers[0])))
  }

  /**
   * `Layers::create_writer`: zips the layers with the one-header chunks of
   * `headers`, so it makes as many writers as the shorter of the two, pairs
   * layer `i` with `headers[i..i+1]` and never reaches the panic in
   * `Layer::create_writer`.
   */
  function LayersCreateWriter<C, W>(ops: ChannelsOps<C, W>, layers: seq<Layer<C>>, headers: seq<Header>)
    : (w: AllLayersWriter<W>)
    ensures |w.layers| == Min(|layers|, |headers|)
    ensures forall i :: 0 <= i < |w.layers| ==> LayerCreateWriter(ops, layers[i], headers[i..i + 1]) == Done(w.layers[i])
  {
    var n := Min(|layers|, |headers|);
    AllLayersWriter(seq(n, i requires 0 <= i < n => LayerWriter(ops.createWriter(layers[i].channelData, headers[i]))))
  }

  /** `LayerWriter::extract_uncompressed_block`: extracts with the first header; no header panics. */
  function LayerExtract<C, W>(ops: ChannelsOps<C, W>, writer: LayerWriter<W>, headers: seq<Header>, block: BlockIndex)
    : (r: Outcome<seq<Byte>>)
    ensures r.Panic? <==> headers == []
    ensures r.Panic? ==> r.reason == UnwrapNone
    ensures r.Done? ==> r.value == ops.extract(writer.channels, headers[0], block)
  {
    if headers == [] then Panic(UnwrapNone)
    else Done(ops.extract(writer.channels, headers[0], block))
  }

  /**
   * `AllLayersWriter::extract_uncompressed_block` as written: index the
   * layer writer, slice `headers[l..l]` and forward. The forwarded slice is
   * empty, so it panics on every input: past the layers, past the headers,
   * or at the single-layer writer's `first().unwrap()`.
   */
  function AllLayersExtractAsWritten<C, W>(ops: ChannelsOps<C, W>, writer: AllLayersWriter<W>, headers: seq<Header>,
                                           block: BlockIndex): (r: Outcome<seq<Byte>>)
    ensures r.Panic?
    ensures r.reason == IndexOutOfBounds <==> block.layer >= |writer.layers|
    ensures block.layer < |writer.layers| ==> (r.reason == UnwrapNone <==> block.layer <= |headers|)
  {
    var l := block.layer;
    if l >= |writer.layers| then Panic(IndexOutOfBounds)
    else if l > |headers| then Panic(SliceOutOfRange)
    else
      assert headers[l..l] == [];
      LayerExtract(ops, writer.layers[l], headers[l..l], block)
  }

  /**
   * A concrete instance: one layer, its header, a block of layer 0. The
   * dispatch the source wrote panics where the corrected one extracts.
   */
  lemma SingleLayerDispatchPanics<C, W>(ops: ChannelsOps<C, W>, layer: Layer<C>, header: Header, block: BlockIndex)
    requires block.layer == 0
    ensures var writer := LayersCreateWriter(ops, [layer], [header]);
      && AllLayersExtractAsWritten(ops, writer, [header], block) == Panic(UnwrapNone)
      && AllLayersExtract(ops, writer, [header], block).Done?
  {
    var writer := LayersCreateWriter(ops, [layer], [header]);
    assert |writer.layers| == 1;
  }

  /**
   * `AllLayersWriter::extract_uncompressed_block` with the one-header slice
   * `headers[l..l+1]` that `Layers::create_writer` uses: it panics exactly
   * when the block's layer has no writer or no header, and otherwise
   * extracts with that layer's writer and header.
   */
  function AllLayersExtract<C, W>(ops: ChannelsOps<C, W>, writer: AllLayersWriter<W>, headers: seq<Header>,
                                  block: BlockIndex): (r: Outcome<seq<Byte>>)
    ensures r.Done? <==> block.layer < |writer.layers| && block.layer < |headers|
    ensures r.Panic? && block.layer < |writer.layers| ==> r.reason == SliceOutOfRange
    ensures r.Done? ==> r.value == ops.extract(writer.layers[block.layer].channels, headers[block.layer], block)
  {
    var l := block.layer;
    if l >= |writer.layers| then Panic(IndexOutOfBounds)
    else if l + 1 > |headers| then Panic(SliceOutOfRange)
    else LayerExtract(ops, writer.layers[l], headers[l..l + 1], block)
  }

  /**
   * End to end on the write side: with the headers inferred for the layers
   * and the writers built from them, a block of layer `l` is extracted by the
   * channel writer created for layer `l` with header `l`, and by nothing else.
   */
  lemma {:induction false} DispatchRoutesToOwnLayer<C, W>(ops: ChannelsOps<C, W>, layers: seq<Layer<C>>,
                                                         imageAttributes: seq<Attribute>, block: BlockIndex)
    requires block.layer < |layers|
    ensures var headers := LayersInferHeaders(ops, layers, imageAttributes);
      var writer := LayersCreateWriter(ops, layers, headers);
      var l := block.layer;
      && |writer.layers| == |layers|
      && AllLayersExtract(ops, writer, headers, block) ==
           Done(ops.extract(ops.createWriter(layers[l].channelData, headers[l]), headers[l], block))
  {
    var headers := LayersInferHeaders(ops, layers, imageAttributes);
    var writer := LayersCreateWriter(ops, layers, headers);
    var l := block.layer;
    assert LayerCreateWriter(ops, layers[l], headers[l..l + 1]) == Done(writer.layers[l]);
    assert headers[l..l + 1][0] == headers[l];
  }
}
