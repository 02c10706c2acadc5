/**
 * Shared vocabulary of the channel codec: byte buffers, 2D vectors, sample
 * encodings, channel lists, headers, blocks and the error values the core
 * returns. Everything here is data plus the few collaborators the core relies
 * on (bytes per pixel, flat pixel index, sample decoding), stated once.
 */
module Meta {

  newtype Byte = b: int | 0 <= b < 256

  datatype Option<+T> = None | Some(value: T)

  /** The library's `Error::invalid(message)` and the I/O error a short sample read raises. */
  datatype Error = Invalid(message: string) | UnexpectedEof

  datatype Result<+T> = Ok(value: T) | Err(error: Error)

  const DeepDataMessage: string := "layer has deep data, no flat rgba data"
  const MissingChannelMessage: string := "layer does not contain all of the specified required channels"
  const BlockSizeMessage: string := "block size for header"

  /** `Vec2<usize>`: a position (x, y) or a size (width, height). */
  datatype Vec2 = Vec2(x: nat, y: nat) {
    function Add(other: Vec2): Vec2 { Vec2(x + other.x, y + other.y) }
    function Area(): nat { x * y }
  }

  function Min(a: nat, b: nat): nat { if a <= b then a else b }

  /**
   * `Vec2::flat_index_for_size`: the row-major index of `position` in an
   * image of `size`. The source debug-asserts that the position is inside.
   */
  function FlatIndex(position: Vec2, size: Vec2): (i: nat)
    requires position.x < size.x && position.y < size.y
    ensures i < size.Area()
  {
    MulLeft(position.y + 1, size.y, size.x);
    position.y * size.x + position.x
  }

  lemma MulLeft(a: nat, b: nat, c: nat)
    requires a <= b
    ensures a * c <= b * c
  {
  }

  lemma MulSucc(a: nat, b: nat)
    ensures (a + 1) * b == a * b + b
  {
  }

  lemma MulAssoc(a: nat, b: nat, c: nat)
    ensures a * (b * c) == (b * a) * c
  {
  }

  /** Two positions inside an image never share a flat index. */
  lemma {:induction false} FlatIndexInjective(p: Vec2, q: Vec2, size: Vec2)
    requires p.x < size.x && p.y < size.y
    requires q.x < size.x && q.y < size.y
    ensures FlatIndex(p, size) == FlatIndex(q, size) <==> p == q
  {
    if p.y < q.y {
      MulLeft(p.y + 1, q.y, size.x);
    } else if q.y < p.y {
      MulLeft(q.y + 1, p.y, size.x);
    }
  }

  /** The flat index can be decoded back into the position. */
  lemma FlatIndexInverse(p: Vec2, size: Vec2)
    requires p.x < size.x && p.y < size.y
    ensures FlatIndex(p, size) / size.x == p.y
    ensures FlatIndex(p, size) % size.x == p.x
  {
    var i := FlatIndex(p, size);
    var q, r := i / size.x, i % size.x;
    assert i == q * size.x + r;
    if q < p.y {
      MulLeft(q + 1, p.y, size.x);
    } else if p.y < q {
      MulLeft(p.y + 1, q, size.x);
    }
  }

  /** The three numeric encodings of a channel. */
  datatype SampleType = F16 | F32 | U32

  /** `SampleType::bytes_per_sample`. */
  function BytesPerSample(t: SampleType): (n: nat)
    ensures n == 2 || n == 4
    ensures n == 2 <==> t == F16
  {
    match t
    case F16 => 2
    case F32 => 4
    case U32 => 4
  }

  /**
   * A decoded sample. Only its encoding and its raw bytes are kept; the
   * numeric value (half, single, unsigned) is not modelled.
   */
  datatype Sample = F16Sample(bits: seq<Byte>) | F32Sample(bits: seq<Byte>) | U32Sample(bits: seq<Byte>)
  {
    function Type(): SampleType {
      match this
      case F16Sample(_) => F16
      case F32Sample(_) => F32
      case U32Sample(_) => U32
    }
  }

  /**
   * `f16::read`, `f32::read` and `u32::read` on a byte slice: consume the first
   * bytes of the slice, or fail when too few remain.
   */
  function DecodeSample(t: SampleType, bytes: seq<Byte>): (r: Result<Sample>)
    ensures r.Err? <==> |bytes| < BytesPerSample(t)
    ensures r.Err? ==> r.error == UnexpectedEof
    ensures r.Ok? ==> r.value.Type() == t && r.value.bits == bytes[..BytesPerSample(t)]
  {
    if |bytes| < BytesPerSample(t) then Err(UnexpectedEof)
    else
      var raw := bytes[..BytesPerSample(t)];
      match t
      case F16 => Ok(F16Sample(raw))
      case F32 => Ok(F32Sample(raw))
      case U32 => Ok(U32Sample(raw))
  }

  /** One entry of a layer's channel list. */
  datatype ChannelInfo = ChannelInfo(name: string, sampleType: SampleType, quantizeLinearly: bool, sampling: Vec2)

  /** Per-pixel byte size of a run of channels: the sum of their sample widths. */
  function SumWidths(channels: seq<ChannelInfo>): nat
  {
    if channels == [] then 0
    else SumWidths(channels[..|channels| - 1]) + BytesPerSample(channels[|channels| - 1].sampleType)
  }

  /** A channel that is preceded by `i` channels ends before the pixel does. */
  lemma {:induction false} ChannelEndsWithinPixel(channels: seq<ChannelInfo>, i: nat)
    requires i < |channels|
    ensures SumWidths(channels[..i]) + BytesPerSample(channels[i].sampleType) <= SumWidths(channels)
  {
    var n := |channels|;
    assert channels[..n] == channels;
    if i < n - 1 {
      var init := channels[..n - 1];
      assert init[..i] == channels[..i];
      ChannelEndsWithinPixel(init, i);
    } else {
      assert channels[..n - 1] == channels[..i];
    }
  }

  /**
   * `ChannelList`: the ordered channel list and its `bytes_per_pixel`, which
   * the header computes elsewhere and this core reads as a field.
   */
  datatype ChannelList = ChannelList(list: seq<ChannelInfo>, bytesPerPixel: nat)
  {
    /** The field agrees with the list it was computed from. */
    predicate Consistent() { bytesPerPixel == SumWidths(list) }
  }

  datatype Compression = Uncompressed | RLE | ZIP1 | ZIP16 | PIZ | PXR24 | B44 | B44A | DWAA | DWAB
  datatype LineOrder = Increasing | Decreasing | Unspecified
  datatype RoundingMode = Down | Up
  datatype LevelMode = Singular | MipMap | RipMap

  datatype TileDescription = TileDescription(tileSize: Vec2, levelMode: LevelMode, roundingMode: RoundingMode)

  /** `meta::Blocks`: how a layer's pixels are cut into blocks on disk. */
  datatype Blocks = ScanLines | Tiles(description: TileDescription)

  /** An attribute, kept as a name and an uninterpreted value. */
  datatype Attribute = Attribute(name: string, value: seq<Byte>)

  /** The header fields this core reads or writes. */
  datatype Header = Header(
    channels: ChannelList,
    compression: Compression,
    blocks: Blocks,
    lineOrder: LineOrder,
    layerSize: Vec2,
    sharedAttributes: seq<Attribute>,
    ownAttributes: seq<Attribute>,
    deep: bool,
    deepDataVersion: Option<int>,
    chunkCount: nat,
    maxSamplesPerPixel: Option<nat>)

  /** `TileCoordinates`: the tile index and the resolution level of a block. */
  datatype TileCoordinates = TileCoordinates(tileIndex: Vec2, levelIndex: Vec2)
  {
    /** `TileCoordinates::is_largest_resolution_level`. */
    predicate IsLargestResolutionLevel() { levelIndex == Vec2(0, 0) }
  }

  /** `BlockIndex`: which layer, where, how large, which level. */
  datatype BlockIndex = BlockIndex(layer: nat, pixelPosition: Vec2, pixelSize: Vec2, level: Vec2)

  /** `UncompressedBlock`: the decompressed bytes of one block. */
  datatype UncompressedBlock = UncompressedBlock(index: BlockIndex, data: seq<Byte>)
}
