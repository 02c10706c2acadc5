/**
 * The per-layer reader: `create_channels_reader`, `filter_block`,
 * `read_block` and `into_channels`.
 *
 * The caller's storage is an abstract value `S`. The storage factory
 * (`CreatePixels::create`) and the pixel setter (`SetPixel::set_pixel`) are
 * caller-supplied functions; the reader only decides which calls happen, with
 * which arguments, in which order.
 */
module ChannelsReader {
  import opened Meta
  import opened ChannelSelection
  import opened LineReader

  /** `ChannelsInfo`: the sample type of every slot and the layer's resolution. */
  datatype ChannelsInfo = ChannelsInfo(sampleTypes: seq<Option<ChannelInfo>>, resolution: Vec2)

  /** `SpecificChannels`: what a finished layer hands over. */
  datatype SpecificChannels<S> = SpecificChannels(channels: seq<Option<ChannelInfo>>, storage: S)

  /** `ReadSpecificChannels`: the selection, the storage factory and the pixel setter. */
  datatype ReadSpecificChannels<!S> = ReadSpecificChannels(
    channelNames: seq<ChannelRequest>,
    create: ChannelsInfo -> S,
    setPixel: (S, Vec2, Pixel) -> S)

  /** One call of the pixel setter. */
  datatype Write = Write(position: Vec2, pixel: Pixel)

  /** The setter calls a block makes, and whether it got through the whole block. */
  datatype Decoded = Decoded(writes: seq<Write>, complete: bool)

  /** The storage after the setter has been called for `writes`, in order. */
  function ApplyWrites<S>(setPixel: (S, Vec2, Pixel) -> S, storage: S, writes: seq<Write>): S
  {
    if writes == [] then storage
    else
      var n := |writes| - 1;
      setPixel(ApplyWrites(setPixel, storage, writes[..n]), writes[n].position, writes[n].pixel)
  }

  /**
   * `chunks_exact(size)`: the whole chunks of `size` bytes, in order; a
   * shorter tail is dropped. The count is `len / size`, stated without
   * division.
   */
  function ChunksExact(data: seq<Byte>, size: nat): (lines: seq<seq<Byte>>)
    requires size > 0
    ensures |lines| * size <= |data| < (|lines| + 1) * size
    ensures forall i :: 0 <= i < |lines| ==> |lines[i]| == size
    decreases |data|
  {
    if |data| < size then []
    else
      var rest := ChunksExact(data[size..], size);
      assert (|rest| + 1) * size == |rest| * size + size;
      assert (|rest| + 2) * size == (|rest| + 1) * size + size;
      [data[..size]] + rest
  }

  /** Chunk `i` is the `i`-th run of `size` bytes of the data. */
  lemma {:induction false} ChunksExactAt(data: seq<Byte>, size: nat, i: nat)
    requires size > 0
    requires i < |ChunksExact(data, size)|
    ensures (i + 1) * size <= |data|
    ensures ChunksExact(data, size)[i] == data[i * size..(i + 1) * size]
    decreases |data|
  {
    var rest := ChunksExact(data[size..], size);
    assert ChunksExact(data, size) == [data[..size]] + rest;
    if i > 0 {
      ChunksExactAt(data[size..], size, i - 1);
      var a := (i - 1) * size;
      MulSucc(i - 1, size);
      MulSucc(i, size);
      assert data[size..][a..a + size] == data[a + size..a + size + size];
    }
  }

  /**
   * The `assert_eq!` after `chunks_exact` holds: data of `height` rows of
   * `lineBytes` bytes splits into exactly `height` rows.
   */
  lemma ExactRowCount(data: seq<Byte>, lineBytes: nat, height: nat)
    requires lineBytes > 0
    requires |data| == lineBytes * height
    ensures |ChunksExact(data, lineBytes)| == height
  {
    var n := |ChunksExact(data, lineBytes)|;
    if n < height {
      MulLeft(n + 1, height, lineBytes);
    }
  }

  /**
   * A block that passes the size check splits into exactly `height` rows of
   * `width * bytes_per_pixel` bytes, so the `assert_eq!` after
   * `chunks_exact` never fires.
   */
  lemma BlockRows(header: Header, block: UncompressedBlock)
    requires !BlockSizeMismatch(header, block)
    requires LineBytes(header, block) > 0
    ensures |ChunksExact(block.data, LineBytes(header, block))| == block.index.pixelSize.y
  {
    var size := block.index.pixelSize;
    var bpp := header.channels.bytesPerPixel;
    MulAssoc(bpp, size.x, size.y);
    ExactRowCount(block.data, LineBytes(header, block), size.y);
  }

  /** What each column of a row decodes to, left to right. */
  function RowPixels(readers: seq<Option<ChannelIndexInfo>>, width: nat, line: seq<Byte>): seq<Result<Pixel>>
  {
    seq(width, x requires 0 <= x < width => PixelAt(readers, width, line, x))
  }

  /** What each pixel of a block decodes to: row `y`, column `x` at `[y][x]`. */
  function BlockPixels(readers: seq<Option<ChannelIndexInfo>>, width: nat, lines: seq<seq<Byte>>): seq<seq<Result<Pixel>>>
  {
    seq(|lines|, y requires 0 <= y < |lines| => RowPixels(readers, width, lines[y]))
  }

  /**
   * The setter calls for row `y`, from column `x` to the end of the row,
   * given what each column decodes to: the first column that fails ends the
   * row without a call.
   */
  function RowWrites(pixels: seq<Result<Pixel>>, origin: Vec2, y: nat, x: nat): Decoded
    decreases |pixels| - x
  {
    if x >= |pixels| then Decoded([], true)
    else
      match pixels[x]
      case Err(_) => Decoded([], false)
      case Ok(pixel) =>
        var rest := RowWrites(pixels, origin, y, x + 1);
        Decoded([Write(origin.Add(Vec2(x, y)), pixel)] + rest.writes, rest.complete)
  }

  /** The setter calls for rows `y..` of a block; a row that stops early stops the block. */
  function BlockWritesFrom(grid: seq<seq<Result<Pixel>>>, origin: Vec2, y: nat): Decoded
    decreases |grid| - y
  {
    if y >= |grid| then Decoded([], true)
    else
      var row := RowWrites(grid[y], origin, y, 0);
      if !row.complete then row
      else
        var rest := BlockWritesFrom(grid, origin, y + 1);
        Decoded(row.writes + rest.writes, rest.complete)
  }

  /** Whether `read_block`'s size check rejects the block. */
  predicate BlockSizeMismatch(header: Header, block: UncompressedBlock)
  {
    header.channels.bytesPerPixel * block.index.pixelSize.Area() != |block.data|
  }

  /** The row length `read_block` cuts the data into. */
  function LineBytes(header: Header, block: UncompressedBlock): nat
  {
    block.index.pixelSize.x * header.channels.bytesPerPixel
  }

  /** The setter calls `read_block` makes for a block that passes the size check. */
  function BlockWrites(readers: seq<Option<ChannelIndexInfo>>, header: Header, block: UncompressedBlock): Decoded
    requires LineBytes(header, block) > 0
  {
    var width := block.index.pixelSize.x;
    BlockWritesFrom(BlockPixels(readers, width, ChunksExact(block.data, LineBytes(header, block))),
                    block.index.pixelPosition, 0)
  }

  /** A row whose columns all decode makes one call per column, left to right, with the column's pixel. */
  lemma {:induction false} RowWritesComplete(pixels: seq<Result<Pixel>>, origin: Vec2, y: nat, x: nat)
    requires x <= |pixels|
    requires forall i :: x <= i < |pixels| ==> pixels[i].Ok?
    ensures var row := RowWrites(pixels, origin, y, x);
      && row.complete
      && |row.writes| == |pixels| - x
      && forall i :: 0 <= i < |pixels| - x ==> row.writes[i] == Write(origin.Add(Vec2(x + i, y)), pixels[x + i].value)
    decreases |pixels| - x
  {
    if x < |pixels| {
      RowWritesComplete(pixels, origin, y, x + 1);
      var row := RowWrites(pixels, origin, y, x);
      var rest := RowWrites(pixels, origin, y, x + 1);
      forall i | 0 < i < |pixels| - x
        ensures row.writes[i] == Write(origin.Add(Vec2(x + i, y)), pixels[x + i].value)
      {
        assert row.writes[i] == rest.writes[i - 1];
        assert x + i == (x + 1) + (i - 1);
      }
    }
  }

  /** Every column of a row of the right length decodes. */
  lemma RowDecodes(readers: seq<Option<ChannelIndexInfo>>, bytesPerPixel: nat, width: nat, line: seq<Byte>)
    requires ReadersFitPixel(readers, bytesPerPixel)
    requires |line| == width * bytesPerPixel
    ensures |RowPixels(readers, width, line)| == width
    ensures forall x :: 0 <= x < width ==>
      RowPixels(readers, width, line)[x] == PixelAt(readers, width, line, x) && PixelAt(readers, width, line, x).Ok?
  {
    forall x | 0 <= x < width
      ensures PixelAt(readers, width, line, x).Ok?
    {
      PixelAtPlanar(readers, bytesPerPixel, width, line, x);
    }
  }

  /** Every pixel of a block whose rows have the right length decodes. */
  lemma BlockDecodes(readers: seq<Option<ChannelIndexInfo>>, bytesPerPixel: nat, width: nat, lines: seq<seq<Byte>>)
    requires ReadersFitPixel(readers, bytesPerPixel)
    requires forall k :: 0 <= k < |lines| ==> |lines[k]| == width * bytesPerPixel
    ensures Decodes(BlockPixels(readers, width, lines), width)
  {
    var grid: seq<seq<Result<Pixel>>> := BlockPixels(readers, width, lines);
    forall y: nat | y < |grid|
      ensures |grid[y]| == width && forall x: nat :: x < width ==> grid[y][x].Ok?
    {
      RowDecodes(readers, bytesPerPixel, width, lines[y]);
    }
  }

  /** Every row of the grid has `width` pixels and every pixel decodes. */
  ghost predicate Decodes(grid: seq<seq<Result<Pixel>>>, width: nat)
  {
    forall y :: 0 <= y < |grid| ==> |grid[y]| == width && forall x :: 0 <= x < width ==> grid[y][x].Ok?
  }

  /** The rows of a block one after another. */
  function Concat<T>(rows: seq<seq<T>>): seq<T>
  {
    if rows == [] then [] else rows[0] + Concat(rows[1..])
  }

  /** Rows of `width` entries: entry `x` of row `k` sits at `k * width + x`. */
  lemma {:induction false} ConcatIndex<T>(rows: seq<seq<T>>, width: nat, k: nat, x: nat)
    requires forall i :: 0 <= i < |rows| ==> |rows[i]| == width
    requires k < |rows| && x < width
    ensures |Concat(rows)| == |rows| * width
    ensures k * width + x < |Concat(rows)|
    ensures Concat(rows)[k * width + x] == rows[k][x]
  {
    MulSucc(|rows| - 1, width);
    if k > 0 {
      ConcatIndex(rows[1..], width, k - 1, x);
      MulSucc(k - 1, width);
    } else {
      ConcatLength(rows[1..], width);
    }
  }

  lemma {:induction false} ConcatLength<T>(rows: seq<seq<T>>, width: nat)
    requires forall i :: 0 <= i < |rows| ==> |rows[i]| == width
    ensures |Concat(rows)| == |rows| * width
  {
    if rows != [] {
      ConcatLength(rows[1..], width);
      MulSucc(|rows| - 1, width);
    }
  }

  /** The setter calls of rows `y..`, one sequence per row. */
  function RowsFrom(grid: seq<seq<Result<Pixel>>>, origin: Vec2, y: nat): (rows: seq<seq<Write>>)
    requires y <= |grid|
    ensures |rows| == |grid| - y
  {
    seq(|grid| - y, k requires 0 <= k < |grid| - y => RowWrites(grid[y + k], origin, y + k, 0).writes)
  }

  /**
   * Rows `y..` of a block whose pixels all decode: every row completes, and
   * the block's setter calls are the rows' calls in row order.
   */
  lemma {:induction false} BlockWritesComplete(grid: seq<seq<Result<Pixel>>>, width: nat, origin: Vec2, y: nat)
    requires Decodes(grid, width)
    requires y <= |grid|
    ensures BlockWritesFrom(grid, origin, y).complete
    ensures BlockWritesFrom(grid, origin, y).writes == Concat(RowsFrom(grid, origin, y))
    decreases |grid| - y
  {
    if y < |grid| {
      RowWritesComplete(grid[y], origin, y, 0);
      BlockWritesComplete(grid, width, origin, y + 1);
      var rows := RowsFrom(grid, origin, y);
      assert rows[1..] == RowsFrom(grid, origin, y + 1);
    }
  }

  /**
   * `writes` holds one setter call per `(x, y)` of a grid of rows of `width`
   * pixels, in row-major order, at `origin + (x, y)`, with the decoded pixel
   * at `[y][x]`.
   */
  ghost predicate RowMajor(writes: seq<Write>, grid: seq<seq<Result<Pixel>>>, origin: Vec2, width: nat)
  {
    && |writes| == |grid| * width
    && forall y, x :: 0 <= y < |grid| && 0 <= x < width ==> CallAt(writes, grid, origin, width, y, x)
  }

  /** Call `y * width + x` sets the decoded pixel `[y][x]` at `origin + (x, y)`. */
  ghost predicate CallAt(writes: seq<Write>, grid: seq<seq<Result<Pixel>>>, origin: Vec2, width: nat, y: nat, x: nat)
    requires y < |grid|
  {
    && y * width + x < |writes| && x < |grid[y]| && grid[y][x].Ok?
    && writes[y * width + x] == Write(origin.Add(Vec2(x, y)), grid[y][x].value)
  }

  /**
   * A block whose pixels all decode makes exactly `height * width` setter
   * calls, in row-major order, at `origin + (x, y)`, with the pixel of
   * column `x` of row `y`.
   */
  lemma RowMajorWrites(grid: seq<seq<Result<Pixel>>>, width: nat, origin: Vec2)
    requires Decodes(grid, width)
    ensures BlockWritesFrom(grid, origin, 0).complete
    ensures RowMajor(BlockWritesFrom(grid, origin, 0).writes, grid, origin, width)
  {
    BlockWritesComplete(grid, width, origin, 0);
    var rows := RowsFrom(grid, origin, 0);
    forall k | 0 <= k < |rows|
      ensures |rows[k]| == width
    {
      RowEntry(grid, width, origin, k, 0);
    }
    ConcatLength(rows, width);
    forall y, x | 0 <= y < |grid| && 0 <= x < width
      ensures CallAt(Concat(rows), grid, origin, width, y, x)
    {
      RowEntry(grid, width, origin, y, x);
      ConcatIndex(rows, width, y, x);
    }
  }

  /** Column `x` of row `y` of a grid whose pixels all decode is the row's `x`-th call. */
  lemma RowEntry(grid: seq<seq<Result<Pixel>>>, width: nat, origin: Vec2, y: nat, x: nat)
    requires Decodes(grid, width)
    requires y < |grid| && (x < width || x == 0)
    ensures var row := RowWrites(grid[y], origin, y, 0).writes;
      && |row| == width && |grid[y]| == width
      && (x < width ==> grid[y][x].Ok? && row[x] == Write(origin.Add(Vec2(x, y)), grid[y][x].value))
  {
    RowWritesComplete(grid[y], origin, y, 0);
    if x < width {
      assert RowWrites(grid[y], origin, y, 0).writes[0 + x] == RowWrites(grid[y], origin, y, 0).writes[x];
    }
  }

  /**
   * For a header whose `bytes_per_pixel` agrees with its channel list and
   * readers resolved against that list, a block that passes the size check
   * decodes completely: `set_pixel` is called once per `(x, y)` of the block,
   * in row-major order, at `pixel_position + (x, y)`, with the channel-planar
   * pixel of that column of that row.
   */
  lemma ReadBlockCallsEveryPixel(requests: seq<ChannelRequest>, header: Header, block: UncompressedBlock)
    requires header.channels.Consistent()
    requires Resolve(requests, header.channels.list).Ok?
    requires !BlockSizeMismatch(header, block)
    requires LineBytes(header, block) > 0
    ensures var readers := Resolve(requests, header.channels.list).value.readers;
      var d := BlockWrites(readers, header, block);
      var size := block.index.pixelSize;
      var lines := ChunksExact(block.data, LineBytes(header, block));
      && d.complete
      && |lines| == size.y
      && RowMajor(d.writes, BlockPixels(readers, size.x, lines), block.index.pixelPosition, size.x)
  {
    var readers := Resolve(requests, header.channels.list).value.readers;
    var lines := ChunksExact(block.data, LineBytes(header, block));
    ResolvedReadersFit(requests, header.channels.list);
    BlockRows(header, block);
    BlockDecodes(readers, header.channels.bytesPerPixel, block.index.pixelSize.x, lines);
    RowMajorWrites(BlockPixels(readers, block.index.pixelSize.x, lines), block.index.pixelSize.x, block.index.pixelPosition);
  }

  /** The storage after one more setter call. */
  lemma ApplyWritesSnoc<S>(setPixel: (S, Vec2, Pixel) -> S, storage: S, writes: seq<Write>, w: Write)
    ensures ApplyWrites(setPixel, storage, writes + [w]) ==
      setPixel(ApplyWrites(setPixel, storage, writes), w.position, w.pixel)
  {
    assert (writes + [w])[..|writes|] == writes;
  }

  /**
   * One column of `read_block`'s inner loop: a pixel that fails ends the row
   * incomplete with the calls made so far; a pixel that decodes adds its call.
   */
  lemma RowStep(pixels: seq<Result<Pixel>>, origin: Vec2, y: nat, x: nat, rowDone: seq<Write>)
    requires x < |pixels|
    requires RowWrites(pixels, origin, y, 0) ==
      Decoded(rowDone + RowWrites(pixels, origin, y, x).writes, RowWrites(pixels, origin, y, x).complete)
    ensures pixels[x].Err? ==> RowWrites(pixels, origin, y, 0) == Decoded(rowDone, false)
    ensures pixels[x].Ok? ==>
      var w := Write(origin.Add(Vec2(x, y)), pixels[x].value);
      RowWrites(pixels, origin, y, 0) ==
        Decoded(rowDone + [w] + RowWrites(pixels, origin, y, x + 1).writes, RowWrites(pixels, origin, y, x + 1).complete)
  {
    assert rowDone + [] == rowDone;
    if pixels[x].Ok? {
      var w := Write(origin.Add(Vec2(x, y)), pixels[x].value);
      var rest := RowWrites(pixels, origin, y, x + 1).writes;
      assert rowDone + ([w] + rest) == rowDone + [w] + rest;
    }
  }

  /**
   * One row of `read_block`'s outer loop: a row that stops early ends the
   * block incomplete; a complete row adds its calls.
   */
  lemma BlockStep(grid: seq<seq<Result<Pixel>>>, origin: Vec2, y: nat, done: seq<Write>)
    requires y < |grid|
    requires BlockWritesFrom(grid, origin, 0) ==
      Decoded(done + BlockWritesFrom(grid, origin, y).writes, BlockWritesFrom(grid, origin, y).complete)
    ensures var row := RowWrites(grid[y], origin, y, 0);
      && (!row.complete ==> BlockWritesFrom(grid, origin, 0) == Decoded(done + row.writes, false))
      && (row.complete ==>
            BlockWritesFrom(grid, origin, 0) ==
              Decoded(done + row.writes + BlockWritesFrom(grid, origin, y + 1).writes,
                      BlockWritesFrom(grid, origin, y + 1).complete))
  {
    var row := RowWrites(grid[y], origin, y, 0);
    if row.complete {
      var rest := BlockWritesFrom(grid, origin, y + 1).writes;
      assert done + (row.writes + rest) == done + row.writes + rest;
    }
  }

  /**
   * The reader of one layer: the storage it fills, the setter, the layer's
   * `ChannelsInfo` and the resolved per-slot pixel readers.
   */
  class SpecificChannelsReader<S> {
    var storage: S
    const setPixel: (S, Vec2, Pixel) -> S
    const info: ChannelsInfo
    const pixelReader: seq<Option<ChannelIndexInfo>>

    constructor (storage: S, setPixel: (S, Vec2, Pixel) -> S, info: ChannelsInfo, pixelReader: seq<Option<ChannelIndexInfo>>)
      ensures this.storage == storage && this.setPixel == setPixel
      ensures this.info == info && this.pixelReader == pixelReader
    {
      this.storage := storage;
      this.setPixel := setPixel;
      this.info := info;
      this.pixelReader := pixelReader;
    }

    /**
     * `read_block`: rejects a block whose length is not `bytes_per_pixel *
     * area` and leaves the storage untouched; otherwise calls the setter for
     * the block's pixels row by row, each row from a fresh clone of the
     * initial line reader, and stops at the first pixel that fails to decode.
     * `chunks_exact` panics on a zero row length, so that case is excluded.
     */
    method ReadBlock(header: Header, block: UncompressedBlock) returns (r: Result<()>)
      requires !BlockSizeMismatch(header, block) ==> LineBytes(header, block) > 0
      modifies this
      ensures BlockSizeMismatch(header, block) ==>
        r == Err(Invalid(BlockSizeMessage)) && storage == old(storage)
      ensures !BlockSizeMismatch(header, block) ==>
        var d := BlockWrites(pixelReader, header, block);
        && storage == ApplyWrites(setPixel, old(storage), d.writes)
        && (r.Ok? <==> d.complete)
        && (r.Err? ==> r.error == UnexpectedEof)
    {
      if header.channels.bytesPerPixel * block.index.pixelSize.Area() != |block.data| {
        return Err(Invalid(BlockSizeMessage));
      }
      var width := block.index.pixelSize.x;
      var origin := block.index.pixelPosition;
      var lineBytes := width * header.channels.bytesPerPixel;
      var lines := ChunksExact(block.data, lineBytes);
      BlockRows(header, block);

      var initial := CreatePixelReaderForLine(pixelReader, width);
      CursorsStart(pixelReader, width);
      ghost var grid := BlockPixels(pixelReader, width, lines);
      ghost var done: seq<Write> := [];
      assert done + BlockWritesFrom(grid, origin, 0).writes == BlockWritesFrom(grid, origin, 0).writes;
      for y := 0 to |lines|
        invariant storage == ApplyWrites(setPixel, old(storage), done)
        invariant BlockWritesFrom(grid, origin, 0) ==
          Decoded(done + BlockWritesFrom(grid, origin, y).writes, BlockWritesFrom(grid, origin, y).complete)
      {
        var line := ReadLine(initial, origin, width, y, lines[y], old(storage), done);
        assert grid[y] == RowPixels(pixelReader, width, lines[y]);
        BlockStep(grid, origin, y, done);
        if line.Err? {
          return line;
        }
        done := done + RowWrites(grid[y], origin, y, 0).writes;
      }
      assert done + [] == done;
      r := Ok(());
    }

    /**
     * The body of `read_block`'s row loop: a clone of the initial line reader
     * walks row `y` left to right, calling the setter for each pixel, and the
     * first pixel that fails to decode ends the row with its error.
     */
    method ReadLine(initial: seq<Option<LineCursor>>, origin: Vec2, width: nat, y: nat, line: seq<Byte>,
                    ghost base: S, ghost done: seq<Write>)
      returns (r: Result<()>)
      requires initial == CursorsAt(pixelReader, width, 0)
      requires storage == ApplyWrites(setPixel, base, done)
      modifies this
      ensures var row := RowWrites(RowPixels(pixelReader, width, line), origin, y, 0);
        && storage == ApplyWrites(setPixel, base, done + row.writes)
        && (r.Ok? <==> row.complete)
        && (r.Err? ==> r.error == UnexpectedEof)
    {
      var lineReader := new PixelLineReader(initial);
      ghost var pixels := RowPixels(pixelReader, width, line);
      ghost var rowDone: seq<Write> := [];
      assert done + rowDone == done;
      for x := 0 to width
        invariant lineReader.cursors == CursorsAt(pixelReader, width, x)
        invariant storage == ApplyWrites(setPixel, base, done + rowDone)
        invariant RowWrites(pixels, origin, y, 0) ==
          Decoded(rowDone + RowWrites(pixels, origin, y, x).writes, RowWrites(pixels, origin, y, x).complete)
      {
        var pixel := lineReader.ReadNextPixel(line);
        assert pixel == pixels[x];
        RowStep(pixels, origin, y, x, rowDone);
        if pixel.Err? {
          return Err(pixel.error);
        }
        CursorsStep(pixelReader, width, x);
        var position := origin.Add(Vec2(x, y));
        storage := setPixel(storage, position, pixel.value);
        ApplyWritesSnoc(setPixel, base, done + rowDone, Write(position, pixel.value));
        assert done + (rowDone + [Write(position, pixel.value)]) == done + rowDone + [Write(position, pixel.value)];
        rowDone := rowDone + [Write(position, pixel.value)];
      }
      assert RowWrites(pixels, origin, y, width) == Decoded([], true);
      assert rowDone + [] == rowDone;
      r := Ok(());
    }

    /** `into_channels`: hands over the resolved sample types and the filled storage. */
    method IntoChannels() returns (c: SpecificChannels<S>)
      ensures c.channels == info.sampleTypes && c.storage == storage
    {
      c := SpecificChannels(info.sampleTypes, storage);
    }
  }

  /**
   * `create_channels_reader`: a deep layer is refused before its channels are
   * looked at; a selection that does not resolve is refused before the
   * storage factory is consulted; otherwise the storage is created once from
   * the layer's `ChannelsInfo`.
   */
  method CreateChannelsReader<S>(config: ReadSpecificChannels<S>, header: Header)
    returns (r: Result<SpecificChannelsReader<S>>)
    ensures header.deep ==> r == Err(Invalid(DeepDataMessage))
    ensures !header.deep && Resolve(config.channelNames, header.channels.list).Err? ==>
      r == Err(Resolve(config.channelNames, header.channels.list).error)
    ensures !header.deep && Resolve(config.channelNames, header.channels.list).Ok? ==>
      var res := Resolve(config.channelNames, header.channels.list).value;
      && r.Ok? && fresh(r.value)
      && r.value.info == ChannelsInfo(res.sampleTypes, header.layerSize)
      && r.value.pixelReader == res.readers
      && r.value.storage == config.create(r.value.info)
      && r.value.setPixel == config.setPixel
  {
    if header.deep {
      return Err(Invalid(DeepDataMessage));
    }
    var resolved := InspectChannels(config.channelNames, header.channels.list);
    if resolved.Err? {
      return Err(resolved.error);
    }
    var info := ChannelsInfo(resolved.value.sampleTypes, header.layerSize);
    var reader := new SpecificChannelsReader(config.create(info), config.setPixel, info, resolved.value.readers);
    r := Ok(reader);
  }

  /** `filter_block`: only blocks of the full-resolution level are read. */
  function FilterBlock(layerIndex: nat, tile: TileCoordinates): (eligible: bool)
    ensures eligible <==> tile.levelIndex.x == 0 && tile.levelIndex.y == 0
  {
    tile.IsLargestResolutionLevel()
  }
}
