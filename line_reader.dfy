/**
 * Per-channel and per-pixel line readers: `create_channel_line_reader`,
 * `create_pixel_reader_for_line`, `read_next_sample` and `read_next_pixel`.
 *
 * Within one row of a block the samples are channel-planar: all samples of
 * the first list channel, then all of the second, and so on. A present slot
 * reads its channel's run starting at `sampleByteOffset * width`, one sample
 * per pixel; an absent optional slot reads nothing.
 */
module LineReader {
  import opened Meta
  import opened ChannelSelection

  /** One decoded pixel: one value per slot, `None` for an absent optional slot. */
  type Pixel = seq<Option<Sample>>

  /** The line reader of a present channel, `(SampleType, usize)`: its encoding and next byte index. */
  datatype LineCursor = LineCursor(sampleType: SampleType, index: nat)

  /** `ChannelIndexInfo::create_channel_line_reader`. */
  function CreateChannelLineReader(info: ChannelIndexInfo, pixelCount: nat): (c: LineCursor)
    ensures c.sampleType == info.info.sampleType
    ensures c.index == info.sampleByteOffset * pixelCount
  {
    LineCursor(info.info.sampleType, info.sampleByteOffset * pixelCount)
  }

  /** `create_pixel_reader_for_line`: one line reader per slot; an absent slot stays absent. */
  function CreatePixelReaderForLine(readers: seq<Option<ChannelIndexInfo>>, pixelCount: nat): (cs: seq<Option<LineCursor>>)
    ensures |cs| == |readers|
    ensures forall j :: 0 <= j < |readers| ==> (cs[j].Some? <==> readers[j].Some?)
    ensures forall j :: 0 <= j < |readers| && readers[j].Some? ==>
      cs[j].value.sampleType == readers[j].value.info.sampleType &&
      cs[j].value.index == readers[j].value.sampleByteOffset * pixelCount
  {
    seq(|readers|, j requires 0 <= j < |readers| =>
      match readers[j]
      case None => None
      case Some(info) => Some(CreateChannelLineReader(info, pixelCount)))
  }

  /** Where the cursors of a row stand after `x` pixels have been read. */
  function CursorsAt(readers: seq<Option<ChannelIndexInfo>>, width: nat, x: nat): (cs: seq<Option<LineCursor>>)
    ensures |cs| == |readers|
  {
    seq(|readers|, j requires 0 <= j < |readers| =>
      match readers[j]
      case None => None
      case Some(info) =>
        Some(LineCursor(info.info.sampleType,
                        info.sampleByteOffset * width + x * BytesPerSample(info.info.sampleType))))
  }

  function Advance(c: Option<LineCursor>): Option<LineCursor>
  {
    match c
    case None => None
    case Some(cursor) => Some(cursor.(index := cursor.index + BytesPerSample(cursor.sampleType)))
  }

  /** The cursors with the first `k` slots advanced by one sample. */
  function AdvancePrefix(cs: seq<Option<LineCursor>>, k: nat): (r: seq<Option<LineCursor>>)
    ensures |r| == |cs|
  {
    seq(|cs|, j requires 0 <= j < |cs| => if j < k then Advance(cs[j]) else cs[j])
  }

  /** What `read_next_sample` yields for a slot: clamped start, then decode. */
  function SampleOf(c: Option<LineCursor>, bytes: seq<Byte>): (r: Result<Option<Sample>>)
    ensures c.None? ==> r == Ok(None)
    ensures c.Some? ==> (r.Err? <==> c.value.index + BytesPerSample(c.value.sampleType) > |bytes|)
    ensures r.Err? ==> r.error == UnexpectedEof
    ensures c.Some? && r.Ok? ==>
      var start := c.value.index;
      && r.value.Some?
      && r.value.value.Type() == c.value.sampleType
      && r.value.value.bits == bytes[start..start + BytesPerSample(c.value.sampleType)]
  {
    match c
    case None => Ok(None)
    case Some(cursor) =>
      match DecodeSample(cursor.sampleType, bytes[Min(cursor.index, |bytes|)..])
      case Err(e) => Err(e)
      case Ok(s) => Ok(Some(s))
  }

  /** Collects slot results in slot order, stopping at the first error. */
  function AllOk(rs: seq<Result<Option<Sample>>>): (r: Result<Pixel>)
    ensures r.Ok? ==> |r.value| == |rs|
    ensures r.Err? ==> exists i :: 0 <= i < |rs| && rs[i] == Err(r.error)
  {
    if rs == [] then Ok([])
    else
      match AllOk(rs[..|rs| - 1])
      case Err(e) => Err(e)
      case Ok(p) =>
        match rs[|rs| - 1]
        case Err(e) => Err(e)
        case Ok(v) => Ok(p + [v])
  }

  lemma {:induction false} AllOkSpec(rs: seq<Result<Option<Sample>>>)
    ensures AllOk(rs).Ok? <==> forall i :: 0 <= i < |rs| ==> rs[i].Ok?
    ensures AllOk(rs).Ok? ==> forall i :: 0 <= i < |rs| ==> AllOk(rs).value[i] == rs[i].value
  {
    if rs != [] {
      var n := |rs| - 1;
      AllOkSpec(rs[..n]);
      assert forall i :: 0 <= i < n ==> rs[..n][i] == rs[i];
    }
  }

  /** The pixel the cursors `cs` decode from `bytes`. */
  function PixelOf(cs: seq<Option<LineCursor>>, bytes: seq<Byte>): (r: Result<Pixel>)
    ensures r.Err? ==> r.error == UnexpectedEof
  {
    AllOk(seq(|cs|, j requires 0 <= j < |cs| => SampleOf(cs[j], bytes)))
  }

  /** The pixel in column `x` of a row. */
  function PixelAt(readers: seq<Option<ChannelIndexInfo>>, width: nat, line: seq<Byte>, x: nat): Result<Pixel>
  {
    PixelOf(CursorsAt(readers, width, x), line)
  }

  /** A fresh line reader stands at column 0. */
  lemma CursorsStart(readers: seq<Option<ChannelIndexInfo>>, width: nat)
    ensures CreatePixelReaderForLine(readers, width) == CursorsAt(readers, width, 0)
  {
  }

  /** Reading one pixel moves every present cursor to the next column. */
  lemma CursorsStep(readers: seq<Option<ChannelIndexInfo>>, width: nat, x: nat)
    ensures AdvancePrefix(CursorsAt(readers, width, x), |readers|) == CursorsAt(readers, width, x + 1)
  {
    var cs := CursorsAt(readers, width, x);
    forall j | 0 <= j < |readers|
      ensures AdvancePrefix(cs, |readers|)[j] == CursorsAt(readers, width, x + 1)[j]
    {
      if readers[j].Some? {
        var bps := BytesPerSample(readers[j].value.info.sampleType);
        assert (x + 1) * bps == x * bps + bps;
      }
    }
  }

  /** Every present reader's sample ends within a pixel of `bytesPerPixel` bytes. */
  predicate ReadersFitPixel(readers: seq<Option<ChannelIndexInfo>>, bytesPerPixel: nat)
  {
    forall j :: 0 <= j < |readers| && readers[j].Some? ==>
      readers[j].value.sampleByteOffset + BytesPerSample(readers[j].value.info.sampleType) <= bytesPerPixel
  }

  /** The readers a successful resolution produces fit the layer's pixel. */
  lemma ResolvedReadersFit(requests: seq<ChannelRequest>, channels: seq<ChannelInfo>)
    requires Resolve(requests, channels).Ok?
    ensures ReadersFitPixel(Resolve(requests, channels).value.readers, SumWidths(channels))
  {
    var readers := Resolve(requests, channels).value.readers;
    ResolveOk(requests, channels);
    forall j | 0 <= j < |readers| && readers[j].Some?
      ensures readers[j].value.sampleByteOffset + BytesPerSample(readers[j].value.info.sampleType) <= SumWidths(channels)
    {
      ResolvedOffsets(requests, channels, j);
    }
  }

  /** Column `x < width` of a channel's run lies inside a row of `width * bytesPerPixel` bytes. */
  lemma SampleWithinRow(offset: nat, bps: nat, bytesPerPixel: nat, width: nat, x: nat)
    requires offset + bps <= bytesPerPixel
    requires x < width
    ensures offset * width + x * bps + bps <= width * bytesPerPixel
  {
    MulLeft(x + 1, width, bps);
    MulLeft(offset + bps, bytesPerPixel, width);
    assert (x + 1) * bps == x * bps + bps;
    assert (offset + bps) * width == offset * width + width * bps;
  }

  /**
   * Channel-planar decoding: in a row of `width * bytesPerPixel` bytes, every
   * column decodes, and slot `j` of column `x` is the sample of its channel's
   * encoding read from bytes `offset * width + x * bps` up to the next sample.
   * So the clamp to the row's end never takes effect here.
   */
  lemma PixelAtPlanar(readers: seq<Option<ChannelIndexInfo>>, bytesPerPixel: nat, width: nat, line: seq<Byte>, x: nat)
    requires ReadersFitPixel(readers, bytesPerPixel)
    requires |line| == width * bytesPerPixel
    requires x < width
    ensures PixelAt(readers, width, line, x).Ok?
    ensures var p := PixelAt(readers, width, line, x).value;
      && |p| == |readers|
      && forall j :: 0 <= j < |readers| ==>
        (readers[j].None? ==> p[j].None?) &&
        (readers[j].Some? ==>
          var info := readers[j].value;
          var bps := BytesPerSample(info.info.sampleType);
          var start := info.sampleByteOffset * width + x * bps;
          && start + bps <= |line|
          && p[j].Some?
          && p[j].value.Type() == info.info.sampleType
          && p[j].value.bits == line[start..start + bps])
  {
    var cs := CursorsAt(readers, width, x);
    var rs := seq(|cs|, j requires 0 <= j < |cs| => SampleOf(cs[j], line));
    forall j | 0 <= j < |readers| && readers[j].Some?
      ensures var info := readers[j].value;
        var bps := BytesPerSample(info.info.sampleType);
        var start := info.sampleByteOffset * width + x * bps;
        start + bps <= |line| && rs[j].Ok? && rs[j].value.Some? &&
        rs[j].value.value.Type() == info.info.sampleType &&
        rs[j].value.value.bits == line[start..start + bps]
    {
      var info := readers[j].value;
      var bps := BytesPerSample(info.info.sampleType);
      SampleWithinRow(info.sampleByteOffset, bps, bytesPerPixel, width, x);
    }
    AllOkSpec(rs);
  }

  /**
   * The line reader of one row: the tuple of per-slot line readers, whose
   * indices `read_next_sample` advances in place.
   */
  class PixelLineReader {
    var cursors: seq<Option<LineCursor>>

    /** A clone of the row's initial line reader. */
    constructor (initial: seq<Option<LineCursor>>)
      ensures cursors == initial
    {
      cursors := initial;
    }

    /**
     * `read_next_sample` of slot `j`: a present cursor decodes from
     * `min(index, len)` and advances by its sample width even when the decode
     * fails; an absent one yields `None` and keeps no state.
     */
    method ReadNextSample(j: nat, bytes: seq<Byte>) returns (r: Result<Option<Sample>>)
      requires j < |cursors|
      modifies this
      ensures r == SampleOf(old(cursors)[j], bytes)
      ensures cursors == old(cursors)[j := Advance(old(cursors)[j])]
    {
      match cursors[j]
      case None =>
        r := Ok(None);
      case Some(cursor) =>
        var start := Min(cursor.index, |bytes|);
        cursors := cursors[j := Some(cursor.(index := cursor.index + BytesPerSample(cursor.sampleType)))];
        var decoded := DecodeSample(cursor.sampleType, bytes[start..]);
        r := if decoded.Ok? then Ok(Some(decoded.value)) else Err(decoded.error);
    }

    /**
     * `read_next_pixel`: reads every slot in slot order. On success every
     * cursor has advanced once; on the first failing slot `k`, the slots up to
     * and including `k` have advanced and the later ones have not.
     */
    method ReadNextPixel(bytes: seq<Byte>) returns (r: Result<Pixel>)
      modifies this
      ensures r == PixelOf(old(cursors), bytes)
      ensures r.Ok? ==> cursors == AdvancePrefix(old(cursors), |old(cursors)|)
      ensures r.Err? ==> exists k :: 0 <= k < |old(cursors)| && SampleOf(old(cursors)[k], bytes).Err? &&
                                    (forall i :: 0 <= i < k ==> SampleOf(old(cursors)[i], bytes).Ok?) &&
                                    cursors == AdvancePrefix(old(cursors), k + 1)
    {
      ghost var cs := cursors;
      ghost var rs := seq(|cs|, j requires 0 <= j < |cs| => SampleOf(cs[j], bytes));
      var pixel: Pixel := [];
      var slotCount := |cursors|;
      for j := 0 to slotCount
        invariant cursors == AdvancePrefix(cs, j)
        invariant AllOk(rs[..j]) == Ok(pixel)
        invariant forall i :: 0 <= i < j ==> SampleOf(cs[i], bytes).Ok?
      {
        var sample := ReadNextSample(j, bytes);
        assert rs[..j + 1][..j] == rs[..j];
        if sample.Err? {
          PixelPrefixError(rs, j + 1);
          assert cursors == AdvancePrefix(cs, j + 1);
          return Err(sample.error);
        }
        pixel := pixel + [sample.value];
      }
      assert rs[..|cs|] == rs;
      r := Ok(pixel);
    }
  }

  /** An error in the first `k` slots is the error of the whole pixel. */
  lemma {:induction false} PixelPrefixError(rs: seq<Result<Option<Sample>>>, k: nat)
    requires k <= |rs|
    requires AllOk(rs[..k]).Err?
    ensures AllOk(rs) == AllOk(rs[..k])
    decreases |rs| - k
  {
    if k < |rs| {
      assert rs[..k + 1][..k] == rs[..k];
      PixelPrefixError(rs, k + 1);
    } else {
      assert rs[..k] == rs;
    }
  }
}
