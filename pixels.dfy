/**
 * `pixels::Flattened`: a reference storage for the reader that keeps one
 * pixel per position of the layer, row after row, in a single buffer that the
 * setter updates in place.
 */
module Pixels {
  import opened Meta
  import opened ChannelsReader

  /** `Flattened<T>`: the layer's resolution and its row-major pixel buffer. */
  class Flattened<T> {
    const size: Vec2
    const samples: array<T>

    /** The buffer holds exactly one pixel per position. */
    ghost predicate Valid()
      reads this
    {
      samples.Length == size.Area()
    }

    /**
     * `Flattened::new`: the source asserts that the sample count is the
     * resolution's area and panics otherwise, so callers must meet it.
     */
    constructor (resolution: Vec2, pixels: seq<T>)
      requires resolution.Area() == |pixels|
      ensures Valid()
      ensures size == resolution && samples[..] == pixels
      ensures fresh(samples)
    {
      size := resolution;
      samples := new T[|pixels|](i requires 0 <= i < |pixels| => pixels[i]);
    }

    /**
     * `compute_pixel_index`: the buffer index of a position inside the
     * layer; the column and the row can be read back from it.
     */
    function ComputePixelIndex(position: Vec2): (i: nat)
      requires position.x < size.x && position.y < size.y
      ensures i < size.Area()
      ensures i % size.x == position.x && i / size.x == position.y
    {
      FlatIndexInverse(position, size);
      FlatIndex(position, size)
    }
  }

  /** `create_flattened`: a buffer of `area` default pixels at the layer's resolution. */
  method CreateFlattened<T>(image: ChannelsInfo, default: T) returns (f: Flattened<T>)
    ensures fresh(f) && fresh(f.samples) && f.Valid()
    ensures f.size == image.resolution
    ensures |f.samples[..]| == image.resolution.Area()
    ensures forall i :: 0 <= i < f.samples.Length ==> f.samples[i] == default
  {
    var pixels := seq(image.resolution.Area(), _ => default);
    f := new Flattened(image.resolution, pixels);
  }

  /** `get_flattened_pixel`: the pixel stored for a position of the layer. */
  function GetFlattenedPixel<T>(image: Flattened<T>, position: Vec2): (p: T)
    requires image.Valid()
    requires position.x < image.size.x && position.y < image.size.y
    reads image, image.samples
    ensures exists i :: 0 <= i < image.samples.Length && i % image.size.x == position.x &&
                        i / image.size.x == position.y && p == image.samples[i]
  {
    image.samples[image.ComputePixelIndex(position)]
  }

  /**
   * `set_flattened_pixel`: stores the pixel at its position; every other
   * position keeps its pixel and the buffer keeps its length.
   */
  method SetFlattenedPixel<T>(image: Flattened<T>, position: Vec2, pixel: T)
    requires image.Valid()
    requires position.x < image.size.x && position.y < image.size.y
    modifies image.samples
    ensures image.samples[..] == old(image.samples[..])[FlatIndex(position, image.size) := pixel]
    ensures GetFlattenedPixel(image, position) == pixel
    ensures forall q: Vec2 :: q.x < image.size.x && q.y < image.size.y && q != position ==>
      GetFlattenedPixel(image, q) == old(GetFlattenedPixel(image, q))
  {
    var index := image.ComputePixelIndex(position);
    image.samples[index] := pixel;
    forall q: Vec2 | q.x < image.size.x && q.y < image.size.y && q != position
      ensures GetFlattenedPixel(image, q) == old(GetFlattenedPixel(image, q))
    {
      FlatIndexInjective(q, position, image.size);
    }
  }
}
