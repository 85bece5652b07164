/** The target-size rule of the client's image compressor: an aspect-preserving
    downscale that never enlarges. Dimensions are exact reals; the browser's double
    rounding and the truncation when the canvas size is set are not modelled. */
module Resize {

  datatype Dims = Dims(width: real, height: real)

  /** The compressor's default bounds. */
  const DefaultMaxWidth: real := 800.0
  const DefaultMaxHeight: real := 800.0

  /** Target size for an image of `width` x `height`. A landscape image (strictly
      wider than high) is bounded by its width, any other by its height. */
  function ResizeDims(width: real, height: real, maxWidth: real, maxHeight: real): (r: Dims)
    requires width >= 0.0 && height >= 0.0 && maxWidth >= 0.0 && maxHeight >= 0.0
    ensures width > height && width > maxWidth ==>
              r.width == maxWidth && r.height == height * (maxWidth / width)
    ensures width <= height && height > maxHeight ==>
              r.height == maxHeight && r.width == width * (maxHeight / height)
    ensures (width > height && width <= maxWidth) || (width <= height && height <= maxHeight) ==>
              r == Dims(width, height)
  {
    if width > height then
      if width > maxWidth then Dims(maxWidth, height * (maxWidth / width)) else Dims(width, height)
    else
      if height > maxHeight then Dims(width * (maxHeight / height), maxHeight) else Dims(width, height)
  }

  /** The result has the proportions of the input. */
  lemma AspectRatioPreserved(width: real, height: real, maxWidth: real, maxHeight: real)
    requires width >= 0.0 && height >= 0.0 && maxWidth >= 0.0 && maxHeight >= 0.0
    ensures var r := ResizeDims(width, height, maxWidth, maxHeight);
            r.width * height == r.height * width
  {
  }

  /** The compressor only shrinks: neither side grows. */
  lemma NeverUpscales(width: real, height: real, maxWidth: real, maxHeight: real)
    requires width >= 0.0 && height >= 0.0 && maxWidth >= 0.0 && maxHeight >= 0.0
    ensures var r := ResizeDims(width, height, maxWidth, maxHeight);
            0.0 <= r.width <= width && 0.0 <= r.height <= height
  {
    var r := ResizeDims(width, height, maxWidth, maxHeight);
    if width > height && width > maxWidth {
      ScaleDown(height, maxWidth, width);
      assert r.height == height * (maxWidth / width);
    } else if width <= height && height > maxHeight {
      ScaleDown(width, maxHeight, height);
      assert r.width == width * (maxHeight / height);
    }
  }

  /** Multiplying by a factor `num / den` below one shrinks a non-negative value. */
  lemma ScaleDown(x: real, num: real, den: real)
    requires x >= 0.0 && 0.0 <= num < den
    ensures 0.0 <= x * (num / den) <= x
  {
  }

  /** With equal bounds (the compressor's defaults) the result fits the bound. */
  lemma FitsSquareBound(width: real, height: real, bound: real)
    requires width >= 0.0 && height >= 0.0 && bound >= 0.0
    ensures var r := ResizeDims(width, height, bound, bound);
            r.width <= bound && r.height <= bound
  {
  }

  /** 1600 x 1200 with the default bounds becomes 800 x 600. */
  lemma LandscapeExample()
    ensures ResizeDims(1600.0, 1200.0, DefaultMaxWidth, DefaultMaxHeight) == Dims(800.0, 600.0)
  {
  }

  /** 400 x 300 with the default bounds is kept as it is. */
  lemma SmallImageExample()
    ensures ResizeDims(400.0, 300.0, DefaultMaxWidth, DefaultMaxHeight) == Dims(400.0, 300.0)
  {
  }

  /** With unequal bounds the rule may exceed the height bound: a 1000 x 900 image
      bounded by 800 x 500 becomes 800 x 720. */
  lemma UnequalBoundsMayOverflow()
    ensures var r := ResizeDims(1000.0, 900.0, 800.0, 500.0);
            r == Dims(800.0, 720.0) && r.height > 500.0
  {
  }
}
