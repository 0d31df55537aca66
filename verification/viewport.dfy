/**
  The drawing surface's size (`resizeCanvas` in src/app/home/page.js): a
  square whose CSS side is `min(containerWidth, containerHeight, 500)` and
  whose backing store is that side times the device pixel ratio.
 */
module Viewport {
  import Arith

  /** Upper bound of the CSS side of the canvas. */
  const MaxSide: real := 500.0

  /**
    The canvas backing store in physical pixels.  `width` and `height` are
    unsigned integer attributes of the canvas element, so assigning the real
    product `size * scale` truncates it.
   */
  datatype Canvas = Canvas(width: nat, height: nat)

  /** Before the first resize the canvas element has its default 300 x 150 store. */
  const Initial: Canvas := Canvas(300, 150)

  /** `Math.min(width, height, 500)`. */
  function Side(containerWidth: real, containerHeight: real): (size: real)
    ensures size <= containerWidth && size <= containerHeight && size <= MaxSide
    ensures size == containerWidth || size == containerHeight || size == MaxSide
  {
    Arith.Min(Arith.Min(containerWidth, containerHeight), MaxSide)
  }

  /** Truncation of a non-negative real to the integer attribute value. */
  function Truncate(v: real): (n: nat)
    requires v >= 0.0
    ensures n as real <= v < n as real + 1.0
  {
    v.Floor
  }

  /** `canvas.width = size * scale; canvas.height = size * scale`. */
  function Resize(containerWidth: real, containerHeight: real, scale: real): (c: Canvas)
    requires containerWidth >= 0.0 && containerHeight >= 0.0 && scale > 0.0
    ensures c.width == c.height
    ensures c.width as real <= Side(containerWidth, containerHeight) * scale
    ensures Side(containerWidth, containerHeight) * scale < c.width as real + 1.0
  {
    var size := Side(containerWidth, containerHeight);
    var n := Truncate(size * scale);
    Canvas(n, n)
  }

  /**
    Measured back in logical units, a resized canvas is square and its side
    is at most the container's shorter side and at most 500.
   */
  lemma LogicalSideBound(containerWidth: real, containerHeight: real, scale: real)
    requires containerWidth >= 0.0 && containerHeight >= 0.0 && scale > 0.0
    ensures var c := Resize(containerWidth, containerHeight, scale);
      0.0 <= c.width as real / scale == c.height as real / scale <= Side(containerWidth, containerHeight) <= MaxSide
  {
    var size := Side(containerWidth, containerHeight);
    var c := Resize(containerWidth, containerHeight, scale);
    Arith.DivideBelow(c.width as real, size, scale);
  }
}
