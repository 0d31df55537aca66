/**
  Real-number helpers shared by the geometry of the canvas, the text and the
  pointer: `Math.min`, `Math.max`, and the order and cancellation facts that
  move a comparison between logical units and physical pixels.
 */
module Arith {

  /** `Math.min(a, b)`. */
  function Min(a: real, b: real): (m: real)
    ensures m <= a && m <= b
    ensures m == a || m == b
  {
    if a <= b then a else b
  }

  /** `Math.max(a, b)`. */
  function Max(a: real, b: real): (m: real)
    ensures m >= a && m >= b
    ensures m == a || m == b
  {
    if a >= b then a else b
  }

  /** Multiplying both sides by a positive factor keeps a weak and a strict order, both ways. */
  lemma ScaleOrder(a: real, b: real, s: real)
    requires s > 0.0
    ensures a <= b <==> a * s <= b * s
    ensures a < b <==> a * s < b * s
  {
    assert b * s - a * s == (b - a) * s;
    if a > b {
      assert (a - b) * s > 0.0;
    } else if a < b {
      assert (b - a) * s > 0.0;
    }
  }

  /** Converting to physical pixels and back is the identity. */
  lemma CancelScale(a: real, s: real)
    requires s > 0.0
    ensures a * s / s == a
  {
  }

  /** a <= b * s implies a / s <= b for a positive s. */
  lemma DivideBelow(a: real, b: real, s: real)
    requires s > 0.0 && a <= b * s
    ensures a / s <= b
  {
    assert a / s * s == a;
    assert (b - a / s) * s == b * s - a;
  }

  /** Quotients by the same positive divisor add up. */
  lemma AddQuotients(a: real, b: real, s: real)
    requires s > 0.0
    ensures a / s + b / s == (a + b) / s
  {
  }
}
