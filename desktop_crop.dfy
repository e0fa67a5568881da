/** The centre crop of `preprocess` in identify.py: the largest square box,
    in PIL's (left, upper, right, lower) convention, centred in a w-by-h image.
    Python's `//` on these non-negative operands agrees with Dafny's `/`. */
module DesktopCrop {

  datatype Box = Box(left: int, top: int, right: int, bottom: int)

  function Min(a: int, b: int): int
  {
    if a <= b then a else b
  }

  /** The box lies inside the image and is a `min(w, h)` square whatever the
      parity of the sides; the margins on the two sides of each axis differ
      by the parity of that axis's slack, the odd pixel going right or down. */
  function CenterCrop(w: nat, h: nat): (b: Box)
    ensures 0 <= b.left && b.right <= w && 0 <= b.top && b.bottom <= h
    ensures b.right - b.left == Min(w, h) && b.bottom - b.top == Min(w, h)
    ensures (w - b.right) - b.left == (w - Min(w, h)) % 2
    ensures (h - b.bottom) - b.top == (h - Min(w, h)) % 2
  {
    var m := Min(w, h);
    Box((w - m) / 2, (h - m) / 2, (w + m) / 2, (h + m) / 2)
  }
}
