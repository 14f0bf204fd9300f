/** Row-major addressing of the W x H cell grid shared by every per-cell buffer:
    cell (x, y) lives at linear index x + W*y. */
module Grid {

  /** Column of linear index `i` in a grid `w` cells wide. */
  function Col(w: nat, i: int): int
    requires w > 0
  {
    i % w
  }

  /** Row of linear index `i` in a grid `w` cells wide. */
  function Row(w: nat, i: int): int
    requires w > 0
  {
    i / w
  }

  predicate InGrid(w: nat, hgt: nat, x: int, y: int) {
    0 <= x < w && 0 <= y < hgt
  }

  lemma MulMonotone(w: int, a: int, b: int)
    requires 0 <= w && a <= b
    ensures w * a <= w * b
  {
    assert w * b - w * a == w * (b - a);
  }

  /** Division by the width recovers the coordinates of a cell. */
  lemma DivModOfIdx(w: nat, x: int, y: int)
    requires 0 <= x < w
    ensures (x + w * y) / w == y && (x + w * y) % w == x
  {
    var i := x + w * y;
    var q, r := i / w, i % w;
    assert w * q + r == w * y + x;
    assert w * (q - y) == x - r;
    if q > y {
      MulMonotone(w, 1, q - y);
    } else if q < y {
      MulMonotone(w, 1, y - q);
    }
  }

  /** The linear index of cell (x, y): inside the buffer, and the inverse of (Col, Row). */
  function Idx(w: nat, hgt: nat, x: int, y: int): (i: nat)
    requires InGrid(w, hgt, x, y)
    ensures i < w * hgt
    ensures Col(w, i) == x && Row(w, i) == y
  {
    DivModOfIdx(w, x, y);
    MulMonotone(w, y + 1, hgt);
    x + w * y
  }

  /** Every index of a buffer of length w*hgt is the index of exactly one grid cell. */
  lemma CellOfIndex(w: nat, hgt: nat, i: int)
    requires 0 <= i < w * hgt
    ensures w > 0 && InGrid(w, hgt, Col(w, i), Row(w, i))
    ensures Idx(w, hgt, Col(w, i), Row(w, i)) == i
  {
    var q := i / w;
    if q >= hgt {
      MulMonotone(w, hgt, q);
    }
  }

  /** A buffer of `n` cells all holding `v`. */
  function Filled(n: nat, v: real): seq<real> {
    seq(n, _ => v)
  }

  /** Cell-wise product of a height buffer with the obstruction mask. */
  function Masked(hs: seq<real>, obs: seq<real>): (r: seq<real>)
    requires |hs| == |obs|
    ensures |r| == |hs|
  {
    seq(|hs|, i requires 0 <= i < |hs| => hs[i] * obs[i])
  }
}
