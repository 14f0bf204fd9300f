/** The vertical-derivative pass of iWave: a (2R+1) x (2R+1) correlation of the
    height buffer with the dispersion kernel, evaluated only on the interior band
    of cells at least R away from every border. */
module Convolution {
  import opened Grid

  /** Kernel radius. */
  const R: int := 6
  /** Kernel side, 2R+1. */
  const Span: int := 13

  /** A kernel value: Span rows of Span entries, indexed [dx + R][dy + R]. */
  predicate IsKernel(ks: seq<seq<real>>) {
    |ks| == Span && forall a :: 0 <= a < Span ==> |ks[a]| == Span
  }

  predicate Offset(d: int) {
    -R <= d <= R
  }

  /** Cells whose whole kernel window lies inside the grid; the only cells the pass writes. */
  predicate Interior(w: nat, hgt: nat, x: int, y: int) {
    R <= x < w - R && R <= y < hgt - R
  }

  /** Index of the neighbour (x+dx, y+dy) of an interior cell: always inside the buffer. */
  function NeighbourIndex(w: nat, hgt: nat, x: int, y: int, dx: int, dy: int): (i: nat)
    requires Interior(w, hgt, x, y) && Offset(dx) && Offset(dy)
    ensures i < w * hgt
  {
    var row := y + dy;
    MulMonotone(w, 0, row);
    MulMonotone(w, row + 1, hgt);
    assert w * (row + 1) == w * row + w;
    x + dx + w * row
  }

  /** The neighbour index addresses exactly grid cell (x+dx, y+dy). */
  lemma NeighbourIndexIsCell(w: nat, hgt: nat, x: int, y: int, dx: int, dy: int)
    requires Interior(w, hgt, x, y) && Offset(dx) && Offset(dy)
    ensures InGrid(w, hgt, x + dx, y + dy)
    ensures NeighbourIndex(w, hgt, x, y, dx, dy) == Idx(w, hgt, x + dx, y + dy)
    ensures Col(w, NeighbourIndex(w, hgt, x, y, dx, dy)) == x + dx
    ensures Row(w, NeighbourIndex(w, hgt, x, y, dx, dy)) == y + dy
  {
  }

  /** The first `n` terms (dy = -R .. -R+n-1) of kernel row dx applied around (x, y). */
  function RowSum(ks: seq<seq<real>>, hs: seq<real>, w: nat, hgt: nat, x: int, y: int, dx: int, n: nat): real
    requires IsKernel(ks) && |hs| == w * hgt && Interior(w, hgt, x, y) && Offset(dx) && n <= Span
  {
    if n == 0 then 0.0
    else RowSum(ks, hs, w, hgt, x, y, dx, n - 1)
         + ks[dx + R][n - 1] * hs[NeighbourIndex(w, hgt, x, y, dx, n - 1 - R)]
  }

  /** The first `m` kernel rows (dx = -R .. -R+m-1), each summed in full, around (x, y). */
  function WindowSum(ks: seq<seq<real>>, hs: seq<real>, w: nat, hgt: nat, x: int, y: int, m: nat): real
    requires IsKernel(ks) && |hs| == w * hgt && Interior(w, hgt, x, y) && m <= Span
  {
    if m == 0 then 0.0
    else WindowSum(ks, hs, w, hgt, x, y, m - 1) + RowSum(ks, hs, w, hgt, x, y, m - 1 - R, Span)
  }

  /** Sum over dx, dy in [-R, R] of ks[dx+R][dy+R] * hs[idx(x+dx, y+dy)]. */
  function NeighbourSum(ks: seq<seq<real>>, hs: seq<real>, w: nat, hgt: nat, x: int, y: int): real
    requires IsKernel(ks) && |hs| == w * hgt && Interior(w, hgt, x, y)
  {
    WindowSum(ks, hs, w, hgt, x, y, Span)
  }

  /** New value of cell i of the vertical-derivative buffer `vd0`. */
  function CellDerivative(ks: seq<seq<real>>, hs: seq<real>, vd0: seq<real>, w: nat, hgt: nat, i: int): real
    requires IsKernel(ks) && |hs| == w * hgt && |vd0| == w * hgt && 0 <= i < w * hgt
  {
    CellOfIndex(w, hgt, i);
    if Interior(w, hgt, Col(w, i), Row(w, i)) then NeighbourSum(ks, hs, w, hgt, Col(w, i), Row(w, i))
    else vd0[i]
  }

  /** The vertical-derivative buffer after one pass over heights `hs`, starting from `vd0`. */
  function VerticalDerivative(ks: seq<seq<real>>, hs: seq<real>, vd0: seq<real>, w: nat, hgt: nat): (vd: seq<real>)
    requires IsKernel(ks) && |hs| == w * hgt && |vd0| == w * hgt
    ensures |vd| == |vd0|
  {
    seq(|vd0|, i requires 0 <= i < |vd0| => CellDerivative(ks, hs, vd0, w, hgt, i))
  }

  /** Interior cells receive the full neighbourhood sum of the heights. */
  lemma InteriorGetsNeighbourSum(ks: seq<seq<real>>, hs: seq<real>, vd0: seq<real>, w: nat, hgt: nat, x: int, y: int)
    requires IsKernel(ks) && |hs| == w * hgt && |vd0| == w * hgt && Interior(w, hgt, x, y)
    ensures VerticalDerivative(ks, hs, vd0, w, hgt)[Idx(w, hgt, x, y)] == NeighbourSum(ks, hs, w, hgt, x, y)
  {
  }

  /** Cells of the outer ring of width R keep whatever value they held. */
  lemma RingKeepsDerivative(ks: seq<seq<real>>, hs: seq<real>, vd0: seq<real>, w: nat, hgt: nat, x: int, y: int)
    requires IsKernel(ks) && |hs| == w * hgt && |vd0| == w * hgt
    requires InGrid(w, hgt, x, y) && !Interior(w, hgt, x, y)
    ensures VerticalDerivative(ks, hs, vd0, w, hgt)[Idx(w, hgt, x, y)] == vd0[Idx(w, hgt, x, y)]
  {
  }

  /** A grid no wider or no taller than 2R has no interior: the pass changes nothing. */
  lemma SmallGridKeepsDerivative(ks: seq<seq<real>>, hs: seq<real>, vd0: seq<real>, w: nat, hgt: nat)
    requires IsKernel(ks) && |hs| == w * hgt && |vd0| == w * hgt
    requires w <= 2 * R || hgt <= 2 * R
    ensures VerticalDerivative(ks, hs, vd0, w, hgt) == vd0
  {
  }

  lemma {:induction false} RowSumOfCalm(ks: seq<seq<real>>, hs: seq<real>, w: nat, hgt: nat, x: int, y: int, dx: int, n: nat)
    requires IsKernel(ks) && |hs| == w * hgt && Interior(w, hgt, x, y) && Offset(dx) && n <= Span
    requires forall i :: 0 <= i < |hs| ==> hs[i] == 0.0
    ensures RowSum(ks, hs, w, hgt, x, y, dx, n) == 0.0
  {
    if n > 0 {
      RowSumOfCalm(ks, hs, w, hgt, x, y, dx, n - 1);
    }
  }

  lemma {:induction false} WindowSumOfCalm(ks: seq<seq<real>>, hs: seq<real>, w: nat, hgt: nat, x: int, y: int, m: nat)
    requires IsKernel(ks) && |hs| == w * hgt && Interior(w, hgt, x, y) && m <= Span
    requires forall i :: 0 <= i < |hs| ==> hs[i] == 0.0
    ensures WindowSum(ks, hs, w, hgt, x, y, m) == 0.0
  {
    if m > 0 {
      WindowSumOfCalm(ks, hs, w, hgt, x, y, m - 1);
      RowSumOfCalm(ks, hs, w, hgt, x, y, m - 1 - R, Span);
    }
  }

  /** A flat height field has zero vertical derivative on the interior, whatever the kernel. */
  lemma DerivativeOfCalm(ks: seq<seq<real>>, hs: seq<real>, vd0: seq<real>, w: nat, hgt: nat, i: int)
    requires IsKernel(ks) && |hs| == w * hgt && |vd0| == w * hgt && 0 <= i < w * hgt
    requires forall j :: 0 <= j < |hs| ==> hs[j] == 0.0
    ensures VerticalDerivative(ks, hs, vd0, w, hgt)[i] == (if Interior(w, hgt, Col(w, i), Row(w, i)) then 0.0 else vd0[i])
  {
    CellOfIndex(w, hgt, i);
    if Interior(w, hgt, Col(w, i), Row(w, i)) {
      WindowSumOfCalm(ks, hs, w, hgt, Col(w, i), Row(w, i), Span);
    }
  }

  /** Heights `hs` and `hs'` agree on every cell of the kernel window around (x, y). */
  ghost predicate AgreeOnWindow(hs: seq<real>, hs': seq<real>, w: nat, hgt: nat, x: int, y: int)
    requires |hs| == w * hgt && |hs'| == w * hgt && Interior(w, hgt, x, y)
  {
    forall dx, dy :: Offset(dx) && Offset(dy) ==>
      hs[NeighbourIndex(w, hgt, x, y, dx, dy)] == hs'[NeighbourIndex(w, hgt, x, y, dx, dy)]
  }

  lemma {:induction false} RowSumLocal(ks: seq<seq<real>>, hs: seq<real>, hs': seq<real>, w: nat, hgt: nat, x: int, y: int, dx: int, n: nat)
    requires IsKernel(ks) && |hs| == w * hgt && |hs'| == w * hgt && Interior(w, hgt, x, y) && Offset(dx) && n <= Span
    requires AgreeOnWindow(hs, hs', w, hgt, x, y)
    ensures RowSum(ks, hs, w, hgt, x, y, dx, n) == RowSum(ks, hs', w, hgt, x, y, dx, n)
  {
    if n > 0 {
      var k := NeighbourIndex(w, hgt, x, y, dx, n - 1 - R);
      var c := ks[dx + R][n - 1];
      calc {
        RowSum(ks, hs, w, hgt, x, y, dx, n);
        RowSum(ks, hs, w, hgt, x, y, dx, n - 1) + c * hs[k];
        { RowSumLocal(ks, hs, hs', w, hgt, x, y, dx, n - 1); }
        RowSum(ks, hs', w, hgt, x, y, dx, n - 1) + c * hs[k];
        { assert Offset(n - 1 - R); }
        RowSum(ks, hs', w, hgt, x, y, dx, n - 1) + c * hs'[k];
      }
    }
  }

  lemma {:induction false} WindowSumLocal(ks: seq<seq<real>>, hs: seq<real>, hs': seq<real>, w: nat, hgt: nat, x: int, y: int, m: nat)
    requires IsKernel(ks) && |hs| == w * hgt && |hs'| == w * hgt && Interior(w, hgt, x, y) && m <= Span
    requires AgreeOnWindow(hs, hs', w, hgt, x, y)
    ensures WindowSum(ks, hs, w, hgt, x, y, m) == WindowSum(ks, hs', w, hgt, x, y, m)
  {
    if m > 0 {
      WindowSumLocal(ks, hs, hs', w, hgt, x, y, m - 1);
      RowSumLocal(ks, hs, hs', w, hgt, x, y, m - 1 - R, Span);
    }
  }

  /** The derivative of a cell reads the heights of its (2R+1) x (2R+1) window and nothing else. */
  lemma NeighbourSumIsLocal(ks: seq<seq<real>>, hs: seq<real>, hs': seq<real>, w: nat, hgt: nat, x: int, y: int)
    requires IsKernel(ks) && |hs| == w * hgt && |hs'| == w * hgt && Interior(w, hgt, x, y)
    requires AgreeOnWindow(hs, hs', w, hgt, x, y)
    ensures NeighbourSum(ks, hs, w, hgt, x, y) == NeighbourSum(ks, hs', w, hgt, x, y)
  {
    WindowSumLocal(ks, hs, hs', w, hgt, x, y, Span);
  }

  /** Distinct window offsets address distinct cells. */
  lemma NeighbourIndexInjective(w: nat, hgt: nat, x: int, y: int, dx: int, dy: int, ex: int, ey: int)
    requires Interior(w, hgt, x, y) && Offset(dx) && Offset(dy) && Offset(ex) && Offset(ey)
    requires NeighbourIndex(w, hgt, x, y, dx, dy) == NeighbourIndex(w, hgt, x, y, ex, ey)
    ensures dx == ex && dy == ey
  {
    NeighbourIndexIsCell(w, hgt, x, y, dx, dy);
    NeighbourIndexIsCell(w, hgt, x, y, ex, ey);
  }

  /** A height field of `n` cells that is 1 at cell k and 0 everywhere else. */
  function Impulse(n: nat, k: nat): (hs: seq<real>)
    requires k < n
    ensures |hs| == n && hs[k] == 1.0
    ensures forall i :: 0 <= i < n && i != k ==> hs[i] == 0.0
  {
    Filled(n, 0.0)[k := 1.0]
  }

  /** The first `n` terms of kernel row dx against a unit impulse at offset (ex, ey): the
      kernel entry [dx+R][ey+R] when the impulse lies in that row and among those terms. */
  lemma {:induction false} RowSumOfImpulse(ks: seq<seq<real>>, w: nat, hgt: nat, x: int, y: int, dx: int, n: nat,
                                           ex: int, ey: int)
    requires IsKernel(ks) && Interior(w, hgt, x, y) && Offset(dx) && n <= Span && Offset(ex) && Offset(ey)
    ensures RowSum(ks, Impulse(w * hgt, NeighbourIndex(w, hgt, x, y, ex, ey)), w, hgt, x, y, dx, n)
         == if dx == ex && ey + R < n then ks[dx + R][ey + R] else 0.0
  {
    if n > 0 {
      var hs := Impulse(w * hgt, NeighbourIndex(w, hgt, x, y, ex, ey));
      RowSumOfImpulse(ks, w, hgt, x, y, dx, n - 1, ex, ey);
      var k := NeighbourIndex(w, hgt, x, y, dx, n - 1 - R);
      if k == NeighbourIndex(w, hgt, x, y, ex, ey) {
        NeighbourIndexInjective(w, hgt, x, y, dx, n - 1 - R, ex, ey);
      }
      assert RowSum(ks, hs, w, hgt, x, y, dx, n) == RowSum(ks, hs, w, hgt, x, y, dx, n - 1) + ks[dx + R][n - 1] * hs[k];
    }
  }

  /** The first `m` kernel rows against a unit impulse at offset (ex, ey). */
  lemma {:induction false} WindowSumOfImpulse(ks: seq<seq<real>>, w: nat, hgt: nat, x: int, y: int, m: nat,
                                              ex: int, ey: int)
    requires IsKernel(ks) && Interior(w, hgt, x, y) && m <= Span && Offset(ex) && Offset(ey)
    ensures WindowSum(ks, Impulse(w * hgt, NeighbourIndex(w, hgt, x, y, ex, ey)), w, hgt, x, y, m)
         == if ex + R < m then ks[ex + R][ey + R] else 0.0
  {
    if m > 0 {
      WindowSumOfImpulse(ks, w, hgt, x, y, m - 1, ex, ey);
      RowSumOfImpulse(ks, w, hgt, x, y, m - 1 - R, Span, ex, ey);
    }
  }

  /** Impulse response of the pass: an interior cell (x, y) sees a unit height at
      (x+ex, y+ey) through kernel entry [ex+R][ey+R], first index along x. */
  lemma DerivativeOfImpulse(ks: seq<seq<real>>, vd0: seq<real>, w: nat, hgt: nat, x: int, y: int, ex: int, ey: int)
    requires IsKernel(ks) && |vd0| == w * hgt && Interior(w, hgt, x, y) && Offset(ex) && Offset(ey)
    ensures NeighbourIndex(w, hgt, x, y, ex, ey) == Idx(w, hgt, x + ex, y + ey)
    ensures VerticalDerivative(ks, Impulse(w * hgt, NeighbourIndex(w, hgt, x, y, ex, ey)), vd0, w, hgt)[Idx(w, hgt, x, y)]
         == ks[ex + R][ey + R]
  {
    NeighbourIndexIsCell(w, hgt, x, y, ex, ey);
    WindowSumOfImpulse(ks, w, hgt, x, y, Span, ex, ey);
    InteriorGetsNeighbourSum(ks, Impulse(w * hgt, NeighbourIndex(w, hgt, x, y, ex, ey)), vd0, w, hgt, x, y);
  }

  function Square(d: int): nat {
    d * d
  }

  /** The kernel built from a radial profile: entry [a][b] depends only on the squared
      distance (a-R)^2 + (b-R)^2 of the offset from the centre. */
  function RadialKernel(radial: nat -> real): (ks: seq<seq<real>>)
    ensures IsKernel(ks)
  {
    seq(Span, a => seq(Span, b => radial(Square(a - R) + Square(b - R))))
  }

  /** Symmetric under transposition and under a sign flip of either offset. */
  ghost predicate Symmetric(ks: seq<seq<real>>)
    requires IsKernel(ks)
  {
    forall a, b {:trigger ks[a][b]} :: 0 <= a < Span && 0 <= b < Span ==>
      ks[a][b] == ks[b][a] && ks[a][b] == ks[Span - 1 - a][b] && ks[a][b] == ks[a][Span - 1 - b]
  }

  lemma RadialKernelIsSymmetric(radial: nat -> real)
    ensures Symmetric(RadialKernel(radial))
  {
    var ks := RadialKernel(radial);
    forall a, b {:trigger ks[a][b]} | 0 <= a < Span && 0 <= b < Span
      ensures ks[a][b] == ks[b][a] && ks[a][b] == ks[Span - 1 - a][b] && ks[a][b] == ks[a][Span - 1 - b]
    {
      assert Square(Span - 1 - a - R) == Square(a - R);
      assert Square(Span - 1 - b - R) == Square(b - R);
    }
  }
}
