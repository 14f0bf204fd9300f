/** The 3 x 3 paint brush: which cells one dab touches and by how much. Mouse
    coordinates count rows from the top, buffer rows from the bottom, so the
    touched row is flipped. */
module Brush {
  import opened Grid

  /** Which buffer a dab paints into. */
  datatype PaintMode = PaintObstruction | PaintSource

  /** Obstruction weights: 0 at the centre, 0.5 on the edges, 0.75 in the corners. */
  function ObstructionBrush(a: int, b: int): (v: real)
    requires 0 <= a < 3 && 0 <= b < 3
    ensures 0.0 <= v < 1.0
    ensures v == 0.0 <==> a == 1 && b == 1
  {
    if a == 1 && b == 1 then 0.0
    else if a == 1 || b == 1 then 0.5
    else 0.75
  }

  /** Source weights: 1 at the centre, 0.5 on the edges, 0.25 in the corners. */
  function SourceBrush(a: int, b: int): (v: real)
    requires 0 <= a < 3 && 0 <= b < 3
    ensures 0.0 < v <= 1.0
    ensures v == 1.0 <==> a == 1 && b == 1
  {
    if a == 1 && b == 1 then 1.0
    else if a == 1 || b == 1 then 0.5
    else 0.25
  }

  /** Both brushes are symmetric under transposition and under mirroring either axis. */
  lemma BrushesSymmetric(a: int, b: int)
    requires 0 <= a < 3 && 0 <= b < 3
    ensures ObstructionBrush(a, b) == ObstructionBrush(b, a) == ObstructionBrush(2 - a, b)
    ensures SourceBrush(a, b) == SourceBrush(b, a) == SourceBrush(2 - a, b)
  {
  }

  /** One brush weight applied to one cell value: multiplied into the obstruction mask,
      added to the source accumulator. */
  function ApplyBrush(mode: PaintMode, v: real, a: int, b: int): (r: real)
    requires 0 <= a < 3 && 0 <= b < 3
    ensures mode == PaintObstruction && 0.0 <= v ==> 0.0 <= r <= v
    ensures mode == PaintSource ==> v < r <= v + 1.0
  {
    match mode
    case PaintObstruction => v * ObstructionBrush(a, b)
    case PaintSource => v + SourceBrush(a, b)
  }

  /** First column (row) of the box around c, clamped at 0. */
  function BoxLo(c: int): int {
    if c - 1 < 0 then 0 else c - 1
  }

  /** Last column (row) of the box around c, clamped at n - 1. */
  function BoxHi(c: int, n: int): int {
    if c + 1 >= n then n - 1 else c + 1
  }

  /** Mouse-space cell (cx, cy) lies in the clamped box of a dab at (x, y). */
  predicate InBox(w: nat, hgt: nat, x: int, y: int, cx: int, cy: int) {
    BoxLo(x) <= cx <= BoxHi(x, w) && BoxLo(y) <= cy <= BoxHi(y, hgt)
  }

  /** Every cell of the clamped box is a grid cell, and its brush offsets lie in [0, 2],
      wherever the mouse is, inside the window or not. */
  lemma BoxWithinGridAndBrush(w: nat, hgt: nat, x: int, y: int, cx: int, cy: int)
    requires InBox(w, hgt, x, y, cx, cy)
    ensures InGrid(w, hgt, cx, cy)
    ensures 0 <= cx - BoxLo(x) <= 2 && 0 <= cy - BoxLo(y) <= 2
  {
  }

  /** Buffer index of mouse-space cell (ix, iy): column ix, row hgt - 1 - iy. */
  function FlippedIdx(w: nat, hgt: nat, ix: int, iy: int): (i: nat)
    requires InGrid(w, hgt, ix, iy)
    ensures i < w * hgt
    ensures Col(w, i) == ix && Row(w, i) == hgt - 1 - iy
  {
    Idx(w, hgt, ix, hgt - iy - 1)
  }

  /** New value of buffer cell i after a dab at (x, y) in the given mode. */
  function DabCell(buf: seq<real>, w: nat, hgt: nat, x: int, y: int, mode: PaintMode, i: int): real
    requires |buf| == w * hgt && 0 <= i < w * hgt
  {
    CellOfIndex(w, hgt, i);
    var cx, cy := Col(w, i), hgt - 1 - Row(w, i);
    if InBox(w, hgt, x, y, cx, cy) then ApplyBrush(mode, buf[i], cx - BoxLo(x), cy - BoxLo(y))
    else buf[i]
  }

  /** The buffer after one dab at mouse position (x, y). */
  function Dabbed(buf: seq<real>, w: nat, hgt: nat, x: int, y: int, mode: PaintMode): (r: seq<real>)
    requires |buf| == w * hgt
    ensures |r| == |buf|
  {
    seq(|buf|, i requires 0 <= i < |buf| => DabCell(buf, w, hgt, x, y, mode, i))
  }

  /** Cells outside the clamped box are never changed by a dab. */
  lemma DabTouchesOnlyBox(buf: seq<real>, w: nat, hgt: nat, x: int, y: int, mode: PaintMode, ix: int, iy: int)
    requires |buf| == w * hgt && InGrid(w, hgt, ix, iy) && !InBox(w, hgt, x, y, ix, iy)
    ensures Dabbed(buf, w, hgt, x, y, mode)[FlippedIdx(w, hgt, ix, iy)] == buf[FlippedIdx(w, hgt, ix, iy)]
  {
  }

  /** Painting obstruction keeps a mask with values in [0, 1] within [0, 1], and never
      opens a cell: every value can only decrease. */
  lemma DabKeepsMaskInUnitRange(obs: seq<real>, w: nat, hgt: nat, x: int, y: int)
    requires |obs| == w * hgt
    requires forall i :: 0 <= i < |obs| ==> 0.0 <= obs[i] <= 1.0
    ensures forall i :: 0 <= i < |obs| ==>
      0.0 <= Dabbed(obs, w, hgt, x, y, PaintObstruction)[i] <= obs[i]
  {
    forall i | 0 <= i < |obs|
      ensures 0.0 <= Dabbed(obs, w, hgt, x, y, PaintObstruction)[i] <= obs[i]
    {
      CellOfIndex(w, hgt, i);
      var cx, cy := Col(w, i), hgt - 1 - Row(w, i);
      if InBox(w, hgt, x, y, cx, cy) {
        var v := ObstructionBrush(cx - BoxLo(x), cy - BoxLo(y));
        assert 0.0 <= obs[i] * v <= obs[i] * 1.0;
      }
    }
  }

  /** Away from the lower clamps, a dab fully blocks the cell under the cursor and adds a
      full unit of source there. */
  lemma DabCentreOnCursor(buf: seq<real>, w: nat, hgt: nat, x: int, y: int)
    requires |buf| == w * hgt && InGrid(w, hgt, x, y) && 1 <= x && 1 <= y
    ensures Dabbed(buf, w, hgt, x, y, PaintObstruction)[FlippedIdx(w, hgt, x, y)] == 0.0
    ensures Dabbed(buf, w, hgt, x, y, PaintSource)[FlippedIdx(w, hgt, x, y)] == buf[FlippedIdx(w, hgt, x, y)] + 1.0
  {
  }

  /** At the left edge the clamp shifts the brush: the cursor cell takes an edge weight
      and the full-strength centre lands one column to its right. */
  lemma DabAtLeftEdgeIsOffCentre(buf: seq<real>, w: nat, hgt: nat, y: int)
    requires |buf| == w * hgt && 2 <= w && 1 <= y < hgt
    ensures Dabbed(buf, w, hgt, 0, y, PaintObstruction)[FlippedIdx(w, hgt, 0, y)] == buf[FlippedIdx(w, hgt, 0, y)] * 0.5
    ensures Dabbed(buf, w, hgt, 0, y, PaintObstruction)[FlippedIdx(w, hgt, 1, y)] == 0.0
  {
  }
}
