/** The iWave simulation state and its operations, in the imperative form of the
    original: fixed-size buffers updated in place by nested loops. */
module IWave {
  import opened Grid
  import opened WaveGrid
  import opened Convolution
  import opened Simulator
  import opened Brush
  import opened Display

  /** Value of cell i while the derivative pass is at column cx, row cy: interior cells
      before that point hold their neighbourhood sum, all others their old value. */
  ghost function DerivativeSoFar(ks: seq<seq<real>>, hs: seq<real>, vd0: seq<real>, w: nat, hgt: nat,
                                 i: int, cx: int, cy: int): real
    requires IsKernel(ks) && |hs| == w * hgt && |vd0| == w * hgt && 0 <= i < w * hgt
  {
    CellOfIndex(w, hgt, i);
    var x, y := Col(w, i), Row(w, i);
    if Interior(w, hgt, x, y) && (x < cx || (x == cx && y < cy)) then NeighbourSum(ks, hs, w, hgt, x, y)
    else vd0[i]
  }

  lemma DerivativeSoFarStep(ks: seq<seq<real>>, hs: seq<real>, vd0: seq<real>, w: nat, hgt: nat,
                            i: int, cx: int, cy: int)
    requires IsKernel(ks) && |hs| == w * hgt && |vd0| == w * hgt && 0 <= i < w * hgt
    requires Interior(w, hgt, cx, cy)
    ensures DerivativeSoFar(ks, hs, vd0, w, hgt, i, cx, cy + 1)
         == if i == Idx(w, hgt, cx, cy) then NeighbourSum(ks, hs, w, hgt, cx, cy)
            else DerivativeSoFar(ks, hs, vd0, w, hgt, i, cx, cy)
  {
    CellOfIndex(w, hgt, i);
  }

  lemma DerivativeSoFarDone(ks: seq<seq<real>>, hs: seq<real>, vd0: seq<real>, w: nat, hgt: nat, i: int, cx: int)
    requires IsKernel(ks) && |hs| == w * hgt && |vd0| == w * hgt && 0 <= i < w * hgt
    requires cx >= w - R
    ensures DerivativeSoFar(ks, hs, vd0, w, hgt, i, cx, 0) == VerticalDerivative(ks, hs, vd0, w, hgt)[i]
  {
  }

  /** Value of cell i while a dab is at mouse column cx, mouse row cy: box cells before
      that point are painted, all others hold their old value. */
  ghost function DabSoFar(buf0: seq<real>, w: nat, hgt: nat, x: int, y: int, mode: PaintMode,
                          i: int, cx: int, cy: int): real
    requires |buf0| == w * hgt && 0 <= i < w * hgt
  {
    CellOfIndex(w, hgt, i);
    var c, m := Col(w, i), hgt - 1 - Row(w, i);
    if InBox(w, hgt, x, y, c, m) && (c < cx || (c == cx && m < cy)) then DabCell(buf0, w, hgt, x, y, mode, i)
    else buf0[i]
  }

  lemma DabSoFarStep(buf0: seq<real>, w: nat, hgt: nat, x: int, y: int, mode: PaintMode,
                     i: int, cx: int, cy: int)
    requires |buf0| == w * hgt && 0 <= i < w * hgt
    requires InBox(w, hgt, x, y, cx, cy)
    ensures DabSoFar(buf0, w, hgt, x, y, mode, i, cx, cy + 1)
         == if i == FlippedIdx(w, hgt, cx, cy) then DabCell(buf0, w, hgt, x, y, mode, i)
            else DabSoFar(buf0, w, hgt, x, y, mode, i, cx, cy)
  {
    CellOfIndex(w, hgt, i);
  }

  /** The whole buffer while a dab is at mouse column cx, mouse row cy. */
  ghost function DabProgress(buf0: seq<real>, w: nat, hgt: nat, x: int, y: int, mode: PaintMode,
                             cx: int, cy: int): (r: seq<real>)
    requires |buf0| == w * hgt
    ensures |r| == |buf0|
  {
    seq(|buf0|, i requires 0 <= i < |buf0| => DabSoFar(buf0, w, hgt, x, y, mode, i, cx, cy))
  }

  /** Painting box cell (cx, cy) advances the dab by one cell. */
  lemma DabProgressStep(buf0: seq<real>, w: nat, hgt: nat, x: int, y: int, mode: PaintMode, cx: int, cy: int)
    requires |buf0| == w * hgt && InBox(w, hgt, x, y, cx, cy)
    ensures DabProgress(buf0, w, hgt, x, y, mode, cx, cy)[FlippedIdx(w, hgt, cx, cy)] == buf0[FlippedIdx(w, hgt, cx, cy)]
    ensures DabProgress(buf0, w, hgt, x, y, mode, cx, cy + 1)
         == DabProgress(buf0, w, hgt, x, y, mode, cx, cy)[FlippedIdx(w, hgt, cx, cy) :=
              DabCell(buf0, w, hgt, x, y, mode, FlippedIdx(w, hgt, cx, cy))]
  {
    var k := FlippedIdx(w, hgt, cx, cy);
    var before := DabProgress(buf0, w, hgt, x, y, mode, cx, cy);
    var after := DabProgress(buf0, w, hgt, x, y, mode, cx, cy + 1);
    var painted := before[k := DabCell(buf0, w, hgt, x, y, mode, k)];
    forall i | 0 <= i < |buf0|
      ensures after[i] == painted[i]
    {
      DabSoFarStep(buf0, w, hgt, x, y, mode, i, cx, cy);
    }
  }

  /** The value a dab gives box cell (cx, cy). */
  lemma DabCellAt(buf0: seq<real>, w: nat, hgt: nat, x: int, y: int, mode: PaintMode, cx: int, cy: int)
    requires |buf0| == w * hgt && InBox(w, hgt, x, y, cx, cy)
    ensures var k := FlippedIdx(w, hgt, cx, cy);
      DabCell(buf0, w, hgt, x, y, mode, k) == ApplyBrush(mode, buf0[k], cx - BoxLo(x), cy - BoxLo(y))
  {
  }

  /** Applying the brush weight of box cell (cx, cy) to the partly painted buffer gives
      the buffer with that cell painted too. */
  lemma DabPaintStep(buf0: seq<real>, w: nat, hgt: nat, x: int, y: int, mode: PaintMode, cx: int, cy: int,
                     cur: seq<real>, k: int)
    requires |buf0| == w * hgt && InBox(w, hgt, x, y, cx, cy)
    requires cur == DabProgress(buf0, w, hgt, x, y, mode, cx, cy)
    requires k == cx + w * (hgt - cy - 1)
    ensures 0 <= cx - BoxLo(x) <= 2 && 0 <= cy - BoxLo(y) <= 2 && 0 <= k < |cur|
    ensures cur[k := ApplyBrush(mode, cur[k], cx - BoxLo(x), cy - BoxLo(y))]
      == DabProgress(buf0, w, hgt, x, y, mode, cx, cy + 1)
  {
    assert k == FlippedIdx(w, hgt, cx, cy);
    DabProgressStep(buf0, w, hgt, x, y, mode, cx, cy);
    DabCellAt(buf0, w, hgt, x, y, mode, cx, cy);
  }

  /** Past the last box row of column cx, the dab moves on to the next column. */
  lemma DabProgressNextColumn(buf0: seq<real>, w: nat, hgt: nat, x: int, y: int, mode: PaintMode, cx: int, cy: int)
    requires |buf0| == w * hgt && cy > BoxHi(y, hgt)
    ensures DabProgress(buf0, w, hgt, x, y, mode, cx, cy) == DabProgress(buf0, w, hgt, x, y, mode, cx + 1, BoxLo(y))
  {
  }

  lemma DabProgressEnds(buf0: seq<real>, w: nat, hgt: nat, x: int, y: int, mode: PaintMode, cx: int)
    requires |buf0| == w * hgt
    ensures DabProgress(buf0, w, hgt, x, y, mode, BoxLo(x), BoxLo(y)) == buf0
    ensures cx > BoxHi(x, w) ==> DabProgress(buf0, w, hgt, x, y, mode, cx, BoxLo(y)) == Dabbed(buf0, w, hgt, x, y, mode)
  {
  }

  class WaveSim {
    const W: nat
    const H: nat
    const size: nat
    const dt: real
    const alpha: real
    const gravity: real
    var scalingFactor: real
    var paintMode: PaintMode

    const height: array<real>
    const prevHeight: array<real>
    const vertDeriv: array<real>
    const obstruction: array<real>
    const source: array<real>
    const displayMap: array<real>
    const kernel: array2<real>

    /** Every buffer holds W*H cells, the kernel is 13 x 13, no two buffers alias, the
        damping factor 1/(1 + alpha*dt) exists and the display scale is positive. */
    ghost predicate Valid()
      reads this
    {
      && size == W * H
      && height.Length == size && prevHeight.Length == size && vertDeriv.Length == size
      && obstruction.Length == size && source.Length == size && displayMap.Length == size
      && kernel.Length0 == Span && kernel.Length1 == Span
      && height != prevHeight && height != vertDeriv && height != obstruction && height != source
      && height != displayMap && prevHeight != vertDeriv && prevHeight != obstruction
      && prevHeight != source && prevHeight != displayMap && vertDeriv != obstruction
      && vertDeriv != source && vertDeriv != displayMap && obstruction != source
      && obstruction != displayMap && source != displayMap
      && 1.0 + alpha * dt != 0.0
      && scalingFactor > 0.0
    }

    /** The five simulation buffers as values. */
    ghost function State(): Fields
      reads height, prevHeight, vertDeriv, obstruction, source
    {
      Fields(height[..], prevHeight[..], vertDeriv[..], obstruction[..], source[..])
    }

    /** The kernel array as a value, indexed [dx + R][dy + R]. */
    ghost function Kernel(): (ks: seq<seq<real>>)
      requires Valid()
      reads this, kernel
      ensures IsKernel(ks)
    {
      seq(Span, a requires 0 <= a < Span reads kernel =>
        seq(Span, b requires 0 <= b < Span reads kernel => kernel[a, b]))
    }

    /** Allocates the buffers and prepares them as the program's start-up does: still
        water, no obstruction, no sources, the display image of that state, and the
        kernel built from the radial profile `radial` of squared offsets. */
    constructor (width: nat, rows: nat, radial: nat -> real)
      ensures Valid() && W == width && H == rows
      ensures dt == 0.03 && alpha == 0.3 && gravity == 9.8 * 0.03 * 0.03
      ensures scalingFactor == 1.0 && paintMode == PaintObstruction
      ensures State() == Fields(Filled(size, 0.0), Filled(size, 0.0), Filled(size, 0.0),
                                Filled(size, 1.0), Filled(size, 0.0))
      ensures displayMap[..] == Filled(size, 0.5)
      ensures Kernel() == RadialKernel(radial)
      ensures fresh(height) && fresh(prevHeight) && fresh(vertDeriv) && fresh(obstruction)
      ensures fresh(source) && fresh(displayMap) && fresh(kernel)
    {
      W, H, size := width, rows, width * rows;
      dt, alpha := 0.03, 0.3;
      gravity := 9.8 * 0.03 * 0.03;
      scalingFactor := 1.0;
      paintMode := PaintObstruction;
      height := new real[width * rows];
      prevHeight := new real[width * rows];
      vertDeriv := new real[width * rows];
      obstruction := new real[width * rows];
      source := new real[width * rows];
      displayMap := new real[width * rows];
      kernel := new real[Span, Span];
      new;
      ClearWaves();
      assert height[..] == Filled(size, 0.0) && prevHeight[..] == Filled(size, 0.0);
      assert vertDeriv[..] == Filled(size, 0.0);
      ClearObstruction();
      assert obstruction[..] == Filled(size, 1.0);
      ConvertToDisplay();
      StillOpenWaterIsGrey(size, scalingFactor);
      Initialize(source, 0.0);
      InitializeKernel(radial);
    }

    /** Sets every cell of `data` to `value`. */
    method Initialize(data: array<real>, value: real)
      requires Valid() && data.Length == size
      modifies data
      ensures data[..] == Filled(size, value)
    {
      for i := 0 to size
        invariant forall j :: 0 <= j < i ==> data[j] == value
      {
        data[i] := value;
      }
    }

    /** Fills the kernel: entry [i+R][j+R] is the radial profile at i*i + j*j. */
    method InitializeKernel(radial: nat -> real)
      requires Valid()
      modifies kernel
      ensures Kernel() == RadialKernel(radial)
    {
      for i := -R to R + 1
        invariant forall a, b :: 0 <= a < i + R && 0 <= b < Span ==>
          kernel[a, b] == radial(Square(a - R) + Square(b - R))
      {
        var a := i + R;
        for j := -R to R + 1
          invariant forall a', b :: 0 <= a' < a && 0 <= b < Span ==>
            kernel[a', b] == radial(Square(a' - R) + Square(b - R))
          invariant forall b :: 0 <= b < j + R ==> kernel[a, b] == radial(Square(a - R) + Square(b - R))
        {
          kernel[i + R, j + R] := radial(i * i + j * j);
        }
      }
      var ks := RadialKernel(radial);
      forall a | 0 <= a < Span
        ensures Kernel()[a] == ks[a]
      {
        assert forall b :: 0 <= b < Span ==> Kernel()[a][b] == ks[a][b];
      }
    }

    /** Makes every cell free water. */
    method ClearObstruction()
      requires Valid()
      modifies obstruction
      ensures State() == ObstructionCleared(old(State()))
    {
      for i := 0 to size
        invariant forall j :: 0 <= j < i ==> obstruction[j] == 1.0
      {
        obstruction[i] := 1.0;
      }
    }

    /** Resets heights, previous heights and derivatives to zero. */
    method ClearWaves()
      requires Valid()
      modifies height, prevHeight, vertDeriv
      ensures State() == WavesCleared(old(State()))
    {
      for i := 0 to size
        invariant forall j :: 0 <= j < i ==> height[j] == 0.0 && prevHeight[j] == 0.0 && vertDeriv[j] == 0.0
      {
        height[i] := 0.0;
        prevHeight[i] := 0.0;
        vertDeriv[i] := 0.0;
      }
    }

    /** Builds the display image from the heights and the obstruction mask. */
    method ConvertToDisplay()
      requires Valid()
      modifies displayMap
      ensures displayMap[..] == DisplayMap(height[..], obstruction[..], scalingFactor)
    {
      for i := 0 to size
        invariant forall j :: 0 <= j < i ==> displayMap[j] == DisplayValue(height[j], obstruction[j], scalingFactor)
      {
        displayMap[i] := 0.5 * (height[i] / scalingFactor + 1.0) * obstruction[i];
      }
    }

    /** The correlation of the kernel with the heights around interior cell (ix, iy),
        accumulated kernel row by kernel row, row dx = -R first. */
    method NeighbourhoodSum(ix: int, iy: int) returns (vd: real)
      requires Valid() && Interior(W, H, ix, iy)
      ensures vd == NeighbourSum(Kernel(), height[..], W, H, ix, iy)
    {
      vd := 0.0;
      var iix := -R;
      while iix <= R
        invariant -R <= iix <= R + 1
        invariant vd == WindowSum(Kernel(), height[..], W, H, ix, iy, iix + R)
      {
        var row := KernelRowSum(ix, iy, iix);
        vd := vd + row;
        iix := iix + 1;
      }
    }

    /** The inner loop of the correlation: kernel row dx = iix against the heights of
        column ix + iix, term by term, dy = -R first. */
    method KernelRowSum(ix: int, iy: int, iix: int) returns (sum: real)
      requires Valid() && Interior(W, H, ix, iy) && Offset(iix)
      ensures sum == RowSum(Kernel(), height[..], W, H, ix, iy, iix, Span)
    {
      ghost var ks, hs := Kernel(), height[..];
      sum := 0.0;
      var iiy := -R;
      while iiy <= R
        invariant -R <= iiy <= R + 1
        invariant sum == RowSum(ks, hs, W, H, ix, iy, iix, iiy + R)
      {
        var iindex := ix + iix + W * (iy + iiy);
        assert iindex == NeighbourIndex(W, H, ix, iy, iix, iiy);
        sum := sum + kernel[iix + R, iiy + R] * height[iindex];
        iiy := iiy + 1;
      }
    }

    /** Correlates the heights with the kernel on the interior band; the outer ring of
        width R keeps its old derivative values. */
    method ComputeVerticalDerivative()
      requires Valid()
      modifies vertDeriv
      ensures vertDeriv[..] == VerticalDerivative(Kernel(), height[..], old(vertDeriv[..]), W, H)
    {
      ghost var ks, hs, vd0 := Kernel(), height[..], vertDeriv[..];
      var ix := R;
      while ix < W - R
        invariant R <= ix && (ix <= W - R || ix == R)
        invariant forall i :: 0 <= i < size ==> vertDeriv[i] == DerivativeSoFar(ks, hs, vd0, W, H, i, ix, 0)
      {
        var iy := R;
        while iy < H - R
          invariant R <= iy && (iy <= H - R || iy == R)
          invariant forall i :: 0 <= i < size ==> vertDeriv[i] == DerivativeSoFar(ks, hs, vd0, W, H, i, ix, iy)
        {
          var index := ix + W * iy;
          assert index == Idx(W, H, ix, iy);
          var vd := NeighbourhoodSum(ix, iy);
          vertDeriv[index] := vd;
          forall i | 0 <= i < size
            ensures vertDeriv[i] == DerivativeSoFar(ks, hs, vd0, W, H, i, ix, iy + 1)
          {
            DerivativeSoFarStep(ks, hs, vd0, W, H, i, ix, iy);
          }
          iy := iy + 1;
        }
        ix := ix + 1;
      }
      forall i | 0 <= i < size
        ensures vertDeriv[i] == VerticalDerivative(ks, hs, vd0, W, H)[i]
      {
        DerivativeSoFarDone(ks, hs, vd0, W, H, i, ix);
      }
    }

    /** First pass of a step: every height multiplied by its obstruction value. */
    method ApplyObstruction()
      requires Valid()
      modifies height
      ensures height[..] == Masked(old(height[..]), obstruction[..])
    {
      for i := 0 to size
        invariant forall j :: 0 <= j < i ==> height[j] == old(height[j]) * obstruction[j]
        invariant forall j :: i <= j < size ==> height[j] == old(height[j])
      {
        height[i] := height[i] * obstruction[i];
      }
      assert forall j | 0 <= j < size :: height[..][j] == Masked(old(height[..]), obstruction[..])[j];
    }

    /** Last pass of a step: the explicit update of every cell from its height, previous
        height, derivative and source, masked again by the obstruction; the height it
        started from becomes the previous height and the source is consumed. */
    method AdvanceSurface()
      requires Valid()
      modifies height, prevHeight, source
      ensures height[..] == Advanced(old(height[..]), old(prevHeight[..]), vertDeriv[..], old(source[..]),
                                     obstruction[..], alpha * dt, gravity)
      ensures prevHeight[..] == old(height[..])
      ensures source[..] == Filled(size, 0.0)
    {
      ghost var h0, p0, s0 := height[..], prevHeight[..], source[..];
      var adt := alpha * dt;
      var adt2 := 1.0 / (1.0 + adt);
      for i := 0 to size
        invariant forall j :: 0 <= j < i ==>
          height[j] == AdvanceCell(h0[j], p0[j], vertDeriv[j], s0[j], obstruction[j], adt, gravity)
        invariant forall j :: 0 <= j < i ==> prevHeight[j] == h0[j] && source[j] == 0.0
        invariant forall j :: i <= j < size ==> height[j] == h0[j] && prevHeight[j] == p0[j] && source[j] == s0[j]
      {
        var temp := height[i];
        var next := height[i] * (2.0 - adt) - prevHeight[i] - gravity * vertDeriv[i];
        next := next * adt2;
        next := next + source[i];
        next := next * obstruction[i];
        assert next == AdvanceCell(h0[i], p0[i], vertDeriv[i], s0[i], obstruction[i], adt, gravity);
        height[i] := next;
        prevHeight[i] := temp;
        source[i] := 0.0;
      }
    }

    /** One time step: mask the heights by the obstruction, recompute the derivative,
        then advance every cell, keeping the masked height as the previous height and
        consuming the sources. */
    method Propagate()
      requires Valid()
      modifies height, prevHeight, vertDeriv, source
      ensures State() == Step(Kernel(), W, H, alpha * dt, gravity, old(State()))
    {
      ApplyObstruction();
      ComputeVerticalDerivative();
      AdvanceSurface();
    }

    /** Stamps the brush of `mode` into `buf` around mouse position (x, y), column by
        column of the clamped box. */
    method Dab(buf: array<real>, mode: PaintMode, x: int, y: int)
      requires Valid() && buf.Length == size
      modifies buf
      ensures buf[..] == Dabbed(old(buf[..]), W, H, x, y, mode)
    {
      ghost var buf0 := buf[..];
      var xStart := x - 1;
      var yStart := y - 1;
      if xStart < 0 { xStart := 0; }
      if yStart < 0 { yStart := 0; }
      var xEnd := x + 1;
      var yEnd := y + 1;
      if xEnd >= W { xEnd := W - 1; }
      if yEnd >= H { yEnd := H - 1; }
      assert xStart == BoxLo(x) && yStart == BoxLo(y) && xEnd == BoxHi(x, W) && yEnd == BoxHi(y, H);
      DabProgressEnds(buf0, W, H, x, y, mode, xStart);

      var ix := xStart;
      while ix <= xEnd
        invariant xStart <= ix && (ix <= xEnd + 1 || ix == xStart)
        invariant buf[..] == DabProgress(buf0, W, H, x, y, mode, ix, yStart)
      {
        DabColumn(buf, mode, x, y, ix, xStart, yStart, yEnd, buf0);
        ix := ix + 1;
      }
      DabProgressEnds(buf0, W, H, x, y, mode, ix);
    }

    /** The inner loop of a dab: paints the cells of box column ix, rows yStart to yEnd,
        with brush column ix - xStart. */
    method DabColumn(buf: array<real>, mode: PaintMode, x: int, y: int, ix: int,
                     xStart: int, yStart: int, yEnd: int, ghost buf0: seq<real>)
      requires buf.Length == W * H && |buf0| == W * H
      requires xStart == BoxLo(x) && yStart == BoxLo(y) && yEnd == BoxHi(y, H)
      requires xStart <= ix <= BoxHi(x, W)
      requires buf[..] == DabProgress(buf0, W, H, x, y, mode, ix, yStart)
      modifies buf
      ensures buf[..] == DabProgress(buf0, W, H, x, y, mode, ix + 1, yStart)
    {
      var iy := yStart;
      while iy <= yEnd
        invariant yStart <= iy && (iy <= yEnd + 1 || iy == yStart)
        invariant buf[..] == DabProgress(buf0, W, H, x, y, mode, ix, iy)
      {
        var index := ix + W * (H - iy - 1);
        DabPaintStep(buf0, W, H, x, y, mode, ix, iy, buf[..], index);
        buf[index] := ApplyBrush(mode, buf[index], ix - xStart, iy - yStart);
        iy := iy + 1;
      }
      DabProgressNextColumn(buf0, W, H, x, y, mode, ix, iy);
    }

    /** One dab of the current paint mode at mouse position (x, y): multiplies into the
        obstruction mask or adds into the sources, and touches nothing else. */
    method DabSomePaint(x: int, y: int)
      requires Valid()
      modifies obstruction, source
      ensures paintMode == PaintObstruction ==>
        obstruction[..] == Dabbed(old(obstruction[..]), W, H, x, y, PaintObstruction)
        && source[..] == old(source[..])
      ensures paintMode == PaintSource ==>
        source[..] == Dabbed(old(source[..]), W, H, x, y, PaintSource)
        && obstruction[..] == old(obstruction[..])
    {
      match paintMode {
        case PaintObstruction => Dab(obstruction, PaintObstruction, x, y);
        case PaintSource => Dab(source, PaintSource, x, y);
      }
    }
  }
}
