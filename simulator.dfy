/** One iWave time step on the buffers as values: obstruction pre-mask, the
    vertical-derivative pass, then the damped explicit update of every cell. */
module Simulator {
  import opened Grid
  import opened WaveGrid
  import opened Convolution

  /** The update of one cell, in the order the step applies it: the damped second-order
      difference scaled by 1/(1+adt), then the source added, then the obstruction applied.
      `h` is the already masked height. */
  function AdvanceCell(h: real, hPrev: real, vd: real, src: real, obs: real, adt: real, gravity: real): (r: real)
    requires 1.0 + adt != 0.0
    ensures obs == 0.0 ==> r == 0.0
    ensures h == 0.0 && hPrev == 0.0 && vd == 0.0 && obs == 1.0 ==> r == src
  {
    var adt2 := 1.0 / (1.0 + adt);
    ((h * (2.0 - adt) - hPrev - gravity * vd) * adt2 + src) * obs
  }

  /** AdvanceCell applied to every cell. */
  function Advanced(hs: seq<real>, hPrev: seq<real>, vd: seq<real>, src: seq<real>, obs: seq<real>,
                    adt: real, gravity: real): (r: seq<real>)
    requires |hPrev| == |hs| && |vd| == |hs| && |src| == |hs| && |obs| == |hs|
    requires 1.0 + adt != 0.0
    ensures |r| == |hs|
  {
    seq(|hs|, i requires 0 <= i < |hs| => AdvanceCell(hs[i], hPrev[i], vd[i], src[i], obs[i], adt, gravity))
  }

  /** The arguments one step needs: a kernel, buffers of w*hgt cells, a finite damping factor. */
  predicate StepArgs(ks: seq<seq<real>>, w: nat, hgt: nat, adt: real, s: Fields) {
    IsKernel(ks) && WellFormed(s, w * hgt) && 1.0 + adt != 0.0
  }

  /** The state after one step with damping `adt` (alpha*dt) and scaled gravity. */
  function Step(ks: seq<seq<real>>, w: nat, hgt: nat, adt: real, gravity: real, s: Fields): (r: Fields)
    requires StepArgs(ks, w, hgt, adt, s)
    ensures WellFormed(r, w * hgt)
  {
    var masked := Masked(s.height, s.obstruction);
    var vd := VerticalDerivative(ks, masked, s.vertDeriv, w, hgt);
    Fields(Advanced(masked, s.prevHeight, vd, s.source, s.obstruction, adt, gravity),
           masked, vd, s.obstruction, Filled(|s.source|, 0.0))
  }

  /** The step consumes every source, leaves the mask alone, and keeps the masked
      pre-step height as the new previous height. */
  lemma StepBookkeeping(ks: seq<seq<real>>, w: nat, hgt: nat, adt: real, gravity: real, s: Fields, i: int)
    requires StepArgs(ks, w, hgt, adt, s) && 0 <= i < w * hgt
    ensures Step(ks, w, hgt, adt, gravity, s).source[i] == 0.0
    ensures Step(ks, w, hgt, adt, gravity, s).obstruction == s.obstruction
    ensures Step(ks, w, hgt, adt, gravity, s).prevHeight[i] == s.height[i] * s.obstruction[i]
  {
  }

  /** A fully obstructed cell ends the step with zero height and zero previous height,
      whatever its source and its neighbours. */
  lemma ObstructedCellIsSink(ks: seq<seq<real>>, w: nat, hgt: nat, adt: real, gravity: real, s: Fields, i: int)
    requires StepArgs(ks, w, hgt, adt, s) && 0 <= i < w * hgt
    requires s.obstruction[i] == 0.0
    ensures Step(ks, w, hgt, adt, gravity, s).height[i] == 0.0
    ensures Step(ks, w, hgt, adt, gravity, s).prevHeight[i] == 0.0
  {
  }

  /** A cell's new height is its source scaled by its obstruction plus the damped update
      of its masked height; in free water (mask 1) the source arrives undamped. */
  lemma SourceArrivesUndamped(ks: seq<seq<real>>, w: nat, hgt: nat, adt: real, gravity: real, s: Fields, i: int)
    requires StepArgs(ks, w, hgt, adt, s) && 0 <= i < w * hgt
    ensures var r := Step(ks, w, hgt, adt, gravity, s);
      r.height[i] == AdvanceCell(r.prevHeight[i], s.prevHeight[i], r.vertDeriv[i], 0.0, s.obstruction[i], adt, gravity)
                     + s.source[i] * s.obstruction[i]
  {
  }

  /** The outer ring of the derivative buffer is never written by a step. */
  lemma StepKeepsRing(ks: seq<seq<real>>, w: nat, hgt: nat, adt: real, gravity: real, s: Fields, x: int, y: int)
    requires StepArgs(ks, w, hgt, adt, s)
    requires InGrid(w, hgt, x, y) && !Interior(w, hgt, x, y)
    ensures Step(ks, w, hgt, adt, gravity, s).vertDeriv[Idx(w, hgt, x, y)] == s.vertDeriv[Idx(w, hgt, x, y)]
  {
    RingKeepsDerivative(ks, Masked(s.height, s.obstruction), s.vertDeriv, w, hgt, x, y);
  }

  /** Still water with no sources and a zero derivative buffer is a fixed point of the step,
      whatever the kernel and the obstruction mask. */
  lemma CalmWaterStaysCalm(ks: seq<seq<real>>, w: nat, hgt: nat, adt: real, gravity: real, s: Fields)
    requires StepArgs(ks, w, hgt, adt, s)
    requires AllEqual(s.height, 0.0) && AllEqual(s.prevHeight, 0.0)
    requires AllEqual(s.vertDeriv, 0.0) && AllEqual(s.source, 0.0)
    ensures Step(ks, w, hgt, adt, gravity, s) == s
  {
    var masked := Masked(s.height, s.obstruction);
    var r := Step(ks, w, hgt, adt, gravity, s);
    forall i | 0 <= i < w * hgt
      ensures r.vertDeriv[i] == 0.0 && r.height[i] == 0.0
    {
      DerivativeOfCalm(ks, masked, s.vertDeriv, w, hgt, i);
    }
  }

  /** On a grid with no interior band, starting from still water in open water, one step
      turns the sources into the heights exactly and clears the sources. */
  lemma SmallGridTakesSource(ks: seq<seq<real>>, w: nat, hgt: nat, adt: real, gravity: real, s: Fields)
    requires StepArgs(ks, w, hgt, adt, s)
    requires w <= 2 * R || hgt <= 2 * R
    requires AllEqual(s.height, 0.0) && AllEqual(s.prevHeight, 0.0) && AllEqual(s.vertDeriv, 0.0)
    requires AllEqual(s.obstruction, 1.0)
    ensures var r := Step(ks, w, hgt, adt, gravity, s);
      r.height == s.source && AllEqual(r.prevHeight, 0.0) && r.vertDeriv == s.vertDeriv
      && AllEqual(r.source, 0.0)
  {
    SmallGridKeepsDerivative(ks, Masked(s.height, s.obstruction), s.vertDeriv, w, hgt);
  }

  /** The 10 x 10 scenario: one unit impulse at cell c of a still, open grid becomes a
      height of exactly 1 at c after one step, and every other cell stays at 0. */
  lemma UnitImpulseOnTenByTen(ks: seq<seq<real>>, adt: real, gravity: real, c: int)
    requires IsKernel(ks) && 1.0 + adt != 0.0 && 0 <= c < 100
    ensures var s := Fields(Filled(100, 0.0), Filled(100, 0.0), Filled(100, 0.0), Filled(100, 1.0),
                            Filled(100, 0.0)[c := 1.0]);
      var r := Step(ks, 10, 10, adt, gravity, s);
      r.height[c] == 1.0 && (forall i :: 0 <= i < 100 && i != c ==> r.height[i] == 0.0)
      && AllEqual(r.prevHeight, 0.0)
  {
    var s := Fields(Filled(100, 0.0), Filled(100, 0.0), Filled(100, 0.0), Filled(100, 1.0),
                    Filled(100, 0.0)[c := 1.0]);
    SmallGridTakesSource(ks, 10, 10, adt, gravity, s);
  }
}
