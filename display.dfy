/** The map from heights to the luminance image the host draws. */
module Display {
  import opened Grid

  /** Luminance of one cell: the height scaled into [-1, 1], shifted into [0, 1],
      darkened by the obstruction mask. */
  function DisplayValue(h: real, obs: real, scale: real): (v: real)
    requires scale != 0.0
    ensures obs == 0.0 ==> v == 0.0
    ensures h == 0.0 ==> v == 0.5 * obs
  {
    0.5 * (h / scale + 1.0) * obs
  }

  function DisplayMap(hs: seq<real>, obs: seq<real>, scale: real): (d: seq<real>)
    requires |obs| == |hs| && scale != 0.0
    ensures |d| == |hs|
  {
    seq(|hs|, i requires 0 <= i < |hs| => DisplayValue(hs[i], obs[i], scale))
  }

  /** Heights within the scale and a mask within [0, 1] give a luminance within [0, 1];
      a fully obstructed cell is black. */
  lemma DisplayInUnitRange(h: real, obs: real, scale: real)
    requires scale > 0.0 && -scale <= h <= scale && 0.0 <= obs <= 1.0
    ensures 0.0 <= DisplayValue(h, obs, scale) <= 1.0
    ensures obs == 0.0 ==> DisplayValue(h, obs, scale) == 0.0
  {
    var t := h / scale;
    assert t * scale == h;
    assert -1.0 <= t <= 1.0;
    var u := 0.5 * (t + 1.0);
    assert 0.0 <= u <= 1.0;
    assert DisplayValue(h, obs, scale) == u * obs;
    assert 0.0 <= u * obs <= 1.0 * obs;
  }

  /** Still water with no obstruction shows as uniform mid-grey, whatever the scale. */
  lemma StillOpenWaterIsGrey(n: nat, scale: real)
    requires scale != 0.0
    ensures DisplayMap(Filled(n, 0.0), Filled(n, 1.0), scale) == Filled(n, 0.5)
  {
    forall i | 0 <= i < n
      ensures DisplayMap(Filled(n, 0.0), Filled(n, 1.0), scale)[i] == 0.5
    {
      assert 0.0 / scale == 0.0;
    }
  }
}
