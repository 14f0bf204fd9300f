/** The five per-cell buffers of the simulation, as values, and the bulk clears
    the host applies to them between steps. */
module WaveGrid {
  import opened Grid

  /** Height, previous height, vertical derivative, obstruction mask, source accumulator. */
  datatype Fields = Fields(height: seq<real>, prevHeight: seq<real>, vertDeriv: seq<real>,
                           obstruction: seq<real>, source: seq<real>)

  /** Every buffer holds exactly `n` cells. */
  predicate WellFormed(s: Fields, n: nat) {
    |s.height| == n && |s.prevHeight| == n && |s.vertDeriv| == n
    && |s.obstruction| == n && |s.source| == n
  }

  predicate AllEqual(b: seq<real>, v: real) {
    forall i :: 0 <= i < |b| ==> b[i] == v
  }

  /** Heights, previous heights and derivatives reset to still water. */
  function WavesCleared(s: Fields): Fields {
    s.(height := Filled(|s.height|, 0.0), prevHeight := Filled(|s.prevHeight|, 0.0),
       vertDeriv := Filled(|s.vertDeriv|, 0.0))
  }

  /** Every cell made free water. */
  function ObstructionCleared(s: Fields): Fields {
    s.(obstruction := Filled(|s.obstruction|, 1.0))
  }

  /** Clearing the waves zeroes the three wave buffers, keeps the mask and the sources,
      and a second clear changes nothing further. */
  lemma WavesClearedProperties(s: Fields, n: nat)
    requires WellFormed(s, n)
    ensures WellFormed(WavesCleared(s), n)
    ensures AllEqual(WavesCleared(s).height, 0.0) && AllEqual(WavesCleared(s).prevHeight, 0.0)
    ensures AllEqual(WavesCleared(s).vertDeriv, 0.0)
    ensures WavesCleared(s).obstruction == s.obstruction && WavesCleared(s).source == s.source
    ensures WavesCleared(WavesCleared(s)) == WavesCleared(s)
  {
  }

  /** Clearing the obstruction frees every cell and touches no other buffer; it is idempotent. */
  lemma ObstructionClearedProperties(s: Fields, n: nat)
    requires WellFormed(s, n)
    ensures WellFormed(ObstructionCleared(s), n)
    ensures AllEqual(ObstructionCleared(s).obstruction, 1.0)
    ensures ObstructionCleared(s).(obstruction := s.obstruction) == s
    ensures ObstructionCleared(ObstructionCleared(s)) == ObstructionCleared(s)
  {
  }
}
