/**
 * `label_positions`: one (wavenumber, vertical offset) pair per selected
 * peak, in the selection's order, with either the uniform default offset or
 * a per-peak offset from that peak's slider.
 */
module Labels {
  import opened Wrappers
  import opened Spectrum

  /** A slider value: every offset slider ranges over [1.0, 20.0]. */
  type Offset = r: real | 1.0 <= r <= 20.0 witness 5.0

  datatype LabelPosition = LabelPosition(wn: real, offset: Offset)

  /** Default mode: each selected peak's wavenumber paired with the default offset, in order. */
  function DefaultLabelPositions(peaks: seq<Point>, offset: Offset): (positions: seq<LabelPosition>)
    ensures |positions| == |peaks|
    ensures forall i :: 0 <= i < |peaks| ==> positions[i] == LabelPosition(peaks[i].wn, offset)
  {
    if peaks == [] then []
    else [LabelPosition(peaks[0].wn, offset)] + DefaultLabelPositions(peaks[1..], offset)
  }

  /** No two peaks share a wavenumber, so no two offset sliders share a key. */
  predicate DistinctWavenumbers(peaks: seq<Point>)
  {
    forall i, j :: 0 <= i < j < |peaks| ==> peaks[i].wn != peaks[j].wn
  }

  /** `wn` is the wavenumber of the first peak whose slider key was already used by an earlier peak. */
  predicate FirstRepeat(peaks: seq<Point>, wn: real)
  {
    exists j :: 0 < j < |peaks| && peaks[j].wn == wn && DistinctWavenumbers(peaks[..j]) &&
      exists i :: 0 <= i < j && peaks[i].wn == wn
  }

  /**
   * Manual mode: for each selected peak in turn, read the offset slider keyed
   * by that peak's wavenumber and append the pair. `offsetFor` stands for the
   * sliders' current values. The key is the wavenumber, and a key used twice
   * in one run is an error: the failure names the first wavenumber met again.
   */
  method ManualLabelPositions(peaks: seq<Point>, offsetFor: real -> Offset) returns (r: Result<seq<LabelPosition>, real>)
    ensures r.Success? <==> DistinctWavenumbers(peaks)
    ensures r.Success? ==> |r.value| == |peaks|
    ensures r.Success? ==> forall i :: 0 <= i < |peaks| ==>
              r.value[i].wn == peaks[i].wn && r.value[i].offset == offsetFor(peaks[i].wn)
    ensures r.Failure? ==> FirstRepeat(peaks, r.error)
  {
    var positions: seq<LabelPosition> := [];
    var keys: set<real> := {};
    for k := 0 to |peaks|
      invariant |positions| == k
      invariant forall i :: 0 <= i < k ==> positions[i].wn == peaks[i].wn && positions[i].offset == offsetFor(peaks[i].wn)
      invariant forall x :: x in keys <==> exists i :: 0 <= i < k && peaks[i].wn == x
      invariant DistinctWavenumbers(peaks[..k])
    {
      var wn := peaks[k].wn;
      if wn in keys {
        return Failure(wn);
      }
      var offset := offsetFor(wn);
      positions := positions + [LabelPosition(wn, offset)];
      keys := keys + {wn};
    }
    assert peaks[..|peaks|] == peaks;
    return Success(positions);
  }

  /**
   * Every slider starts at the default offset, so manual mode with no slider
   * moved, when it completes, yields exactly the default-mode positions.
   */
  lemma {:induction false} UntouchedSlidersGiveDefault(peaks: seq<Point>, positions: seq<LabelPosition>, offset: Offset, offsetFor: real -> Offset)
    requires forall wn :: offsetFor(wn) == offset
    requires |positions| == |peaks|
    requires forall i :: 0 <= i < |peaks| ==> positions[i].wn == peaks[i].wn && positions[i].offset == offsetFor(peaks[i].wn)
    ensures positions == DefaultLabelPositions(peaks, offset)
  {
    var d := DefaultLabelPositions(peaks, offset);
    forall i | 0 <= i < |peaks|
      ensures positions[i] == d[i]
    {
      assert offsetFor(peaks[i].wn) == offset;
    }
  }
}
