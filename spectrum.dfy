/**
 * The spectrum (rows of wavenumber and transmittance, in file order) and the
 * nearest-wavenumber lookup `df["Wavenumber"].sub(wn).abs().idxmin()` that both
 * the plot and the export use to anchor a label.
 */
module Spectrum {

  /** One row of the cleaned table: column 1 (Wavenumber) and column 2 (Transmittance). */
  datatype Point = Point(wn: real, tr: real)

  function Abs(x: real): (r: real)
    ensures r >= 0.0 && (r == x || r == -x)
  {
    if x < 0.0 then -x else x
  }

  /** |Wavenumber - wn| for one row. */
  function Distance(p: Point, wn: real): real
  {
    Abs(p.wn - wn)
  }

  /**
   * `idxmin` of the distances: the position of a row whose wavenumber is
   * closest to `wn`, and the first such row when several are equally close.
   */
  function NearestIndex(s: seq<Point>, wn: real): (i: nat)
    requires |s| > 0
    ensures i < |s|
    ensures forall j :: 0 <= j < |s| ==> Distance(s[i], wn) <= Distance(s[j], wn)
    ensures forall j :: 0 <= j < i ==> Distance(s[i], wn) < Distance(s[j], wn)
    decreases |s|
  {
    if |s| == 1 then 0
    else
      var j := NearestIndex(s[..|s| - 1], wn);
      if Distance(s[|s| - 1], wn) < Distance(s[j], wn) then |s| - 1 else j
  }

  /** `df.loc[idxmin, "Transmittance"]`: the transmittance of the nearest row. */
  function NearestTransmittance(s: seq<Point>, wn: real): (tr: real)
    requires |s| > 0
    ensures exists i :: 0 <= i < |s| && s[i].tr == tr &&
              forall j :: 0 <= j < |s| ==> Distance(s[i], wn) <= Distance(s[j], wn)
  {
    s[NearestIndex(s, wn)].tr
  }

  /** When `wn` is some row's wavenumber, the lookup picks the first row with that wavenumber. */
  lemma NearestExactHit(s: seq<Point>, wn: real, k: nat)
    requires k < |s| && s[k].wn == wn
    requires forall j :: 0 <= j < k ==> s[j].wn != wn
    ensures NearestIndex(s, wn) == k
    ensures NearestTransmittance(s, wn) == s[k].tr
  {
    assert Distance(s[k], wn) == 0.0;
  }

  /**
   * A label placed at a row's own wavenumber is anchored at that row's
   * transmittance when no other row has that wavenumber.
   */
  lemma NearestOfUniqueRow(s: seq<Point>, k: nat)
    requires k < |s|
    requires forall j :: 0 <= j < |s| && j != k ==> s[j].wn != s[k].wn
    ensures NearestTransmittance(s, s[k].wn) == s[k].tr
  {
    NearestExactHit(s, s[k].wn, k);
  }
}
