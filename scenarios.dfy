/** Worked examples: a five-row spectrum with absorption dips at 3500 and 2500 cm-1. */
module Scenarios {
  import opened Wrappers
  import opened Spectrum
  import opened Loader
  import opened Peaks
  import opened Labels
  import opened DecimalFormat
  import opened Render
  import opened App

  function Sample(): seq<Point>
  {
    [Point(4000.0, 90.0), Point(3500.0, 40.0), Point(3000.0, 85.0), Point(2500.0, 30.0), Point(2000.0, 95.0)]
  }

  /** With the detector reporting rows 1 and 3, both dips are kept, highest wavenumber first. */
  lemma SelectBothDips()
    ensures SelectPeaks(Sample(), [1, 3], 25) == [Point(3500.0, 40.0), Point(2500.0, 30.0)]
  {
    assert RowsAt(Sample(), [1, 3]) == [Point(3500.0, 40.0), Point(2500.0, 30.0)];
  }

  /** A cap of one label keeps only the dip with the higher wavenumber. */
  lemma SelectCappedAtOne()
    ensures SelectPeaks(Sample(), [1, 3], 1) == [Point(3500.0, 40.0)]
  {
    SelectBothDips();
  }

  /** The label for 3500 is anchored at 40, reads 3500.00 and is exported as such. */
  lemma LabelAt3500()
    ensures NearestTransmittance(Sample(), 3500.0) == 40.0
    ensures Format2(3500.0) == "3500.00"
    ensures ExportRecords(Sample(), [LabelPosition(3500.0, 5.0)]) == [ExportRecord(3500.0, 40.0, "3500.00")]
  {
    NearestExactHit(Sample(), 3500.0, 1);
    assert Hundredths(3500.0) == 350000;
    assert Decimal(3500) == "3500" by {
      assert Decimal(3) == "3";
      assert Decimal(35) == "35";
      assert Decimal(350) == "350";
    }
  }

  /** A file with a single numeric column is rejected. */
  lemma OneColumnRejected(name: string, t: Table)
    requires ReaderFor(name).Some?
    requires |t.columns| == 1
    ensures Parse(name, t, t) == Failure(TooFewColumns)
  {
  }

  /**
   * A file whose header is Index,Wavenumber,Transmittance keeps its third
   * label after the rename, so "Transmittance" names two columns and a run
   * with labels enabled ends in an error rather than reading the index as
   * wavenumbers.
   */
  lemma IndexColumnFailsWithLabels(name: string, t: Table, detect: seq<real> -> seq<nat>, config: Config,
                                   r: Result<Outcome, RunError>)
    requires ReaderFor(name).Some?
    requires t.columns == ["Index", "Wavenumber", "Transmittance"]
    requires forall v :: IsDetection(detect(v), |v|)
    requires config.showLabels
    requires Parse(name, t, t).Success? && IsClean(Parse(name, t, t).value)
    requires Processed(Parse(name, t, t).value, detect, config, r)
    ensures r == Failure(AmbiguousColumn("Transmittance"))
  {
    ParseSupported(name, t, t);
    var c := Parse(name, t, t).value.columns;
    assert c == ["Wavenumber", "Transmittance", "Transmittance"];
    assert multiset(c)["Transmittance"] == 2;
  }
}
