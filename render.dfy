/**
 * The annotation geometry of `plot_ir` and the JSON records of the export.
 * Both resolve a label's anchor by the nearest-wavenumber lookup against the
 * whole spectrum. Drawing itself (line plot, inverted axis, styling, PDF) is
 * not modelled: an annotation is its text and its two points.
 */
module Render {
  import opened Spectrum
  import opened Labels
  import opened DecimalFormat

  datatype Coord = Coord(x: real, y: real)

  /** `ax.annotate(text, xy=arrow tip, xytext=text position)`. */
  datatype Annotation = Annotation(text: string, xy: Coord, xytext: Coord)

  /** One element of the exported JSON list: `{"x": ..., "y": ..., "label": ...}` (`labelText` is "label"). */
  datatype ExportRecord = ExportRecord(x: real, y: real, labelText: string)

  /**
   * `plot_ir(df, label_positions)`: when labels are enabled and there are
   * any, one annotation per label, in order, whose arrow points at
   * (wn, tr) and whose text sits at (wn, tr - offset), where tr is the
   * transmittance of the row nearest to wn; the label list is returned unchanged.
   */
  method PlotIr(s: seq<Point>, positions: seq<LabelPosition>, showLabels: bool)
    returns (annotations: seq<Annotation>, plotted: seq<LabelPosition>)
    requires showLabels && positions != [] ==> |s| > 0
    ensures plotted == positions
    ensures !showLabels || positions == [] ==> annotations == []
    ensures showLabels && positions != [] ==> |annotations| == |positions|
    ensures showLabels && positions != [] ==>
              forall i :: 0 <= i < |positions| ==>
                var wn := positions[i].wn;
                var tr := NearestTransmittance(s, wn);
                annotations[i] == Annotation(Format2(wn), Coord(wn, tr), Coord(wn, tr - positions[i].offset))
  {
    annotations := [];
    if showLabels && positions != [] {
      for i := 0 to |positions|
        invariant |annotations| == i
        invariant forall k :: 0 <= k < i ==>
                    var wn := positions[k].wn;
                    var tr := NearestTransmittance(s, wn);
                    annotations[k] == Annotation(Format2(wn), Coord(wn, tr), Coord(wn, tr - positions[k].offset))
      {
        var (wn, offset) := (positions[i].wn, positions[i].offset);
        var tr := NearestTransmittance(s, wn);
        annotations := annotations + [Annotation(Format2(wn), Coord(wn, tr), Coord(wn, tr - offset))];
      }
    }
    plotted := positions;
  }

  /** The export list: one record per plotted label, in order. */
  function ExportRecords(s: seq<Point>, plotted: seq<LabelPosition>): (records: seq<ExportRecord>)
    requires plotted != [] ==> |s| > 0
    ensures |records| == |plotted|
    ensures forall i :: 0 <= i < |plotted| ==>
              && records[i].x == plotted[i].wn
              && records[i].labelText == Format2(plotted[i].wn)
              && records[i].y == NearestTransmittance(s, plotted[i].wn)
  {
    if plotted == [] then []
    else
      var wn := plotted[0].wn;
      [ExportRecord(wn, NearestTransmittance(s, wn), Format2(wn))] + ExportRecords(s, plotted[1..])
  }

  function Wavenumbers(positions: seq<LabelPosition>): (wns: seq<real>)
    ensures |wns| == |positions| && forall i :: 0 <= i < |positions| ==> wns[i] == positions[i].wn
  {
    seq(|positions|, i requires 0 <= i < |positions| => positions[i].wn)
  }

  /** The export depends on the labels' wavenumbers only: offsets never reach it. */
  lemma {:induction false} ExportIgnoresOffsets(s: seq<Point>, p: seq<LabelPosition>, q: seq<LabelPosition>)
    requires p != [] ==> |s| > 0
    requires Wavenumbers(p) == Wavenumbers(q)
    ensures ExportRecords(s, p) == ExportRecords(s, q)
  {
    if p != [] {
      assert p[0].wn == Wavenumbers(p)[0] == q[0].wn;
      assert Wavenumbers(p[1..]) == Wavenumbers(p)[1..];
      assert Wavenumbers(q[1..]) == Wavenumbers(q)[1..];
      ExportIgnoresOffsets(s, p[1..], q[1..]);
    }
  }
}
