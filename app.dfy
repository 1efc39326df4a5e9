/**
 * One run of the page for an uploaded file: parse it, and when labels are
 * enabled detect peaks, select them, build the label positions, plot and
 * build the export records. Widgets become the fields of `Config`; the
 * detector becomes the parameter `detect`.
 */
module App {
  import opened Wrappers
  import opened Spectrum
  import opened Loader
  import opened Peaks
  import opened Labels
  import opened Render

  /** The sidebar widgets' values. */
  datatype Config = Config(
    showLabels: bool,              // "Enable Peak Labels"
    defaultOffset: Offset,         // "Default Vertical Offset"
    manualPeaks: bool,             // "Manually Adjust Label Positions"
    maxPeaks: nat,                 // "Maximum Number of Labels", 1 to 100
    manualOffset: real -> Offset)  // the per-peak sliders, keyed by wavenumber

  /** What a successful run produces. */
  datatype Outcome = Outcome(
    frame: Grid,
    peaks: seq<Point>,
    positions: seq<LabelPosition>,
    annotations: seq<Annotation>,
    records: seq<ExportRecord>)

  /** Why a run ends in the page's error message instead of a plot. */
  datatype RunError =
    | ParseFailed(cause: ParseError)       // `parse_file` raised
    | AmbiguousColumn(name: string)        // a selected label names two columns
    | MismatchedColumns(wavenumbers: nat, transmittances: nat)  // the line plot's column counts differ
    | RepeatedSliderKey(wn: real)          // two offset sliders with one key

  /** The negated Transmittance column, the series handed to the detector. */
  function NegatedTransmittance(s: seq<Point>): (v: seq<real>)
    ensures |v| == |s| && forall i :: 0 <= i < |s| ==> v[i] == -s[i].tr
  {
    seq(|s|, i requires 0 <= i < |s| => -s[i].tr)
  }

  /** One label per selected peak, in order, at the peak's wavenumber, with the mode's offset. */
  predicate LabelsFollowPeaks(peaks: seq<Point>, positions: seq<LabelPosition>, config: Config)
  {
    && |positions| == |peaks|
    && forall i :: 0 <= i < |peaks| ==>
         && positions[i].wn == peaks[i].wn
         && positions[i].offset == (if config.manualPeaks then config.manualOffset(peaks[i].wn) else config.defaultOffset)
  }

  /**
   * The export agrees with the plot: one record per label and annotation, in
   * order, with the annotation's x, anchor y and text; the annotation's text
   * sits `offset` below the anchor.
   */
  predicate ExportMatchesPlot(positions: seq<LabelPosition>, annotations: seq<Annotation>, records: seq<ExportRecord>)
  {
    && |annotations| == |positions| == |records|
    && forall i :: 0 <= i < |records| ==>
         && records[i].x == annotations[i].xy.x == annotations[i].xytext.x == positions[i].wn
         && records[i].y == annotations[i].xy.y
         && annotations[i].xytext.y == records[i].y - positions[i].offset
         && records[i].labelText == annotations[i].text
  }

  /** Lines run when labels are enabled: select the detected peaks and build their label positions. */
  method LabelPeaks(s: seq<Point>, detected: seq<nat>, config: Config)
    returns (peaks: seq<Point>, positions: Result<seq<LabelPosition>, real>)
    requires IsDetection(detected, |s|)
    ensures peaks == SelectPeaks(s, detected, config.maxPeaks)
    ensures positions.Failure? <==> config.manualPeaks && !DistinctWavenumbers(peaks)
    ensures positions.Failure? ==> FirstRepeat(peaks, positions.error)
    ensures positions.Success? ==> LabelsFollowPeaks(peaks, positions.value, config)
    ensures positions.Success? && positions.value != [] ==> |s| > 0
  {
    SelectPeaksSpec(s, detected, config.maxPeaks);
    peaks := SelectPeaks(s, detected, config.maxPeaks);
    if config.manualPeaks {
      positions := ManualLabelPositions(peaks, config.manualOffset);
    } else {
      positions := Success(DefaultLabelPositions(peaks, config.defaultOffset));
    }
    if positions.Success? && positions.value != [] {
      assert s[detected[0]] in s;
    }
  }

  /**
   * Plot, then build the export from the labels the plot returns. With
   * labels enabled the export matches the plot record for record; with them
   * disabled there are no labels, so neither annotations nor records.
   */
  method PlotAndExport(s: seq<Point>, positions: seq<LabelPosition>, showLabels: bool)
    returns (annotations: seq<Annotation>, records: seq<ExportRecord>)
    requires positions != [] ==> |s| > 0 && showLabels
    ensures ExportMatchesPlot(positions, annotations, records)
    ensures records == ExportRecords(s, positions)
  {
    var plotted;
    annotations, plotted := PlotIr(s, positions, showLabels);
    records := ExportRecords(s, plotted);
  }

  /**
   * What the page does with the clean frame `g`. With labels enabled, a
   * label kept from the third column on that repeats "Transmittance" (the
   * detector is handed two columns) or "Wavenumber" (the sort key is
   * ambiguous) is an error, and so is a slider key used twice; with labels
   * disabled, both labels repeated a different number of times is an error
   * (the line plot is handed x and y with different column counts).
   * Otherwise: with labels disabled nothing is selected, drawn or exported;
   * with labels enabled the peaks are the selection from the detector's
   * output, there is one label per peak in order with the mode's offset, and
   * the export is the nearest-row record of each label and matches the plot.
   */
  predicate Processed(g: Grid, detect: seq<real> -> seq<nat>, config: Config, r: Result<Outcome, RunError>)
    requires IsClean(g)
    requires forall v :: IsDetection(detect(v), |v|)
  {
    var s := SpectrumOf(g);
    var peaks := SelectPeaks(s, detect(NegatedTransmittance(s)), config.maxPeaks);
    var w := Occurrences(g.columns, "Wavenumber");
    var t := Occurrences(g.columns, "Transmittance");
    && (config.showLabels && t > 1 ==> r == Failure(AmbiguousColumn("Transmittance")))
    && (config.showLabels && t <= 1 && w > 1 ==> r == Failure(AmbiguousColumn("Wavenumber")))
    && (config.showLabels && t <= 1 && w <= 1 && config.manualPeaks && !DistinctWavenumbers(peaks) ==>
          r.Failure? && r.error.RepeatedSliderKey? && FirstRepeat(peaks, r.error.wn))
    && (config.showLabels && t <= 1 && w <= 1 && (!config.manualPeaks || DistinctWavenumbers(peaks)) ==>
          r.Success? && r.value.peaks == peaks)
    && (!config.showLabels && w > 1 && t > 1 && w != t ==> r == Failure(MismatchedColumns(w, t)))
    && (!config.showLabels && (w <= 1 || t <= 1 || w == t) ==>
          r.Success? && r.value.peaks == [] && r.value.positions == [] &&
          r.value.annotations == [] && r.value.records == [])
    && (r.Success? ==>
          && r.value.frame == g
          && LabelsFollowPeaks(r.value.peaks, r.value.positions, config)
          && ExportMatchesPlot(r.value.positions, r.value.annotations, r.value.records)
          && r.value.records == ExportRecords(s, r.value.positions))
  }

  /** Everything after parsing, on the clean frame `g`. */
  method Process(g: Grid, detect: seq<real> -> seq<nat>, config: Config)
    returns (r: Result<Outcome, RunError>)
    requires IsClean(g)
    requires forall v :: IsDetection(detect(v), |v|)
    ensures Processed(g, detect, config, r)
  {
    var s := SpectrumOf(g);
    var w := Occurrences(g.columns, "Wavenumber");
    var t := Occurrences(g.columns, "Transmittance");
    var peaks: seq<Point> := [];
    var positions: seq<LabelPosition> := [];
    if config.showLabels {
      if t > 1 {
        return Failure(AmbiguousColumn("Transmittance"));
      }
      if w > 1 {
        return Failure(AmbiguousColumn("Wavenumber"));
      }
      var labels;
      peaks, labels := LabelPeaks(s, detect(NegatedTransmittance(s)), config);
      if labels.Failure? {
        return Failure(RepeatedSliderKey(labels.error));
      }
      positions := labels.value;
    }
    if w > 1 && t > 1 && w != t {
      return Failure(MismatchedColumns(w, t));
    }
    var annotations, records := PlotAndExport(s, positions, config.showLabels);
    return Success(Outcome(g, peaks, positions, annotations, records));
  }

  /**
   * A run on file `name`; `csv` and `excel` stand for what each reader would
   * read. A parse error ends the run in the page's catch-all; otherwise the
   * run is `Process` on the parsed frame.
   */
  method Run(name: string, csv: Table, excel: Table, detect: seq<real> -> seq<nat>, config: Config)
    returns (r: Result<Outcome, RunError>)
    requires forall v :: IsDetection(detect(v), |v|)
    ensures Parse(name, csv, excel).Failure? ==> r == Failure(ParseFailed(Parse(name, csv, excel).error))
    ensures Parse(name, csv, excel).Success? ==>
              IsClean(Parse(name, csv, excel).value) && Processed(Parse(name, csv, excel).value, detect, config, r)
  {
    var parsed := ParseFile(name, csv, excel);
    if parsed.Failure? {
      return Failure(ParseFailed(parsed.error));
    }
    var frame := parsed.value.Snapshot();
    ParsedIsClean(name, csv, excel);
    r := Process(frame, detect, config);
  }

  /**
   * The library's sort may order equal wavenumbers either way; whichever
   * valid selection it returns, the label positions come out the same, and
   * with them everything plotted and exported.
   */
  lemma TieOrderDoesNotMatter(s: seq<Point>, detected: seq<nat>, config: Config, other: seq<Point>,
                              positions: seq<LabelPosition>, positions': seq<LabelPosition>)
    requires IsDetection(detected, |s|)
    requires IsSelection(RowsAt(s, detected), config.maxPeaks, other)
    requires LabelsFollowPeaks(SelectPeaks(s, detected, config.maxPeaks), positions, config)
    requires LabelsFollowPeaks(other, positions', config)
    ensures positions == positions'
  {
    var sel := SelectPeaks(s, detected, config.maxPeaks);
    SelectPeaksSpec(s, detected, config.maxPeaks);
    SelectionWavenumbersDetermined(RowsAt(s, detected), config.maxPeaks, sel, other);
  }
}
