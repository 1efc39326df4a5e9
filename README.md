# IR spectrum peak labelling — a Dafny model

This project models the computational core of a small Streamlit page that
turns an uploaded infrared spectrum (wavenumber in cm⁻¹ against percent
transmittance) into a labelled plot and a JSON list of peak labels. Everything
that is not UI, I/O or a foreign library call is modelled, with the values that
the widgets and the peak detector supply taken as parameters:

- **Loading** (`parse_file`): the file name's suffix picks the CSV or the
  spreadsheet reader ("Unsupported file type" otherwise); every row holding a
  cell that did not coerce to a number is dropped; a frame with fewer than two
  columns is rejected, otherwise its first two columns are renamed
  Wavenumber and Transmittance. The data frame is a class, `Loader.Frame`, whose
  `DropNa` and `SetColumns` change it in place, as `dropna(inplace=True)` and
  the column assignment do; `Loader.Parse` is the value it ends up holding.
- **Peak selection**: the detector's row positions (an input: strictly
  increasing, in range) are taken from the spectrum, sorted by wavenumber
  descending and cut to `max_peaks`. The library sort is not stable; the model
  uses one admissible order and proves that any valid outcome has the same
  wavenumbers at every position, so the labels do not depend on the order of ties.
- **Label positions**: default mode gives every peak the default offset; manual
  mode is a loop reading one slider (a value in [1.0, 20.0]) per peak, keyed by
  the peak's wavenumber; a key met a second time is an error.
- **Nearest lookup**: `idxmin` of |Wavenumber − wn|, the first row at minimal distance.
- **Annotations and export**: each label's arrow points at (wn, tr) and its text
  sits at (wn, tr − offset), tr being the nearest-row transmittance; each export
  record is {x: wn, y: tr, label: wn to two decimals}. The label text is the
  float's exact value rounded to hundredths, ties to even, as Python's
  formatting does (negative zero aside, see below), and it is proved to read
  back to that value.
- **One run** (`App.Run`, `App.Process`): parse, then (labels enabled) detect,
  select, position, plot and export, with the proof that the export matches the
  plot record for record. Every error ends the run in the page's catch-all
  message, `App.RunError`: a parse error; with labels enabled, "Transmittance"
  or "Wavenumber" naming two columns (the detector is handed a two-column
  frame, or the sort key is ambiguous) and then a slider key used twice; with
  labels disabled, both labels naming several columns, in different numbers
  (the line plot's x and y column counts differ).

Modules: `Wrappers` (Option, Result), `Spectrum` (rows and the nearest lookup),
`Loader`, `Peaks`, `Labels`, `DecimalFormat`, `Render`, `App`, and `Scenarios`
(worked examples on a five-row spectrum).

Behaviour of the code that a reader might not expect, modelled as written:

- A table whose every row is dropped is not an error: `parse_file` returns an
  empty frame with its columns renamed (`Loader.EmptyTableAccepted`), no peaks
  are found and nothing is labelled. There is no "empty dataset" error.
- Manual mode never lacks an offset: each slider starts at the default offset,
  so an untouched slider yields the default (`Labels.UntouchedSlidersGiveDefault`).
- A label is anchored by looking its wavenumber up again, not at the detected
  row: with two rows sharing that wavenumber, the first one wins. The anchor is
  the peak's own transmittance when its wavenumber is unique (`Spectrum.NearestOfUniqueRow`).
- The suffix test is case-sensitive: "DATA.CSV" is an unsupported file type.
- The rename keeps every label from the third column on, so a file headed
  Index,Wavenumber,Transmittance ends up with two Transmittance columns; with
  labels enabled the run fails (`Scenarios.IndexColumnFailsWithLabels`). The
  model reads the spectrum from the first two columns; when each label occurs
  once these are the columns the program selects by label (`Loader.ColumnsByLabel`).

## Model

| member | source | states |
|---|---|---|
| `Loader.ReaderFor` | app.py:21-26 | a name ending in ".csv" selects the CSV reader, one ending in ".xlsx" the spreadsheet reader, any other name none; the three cases are exclusive |
| `Loader.ParseDispatch` | app.py:20-26 | only the chosen reader's table affects the result; a name with neither suffix fails with UnsupportedFileType whatever either reader would yield |
| `Loader.KeptPositionsSpec` | app.py:28-29 | the positions `dropna` keeps are in range and strictly increasing, and a position is kept iff every cell of its row, in every column, is a number |
| `Loader.CompleteRowsAt` | app.py:29 | the i-th surviving row is the input row at the i-th kept position, so surviving rows keep their relative order |
| `Loader.CompleteRowsSpec` | app.py:28-29 | a row survives iff it is complete, and the survivors are the input rows in their original order |
| `Loader.CompleteRowsAreComplete` | app.py:29 | every surviving row is complete and was a row of the input |
| `Loader.Renamed` | app.py:32 | the column list keeps its length, starts with Wavenumber and Transmittance, and keeps every further column label |
| `Loader.ParseSupported` | app.py:28-36 | for a supported name, TooFewColumns iff the table has fewer than two columns (row dropping never changes the count); otherwise the frame has the renamed columns, the complete rows only, and every cell a number |
| `Loader.EmptyTableAccepted` | app.py:29-36 | a table with two or more columns and no complete row parses successfully to an empty frame |
| `Loader.ColumnsByLabel` | app.py:32 | after the rename "Wavenumber" and "Transmittance" each label at least one column; a label occurs once iff no column from the third on repeats it, and then it labels column 0, respectively 1, only |
| `Loader.ParsedIsClean` | app.py:31-36 | every successful parse has at least two columns and only numeric cells, so its spectrum is defined |
| `Loader.Frame.constructor` | app.py:22-24 | the frame holds exactly what the reader produced |
| `Loader.Frame.DropNa` | app.py:29 | in place: the columns are unchanged and the rows become the complete rows of the old rows |
| `Loader.Frame.SetColumns` | app.py:32 | in place: the labels are replaced and the rows untouched |
| `Loader.ParseFile` | app.py:20-36 | fails exactly when `Parse` fails, with the same error; otherwise returns a new valid frame holding exactly what `Parse` describes |
| `Spectrum.NearestIndex` | app.py:50 | the index returned is in range, no row is closer to wn, and every earlier row is strictly farther (the first minimiser, as `idxmin`) |
| `Spectrum.NearestTransmittance` | app.py:94 | the value is the transmittance of a row whose distance to wn is minimal |
| `Spectrum.NearestExactHit` | app.py:50 | when wn equals some row's wavenumber the lookup picks the first such row |
| `Spectrum.NearestOfUniqueRow` | app.py:50 | a label at a row's own, unique wavenumber is anchored at that row's transmittance |
| `Peaks.Insert` | app.py:76 | inserting a row adds exactly that row to the multiset of rows |
| `Peaks.InsertSorted` | app.py:76 | inserting into a descending run keeps it descending |
| `Peaks.SortDescending` | app.py:76 | the result is a permutation of the input ordered by wavenumber, descending |
| `Peaks.HeadOfSortedIsSelection` | app.py:76 | cutting any descending ordering of the candidates after `max_peaks` rows gives a valid selection |
| `Peaks.FromDetectedRow` | app.py:75 | a row taken from `df.iloc[peaks]` is the spectrum's row at some detected position |
| `Peaks.SelectPeaksSpec` | app.py:74-76 | the selection is ordered by wavenumber descending, has min(#detected, max_peaks) rows, takes each detected row at most once, every selected row is the spectrum's row at a detected position, and no detected row left out has a larger wavenumber than one kept |
| `Peaks.CountSub` | app.py:76 | counting rows at or above a wavenumber is monotone in the multiset of rows, and a surplus is witnessed by a row outside the smaller multiset |
| `Peaks.SelectionStepBound` | app.py:76 | position k of one valid selection never has a higher wavenumber than position k of another |
| `Peaks.SelectionWavenumbersDetermined` | app.py:76 | any two valid selections of the same detected rows have the same length and the same wavenumber at every position, whatever order the sort gives equal wavenumbers |
| `Labels.DefaultLabelPositions` | app.py:88 | one position per selected peak, in the same order, each the peak's wavenumber with the default offset |
| `Labels.ManualLabelPositions` | app.py:83-86 | fails iff two selected peaks share a wavenumber, naming the first wavenumber whose slider key was already used; otherwise one position per selected peak, in the same order, each the peak's wavenumber with the offset of the slider keyed by that wavenumber (a value in [1.0, 20.0]) |
| `Labels.UntouchedSlidersGiveDefault` | app.py:85 | when every slider is at the default offset, manual mode, when it completes, yields exactly the default-mode positions |
| `DecimalFormat.RoundHalfEven` | app.py:51 | the result is within one half of x, and an exact tie goes to the even integer |
| `DecimalFormat.DecimalReadsBack` | app.py:51 | the decimal digits written for n read back as n, wherever they sit in a text, and have no leading zero unless n is 0 |
| `DecimalFormat.Fixed2TextParses` | app.py:51 | a label built from a sign and a magnitude in hundredths reads back as that sign and magnitude |
| `DecimalFormat.Format2RoundTrip` | app.py:51 | the label text for wn reads back as wn's sign and wn rounded to hundredths |
| `DecimalFormat.Format2Unpadded` | app.py:51 | the integer part of a label starts with a nonzero digit unless it is a single 0, as Python's fixed-point formatting writes it |
| `DecimalFormat.Format2IsClose` | app.py:51 | the value the label text denotes is within 0.005 of wn |
| `Render.PlotIr` | app.py:48-51 | with labels enabled and any labels, one annotation per label in order, arrow at (wn, tr) and text at (wn, tr − offset) reading wn to two decimals, tr the nearest-row transmittance; otherwise none; the labels are returned unchanged |
| `Render.ExportRecords` | app.py:93-96 | one record per plotted label, in order, with x = wn, label = wn to two decimals and y the nearest-row transmittance |
| `Render.ExportIgnoresOffsets` | app.py:93-96 | labels with the same wavenumbers give the same export, so offsets never reach it |
| `App.LabelPeaks` | app.py:74-88 | the peaks are the selection from the detected rows; manual mode fails iff two of them share a wavenumber, naming the first repeat; otherwise there is one label per peak, in order, with the mode's offset |
| `App.PlotAndExport` | app.py:90-96 | the export is built from the labels the plot returns and matches the drawn annotations record for record: same x, anchor y and text, the text sitting offset below the anchor; each record is the nearest-row record of its label |
| `App.Process` | app.py:71-105 | on a clean frame: with labels enabled, a repeated "Transmittance" label, then a repeated "Wavenumber" label, then a repeated slider key is the run's error; with labels disabled, both labels repeated in different numbers is; otherwise labels disabled means no peaks, labels, annotations or records, and labels enabled means the selected peaks, one label per peak with the mode's offset, each record the nearest-row record of its label, and an export that matches the plot |
| `App.Run` | app.py:68-105 | a run fails with the parse error exactly when parsing fails; otherwise the parsed frame is clean and the run does what `App.Process` states on it |
| `App.TieOrderDoesNotMatter` | app.py:76-88 | whichever valid order the sort gives equal wavenumbers, the label positions, and with them the plot and the export, are the same |
| `Scenarios.SelectBothDips` | app.py:74-76 | with the detector reporting the dips at 3500 and 2500, both are selected, 3500 first |
| `Scenarios.SelectCappedAtOne` | app.py:76 | with `max_peaks` 1 only the dip at 3500 is selected |
| `Scenarios.LabelAt3500` | app.py:50-51 | the label at 3500 is anchored at 40, reads "3500.00" and is exported as {3500, 40, "3500.00"} |
| `Scenarios.OneColumnRejected` | app.py:31-34 | a table with a single column fails with TooFewColumns |
| `Scenarios.IndexColumnFailsWithLabels` | app.py:32-74 | a file headed Index,Wavenumber,Transmittance, run with labels enabled, fails because "Transmittance" names two columns |

## Left out

- Streamlit: the title, uploader, sidebar widgets, subheaders, tables shown and
  download buttons are UI; widget values are the fields of `App.Config`, and
  the `st.error` catch-all is the `Failure` of `App.Run`, which covers the
  errors listed above but not errors raised inside the readers.
- The "Generate Spectra with Peak Labels" button that gates the JSON download:
  the records are always built; when the button is not pressed they are simply not offered.
- `pd.read_csv` / `pd.read_excel` byte and header parsing, their own errors
  (an empty or malformed file), and `pd.to_numeric`'s text parsing: each reader
  and the coercion are represented by the table they yield, `None` for a cell
  that did not become a number.
- Infinite cell values (`inf` coerces and is not dropped): `real` has no infinity.
- `find_peaks` with distance 30 and prominence 1.0: a foreign library call; its
  output is a parameter assumed to be strictly increasing, in-range positions.
- matplotlib: the line plot, axis inversion, labels, grid, styling and the PDF;
  only the annotation text and points are modelled.
- `json.dumps` text output: records are values.
- Floating-point arithmetic: distances |Wavenumber − wn| are exact reals, so
  rounding that could make two float distances tie or swap is not captured.
- Pandas index labels: `loc` with the label `idxmin` returns is modelled as a
  row position. This rests on the reader abstraction, which takes every table to
  come with a fresh 0..n−1 index. A CSV whose data rows have one field more than
  its header makes pandas use the first field as the index; those labels may
  repeat, and `df.loc` then returns several rows. Such files are not modelled.
- DecimalFormat.Format2: a wavenumber of negative zero is the real 0.0, so its
  label reads "0.00" where Python writes "-0.00", and its slider key is the key
  of 0.0; `real` has no signed zero.
- `App.Config.maxPeaks` is a `nat`: the slider gives 1 to 100, so `head` with a negative count is never reached.
- `Spectrum.NearestIndex`: requires a non-empty spectrum (`idxmin` raises on an empty series); every lookup in the program is for a label taken from a row, so the spectrum is never empty there.
- `Peaks.SortDescending`: fixes one order among equal wavenumbers where the library's sort fixes none; every stated property holds for any order (`Peaks.SelectionWavenumbersDetermined`).
