/**
 * `parse_file`: choose the reader by the file name's suffix, coerce every
 * cell to a number, drop every row holding a cell that did not coerce, and
 * rename the first two columns.
 *
 * The readers (`pd.read_csv`, `pd.read_excel`) together with the coercion
 * `pd.to_numeric(errors='coerce')` are represented by the table they would
 * produce: a header and rows of optional numbers, `None` for a cell that did
 * not coerce.
 */
module Loader {
  import opened Wrappers
  import opened Spectrum

  type Cell = Option<real>
  type Row = seq<Cell>

  /** A data frame: column labels and rows, in file order. */
  datatype Grid = Grid(columns: seq<string>, rows: seq<Row>) {
    /** Every row has one cell per column. */
    predicate Rectangular()
    {
      forall i :: 0 <= i < |rows| ==> |rows[i]| == |columns|
    }
  }

  /** What a reader yields: always rectangular. */
  type Table = g: Grid | g.Rectangular() witness Grid([], [])

  datatype Reader = Csv | Excel

  datatype ParseError =
    | UnsupportedFileType                // "Unsupported file type"
    | TooFewColumns                      // "File must have at least two columns of numeric data."

  predicate EndsWith(s: string, suffix: string)
  {
    |suffix| <= |s| && s[|s| - |suffix|..] == suffix
  }

  /** No name ends with both ".csv" and ".xlsx". */
  lemma SuffixesExclusive(name: string)
    ensures !(EndsWith(name, ".csv") && EndsWith(name, ".xlsx"))
  {
    if EndsWith(name, ".xlsx") {
      assert name[|name| - 4..][0] == 'x';
    }
  }

  /** The suffix test of `parse_file`: ".csv" first, then ".xlsx". */
  function ReaderFor(name: string): (r: Option<Reader>)
    ensures r == Some(Csv) <==> EndsWith(name, ".csv")
    ensures r == Some(Excel) <==> EndsWith(name, ".xlsx")
    ensures r == None <==> !EndsWith(name, ".csv") && !EndsWith(name, ".xlsx")
  {
    if EndsWith(name, ".csv") then
      SuffixesExclusive(name);
      Some(Csv)
    else if EndsWith(name, ".xlsx") then
      Some(Excel)
    else
      None
  }

  /** A row survives `dropna` when every cell in it, in any column, is a number. */
  predicate Complete(row: Row)
  {
    forall c :: 0 <= c < |row| ==> row[c].Some?
  }

  /** `dropna()`: the complete rows, in their original order. */
  function CompleteRows(rows: seq<Row>): seq<Row>
  {
    if rows == [] then []
    else
      var last := rows[|rows| - 1];
      CompleteRows(rows[..|rows| - 1]) + (if Complete(last) then [last] else [])
  }

  /** The positions of the rows that `dropna()` keeps. */
  function KeptPositions(rows: seq<Row>): seq<nat>
  {
    if rows == [] then []
    else
      var n := |rows| - 1;
      KeptPositions(rows[..n]) + (if Complete(rows[n]) then [n] else [])
  }

  /**
   * The kept positions are in range and strictly increasing, and a position
   * is kept iff the row there is complete.
   */
  lemma {:induction false} KeptPositionsSpec(rows: seq<Row>)
    ensures forall i :: 0 <= i < |KeptPositions(rows)| ==> KeptPositions(rows)[i] < |rows|
    ensures forall i, j :: 0 <= i < j < |KeptPositions(rows)| ==> KeptPositions(rows)[i] < KeptPositions(rows)[j]
    ensures forall p :: 0 <= p < |rows| ==> (p in KeptPositions(rows) <==> Complete(rows[p]))
  {
    if rows != [] {
      var n := |rows| - 1;
      var front := rows[..n];
      KeptPositionsSpec(front);
      var k' := KeptPositions(front);
      var k := KeptPositions(rows);
      assert k == k' + (if Complete(rows[n]) then [n] else []);
      forall p | 0 <= p < |rows|
        ensures p in k <==> Complete(rows[p])
      {
        if p < n {
          assert front[p] == rows[p];
        }
      }
    }
  }

  /** The i-th surviving row is the row at the i-th kept position. */
  lemma {:induction false} CompleteRowsAt(rows: seq<Row>)
    ensures |CompleteRows(rows)| == |KeptPositions(rows)|
    ensures forall i :: 0 <= i < |KeptPositions(rows)| ==>
              KeptPositions(rows)[i] < |rows| && CompleteRows(rows)[i] == rows[KeptPositions(rows)[i]]
  {
    if rows != [] {
      var n := |rows| - 1;
      var front := rows[..n];
      CompleteRowsAt(front);
      var k' := KeptPositions(front);
      var k := KeptPositions(rows);
      var c := CompleteRows(rows);
      assert k == k' + (if Complete(rows[n]) then [n] else []);
      assert c == CompleteRows(front) + (if Complete(rows[n]) then [rows[n]] else []);
      forall i | 0 <= i < |k|
        ensures k[i] < |rows| && c[i] == rows[k[i]]
      {
        if i < |k'| {
          assert front[k'[i]] == rows[k'[i]];
        }
      }
    }
  }

  /**
   * The rows kept are exactly the complete ones, in their original order:
   * the kept positions are strictly increasing, a position is kept iff its
   * row is complete, and the i-th surviving row is the row at the i-th kept position.
   */
  lemma CompleteRowsSpec(rows: seq<Row>)
    ensures |CompleteRows(rows)| == |KeptPositions(rows)|
    ensures forall i :: 0 <= i < |KeptPositions(rows)| ==>
              KeptPositions(rows)[i] < |rows| && CompleteRows(rows)[i] == rows[KeptPositions(rows)[i]]
    ensures forall i, j :: 0 <= i < j < |KeptPositions(rows)| ==> KeptPositions(rows)[i] < KeptPositions(rows)[j]
    ensures forall p :: 0 <= p < |rows| ==> (p in KeptPositions(rows) <==> Complete(rows[p]))
  {
    KeptPositionsSpec(rows);
    CompleteRowsAt(rows);
  }

  /** Every surviving row is complete and was a row of the input. */
  lemma {:induction false} CompleteRowsAreComplete(rows: seq<Row>)
    ensures forall r :: r in CompleteRows(rows) ==> Complete(r) && r in rows
  {
    if rows != [] {
      CompleteRowsAreComplete(rows[..|rows| - 1]);
    }
  }

  /** When no row is complete, `dropna()` leaves no row. */
  lemma {:induction false} NoCompleteRow(rows: seq<Row>)
    requires forall i :: 0 <= i < |rows| ==> !Complete(rows[i])
    ensures CompleteRows(rows) == []
  {
    if rows != [] {
      NoCompleteRow(rows[..|rows| - 1]);
    }
  }

  /** The column rename: the first two labels become Wavenumber and Transmittance, the rest are kept. */
  function Renamed(columns: seq<string>): (r: seq<string>)
    requires |columns| >= 2
    ensures |r| == |columns| && r[0] == "Wavenumber" && r[1] == "Transmittance"
    ensures forall c :: 2 <= c < |r| ==> r[c] == columns[c]
  {
    ["Wavenumber", "Transmittance"] + columns[2..]
  }

  /** What `parse_file` returns for a file named `name`, given what each reader would yield. */
  function Parse(name: string, csv: Table, excel: Table): Result<Grid, ParseError>
  {
    match ReaderFor(name)
    case None => Failure(UnsupportedFileType)
    case Some(reader) =>
      var t := if reader == Csv then csv else excel;
      var rows := CompleteRows(t.rows);
      if |t.columns| >= 2 then Success(Grid(Renamed(t.columns), rows)) else Failure(TooFewColumns)
  }

  /**
   * The suffix alone picks the reader: a ".csv" name never looks at the
   * spreadsheet reader's table, a ".xlsx" name never looks at the CSV one,
   * and any other name fails with "Unsupported file type" whatever either would read.
   */
  lemma ParseDispatch(name: string, csv: Table, excel: Table, csv': Table, excel': Table)
    ensures EndsWith(name, ".csv") ==> Parse(name, csv, excel) == Parse(name, csv, excel')
    ensures EndsWith(name, ".xlsx") ==> Parse(name, csv, excel) == Parse(name, csv', excel)
    ensures !EndsWith(name, ".csv") && !EndsWith(name, ".xlsx") ==>
              Parse(name, csv, excel) == Failure(UnsupportedFileType)
  {
    match ReaderFor(name)
    case None =>
    case Some(reader) =>
  }

  /** The table `parse_file` works on once a reader is chosen. */
  function Chosen(name: string, csv: Table, excel: Table): Table
    requires ReaderFor(name).Some?
  {
    if ReaderFor(name) == Some(Csv) then csv else excel
  }

  /**
   * For a supported name, parsing fails exactly when the table has fewer than
   * two columns (dropping rows never changes that count, and a table whose
   * every row was dropped is not rejected). Otherwise the result has the same
   * number of columns, the first two renamed and the rest as read, and its
   * rows are exactly the complete rows of the table, in order.
   */
  lemma {:induction false} ParseSupported(name: string, csv: Table, excel: Table)
    requires ReaderFor(name).Some?
    ensures var t := Chosen(name, csv, excel);
      && (Parse(name, csv, excel) == Failure(TooFewColumns) <==> |t.columns| < 2)
      && (Parse(name, csv, excel).Success? <==> |t.columns| >= 2)
      && (Parse(name, csv, excel).Success? ==>
            var g := Parse(name, csv, excel).value;
            && |g.columns| == |t.columns|
            && g.columns[0] == "Wavenumber" && g.columns[1] == "Transmittance"
            && g.columns[2..] == t.columns[2..]
            && g.rows == CompleteRows(t.rows)
            && IsClean(g))
  {
    var t := Chosen(name, csv, excel);
    CompleteRowsAreComplete(t.rows);
    if |t.columns| >= 2 {
      var g := Parse(name, csv, excel).value;
      assert g.rows == CompleteRows(t.rows);
      forall i | 0 <= i < |g.rows|
        ensures |g.rows[i]| == |g.columns| && Complete(g.rows[i])
      {
        assert g.rows[i] in CompleteRows(t.rows);
      }
    }
  }

  /** A table with at least two columns and no complete row parses to an empty frame, not an error. */
  lemma EmptyTableAccepted(name: string, t: Table)
    requires ReaderFor(name).Some?
    requires |t.columns| >= 2
    requires forall i :: 0 <= i < |t.rows| ==> !Complete(t.rows[i])
    ensures Parse(name, t, t) == Success(Grid(Renamed(t.columns), []))
  {
    NoCompleteRow(t.rows);
  }

  /** A successfully parsed frame: at least two columns, every cell a number. */
  predicate IsClean(g: Grid)
  {
    |g.columns| >= 2 && g.Rectangular() && forall i :: 0 <= i < |g.rows| ==> Complete(g.rows[i])
  }

  /**
   * The first two columns of a clean frame, row by row. `df["Wavenumber"]`
   * and `df["Transmittance"]` select by label; when each label occurs once,
   * they are these two columns (`ColumnsByLabel`).
   */
  function SpectrumOf(g: Grid): (s: seq<Point>)
    requires IsClean(g)
    ensures |s| == |g.rows|
    ensures forall i :: 0 <= i < |s| ==> Some(s[i].wn) == g.rows[i][0] && Some(s[i].tr) == g.rows[i][1]
  {
    seq(|g.rows|, i requires 0 <= i < |g.rows| && |g.rows[i]| >= 2 && Complete(g.rows[i]) =>
      Point(g.rows[i][0].value, g.rows[i][1].value))
  }

  /** How many columns carry the label `name`; selecting a label that occurs twice yields a frame, not a series. */
  function Occurrences(columns: seq<string>, name: string): nat
  {
    multiset(columns)[name]
  }

  /**
   * After the rename, "Wavenumber" and "Transmittance" each occur at least
   * once, and a label that occurs exactly once sits at position 0 or 1
   * respectively; a further occurrence can come only from a column kept
   * from the third one on.
   */
  lemma ColumnsByLabel(name: string, csv: Table, excel: Table)
    requires Parse(name, csv, excel).Success?
    ensures var g := Parse(name, csv, excel).value;
      && g.columns[0] == "Wavenumber" && g.columns[1] == "Transmittance"
      && Occurrences(g.columns, "Wavenumber") >= 1 && Occurrences(g.columns, "Transmittance") >= 1
      && (Occurrences(g.columns, "Wavenumber") == 1 <==> "Wavenumber" !in g.columns[2..])
      && (Occurrences(g.columns, "Transmittance") == 1 <==> "Transmittance" !in g.columns[2..])
      && (Occurrences(g.columns, "Wavenumber") == 1 ==>
            forall j :: 0 <= j < |g.columns| && g.columns[j] == "Wavenumber" ==> j == 0)
      && (Occurrences(g.columns, "Transmittance") == 1 ==>
            forall j :: 0 <= j < |g.columns| && g.columns[j] == "Transmittance" ==> j == 1)
  {
    ParseSupported(name, csv, excel);
    var c := Parse(name, csv, excel).value.columns;
    assert c[0] == "Wavenumber" && c[1] == "Transmittance";
    assert c == [c[0], c[1]] + c[2..];
    assert multiset(c) == multiset([c[0], c[1]]) + multiset(c[2..]);
    assert Occurrences(c, "Wavenumber") == 1 + multiset(c[2..])["Wavenumber"];
    assert Occurrences(c, "Transmittance") == 1 + multiset(c[2..])["Transmittance"];
    forall j | 2 <= j < |c|
      ensures c[j] in multiset(c[2..])
    {
      assert c[j] == c[2..][j - 2];
    }
  }

  /** Every successful parse yields a clean frame, so its spectrum is defined. */
  lemma ParsedIsClean(name: string, csv: Table, excel: Table)
    requires Parse(name, csv, excel).Success?
    ensures IsClean(Parse(name, csv, excel).value)
  {
    ParseSupported(name, csv, excel);
  }

  /**
   * The data frame `parse_file` works on in place: `dropna(inplace=True)`
   * removes rows and `df.columns = ...` replaces the labels.
   */
  class Frame {
    var columns: seq<string>
    var rows: seq<Row>

    ghost predicate Valid()
      reads this
    {
      Grid(columns, rows).Rectangular()
    }

    /** The frame's current contents as a value. */
    function Snapshot(): Grid
      reads this
    {
      Grid(columns, rows)
    }

    /** The frame a reader returns, already coerced to numbers. */
    constructor (t: Table)
      ensures Valid() && Snapshot() == t
    {
      columns := t.columns;
      rows := t.rows;
    }

    /** `df.dropna(inplace=True)`. */
    method DropNa()
      requires Valid()
      modifies this
      ensures Valid()
      ensures columns == old(columns) && rows == CompleteRows(old(rows))
    {
      CompleteRowsAreComplete(rows);
      rows := CompleteRows(rows);
      forall i | 0 <= i < |rows| ensures |rows[i]| == |columns| {
        assert rows[i] in CompleteRows(old(rows));
      }
    }

    /** `df.columns = names`; the new labels must be as many as the columns. */
    method SetColumns(names: seq<string>)
      requires Valid() && |names| == |columns|
      modifies this
      ensures Valid()
      ensures columns == names && rows == old(rows)
    {
      columns := names;
    }
  }

  /**
   * `parse_file(file)` for a file called `name`; `csv` and `excel` stand for
   * what each reader would read from it. The frame returned is new and holds
   * exactly what `Parse` describes.
   */
  method ParseFile(name: string, csv: Table, excel: Table) returns (r: Result<Frame, ParseError>)
    ensures r.Failure? <==> Parse(name, csv, excel).Failure?
    ensures r.Failure? ==> r.error == Parse(name, csv, excel).error
    ensures r.Success? ==> fresh(r.value) && r.value.Valid() && r.value.Snapshot() == Parse(name, csv, excel).value
  {
    var reader := ReaderFor(name);
    if reader.None? {
      return Failure(UnsupportedFileType);
    }
    var df := new Frame(if reader.value == Csv then csv else excel);
    df.DropNa();
    if |df.columns| >= 2 {
      df.SetColumns(Renamed(df.columns));
    } else {
      return Failure(TooFewColumns);
    }
    return Success(df);
  }
}
