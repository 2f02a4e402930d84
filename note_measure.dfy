/** NoteMeasure: the rows between two commas of an Etterna note block.
    initFromStr splits the text at runs of whitespace and loads each
    trimmed token as a row; every row must be as wide as the first. */
module NoteMeasures {
  import opened Wrappers
  import opened Text
  import opened NoteTypes
  import opened NoteRows

  datatype NoteMeasure = NoteMeasure(rows: seq<NoteRow>) {
    /** Measure.size: the number of rows. */
    function Size(): nat { |rows| }
  }

  /** The row text tokens of a measure, as measure.split("\\s+") gives them. */
  function RowTokens(measure: string): seq<string> {
    SplitRuns(measure, IsWhitespace)
  }

  /** Every row is as wide as the first. */
  predicate SameWidth(rows: seq<NoteRow>) {
    forall i :: 0 <= i < |rows| ==> |rows[i].notes| == |rows[0].notes|
  }

  /** A row as wide as the first keeps the rows of one width. */
  lemma SameWidthAppend(rows: seq<NoteRow>, row: NoteRow)
    requires SameWidth(rows) && (|rows| > 0 ==> |row.notes| == |rows[0].notes|)
    ensures SameWidth(rows + [row])
  {
    if |rows| > 0 {
      assert (rows + [row])[0] == rows[0];
    }
  }

  /** What loading each token as a trimmed row gives, token by token. */
  function RowLoads(tokens: seq<string>): (loads: seq<Result<NoteRow>>)
    ensures |loads| == |tokens|
    ensures forall i :: 0 <= i < |tokens| ==> loads[i] == ParseRow(Trim(tokens[i]))
  {
    seq(|tokens|, i requires 0 <= i < |tokens| => ParseRow(Trim(tokens[i])))
  }

  /** The loop of initFromStr from the cursor |rows| on, with `rows`
      already loaded: a token that does not load stops with its error, a
      row whose width differs from the first stops with
      IllegalStateException. */
  function LoadFrom(loads: seq<Result<NoteRow>>, rows: seq<NoteRow>): Result<seq<NoteRow>>
    requires |rows| <= |loads|
    decreases |loads| - |rows|
  {
    if |rows| == |loads| then Ok(rows)
    else match loads[|rows|]
      case Err(e) => Err(e)
      case Ok(row) =>
        if |rows| > 0 && |row.notes| != |rows[0].notes| then Err(IllegalStateException)
        else LoadFrom(loads, rows + [row])
  }

  /** What initFromStr yields. */
  function ParseMeasure(measure: string): Result<NoteMeasure> {
    match LoadFrom(RowLoads(RowTokens(measure)), [])
    case Ok(rows) => Ok(NoteMeasure(rows))
    case Err(e) => Err(e)
  }

  /** A successful load keeps the rows already loaded, takes every later
      row from its token in order, and yields rows all as wide as the first. */
  lemma {:induction false} LoadFromOk(loads: seq<Result<NoteRow>>, rows: seq<NoteRow>)
    requires |rows| <= |loads| && SameWidth(rows)
    requires LoadFrom(loads, rows).Ok?
    ensures var rs := LoadFrom(loads, rows).value;
      |rs| == |loads| && rs[..|rows|] == rows && SameWidth(rs) &&
      forall i :: |rows| <= i < |loads| ==> loads[i] == Ok(rs[i])
    decreases |loads| - |rows|
  {
    if |rows| < |loads| {
      var row := loads[|rows|].value;
      var next := rows + [row];
      SameWidthAppend(rows, row);
      LoadFromOk(loads, next);
      var rs := LoadFrom(loads, rows).value;
      assert rs == LoadFrom(loads, next).value;
      assert rs[..|rows|] == rs[..|next|][..|rows|];
      assert rs[|rows|] == rs[..|next|][|rows|];
    }
  }

  /** Conversely, when every token loads and the rows share one width the
      load succeeds with exactly those rows. */
  lemma {:induction false} LoadFromAll(loads: seq<Result<NoteRow>>, all: seq<NoteRow>, k: nat)
    requires |all| == |loads| && k <= |loads| && SameWidth(all)
    requires forall i :: 0 <= i < |loads| ==> loads[i] == Ok(all[i])
    ensures LoadFrom(loads, all[..k]) == Ok(all)
    decreases |loads| - k
  {
    if k < |loads| {
      assert all[..k] + [all[k]] == all[..k + 1];
      LoadFromAll(loads, all, k + 1);
    } else {
      assert all[..k] == all;
    }
  }

  /** NoteMeasure.initFromStr. */
  method InitFromStr(measure: string) returns (r: Result<NoteMeasure>)
    ensures r == ParseMeasure(measure)
    ensures r.Ok? ==> |r.value.rows| == |RowTokens(measure)| && SameWidth(r.value.rows)
    ensures r.Ok? ==> forall i :: 0 <= i < |r.value.rows| ==> ParseRow(Trim(RowTokens(measure)[i])) == Ok(r.value.rows[i])
  {
    var rows := RowTokens(measure);
    ghost var loads := RowLoads(rows);
    var noteRows: seq<NoteRow> := [];
    var numCols := -1;
    while |noteRows| < |rows|
      invariant |noteRows| <= |rows| && SameWidth(noteRows)
      invariant LoadFrom(loads, noteRows) == LoadFrom(loads, [])
      invariant |noteRows| == 0 <==> numCols == -1
      invariant |noteRows| > 0 ==> numCols == |noteRows[0].notes|
      decreases |rows| - |noteRows|
    {
      var row := LoadFromStr(Trim(rows[|noteRows|]));
      assert row == loads[|noteRows|];
      if row.Err? {
        return Err(row.thrown);
      }
      if numCols == -1 {
        numCols := |row.value.notes|;
      }
      if numCols != |row.value.notes| {
        return Err(IllegalStateException);
      }
      SameWidthAppend(noteRows, row.value);
      noteRows := noteRows + [row.value];
    }
    r := Ok(NoteMeasure(noteRows));
    LoadFromOk(loads, []);
  }

  /** Trimming leaves text without control characters or spaces unchanged. */
  lemma TrimPrintable(s: string)
    requires forall i :: 0 <= i < |s| ==> s[i] > ' '
    ensures Trim(s) == s
  {
  }

  /** A printed fresh row is one or more visible characters. */
  lemma RowStringPrintable(row: NoteRow)
    requires IsFreshRow(row) && |row.notes| >= 1
    ensures |RowString(row)| >= 1
    ensures forall k :: 0 <= k < |RowString(row)| ==> !IsWhitespace(RowString(row)[k]) && RowString(row)[k] > ' '
  {
    var t := RowString(row);
    forall k | 0 <= k < |t| ensures !IsWhitespace(t[k]) && t[k] > ' ' {
      assert t[k] == row.notes[k].startNote.IdentityChar();
    }
  }

  /** Printing rows one per line and loading the text gives the rows back:
      initFromStr inverts writing a measure of fresh rows of equal width. */
  lemma ParseMeasureOfRows(rows: seq<NoteRow>)
    requires |rows| >= 1 && SameWidth(rows)
    requires forall i :: 0 <= i < |rows| ==> IsFreshRow(rows[i])
    ensures ParseMeasure(Join(seq(|rows|, i requires 0 <= i < |rows| => RowString(rows[i])), "\n")) == Ok(NoteMeasure(rows))
  {
    var ts := seq(|rows|, i requires 0 <= i < |rows| => RowString(rows[i]));
    var text := Join(ts, "\n");
    RowTokensOfRows(rows, ts);
    RowLoadsOfRows(rows, ts);
    LoadFromAll(RowLoads(ts), rows, 0);
    assert rows[..0] == [];
    ParsedMeasure(text, ts, rows);
  }

  lemma RowTokensOfRows(rows: seq<NoteRow>, ts: seq<string>)
    requires forall i :: 0 <= i < |rows| ==> IsFreshRow(rows[i])
    requires |rows| >= 1 && ts == seq(|rows|, i requires 0 <= i < |rows| => RowString(rows[i]))
    ensures RowTokens(Join(ts, "\n")) == ts
  {
    forall i | 0 <= i < |ts|
      ensures |ts[i]| >= 1
      ensures forall k :: 0 <= k < |ts[i]| ==> !IsWhitespace(ts[i][k]) && ts[i][k] > ' '
    {
      RowStringPrintable(rows[i]);
    }
    SplitRunsJoin(ts, '\n', IsWhitespace);
  }

  lemma RowLoadsOfRows(rows: seq<NoteRow>, ts: seq<string>)
    requires forall i :: 0 <= i < |rows| ==> IsFreshRow(rows[i])
    requires ts == seq(|rows|, i requires 0 <= i < |rows| => RowString(rows[i]))
    ensures forall i :: 0 <= i < |ts| ==> RowLoads(ts)[i] == Ok(rows[i])
  {
    forall i | 0 <= i < |ts| ensures ParseRow(Trim(ts[i])) == Ok(rows[i]) {
      RowStringPrintable(rows[i]);
      TrimPrintable(ts[i]);
      ParseRowString(rows[i]);
    }
  }

  lemma ParsedMeasure(text: string, ts: seq<string>, rows: seq<NoteRow>)
    requires RowTokens(text) == ts && LoadFrom(RowLoads(ts), []) == Ok(rows)
    ensures ParseMeasure(text) == Ok(NoteMeasure(rows))
  {
  }

  // ---------------------------------------------------------------------
  // Walking the measures of a chart
  // ---------------------------------------------------------------------

  /** What forEachNote hands its action for one row: the row and the size
      of the measure it belongs to. */
  datatype Visit = Visit(size: nat, row: NoteRow)

  /** The rows of one measure, in stored order (the measure's iterator). */
  function MeasureVisits(measure: NoteMeasure): (vs: seq<Visit>)
    ensures |vs| == |measure.rows|
    ensures forall r :: 0 <= r < |vs| ==> vs[r] == Visit(|measure.rows|, measure.rows[r])
  {
    seq(|measure.rows|, r requires 0 <= r < |measure.rows| => Visit(|measure.rows|, measure.rows[r]))
  }

  /** forEachNote: every row of every measure, measure by measure. */
  function Visits(measures: seq<NoteMeasure>): seq<Visit> {
    if measures == [] then []
    else Visits(measures[..|measures| - 1]) + MeasureVisits(measures[|measures| - 1])
  }

  /** The total of the measure sizes. */
  function SumRows(measures: seq<NoteMeasure>): nat {
    if measures == [] then 0
    else SumRows(measures[..|measures| - 1]) + measures[|measures| - 1].Size()
  }

  /** forEachNote calls its action once per row: as many times as the
      measure sizes add up to. */
  lemma {:induction false} VisitsCount(measures: seq<NoteMeasure>)
    ensures |Visits(measures)| == SumRows(measures)
  {
    if measures != [] {
      VisitsCount(measures[..|measures| - 1]);
    }
  }

  /** Visiting one more measure visits its rows after all earlier ones. */
  lemma VisitsAppend(measures: seq<NoteMeasure>, measure: NoteMeasure)
    ensures Visits(measures + [measure]) == Visits(measures) + MeasureVisits(measure)
  {
    assert (measures + [measure])[..|measures|] == measures;
  }

  /** Whatever holds of every row of every measure holds of every row
      forEachNote visits. */
  lemma {:induction false} VisitsRows(measures: seq<NoteMeasure>, P: NoteRow -> bool)
    requires forall m, r :: 0 <= m < |measures| && 0 <= r < |measures[m].rows| ==> P(measures[m].rows[r])
    ensures forall k :: 0 <= k < |Visits(measures)| ==> P(Visits(measures)[k].row)
  {
    if measures != [] {
      VisitsRows(measures[..|measures| - 1], P);
    }
  }
}
