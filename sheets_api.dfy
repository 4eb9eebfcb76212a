/**
 * The serverless handler's reshaping of spreadsheet rows (`api/sheets-api.js`).
 * The Sheets client call is outside the model: `values` is the row list it
 * returns, absent (`None`) when the range holds no data. A row is the list of
 * its formatted cells; the API leaves out trailing empty cells, so a row may
 * be shorter than the range is wide.
 */
module SheetsApi {
  import opened Wrappers
  import opened JsText

  /** The board sheet's column names, in column order; the upstream spellings are kept. */
  const BoardColumns: seq<string> :=
    ["area-number", "place", "adress", "lat", "long", "status", "note", "city", "ward"]

  lemma BoardColumnsDistinct()
    ensures |BoardColumns| == 9
    ensures forall i, j :: 0 <= i < j < |BoardColumns| ==> BoardColumns[i] != BoardColumns[j]
  {
  }

  /** `row[i] || ''`: the cell at column `i`, or the empty string where the row has none. */
  function Cell(row: seq<string>, i: nat): string {
    if i < |row| then row[i] else ""
  }

  /** `obj` is the keyed form of `row`: exactly the nine column names, each holding its column's cell. */
  ghost predicate IsBoardObject(obj: map<string, string>, row: seq<string>) {
    && (forall k :: k in obj <==> k in BoardColumns)
    && forall i :: 0 <= i < |BoardColumns| ==> BoardColumns[i] in obj && obj[BoardColumns[i]] == Cell(row, i)
  }

  /**
   * One board row as an object: the column loop assigns each name its cell,
   * so the object has exactly the nine names, each holding the cell at its
   * index or `''`, and cells past the ninth column are ignored.
   */
  method BoardObject(row: seq<string>) returns (obj: map<string, string>)
    ensures IsBoardObject(obj, row)
  {
    obj := map[];
    var idx := 0;
    while idx < |BoardColumns|
      invariant 0 <= idx <= |BoardColumns|
      invariant forall k :: k in obj <==> k in BoardColumns[..idx]
      invariant forall i :: 0 <= i < idx ==> BoardColumns[i] in obj && obj[BoardColumns[i]] == Cell(row, i)
    {
      assert BoardColumns[..idx + 1] == BoardColumns[..idx] + [BoardColumns[idx]];
      obj := obj[BoardColumns[idx] := Cell(row, idx)];
      idx := idx + 1;
    }
    assert BoardColumns[..idx] == BoardColumns;
  }

  /**
   * The board sheet's response: one object per row, in row order; no rows
   * (`values` absent) gives the empty list.
   */
  method BoardSheet(values: Option<seq<seq<string>>>) returns (data: seq<map<string, string>>)
    ensures values.None? ==> data == []
    ensures values.Some? ==>
      && |data| == |values.value|
      && forall i :: 0 <= i < |data| ==> IsBoardObject(data[i], values.value[i])
  {
    match values {
      case None =>
        data := [];
      case Some(rows) =>
        data := [];
        var i := 0;
        while i < |rows|
          invariant 0 <= i <= |rows| && |data| == i
          invariant forall k :: 0 <= k < i ==> IsBoardObject(data[k], rows[k])
        {
          var obj := BoardObject(rows[i]);
          ghost var prev := data;
          data := data + [obj];
          assert forall k :: 0 <= k < i ==> data[k] == prev[k];
          i := i + 1;
        }
    }
  }

  /** One progress-sheet row, typed. */
  datatype ProgressRow = ProgressRow(
    pref: string, region: string, subregion: string, city: string, ward: string,
    total: nat, done: nat, progress: nat)

  /**
   * `Number(cell) || 0`: the number the (trimmed) cell spells, and 0 for
   * text that is not a number.
   */
  function CountCell(cell: string): (n: nat)
    ensures AllDigits(Trim(cell)) ==> n == DigitsValue(Trim(cell))
    ensures !AllDigits(Trim(cell)) ==> n == 0
  {
    OrZero(ToNumber(cell))
  }

  /**
   * The progress cell: text ending in `%` loses its first `%` and is read by
   * `parseFloat`, other text by `Number`; NaN becomes 0. Without a `%` the
   * cell therefore reads exactly as a count cell does.
   */
  function ProgressCell(cell: string): (n: nat)
    ensures !EndsWith(cell, "%") ==> n == CountCell(cell)
  {
    var progress := if EndsWith(cell, "%") then ParseFloat(RemoveFirst(cell, '%')) else ToNumber(cell);
    OrZero(progress)
  }

  /** One progress-sheet row, typed: text columns default to `''`, numbers to 0. */
  function ProgressRecord(row: seq<string>): ProgressRow {
    ProgressRow(Cell(row, 0), Cell(row, 1), Cell(row, 2), Cell(row, 3), Cell(row, 4),
                CountCell(Cell(row, 5)), CountCell(Cell(row, 6)), ProgressCell(Cell(row, 7)))
  }

  /**
   * The progress sheet's response: one record per row, in row order; the
   * five text fields are the first five cells as they stand, the counts are
   * read from the sixth and seventh cells and the progress from the eighth,
   * and a cell the row lacks reads as `''`.
   */
  function ProgressSheet(values: Option<seq<seq<string>>>): (data: seq<ProgressRow>)
    ensures values.None? ==> data == []
    ensures values.Some? ==> |data| == |values.value|
    ensures values.Some? ==>
      forall i :: 0 <= i < |data| ==>
        && data[i].pref == Cell(values.value[i], 0)
        && data[i].region == Cell(values.value[i], 1)
        && data[i].subregion == Cell(values.value[i], 2)
        && data[i].city == Cell(values.value[i], 3)
        && data[i].ward == Cell(values.value[i], 4)
        && data[i].total == CountCell(Cell(values.value[i], 5))
        && data[i].done == CountCell(Cell(values.value[i], 6))
        && data[i].progress == ProgressCell(Cell(values.value[i], 7))
  {
    match values
    case None => []
    case Some(rows) => seq(|rows|, i requires 0 <= i < |rows| => ProgressRecord(rows[i]))
  }

  /**
   * A number of digits reads as that number whether or not a `%` follows
   * it; a missing or empty cell reads as 0.
   */
  lemma {:induction false} ProgressCellDigits(d: string)
    requires d != [] && AllDigits(d)
    ensures ProgressCell(d + "%") == DigitsValue(d)
    ensures ProgressCell(d) == DigitsValue(d)
    ensures ProgressCell("") == 0
  {
    var s := d + "%";
    assert EndsWith(s, "%");
    assert FirstIndex(s, '%') == |d| by {
      assert s[|d|] == '%' && s[..|d|] == d;
      assert '%' !in d by {
        forall k | 0 <= k < |d| ensures d[k] != '%' { assert IsDigit(d[k]); }
      }
    }
    assert RemoveFirst(s, '%') == d by {
      assert s[..|d|] == d && s[|d| + 1..] == [];
    }
    assert LeadingSpaces(d) == 0 by { assert IsDigit(d[0]); }
    assert TrimStart(d) == d;
    assert DigitPrefix(d) == |d| by {
      DigitPrefixAllDigits(d);
    }
    assert d[..|d|] == d;
    assert !EndsWith(d, "%") by {
      assert IsDigit(d[|d| - 1]);
    }
    assert TrailingSpaces(d) == 0 by { assert IsDigit(d[|d| - 1]); }
    assert Trim(d) == d by { assert d[..|d|] == d; }
  }

  lemma {:induction false} DigitPrefixAllDigits(d: string)
    requires AllDigits(d)
    ensures DigitPrefix(d) == |d|
  {
    if d != [] {
      DigitPrefixAllDigits(d[1..]);
    }
  }

  /** Text with no digit at all, such as `abc`, `%` or `''`, reads as 0. */
  lemma ProgressCellNoDigits(cell: string)
    requires forall k :: 0 <= k < |cell| ==> !IsDigit(cell[k])
    ensures ProgressCell(cell) == 0
  {
    if EndsWith(cell, "%") {
      var t := TrimStart(RemoveFirst(cell, '%'));
      var i := FirstIndex(cell, '%');
      assert cell[|cell| - 1] == '%';
      assert forall c :: c in RemoveFirst(cell, '%') ==> c in cell by {
        assert RemoveFirst(cell, '%') == cell[..i] + cell[i + 1..];
      }
      assert t == [] || t[0] in RemoveFirst(cell, '%');
      assert DigitPrefix(t) == 0;
    } else {
      var t := Trim(cell);
      if t != [] {
        assert t[0] in cell;
        assert !AllDigits(t);
      }
    }
  }

  /** Typical cells: `''` and `abc` are both 0. */
  lemma ProgressCellTextExamples()
    ensures ProgressCell("") == 0
    ensures ProgressCell("abc") == 0
  {
    var abc := "abc";
    assert abc[0] == 'a' && abc[1] == 'b' && abc[2] == 'c';
    ProgressCellNoDigits(abc);
    ProgressCellNoDigits("");
  }
}
