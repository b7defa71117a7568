/** The row loop of `get_sheets_data` in app.py: the rows the spreadsheet
    returns (a header row, then one row per post) become items with the date
    cell, the post text and the minutes the extractor finds in it. Rows with
    fewer than two cells and rows worth 0 minutes are dropped. */
module Sheets {
  import opened Wrappers
  import opened Extractor

  /** One spreadsheet row: its cells, left to right. */
  type Row = seq<string>

  /** One processed row: `{'date': ..., 'duration': ..., 'text': ...}`. */
  datatype SheetItem = SheetItem(date: string, duration: nat, text: string)

  /** The error the function returns for a sheet without any row. */
  const NoData: string := "データが見つかりません"

  /** A row yields an item: it has a date and a text cell, and the text is
      worth some minutes. */
  predicate Keeps(row: Row) {
    |row| >= 2 && ExtractTimeFromText(row[1]) > 0
  }

  function ItemOf(row: Row): SheetItem
    requires |row| >= 2
  {
    SheetItem(row[0], ExtractTimeFromText(row[1]), row[1])
  }

  /** The items the rows yield, in the order of the rows. */
  function Normalised(rows: seq<Row>): (items: seq<SheetItem>)
    ensures |items| <= |rows|
  {
    if rows == [] then []
    else
      var init := Normalised(rows[..|rows| - 1]);
      var last := rows[|rows| - 1];
      if Keeps(last) then init + [ItemOf(last)] else init
  }

  /** `get_sheets_data` once the sheet's values have been fetched: an error
      for an empty sheet, otherwise the items of every row after the header. */
  method GetSheetsData(values: seq<Row>) returns (r: Result<seq<SheetItem>, string>)
    ensures values == [] <==> r == Failure(NoData)
    ensures values != [] ==> r == Success(Normalised(values[1..]))
  {
    if |values| == 0 {
      return Failure(NoData);
    }
    var processed: seq<SheetItem> := [];
    var i := 1;
    while i < |values|
      invariant 1 <= i <= |values|
      invariant processed == Normalised(values[1..i])
    {
      var row := values[i];
      if |row| >= 2 {
        var dateStr := row[0];
        var tweetText := row[1];
        var duration := ExtractTimeFromText(tweetText);
        if duration > 0 {
          processed := processed + [SheetItem(dateStr, duration, tweetText)];
        }
      }
      assert values[1..i + 1][..i - 1] == values[1..i];
      i := i + 1;
    }
    assert values[1..i] == values[1..];
    return Success(processed);
  }

  /** Every emitted item is the item of some row that keeps. */
  lemma {:induction false} NormalisedSound(rows: seq<Row>, item: SheetItem)
    requires item in Normalised(rows)
    ensures exists i :: 0 <= i < |rows| && Keeps(rows[i]) && item == ItemOf(rows[i])
    decreases |rows|
  {
    var n := |rows| - 1;
    var init := rows[..n];
    if !(Keeps(rows[n]) && item == ItemOf(rows[n])) {
      NormalisedSound(init, item);
      var i :| 0 <= i < |init| && Keeps(init[i]) && item == ItemOf(init[i]);
      assert rows[i] == init[i];
    }
  }

  /** Every row that keeps emits its item. */
  lemma {:induction false} NormalisedComplete(rows: seq<Row>, i: nat)
    requires i < |rows| && Keeps(rows[i])
    ensures ItemOf(rows[i]) in Normalised(rows)
    decreases |rows|
  {
    var n := |rows| - 1;
    if i < n {
      var init := rows[..n];
      assert init[i] == rows[i];
      NormalisedComplete(init, i);
    }
  }

  /** An item comes out exactly for each row that keeps. */
  lemma NormalisedMembers(rows: seq<Row>, item: SheetItem)
    ensures item in Normalised(rows) <==>
      exists i :: 0 <= i < |rows| && Keeps(rows[i]) && item == ItemOf(rows[i])
  {
    if item in Normalised(rows) {
      NormalisedSound(rows, item);
    } else {
      forall i | 0 <= i < |rows| && Keeps(rows[i])
        ensures item != ItemOf(rows[i])
      {
        NormalisedComplete(rows, i);
      }
    }
  }

  /** Every item carries the minutes of its own text, which are positive. */
  lemma NormalisedDurations(rows: seq<Row>, item: SheetItem)
    requires item in Normalised(rows)
    ensures item.duration == ExtractTimeFromText(item.text) > 0
  {
    NormalisedMembers(rows, item);
  }

  /** Normalising rows piece by piece gives the same items in the same
      order: the output keeps the order of the input. */
  lemma {:induction false} NormalisedAppend(a: seq<Row>, b: seq<Row>)
    ensures Normalised(a + b) == Normalised(a) + Normalised(b)
    decreases |b|
  {
    if b == [] {
      assert a + b == a;
    } else {
      var b' := b[..|b| - 1];
      assert (a + b)[..|a + b| - 1] == a + b';
      NormalisedAppend(a, b');
    }
  }

  /** A row that does not keep (too short, or worth 0 minutes) is as good as
      absent. */
  lemma DroppedRow(a: seq<Row>, row: Row, b: seq<Row>)
    requires !Keeps(row)
    ensures Normalised(a + [row] + b) == Normalised(a + b)
  {
    NormalisedAppend(a + [row], b);
    NormalisedAppend(a, [row]);
    NormalisedAppend(a, b);
    assert [row][..0] == [];
  }
}
