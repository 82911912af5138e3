/** `printTable`: a text table whose columns are as wide as their widest cell.
  * The console is modelled as the sequence of lines written to it, each
  * without its trailing newline. */
module Table {

  const EmptyMessage: string := "Table is empty."
  const InvalidRowMessage: string := "Invalid row size."

  /** Written after every padded cell. */
  const CellSeparator: string := " | "

  /** Written after every run of dashes. */
  const ColumnSeparator: string := "-+-"

  function Repeat(c: char, n: nat): string
  {
    seq(n, _ => c)
  }

  /** `std::setw(w) << s`: right-aligned in a field of w characters, padded on
    * the left with spaces; a string longer than w is written whole. */
  function SetW(s: string, w: nat): string
  {
    if |s| < w then Repeat(' ', w - |s|) + s else s
  }

  /** The field is max(|s|, w) wide: s is written whole at its right end,
    * after nothing but spaces. */
  lemma SetWLayout(s: string, w: nat)
    ensures |SetW(s, w)| == if |s| < w then w else |s|
    ensures SetW(s, w)[|SetW(s, w)| - |s|..] == s
    ensures forall k :: 0 <= k < |SetW(s, w)| - |s| ==> SetW(s, w)[k] == ' '
  {
    if |s| < w {
      var r := SetW(s, w);
      assert r[|r| - |s|..] == s;
    }
  }

  /** The width of column i after the rows have been scanned, starting from
    * w: the longest i-th cell among the rows that have one. Rows of the
    * wrong size take part. */
  function MaxCellWidth(rows: seq<seq<string>>, i: nat, w: nat): nat
    decreases |rows|
  {
    if |rows| == 0 then w
    else
      var m := MaxCellWidth(rows[..|rows| - 1], i, w);
      var row := rows[|rows| - 1];
      if |row| > i && |row[i]| > m then |row[i]| else m
  }

  /** `columnWidths`: each column starts at its header's length. */
  function ColumnWidths(headers: seq<string>, data: seq<seq<string>>): (widths: seq<nat>)
    ensures |widths| == |headers|
  {
    seq(|headers|, i requires 0 <= i < |headers| => MaxCellWidth(data, i, |headers[i]|))
  }

  /** The cells laid out in their columns, each followed by " | ". */
  function FormatRow(cells: seq<string>, widths: seq<nat>): string
    requires |cells| <= |widths|
    decreases |cells|
  {
    if |cells| == 0 then ""
    else
      var n := |cells|;
      FormatRow(cells[..n - 1], widths) + SetW(cells[n - 1], widths[n - 1]) + CellSeparator
  }

  /** The line under the headers: dashes across each column, then "-+-". */
  function SeparatorLine(widths: seq<nat>): string
    decreases |widths|
  {
    if |widths| == 0 then ""
    else
      var n := |widths|;
      SeparatorLine(widths[..n - 1]) + Repeat('-', widths[n - 1]) + ColumnSeparator
  }

  /** Σ (widths[i] + 3): the length of a line whose cells all fit. */
  function LineWidth(widths: seq<nat>): nat
    decreases |widths|
  {
    if |widths| == 0 then 0 else LineWidth(widths[..|widths| - 1]) + widths[|widths| - 1] + 3
  }

  /** The index of the first row at or after `from` whose size is not n, or
    * |rows| if there is none. */
  function FirstInvalidRowFrom(rows: seq<seq<string>>, n: nat, from: nat): (k: nat)
    requires from <= |rows|
    ensures from <= k <= |rows|
    ensures forall j :: from <= j < k ==> |rows[j]| == n
    ensures k < |rows| ==> |rows[k]| != n
    decreases |rows| - from
  {
    if from == |rows| then from
    else if |rows[from]| != n then from
    else FirstInvalidRowFrom(rows, n, from + 1)
  }

  /** The index of the first row whose size is not n, or |rows| if none. */
  function FirstInvalidRow(rows: seq<seq<string>>, n: nat): (k: nat)
    ensures k <= |rows|
  {
    FirstInvalidRowFrom(rows, n, 0)
  }

  /** One formatted line per row, in order. */
  function RowLines(rows: seq<seq<string>>, widths: seq<nat>): seq<string>
    requires forall j :: 0 <= j < |rows| ==> |rows[j]| <= |widths|
    decreases |rows|
  {
    if |rows| == 0 then []
    else RowLines(rows[..|rows| - 1], widths) + [FormatRow(rows[|rows| - 1], widths)]
  }

  /** The k-th line is the k-th row, formatted. */
  lemma {:induction false} RowLinesIndex(rows: seq<seq<string>>, widths: seq<nat>)
    requires forall j :: 0 <= j < |rows| ==> |rows[j]| <= |widths|
    ensures |RowLines(rows, widths)| == |rows|
    ensures forall k :: 0 <= k < |rows| ==> RowLines(rows, widths)[k] == FormatRow(rows[k], widths)
    decreases |rows|
  {
    if |rows| > 0 {
      var init := rows[..|rows| - 1];
      RowLinesIndex(init, widths);
      forall k | 0 <= k < |init|
        ensures RowLines(rows, widths)[k] == FormatRow(rows[k], widths)
      {
        assert rows[k] == init[k];
      }
    }
  }

  /** Everything `printTable(headers, data)` writes. */
  function TableLines(headers: seq<string>, data: seq<seq<string>>): seq<string>
  {
    if |headers| == 0 || |data| == 0 then [EmptyMessage]
    else
      var widths := ColumnWidths(headers, data);
      var valid := FirstInvalidRow(data, |headers|);
      [FormatRow(headers, widths), SeparatorLine(widths)]
        + RowLines(data[..valid], widths)
        + (if valid < |data| then [InvalidRowMessage] else [])
  }

  /** `printTable(headers, data)`: the widths are computed in place in an
    * array, then the header, separator and row lines are written one cell
    * at a time; the first row of the wrong size ends the table. */
  method PrintTable(headers: seq<string>, data: seq<seq<string>>) returns (out: seq<string>)
    ensures out == TableLines(headers, data)
  {
    if |headers| == 0 || |data| == 0 {
      return [EmptyMessage];
    }

    var numColumns := |headers|;
    var columnWidths := ComputeColumnWidths(headers, data);
    ghost var widths := columnWidths[..];
    var header := FormatLine(headers, columnWidths);
    var separator := FormatSeparator(columnWidths);

    ghost var valid := FirstInvalidRow(data, numColumns);
    var body: seq<string> := [];
    for r := 0 to |data|
      invariant r <= valid
      invariant columnWidths[..] == widths
      invariant body == RowLines(data[..r], widths)
    {
      if |data[r]| != numColumns {
        assert r == valid;
        return [header, separator] + body + [InvalidRowMessage];
      }
      var line := FormatLine(data[r], columnWidths);
      assert data[..r + 1][..r] == data[..r];
      body := body + [line];
    }
    assert data[..|data|] == data;
    return [header, separator] + body;
  }

  /** The nested loops that fill `columnWidths`. */
  method ComputeColumnWidths(headers: seq<string>, data: seq<seq<string>>) returns (columnWidths: array<nat>)
    ensures fresh(columnWidths)
    ensures columnWidths[..] == ColumnWidths(headers, data)
  {
    var numColumns := |headers|;
    columnWidths := new nat[numColumns];
    for i := 0 to numColumns
      invariant forall k :: 0 <= k < i ==> columnWidths[k] == MaxCellWidth(data, k, |headers[k]|)
    {
      columnWidths[i] := |headers[i]|;
      for r := 0 to |data|
        invariant columnWidths[i] == MaxCellWidth(data[..r], i, |headers[i]|)
        invariant forall k :: 0 <= k < i ==> columnWidths[k] == MaxCellWidth(data, k, |headers[k]|)
      {
        assert data[..r + 1][..r] == data[..r];
        var row := data[r];
        if |row| > i && |row[i]| > columnWidths[i] {
          columnWidths[i] := |row[i]|;
        }
      }
      assert data[..|data|] == data;
    }
  }

  /** The loop that writes the separator line. */
  method FormatSeparator(widths: array<nat>) returns (line: string)
    ensures line == SeparatorLine(widths[..])
  {
    line := "";
    for i := 0 to widths.Length
      invariant line == SeparatorLine(widths[..i])
    {
      assert widths[..i + 1][..i] == widths[..i];
      line := line + Repeat('-', widths[i]) + ColumnSeparator;
    }
    assert widths[..widths.Length] == widths[..];
  }

  /** The inner loop that writes one line of padded cells. */
  method FormatLine(cells: seq<string>, widths: array<nat>) returns (line: string)
    requires |cells| == widths.Length
    ensures line == FormatRow(cells, widths[..])
  {
    line := "";
    for i := 0 to |cells|
      invariant line == FormatRow(cells[..i], widths[..])
    {
      assert cells[..i + 1][..i] == cells[..i];
      line := line + SetW(cells[i], widths[i]) + CellSeparator;
    }
    assert cells[..|cells|] == cells;
  }

  /** The scanned width is at least the starting width and every i-th cell,
    * and is one of them. */
  lemma {:induction false} MaxCellWidthBounds(rows: seq<seq<string>>, i: nat, w: nat)
    ensures MaxCellWidth(rows, i, w) >= w
    ensures forall r :: 0 <= r < |rows| && |rows[r]| > i ==> MaxCellWidth(rows, i, w) >= |rows[r][i]|
    ensures MaxCellWidth(rows, i, w) == w
         || exists r :: 0 <= r < |rows| && |rows[r]| > i && MaxCellWidth(rows, i, w) == |rows[r][i]|
    decreases |rows|
  {
    if |rows| > 0 {
      var init := rows[..|rows| - 1];
      MaxCellWidthBounds(init, i, w);
      var m := MaxCellWidth(init, i, w);
      forall r | 0 <= r < |rows| && |rows[r]| > i
        ensures MaxCellWidth(rows, i, w) >= |rows[r][i]|
      {
        if r < |init| {
          assert rows[r] == init[r];
        }
      }
      if MaxCellWidth(rows, i, w) != w && MaxCellWidth(rows, i, w) == m {
        var r :| 0 <= r < |init| && |init[r]| > i && m == |init[r][i]|;
        assert rows[r] == init[r];
      }
    }
  }

  /** Column i is as wide as its header and as every i-th cell of every row,
    * malformed rows included, and no wider than the widest of them. */
  lemma ColumnWidthIsMax(headers: seq<string>, data: seq<seq<string>>, i: nat)
    requires i < |headers|
    ensures ColumnWidths(headers, data)[i] >= |headers[i]|
    ensures forall r :: 0 <= r < |data| && |data[r]| > i ==> ColumnWidths(headers, data)[i] >= |data[r][i]|
    ensures ColumnWidths(headers, data)[i] == |headers[i]|
         || exists r :: 0 <= r < |data| && |data[r]| > i && ColumnWidths(headers, data)[i] == |data[r][i]|
  {
    MaxCellWidthBounds(data, i, |headers[i]|);
  }

  /** When every cell fits its column, the line is exactly LineWidth long. */
  lemma {:induction false} FormatRowLength(cells: seq<string>, widths: seq<nat>)
    requires |cells| <= |widths|
    requires forall k :: 0 <= k < |cells| ==> |cells[k]| <= widths[k]
    ensures |FormatRow(cells, widths)| == LineWidth(widths[..|cells|])
    decreases |cells|
  {
    if |cells| > 0 {
      var n := |cells|;
      FormatRowLength(cells[..n - 1], widths);
      assert widths[..n][..n - 1] == widths[..n - 1];
      SetWLayout(cells[n - 1], widths[n - 1]);
    }
  }

  /** The separator line is exactly LineWidth long. */
  lemma {:induction false} SeparatorLength(widths: seq<nat>)
    ensures |SeparatorLine(widths)| == LineWidth(widths)
    decreases |widths|
  {
    if |widths| > 0 {
      SeparatorLength(widths[..|widths| - 1]);
    }
  }

  /** An empty header list or an empty data set prints only the message. */
  lemma EmptyTable(headers: seq<string>, data: seq<seq<string>>)
    requires |headers| == 0 || |data| == 0
    ensures TableLines(headers, data) == [EmptyMessage]
  {
  }

  /** Otherwise: header, separator, then the rows in order up to the first
    * one of the wrong size, which is replaced by the error message and ends
    * the output. */
  lemma TableShape(headers: seq<string>, data: seq<seq<string>>)
    requires |headers| > 0 && |data| > 0
    ensures var out, valid := TableLines(headers, data), FirstInvalidRow(data, |headers|);
      && |out| == 2 + valid + (if valid < |data| then 1 else 0)
      && out[0] == FormatRow(headers, ColumnWidths(headers, data))
      && out[1] == SeparatorLine(ColumnWidths(headers, data))
      && (forall k :: 0 <= k < valid ==> out[2 + k] == FormatRow(data[k], ColumnWidths(headers, data)))
      && (valid < |data| ==> out[|out| - 1] == InvalidRowMessage)
  {
    var widths, valid := ColumnWidths(headers, data), FirstInvalidRow(data, |headers|);
    var rows := data[..valid];
    RowLinesIndex(rows, widths);
    var head, body := [FormatRow(headers, widths), SeparatorLine(widths)], RowLines(rows, widths);
    var tail: seq<string> := if valid < |data| then [InvalidRowMessage] else [];
    var out := TableLines(headers, data);
    assert out == head + body + tail;
    forall k | 0 <= k < valid
      ensures out[2 + k] == FormatRow(data[k], widths)
    {
      IndexAfterTwo(head, body, tail, k);
      assert rows[k] == data[k];
    }
  }

  lemma IndexAfterTwo<T>(head: seq<T>, body: seq<T>, tail: seq<T>, k: nat)
    requires |head| == 2 && k < |body|
    ensures (head + body + tail)[2 + k] == body[k]
  {
  }

  /** Every line of the table proper (header, separator, each printed row)
    * is LineWidth(widths) long. */
  lemma LinesAlign(headers: seq<string>, data: seq<seq<string>>)
    requires |headers| > 0 && |data| > 0
    ensures forall j :: 0 <= j < |TableLines(headers, data)| && j < 2 + FirstInvalidRow(data, |headers|) ==>
              |TableLines(headers, data)[j]| == LineWidth(ColumnWidths(headers, data))
  {
    var widths, valid := ColumnWidths(headers, data), FirstInvalidRow(data, |headers|);
    var out := TableLines(headers, data);
    TableShape(headers, data);
    HeaderFits(headers, data);
    SeparatorLength(widths);
    forall j | 2 <= j < |out| && j < 2 + valid
      ensures |out[j]| == LineWidth(widths)
    {
      RowFits(headers, data, j - 2);
    }
  }

  /** The header line is LineWidth(widths) long. */
  lemma HeaderFits(headers: seq<string>, data: seq<seq<string>>)
    ensures |FormatRow(headers, ColumnWidths(headers, data))| == LineWidth(ColumnWidths(headers, data))
  {
    var widths := ColumnWidths(headers, data);
    forall i | 0 <= i < |headers|
      ensures |headers[i]| <= widths[i]
    {
      ColumnWidthIsMax(headers, data, i);
    }
    assert widths[..|headers|] == widths;
    FormatRowLength(headers, widths);
  }

  /** Every row before the first malformed one is LineWidth(widths) long. */
  lemma RowFits(headers: seq<string>, data: seq<seq<string>>, k: nat)
    requires k < FirstInvalidRow(data, |headers|)
    ensures |data[k]| == |headers|
    ensures |FormatRow(data[k], ColumnWidths(headers, data))| == LineWidth(ColumnWidths(headers, data))
  {
    var widths := ColumnWidths(headers, data);
    forall i | 0 <= i < |headers|
      ensures |data[k][i]| <= widths[i]
    {
      ColumnWidthIsMax(headers, data, i);
    }
    assert widths[..|headers|] == widths;
    FormatRowLength(data[k], widths);
  }
}
