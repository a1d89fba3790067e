/**
 * The cleaner reads back a table it could have written: a rectangular grid of plain cells, written
 * as pipe-framed markdown lines joined by line breaks, cleans to exactly that grid.
 */
module CleanRoundTrip {
  import opened Text
  import opened TableClean

  /** A cell as a markdown table shows it: on one line, non-empty, with no pipe and no whitespace
      at either end. */
  predicate PlainCell(a: string)
  {
    |a| > 0 && '|' !in a && '\n' !in a && !IsSpace(a[0]) && !IsSpace(a[|a| - 1])
  }

  /** A row with at least one cell, every cell plain, and some character that a separator row
      cannot hold (so the row is not mistaken for one). */
  predicate PlainRow(row: seq<string>)
  {
    && |row| >= 1
    && (forall k :: 0 <= k < |row| ==> PlainCell(row[k]))
    && exists k, j :: 0 <= k < |row| && 0 <= j < |row[k]| && !IsTableChar(row[k][j])
  }

  /** At least two rows, all of the same width `n`, every one plain. */
  predicate PlainGrid(grid: seq<seq<string>>, n: nat)
  {
    && |grid| >= 2
    && forall i :: 0 <= i < |grid| ==> |grid[i]| == n && PlainRow(grid[i])
  }

  /** A row written as a markdown line: `|c1|c2|...|`. */
  function RowLine(row: seq<string>): string
  {
    "|" + Join(row, "|") + "|"
  }

  /** The rows' lines. */
  function GridLines(grid: seq<seq<string>>): (L: seq<string>)
    ensures |L| == |grid|
    ensures forall i :: 0 <= i < |grid| ==> L[i] == RowLine(grid[i])
  {
    seq(|grid|, i requires 0 <= i < |grid| => RowLine(grid[i]))
  }

  /** A grid written as a markdown table without a separator row. */
  function TableText(grid: seq<seq<string>>): string
  {
    Join(GridLines(grid), "\n")
  }

  /** The width of the widest row. */
  function Widest(grid: seq<seq<string>>): (w: nat)
    requires |grid| > 0
    ensures forall i :: 0 <= i < |grid| ==> |grid[i]| <= w
    ensures exists i :: 0 <= i < |grid| && |grid[i]| == w
  {
    var widths := seq(|grid|, i requires 0 <= i < |grid| => |grid[i]|);
    assert forall i :: 0 <= i < |grid| ==> widths[i] == |grid[i]|;
    Max(widths)
  }

  /** Cleaning plain rows of any widths, written as a markdown table, gives each row back with
      empty cells added up to the widest row's width. */
  lemma CleanPadsTableText(grid: seq<seq<string>>)
    requires |grid| >= 2
    requires forall i :: 0 <= i < |grid| ==> PlainRow(grid[i])
    ensures Clean(TableText(grid)) == PadAll(grid, Widest(grid))
  {
    var L := GridLines(grid);
    forall i | 0 <= i < |L| ensures Cells(L[i]) == grid[i] && FilledCount(L[i]) == |grid[i]| {
      RowLineFacts(grid[i]);
    }
    GridKeptLines(grid);
    var w := Widest(grid);
    assert ColumnCount(L) == w by {
      var c := ColumnCount(L);
      var i :| 0 <= i < |L| && FilledCount(L[i]) == c;
      var j :| 0 <= j < |grid| && |grid[j]| == w;
      assert FilledCount(L[j]) <= c;
    }
    CleanOfKeptRows(TableText(grid), L, grid, w);
  }

  /** Cleaning a plain rectangular grid written as a markdown table gives the grid back: every
      line is kept, every cell comes back as it was, and no row is padded. */
  lemma CleanOfTableText(grid: seq<seq<string>>, n: nat)
    requires PlainGrid(grid, n)
    ensures Clean(TableText(grid)) == grid
  {
    CleanPadsTableText(grid);
    var w := Widest(grid);
    assert w == n;
    var table := PadAll(grid, n);
    forall i | 0 <= i < |grid| ensures table[i] == grid[i] {
      assert table[i] == Pad(grid[i], n);
    }
  }

  /** Kept lines clean to their cells padded to the column count. */
  lemma CleanOfKeptRows(text: string, L: seq<string>, grid: seq<seq<string>>, n: nat)
    requires KeptLines(text) == L && |L| >= 2 && ColumnCount(L) == n
    requires |grid| == |L|
    requires forall i :: 0 <= i < |L| ==> Cells(L[i]) == grid[i]
    ensures Clean(text) == PadAll(grid, n)
  {
    var rows := CellRows(L);
    assert rows == grid by {
      assert |rows| == |grid|;
      forall i | 0 <= i < |L| ensures rows[i] == grid[i] {
        assert rows[i] == Cells(L[i]);
      }
    }
    CleanOfLines(text);
  }

  /** With at least two kept lines, the table is their cells padded to the column count. */
  lemma CleanOfLines(text: string)
    requires |KeptLines(text)| >= 2
    ensures Clean(text) == PadAll(CellRows(KeptLines(text)), ColumnCount(KeptLines(text)))
  {
  }

  /** The cleaner keeps every line of a written table, as it is. */
  lemma GridKeptLines(grid: seq<seq<string>>)
    requires |grid| >= 1
    requires forall i :: 0 <= i < |grid| ==> PlainRow(grid[i])
    ensures KeptLines(TableText(grid)) == GridLines(grid)
  {
    var L := GridLines(grid);
    forall i | 0 <= i < |L| ensures Kept(L[i]) && Strip(L[i]) == L[i] {
      RowLineFacts(grid[i]);
    }
    GridTextLines(grid);
    AllKept(L);
    var r := KeptLines(TableText(grid));
    assert |r| == |L|;
    forall k | 0 <= k < |L| ensures r[k] == L[k] {
      assert r[k] == Strip(L[k]);
    }
  }

  /** The table's text splits back into the rows' lines. */
  lemma GridTextLines(grid: seq<seq<string>>)
    requires |grid| >= 1
    requires forall i :: 0 <= i < |grid| ==> PlainRow(grid[i])
    ensures SourceLines(TableText(grid)) == GridLines(grid)
  {
    var L := GridLines(grid);
    forall i | 0 <= i < |L| ensures '\n' !in L[i] && |L[i]| > 0 && L[i][0] == '|' && L[i][|L[i]| - 1] == '|' {
      RowLineFacts(grid[i]);
    }
    var text := TableText(grid);
    JoinStartsWithFirst(L, "\n");
    JoinEndsWithLast(L, "\n");
    StripByUntouched(text, IsSpace);
    SplitOfJoin(L, '\n');
  }

  /** When every line is kept unchanged by stripping, the kept lines are all the lines. */
  lemma AllKept(L: seq<string>)
    requires forall i :: 0 <= i < |L| ==> Kept(L[i]) && Strip(L[i]) == L[i]
    ensures forall from: nat :: from <= |L| ==> |Positions(L, Kept, from)| == |L| - from
    ensures forall k :: 0 <= k < |L| ==> Positions(L, Kept, 0)[k] == k
  {
    forall from: nat | from <= |L| ensures |Positions(L, Kept, from)| == |L| - from {
      AllPositions(L, Kept, from);
    }
    var ps := Positions(L, Kept, 0);
    forall k | 0 <= k < |L| ensures ps[k] == k {
      AllPositions(L, Kept, 0);
    }
  }

  /** When every element satisfies `p`, the positions from `from` on are all of them. */
  lemma {:induction false} AllPositions<T>(xs: seq<T>, p: T -> bool, from: nat)
    requires from <= |xs|
    requires forall i :: from <= i < |xs| ==> p(xs[i])
    ensures |Positions(xs, p, from)| == |xs| - from
    ensures forall k :: 0 <= k < |xs| - from ==> Positions(xs, p, from)[k] == from + k
    decreases |xs| - from
  {
    if from < |xs| {
      AllPositions(xs, p, from + 1);
      var rest := Positions(xs, p, from + 1);
      assert Positions(xs, p, from) == [from] + rest;
      forall k | 0 <= k < |xs| - from ensures ([from] + rest)[k] == from + k {
        if k > 0 {
          assert ([from] + rest)[k] == rest[k - 1];
        }
      }
    } else {
      assert Positions(xs, p, from) == [];
    }
  }

  /** Lines that all fill `n` segments have `n` columns. */
  lemma SharedWidth(L: seq<string>, n: nat)
    requires |L| >= 1
    requires forall i :: 0 <= i < |L| ==> FilledCount(L[i]) == n
    ensures ColumnCount(L) == n
  {
    var c := ColumnCount(L);
    var i :| 0 <= i < |L| && FilledCount(L[i]) == c;
  }

  /** What the cleaner sees of one written row: a pipe-framed line without line breaks that the
      filter keeps as it is, whose cells are the row and whose every segment is filled. */
  lemma RowLineFacts(row: seq<string>)
    requires PlainRow(row)
    ensures var ln := RowLine(row);
            && |ln| > 0 && ln[0] == '|' && ln[|ln| - 1] == '|' && '\n' !in ln
            && Kept(ln) && Strip(ln) == ln
            && Cells(ln) == row && FilledCount(ln) == |row|
  {
    var ln := RowLine(row);
    var inner := Join(row, "|");
    assert ln == "|" + inner + "|";
    JoinMembers(row, "|");
    assert '\n' !in ln;
    StripByUntouched(ln, IsSpace);
    RowLineKept(row);
    RowLineCells(row);
    RowLineFilled(row);
  }

  /** A written row passes the cleaner's filter. */
  lemma RowLineKept(row: seq<string>)
    requires PlainRow(row)
    ensures Kept(RowLine(row))
  {
    var ln := RowLine(row);
    var k, j :| 0 <= k < |row| && 0 <= j < |row[k]| && !IsTableChar(row[k][j]);
    var x := row[k][j];
    assert x in row[k];
    JoinMembers(row, "|");
    assert x in ln;
    var p :| 0 <= p < |ln| && ln[p] == x;
    PipeLedRowIsKept(ln, p);
  }

  /** The cells of a written row are the row. */
  lemma RowLineCells(row: seq<string>)
    requires PlainRow(row)
    ensures Cells(RowLine(row)) == row
  {
    var ln := RowLine(row);
    assert Split(StripBy(ln, IsPipe), '|') == row by {
      RowLineStrip(row);
      SplitOfJoin(row, '|');
    }
    var cells := Cells(ln);
    assert |cells| == |row|;
    forall k | 0 <= k < |row| ensures cells[k] == row[k] {
      StripByUntouched(row[k], IsSpace);
    }
  }

  /** `strip("|")` of a written row leaves the cells joined by pipes. */
  lemma RowLineStrip(row: seq<string>)
    requires PlainRow(row)
    ensures StripBy(RowLine(row), IsPipe) == Join(row, "|")
  {
    var ln := RowLine(row);
    var inner := Join(row, "|");
    JoinStartsWithFirst(row, "|");
    JoinEndsWithLast(row, "|");
    assert ln[1..1 + |inner|] == inner;
    assert ln[..1] == "|" && ln[1 + |inner|..] == "|";
    StripOfWrapped(ln, inner, 1, IsPipe);
  }

  /** Every pipe segment of a written row but the empty first and last is filled. */
  lemma RowLineFilled(row: seq<string>)
    requires PlainRow(row)
    ensures FilledCount(RowLine(row)) == |row|
  {
    var parts := [""] + row + [""];
    FramedJoin(row);
    forall k | 0 <= k < |parts| ensures '|' !in parts[k] {
      if 0 < k < |parts| - 1 {
        assert parts[k] == row[k - 1];
      }
    }
    SplitOfJoin(parts, '|');
    assert Split(RowLine(row), '|') == parts;
    StripByUntouched("", IsSpace);
    forall i | 1 <= i < |parts| - 1 ensures IsFilled(parts[i]) {
      assert parts[i] == row[i - 1];
      StripByUntouched(row[i - 1], IsSpace);
    }
    InnerPositions(parts, IsFilled, 1);
    assert Positions(parts, IsFilled, 0) == Positions(parts, IsFilled, 1);
  }

  /** In a sequence whose inner elements satisfy `p` and whose last does not, the positions from
      `from` on are the inner ones. */
  lemma {:induction false} InnerPositions<T>(xs: seq<T>, p: T -> bool, from: nat)
    requires 1 <= from <= |xs| - 1
    requires !p(xs[|xs| - 1])
    requires forall i :: 1 <= i < |xs| - 1 ==> p(xs[i])
    ensures |Positions(xs, p, from)| == |xs| - 1 - from
    decreases |xs| - from
  {
    if from < |xs| - 1 {
      InnerPositions(xs, p, from + 1);
    } else {
      assert Positions(xs, p, from + 1) == [];
    }
  }

  /** Framing a row's join with pipes is joining the row between two empty segments. */
  lemma FramedJoin(row: seq<string>)
    requires |row| >= 1
    ensures Join([""] + row + [""], "|") == RowLine(row)
  {
    FramedJoinBy(row, "|");
  }

  lemma FramedJoinBy(row: seq<string>, sep: string)
    requires |row| >= 1
    ensures Join([""] + row + [""], sep) == sep + Join(row, sep) + sep
  {
    var tail := row + [""];
    JoinSnoc(row, "", sep);
    assert [""] + row + [""] == [""] + tail;
    JoinCons("", tail, sep);
  }

  /** Joining one more part appends the separator and that part. */
  lemma {:induction false} JoinSnoc(parts: seq<string>, last: string, sep: string)
    requires |parts| >= 1
    ensures Join(parts + [last], sep) == Join(parts, sep) + sep + last
    decreases |parts|
  {
    if |parts| == 1 {
      assert (parts + [last])[1..] == [last];
    } else {
      assert (parts + [last])[1..] == parts[1..] + [last];
      JoinSnoc(parts[1..], last, sep);
    }
  }

  /** A join ends with the last character of its last part. */
  lemma {:induction false} JoinEndsWithLast(parts: seq<string>, sep: string)
    requires |parts| >= 1 && |parts[|parts| - 1]| > 0
    ensures var j := Join(parts, sep); |j| > 0 && j[|j| - 1] == parts[|parts| - 1][|parts[|parts| - 1]| - 1]
    decreases |parts|
  {
    if |parts| > 1 {
      JoinEndsWithLast(parts[1..], sep);
    }
  }

  /** A join holds the characters of its parts and of the separator, and nothing else. */
  lemma {:induction false} JoinMembers(parts: seq<string>, sep: string)
    ensures forall k, x :: 0 <= k < |parts| && x in parts[k] ==> x in Join(parts, sep)
    ensures forall x :: x in Join(parts, sep) ==> x in sep || exists k :: 0 <= k < |parts| && x in parts[k]
    decreases |parts|
  {
    if |parts| > 1 {
      JoinMembers(parts[1..], sep);
      forall k, x | 0 <= k < |parts| && x in parts[k] ensures x in Join(parts, sep) {
        if k > 0 {
          assert parts[1..][k - 1] == parts[k];
        }
      }
      forall x | x in Join(parts, sep) ensures x in sep || exists k :: 0 <= k < |parts| && x in parts[k] {
        if x !in sep && x !in parts[0] {
          assert x in Join(parts[1..], sep);
          var k :| 0 <= k < |parts[1..]| && x in parts[1..][k];
          assert x in parts[k + 1];
        }
      }
    }
  }

  // ---------------------------------------------------------------------------------------------
  // Where the round trip stops: an empty cell at a row's edge.
  // ---------------------------------------------------------------------------------------------

  /** Cleaning is not idempotent once a row's last cell is empty. `|a| |` keeps its blank last
      segment as an empty cell, but written back that row is `|a||`, whose trailing pipes `strip("|")`
      removes together, so the empty cell is lost on the second pass. */
  lemma EmptyEdgeCellIsLost(a: string, b: string)
    requires PlainCell(a) && PlainCell(b) && !IsTableChar(a[0]) && !IsTableChar(b[0])
    ensures Clean(("|" + a + "| |") + "\n" + ("|" + b + "| |")) == [[a, ""], [b, ""]]
    ensures TableText([[a, ""], [b, ""]]) == ("|" + a + "||") + "\n" + ("|" + b + "||")
    ensures Clean(TableText([[a, ""], [b, ""]])) == [[a], [b]]
  {
    var L0, L1 := "|" + a + "| |", "|" + b + "| |";
    BlankEdgeLine(L0, a);
    BlankEdgeLine(L1, b);
    TwoKeptLines(L0 + "\n" + L1, L0, L1);
    CleanOfTwoLines(L0 + "\n" + L1, [a, ""], [b, ""], 1);
    var E0, E1 := RowLine([a, ""]), RowLine([b, ""]);
    EmptyEdgeLine(E0, a);
    EmptyEdgeLine(E1, b);
    GridLinesOfTwo([[a, ""], [b, ""]]);
    TwoKeptLines(E0 + "\n" + E1, E0, E1);
    CleanOfTwoLines(E0 + "\n" + E1, [a], [b], 1);
  }

  /** The cleaner's own output for `|a| |` over `|b| |`, written back as a table, does not clean to
      itself. */
  lemma CleanIsNotIdempotent(text: string, written: string)
    requires text == "|a| |\n|b| |" && written == "|a||\n|b||"
    ensures Clean(text) == [["a", ""], ["b", ""]]
    ensures TableText(Clean(text)) == written
    ensures Clean(written) == [["a"], ["b"]]
  {
    var a, b := "a", "b";
    assert PlainCell(a) && PlainCell(b) && !IsTableChar(a[0]) && !IsTableChar(b[0]);
    assert text == ("|" + a + "| |") + "\n" + ("|" + b + "| |");
    assert written == ("|" + a + "||") + "\n" + ("|" + b + "||");
    EmptyEdgeCellIsLost(a, b);
  }

  /** A two-row grid is written as its two row lines around one line break. */
  lemma GridLinesOfTwo(grid: seq<seq<string>>)
    requires |grid| == 2
    ensures TableText(grid) == RowLine(grid[0]) + "\n" + RowLine(grid[1])
  {
    var L := GridLines(grid);
    assert L[1..] == [L[1]];
    assert Join(L[1..], "\n") == L[1];
    assert Join(L, "\n") == L[0] + "\n" + Join(L[1..], "\n");
  }

  /** `|a| |`: kept as it is, with cells `a` and an empty one, and one filled segment. */
  lemma BlankEdgeLine(ln: string, a: string)
    requires ln == "|" + a + "| |" && PlainCell(a) && !IsTableChar(a[0])
    ensures |ln| > 0 && ln[0] == '|' && ln[|ln| - 1] == '|' && '\n' !in ln
    ensures Kept(ln) && Strip(ln) == ln
    ensures Cells(ln) == [a, ""] && FilledCount(ln) == 1
  {
    assert ln[1] == a[0];
    PipeLedRowIsKept(ln, 1);
    StripByUntouched(ln, IsSpace);
    BlankEdgeCells(ln, a);
    EdgeSegments(ln, a, " ");
  }

  lemma BlankEdgeCells(ln: string, a: string)
    requires ln == "|" + a + "| |" && PlainCell(a)
    ensures Cells(ln) == [a, ""]
  {
    BlankEdgeSplit(ln, a);
    BlankIsEmpty();
    StripByUntouched(a, IsSpace);
    CellsOfParts(ln, [a, " "], [a, ""]);
  }

  lemma BlankEdgeSplit(ln: string, a: string)
    requires ln == "|" + a + "| |" && PlainCell(a)
    ensures Split(StripBy(ln, IsPipe), '|') == [a, " "]
  {
    var inner := a + "| ";
    assert ln == "|" + inner + "|";
    PipeFramedStrip(ln, inner);
    assert Join([a, " "], "|") == inner;
    SplitOfJoin([a, " "], '|');
  }

  /** `|a|x|` with `x` blank or empty has one filled segment. */
  lemma EdgeSegments(ln: string, a: string, x: string)
    requires ln == "|" + a + "|" + x + "|" && PlainCell(a) && (x == " " || x == "")
    ensures FilledCount(ln) == 1
  {
    var parts := ["", a, x, ""];
    JoinFour("", a, x, "", "|");
    assert ln == Join(parts, "|");
    SplitOfJoin(parts, '|');
    StripByUntouched("", IsSpace);
    StripByUntouched(a, IsSpace);
    BlankIsEmpty();
    assert !IsFilled(parts[0]) && IsFilled(parts[1]) && !IsFilled(parts[2]) && !IsFilled(parts[3]);
    OneFilled(parts, IsFilled);
  }

  /** `|a||`: kept as it is, with the one cell `a` and one filled segment. */
  lemma EmptyEdgeLine(ln: string, a: string)
    requires ln == RowLine([a, ""]) && PlainCell(a) && !IsTableChar(a[0])
    ensures ln == "|" + a + "||"
    ensures |ln| > 0 && ln[0] == '|' && ln[|ln| - 1] == '|' && '\n' !in ln
    ensures Kept(ln) && Strip(ln) == ln
    ensures Cells(ln) == [a] && FilledCount(ln) == 1
  {
    EmptyEdgeText(ln, a);
    EmptyEdgeFacts(ln, a);
  }

  lemma EmptyEdgeText(ln: string, a: string)
    requires ln == RowLine([a, ""])
    ensures ln == "|" + a + "||"
  {
    JoinCons(a, [""], "|");
  }

  lemma EmptyEdgeFacts(ln: string, a: string)
    requires ln == "|" + a + "||" && PlainCell(a) && !IsTableChar(a[0])
    ensures |ln| > 0 && ln[0] == '|' && ln[|ln| - 1] == '|' && '\n' !in ln
    ensures Kept(ln) && Strip(ln) == ln
    ensures Cells(ln) == [a] && FilledCount(ln) == 1
  {
    assert ln[1] == a[0];
    PipeLedRowIsKept(ln, 1);
    StripByUntouched(ln, IsSpace);
    EmptyEdgeCells(ln, a);
    assert ln == "|" + a + "|" + "" + "|";
    EdgeSegments(ln, a, "");
  }

  lemma EmptyEdgeCells(ln: string, a: string)
    requires ln == "|" + a + "||" && PlainCell(a)
    ensures Cells(ln) == [a]
  {
    assert ln[1..1 + |a|] == a && ln[..1] == "|" && ln[1 + |a|..] == "||";
    StripOfWrapped(ln, a, 1, IsPipe);
    assert Join([a], "|") == a;
    SplitOfJoin([a], '|');
    StripByUntouched(a, IsSpace);
    CellsOfParts(ln, [a], [a]);
  }

  /** `strip("|")` of `|inner|` is `inner` when `inner` neither starts nor ends with a pipe. */
  lemma PipeFramedStrip(ln: string, inner: string)
    requires ln == "|" + inner + "|" && |inner| > 0 && inner[0] != '|' && inner[|inner| - 1] != '|'
    ensures StripBy(ln, IsPipe) == inner
  {
    assert ln[1] == inner[0];
    TrimStartAt(ln, IsPipe, 1);
    assert ln[1..] == inner + "|";
    assert (inner + "|")[..|inner|] == inner;
  }

  /** A segment of blanks strips to nothing. */
  lemma BlankIsEmpty()
    ensures Strip(" ") == ""
  {
    TrimStartAt(" ", IsSpace, 1);
  }

  lemma CellsOfParts(ln: string, parts: seq<string>, cells: seq<string>)
    requires Split(StripBy(ln, IsPipe), '|') == parts
    requires |cells| == |parts| && forall k :: 0 <= k < |parts| ==> Strip(parts[k]) == cells[k]
    ensures Cells(ln) == cells
  {
    var c := Cells(ln);
    assert |c| == |cells|;
    forall k | 0 <= k < |c| ensures c[k] == cells[k] {
      assert c[k] == Strip(parts[k]);
    }
  }

  lemma JoinFour(a: string, b: string, c: string, d: string, sep: string)
    ensures Join([a, b, c, d], sep) == a + sep + b + sep + c + sep + d
  {
    assert [a, b, c, d][1..] == [b, c, d];
    assert [b, c, d][1..] == [c, d];
    assert [c, d][1..] == [d];
    assert Join([c, d], sep) == c + sep + d;
    assert Join([b, c, d], sep) == b + sep + (c + sep + d);
    assert Join([a, b, c, d], sep) == a + sep + (b + sep + (c + sep + d));
  }

  /** Of four elements only the second satisfies `p`. */
  lemma OneFilled<T>(xs: seq<T>, p: T -> bool)
    requires |xs| == 4 && !p(xs[0]) && p(xs[1]) && !p(xs[2]) && !p(xs[3])
    ensures |Filter(xs, p)| == 1
  {
    assert Positions(xs, p, 4) == [];
    assert Positions(xs, p, 3) == [];
    assert Positions(xs, p, 2) == [];
    assert Positions(xs, p, 1) == [1];
    assert Positions(xs, p, 0) == [1];
  }

  /** Two kept lines with the same number of filled segments, each with at least that many cells,
      clean to their cells as they are. */
  lemma CleanOfTwoLines(text: string, c0: seq<string>, c1: seq<string>, n: nat)
    requires |KeptLines(text)| == 2
    requires Cells(KeptLines(text)[0]) == c0 && Cells(KeptLines(text)[1]) == c1
    requires FilledCount(KeptLines(text)[0]) == n == FilledCount(KeptLines(text)[1])
    requires |c0| >= n && |c1| >= n
    ensures Clean(text) == [c0, c1]
  {
    var lines := KeptLines(text);
    assert ColumnCount(lines) == n by {
      SharedWidth(lines, n);
    }
    assert CellRows(lines) == [c0, c1] by {
      CellRowsOfTwo(lines, c0, c1);
    }
    PadTwoWide(c0, c1, n);
    assert Clean(text) == PadAll(CellRows(lines), ColumnCount(lines));
  }

  lemma PadTwoWide(c0: seq<string>, c1: seq<string>, n: nat)
    requires |c0| >= n && |c1| >= n
    ensures PadAll([c0, c1], n) == [c0, c1]
  {
    PadWide([c0, c1], n);
  }

  lemma CellRowsOfTwo(lines: seq<string>, c0: seq<string>, c1: seq<string>)
    requires |lines| == 2 && Cells(lines[0]) == c0 && Cells(lines[1]) == c1
    ensures CellRows(lines) == [c0, c1]
  {
  }

  /** Both lines of a two-line text survive the filter unchanged. */
  lemma TwoKeptLines(text: string, L0: string, L1: string)
    requires text == L0 + "\n" + L1
    requires |L0| > 0 && L0[0] == '|' && '\n' !in L0 && Kept(L0) && Strip(L0) == L0
    requires |L1| > 0 && L1[|L1| - 1] == '|' && '\n' !in L1 && Kept(L1) && Strip(L1) == L1
    ensures KeptLines(text) == [L0, L1]
  {
    var L := [L0, L1];
    TwoSourceLines(text, L0, L1);
    AllKept(L);
    var ps := Positions(L, Kept, 0);
    assert |ps| == 2 && ps[0] == 0 && ps[1] == 1;
    var r := KeptLines(text);
    assert r[0] == Strip(L[ps[0]]) && r[1] == Strip(L[ps[1]]);
  }

  /** A two-line text framed by pipes splits into its two lines. */
  lemma TwoSourceLines(text: string, L0: string, L1: string)
    requires text == L0 + "\n" + L1
    requires |L0| > 0 && L0[0] == '|' && '\n' !in L0
    requires |L1| > 0 && L1[|L1| - 1] == '|' && '\n' !in L1
    ensures SourceLines(text) == [L0, L1]
  {
    var L := [L0, L1];
    JoinCons(L0, [L1], "\n");
    assert L == [L0] + [L1];
    assert Join(L, "\n") == text;
    StripByUntouched(text, IsSpace);
    SplitOfJoin(L, '\n');
  }

  /** Rows at least `n` wide are not padded. */
  lemma PadWide(rows: seq<seq<string>>, n: nat)
    requires forall i :: 0 <= i < |rows| ==> |rows[i]| >= n
    ensures PadAll(rows, n) == rows
  {
    var t := PadAll(rows, n);
    assert |t| == |rows|;
    forall i | 0 <= i < |rows| ensures t[i] == rows[i] {
      assert t[i] == Pad(rows[i], n);
    }
  }
}
