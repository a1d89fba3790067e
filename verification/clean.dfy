/**
 * `clean_markdown_table`: turn extracted table text into rows of trimmed cells, dropping separator
 * rows, "Total" summary rows and lines without a pipe, and padding short rows with empty cells.
 */
module TableClean {
  import opened Text

  /** The characters of a separator row: whitespace, colon, dash and pipe. */
  predicate IsTableChar(c: char)
  {
    IsSpace(c) || c == ':' || c == '-' || c == '|'
  }

  /** `^\s*\|?[\s:\-\|]+\|?\s*$`: a non-empty line made only of whitespace, colons, dashes and pipes. */
  predicate IsRuleLine(ln: string)
  {
    |ln| > 0 && AllSatisfy(ln, IsTableChar)
  }

  const TotalWord: string := "total"

  /** `^\s*(Total)` under `re.I`: after leading whitespace the line begins with "total" in any case. */
  predicate IsTotalLine(ln: string)
  {
    var t := TrimStart(ln, IsSpace);
    |t| >= 5 && forall i :: 0 <= i < 5 ==> LowerChar(t[i]) == TotalWord[i]
  }

  /** The cleaner's line filter. */
  predicate Kept(ln: string)
    ensures AllSatisfy(ln, IsTableChar) ==> !Kept(ln)
  {
    '|' in ln && !IsRuleLine(ln) && !IsTotalLine(ln)
  }

  /** The input lines the filter looks at: `markdown_table_text.strip().split('\n')`. */
  function SourceLines(text: string): seq<string>
  {
    Lines(Strip(text))
  }

  /** `[ln.strip() for ln in SourceLines(text) if Kept(ln)]`. */
  function KeptLines(text: string): (r: seq<string>)
    ensures |r| == |Positions(SourceLines(text), Kept, 0)|
    ensures forall k :: 0 <= k < |r| ==> r[k] == Strip(SourceLines(text)[Positions(SourceLines(text), Kept, 0)[k]])
  {
    var L := SourceLines(text);
    var ps := Positions(L, Kept, 0);
    seq(|ps|, k requires 0 <= k < |ps| => Strip(L[ps[k]]))
  }

  /** A pipe segment that still has text after `strip()`. */
  predicate IsFilled(seg: string)
  {
    Strip(seg) != ""
  }

  /** `len([c for c in row.split("|") if c.strip()])`. */
  function FilledCount(row: string): nat
  {
    |Filter(Split(row, '|'), IsFilled)|
  }

  /** The largest element of a non-empty sequence. */
  function Max(xs: seq<nat>): (m: nat)
    requires |xs| > 0
    ensures forall i :: 0 <= i < |xs| ==> xs[i] <= m
    ensures exists i :: 0 <= i < |xs| && xs[i] == m
  {
    if |xs| == 1 then xs[0]
    else
      var rest := Max(xs[1..]);
      assert forall i :: 1 <= i < |xs| ==> xs[i] == xs[1..][i - 1];
      if xs[0] >= rest then xs[0] else rest
  }

  /** `col_cnt = max(FilledCount(row) for row in rows)`. */
  function ColumnCount(rows: seq<string>): (n: nat)
    requires |rows| > 0
    ensures forall i :: 0 <= i < |rows| ==> FilledCount(rows[i]) <= n
    ensures exists i :: 0 <= i < |rows| && FilledCount(rows[i]) == n
  {
    var counts := seq(|rows|, i requires 0 <= i < |rows| => FilledCount(rows[i]));
    var n := Max(counts);
    assert forall i :: 0 <= i < |rows| ==> FilledCount(rows[i]) == counts[i];
    n
  }

  /** `[c.strip() for c in row.strip("|").split("|")]`. `strip("|")` removes every leading and
      trailing pipe, not just one. */
  function Cells(row: string): (cells: seq<string>)
    ensures |cells| == |Split(StripBy(row, IsPipe), '|')| >= 1
  {
    var parts := Split(StripBy(row, IsPipe), '|');
    seq(|parts|, k requires 0 <= k < |parts| => Strip(parts[k]))
  }

  /** Each cell is a pipe segment of the row with its outer whitespace removed: it holds no pipe
      and stripping it again changes nothing. */
  lemma CellsAreTrimmed(row: string)
    ensures forall k :: 0 <= k < |Cells(row)| ==> '|' !in Cells(row)[k] && Strip(Cells(row)[k]) == Cells(row)[k]
  {
    var parts := Split(StripBy(row, IsPipe), '|');
    forall k | 0 <= k < |parts| ensures '|' !in Cells(row)[k] && Strip(Cells(row)[k]) == Cells(row)[k] {
      assert Cells(row)[k] == Strip(parts[k]);
      StripByKeepsMembers(parts[k], IsSpace);
      StripIsIdempotent(parts[k]);
    }
  }

  lemma StripIsIdempotent(s: string)
    ensures Strip(Strip(s)) == Strip(s)
  {
    var r := Strip(s);
    if |r| > 0 {
      assert TrimStart(r, IsSpace) == r;
      assert TrimEnd(r, IsSpace) == r;
    }
  }

  /** The row padded with empty cells up to `n`; never truncated. */
  function Pad(cells: seq<string>, n: nat): (row: seq<string>)
    ensures |row| >= n && |row| >= |cells|
    ensures |row| == if |cells| < n then n else |cells|
    ensures row[..|cells|] == cells
    ensures forall k :: |cells| <= k < |row| ==> row[k] == ""
    ensures |cells| >= n ==> row == cells
  {
    if |cells| < n then cells + seq(n - |cells|, _ => "") else cells
  }

  /** `table` is `rows` with each row extended by empty cells to exactly `n` cells when it is
      shorter: nothing is truncated, and padding only appends `""`. */
  predicate PaddedRows(table: seq<seq<string>>, rows: seq<seq<string>>, n: nat)
  {
    && |table| == |rows|
    && forall i :: 0 <= i < |rows| ==>
         && |table[i]| >= n && |table[i]| >= |rows[i]|
         && |table[i]| == (if |rows[i]| < n then n else |rows[i]|)
         && table[i][..|rows[i]|] == rows[i]
         && forall k :: |rows[i]| <= k < |table[i]| ==> table[i][k] == ""
  }

  /** Every cell is free of pipes and has no leading or trailing whitespace. */
  predicate TrimmedCells(table: seq<seq<string>>)
  {
    forall i, k :: 0 <= i < |table| && 0 <= k < |table[i]| ==>
      '|' !in table[i][k] && Strip(table[i][k]) == table[i][k]
  }

  /** Every row padded to `n` cells. */
  function PadAll(rows: seq<seq<string>>, n: nat): (table: seq<seq<string>>)
    ensures PaddedRows(table, rows, n)
  {
    seq(|rows|, i requires 0 <= i < |rows| => Pad(rows[i], n))
  }

  /** Padding adds only empty cells, which are trimmed and pipe-free. */
  lemma PadAllKeepsTrimmed(rows: seq<seq<string>>, n: nat)
    requires TrimmedCells(rows)
    ensures TrimmedCells(PadAll(rows, n))
  {
    var table := PadAll(rows, n);
    forall i, k | 0 <= i < |table| && 0 <= k < |table[i]|
      ensures '|' !in table[i][k] && Strip(table[i][k]) == table[i][k]
    {
      if k < |rows[i]| {
        assert table[i][k] == table[i][..|rows[i]|][k];
      }
    }
  }

  /** The cells of every kept line, before padding. */
  function CellRows(lines: seq<string>): (rows: seq<seq<string>>)
    ensures |rows| == |lines|
    ensures forall i :: 0 <= i < |lines| ==> rows[i] == Cells(lines[i])
  {
    seq(|lines|, i requires 0 <= i < |lines| => Cells(lines[i]))
  }

  /** `clean_markdown_table`: no rows when fewer than two lines survive the filter; otherwise one row
      per surviving line, in order, each at least `ColumnCount` cells wide, whose cells are the
      line's trimmed pipe segments followed only by empty padding. */
  function Clean(text: string): (table: seq<seq<string>>)
    ensures |table| == 0 <==> |KeptLines(text)| < 2
    ensures |table| > 0 ==> PaddedRows(table, CellRows(KeptLines(text)), ColumnCount(KeptLines(text)))
  {
    var lines := KeptLines(text);
    if |lines| < 2 then []
    else PadAll(CellRows(lines), ColumnCount(lines))
  }

  /** Every cell of the cleaned table is free of pipes and carries no outer whitespace. */
  lemma CleanCellsAreTrimmed(text: string)
    ensures TrimmedCells(Clean(text))
  {
    var lines := KeptLines(text);
    if |lines| >= 2 {
      var rows := CellRows(lines);
      assert TrimmedCells(rows) by {
        forall i, k | 0 <= i < |rows| && 0 <= k < |rows[i]|
          ensures '|' !in rows[i][k] && Strip(rows[i][k]) == rows[i][k]
        {
          assert rows[i] == Cells(lines[i]);
          CellsAreTrimmed(lines[i]);
        }
      }
      PadAllKeepsTrimmed(rows, ColumnCount(lines));
    }
  }

  /** Stripping a line the filter keeps gives a line the filter keeps: it still contains a pipe,
      still has a character that is not whitespace, colon, dash or pipe, and still does not begin
      with "total". */
  lemma StrippedLineStaysKept(ln: string)
    requires Kept(ln)
    ensures Kept(Strip(ln))
  {
    var bar :| 0 <= bar < |ln| && ln[bar] == '|';
    NonSpaceSurvivesStrip(ln, bar);
    var odd :| 0 <= odd < |ln| && !IsTableChar(ln[odd]);
    NonSpaceSurvivesStrip(ln, odd);
    StripKeepsNotTotal(ln);
  }

  /** A stripped line begins with "total" only if the line did. */
  lemma StripKeepsNotTotal(ln: string)
    requires !IsTotalLine(ln)
    ensures !IsTotalLine(Strip(ln))
  {
    var r := Strip(ln);
    if |r| >= 5 {
      TrimStartAt(r, IsSpace, 0);
      StripBeginsTrimStart(ln);
      var t := TrimStart(ln, IsSpace);
      assert forall k :: 0 <= k < 5 ==> t[k] == r[k] by {
        forall k | 0 <= k < 5 ensures t[k] == r[k] { assert t[..|r|][k] == t[k]; }
      }
    }
  }

  /** Every line the cleaner keeps contains a pipe, is not a separator-only line and does not begin
      with "total", and comes from an input line with the same three properties. */
  lemma KeptLinesAreKept(text: string)
    ensures forall k :: 0 <= k < |KeptLines(text)| ==> Kept(KeptLines(text)[k])
  {
    var L := SourceLines(text);
    var ps := Positions(L, Kept, 0);
    forall k | 0 <= k < |KeptLines(text)| ensures Kept(KeptLines(text)[k]) {
      StrippedLineStaysKept(L[ps[k]]);
    }
  }

  /** A row led by a pipe is never taken for a summary row: `| Total | 120 |` is kept, like any
      pipe-led line with a character other than whitespace, colon, dash or pipe. */
  lemma PipeLedRowIsKept(ln: string, k: nat)
    requires |ln| > 0 && ln[0] == '|' && k < |ln| && !IsTableChar(ln[k])
    ensures Kept(ln)
  {
    assert !IsRuleLine(ln) by {
      assert !IsTableChar(ln[k]);
    }
    assert !IsTotalLine(ln) by {
      TrimStartAt(ln, IsSpace, 0);
      assert TrimStart(ln, IsSpace)[0] == '|';
      assert TotalWord[0] == 't';
    }
    assert ln[0] in ln;
  }

  /** A line that begins, after whitespace, with "total" in any case is dropped. */
  lemma TotalRowIsDropped(indent: string, word: string, rest: string)
    requires AllSatisfy(indent, IsSpace) && |word| == 5 && Lower(word) == TotalWord
    ensures !Kept(indent + word + rest)
  {
    var ln := indent + word + rest;
    assert ln[..|indent|] == indent;
    assert Lower(word)[0] == LowerChar(word[0]);
    TrimStartAt(ln, IsSpace, |indent|);
    assert ln[|indent|..][..5] == word;
  }
}
