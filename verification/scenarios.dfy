/** A small plan table, followed through extraction and cleaning. */
module Scenarios {
  import opened Outcomes
  import opened Text
  import opened Phase3Extract
  import opened TableClean
  import opened CleanRoundTrip

  const RuleRow: string := "|---|---|"

  /** `|a|b|` has exactly two filled segments. */
  lemma TwoCellSegments(ln: string, a: string, b: string)
    requires ln == "|" + a + "|" + b + "|" && PlainCell(a) && PlainCell(b)
    ensures FilledCount(ln) == 2
  {
    TwoCellParts(ln, a, b);
    TwoFilledParts(["", a, b, ""], a, b);
  }

  lemma TwoCellParts(ln: string, a: string, b: string)
    requires ln == "|" + a + "|" + b + "|" && PlainCell(a) && PlainCell(b)
    ensures Split(ln, '|') == ["", a, b, ""]
  {
    var parts := ["", a, b, ""];
    assert Join(parts, "|") == ln by {
      assert parts[1..][1..][1..] == [""];
      assert parts[1..][1..] == [b, ""];
      assert parts[1..] == [a, b, ""];
      assert Join([b, ""], "|") == b + "|";
      assert Join([a, b, ""], "|") == a + "|" + b + "|";
      assert Join(parts, "|") == "" + "|" + (a + "|" + b + "|");
    }
    SplitOfJoin(parts, '|');
  }

  lemma TwoFilledParts(parts: seq<string>, a: string, b: string)
    requires parts == ["", a, b, ""] && PlainCell(a) && PlainCell(b)
    ensures |Filter(parts, IsFilled)| == 2
  {
    StripByUntouched("", IsSpace);
    StripByUntouched(a, IsSpace);
    StripByUntouched(b, IsSpace);
    assert Positions(parts, IsFilled, 3) == [];
    assert Positions(parts, IsFilled, 2) == [2];
    assert Positions(parts, IsFilled, 1) == [1, 2];
    assert Positions(parts, IsFilled, 0) == [1, 2];
  }

  lemma TwoCellCells(ln: string, a: string, b: string)
    requires ln == "|" + a + "|" + b + "|" && PlainCell(a) && PlainCell(b)
    ensures Cells(ln) == [a, b]
  {
    TwoCellSplit(ln, a, b);
    StripByUntouched(a, IsSpace);
    StripByUntouched(b, IsSpace);
    CellsOfTwo(ln, a, b);
  }

  lemma CellsOfTwo(ln: string, a: string, b: string)
    requires Split(StripBy(ln, IsPipe), '|') == [a, b] && Strip(a) == a && Strip(b) == b
    ensures Cells(ln) == [a, b]
  {
    StrippedPairs([a, b]);
  }

  /** Stripping each of two parts that are already stripped changes nothing. */
  lemma StrippedPairs(parts: seq<string>)
    requires |parts| == 2 && Strip(parts[0]) == parts[0] && Strip(parts[1]) == parts[1]
    ensures seq(|parts|, k requires 0 <= k < |parts| => Strip(parts[k])) == parts
  {
  }

  lemma TwoCellSplit(ln: string, a: string, b: string)
    requires ln == "|" + a + "|" + b + "|" && PlainCell(a) && PlainCell(b)
    ensures Split(StripBy(ln, IsPipe), '|') == [a, b]
  {
    var inner := a + "|" + b;
    assert ln == "|" + inner + "|";
    assert inner[0] == a[0] && inner[|inner| - 1] == b[|b| - 1];
    PipeFramedStrip(ln, inner);
    assert Join([a, b], "|") == inner;
    SplitOfJoin([a, b], '|');
  }

  /** The three-line table text splits back into its lines. */
  lemma TableLines(text: string, L: seq<string>)
    requires |L| == 3 && text == Join(L, "\n")
    requires forall k :: 0 <= k < 3 ==> |L[k]| > 0 && L[k][0] == '|' && L[k][|L[k]| - 1] == '|' && '\n' !in L[k]
    ensures SourceLines(text) == L
  {
    assert L[1..][1..] == [L[2]];
    assert Join(L[1..], "\n") == L[1] + "\n" + L[2];
    assert text == L[0] + "\n" + (L[1] + "\n" + L[2]);
    assert text[0] == '|' && text[|text| - 1] == '|';
    StripByUntouched(text, IsSpace);
    SplitOfJoin(L, '\n');
  }

  /** The separator row `|---|---|` is dropped. */
  lemma RuleRowDropped(ln: string)
    requires ln == RuleRow
    ensures !Kept(ln)
  {
    assert forall k :: 0 <= k < |ln| ==> ln[k] == '|' || ln[k] == '-';
  }

  /** A two-column plan table with a separator row, with cells "Order", "Operation", "1" and
      "JigIn", cleans to its header and its one data row. */
  lemma CleanDesignPlan(text: string)
    requires text == "|Order|Operation|\n|---|---|\n|1|JigIn|"
    ensures Clean(text) == [["Order", "Operation"], ["1", "JigIn"]]
  {
    var h1, h2, d1, d2 := "Order", "Operation", "1", "JigIn";
    PlanWordsArePlain(h1, h2, d1, d2);
    PlanText(text, h1, h2, d1, d2);
    CleanTwoColumnPlan(text, h1, h2, d1, d2);
  }

  lemma PlanText(text: string, h1: string, h2: string, d1: string, d2: string)
    requires text == "|Order|Operation|\n|---|---|\n|1|JigIn|"
    requires h1 == "Order" && h2 == "Operation" && d1 == "1" && d2 == "JigIn"
    ensures text == Join(["|" + h1 + "|" + h2 + "|", RuleRow, "|" + d1 + "|" + d2 + "|"], "\n")
  {
    JoinThree("|" + h1 + "|" + h2 + "|", RuleRow, "|" + d1 + "|" + d2 + "|", "\n");
  }

  lemma PlanWordsArePlain(h1: string, h2: string, d1: string, d2: string)
    requires h1 == "Order" && h2 == "Operation" && d1 == "1" && d2 == "JigIn"
    ensures PlainCell(h1) && PlainCell(h2) && PlainCell(d1) && PlainCell(d2)
    ensures !IsTableChar(h1[0]) && !IsTableChar(d1[0])
  {
  }

  lemma JoinThree(a: string, b: string, c: string, sep: string)
    ensures Join([a, b, c], sep) == a + sep + b + sep + c
  {
    assert [a, b, c][1..] == [b, c];
    assert [b, c][1..] == [c];
    assert Join([b, c], sep) == b + sep + c;
    assert Join([a, b, c], sep) == a + sep + (b + sep + c);
  }

  /** A two-column plan, a header row `|h1|h2|`, the separator `|---|---|` and one data row
      `|d1|d2|`, cleans to its header and data cells: the separator row is dropped and no padding is
      needed. */
  lemma CleanTwoColumnPlan(text: string, h1: string, h2: string, d1: string, d2: string)
    requires PlainCell(h1) && PlainCell(h2) && PlainCell(d1) && PlainCell(d2)
    requires !IsTableChar(h1[0]) && !IsTableChar(d1[0])
    requires text == Join(["|" + h1 + "|" + h2 + "|", RuleRow, "|" + d1 + "|" + d2 + "|"], "\n")
    ensures Clean(text) == [[h1, h2], [d1, d2]]
  {
    var L := ["|" + h1 + "|" + h2 + "|", RuleRow, "|" + d1 + "|" + d2 + "|"];
    assert '\n' !in L[0] && '\n' !in L[2];
    TableLines(text, L);
    PlanPositions(L, h1, h2, d1, d2);
    FramedRowStripped(L[0], h1, h2);
    FramedRowStripped(L[2], d1, d2);
    TwoCellCells(L[0], h1, h2);
    TwoCellCells(L[2], d1, d2);
    TwoCellSegments(L[0], h1, h2);
    TwoCellSegments(L[2], d1, d2);
    CleanOfPlanLines(text, L, [h1, h2], [d1, d2]);
  }

  /** Of the plan's three lines the filter keeps the two framed rows and drops the separator. */
  lemma PlanPositions(L: seq<string>, h1: string, h2: string, d1: string, d2: string)
    requires PlainCell(h1) && PlainCell(h2) && PlainCell(d1) && PlainCell(d2)
    requires !IsTableChar(h1[0]) && !IsTableChar(d1[0])
    requires L == ["|" + h1 + "|" + h2 + "|", RuleRow, "|" + d1 + "|" + d2 + "|"]
    ensures Positions(L, Kept, 0) == [0, 2]
  {
    assert L[0][1] == h1[0] && L[2][1] == d1[0];
    PipeLedRowIsKept(L[0], 1);
    RuleRowDropped(L[1]);
    PipeLedRowIsKept(L[2], 1);
    OuterPositions(L, Kept);
  }

  lemma FramedRowStripped(ln: string, a: string, b: string)
    requires ln == "|" + a + "|" + b + "|"
    ensures Strip(ln) == ln
  {
    StripByUntouched(ln, IsSpace);
  }

  lemma CleanOfPlanLines(text: string, L: seq<string>, c0: seq<string>, c1: seq<string>)
    requires SourceLines(text) == L && |L| == 3
    requires Positions(L, Kept, 0) == [0, 2]
    requires Strip(L[0]) == L[0] && Strip(L[2]) == L[2]
    requires Cells(L[0]) == c0 && Cells(L[2]) == c1
    requires FilledCount(L[0]) == |c0| == FilledCount(L[2]) == |c1|
    ensures Clean(text) == [c0, c1]
  {
    WorkedKeptLines(text, L);
    CleanOfTwoLines(text, c0, c1, |c0|);
  }

  lemma WorkedKeptLines(text: string, L: seq<string>)
    requires SourceLines(text) == L && |L| == 3
    requires Positions(L, Kept, 0) == [0, 2]
    ensures KeptLines(text) == [Strip(L[0]), Strip(L[2])]
  {
    var r := KeptLines(text);
    assert |r| == 2;
    assert r[0] == Strip(L[0]);
    assert r[1] == Strip(L[2]);
  }

  /** Of three elements, only the outer two satisfy `p`. */
  lemma OuterPositions<T>(xs: seq<T>, p: T -> bool)
    requires |xs| == 3 && p(xs[0]) && !p(xs[1]) && p(xs[2])
    ensures Positions(xs, p, 0) == [0, 2]
  {
    assert Positions(xs, p, 3) == [];
    assert Positions(xs, p, 2) == [2];
    assert Positions(xs, p, 1) == [2];
  }

  // ---------------------------------------------------------------------------------------------
  // The same plan as it arrives inside the generated answer.
  // ---------------------------------------------------------------------------------------------

  /** The plan table sitting between a "Phase 3" heading line and a "Phase 4" heading, with an empty
      line before the latter, is found and cleans to its header and data row. The strict pattern
      cannot match it (the stripped block's last line has no line break after it), so it is the
      fallback that returns the three row lines. */
  lemma ExtractDesignPlan(text: string)
    requires text == "Phase 3. Plan\n" + "|Order|Operation|\n|---|---|\n|1|JigIn|" + "\n\n" + "Phase 4. Validation"
    ensures Extract(text) == Some("|Order|Operation|\n|---|---|\n|1|JigIn|")
    ensures Clean(Extract(text).value) == [["Order", "Operation"], ["1", "JigIn"]]
  {
    var head, table, tail := "Phase 3. Plan\n", "|Order|Operation|\n|---|---|\n|1|JigIn|", "Phase 4. Validation";
    var h1, h2, d1, d2 := "Order", "Operation", "1", "JigIn";
    PlanWordsArePlain(h1, h2, d1, d2);
    PlanText(table, h1, h2, d1, d2);
    PlanPieces(head, table, tail);
    var L := ["|" + h1 + "|" + h2 + "|", RuleRow, "|" + d1 + "|" + d2 + "|"];
    ThreeRowBlockFallsBack(text, head, L, tail);
    CleanDesignPlan(table);
  }

  lemma PlanPieces(head: string, table: string, tail: string)
    requires head == "Phase 3. Plan\n" && table == "|Order|Operation|\n|---|---|\n|1|JigIn|"
    requires tail == "Phase 4. Validation"
    ensures |head| >= 8 && head[..7] == "Phase 3" && head[|head| - 1] == '\n' && '\n' !in head[..|head| - 1]
    ensures |tail| >= 7 && tail[..7] == "Phase 4"
    ensures forall c :: c in table ==> c != '#' && c != '*' && c != 'h' && c != 'H'
  {
  }

  /** A Phase 3 heading line, then three pipe-framed lines, an empty line and a "Phase 4" heading:
      the block is those three lines, the strict pattern finds nothing in it, and the fallback
      returns the three lines. */
  lemma ThreeRowBlockFallsBack(text: string, head: string, L: seq<string>, tail: string)
    requires |L| == 3 && forall k :: 0 <= k < 3 ==> |L[k]| >= 2 && L[k][0] == '|' && L[k][|L[k]| - 1] == '|' && '\n' !in L[k]
    requires text == head + Join(L, "\n") + "\n\n" + tail
    requires |head| >= 8 && head[..7] == "Phase 3" && head[|head| - 1] == '\n' && '\n' !in head[..|head| - 1]
    requires |tail| >= 7 && tail[..7] == "Phase 4"
    requires forall c :: c in Join(L, "\n") ==> c != '#' && c != '*' && c != 'h' && c != 'H'
    ensures Extract(text) == Some(Join(L, "\n"))
  {
    var table := Join(L, "\n");
    FramedTable(L);
    assert Phase3Block(text).Some? && Phase3Block(text).value == table + "\n\n" by {
      BlockBounds(text, head, table, tail);
    }
    assert BlockLines(text) == L by {
      BlockLinesOfTable(text, L);
    }
    assert StrictTable(L).None? by {
      ShortBlockHasNoStrictTable(L, Kinds(L), 0);
    }
    AllRowLines(L);
  }

  /** Three pipe-framed lines joined by line breaks start and end with a pipe. */
  lemma FramedTable(L: seq<string>)
    requires |L| == 3 && forall k :: 0 <= k < 3 ==> |L[k]| >= 2 && L[k][0] == '|' && L[k][|L[k]| - 1] == '|'
    ensures var table := Join(L, "\n"); |table| > 0 && table[0] == '|' && table[|table| - 1] == '|'
  {
    var table := Join(L, "\n");
    assert L == [L[0], L[1], L[2]];
    JoinThree(L[0], L[1], L[2], "\n");
    assert table == (L[0] + "\n" + L[1] + "\n") + L[2];
    assert table[|table| - 1] == L[2][|L[2]| - 1];
  }

  /** A block that is the table followed by an empty line has the table's lines as its lines. */
  lemma BlockLinesOfTable(text: string, L: seq<string>)
    requires |L| == 3 && forall k :: 0 <= k < 3 ==> |L[k]| >= 2 && L[k][0] == '|' && L[k][|L[k]| - 1] == '|' && '\n' !in L[k]
    requires Phase3Block(text).Some? && Phase3Block(text).value == Join(L, "\n") + "\n\n"
    ensures BlockLines(text) == L
  {
    var table := Join(L, "\n");
    FramedTable(L);
    assert Strip(Phase3Block(text).value) == table by {
      StripOfTableBlock(table);
    }
    assert Lines(table) == L by {
      TableLines(table, L);
      StripByUntouched(table, IsSpace);
    }
  }

  /** Stripping a table followed by an empty line leaves the table. */
  lemma StripOfTableBlock(table: string)
    requires |table| > 0 && table[0] == '|' && table[|table| - 1] == '|'
    ensures Strip(table + "\n\n") == table
  {
    StripOfWrapped(table + "\n\n", table, 0, IsSpace);
  }

  /** The block runs from the line after the heading to the Phase 4 heading. */
  lemma BlockBounds(text: string, head: string, table: string, tail: string)
    requires |table| > 0 && text == head + table + "\n\n" + tail
    requires |head| >= 8 && head[..7] == "Phase 3" && head[|head| - 1] == '\n' && '\n' !in head[..|head| - 1]
    requires |tail| >= 7 && tail[..7] == "Phase 4"
    requires forall c :: c in table ==> c != '#' && c != '*' && c != 'h' && c != 'H'
    ensures Phase3Block(text).Some? && Phase3Block(text).value == table + "\n\n"
  {
    var b := |head|;
    var m := b + |table| + 2;
    PlanBodyEnd(text, head, table, tail);
    HeadingOfPlan(text, head, table, tail);
    SliceOfPlan(text, head, table, tail);
  }

  lemma SliceOfPlan(text: string, head: string, table: string, tail: string)
    requires text == head + table + "\n\n" + tail
    ensures text[|head|..|head| + |table| + 2] == table + "\n\n"
  {
  }

  /** The block's lazy body stops at the Phase 4 heading, after the table and the empty line. */
  lemma PlanBodyEnd(text: string, head: string, table: string, tail: string)
    requires text == head + table + "\n\n" + tail
    requires |tail| >= 7 && tail[..7] == "Phase 4"
    requires forall c :: c in table ==> c != '#' && c != '*' && c != 'h' && c != 'H'
    ensures BodyEnd(text, |head| + 1) == |head| + |table| + 2
  {
    BodyCharsOfPlan(text, head, table, tail);
    Phase4OfPlan(text, head + table + "\n\n", tail);
    BodyEndOfPlan(text, |head|, |head| + |table| + 2);
  }

  lemma BodyEndOfPlan(text: string, b: nat, m: nat)
    requires b < m < |text| && !IsSpace(text[m]) && Phase4At(text, m)
    requires forall k :: b + 1 <= k <= m ==> text[k] != '#' && text[k] != '*'
    requires forall k :: b + 1 < k <= m ==> !FoldsTo(text[k], 'h')
    ensures BodyEnd(text, b + 1) == m
  {
    var e := b + 1;
    assert forall k :: e <= k < m ==> !Phase4At(text, k) by {
      NoPhase4Within(text, e, m);
    }
    BodyEndAt(text, e, m);
  }

  lemma HeadingOfPlan(text: string, head: string, table: string, tail: string)
    requires text == head + table + "\n\n" + tail
    requires |head| >= 8 && head[..7] == "Phase 3" && head[|head| - 1] == '\n' && '\n' !in head[..|head| - 1]
    ensures Phase3Block(text).Some? && Phase3Block(text).value == BlockAfter(text, |head|)
  {
    assert text[..7] == head[..7];
    forall k | 7 <= k < |head| - 1 ensures text[k] != '\n' {
      assert text[k] == head[..|head| - 1][k];
    }
    HeadingLineAt(text, |head| - 1);
  }

  lemma Phase4OfPlan(text: string, before: string, tail: string)
    requires text == before + tail && |tail| >= 7 && tail[..7] == "Phase 4"
    ensures Phase4At(text, |before|)
  {
    assert text[|before|..|before| + 7] == tail[..7];
    PhaseMarkOf(text, |before|, '4');
  }

  lemma BodyCharsOfPlan(text: string, head: string, table: string, tail: string)
    requires text == head + table + "\n\n" + tail && |tail| > 0 && tail[0] == 'P'
    requires forall c :: c in table ==> c != '#' && c != '*' && c != 'h' && c != 'H'
    ensures var b, m := |head|, |head| + |table| + 2;
            && m < |text| && !IsSpace(text[m])
            && (forall k :: b + 1 <= k <= m ==> text[k] != '#' && text[k] != '*')
            && (forall k :: b + 1 < k <= m ==> !FoldsTo(text[k], 'h'))
  {
    var b, m := |head|, |head| + |table| + 2;
    var body := table + "\n\n";
    assert text == head + body + tail;
    forall k | b < k <= m ensures text[k] != '#' && text[k] != '*' && !FoldsTo(text[k], 'h') {
      if k < m {
        assert text[k] == body[k - b];
        if k - b < |table| {
          assert body[k - b] == table[k - b];
          assert table[k - b] in table;
        } else {
          assert body[k - b] == '\n';
        }
      } else {
        assert text[k] == tail[0];
      }
    }
  }

  /** Three lines framed by pipes are all row lines, so the fallback keeps each of them. */
  lemma AllRowLines(L: seq<string>)
    requires |L| == 3 && forall k :: 0 <= k < 3 ==> |L[k]| >= 2 && L[k][0] == '|' && L[k][|L[k]| - 1] == '|'
    ensures Filter(L, IsRowLine) == L
  {
    forall k | 0 <= k < 3 ensures IsRowLine(L[k]) {
      assert L[k][1..][|L[k]| - 2] == '|';
    }
    assert Positions(L, IsRowLine, 3) == [];
    assert Positions(L, IsRowLine, 2) == [2];
    assert Positions(L, IsRowLine, 1) == [1, 2];
    assert Positions(L, IsRowLine, 0) == [0, 1, 2];
  }

  // ---------------------------------------------------------------------------------------------
  // A table that ends the block loses its last data row.
  // ---------------------------------------------------------------------------------------------

  /** A header, a separator, a data row and a second data row that ends the Phase 3 block: the strict
      pattern matches, but only through the first data row, since the block is stripped and the last
      row has no line break after it. The second data row never reaches the cleaner. */
  lemma LastDataRowIsLost(text: string)
    requires text == "Phase 3\n" + "|x|y|\n|---|---|\n|a|b|\n|c|d|" + "\n\n" + "Phase 4"
    ensures Extract(text) == Some("|x|y|\n|---|---|\n|a|b|")
    ensures Clean(Extract(text).value) == [["x", "y"], ["a", "b"]]
  {
    var head, table, tail := "Phase 3\n", "|x|y|\n|---|---|\n|a|b|\n|c|d|", "Phase 4";
    var L := ["|x|y|", "|---|---|", "|a|b|", "|c|d|"];
    LostRowHead(head, tail);
    LostRowChars(table);
    LostRowLines(table, L);
    BlockBounds(text, head, table, tail);
    BlockLinesOfFour(text, L);
    LostRowKinds(L);
    StrictTableOfFourLines(L);
    StrictTableIsResult(text);
    LostRowClean(L);
  }

  lemma LostRowHead(head: string, tail: string)
    requires head == "Phase 3\n" && tail == "Phase 4"
    ensures |head| >= 8 && head[..7] == "Phase 3" && head[|head| - 1] == '\n' && '\n' !in head[..|head| - 1]
    ensures |tail| >= 7 && tail[..7] == "Phase 4"
  {
  }

  lemma LostRowChars(table: string)
    requires table == "|x|y|\n|---|---|\n|a|b|\n|c|d|"
    ensures |table| > 0 && forall c :: c in table ==> c != '#' && c != '*' && c != 'h' && c != 'H'
  {
  }

  lemma LostRowLines(table: string, L: seq<string>)
    requires table == "|x|y|\n|---|---|\n|a|b|\n|c|d|"
    requires L == ["|x|y|", "|---|---|", "|a|b|", "|c|d|"]
    ensures table == Join(L, "\n")
    ensures forall k :: 0 <= k < 4 ==> |L[k]| >= 2 && L[k][0] == '|' && L[k][|L[k]| - 1] == '|' && '\n' !in L[k]
  {
    JoinFour(L[0], L[1], L[2], L[3], "\n");
    assert L == [L[0], L[1], L[2], L[3]];
  }

  /** The first three lines are a header row, the separator and a data row. */
  lemma LostRowKinds(L: seq<string>)
    requires L == ["|x|y|", "|---|---|", "|a|b|", "|c|d|"]
    ensures |L| == 4
    ensures |L[0]| > 0 && L[0][0] == '|' && IsRowLine(L[0])
    ensures IsSeparatorLine(L[1]) && IsRowLine(L[2])
    ensures |L[2]| > 0 && L[2][|L[2]| - 1] == '|'
  {
    assert L[0][1..][1] == '|' && L[2][1..][1] == '|';
    RuleRowIsSeparator(L[1]);
  }

  /** `|---|---|` is a separator row for the strict pattern. */
  lemma RuleRowIsSeparator(ln: string)
    requires ln == RuleRow
    ensures IsSeparatorLine(ln)
  {
    var dashes := "---";
    assert ln == "|" + dashes + "|" + dashes + "|";
    DashRowIsSeparator(ln, dashes);
  }

  /** Two cells of dashes between three pipes make a separator row. */
  lemma DashRowIsSeparator(ln: string, dashes: string)
    requires |dashes| > 0 && forall k :: 0 <= k < |dashes| ==> dashes[k] == '-'
    requires ln == "|" + dashes + "|" + dashes + "|"
    ensures IsSeparatorLine(ln)
  {
    var parts := ["", dashes, dashes, ""];
    assert ln == Join(parts, "|") by {
      JoinFour("", dashes, dashes, "", "|");
    }
    assert Split(ln, '|') == parts by {
      assert forall k :: 0 <= k < |parts| ==> '|' !in parts[k];
      SplitOfJoin(parts, '|');
    }
    assert IsRuleCell(dashes) by {
      StripByUntouched(dashes, IsSpace);
    }
  }

  /** What the strict pattern keeps, the first three lines, cleans to the header and first row. */
  lemma LostRowClean(L: seq<string>)
    requires L == ["|x|y|", "|---|---|", "|a|b|", "|c|d|"]
    ensures Join(L[..3], "\n") == "|x|y|\n|---|---|\n|a|b|"
    ensures Clean(Join(L[..3], "\n")) == [["x", "y"], ["a", "b"]]
  {
    var kept := "|x|y|\n|---|---|\n|a|b|";
    assert Join(L[..3], "\n") == kept by {
      assert L[..3] == [L[0], L[1], L[2]];
      JoinThree(L[0], L[1], L[2], "\n");
    }
    LostRowKeptCleans(kept);
  }

  /** The three kept lines clean to the header and the first data row. */
  lemma LostRowKeptCleans(kept: string)
    requires kept == "|x|y|\n|---|---|\n|a|b|"
    ensures Clean(kept) == [["x", "y"], ["a", "b"]]
  {
    var x, y, a, b := "x", "y", "a", "b";
    LostRowWordsArePlain(x, y, a, b);
    LostRowText(kept, x, y, a, b);
    CleanTwoColumnPlan(kept, x, y, a, b);
  }

  lemma LostRowWordsArePlain(h1: string, h2: string, d1: string, d2: string)
    requires h1 == "x" && h2 == "y" && d1 == "a" && d2 == "b"
    ensures PlainCell(h1) && PlainCell(h2) && PlainCell(d1) && PlainCell(d2)
    ensures !IsTableChar(h1[0]) && !IsTableChar(d1[0])
  {
  }

  lemma LostRowText(text: string, h1: string, h2: string, d1: string, d2: string)
    requires text == "|x|y|\n|---|---|\n|a|b|"
    requires h1 == "x" && h2 == "y" && d1 == "a" && d2 == "b"
    ensures text == Join(["|" + h1 + "|" + h2 + "|", RuleRow, "|" + d1 + "|" + d2 + "|"], "\n")
  {
    JoinThree("|" + h1 + "|" + h2 + "|", RuleRow, "|" + d1 + "|" + d2 + "|", "\n");
  }

  /** A block that is four pipe-framed lines followed by an empty line has those four lines. */
  lemma BlockLinesOfFour(text: string, L: seq<string>)
    requires |L| == 4 && forall k :: 0 <= k < 4 ==> |L[k]| >= 2 && L[k][0] == '|' && L[k][|L[k]| - 1] == '|' && '\n' !in L[k]
    requires Phase3Block(text).Some? && Phase3Block(text).value == Join(L, "\n") + "\n\n"
    ensures BlockLines(text) == L
  {
    var table := Join(L, "\n");
    FramedFour(L);
    assert Strip(Phase3Block(text).value) == table by {
      StripOfTableBlock(table);
    }
    assert Lines(table) == L by {
      SplitOfJoin(L, '\n');
    }
  }

  /** Four pipe-framed lines joined by line breaks start and end with a pipe. */
  lemma FramedFour(L: seq<string>)
    requires |L| == 4 && forall k :: 0 <= k < 4 ==> |L[k]| >= 2 && L[k][0] == '|' && L[k][|L[k]| - 1] == '|'
    ensures var table := Join(L, "\n"); |table| > 0 && table[0] == '|' && table[|table| - 1] == '|'
  {
    JoinStartsWithFirst(L, "\n");
    JoinEndsWithLast(L, "\n");
  }

  /** A header row, a separator row and a data row, then any fourth line: the strict pattern
      matches the first three lines and never the fourth, whatever it is. */
  lemma StrictTableOfFourLines(L: seq<string>)
    requires |L| == 4
    requires |L[0]| > 0 && L[0][0] == '|' && IsRowLine(L[0])
    requires IsSeparatorLine(L[1]) && IsRowLine(L[2])
    requires |L[2]| > 0 && L[2][|L[2]| - 1] == '|'
    ensures StrictTable(L) == Some(Join(L[..3], "\n"))
  {
    var K := Kinds(L);
    FourLinesStartTable(L, K);
    assert TableAt(L, K, 0) == Join(L[..3], "\n") by {
      FourLinesTableText(L, K);
    }
    StrictAtFirstLine(L, K);
  }

  /** When a table starts on the first line, the strict search returns that table. */
  lemma StrictAtFirstLine(L: seq<string>, K: seq<LineKind>)
    requires |L| > 0 && |K| == |L| && StartsTable(L, K, 0)
    ensures StrictSearch(L, K, 0) == Some(TableAt(L, K, 0))
  {
  }

  /** The text of the table on the first three lines is those lines, joined. */
  lemma FourLinesTableText(L: seq<string>, K: seq<LineKind>)
    requires |L| == 4 && K == Kinds(L)
    requires |L[0]| > 0 && L[0][0] == '|' && |L[2]| > 0 && L[2][|L[2]| - 1] == '|'
    requires FromFirstPipe(L[0]) == L[0]
    requires StartsTable(L, K, 0) && TableFrom(K, IsRowLine(FromFirstPipe(L[0])), 0) == Some((1, 3))
    ensures TableAt(L, K, 0) == Join(L[..3], "\n")
  {
    assert TableAt(L, K, 0) == Phase3Extract.TableText(L, 0, 3);
    TableTextOfThree(L);
  }

  /** The table text of the first three lines, the first starting with its pipe, is their join. */
  lemma TableTextOfThree(L: seq<string>)
    requires |L| == 4
    requires |L[0]| > 0 && L[0][0] == '|' && |L[2]| > 0 && L[2][|L[2]| - 1] == '|'
    requires FromFirstPipe(L[0]) == L[0]
    ensures Phase3Extract.TableText(L, 0, 3) == Join(L[..3], "\n")
  {
    var j := Join(L[..3], "\n");
    assert Phase3Extract.TableText(L, 0, 3) == Strip(j + "\n") by {
      assert [FromFirstPipe(L[0])] + L[1..3] == L[..3];
    }
    JoinStartsWithFirst(L[..3], "\n");
    JoinEndsWithLast(L[..3], "\n");
    StripOfFramedLine(j);
  }

  /** Stripping pipe-framed text followed by a line break leaves the text. */
  lemma StripOfFramedLine(t: string)
    requires |t| > 0 && t[0] == '|' && t[|t| - 1] == '|'
    ensures Strip(t + "\n") == t
  {
    StripOfWrapped(t + "\n", t, 0, IsSpace);
  }

  /** The strict table starts on the first line and ends after the third. */
  lemma FourLinesStartTable(L: seq<string>, K: seq<LineKind>)
    requires |L| == 4 && K == Kinds(L)
    requires |L[0]| > 0 && L[0][0] == '|' && IsRowLine(L[0])
    requires IsSeparatorLine(L[1]) && IsRowLine(L[2])
    ensures FromFirstPipe(L[0]) == L[0]
    ensures StartsTable(L, K, 0) && TableFrom(K, IsRowLine(FromFirstPipe(L[0])), 0) == Some((1, 3))
  {
    assert K[1] == Rule && K[2] != Plain;
    assert SeparatorIndex(K, 1) == Some(1);
    assert DataEnd(K, 3) == 3;
  }
}
