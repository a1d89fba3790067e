/**
 * `extract_phase3_table`: cut the "Phase 3" section out of a generated plan and pull the markdown
 * table out of it, first with the strict header/separator/data pattern and then with the loose
 * "lines that look like rows" fallback.
 */
module Phase3Extract {
  import opened Outcomes
  import opened Text

  // ---------------------------------------------------------------------------------------------
  // The section pattern  (?:\s*(?:#+|\*\*)\s*)?Phase\s*3[^\n]*\n([\s\S]+?)(?=(?:\s*(?:#+|\*\*)\s*)?Phase\s*4|\Z)
  // searched case-insensitively.
  // ---------------------------------------------------------------------------------------------

  /** One text character against one lower-case letter of the pattern under `re.IGNORECASE`:
      ASCII case is ignored, and U+017F (long s) also matches 's'. */
  predicate FoldsTo(c: char, letter: char)
  {
    LowerChar(c) == letter || (letter == 's' && c == '\U{17f}')
  }

  const PhaseWord: string := "phase"

  /** The word "Phase" at `q`, in any case. */
  predicate PhaseWordAt(text: string, q: nat)
  {
    q + 5 <= |text| && forall i :: 0 <= i < 5 ==> FoldsTo(text[q + i], PhaseWord[i])
  }

  /** The first position at or after `i` that is not whitespace (`\s*` is greedy). */
  function SkipSpaces(text: string, i: nat): (j: nat)
    requires i <= |text|
    ensures i <= j <= |text|
    ensures forall k {:trigger IsSpace(text[k])} :: i <= k < j ==> IsSpace(text[k])
    ensures j < |text| ==> !IsSpace(text[j])
    decreases |text| - i
  {
    if i < |text| && IsSpace(text[i]) then SkipSpaces(text, i + 1) else i
  }

  function SkipHashes(text: string, i: nat): (j: nat)
    requires i <= |text|
    ensures i <= j <= |text|
    ensures j < |text| ==> text[j] != '#'
    decreases |text| - i
  {
    if i < |text| && text[i] == '#' then SkipHashes(text, i + 1) else i
  }

  /** The first occurrence of `c` at or after `i`. */
  function FindChar(text: string, i: nat, c: char): (r: Option<nat>)
    requires i <= |text|
    ensures r.Some? ==> i <= r.value < |text| && text[r.value] == c
                        && forall k :: i <= k < r.value ==> text[k] != c
    ensures r.None? ==> forall k :: i <= k < |text| ==> text[k] != c
    decreases |text| - i
  {
    if i == |text| then None
    else if text[i] == c then Some(i)
    else FindChar(text, i + 1, c)
  }

  /** `Phase\s*d` starting at `q`: the position just after the digit `d`. */
  function PhaseMarkEnd(text: string, q: nat, d: char): (r: Option<nat>)
    ensures r.Some? ==> q + 6 <= r.value <= |text| && text[r.value - 1] == d
  {
    if PhaseWordAt(text, q) then
      var j := SkipSpaces(text, q + 5);
      if j < |text| && text[j] == d then Some(j + 1) else None
    else None
  }

  /** Where the section body begins when a Phase 3 heading starts at `q`: after `Phase\s*3`, the
      rest of that line and its line break; the body `[\s\S]+?` needs at least one character. */
  function HeadingBodyStart(text: string, q: nat): (r: Option<nat>)
    ensures r.Some? ==> q < r.value < |text| && text[r.value - 1] == '\n'
  {
    match PhaseMarkEnd(text, q, '3')
    case None => None
    case Some(a) =>
      match FindChar(text, a, '\n')
      case None => None
      case Some(nl) => if nl + 1 < |text| then Some(nl + 1) else None
  }

  /** Some position of the text starts a Phase 3 heading the section pattern can complete. */
  ghost predicate HasPhase3Heading(text: string)
  {
    exists q :: 0 <= q < |text| && HeadingBodyStart(text, q).Some?
  }

  /** The leftmost completable Phase 3 heading. The optional `#`/`**` decoration in front of the
      heading only moves where the whole match starts; it never changes which heading is used,
      because the decoration cannot contain the letter that starts "Phase". */
  function FindHeading(text: string, q: nat): (r: Option<nat>)
    requires q <= |text|
    ensures r.Some? ==> q <= r.value < |text| && HeadingBodyStart(text, r.value).Some?
                        && forall p :: q <= p < r.value ==> HeadingBodyStart(text, p).None?
    ensures r.None? ==> forall p :: q <= p < |text| ==> HeadingBodyStart(text, p).None?
    decreases |text| - q
  {
    if q == |text| then None
    else if HeadingBodyStart(text, q).Some? then Some(q)
    else FindHeading(text, q + 1)
  }

  /** End of the decoration `\s*(?:#+|\*\*)\s*` when it starts at `e`. */
  function DecorationEnd(text: string, e: nat): (r: Option<nat>)
    requires e <= |text|
    ensures r.Some? ==> e < r.value <= |text|
  {
    var a := SkipSpaces(text, e);
    if a < |text| && text[a] == '#' then Some(SkipSpaces(text, SkipHashes(text, a)))
    else if a + 1 < |text| && text[a] == '*' && text[a + 1] == '*' then Some(SkipSpaces(text, a + 2))
    else None
  }

  /** The lookahead `(?:\s*(?:#+|\*\*)\s*)?Phase\s*4` holds at `e`. */
  predicate Phase4At(text: string, e: nat)
    requires e <= |text|
  {
    || PhaseMarkEnd(text, e, '4').Some?
    || (DecorationEnd(text, e).Some? && PhaseMarkEnd(text, DecorationEnd(text, e).value, '4').Some?)
  }

  /** The first position from `e` on, before `n`, where `marked` holds; `n` when there is none. */
  function FirstMarked(marked: nat -> bool, e: nat, n: nat): (r: nat)
    requires e <= n
    ensures e <= r <= n && (r == n || marked(r))
    decreases n - e
  {
    if e == n || marked(e) then e else FirstMarked(marked, e + 1, n)
  }

  /** Nothing before the first marked position is marked. */
  lemma {:induction false} FirstMarkedIsFirst(marked: nat -> bool, e: nat, n: nat)
    requires e <= n
    ensures forall k :: e <= k < FirstMarked(marked, e, n) ==> !marked(k)
    decreases n - e
  {
    if e < n && !marked(e) {
      FirstMarkedIsFirst(marked, e + 1, n);
    }
  }

  /** The positions of the text where the Phase 4 lookahead holds. */
  function Phase4Marks(text: string): nat -> bool
  {
    (k: nat) => k <= |text| && Phase4At(text, k)
  }

  /** The lazy body stops at the first position from `e` on where the Phase 4 lookahead holds, or
      at the end of the text (`\Z`). */
  function BodyEnd(text: string, e: nat): (r: nat)
    requires e <= |text|
    ensures e <= r <= |text|
    ensures r == |text| || Phase4At(text, r)
  {
    FirstMarked(Phase4Marks(text), e, |text|)
  }

  /** No Phase 4 marker lies between `e` and the end of the body. */
  lemma BodyEndIsFirst(text: string, e: nat)
    requires e <= |text|
    ensures forall k :: e <= k < BodyEnd(text, e) ==> !Phase4At(text, k)
  {
    var marked := Phase4Marks(text);
    FirstMarkedIsFirst(marked, e, |text|);
    forall k | e <= k < BodyEnd(text, e) ensures !Phase4At(text, k) {
      assert !marked(k);
    }
  }

  /** `text[b..e]` can be group 1 of the section pattern: it starts right after a line break,
      ends at a Phase 4 marker or at the end of the text, and has no Phase 4 marker inside. */
  predicate BlockSpan(text: string, b: nat, e: nat)
  {
    && 0 < b < e <= |text| && text[b - 1] == '\n'
    && (e == |text| || Phase4At(text, e))
    && forall k :: b < k < e ==> !Phase4At(text, k)
  }

  /** `q` is the leftmost position of the text where a Phase 3 heading can be completed: the
      heading `re.search` settles on. */
  predicate FirstHeadingAt(text: string, q: nat)
  {
    && q < |text| && HeadingBodyStart(text, q).Some?
    && forall p :: 0 <= p < q ==> HeadingBodyStart(text, p).None?
  }

  /** Group 1 of the section pattern: the text after the first Phase 3 heading line up to the
      first Phase 4 marker, or to the end of the text. */
  function Phase3Block(text: string): (r: Option<string>)
    ensures r.None? <==> !HasPhase3Heading(text)
    ensures r.Some? ==> exists b: nat, e: nat {:trigger BlockSpan(text, b, e)} :: BlockSpan(text, b, e) && r.value == text[b..e]
    ensures r.Some? ==> exists q: nat :: FirstHeadingAt(text, q) && r.value == BlockAfter(text, HeadingBodyStart(text, q).value)
  {
    match FindHeading(text, 0)
    case None => None
    case Some(p) =>
      var b := HeadingBodyStart(text, p).value;
      BlockSpanAt(text, b);
      FoundHeadingIsFirst(text);
      Some(BlockAfter(text, b))
  }

  /** The heading the search finds is the leftmost completable one. */
  lemma FoundHeadingIsFirst(text: string)
    requires FindHeading(text, 0).Some?
    ensures FirstHeadingAt(text, FindHeading(text, 0).value)
  {
  }

  /** A present section is the body of the heading the search finds. */
  lemma BlockOfFoundHeading(text: string)
    requires Phase3Block(text).Some?
    ensures FindHeading(text, 0).Some?
    ensures Phase3Block(text).value == BlockAfter(text, HeadingBodyStart(text, FindHeading(text, 0).value).value)
  {
  }

  /** The lazy body that starts at `b`. */
  function BlockAfter(text: string, b: nat): string
    requires b < |text|
  {
    text[b..BodyEnd(text, b + 1)]
  }

  /** A body that starts after a line break runs to the end of the text or to a Phase 4 marker, with
      none in between. */
  lemma BlockSpanAt(text: string, b: nat)
    requires 0 < b < |text| && text[b - 1] == '\n'
    ensures BlockSpan(text, b, BodyEnd(text, b + 1))
  {
    BodyEndIsFirst(text, b + 1);
  }

  // ---------------------------------------------------------------------------------------------
  // The strict table pattern, read line by line:
  //   ((?:\|[^\n]*?\|[^\n]*?\n)+?)((?:\|\s*[-:]+\s*){2,}\|[^\n]*?\n)((?:(?:\|[^\n]*?\|[^\n]*?\n)+)+)
  // A line of the block is "terminated" when another line follows it (it ends in "\n").
  // ---------------------------------------------------------------------------------------------

  /** A line that starts with a pipe and has a second pipe later on. This is what one repetition of
      `\|[^\n]*?\|[^\n]*?\n` accepts, and also what the fallback filter `^\|.*\|\s*` accepts. */
  predicate IsRowLine(ln: string)
  {
    |ln| > 0 && ln[0] == '|' && '|' in ln[1..]
  }

  /** `^\|.*\|` on one line: a pipe first, and a pipe again at some later position. */
  lemma RowLineHasTwoPipes(ln: string)
    ensures IsRowLine(ln) <==> |ln| > 0 && ln[0] == '|' && exists j :: 0 < j < |ln| && ln[j] == '|'
  {
    if |ln| > 0 && ln[0] == '|' {
      if '|' in ln[1..] {
        var i :| 0 <= i < |ln[1..]| && ln[1..][i] == '|';
        assert ln[i + 1] == '|';
      }
      if j :| 0 < j < |ln| && ln[j] == '|' {
        assert ln[1..][j - 1] == '|';
      }
    }
  }

  /** One cell of a separator row: `\s*[-:]+\s*`. */
  predicate IsRuleCell(seg: string)
  {
    var t := Strip(seg);
    |t| > 0 && forall k :: 0 <= k < |t| ==> t[k] == '-' || t[k] == ':'
  }

  /** A separator row on one line, `(?:\|\s*[-:]+\s*){2,}\|[^\n]*?`: a pipe, at least two rule cells
      each closed by a pipe, then anything. Each repetition runs from one pipe to the next, so only
      the first two cells decide. */
  predicate IsSeparatorLine(ln: string)
  {
    var parts := Split(ln, '|');
    |ln| > 0 && ln[0] == '|' && |parts| >= 4 && IsRuleCell(parts[1]) && IsRuleCell(parts[2])
  }

  /** The part of a line from its first pipe on: where an unanchored search can start a row. */
  function FromFirstPipe(ln: string): (r: string)
    ensures |r| <= |ln|
    ensures r == "" || (r[0] == '|' && r == ln[|ln| - |r|..] && '|' !in ln[..|ln| - |r|])
    ensures r == "" ==> '|' !in ln
    decreases |ln|
  {
    if |ln| == 0 then ""
    else if ln[0] == '|' then ln
    else
      var r := FromFirstPipe(ln[1..]);
      assert r != "" ==> ln[..|ln| - |r|] == [ln[0]] + ln[1..][..|ln[1..]| - |r|];
      assert r != "" ==> ln[|ln| - |r|..] == ln[1..][|ln[1..]| - |r|..];
      assert r == "" ==> ln == [ln[0]] + ln[1..];
      r
  }

  /** What one line of the block can be for the strict pattern. A separator line is a row line too. */
  datatype LineKind = Plain | Row | Rule

  function KindOf(ln: string): (k: LineKind)
    ensures k != Plain <==> IsRowLine(ln)
    ensures k == Rule <==> IsSeparatorLine(ln)
  {
    if IsSeparatorLine(ln) then SeparatorIsRow(ln); Rule
    else if IsRowLine(ln) then Row
    else Plain
  }

  lemma SeparatorIsRow(ln: string)
    requires IsSeparatorLine(ln)
    ensures IsRowLine(ln)
  {
    var parts := Split(ln, '|');
    JoinOfSplit(ln, '|');
    assert Join(parts, "|") == parts[0] + "|" + Join(parts[1..], "|");
    assert parts[0] == "";
    assert ln == "|" + Join(parts[1..], "|");
    assert ln[1..] == Join(parts[1..], "|");
    var rest := parts[1..];
    assert Join(rest, "|") == rest[0] + "|" + Join(rest[1..], "|");
    assert ln[1..][|rest[0]|] == '|';
  }

  function Kinds(L: seq<string>): (K: seq<LineKind>)
    ensures |K| == |L|
    ensures forall i :: 0 <= i < |L| ==> K[i] == KindOf(L[i])
  {
    seq(|L|, i requires 0 <= i < |L| => KindOf(L[i]))
  }

  /** Line `s` is a terminated separator row followed by a terminated row line. */
  predicate SeparatorAt(K: seq<LineKind>, s: nat)
  {
    s + 2 < |K| && K[s] == Rule && K[s + 1] != Plain
  }

  predicate RowsBetween(K: seq<LineKind>, from: nat, to: nat)
    requires from <= to <= |K|
  {
    forall k :: from <= k < to ==> K[k] != Plain
  }

  /** With header lines before `m` accepted, the lazy `+?` takes the first `s` from `m` on that is a
      separator followed by a data row, as long as every line in between is a row line. */
  function SeparatorIndex(K: seq<LineKind>, m: nat): (r: Option<nat>)
    requires m <= |K|
    ensures r.Some? ==> m <= r.value < |K| && SeparatorAt(K, r.value) && RowsBetween(K, m, r.value)
                        && forall s :: m <= s < r.value ==> !SeparatorAt(K, s)
    ensures r.None? ==> forall s :: m <= s < |K| && SeparatorAt(K, s) ==> !RowsBetween(K, m, s)
    decreases |K| - m
  {
    if m + 2 >= |K| then None
    else if SeparatorAt(K, m) then Some(m)
    else if K[m] != Plain then SeparatorIndex(K, m + 1)
    else None
  }

  /** The greedy data rows: the longest run of terminated row lines from `i`. */
  function DataEnd(K: seq<LineKind>, i: nat): (r: nat)
    requires i <= |K|
    ensures i <= r <= |K| && RowsBetween(K, i, r)
    ensures r == i || r < |K|
    ensures r + 1 < |K| ==> K[r] == Plain
    decreases |K| - i
  {
    if i + 1 < |K| && K[i] != Plain then DataEnd(K, i + 1) else i
  }

  /** A strict table whose first header row starts on line `j` (`firstRow`: that line, from its
      first pipe, is a row): the separator line and the end of the data rows. */
  function TableFrom(K: seq<LineKind>, firstRow: bool, j: nat): (r: Option<(nat, nat)>)
    requires j < |K|
    ensures r.Some? ==> firstRow && j < r.value.0 && r.value.0 + 2 <= r.value.1 < |K|
                        && SeparatorAt(K, r.value.0) && RowsBetween(K, j + 1, r.value.1)
    ensures r.None? ==> !firstRow
                        || forall s :: j + 1 <= s < |K| && SeparatorAt(K, s) ==> !RowsBetween(K, j + 1, s)
  {
    if !firstRow then None
    else
      match SeparatorIndex(K, j + 1)
      case None => None
      case Some(s) =>
        var e := DataEnd(K, s + 1);
        assert RowsBetween(K, j + 1, e) by {
          forall k | j + 1 <= k < e ensures K[k] != Plain {
            if k > s { assert RowsBetween(K, s + 1, e); }
          }
        }
        Some((s, e))
  }

  /** The matched text, `(group 1 + group 2 + group 3).strip()`. */
  function TableText(L: seq<string>, j: nat, e: nat): string
    requires j < e <= |L|
  {
    Strip(Join([FromFirstPipe(L[j])] + L[j + 1..e], "\n") + "\n")
  }

  /** Line `i` starts a strict table. */
  predicate StartsTable(L: seq<string>, K: seq<LineKind>, i: nat)
    requires |K| == |L| && i < |L|
  {
    TableFrom(K, IsRowLine(FromFirstPipe(L[i])), i).Some?
  }

  /** The stripped text of the strict table that starts on line `i`. */
  function TableAt(L: seq<string>, K: seq<LineKind>, i: nat): string
    requires |K| == |L| && i < |L| && StartsTable(L, K, i)
  {
    TableText(L, i, TableFrom(K, IsRowLine(FromFirstPipe(L[i])), i).value.1)
  }

  /** The lines of the block where a strict table starts. */
  function TableMarks(L: seq<string>, K: seq<LineKind>): nat -> bool
    requires |K| == |L|
  {
    (i: nat) => i < |L| && StartsTable(L, K, i)
  }

  /** The first line from `j` on where a strict table starts, or `|L|`; no table starts before it. */
  lemma FirstTableLine(L: seq<string>, K: seq<LineKind>, j: nat)
    requires |K| == |L| && j <= |L|
    ensures var i := FirstMarked(TableMarks(L, K), j, |L|);
            && (i < |L| ==> StartsTable(L, K, i))
            && forall h :: j <= h < i ==> !StartsTable(L, K, h)
  {
    var marked := TableMarks(L, K);
    FirstMarkedIsFirst(marked, j, |L|);
    forall h | j <= h < FirstMarked(marked, j, |L|) ensures !StartsTable(L, K, h) {
      assert !marked(h);
    }
  }

  /** `re.search` of the strict pattern: the table of the first line from `j` on where one starts. */
  function StrictSearch(L: seq<string>, K: seq<LineKind>, j: nat): (r: Option<string>)
    requires |K| == |L| && j <= |L|
    ensures r.None? <==> forall i :: j <= i < |L| ==> !StartsTable(L, K, i)
    ensures r.Some? ==> exists i :: j <= i < |L| && StartsTable(L, K, i) && r.value == TableAt(L, K, i)
                                    && forall h :: j <= h < i ==> !StartsTable(L, K, h)
  {
    var i := FirstMarked(TableMarks(L, K), j, |L|);
    FirstTableLine(L, K, j);
    if i == |L| then None else Some(TableAt(L, K, i))
  }

  /** The strict pattern over the lines of the block. */
  function StrictTable(L: seq<string>): Option<string>
  {
    StrictSearch(L, Kinds(L), 0)
  }

  // ---------------------------------------------------------------------------------------------
  // The whole extraction.
  // ---------------------------------------------------------------------------------------------

  /** `extract_phase3_table`: the strict table of the stripped Phase 3 block, otherwise the block's
      row lines joined by line breaks when there are at least two, otherwise nothing. */
  function Extract(text: string): (r: Option<string>)
    ensures !HasPhase3Heading(text) ==> r.None?
    ensures r.Some? ==> |r.value| > 0 && r.value[0] == '|'
  {
    if Phase3Block(text).None? then None
    else
      var L := BlockLines(text);
      match StrictTable(L)
      case Some(t) =>
        StrictTableStartsWithPipe(L);
        Some(t)
      case None =>
        var rows := Filter(L, IsRowLine);
        if |rows| >= 2 then
          assert IsRowLine(rows[0]);
          Some(Join(rows, "\n"))
        else None
  }

  /** The lines of the stripped Phase 3 block: `phase3_block.split("\n")`. */
  function BlockLines(text: string): (L: seq<string>)
    requires Phase3Block(text).Some?
    ensures |L| >= 1 && forall i :: 0 <= i < |L| ==> '\n' !in L[i]
  {
    Lines(Strip(Phase3Block(text).value))
  }

  /** When the strict pattern finds nothing, the result is present exactly when at least two block
      lines are row lines, and its lines are then exactly those row lines, in block order. */
  lemma FallbackIsRowLines(text: string)
    requires Phase3Block(text).Some? && StrictTable(BlockLines(text)).None?
    ensures Extract(text).Some? <==> |Filter(BlockLines(text), IsRowLine)| >= 2
    ensures Extract(text).Some? ==> Lines(Extract(text).value) == Filter(BlockLines(text), IsRowLine)
  {
    var L := BlockLines(text);
    var rows := Filter(L, IsRowLine);
    if |rows| >= 2 {
      assert forall k :: 0 <= k < |rows| ==> '\n' !in rows[k];
      SplitOfJoin(rows, '\n');
    }
  }

  /** When the strict pattern matches, its stripped match is the result. */
  lemma StrictTableIsResult(text: string)
    requires Phase3Block(text).Some? && StrictTable(BlockLines(text)).Some?
    ensures Extract(text) == StrictTable(BlockLines(text))
    ensures |Extract(text).value| > 0 && Extract(text).value[0] == '|'
  {
    StrictTableStartsWithPipe(BlockLines(text));
  }

  /** With no Phase 4 marker anywhere, the block runs to the end of the text, so a table at the end
      of the text is still part of it. */
  lemma BlockRunsToEndWithoutPhase4(text: string)
    requires Phase3Block(text).Some?
    requires forall k :: 0 <= k <= |text| ==> !Phase4At(text, k)
    ensures exists q: nat :: FirstHeadingAt(text, q) && Phase3Block(text).value == text[HeadingBodyStart(text, q).value..]
  {
    BlockOfFoundHeading(text);
    var q := FindHeading(text, 0).value;
    FoundHeadingIsFirst(text);
    var b := HeadingBodyStart(text, q).value;
    assert BodyEnd(text, b + 1) == |text|;
    assert Phase3Block(text).value == text[b..];
  }

  /** Every line the strict pattern takes ends with a line break, and the stripped block's last line
      has none: a strict match spans a header, a separator and a data row, and always stops before
      the block's last line. */
  lemma StrictTableSkipsLastLine(L: seq<string>)
    requires StrictTable(L).Some?
    ensures exists i: nat, e: nat :: i + 3 <= e < |L| && StrictTable(L).value == TableText(L, i, e)
  {
    var K := Kinds(L);
    var i := FirstMarked(TableMarks(L, K), 0, |L|);
    FirstTableLine(L, K, 0);
    assert StrictTable(L).value == TableAt(L, K, i);
    var e := TableFrom(K, IsRowLine(FromFirstPipe(L[i])), i).value.1;
    assert i + 3 <= e < |L| && StrictTable(L).value == TableText(L, i, e);
  }

  lemma StrictTableStartsWithPipe(L: seq<string>)
    requires StrictTable(L).Some?
    ensures |StrictTable(L).value| > 0 && StrictTable(L).value[0] == '|'
  {
    StrictSearchStartsWithPipe(L, Kinds(L), 0);
  }

  lemma StrictSearchStartsWithPipe(L: seq<string>, K: seq<LineKind>, j: nat)
    requires |K| == |L| && j <= |L| && StrictSearch(L, K, j).Some?
    ensures |StrictSearch(L, K, j).value| > 0 && StrictSearch(L, K, j).value[0] == '|'
  {
    var i :| j <= i < |L| && StartsTable(L, K, i) && StrictSearch(L, K, j).value == TableAt(L, K, i);
    var head := FromFirstPipe(L[i]);
    var t := TableFrom(K, IsRowLine(head), i).value;
    assert IsRowLine(head);
    TableTextStartsWithPipe(L, i, t.1);
  }

  lemma TableTextStartsWithPipe(L: seq<string>, i: nat, e: nat)
    requires i + 1 < e <= |L| && IsRowLine(FromFirstPipe(L[i]))
    ensures |TableText(L, i, e)| > 0 && TableText(L, i, e)[0] == '|'
  {
    var head := FromFirstPipe(L[i]);
    assert |head| > 0 && head[0] == '|';
    StrippedBlockStartsWithPipe([head] + L[i + 1..e]);
  }

  lemma StrippedBlockStartsWithPipe(lines: seq<string>)
    requires |lines| >= 1 && |lines[0]| > 0 && lines[0][0] == '|'
    ensures |Strip(Join(lines, "\n") + "\n")| > 0 && Strip(Join(lines, "\n") + "\n")[0] == '|'
  {
    JoinStartsWithFirst(lines, "\n");
    StripKeepsFirst(Join(lines, "\n") + "\n");
  }

  // ---------------------------------------------------------------------------------------------
  // Locating the block in a given text.
  // ---------------------------------------------------------------------------------------------

  /** The literal `Phase d` at `q` completes `Phase\s*d` just after the digit. */
  lemma PhaseMarkOf(text: string, q: nat, d: char)
    requires q + 7 <= |text| && text[q..q + 7] == "Phase " + [d] && '0' <= d <= '9'
    ensures PhaseMarkEnd(text, q, d) == Some(q + 7)
  {
    var w := text[q..q + 7];
    assert forall i :: 0 <= i < 7 ==> w[i] == text[q + i];
    assert PhaseWordAt(text, q);
    assert text[q + 5] == ' ' && text[q + 6] == d;
    assert SkipSpaces(text, q + 6) == q + 6;
    assert SkipSpaces(text, q + 5) == q + 6;
  }

  /** A text that opens with a Phase 3 heading line: the block starts on the next line. */
  lemma HeadingLineAt(text: string, nl: nat)
    requires 7 <= nl && nl + 1 < |text| && text[..7] == "Phase 3"
    requires text[nl] == '\n' && forall k :: 7 <= k < nl ==> text[k] != '\n'
    ensures Phase3Block(text).Some? && Phase3Block(text).value == BlockAfter(text, nl + 1)
  {
    HeadingStartsBodyAt(text, nl);
    BlockOfHeading(text, nl + 1);
  }

  /** The block of the first completable heading. */
  lemma BlockOfHeading(text: string, b: nat)
    requires HeadingBodyStart(text, 0) == Some(b)
    ensures Phase3Block(text).Some? && Phase3Block(text).value == BlockAfter(text, b)
  {
    FirstHeadingAtStart(text);
    BlockOfFirstHeading(text, b);
  }

  lemma FirstHeadingAtStart(text: string)
    requires HeadingBodyStart(text, 0).Some?
    ensures FindHeading(text, 0) == Some(0)
  {
  }

  lemma BlockOfFirstHeading(text: string, b: nat)
    requires FindHeading(text, 0) == Some(0) && HeadingBodyStart(text, 0) == Some(b)
    ensures Phase3Block(text).Some? && Phase3Block(text).value == BlockAfter(text, b)
  {
  }

  lemma HeadingStartsBodyAt(text: string, nl: nat)
    requires 7 <= nl && nl + 1 < |text| && text[..7] == "Phase 3"
    requires text[nl] == '\n' && forall k :: 7 <= k < nl ==> text[k] != '\n'
    ensures HeadingBodyStart(text, 0) == Some(nl + 1)
  {
    assert text[0..7] == text[..7];
    PhaseMarkOf(text, 0, '3');
    assert FindChar(text, 7, '\n') == Some(nl);
  }

  /** Between `e` and `m`, with no heading decoration character and no letter that could continue
      a "Ph" at all, nothing can start a Phase 4 marker. */
  lemma NoPhase4Within(text: string, e: nat, m: nat)
    requires e <= m < |text| && !IsSpace(text[m])
    requires forall k :: e <= k <= m ==> text[k] != '#' && text[k] != '*'
    requires forall k :: e < k <= m ==> !FoldsTo(text[k], 'h')
    ensures forall k :: e <= k < m ==> !Phase4At(text, k)
  {
    forall k | e <= k < m ensures !Phase4At(text, k) {
      assert !FoldsTo(text[k + 1], PhaseWord[1]);
      assert !PhaseWordAt(text, k);
      var a := SkipSpaces(text, k);
      assert a <= m;
      assert DecorationEnd(text, k).None?;
    }
  }

  /** The block ends at the first Phase 4 marker. */
  lemma BodyEndAt(text: string, e: nat, m: nat)
    requires e <= m <= |text| && (m == |text| || Phase4At(text, m))
    requires forall k :: e <= k < m ==> !Phase4At(text, k)
    ensures BodyEnd(text, e) == m
  {
    BodyEndIsFirst(text, e);
  }

  /** A table for the strict pattern needs a header, a separator and a data row, each followed by
      another line: a block of at most three lines never matches it. */
  lemma {:induction false} ShortBlockHasNoStrictTable(L: seq<string>, K: seq<LineKind>, j: nat)
    requires |K| == |L| <= 3 && j <= |L|
    ensures StrictSearch(L, K, j).None?
    decreases |L| - j
  {
    if j < |L| {
      assert SeparatorIndex(K, j + 1).None?;
      assert !StartsTable(L, K, j);
      ShortBlockHasNoStrictTable(L, K, j + 1);
    }
  }
}
