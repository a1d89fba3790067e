/**
 * One question answered by `smart_qa_system`: the router's reply picks the graph branch or the
 * design branch, the branch streams its answer in chunks, the design branch reports on the plan
 * table it tried to save, and the exchange is remembered only when nothing raised. The language
 * models, the graph database, the clock and the file system are the `Services` of one turn.
 */
module QaTurn {
  import opened Outcomes
  import opened Text
  import opened Records
  import opened Phase3Extract
  import opened TableClean
  import opened GraphBuild

  // ---------------------------------------------------------------------------------------------
  // Routing
  // ---------------------------------------------------------------------------------------------

  /** The characters `strip('"\' ')` removes. */
  predicate IsRouteTrim(c: char) { c == '"' || c == '\'' || c == ' ' }

  /** The router's reply as the turn compares it: stripped, lower-cased, then stripped of quotes,
      apostrophes and spaces. */
  function RouteWord(reply: string): string
  {
    StripBy(Lower(Strip(reply)), IsRouteTrim)
  }

  predicate TakesGraphBranch(reply: string)
  {
    RouteWord(reply) == "graph"
  }

  /** `pat` sits in `t` at `i` with nothing but quotes, apostrophes and spaces around it. */
  predicate WrappedAt(t: string, pat: string, i: nat)
  {
    i + |pat| <= |t| && t[i..i + |pat|] == pat
    && AllSatisfy(t[..i], IsRouteTrim) && AllSatisfy(t[i + |pat|..], IsRouteTrim)
  }

  /** A reply takes the graph branch exactly when, once stripped of whitespace and lower-cased, it
      is "graph" wrapped in any run of quotes, apostrophes and spaces on either side. */
  lemma GraphRouteIsQuotedGraph(reply: string)
    ensures TakesGraphBranch(reply) <==> exists i: nat :: WrappedAt(Lower(Strip(reply)), "graph", i)
  {
    var t := Lower(Strip(reply));
    if TakesGraphBranch(reply) {
      GraphRouteIsWrapped(t);
    }
    if exists i: nat :: WrappedAt(t, "graph", i) {
      var i: nat :| WrappedAt(t, "graph", i);
      QuotedGraph(t, i);
    }
  }

  lemma GraphRouteIsWrapped(t: string)
    requires StripBy(t, IsRouteTrim) == "graph"
    ensures exists i: nat :: WrappedAt(t, "graph", i)
  {
    StripBySlice(t, IsRouteTrim);
    assert WrappedAt(t, "graph", StripOffset(t, IsRouteTrim));
  }

  lemma QuotedGraph(t: string, i: nat)
    requires WrappedAt(t, "graph", i)
    ensures StripBy(t, IsRouteTrim) == "graph"
  {
    var w := "graph";
    assert w[0] == 'g' && w[|w| - 1] == 'h';
    StripOfWrapped(t, w, i, IsRouteTrim);
  }

  /** A quoted, capitalised reply with stray whitespace still picks the graph branch. */
  lemma QuotedReplyTakesGraph(reply: string)
    requires reply == " 'Graph'\n"
    ensures TakesGraphBranch(reply)
  {
    var inner := reply[1..8];
    ReplyPieces(reply, inner);
    StripOfWrapped(reply, inner, 1, IsSpace);
    var t := Lower(inner);
    LoweredPieces(inner, t);
    QuotedGraph(t, 1);
  }

  lemma ReplyPieces(reply: string, inner: string)
    requires reply == " 'Graph'\n" && inner == reply[1..8]
    ensures |inner| == 7 && !IsSpace(inner[0]) && !IsSpace(inner[6])
    ensures AllSatisfy(reply[..1], IsSpace) && AllSatisfy(reply[8..], IsSpace)
    ensures inner == "'Graph'"
  {
  }

  lemma LoweredPieces(inner: string, t: string)
    requires inner == "'Graph'" && t == Lower(inner)
    ensures WrappedAt(t, "graph", 1)
  {
    assert t == "'graph'";
    assert t[1..6] == "graph" && t[..1] == "'" && t[6..] == "'";
  }

  /** A reply that says more than "graph" picks the design branch. */
  lemma LongerReplyTakesDesign(reply: string)
    requires reply == "graph database"
    ensures !TakesGraphBranch(reply)
  {
    LongerReplyPieces(reply);
    assert reply[0..|reply|] == reply && reply[..0] == [] && reply[|reply|..] == [];
    StripOfWrapped(reply, reply, 0, IsSpace);
    StripOfWrapped(reply, reply, 0, IsRouteTrim);
    assert |RouteWord(reply)| == 14;
  }

  lemma LongerReplyPieces(reply: string)
    requires reply == "graph database"
    ensures |reply| == 14 && Lower(reply) == reply
    ensures !IsSpace(reply[0]) && !IsSpace(reply[13]) && !IsRouteTrim(reply[0]) && !IsRouteTrim(reply[13])
  {
  }

  // ---------------------------------------------------------------------------------------------
  // The graph query's output
  // ---------------------------------------------------------------------------------------------

  /** `cypher_output.get("result", cypher_output)`: the records, or the whole output without them. */
  function GraphData(out: seq<Field>): (v: Value)
    ensures "result" in Keys(out) ==> Get(out, "result") == Some(v)
    ensures "result" !in Keys(out) ==> v == Dict(out)
  {
    match Get(out, "result")
    case Some(v) => v
    case None => Dict(out)
  }

  /** `pat` occurs in `s` starting at `i`. */
  predicate OccursAt(s: string, pat: string, i: nat)
  {
    i + |pat| <= |s| && s[i..i + |pat|] == pat
  }

  /** Python's `s.replace(pat, "")`: occurrences are removed left to right, without overlap. */
  function RemoveAll(s: string, pat: string): (r: string)
    requires |pat| > 0
    ensures |r| <= |s|
    ensures (forall i: nat :: !OccursAt(s, pat, i)) ==> r == s
    ensures (exists i: nat :: OccursAt(s, pat, i)) ==> |r| <= |s| - |pat|
    ensures (|s| - |r|) % |pat| == 0
    decreases |s|
  {
    if |s| < |pat| then s
    else if s[..|pat|] == pat then
      assert OccursAt(s, pat, 0);
      var rest := RemoveAll(s[|pat|..], pat);
      ModOfOneMore(|s[|pat|..]| - |rest|, |pat|);
      rest
    else
      var rest := RemoveAll(s[1..], pat);
      OccursAfterFirst(s, pat);
      [s[0]] + rest
  }

  /** Adding one more `m` keeps a multiple of `m` a multiple of `m`. */
  lemma ModOfOneMore(a: int, m: int)
    requires m > 0 && a % m == 0
    ensures (a + m) % m == 0
  {
    var q := a / m;
    var k := q + 1 - (a + m) / m;
    assert a == m * q;
    assert (a + m) % m == m * k by {
      assert a + m == m * ((a + m) / m) + (a + m) % m;
      assert m * k == m * q + m - m * ((a + m) / m);
    }
  }

  /** When `pat` does not open `s`, its occurrences in `s` are those in `s[1..]`, shifted by one. */
  lemma OccursAfterFirst(s: string, pat: string)
    requires 0 < |pat| <= |s| && s[..|pat|] != pat
    ensures forall i: nat :: OccursAt(s[1..], pat, i) ==> OccursAt(s, pat, i + 1)
    ensures (exists i: nat :: OccursAt(s, pat, i)) ==> exists i: nat :: OccursAt(s[1..], pat, i)
  {
    forall i: nat | OccursAt(s[1..], pat, i) ensures OccursAt(s, pat, i + 1) {
      assert s[1..][i..i + |pat|] == s[i + 1..i + 1 + |pat|];
    }
    if i: nat :| OccursAt(s, pat, i) {
      assert i != 0;
      assert s[1..][i - 1..i - 1 + |pat|] == s[i..i + |pat|];
      assert OccursAt(s[1..], pat, i - 1);
    }
  }

  /** `pieces` joined by `pat` give `s`, and no copy of `pat` starts inside a piece of what is left
      from that piece on: each copy of `pat` between two pieces is the leftmost one starting after
      the copy before it, and the last piece holds none. */
  predicate LeftmostSplit(s: string, pat: string, pieces: seq<string>)
  {
    && |pieces| >= 1
    && s == Join(pieces, pat)
    && forall k, i: nat :: 0 <= k < |pieces| && i < |pieces[k]| ==> !OccursAt(Join(pieces[k..], pat), pat, i)
  }

  /** What `s.replace(pat, "")` removes: `s` cut at its leftmost non-overlapping copies of `pat`,
      and the pieces put back together without them. */
  lemma {:induction false} RemoveAllSplits(s: string, pat: string)
    requires |pat| > 0
    ensures exists pieces :: LeftmostSplit(s, pat, pieces) && RemoveAll(s, pat) == Join(pieces, "")
    decreases |s|
  {
    if |s| < |pat| {
      var pieces := [s];
      assert pieces[0..] == pieces;
      assert LeftmostSplit(s, pat, pieces);
    } else if s[..|pat|] == pat {
      RemoveAllSplits(s[|pat|..], pat);
      var rest :| LeftmostSplit(s[|pat|..], pat, rest) && RemoveAll(s[|pat|..], pat) == Join(rest, "");
      SplitAtCopy(s, pat, rest);
    } else {
      RemoveAllSplits(s[1..], pat);
      var rest :| LeftmostSplit(s[1..], pat, rest) && RemoveAll(s[1..], pat) == Join(rest, "");
      SplitPastFirst(s, pat, rest);
    }
  }

  /** When `s` opens with `pat`, an empty first piece goes in front of the split of the rest. */
  lemma SplitAtCopy(s: string, pat: string, rest: seq<string>)
    requires 0 < |pat| <= |s| && s[..|pat|] == pat
    requires LeftmostSplit(s[|pat|..], pat, rest)
    ensures LeftmostSplit(s, pat, [""] + rest) && Join([""] + rest, "") == Join(rest, "")
  {
    var pieces := [""] + rest;
    JoinCons("", rest, pat);
    JoinCons("", rest, "");
    assert s == pat + s[|pat|..];
    forall k, i: nat | 0 <= k < |pieces| && i < |pieces[k]| ensures !OccursAt(Join(pieces[k..], pat), pat, i) {
      assert k > 0;
      assert pieces[k..] == rest[k - 1..] && pieces[k] == rest[k - 1];
    }
  }

  /** When `s` does not open with `pat`, its first character joins the first piece of the split of
      the rest. */
  lemma SplitPastFirst(s: string, pat: string, rest: seq<string>)
    requires 0 < |pat| <= |s| && s[..|pat|] != pat
    requires LeftmostSplit(s[1..], pat, rest)
    ensures LeftmostSplit(s, pat, [[s[0]] + rest[0]] + rest[1..])
    ensures Join([[s[0]] + rest[0]] + rest[1..], "") == [s[0]] + Join(rest, "")
  {
    var pieces := [[s[0]] + rest[0]] + rest[1..];
    JoinPrepend([s[0]], rest, pat);
    JoinPrepend([s[0]], rest, "");
    assert s == [s[0]] + s[1..];
    forall k, i: nat | 0 <= k < |pieces| && i < |pieces[k]| ensures !OccursAt(Join(pieces[k..], pat), pat, i) {
      if k == 0 {
        FirstPieceFree(s, pat, rest, i);
        assert pieces[0..] == pieces;
      } else {
        assert pieces[k..] == rest[k..] && pieces[k] == rest[k];
      }
    }
  }

  /** No copy of `pat` starts in `s` before the end of the first piece of `s[1..]`, shifted by one. */
  lemma FirstPieceFree(s: string, pat: string, rest: seq<string>, i: nat)
    requires 0 < |pat| <= |s| && s[..|pat|] != pat
    requires LeftmostSplit(s[1..], pat, rest)
    requires i < 1 + |rest[0]|
    ensures !OccursAt(s, pat, i)
  {
    if i > 0 {
      assert rest[0..] == rest;
      assert !OccursAt(s[1..], pat, i - 1);
      if i + |pat| <= |s| {
        assert s[1..][i - 1..i - 1 + |pat|] == s[i..i + |pat|];
      }
    }
  }

  /** Putting `c` in front of the first piece puts it in front of the whole join. */
  lemma JoinPrepend(c: string, parts: seq<string>, sep: string)
    requires |parts| >= 1
    ensures Join([c + parts[0]] + parts[1..], sep) == c + Join(parts, sep)
  {
    JoinCons(c + parts[0], parts[1..], sep);
    JoinCons(parts[0], parts[1..], sep);
    assert [parts[0]] + parts[1..] == parts;
  }

  const NotSubscriptableError: string := "TypeError: object is not subscriptable"
  const IndexError: string := "IndexError: list index out of range"
  const NoReplaceError: string := "AttributeError: object has no attribute 'replace'"

  /** `cypher_output.get("intermediate_steps", [{}])[0].get("query", "").replace("cypher", "").strip()`:
      the generated query, for the answer prompt. Each step of the chain can raise. */
  function CypherText(out: seq<Field>): (r: Attempt<string>)
    ensures "intermediate_steps" !in Keys(out) ==> r == Done("")
  {
    var steps := match Get(out, "intermediate_steps") case Some(v) => v case None => List([Dict([])]);
    if !steps.List? then Raised(NotSubscriptableError)
    else if |steps.items| == 0 then Raised(IndexError)
    else if !steps.items[0].Dict? then Raised(NoGetError)
    else
      match Get(steps.items[0].fields, "query")
      case None => Done(Strip(RemoveAll("", "cypher")))
      case Some(q) =>
        if q.Scalar? && q.isText then Done(Strip(RemoveAll(q.str, "cypher"))) else Raised(NoReplaceError)
  }

  /** The generated query of the first step, when it never spells "cypher", reaches the answer
      prompt stripped of surrounding whitespace and otherwise as it was. */
  lemma PlainQueryIsKept(out: seq<Field>, first: seq<Field>, rest: seq<Value>, q: Value)
    requires Get(out, "intermediate_steps") == Some(List([Dict(first)] + rest))
    requires Get(first, "query") == Some(q) && q.Scalar? && q.isText
    requires forall i: nat :: !OccursAt(q.str, "cypher", i)
    ensures CypherText(out) == Done(Strip(q.str))
  {
    assert ([Dict(first)] + rest)[0] == Dict(first);
  }

  // ---------------------------------------------------------------------------------------------
  // The turn
  // ---------------------------------------------------------------------------------------------

  /** What one yield hands the caller: a piece of text and the page of the drawn graph, if any. */
  datatype Chunk = Chunk(text: string, graph: Option<string>)

  /** A token stream of a language model: the tokens it produced, then the error it raised, if any. */
  datatype Stream = Stream(tokens: seq<string>, failure: Option<string>)

  /** One remembered exchange. */
  datatype Exchange = Exchange(input: string, output: string)

  /** The plan written to disk. */
  datatype CsvFile = CsvFile(path: string, rows: seq<seq<string>>)

  /** Everything outside the backend that one turn consults: the router's reply, the graph query's
      output, the uuid draws, the two answer streams (the design answer depends on the remembered
      exchanges), the clock's `%Y%m%d_%H%M%S` text, and the error writing the CSV file raised, if
      it raised. */
  datatype Services = Services(
    router: Attempt<string>,
    cypher: Attempt<seq<Field>>,
    uuids: nat -> Uuid,
    graphAnswer: Stream,
    design: seq<Exchange> -> Stream,
    timestamp: string,
    csvError: Option<string>)

  /** What a turn leaves behind: the chunks yielded, the memory, and the plan written, if one was. */
  datatype Outcome = Outcome(chunks: seq<Chunk>, memory: seq<Exchange>, csv: Option<CsvFile>)

  /** The conversation window the design prompt sees: the last 10 exchanges. */
  function Window(memory: seq<Exchange>): (w: seq<Exchange>)
    ensures |w| == if |memory| < 10 then |memory| else 10
    ensures w == memory[|memory| - |w|..]
  {
    if |memory| <= 10 then memory else memory[|memory| - 10..]
  }

  const ErrorPrefix: string := "Sorry, there was an error while processing your issue\U{ff1a}"
  const CsvFailedMessage: string := "\n\U{26a0}\U{fe0f} CSV generation failed."
  const NoTableMessage: string := "\n\U{26a0}\U{fe0f} No formatting compliant Markdown table detected, CSV not saved."

  function PlanPath(timestamp: string): string
  {
    "./plans/assembly_plan_" + timestamp + ".csv"
  }

  function SavedMessage(path: string): string
  {
    "\n\n\U{2705} **The assembly plan has been saved as a CSV file:** `" + path + "`"
  }

  /** The status messages the design branch may end with. */
  predicate IsStatus(msg: string, timestamp: string)
  {
    msg == SavedMessage(PlanPath(timestamp)) || msg == CsvFailedMessage || msg == NoTableMessage
  }

  /** Each token as a chunk, tagged with the graph page. */
  function Tagged(tokens: seq<string>, graph: Option<string>): (cs: seq<Chunk>)
    ensures |cs| == |tokens|
    ensures forall k :: 0 <= k < |tokens| ==> cs[k] == Chunk(tokens[k], graph)
  {
    seq(|tokens|, k requires 0 <= k < |tokens| => Chunk(tokens[k], graph))
  }

  /** The texts of a run of chunks, glued together. */
  function AllText(chunks: seq<Chunk>): string
  {
    Join(seq(|chunks|, k requires 0 <= k < |chunks| => chunks[k].text), "")
  }

  /** The turn after an exception: the chunks yielded so far, then the one error chunk, and the
      memory as it was. */
  function Failed(shown: seq<Chunk>, memory: seq<Exchange>, e: string): (o: Outcome)
    ensures o.memory == memory && o.csv == None
    ensures |o.chunks| == |shown| + 1 && o.chunks[..|shown|] == shown
    ensures o.chunks[|shown|] == Chunk(ErrorPrefix + e, None)
  {
    var o := Outcome(shown + [Chunk(ErrorPrefix + e, None)], memory, None);
    assert o.chunks[..|shown|] == shown;
    o
  }

  /** The status of the design answer's plan table: no table, a failed write, or a saved file. A
      table that cleans to no rows is still written, as an empty file, and reported saved. */
  function PlanStatus(answer: string, timestamp: string, csvError: Option<string>): (p: (string, Option<CsvFile>))
    ensures IsStatus(p.0, timestamp)
    ensures p.1.Some? <==> Extract(answer).Some? && |Extract(answer).value| > 0 && csvError.None?
    ensures p.1.Some? ==> p.0 == SavedMessage(PlanPath(timestamp))
                          && p.1.value == CsvFile(PlanPath(timestamp), Clean(Extract(answer).value))
    ensures p.0 == NoTableMessage <==> Extract(answer).None? || |Extract(answer).value| == 0
    ensures p.0 == CsvFailedMessage <==> Extract(answer).Some? && |Extract(answer).value| > 0 && csvError.Some?
  {
    match Extract(answer)
    case None => (NoTableMessage, None)
    case Some(table) =>
      if |table| == 0 then (NoTableMessage, None)
      else if csvError.Some? then (CsvFailedMessage, None)
      else (SavedMessage(PlanPath(timestamp)), Some(CsvFile(PlanPath(timestamp), Clean(table))))
  }

  /** The design branch once its stream has ended: an empty lead chunk, the design tokens, then the
      plan status, when the stream did not raise. */
  function DesignOutcome(question: string, memory: seq<Exchange>, stream: Stream, status: (string, Option<CsvFile>)): (o: Outcome)
    ensures |o.chunks| == |stream.tokens| + 2 && o.chunks[0] == Chunk("", None)
    ensures forall k :: 0 <= k < |o.chunks| ==> o.chunks[k].graph.None?
    ensures stream.failure.None? ==> o.chunks[|o.chunks| - 1] == Chunk(status.0, None) && o.csv == status.1
    ensures stream.failure.Some? ==> o.chunks[|o.chunks| - 1] == Chunk(ErrorPrefix + stream.failure.value, None)
                                     && o.csv == None && o.memory == memory
  {
    var shown := [Chunk("", None)] + Tagged(stream.tokens, None);
    match stream.failure
    case Some(e) => Failed(shown, memory, e)
    case None =>
      var answer := Join(stream.tokens, "");
      Outcome(shown + [Chunk(status.0, None)], memory + [Exchange(question, answer + status.0)], status.1)
  }

  /** The graph branch up to its page: run the query, read the generated query text off its output,
      then draw the records. Each step can raise. */
  function Drawing(s: Services): (r: Attempt<Page>)
    ensures r.Done? ==> s.cypher.Done? && CypherText(s.cypher.value).Done?
                        && Consistent(r.value.graph) && r.value.path == PagePath(s.uuids(r.value.graph.drawn))
    ensures s.cypher.Done? && CypherText(s.cypher.value).Done? ==> r == GraphPage(GraphData(s.cypher.value), s.uuids)
  {
    match s.cypher
    case Raised(e) => Raised(e)
    case Done(out) =>
      match CypherText(out)
      case Raised(e) => Raised(e)
      case Done(_) => GraphPage(GraphData(out), s.uuids)
  }

  /** The graph branch once drawn: an empty lead chunk and the answer tokens, each with the page of
      the drawn graph. */
  function GraphOutcome(question: string, memory: seq<Exchange>, drawing: Attempt<Page>, answer: Stream): (o: Outcome)
    ensures o.csv == None
    ensures drawing.Raised? ==> o.chunks == [Chunk(ErrorPrefix + drawing.error, None)] && o.memory == memory
    ensures drawing.Done? ==> && |o.chunks| == |answer.tokens| + (if answer.failure.Some? then 2 else 1)
                              && o.chunks[0] == Chunk("", Some(drawing.value.path))
  {
    match drawing
    case Raised(e) => Failed([], memory, e)
    case Done(page) =>
      var shown := [Chunk("", Some(page.path))] + Tagged(answer.tokens, Some(page.path));
      match answer.failure
      case Some(e) => Failed(shown, memory, e)
      case None => Outcome(shown, memory + [Exchange(question, Join(answer.tokens, ""))], None)
  }

  /** `smart_qa_system`: route, then take the graph branch or the design branch. The plan status is
      only looked at when the design stream ended without raising. */
  function Turn(question: string, memory: seq<Exchange>, s: Services): (o: Outcome)
    ensures |o.chunks| >= 1
    ensures s.router.Raised? ==> o == Failed([], memory, s.router.error)
    ensures o.csv.Some? ==> s.router.Done? && !TakesGraphBranch(s.router.value)
    ensures s.router.Done? && !TakesGraphBranch(s.router.value) ==> forall k :: 0 <= k < |o.chunks| ==> o.chunks[k].graph.None?
  {
    match s.router
    case Raised(e) => Failed([], memory, e)
    case Done(reply) =>
      if TakesGraphBranch(reply) then GraphOutcome(question, memory, Drawing(s), s.graphAnswer)
      else
        var stream := s.design(Window(memory));
        DesignOutcome(question, memory, stream, PlanStatus(Join(stream.tokens, ""), s.timestamp, s.csvError))
  }

  // ---------------------------------------------------------------------------------------------
  // What a turn promises
  // ---------------------------------------------------------------------------------------------

  lemma TurnOfDesign(question: string, memory: seq<Exchange>, s: Services)
    requires s.router.Done? && !TakesGraphBranch(s.router.value)
    ensures var stream := s.design(Window(memory));
            Turn(question, memory, s) == DesignOutcome(question, memory, stream, PlanStatus(Join(stream.tokens, ""), s.timestamp, s.csvError))
  {
  }

  lemma TurnOfGraph(question: string, memory: seq<Exchange>, s: Services)
    requires s.router.Done? && TakesGraphBranch(s.router.value)
    ensures Turn(question, memory, s) == GraphOutcome(question, memory, Drawing(s), s.graphAnswer)
  {
  }

  /** The exception, if any, that reaches the turn's handler: read off the services alone. */
  function Fault(memory: seq<Exchange>, s: Services): (f: Option<string>)
    ensures s.router.Raised? ==> f == Some(s.router.error)
    ensures f.None? <==> && s.router.Done?
                         && (TakesGraphBranch(s.router.value) ==> Drawing(s).Done? && s.graphAnswer.failure.None?)
                         && (!TakesGraphBranch(s.router.value) ==> s.design(Window(memory)).failure.None?)
  {
    if s.router.Raised? then Some(s.router.error)
    else if !TakesGraphBranch(s.router.value) then s.design(Window(memory)).failure
    else if Drawing(s).Raised? then Some(Drawing(s).error)
    else s.graphAnswer.failure
  }

  /** Memory is written exactly when no exception reached the handler, and what it records is the
      question and everything the turn showed, status message included. */
  lemma MemoryOnlyWithoutFault(question: string, memory: seq<Exchange>, s: Services)
    ensures Fault(memory, s).Some? ==> Turn(question, memory, s).memory == memory
    ensures Fault(memory, s).None? ==>
              Turn(question, memory, s).memory == memory + [Exchange(question, AllText(Turn(question, memory, s).chunks))]
  {
    if s.router.Done? {
      if TakesGraphBranch(s.router.value) {
        TurnOfGraph(question, memory, s);
        GraphOutcomeMemory(question, memory, Drawing(s), s.graphAnswer);
      } else {
        TurnOfDesign(question, memory, s);
        var stream := s.design(Window(memory));
        DesignOutcomeMemory(question, memory, stream, PlanStatus(Join(stream.tokens, ""), s.timestamp, s.csvError));
      }
    }
  }

  lemma DesignOutcomeMemory(question: string, memory: seq<Exchange>, stream: Stream, status: (string, Option<CsvFile>))
    ensures var o := DesignOutcome(question, memory, stream, status);
            && (stream.failure.Some? ==> o.memory == memory)
            && (stream.failure.None? ==> o.memory == memory + [Exchange(question, AllText(o.chunks))])
  {
    if stream.failure.None? {
      LeadAndTokensText(stream.tokens, None, [Chunk(status.0, None)]);
      assert AllText([Chunk(status.0, None)]) == status.0;
    }
  }

  lemma GraphOutcomeMemory(question: string, memory: seq<Exchange>, drawing: Attempt<Page>, answer: Stream)
    ensures var o := GraphOutcome(question, memory, drawing, answer);
            && (drawing.Raised? || answer.failure.Some? ==> o.memory == memory)
            && (drawing.Done? && answer.failure.None? ==> o.memory == memory + [Exchange(question, AllText(o.chunks))])
  {
    if drawing.Done? && answer.failure.None? {
      LeadAndTokensText(answer.tokens, Some(drawing.value.path), []);
      var shown := [Chunk("", Some(drawing.value.path))] + Tagged(answer.tokens, Some(drawing.value.path));
      assert shown + [] == shown;
      assert AllText([]) == "" by { assert Join([], "") == ""; }
      assert Join(answer.tokens, "") + "" == Join(answer.tokens, "");
    }
  }

  /** The text of the lead chunk, the token chunks and a tail is the tokens' text and the tail's. */
  lemma LeadAndTokensText(tokens: seq<string>, graph: Option<string>, tail: seq<Chunk>)
    ensures AllText([Chunk("", graph)] + Tagged(tokens, graph) + tail) == Join(tokens, "") + AllText(tail)
  {
    var cs := [Chunk("", graph)] + Tagged(tokens, graph) + tail;
    var texts := seq(|cs|, k requires 0 <= k < |cs| => cs[k].text);
    var tailTexts := seq(|tail|, k requires 0 <= k < |tail| => tail[k].text);
    assert texts == [""] + tokens + tailTexts;
    JoinGlue([""] + tokens, tailTexts);
    JoinGlue([""], tokens);
  }

  /** When an exception reaches the handler, the turn ends with exactly one error chunk carrying its
      text, after the chunks already yielded: none when routing, the query or the drawing raised,
      the lead chunk and the tokens when an answer stream raised. No status chunk and no plan file
      follow. */
  lemma FaultEndsWithOneErrorChunk(question: string, memory: seq<Exchange>, s: Services)
    requires Fault(memory, s).Some?
    ensures var o := Turn(question, memory, s);
            && |o.chunks| >= 1 && o.chunks[|o.chunks| - 1] == Chunk(ErrorPrefix + Fault(memory, s).value, None)
            && o.csv == None
            && (o.chunks[..|o.chunks| - 1] == []
                || o.chunks[..|o.chunks| - 1] == [Chunk("", o.chunks[0].graph)] + Tagged(Streamed(memory, s), o.chunks[0].graph))
  {
    if s.router.Done? {
      if TakesGraphBranch(s.router.value) {
        TurnOfGraph(question, memory, s);
        GraphOutcomeFault(question, memory, Drawing(s), s.graphAnswer);
      } else {
        TurnOfDesign(question, memory, s);
        var stream := s.design(Window(memory));
        DesignOutcomeFault(question, memory, stream, PlanStatus(Join(stream.tokens, ""), s.timestamp, s.csvError));
      }
    }
  }

  lemma DesignOutcomeFault(question: string, memory: seq<Exchange>, stream: Stream, status: (string, Option<CsvFile>))
    requires stream.failure.Some?
    ensures var o := DesignOutcome(question, memory, stream, status);
            && o.chunks == [Chunk("", None)] + Tagged(stream.tokens, None) + [Chunk(ErrorPrefix + stream.failure.value, None)]
            && o.csv == None
  {
  }

  lemma GraphOutcomeFault(question: string, memory: seq<Exchange>, drawing: Attempt<Page>, answer: Stream)
    requires drawing.Raised? || answer.failure.Some?
    ensures var o := GraphOutcome(question, memory, drawing, answer);
            && (drawing.Raised? ==> o.chunks == [Chunk(ErrorPrefix + drawing.error, None)])
            && (drawing.Done? ==> o.chunks == [Chunk("", Some(drawing.value.path))] + Tagged(answer.tokens, Some(drawing.value.path))
                                                + [Chunk(ErrorPrefix + answer.failure.value, None)])
            && o.csv == None
  {
  }

  /** The tokens the branch taken streamed before it raised or finished. */
  function Streamed(memory: seq<Exchange>, s: Services): seq<string>
    requires s.router.Done?
  {
    if TakesGraphBranch(s.router.value) then s.graphAnswer.tokens else s.design(Window(memory)).tokens
  }

  /** A design turn that does not raise yields the empty lead chunk, one chunk per design token, and
      then exactly one status chunk, one of the three fixed messages; no chunk carries a graph page. */
  lemma DesignEndsWithOneStatus(question: string, memory: seq<Exchange>, s: Services)
    requires s.router.Done? && !TakesGraphBranch(s.router.value)
    requires s.design(Window(memory)).failure.None?
    ensures var o := Turn(question, memory, s);
            var tokens := s.design(Window(memory)).tokens;
            && |o.chunks| == |tokens| + 2
            && o.chunks[0] == Chunk("", None)
            && (forall k :: 0 <= k < |tokens| ==> o.chunks[k + 1] == Chunk(tokens[k], None))
            && IsStatus(o.chunks[|tokens| + 1].text, s.timestamp)
            && (forall k :: 0 <= k < |o.chunks| ==> o.chunks[k].graph.None?)
  {
    TurnOfDesign(question, memory, s);
    var stream := s.design(Window(memory));
    var status := PlanStatus(Join(stream.tokens, ""), s.timestamp, s.csvError);
    assert IsStatus(status.0, s.timestamp);
    DesignOutcomeDone(question, memory, stream, status);
  }

  lemma DesignOutcomeDone(question: string, memory: seq<Exchange>, stream: Stream, status: (string, Option<CsvFile>))
    requires stream.failure.None?
    ensures var o := DesignOutcome(question, memory, stream, status);
            && |o.chunks| == |stream.tokens| + 2
            && o.chunks[0] == Chunk("", None)
            && (forall k :: 0 <= k < |stream.tokens| ==> o.chunks[k + 1] == Chunk(stream.tokens[k], None))
            && o.chunks[|stream.tokens| + 1] == Chunk(status.0, None)
            && (forall k :: 0 <= k < |o.chunks| ==> o.chunks[k].graph.None?)
  {
    var shown := [Chunk("", None)] + Tagged(stream.tokens, None);
    var o := DesignOutcome(question, memory, stream, status);
    assert o.chunks == shown + [Chunk(status.0, None)];
    forall k | 0 <= k < |stream.tokens| ensures o.chunks[k + 1] == Chunk(stream.tokens[k], None) {
      assert o.chunks[k + 1] == shown[k + 1];
    }
  }

  /** A graph turn that does not raise yields the empty lead chunk and one chunk per answer token,
      every one carrying the same page, the one the drawing was saved under; it writes no plan. */
  lemma GraphChunksShareOnePage(question: string, memory: seq<Exchange>, s: Services)
    requires s.router.Done? && TakesGraphBranch(s.router.value)
    requires Fault(memory, s).None?
    ensures var o := Turn(question, memory, s);
            var page := GraphPage(GraphData(s.cypher.value), s.uuids).value;
            && |o.chunks| == |s.graphAnswer.tokens| + 1
            && o.chunks[0].text == ""
            && (forall k :: 0 <= k < |s.graphAnswer.tokens| ==> o.chunks[k + 1].text == s.graphAnswer.tokens[k])
            && (forall k :: 0 <= k < |o.chunks| ==> o.chunks[k].graph == Some(page.path))
            && page.path == PagePath(s.uuids(page.graph.drawn))
            && o.csv == None
  {
    TurnOfGraph(question, memory, s);
    var page := Drawing(s).value;
    assert page == GraphPage(GraphData(s.cypher.value), s.uuids).value;
    GraphOutcomeDone(question, memory, page, s.graphAnswer);
  }

  lemma GraphOutcomeDone(question: string, memory: seq<Exchange>, page: Page, answer: Stream)
    requires answer.failure.None?
    ensures var o := GraphOutcome(question, memory, Done(page), answer);
            && |o.chunks| == |answer.tokens| + 1
            && o.chunks[0].text == ""
            && (forall k :: 0 <= k < |answer.tokens| ==> o.chunks[k + 1].text == answer.tokens[k])
            && (forall k :: 0 <= k < |o.chunks| ==> o.chunks[k].graph == Some(page.path))
            && o.csv == None
  {
  }

  /** A design answer whose plan table cleans to no rows is still written, as a file with no rows,
      and reported saved. */
  lemma EmptyPlanReportedSaved(answer: string, timestamp: string)
    requires Extract(answer).Some? && |Extract(answer).value| > 0
    requires Clean(Extract(answer).value) == []
    ensures PlanStatus(answer, timestamp, None) == (SavedMessage(PlanPath(timestamp)), Some(CsvFile(PlanPath(timestamp), [])))
  {
  }
}
