/**
 * The graph drawing of a query result: `add_node_if_absent`, the four shape handlers
 * `process_format_a` .. `process_format_d`, and the dispatch of `generate_graph_html`. The pyvis
 * network is kept abstractly as its node list and edge list, together with the `node_records` ids
 * and the number of `uuid.uuid4()` values drawn so far; the i-th value drawn is `uuids(i)`.
 */
module GraphBuild {
  import opened Outcomes
  import opened Text
  import opened Records

  /** Colours and shapes the handlers give the nodes and edges. */
  const SourceColor: string := "#97c2fc"
  const TargetColor: string := "#fc9797"
  const EdgeColor: string := "#666666"
  const BoxShape: string := "box"
  const DiamondShape: string := "diamond"

  /** Error texts of the exceptions a handler can raise on a malformed result. */
  const NoGetError: string := "AttributeError: object has no attribute 'get'"
  const NotIterableError: string := "TypeError: object is not iterable"

  datatype Node = Node(id: string, caption: Label, color: string, shape: string)

  /** An edge; `caption` is None when the handler passes no label at all. */
  datatype Edge = Edge(source: string, target: string, caption: Option<string>, color: string)

  /** The network being drawn, the ids recorded in `node_records`, and the uuid draws so far. */
  datatype Graph = Graph(nodes: seq<Node>, edges: seq<Edge>, recorded: set<string>, drawn: nat)

  /** A drawn `uuid.uuid4()`: its `str` (hyphenated) and its `.hex` (32 hex digits). */
  datatype Uuid = Uuid(text: string, hex: string)

  const EmptyGraph: Graph := Graph([], [], {}, 0)

  function NodeIds(nodes: seq<Node>): set<string>
  {
    set i | 0 <= i < |nodes| :: nodes[i].id
  }

  predicate DistinctIds(nodes: seq<Node>)
  {
    forall i, j :: 0 <= i < j < |nodes| ==> nodes[i].id != nodes[j].id
  }

  /** The invariant of the drawing: `node_records` holds exactly the drawn node ids, no id is drawn
      twice, and every edge joins two drawn nodes. */
  predicate Consistent(g: Graph)
  {
    && g.recorded == NodeIds(g.nodes)
    && DistinctIds(g.nodes)
    && forall k :: 0 <= k < |g.edges| ==> g.edges[k].source in g.recorded && g.edges[k].target in g.recorded
  }

  /** `h` extends `g`: nodes and edges are only appended, records only added, draws only made. */
  predicate Extends(h: Graph, g: Graph)
  {
    && |g.nodes| <= |h.nodes| && h.nodes[..|g.nodes|] == g.nodes
    && |g.edges| <= |h.edges| && h.edges[..|g.edges|] == g.edges
    && g.recorded <= h.recorded
    && g.drawn <= h.drawn
  }

  lemma ExtendsTransitive(a: Graph, b: Graph, c: Graph)
    requires Extends(b, a) && Extends(c, b)
    ensures Extends(c, a)
  {
    assert c.nodes[..|a.nodes|] == c.nodes[..|b.nodes|][..|a.nodes|];
    assert c.edges[..|a.edges|] == c.edges[..|b.edges|][..|a.edges|];
  }

  /** The label pyvis shows: the label given when it is truthy, otherwise the node id. */
  function ShownLabel(caption: Option<Label>, id: string): (l: Label)
    ensures l == Text(id) || (caption.Some? && l == caption.value && LabelTruthy(l))
    ensures caption.Some? && LabelTruthy(caption.value) ==> l == caption.value
    ensures !(caption.Some? && LabelTruthy(caption.value)) ==> l == Text(id)
  {
    if caption.Some? && LabelTruthy(caption.value) then caption.value else Text(id)
  }

  /** `add_node_if_absent`: draw a node for `id` unless `node_records` already has it. */
  function AddNodeIfAbsent(g: Graph, id: string, caption: Option<Label>, color: string, shape: string): (h: Graph)
    ensures Extends(h, g) && h.edges == g.edges && h.drawn == g.drawn
    ensures h.recorded == g.recorded + {id}
    ensures id in g.recorded ==> h == g
    ensures id !in g.recorded ==> h.nodes == g.nodes + [Node(id, ShownLabel(caption, id), color, shape)]
  {
    if id in g.recorded then g
    else
      var h := Graph(g.nodes + [Node(id, ShownLabel(caption, id), color, shape)], g.edges, g.recorded + {id}, g.drawn);
      assert h.nodes[..|g.nodes|] == g.nodes;
      h
  }

  /** Adding a node keeps the drawing consistent, and the first node drawn for an id stays the node
      for that id: a later call with other label, colour or shape changes nothing. */
  lemma AddNodeKeepsConsistent(g: Graph, id: string, caption: Option<Label>, color: string, shape: string)
    requires Consistent(g)
    ensures Consistent(AddNodeIfAbsent(g, id, caption, color, shape))
    ensures id in NodeIds(AddNodeIfAbsent(g, id, caption, color, shape).nodes)
    ensures forall i :: 0 <= i < |g.nodes| ==> AddNodeIfAbsent(g, id, caption, color, shape).nodes[i] == g.nodes[i]
  {
    var h := AddNodeIfAbsent(g, id, caption, color, shape);
    if id !in g.recorded {
      assert h.nodes[|g.nodes|].id == id;
      assert NodeIds(h.nodes) == NodeIds(g.nodes) + {id} by {
        forall x | x in NodeIds(h.nodes) ensures x in NodeIds(g.nodes) + {id} {
          var i :| 0 <= i < |h.nodes| && h.nodes[i].id == x;
          if i < |g.nodes| { assert h.nodes[i] == g.nodes[i]; }
        }
        forall x | x in NodeIds(g.nodes) ensures x in NodeIds(h.nodes) {
          var i :| 0 <= i < |g.nodes| && g.nodes[i].id == x;
          assert h.nodes[i] == g.nodes[i];
        }
      }
      assert DistinctIds(h.nodes) by {
        forall i, j | 0 <= i < j < |h.nodes| ensures h.nodes[i].id != h.nodes[j].id {
          assert h.nodes[i] == g.nodes[i];
          if j < |g.nodes| {
            assert h.nodes[j] == g.nodes[j];
          } else {
            assert g.nodes[i].id in NodeIds(g.nodes);
          }
        }
      }
    }
  }

  /** `net.add_edge`: pyvis refuses an edge whose ends are not drawn, which the handlers never ask
      for. A directed network keeps every edge added, parallel ones included. */
  function AddEdge(g: Graph, source: string, target: string, caption: Option<string>): (h: Graph)
    requires source in g.recorded && target in g.recorded
    ensures Extends(h, g) && h.nodes == g.nodes && h.recorded == g.recorded && h.drawn == g.drawn
    ensures h.edges == g.edges + [Edge(source, target, caption, EdgeColor)]
    ensures Consistent(g) ==> Consistent(h)
  {
    var h := Graph(g.nodes, g.edges + [Edge(source, target, caption, EdgeColor)], g.recorded, g.drawn);
    assert h.edges[..|g.edges|] == g.edges;
    h
  }

  /** One `uuid.uuid4()` draw, turned into its `str`. */
  function Draw(g: Graph, uuids: nat -> Uuid): (p: (string, Graph))
    ensures p.0 == uuids(g.drawn).text && p.1 == g.(drawn := g.drawn + 1)
  {
    (uuids(g.drawn).text, g.(drawn := g.drawn + 1))
  }

  lemma DrawExtends(g: Graph, uuids: nat -> Uuid)
    ensures Extends(Draw(g, uuids).1, g)
    ensures Consistent(g) ==> Consistent(Draw(g, uuids).1)
  {
    var h := Draw(g, uuids).1;
    assert h.nodes[..|g.nodes|] == g.nodes;
    assert h.edges[..|g.edges|] == g.edges;
  }

  // ---------------------------------------------------------------------------------------------
  // Format A: every dict value of every dict record is a node, named by its "name" field or a uuid.
  // ---------------------------------------------------------------------------------------------

  /** One dict value of format A: the uuid default is drawn whether or not the record has a name. */
  function NamedNode(g: Graph, fs: seq<Field>, uuids: nat -> Uuid): (h: Graph)
    ensures Extends(h, g) && h.edges == g.edges && h.drawn == g.drawn + 1
    ensures h.recorded == g.recorded + {ShowOr(fs, "name", uuids(g.drawn).text)}
    ensures Consistent(g) ==> Consistent(h)
  {
    var (drawnId, g1) := Draw(g, uuids);
    DrawExtends(g, uuids);
    var id := ShowOr(fs, "name", drawnId);
    var h := AddNodeIfAbsent(g1, id, Some(AttributeLabel(fs)), SourceColor, BoxShape);
    assert Consistent(g1) ==> Consistent(h) by {
      if Consistent(g1) { AddNodeKeepsConsistent(g1, id, Some(AttributeLabel(fs)), SourceColor, BoxShape); }
    }
    ExtendsTransitive(g, g1, h);
    h
  }

  /** The ids in a sequence, as a set. */
  function Elems(ids: seq<string>): set<string>
  {
    set x | x in ids
  }

  /** The node ids format A records for the fields of one record from `from` on, in walk order,
      read off the fields and the uuid sequence alone: one id per dict value, its "name" or else the
      uuid drawn `at + k`-th for the k-th dict value. Since every dict value draws one uuid, the
      length is also the number of draws. */
  function ValueIds(fs: seq<Field>, uuids: nat -> Uuid, at: nat, from: nat): (ids: seq<string>)
    requires from <= |fs|
    decreases |fs| - from
  {
    if from == |fs| then []
    else
      var here := if fs[from].value.Dict? then [ShowOr(fs[from].value.fields, "name", uuids(at).text)] else [];
      here + ValueIds(fs, uuids, at + |here|, from + 1)
  }

  /** The node ids format A records for the records from `from` on: those of each dict record's
      fields, one after the other; a record that is not a dict gives none. */
  function RecordIds(items: seq<Value>, uuids: nat -> Uuid, at: nat, from: nat): (ids: seq<string>)
    requires from <= |items|
    decreases |items| - from
  {
    if from == |items| then []
    else
      var here := RecordIdsAt(items, uuids, at, from);
      here + RecordIds(items, uuids, at + |here|, from + 1)
  }

  /** The node ids of the one record at `from`. */
  function RecordIdsAt(items: seq<Value>, uuids: nat -> Uuid, at: nat, from: nat): (ids: seq<string>)
    requires from < |items|
  {
    if items[from].Dict? then ValueIds(items[from].fields, uuids, at, 0) else []
  }

  /** The dict values of one record, from field `from` on: each one draws a uuid and records the id
      `ValueIds` names for it. */
  function ValueNodes(g: Graph, fs: seq<Field>, uuids: nat -> Uuid, from: nat): (h: Graph)
    requires from <= |fs|
    ensures Extends(h, g) && h.edges == g.edges
    ensures Consistent(g) ==> Consistent(h)
    ensures h.drawn == g.drawn + |ValueIds(fs, uuids, g.drawn, from)|
    ensures h.recorded == g.recorded + Elems(ValueIds(fs, uuids, g.drawn, from))
    decreases |fs| - from
  {
    if from == |fs| then
      assert g.nodes[..|g.nodes|] == g.nodes && g.edges[..|g.edges|] == g.edges;
      assert Elems([]) == {};
      g
    else if fs[from].value.Dict? then
      var g1 := NamedNode(g, fs[from].value.fields, uuids);
      var h := ValueNodes(g1, fs, uuids, from + 1);
      ExtendsTransitive(g, g1, h);
      var id := ShowOr(fs[from].value.fields, "name", uuids(g.drawn).text);
      var rest := ValueIds(fs, uuids, g1.drawn, from + 1);
      assert ValueIds(fs, uuids, g.drawn, from) == [id] + rest;
      ElemsAppend([id], rest);
      assert Elems([id]) == {id};
      h
    else
      assert ValueIds(fs, uuids, g.drawn, from) == ValueIds(fs, uuids, g.drawn, from + 1);
      ValueNodes(g, fs, uuids, from + 1)
  }

  /** The records of a list, from position `from` on; records that are not dicts are passed over.
      Together they draw one uuid and record one id per dict value, as `RecordIds` names them. */
  function RecordNodes(g: Graph, items: seq<Value>, uuids: nat -> Uuid, from: nat): (h: Graph)
    requires from <= |items|
    ensures Extends(h, g) && h.edges == g.edges
    ensures Consistent(g) ==> Consistent(h)
    ensures h.drawn == g.drawn + |RecordIds(items, uuids, g.drawn, from)|
    ensures h.recorded == g.recorded + Elems(RecordIds(items, uuids, g.drawn, from))
    decreases |items| - from
  {
    if from == |items| then
      assert g.nodes[..|g.nodes|] == g.nodes && g.edges[..|g.edges|] == g.edges;
      assert Elems([]) == {};
      g
    else
      var g1 := RecordStep(g, items, uuids, from);
      var h := RecordNodes(g1, items, uuids, from + 1);
      ExtendsTransitive(g, g1, h);
      var here := RecordIdsAt(items, uuids, g.drawn, from);
      var rest := RecordIds(items, uuids, g1.drawn, from + 1);
      assert g1.drawn == g.drawn + |here|;
      assert RecordIds(items, uuids, g.drawn, from) == here + rest;
      ElemsAppend(here, rest);
      h
  }

  /** The record at `from`, when it is a dict: its values' nodes. */
  function RecordStep(g: Graph, items: seq<Value>, uuids: nat -> Uuid, from: nat): (h: Graph)
    requires from < |items|
    ensures Extends(h, g) && h.edges == g.edges
    ensures Consistent(g) ==> Consistent(h)
    ensures h.drawn == g.drawn + |RecordIdsAt(items, uuids, g.drawn, from)|
    ensures h.recorded == g.recorded + Elems(RecordIdsAt(items, uuids, g.drawn, from))
  {
    if items[from].Dict? then ValueNodes(g, items[from].fields, uuids, 0)
    else
      assert g.nodes[..|g.nodes|] == g.nodes && g.edges[..|g.edges|] == g.edges;
      g
  }

  lemma ElemsAppend(a: seq<string>, b: seq<string>)
    ensures Elems(a + b) == Elems(a) + Elems(b)
  {
  }

  /** `process_format_a`: a list is walked record by record; iterating a dict gives its keys and
      iterating a string its characters, neither of which is a dict; any other scalar cannot be
      iterated and raises. Format A never draws an edge. */
  function ProcessA(g: Graph, data: Value, uuids: nat -> Uuid): (r: Attempt<Graph>)
    ensures r.Raised? <==> data.Scalar? && !data.isText
    ensures r.Done? ==> Extends(r.value, g) && r.value.edges == g.edges
    ensures r.Done? && Consistent(g) ==> Consistent(r.value)
    ensures r.Done? && !data.List? ==> r.value == g
    ensures data.List? ==> && r.value.drawn == g.drawn + |RecordIds(data.items, uuids, g.drawn, 0)|
                           && r.value.recorded == g.recorded + Elems(RecordIds(data.items, uuids, g.drawn, 0))
  {
    match data
    case Scalar(_, _, _, isText) =>
      if isText then
        assert g.nodes[..|g.nodes|] == g.nodes && g.edges[..|g.edges|] == g.edges;
        Done(g)
      else Raised(NotIterableError)
    case Dict(_) =>
      assert g.nodes[..|g.nodes|] == g.nodes && g.edges[..|g.edges|] == g.edges;
      Done(g)
    case List(items) => Done(RecordNodes(g, items, uuids, 0))
  }

  // ---------------------------------------------------------------------------------------------
  // Format B: the first two fields of the first record name the two ends of an edge.
  // ---------------------------------------------------------------------------------------------

  /** The ends of a run of edges. */
  function Ends(es: seq<Edge>): (ids: set<string>)
    ensures forall k :: 0 <= k < |es| ==> es[k].source in ids && es[k].target in ids
    ensures forall x :: x in ids ==> exists k :: 0 <= k < |es| && (x == es[k].source || x == es[k].target)
  {
    if |es| == 0 then {}
    else
      var rest := Ends(es[1..]);
      assert forall k :: 1 <= k < |es| ==> es[k] == es[1..][k - 1];
      {es[0].source, es[0].target} + rest
  }

  lemma ConcatAssoc<T>(a: seq<T>, b: seq<T>, c: seq<T>)
    ensures a + b + c == a + (b + c)
  {
  }

  lemma {:induction false} EndsAppend(a: seq<Edge>, b: seq<Edge>)
    ensures Ends(a + b) == Ends(a) + Ends(b)
    decreases |a|
  {
    if |a| > 0 {
      assert (a + b)[1..] == a[1..] + b;
      EndsAppend(a[1..], b);
    } else {
      assert a + b == b;
    }
  }

  // ---------------------------------------------------------------------------------------------
  // Formats B and D: two fields of each record name the two ends of an edge; in format D a third
  // field labels it. They differ only in the label and in the colour of the second end.
  // ---------------------------------------------------------------------------------------------

  /** The label an edge of a pair format carries: none in format B, the third field's text in D. */
  function PairLabel(item: Value, rel: Option<string>): Option<string>
    requires item.Dict?
  {
    if rel.Some? then Some(ShowOr(item.fields, rel.value, "")) else None
  }

  /** The edge one record asks for: none unless it is a dict whose two end fields both render
      non-empty. */
  function PairEdge(item: Value, f1: string, f2: string, rel: Option<string>): (es: seq<Edge>)
    ensures |es| <= 1
    ensures |es| == 1 <==> item.Dict? && ShowOr(item.fields, f1, "") != "" && ShowOr(item.fields, f2, "") != ""
  {
    if item.Dict? && ShowOr(item.fields, f1, "") != "" && ShowOr(item.fields, f2, "") != "" then
      [Edge(ShowOr(item.fields, f1, ""), ShowOr(item.fields, f2, ""), PairLabel(item, rel), EdgeColor)]
    else []
  }

  /** One record of a pair format: both ends are drawn as boxes and then joined. A record that is
      not a dict has no `get` and raises. */
  function StepPair(g: Graph, item: Value, f1: string, f2: string, rel: Option<string>, targetColor: string): (r: Attempt<Graph>)
    ensures r.Raised? <==> !item.Dict?
    ensures r.Done? ==> Extends(r.value, g) && r.value.drawn == g.drawn
    ensures r.Done? ==> r.value.edges == g.edges + PairEdge(item, f1, f2, rel)
                        && r.value.recorded == g.recorded + Ends(PairEdge(item, f1, f2, rel))
    ensures r.Done? && Consistent(g) ==> Consistent(r.value)
  {
    if !item.Dict? then Raised(NoGetError)
    else
      var n1 := ShowOr(item.fields, f1, "");
      var n2 := ShowOr(item.fields, f2, "");
      if n1 != "" && n2 != "" then
        var g1 := AddNodeIfAbsent(g, n1, None, SourceColor, BoxShape);
        var g2 := AddNodeIfAbsent(g1, n2, None, targetColor, BoxShape);
        var h := AddEdge(g2, n1, n2, PairLabel(item, rel));
        assert Consistent(g) ==> Consistent(g2) by {
          if Consistent(g) {
            AddNodeKeepsConsistent(g, n1, None, SourceColor, BoxShape);
            AddNodeKeepsConsistent(g1, n2, None, targetColor, BoxShape);
          }
        }
        ExtendsTransitive(g, g1, g2);
        ExtendsTransitive(g, g2, h);
        assert Ends(PairEdge(item, f1, f2, rel)) == {n1, n2};
        Done(h)
      else
        assert g.nodes[..|g.nodes|] == g.nodes && g.edges[..|g.edges|] == g.edges;
        assert g.edges + [] == g.edges;
        Done(g)
  }

  /** The loop of a pair format over the records from position `from` on. */
  function ItemsPair(g: Graph, items: seq<Value>, f1: string, f2: string, rel: Option<string>, targetColor: string, from: nat): (r: Attempt<Graph>)
    requires from <= |items|
    ensures r.Raised? <==> exists j :: from <= j < |items| && !items[j].Dict?
    ensures r.Done? ==> Extends(r.value, g) && r.value.drawn == g.drawn
    ensures r.Done? && Consistent(g) ==> Consistent(r.value)
    decreases |items| - from
  {
    if from == |items| then
      assert g.nodes[..|g.nodes|] == g.nodes && g.edges[..|g.edges|] == g.edges;
      Done(g)
    else
      match StepPair(g, items[from], f1, f2, rel, targetColor)
      case Raised(e) => Raised(e)
      case Done(g1) =>
        var r := ItemsPair(g1, items, f1, f2, rel, targetColor, from + 1);
        assert r.Done? ==> Extends(r.value, g) by {
          if r.Done? { ExtendsTransitive(g, g1, r.value); }
        }
        r
  }

  /** `process_format_b`: the first two keys of the first record name the two ends; the edges carry
      no label. */
  function ProcessB(g: Graph, items: seq<Value>): (r: Attempt<Graph>)
    ensures r.Raised? ==> |items| > 0 && items[0].Dict? && |items[0].fields| >= 2
    ensures r.Done? ==> Extends(r.value, g) && r.value.drawn == g.drawn
    ensures r.Done? && Consistent(g) ==> Consistent(r.value)
  {
    if |items| == 0 || !items[0].Dict? || |items[0].fields| < 2 then
      assert g.nodes[..|g.nodes|] == g.nodes && g.edges[..|g.edges|] == g.edges;
      Done(g)
    else
      var keys := Keys(items[0].fields);
      ItemsPair(g, items, keys[0], keys[1], None, TargetColor, 0)
  }

  /** `process_format_d`: the first three keys of the first record name the two ends and the
      edge label; both ends get the default colour. */
  function ProcessD(g: Graph, items: seq<Value>): (r: Attempt<Graph>)
    ensures r.Raised? ==> |items| > 0 && items[0].Dict? && |items[0].fields| >= 3
    ensures r.Done? ==> Extends(r.value, g) && r.value.drawn == g.drawn
    ensures r.Done? && Consistent(g) ==> Consistent(r.value)
  {
    if |items| == 0 || !items[0].Dict? || |items[0].fields| < 3 then
      assert g.nodes[..|g.nodes|] == g.nodes && g.edges[..|g.edges|] == g.edges;
      Done(g)
    else
      var keys := Keys(items[0].fields);
      ItemsPair(g, items, keys[0], keys[1], Some(keys[2]), SourceColor, 0)
  }

  /** The edges a pair format draws for records `from` on, read off the records alone: one per dict
      record whose two end fields both render non-empty, in record order. */
  function PairEdges(items: seq<Value>, f1: string, f2: string, rel: Option<string>, from: nat): seq<Edge>
    requires from <= |items|
    decreases |items| - from
  {
    if from == |items| then [] else PairEdge(items[from], f1, f2, rel) + PairEdges(items, f1, f2, rel, from + 1)
  }

  /** A pair format draws exactly the edges `PairEdges` reads off the records, after the ones already
      drawn. */
  lemma {:induction false} ItemsPairDrawsPairEdges(g: Graph, items: seq<Value>, f1: string, f2: string, rel: Option<string>, targetColor: string, from: nat)
    requires from <= |items|
    requires ItemsPair(g, items, f1, f2, rel, targetColor, from).Done?
    ensures ItemsPair(g, items, f1, f2, rel, targetColor, from).value.edges == g.edges + PairEdges(items, f1, f2, rel, from)
    decreases |items| - from
  {
    if from < |items| {
      var step := StepPair(g, items[from], f1, f2, rel, targetColor);
      assert step.Done?;
      var g1 := step.value;
      var here := PairEdge(items[from], f1, f2, rel);
      var rest := PairEdges(items, f1, f2, rel, from + 1);
      assert g1.edges == g.edges + here;
      assert ItemsPair(g, items, f1, f2, rel, targetColor, from) == ItemsPair(g1, items, f1, f2, rel, targetColor, from + 1);
      ItemsPairDrawsPairEdges(g1, items, f1, f2, rel, targetColor, from + 1);
      assert PairEdges(items, f1, f2, rel, from) == here + rest;
      ConcatAssoc(g.edges, here, rest);
      assert ItemsPair(g1, items, f1, f2, rel, targetColor, from + 1).value.edges == g.edges + here + rest;
    } else {
      assert g.edges + [] == g.edges;
    }
  }

  /** The node ids a pair format ends with are those it started with plus the ends of the edges
      `PairEdges` reads off the records: no record adds a node without an edge. */
  lemma {:induction false} ItemsPairRecordsEnds(g: Graph, items: seq<Value>, f1: string, f2: string, rel: Option<string>, targetColor: string, from: nat)
    requires from <= |items|
    requires ItemsPair(g, items, f1, f2, rel, targetColor, from).Done?
    ensures ItemsPair(g, items, f1, f2, rel, targetColor, from).value.recorded == g.recorded + Ends(PairEdges(items, f1, f2, rel, from))
    decreases |items| - from
  {
    if from < |items| {
      var step := StepPair(g, items[from], f1, f2, rel, targetColor);
      assert step.Done?;
      var g1 := step.value;
      var here := PairEdge(items[from], f1, f2, rel);
      var rest := PairEdges(items, f1, f2, rel, from + 1);
      assert g1.recorded == g.recorded + Ends(here);
      assert ItemsPair(g, items, f1, f2, rel, targetColor, from) == ItemsPair(g1, items, f1, f2, rel, targetColor, from + 1);
      ItemsPairRecordsEnds(g1, items, f1, f2, rel, targetColor, from + 1);
      EndsAppend(here, rest);
      assert PairEdges(items, f1, f2, rel, from) == here + rest;
    } else {
      assert Ends([]) == {};
    }
  }

  // ---------------------------------------------------------------------------------------------
  // Format C: the one dict-valued field of each record is a node, the next field the other end of
  // an edge, and the field after that the edge label.
  // ---------------------------------------------------------------------------------------------

  /** The first key of a record whose value is a dict. */
  function FirstDictKey(fs: seq<Field>, from: nat): (r: Option<string>)
    requires from <= |fs|
    ensures r.None? <==> forall j :: from <= j < |fs| ==> !fs[j].value.Dict?
    ensures r.Some? ==> exists i :: from <= i < |fs| && fs[i].key.name == r.value && fs[i].value.Dict?
                                   && forall j :: from <= j < i ==> !fs[j].value.Dict?
    decreases |fs| - from
  {
    if from == |fs| then None
    else if fs[from].value.Dict? then Some(fs[from].key.name)
    else FirstDictKey(fs, from + 1)
  }

  /** The first of `ks` that differs from `x`. */
  function FirstOtherThan(ks: seq<string>, x: string): (r: Option<string>)
    ensures r.None? <==> forall j :: 0 <= j < |ks| ==> ks[j] == x
    ensures r.Some? ==> r.value != x && r.value in ks
    ensures r.Some? ==> exists i :: 0 <= i < |ks| && ks[i] == r.value && forall j :: 0 <= j < i ==> ks[j] == x
  {
    if |ks| == 0 then None
    else if ks[0] != x then Some(ks[0])
    else
      var r := FirstOtherThan(ks[1..], x);
      assert forall j :: 1 <= j < |ks| ==> ks[j] == ks[1..][j - 1];
      if r.Some? then
        var i :| 0 <= i < |ks[1..]| && ks[1..][i] == r.value && forall j :: 0 <= j < i ==> ks[1..][j] == x;
        assert ks[i + 1] == r.value;
        r
      else r
  }

  /** The keys of a record other than `k`, in order. */
  function OtherKeys(fs: seq<Field>, k: string): (ks: seq<string>)
    ensures forall j :: 0 <= j < |ks| ==> ks[j] != k && ks[j] in Keys(fs)
    ensures forall j :: 0 <= j < |fs| && fs[j].key.name != k ==> fs[j].key.name in ks
  {
    var ks := Filter(Keys(fs), (x: string) => x != k);
    assert forall j :: 0 <= j < |ks| ==> ks[j] in Keys(fs) by {
      forall j | 0 <= j < |ks| ensures ks[j] in Keys(fs) {
        assert ks[j] == Keys(fs)[Positions(Keys(fs), (x: string) => x != k, 0)[j]];
      }
    }
    assert forall j :: 0 <= j < |fs| && fs[j].key.name != k ==> fs[j].key.name in ks by {
      forall j | 0 <= j < |fs| && fs[j].key.name != k ensures fs[j].key.name in ks {
        var ps := Positions(Keys(fs), (x: string) => x != k, 0);
        assert Keys(fs)[j] == fs[j].key.name;
        assert j in ps;
        var m :| 0 <= m < |ps| && ps[m] == j;
        assert ks[m] == fs[j].key.name;
      }
    }
    ks
  }

  /** `item.get(dict_field, {})`. */
  function DictPart(item: Value, dictField: string): (v: Value)
    requires item.Dict?
    ensures dictField !in Keys(item.fields) ==> v == Dict([])
    ensures dictField in Keys(item.fields) ==> Get(item.fields, dictField) == Some(v)
  {
    match Get(item.fields, dictField)
    case Some(v) => v
    case None => Dict([])
  }

  /** The edge one record of format C asks for, given the uuid drawn for it: from the node of its
      dict part to the value of its first other field, labelled by the value of the field after
      that (or "" when there is none); no edge when the record has no other field. */
  function EdgeC(item: Value, dictField: string, drawnId: string): (es: seq<Edge>)
    requires item.Dict? && DictPart(item, dictField).Dict?
    ensures |es| <= 1
    ensures |es| == 1 <==> |OtherKeys(item.fields, dictField)| > 0
    ensures |es| == 1 ==> es[0].source == ShowOr(DictPart(item, dictField).fields, "name", drawnId)
                          && es[0].caption.Some?
  {
    var others := OtherKeys(item.fields, dictField);
    if |others| == 0 then []
    else
      var node1 := ShowOr(DictPart(item, dictField).fields, "name", drawnId);
      var node2 := ShowOr(item.fields, others[0], "");
      var relField := FirstOtherThan(others, others[0]);
      var rel := if relField.Some? && relField.value != "" then ShowOr(item.fields, relField.value, "") else "";
      [Edge(node1, node2, Some(rel), EdgeColor)]
  }

  /** One record of format C. A record that is not a dict, or whose dict field holds something other
      than a dict, has no `get` and raises. */
  function StepC(g: Graph, item: Value, dictField: string, uuids: nat -> Uuid): (r: Attempt<Graph>)
    ensures r.Raised? <==> !item.Dict? || !DictPart(item, dictField).Dict?
    ensures r.Done? ==> Extends(r.value, g) && r.value.drawn == g.drawn + 1
    ensures r.Done? ==> r.value.edges == g.edges + EdgeC(item, dictField, uuids(g.drawn).text)
    ensures r.Done? ==> ShowOr(DictPart(item, dictField).fields, "name", uuids(g.drawn).text) in r.value.recorded
    ensures r.Done? ==> r.value.recorded == g.recorded + {ShowOr(DictPart(item, dictField).fields, "name", uuids(g.drawn).text)}
                                          + (if |OtherKeys(item.fields, dictField)| > 0
                                             then {ShowOr(item.fields, OtherKeys(item.fields, dictField)[0], "")} else {})
    ensures r.Done? && Consistent(g) ==> Consistent(r.value)
  {
    if !item.Dict? then Raised(NoGetError)
    else
      var part := DictPart(item, dictField);
      if !part.Dict? then Raised(NoGetError)
      else
        var g1 := NamedNode(g, part.fields, uuids);
        var node1 := ShowOr(part.fields, "name", uuids(g.drawn).text);
        var others := OtherKeys(item.fields, dictField);
        if |others| == 0 then
          assert g1.edges + [] == g1.edges;
          Done(g1)
        else
          var node2 := ShowOr(item.fields, others[0], "");
          var g2 := AddNodeIfAbsent(g1, node2, None, TargetColor, DiamondShape);
          assert Consistent(g1) ==> Consistent(g2) by {
            if Consistent(g1) { AddNodeKeepsConsistent(g1, node2, None, TargetColor, DiamondShape); }
          }
          var relField := FirstOtherThan(others, others[0]);
          var rel := if relField.Some? && relField.value != "" then ShowOr(item.fields, relField.value, "") else "";
          var h := AddEdge(g2, node1, node2, Some(rel));
          ExtendsTransitive(g, g1, g2);
          ExtendsTransitive(g, g2, h);
          Done(h)
  }

  /** The loop of format C over the records from position `from` on; each record draws one uuid. */
  function ItemsC(g: Graph, items: seq<Value>, dictField: string, uuids: nat -> Uuid, from: nat): (r: Attempt<Graph>)
    requires from <= |items|
    ensures r.Raised? <==> exists j :: from <= j < |items| && (!items[j].Dict? || !DictPart(items[j], dictField).Dict?)
    ensures r.Done? ==> Extends(r.value, g) && r.value.drawn == g.drawn + (|items| - from)
    ensures r.Done? ==> r.value.recorded == g.recorded + NodeIdsC(items, dictField, uuids, g.drawn, from)
    ensures r.Done? && Consistent(g) ==> Consistent(r.value)
    decreases |items| - from
  {
    if from == |items| then
      assert g.nodes[..|g.nodes|] == g.nodes && g.edges[..|g.edges|] == g.edges;
      NoNodeIdsCAtEnd(g.recorded, items, dictField, uuids, g.drawn, from);
      Done(g)
    else
      match StepC(g, items[from], dictField, uuids)
      case Raised(e) => Raised(e)
      case Done(g1) =>
        var r := ItemsC(g1, items, dictField, uuids, from + 1);
        assert r.Done? ==> Extends(r.value, g) by {
          if r.Done? { ExtendsTransitive(g, g1, r.value); }
        }
        StepCRecordsHere(g, g1, items[from], dictField, uuids);
        NodeIdsCUnfold(items, dictField, uuids, g.drawn, g1.drawn, from);
        assert r.Done? ==> r.value.recorded == g.recorded + NodeIdsC(items, dictField, uuids, g.drawn, from) by {
          if r.Done? {
            UnionStep(g.recorded, g1.recorded, r.value.recorded,
                      NodeIdC(items[from], dictField, uuids(g.drawn).text), NodeIdsC(items, dictField, uuids, g1.drawn, from + 1),
                      NodeIdsC(items, dictField, uuids, g.drawn, from));
          }
        }
        r
  }

  /** Past the last record format C reads off no further id. */
  lemma NoNodeIdsCAtEnd(recorded: set<string>, items: seq<Value>, dictField: string, uuids: nat -> Uuid, at: nat, from: nat)
    requires from == |items|
    ensures recorded + NodeIdsC(items, dictField, uuids, at, from) == recorded
  {
  }

  /** The node ids one record of format C records, the uuid drawn for it being `drawnId`: its dict
      node and, when the record has another key, the node that key's value names, even when that
      value renders as "". A record the loop would raise on records nothing here. */
  function NodeIdC(item: Value, dictField: string, drawnId: string): set<string>
  {
    if !item.Dict? || !DictPart(item, dictField).Dict? then {}
    else
      var others := OtherKeys(item.fields, dictField);
      {ShowOr(DictPart(item, dictField).fields, "name", drawnId)}
      + (if |others| == 0 then {} else {ShowOr(item.fields, others[0], "")})
  }

  /** The ids of a record the loop goes through: its dict node, then the node of its next key. */
  lemma NodeIdCOfRecord(item: Value, dictField: string, drawnId: string)
    requires item.Dict? && DictPart(item, dictField).Dict?
    ensures NodeIdC(item, dictField, drawnId)
            == {ShowOr(DictPart(item, dictField).fields, "name", drawnId)}
               + (if |OtherKeys(item.fields, dictField)| > 0
                  then {ShowOr(item.fields, OtherKeys(item.fields, dictField)[0], "")} else {})
  {
  }

  /** The node ids format C records for records `from` on, the record at `from` using the uuid drawn
      `at`-th: read off the records and the uuid sequence alone. */
  function NodeIdsC(items: seq<Value>, dictField: string, uuids: nat -> Uuid, at: nat, from: nat): set<string>
    requires from <= |items|
    decreases |items| - from
  {
    if from == |items| then {}
    else NodeIdC(items[from], dictField, uuids(at).text) + NodeIdsC(items, dictField, uuids, at + 1, from + 1)
  }

  /** `process_format_c`: the dict field is the first dict-valued key of the first record; a key
      that is the empty string is falsy and stops the handler as if there were none. */
  function ProcessC(g: Graph, items: seq<Value>, uuids: nat -> Uuid): (r: Attempt<Graph>)
    ensures r.Done? ==> Extends(r.value, g)
    ensures r.Done? && Consistent(g) ==> Consistent(r.value)
    ensures (r.Done? && |items| > 0 && items[0].Dict? && FirstDictKey(items[0].fields, 0).Some?
             && FirstDictKey(items[0].fields, 0).value != "") ==> r.value.drawn == g.drawn + |items|
    ensures (|items| == 0 || !items[0].Dict? || FirstDictKey(items[0].fields, 0).None?
             || FirstDictKey(items[0].fields, 0).value == "") ==> r == Done(g)
    ensures (r.Done? && |items| > 0 && items[0].Dict? && FirstDictKey(items[0].fields, 0).Some?
             && FirstDictKey(items[0].fields, 0).value != "")
            ==> r.value.recorded == g.recorded + NodeIdsC(items, FirstDictKey(items[0].fields, 0).value, uuids, g.drawn, 0)
  {
    if |items| == 0 || !items[0].Dict? then
      assert g.nodes[..|g.nodes|] == g.nodes && g.edges[..|g.edges|] == g.edges;
      Done(g)
    else
      match FirstDictKey(items[0].fields, 0)
      case None =>
        assert g.nodes[..|g.nodes|] == g.nodes && g.edges[..|g.edges|] == g.edges;
        Done(g)
      case Some(k) =>
        if k == "" then
          assert g.nodes[..|g.nodes|] == g.nodes && g.edges[..|g.edges|] == g.edges;
          Done(g)
        else
          ItemsC(g, items, k, uuids, 0)
  }

  /** The edges format C draws for records `from` on, the record at `from` using the uuid drawn
      `at`-th: read off the records and the uuid sequence alone. A record the loop would raise on
      contributes nothing here. */
  function EdgesC(items: seq<Value>, dictField: string, uuids: nat -> Uuid, at: nat, from: nat): seq<Edge>
    requires from <= |items|
    decreases |items| - from
  {
    if from == |items| then []
    else
      var item := items[from];
      var here := if item.Dict? && DictPart(item, dictField).Dict? then EdgeC(item, dictField, uuids(at).text) else [];
      here + EdgesC(items, dictField, uuids, at + 1, from + 1)
  }

  /** Format C draws exactly the edges `EdgesC` reads off the records, after the ones already drawn. */
  lemma {:induction false} ItemsCDrawsEdgesC(g: Graph, items: seq<Value>, dictField: string, uuids: nat -> Uuid, from: nat)
    requires from <= |items|
    requires ItemsC(g, items, dictField, uuids, from).Done?
    ensures ItemsC(g, items, dictField, uuids, from).value.edges == g.edges + EdgesC(items, dictField, uuids, g.drawn, from)
    decreases |items| - from
  {
    if from < |items| {
      var g1 := ItemsCStep(g, items, dictField, uuids, from);
      ItemsCDrawsEdgesC(g1, items, dictField, uuids, from + 1);
      EdgesCStep(g.edges, items, dictField, uuids, g.drawn, from);
    } else {
      assert g.edges + [] == g.edges;
    }
  }

  /** A step of format C that goes through records exactly the ids `NodeIdC` reads off its record. */
  lemma StepCRecordsHere(g: Graph, g1: Graph, item: Value, dictField: string, uuids: nat -> Uuid)
    requires StepC(g, item, dictField, uuids) == Done(g1)
    ensures g1.recorded == g.recorded + NodeIdC(item, dictField, uuids(g.drawn).text)
  {
    NodeIdCOfRecord(item, dictField, uuids(g.drawn).text);
    var node1 := ShowOr(DictPart(item, dictField).fields, "name", uuids(g.drawn).text);
    var node2 := if |OtherKeys(item.fields, dictField)| > 0
                 then {ShowOr(item.fields, OtherKeys(item.fields, dictField)[0], "")} else {};
    UnionAssoc(g.recorded, {node1}, node2);
  }

  /** The ids of records `from` on are those of the record at `from` and those of the rest, the
      rest using the next uuid. */
  lemma NodeIdsCUnfold(items: seq<Value>, dictField: string, uuids: nat -> Uuid, at: nat, next: nat, from: nat)
    requires from < |items| && next == at + 1
    ensures NodeIdsC(items, dictField, uuids, at, from)
            == NodeIdC(items[from], dictField, uuids(at).text) + NodeIdsC(items, dictField, uuids, next, from + 1)
  {
    var rest := NodeIdsC(items, dictField, uuids, at + 1, from + 1);
    assert NodeIdsC(items, dictField, uuids, next, from + 1) == rest;
  }

  /** Ids recorded in two stages, `here` and then `rest`, are those of `here + rest`. */
  lemma UnionStep(before: set<string>, stepped: set<string>, after: set<string>,
                  here: set<string>, rest: set<string>, total: set<string>)
    requires stepped == before + here && after == stepped + rest && total == here + rest
    ensures after == before + total
  {
  }

  /** Adding ids to none gives those ids. */
  lemma EmptyUnion(a: set<string>)
    ensures {} + a == a
  {
  }

  /** Ids recorded one set after another may be grouped either way. */
  lemma UnionAssoc(a: set<string>, b: set<string>, c: set<string>)
    ensures a + b + c == a + (b + c)
  {
  }

  lemma EdgesCStep(drawn: seq<Edge>, items: seq<Value>, dictField: string, uuids: nat -> Uuid, at: nat, from: nat)
    requires from < |items| && items[from].Dict? && DictPart(items[from], dictField).Dict?
    ensures drawn + EdgeC(items[from], dictField, uuids(at).text) + EdgesC(items, dictField, uuids, at + 1, from + 1)
            == drawn + EdgesC(items, dictField, uuids, at, from)
  {
    ConcatAssoc(drawn, EdgeC(items[from], dictField, uuids(at).text), EdgesC(items, dictField, uuids, at + 1, from + 1));
  }

  /** One record of a format C loop that ran through: its step drew its edge, and the loop carried
      on from the network the step left. */
  lemma ItemsCStep(g: Graph, items: seq<Value>, dictField: string, uuids: nat -> Uuid, from: nat) returns (g1: Graph)
    requires from < |items|
    requires ItemsC(g, items, dictField, uuids, from).Done?
    ensures StepC(g, items[from], dictField, uuids) == Done(g1)
    ensures items[from].Dict? && DictPart(items[from], dictField).Dict?
    ensures g1.edges == g.edges + EdgeC(items[from], dictField, uuids(g.drawn).text) && g1.drawn == g.drawn + 1
    ensures ItemsC(g, items, dictField, uuids, from) == ItemsC(g1, items, dictField, uuids, from + 1)
  {
    g1 := StepC(g, items[from], dictField, uuids).value;
  }

  // ---------------------------------------------------------------------------------------------
  // generate_graph_html
  // ---------------------------------------------------------------------------------------------

  /** The drawn network and the path under which its page is served. */
  datatype Page = Page(graph: Graph, path: string)

  /** Where `save_network` puts a page: named after the hex digits of a uuid drawn for it. */
  function PagePath(u: Uuid): string
  {
    "/static/graph_" + u.hex + ".html"
  }

  /** The handler the detected format selects, run on an empty network. */
  function Handle(data: Value, uuids: nat -> Uuid): (r: Attempt<Graph>)
    ensures r.Done? ==> Consistent(r.value)
    ensures data.List? && DetectFormat(data) == A ==> r.Done? && r.value.edges == []
    ensures DetectFormat(data) in {B, D} ==> (r.Raised? <==> exists j :: 0 <= j < |data.items| && !data.items[j].Dict?)
  {
    assert Consistent(EmptyGraph);
    match DetectFormat(data)
    case A => ProcessA(EmptyGraph, data, uuids)
    case B => ProcessB(EmptyGraph, data.items)
    case C => ProcessC(EmptyGraph, data.items, uuids)
    case D => ProcessD(EmptyGraph, data.items)
  }

  /** `generate_graph_html`: draw the network for a query result, then save it under a name made
      from the next uuid drawn. An exception of a handler leaves the function. */
  function GraphPage(data: Value, uuids: nat -> Uuid): (r: Attempt<Page>)
    ensures r.Raised? <==> Handle(data, uuids).Raised?
    ensures r.Done? ==> Consistent(r.value.graph)
    ensures r.Done? ==> r.value.graph == Handle(data, uuids).value
                        && r.value.path == PagePath(uuids(r.value.graph.drawn))
  {
    match Handle(data, uuids)
    case Raised(e) => Raised(e)
    case Done(g) => Done(Page(g, PagePath(uuids(g.drawn))))
  }

  /** A pair-format loop over all records, started on an empty network, draws exactly the edges
      the records name, and exactly their ends as nodes. */
  lemma PairLoopDrawsPairEdges(items: seq<Value>, f1: string, f2: string, rel: Option<string>, targetColor: string)
    requires ItemsPair(EmptyGraph, items, f1, f2, rel, targetColor, 0).Done?
    ensures ItemsPair(EmptyGraph, items, f1, f2, rel, targetColor, 0).value.edges == PairEdges(items, f1, f2, rel, 0)
    ensures NodeIds(ItemsPair(EmptyGraph, items, f1, f2, rel, targetColor, 0).value.nodes) == Ends(PairEdges(items, f1, f2, rel, 0))
  {
    assert Consistent(EmptyGraph);
    ItemsPairDrawsPairEdges(EmptyGraph, items, f1, f2, rel, targetColor, 0);
    ItemsPairRecordsEnds(EmptyGraph, items, f1, f2, rel, targetColor, 0);
    assert [] + PairEdges(items, f1, f2, rel, 0) == PairEdges(items, f1, f2, rel, 0);
    assert {} + Ends(PairEdges(items, f1, f2, rel, 0)) == Ends(PairEdges(items, f1, f2, rel, 0));
  }

  /** A list in format A draws no edge and one node per distinct id `RecordIds` reads off the records
      and the uuids; as every dict value draws a uuid, the page is named after the draw that follows
      the last of them. */
  lemma FormatADrawsRecordIds(data: Value, uuids: nat -> Uuid)
    requires data.List? && DetectFormat(data) == A
    ensures GraphPage(data, uuids).Done?
    ensures var p := GraphPage(data, uuids).value;
            var ids := RecordIds(data.items, uuids, 0, 0);
            && p.graph.edges == []
            && NodeIds(p.graph.nodes) == Elems(ids)
            && |p.graph.nodes| == |Elems(ids)|
            && p.path == PagePath(uuids(|ids|))
  {
    var ids := RecordIds(data.items, uuids, 0, 0);
    var r := ProcessA(EmptyGraph, data, uuids);
    assert Handle(data, uuids) == r;
    var g := r.value;
    assert g.recorded == Elems(ids) && g.drawn == |ids|;
    assert Consistent(g);
    DistinctCount(g.nodes);
    assert GraphPage(data, uuids) == Done(Page(g, PagePath(uuids(g.drawn))));
  }

  /** In format B the drawing raises exactly when some record is not a dict; otherwise its edges are
      exactly the unlabelled links the records name between their first two keys, and its nodes
      exactly their ends. */
  lemma FormatBDrawsPairEdges(data: Value, uuids: nat -> Uuid)
    requires DetectFormat(data) == B
    requires forall j :: 0 <= j < |data.items| ==> data.items[j].Dict?
    ensures Handle(data, uuids).Done?
    ensures var ks := Keys(data.items[0].fields);
            && Handle(data, uuids).value.edges == PairEdges(data.items, ks[0], ks[1], None, 0)
            && NodeIds(Handle(data, uuids).value.nodes) == Ends(PairEdges(data.items, ks[0], ks[1], None, 0))
  {
    var ks := Keys(data.items[0].fields);
    HandleOfB(data, uuids);
    PairLoopDrawsPairEdges(data.items, ks[0], ks[1], None, TargetColor);
  }

  /** In format D likewise, the third key of the first record labelling each edge. */
  lemma FormatDDrawsPairEdges(data: Value, uuids: nat -> Uuid)
    requires DetectFormat(data) == D
    requires forall j :: 0 <= j < |data.items| ==> data.items[j].Dict?
    ensures Handle(data, uuids).Done?
    ensures var ks := Keys(data.items[0].fields);
            && Handle(data, uuids).value.edges == PairEdges(data.items, ks[0], ks[1], Some(ks[2]), 0)
            && NodeIds(Handle(data, uuids).value.nodes) == Ends(PairEdges(data.items, ks[0], ks[1], Some(ks[2]), 0))
  {
    var ks := Keys(data.items[0].fields);
    HandleOfD(data, uuids);
    PairLoopDrawsPairEdges(data.items, ks[0], ks[1], Some(ks[2]), SourceColor);
  }

  /** In format B the drawing runs the pair loop on the first two keys of the first record. */
  lemma HandleOfB(data: Value, uuids: nat -> Uuid)
    requires DetectFormat(data) == B
    ensures var ks := Keys(data.items[0].fields);
            Handle(data, uuids) == ItemsPair(EmptyGraph, data.items, ks[0], ks[1], None, TargetColor, 0)
  {
  }

  /** In format D the drawing runs the pair loop on the first three keys of the first record. */
  lemma HandleOfD(data: Value, uuids: nat -> Uuid)
    requires DetectFormat(data) == D
    ensures var ks := Keys(data.items[0].fields);
            Handle(data, uuids) == ItemsPair(EmptyGraph, data.items, ks[0], ks[1], Some(ks[2]), SourceColor, 0)
  {
  }

  /** In format C the drawing runs the record loop of format C on the first dict-valued key of the
      first record, unless that key is the empty string. */
  lemma HandleOfC(data: Value, k: string, uuids: nat -> Uuid)
    requires HasDictSample(data) && DetectFormat(data) == C
    requires FirstDictKey(data.items[0].fields, 0) == Some(k) && k != ""
    ensures Handle(data, uuids) == ItemsC(EmptyGraph, data.items, k, uuids, 0)
  {
  }

  /** A format C drawing that runs through holds exactly the edges `EdgesC` and exactly the node
      ids `NodeIdsC` reads off the records, one node per distinct id; its page is named by the uuid
      drawn after one per record. */
  lemma FormatCDrawsNodeIdsC(data: Value, k: string, uuids: nat -> Uuid)
    requires HasDictSample(data) && DetectFormat(data) == C
    requires FirstDictKey(data.items[0].fields, 0) == Some(k) && k != ""
    requires GraphPage(data, uuids).Done?
    ensures var p := GraphPage(data, uuids).value;
            var ids := NodeIdsC(data.items, k, uuids, 0, 0);
            && p.graph.edges == EdgesC(data.items, k, uuids, 0, 0)
            && NodeIds(p.graph.nodes) == ids
            && |p.graph.nodes| == |ids|
            && p.path == PagePath(uuids(|data.items|))
  {
    HandleOfC(data, k, uuids);
    var r := ItemsC(EmptyGraph, data.items, k, uuids, 0);
    assert GraphPage(data, uuids).value.graph == r.value;
    assert r.value.drawn == |data.items|;
    ItemsCDrawsEdgesC(EmptyGraph, data.items, k, uuids, 0);
    assert r.value.recorded == NodeIdsC(data.items, k, uuids, 0, 0) by {
      EmptyUnion(NodeIdsC(data.items, k, uuids, 0, 0));
    }
    assert Consistent(r.value);
    DistinctCount(r.value.nodes);
  }

  /** A string value and a string key, rendered the way Python renders them (for text without
      quotes or backslashes). */
  function StrValue(x: string): Value { Scalar(x, "'" + x + "'", x != "", true) }
  function StrKey(x: string): Key { Key(x, "'" + x + "'") }

  /** A two-field record `{"a": x, "b": y}` with non-empty strings is a link from x to y. */
  lemma LinkRecord(fs: seq<Field>, x: string, y: string)
    requires fs == [Field(StrKey("a"), StrValue(x)), Field(StrKey("b"), StrValue(y))]
    requires x != "" && y != ""
    ensures DictFieldCount(fs) == 0 && |fs| == 2 && Keys(fs) == ["a", "b"]
    ensures PairEdge(Dict(fs), "a", "b", None) == [Edge(x, y, None, EdgeColor)]
  {
    assert KeyIndex(fs, "a", 0) == Some(0);
    assert KeyIndex(fs, "b", 1) == Some(1);
    assert KeyIndex(fs, "b", 0) == Some(1);
    assert ShowOr(fs, "a", "") == x;
    assert ShowOr(fs, "b", "") == y;
    assert DictFieldCount(fs[1..]) == 0;
  }

  /** Two links `[{"a": x, "b": y}, {"a": y, "b": z}]` (for instance X -> Y -> Z) draw the three
      nodes x, y and z, the shared y only once, joined by the two unlabelled edges x -> y and
      y -> z. */
  lemma TwoLinksDrawAChain(data: Value, x: string, y: string, z: string, uuids: nat -> Uuid)
    requires x != "" && y != "" && z != "" && x != y && y != z && x != z
    requires data == List([Dict([Field(StrKey("a"), StrValue(x)), Field(StrKey("b"), StrValue(y))]),
                           Dict([Field(StrKey("a"), StrValue(y)), Field(StrKey("b"), StrValue(z))])])
    ensures GraphPage(data, uuids).Done?
    ensures GraphPage(data, uuids).value.graph.edges == [Edge(x, y, None, EdgeColor), Edge(y, z, None, EdgeColor)]
    ensures NodeIds(GraphPage(data, uuids).value.graph.nodes) == {x, y, z}
    ensures |GraphPage(data, uuids).value.graph.nodes| == 3
  {
    var es := [Edge(x, y, None, EdgeColor), Edge(y, z, None, EdgeColor)];
    TwoLinksFacts(data, x, y, z);
    ChainEnds(es, x, y, z);
    DrawnPairFormat(data, uuids, es);
  }

  /** Two two-field records without dict values are format B, and each asks for its link. */
  lemma TwoLinksFacts(data: Value, x: string, y: string, z: string)
    requires x != "" && y != "" && z != ""
    requires data == List([Dict([Field(StrKey("a"), StrValue(x)), Field(StrKey("b"), StrValue(y))]),
                           Dict([Field(StrKey("a"), StrValue(y)), Field(StrKey("b"), StrValue(z))])])
    ensures DetectFormat(data) == B
    ensures forall j :: 0 <= j < |data.items| ==> data.items[j].Dict?
    ensures Keys(data.items[0].fields) == ["a", "b"]
    ensures PairEdges(data.items, "a", "b", None, 0) == [Edge(x, y, None, EdgeColor), Edge(y, z, None, EdgeColor)]
  {
    LinkRecord(data.items[0].fields, x, y);
    LinkRecord(data.items[1].fields, y, z);
    TwoLinkEdges(data.items, [Edge(x, y, None, EdgeColor)], [Edge(y, z, None, EdgeColor)]);
  }

  /** What `FormatBDrawsPairEdges` says about a format B result once its edges are known. */
  lemma DrawnPairFormat(data: Value, uuids: nat -> Uuid, es: seq<Edge>)
    requires DetectFormat(data) == B
    requires forall j :: 0 <= j < |data.items| ==> data.items[j].Dict?
    requires Keys(data.items[0].fields) == ["a", "b"] && PairEdges(data.items, "a", "b", None, 0) == es
    ensures GraphPage(data, uuids).Done?
    ensures GraphPage(data, uuids).value.graph.edges == es
    ensures NodeIds(GraphPage(data, uuids).value.graph.nodes) == Ends(es)
    ensures |GraphPage(data, uuids).value.graph.nodes| == |Ends(es)|
  {
    FormatBDrawsPairEdges(data, uuids);
    DistinctCount(GraphPage(data, uuids).value.graph.nodes);
  }

  lemma TwoLinkEdges(items: seq<Value>, e0: seq<Edge>, e1: seq<Edge>)
    requires |items| == 2
    requires PairEdge(items[0], "a", "b", None) == e0 && PairEdge(items[1], "a", "b", None) == e1
    ensures PairEdges(items, "a", "b", None, 0) == e0 + e1
  {
    assert PairEdges(items, "a", "b", None, 2) == [];
    assert PairEdges(items, "a", "b", None, 1) == e1;
  }

  lemma ChainEnds(es: seq<Edge>, x: string, y: string, z: string)
    requires es == [Edge(x, y, None, EdgeColor), Edge(y, z, None, EdgeColor)]
    requires x != y && y != z && x != z
    ensures Ends(es) == {x, y, z} && |Ends(es)| == 3
  {
    assert es[1..] == [Edge(y, z, None, EdgeColor)];
    assert es[1..][1..] == [];
  }

  /** Distinct ids: the number of nodes is the number of ids. */
  lemma {:induction false} DistinctCount(nodes: seq<Node>)
    requires DistinctIds(nodes)
    ensures |NodeIds(nodes)| == |nodes|
  {
    if |nodes| > 0 {
      var init := nodes[..|nodes| - 1];
      assert DistinctIds(init) by {
        forall i, j | 0 <= i < j < |init| ensures init[i].id != init[j].id {
          assert init[i] == nodes[i] && init[j] == nodes[j];
        }
      }
      DistinctCount(init);
      var last := nodes[|nodes| - 1].id;
      assert NodeIds(nodes) == NodeIds(init) + {last} by {
        forall x | x in NodeIds(nodes) ensures x in NodeIds(init) + {last} {
          var i :| 0 <= i < |nodes| && nodes[i].id == x;
          if i < |nodes| - 1 { assert init[i] == nodes[i]; }
        }
        forall x | x in NodeIds(init) ensures x in NodeIds(nodes) {
          var i :| 0 <= i < |init| && init[i].id == x;
          assert nodes[i] == init[i];
        }
      }
      assert last !in NodeIds(init) by {
        forall i | 0 <= i < |init| ensures init[i].id != last {
          assert init[i] == nodes[i];
        }
      }
    }
  }
}
