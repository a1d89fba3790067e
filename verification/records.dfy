/**
 * The graph query results the backend draws: Python values as they come back from the graph
 * database (scalars, dicts whose key order is insertion order, lists), the `str` rendering the node
 * ids and labels are built from, `detect_data_format` and `generate_attribute_label`.
 */
module Records {
  import opened Outcomes
  import opened Text

  /** A dict key. Keys are Python strings: `str(k)` is the key itself, and `repr(k)` (used when a
      whole dict is rendered) is given with it, quotes and escapes included. */
  datatype Key = Key(name: string, repr: string)

  /** A Python value. A scalar (string, number, boolean, None) is known by its `str`, its `repr`,
      its truth value, and whether it is a string, the only scalar a `for` loop can run over. */
  datatype Value =
    | Scalar(str: string, repr: string, truthy: bool, isText: bool)
    | Dict(fields: seq<Field>)
    | List(items: seq<Value>)

  /** One key/value pair of a dict, in insertion order. */
  datatype Field = Field(key: Key, value: Value)

  /** Python truth value: scalars carry theirs, containers are true when non-empty. */
  predicate Truthy(v: Value)
  {
    match v
    case Scalar(_, _, t, _) => t
    case Dict(fs) => |fs| > 0
    case List(xs) => |xs| > 0
  }

  /** `repr(v)`: a dict renders as `{k: v, ...}` and a list as `[v, ...]`, each element by its repr. */
  function Repr(v: Value): string
    decreases v
  {
    match v
    case Scalar(_, r, _, _) => r
    case Dict(fs) =>
      "{" + Join(seq(|fs|, i requires 0 <= i < |fs| => fs[i].key.repr + ": " + Repr(fs[i].value)), ", ") + "}"
    case List(xs) =>
      "[" + Join(seq(|xs|, i requires 0 <= i < |xs| => Repr(xs[i])), ", ") + "]"
  }

  /** `str(v)`: a scalar's own text; containers render as their repr. */
  function Show(v: Value): (s: string)
    ensures v.Dict? ==> |s| >= 2 && s[0] == '{' && s[|s| - 1] == '}'
    ensures v.List? ==> |s| >= 2 && s[0] == '[' && s[|s| - 1] == ']'
  {
    if v.Scalar? then v.str else Repr(v)
  }

  /** The keys of a dict, in order: `list(d.keys())`. */
  function Keys(fs: seq<Field>): (ks: seq<string>)
    ensures |ks| == |fs|
    ensures forall i :: 0 <= i < |fs| ==> ks[i] == fs[i].key.name
  {
    seq(|fs|, i requires 0 <= i < |fs| => fs[i].key.name)
  }

  /** The position of the first field bound to `k`, looking from `from` on. */
  function KeyIndex(fs: seq<Field>, k: string, from: nat): (r: Option<nat>)
    requires from <= |fs|
    ensures r.Some? ==> from <= r.value < |fs| && fs[r.value].key.name == k
                        && forall j :: from <= j < r.value ==> fs[j].key.name != k
    ensures r.None? ==> forall j :: from <= j < |fs| ==> fs[j].key.name != k
    decreases |fs| - from
  {
    if from == |fs| then None
    else if fs[from].key.name == k then Some(from)
    else KeyIndex(fs, k, from + 1)
  }

  /** `d.get(k)`: the value bound to `k`, if any. A Python dict binds each key once, so the first
      binding is the binding. */
  function Get(fs: seq<Field>, k: string): (r: Option<Value>)
    ensures r.Some? <==> k in Keys(fs)
    ensures r.Some? ==> exists i :: 0 <= i < |fs| && fs[i].key.name == k && fs[i].value == r.value
                                   && forall j :: 0 <= j < i ==> fs[j].key.name != k
  {
    match KeyIndex(fs, k, 0)
    case Some(i) => Some(fs[i].value)
    case None =>
      assert forall j :: 0 <= j < |fs| ==> Keys(fs)[j] != k;
      None
  }

  /** `str(d.get(k, default))` when the default is a string. */
  function ShowOr(fs: seq<Field>, k: string, default: string): (s: string)
    ensures k !in Keys(fs) ==> s == default
  {
    match Get(fs, k)
    case Some(v) => Show(v)
    case None => default
  }

  // ---------------------------------------------------------------------------------------------
  // detect_data_format
  // ---------------------------------------------------------------------------------------------

  /** The four record shapes the graph drawing knows. */
  datatype Format = A | B | C | D

  /** The number of dict-valued fields of a record. */
  function DictFieldCount(fs: seq<Field>): (n: nat)
    ensures n <= |fs|
    ensures n == 0 <==> forall i :: 0 <= i < |fs| ==> !fs[i].value.Dict?
  {
    if |fs| == 0 then 0
    else
      var rest := DictFieldCount(fs[1..]);
      assert forall i :: 1 <= i < |fs| ==> fs[i] == fs[1..][i - 1];
      (if fs[0].value.Dict? then 1 else 0) + rest
  }

  /** The first record of a non-empty list whose first element is a dict. */
  predicate HasDictSample(data: Value)
  {
    data.List? && |data.items| > 0 && data.items[0].Dict?
  }

  /** `detect_data_format`: the shape of a query result, read off its first record. */
  function DetectFormat(data: Value): (f: Format)
    ensures !HasDictSample(data) ==> f == A
    ensures HasDictSample(data) ==>
              var fs := data.items[0].fields;
              && (f == C <==> DictFieldCount(fs) == 1 && |fs| >= 3)
              && (f == B <==> DictFieldCount(fs) == 0 && |fs| == 2)
              && (f == D <==> DictFieldCount(fs) == 0 && |fs| >= 3)
  {
    if !Truthy(data) || !data.List? || !data.items[0].Dict? then A
    else
      var fs := data.items[0].fields;
      var n := DictFieldCount(fs);
      if n == 1 && |fs| >= 3 then C
      else if n == 0 && |fs| == 2 then B
      else if n == 0 && |fs| >= 3 then D
      else A
  }

  // ---------------------------------------------------------------------------------------------
  // generate_attribute_label
  // ---------------------------------------------------------------------------------------------

  /** A node label: a text the code builds, or a value handed through unchanged. */
  datatype Label = Text(text: string) | Raw(value: Value)

  predicate LabelTruthy(l: Label)
  {
    match l
    case Text(s) => s != ""
    case Raw(v) => Truthy(v)
  }

  /** The fields of a record other than "name", in order. */
  function OtherFields(fs: seq<Field>): (r: seq<Field>)
    ensures |r| <= |fs|
    ensures forall i :: 0 <= i < |r| ==> r[i] in fs && r[i].key.name != "name"
    ensures forall i :: 0 <= i < |fs| && fs[i].key.name != "name" ==> fs[i] in r
    ensures |r| == 0 <==> forall i :: 0 <= i < |fs| ==> fs[i].key.name == "name"
  {
    if |fs| == 0 then []
    else
      var rest := OtherFields(fs[1..]);
      assert forall i :: 1 <= i < |fs| ==> fs[i] == fs[1..][i - 1];
      if fs[0].key.name != "name" then [fs[0]] + rest else rest
  }

  /** One attribute line, `f"{k}: {v}"`. */
  function AttributeLine(f: Field): string
  {
    f.key.name + ": " + Show(f.value)
  }

  /** `generate_attribute_label`: the record's name (or "Node" when it has none), followed, when the
      record has any other field, by a line break and one `key: value` line per other field. With no
      other field the name value itself is the label, whatever its type. */
  function AttributeLabel(fs: seq<Field>): (l: Label)
    ensures |OtherFields(fs)| == 0 ==> (l.Raw? <==> "name" in Keys(fs))
    ensures l.Raw? ==> Get(fs, "name") == Some(l.value)
    ensures l.Text? && |OtherFields(fs)| == 0 ==> l.text == "Node"
    ensures |OtherFields(fs)| > 0 ==>
              var name := ShowOr(fs, "name", "Node");
              && l.Text? && LabelTruthy(l)
              && |l.text| > |name| && l.text[..|name| + 1] == name + "\n"
  {
    var others := OtherFields(fs);
    if |others| == 0 then
      match Get(fs, "name")
      case Some(v) => Raw(v)
      case None => Text("Node")
    else
      var name := ShowOr(fs, "name", "Node");
      var text := name + "\n" + Join(AttributeLines(fs), "\n");
      assert text[..|name| + 1] == name + "\n";
      Text(text)
  }

  /** When neither the name nor any attribute line holds a line break, the label's lines are the
      name followed by one `key: value` line per field other than "name", in field order. */
  lemma AttributeLabelLines(fs: seq<Field>)
    requires |OtherFields(fs)| > 0
    requires '\n' !in ShowOr(fs, "name", "Node")
    requires forall i :: 0 <= i < |OtherFields(fs)| ==> '\n' !in AttributeLine(OtherFields(fs)[i])
    ensures Lines(AttributeLabel(fs).text) == [ShowOr(fs, "name", "Node")] + AttributeLines(fs)
  {
    var name := ShowOr(fs, "name", "Node");
    var ls := AttributeLines(fs);
    var parts := [name] + ls;
    JoinCons(name, ls, "\n");
    assert AttributeLabel(fs).text == Join(parts, "\n");
    assert forall k :: 0 <= k < |parts| ==> '\n' !in parts[k] by {
      forall k | 0 < k < |parts| ensures '\n' !in parts[k] {
        assert parts[k] == ls[k - 1];
      }
    }
    SplitOfJoin(parts, '\n');
  }

  /** The `key: value` lines of the fields other than "name", in field order. */
  function AttributeLines(fs: seq<Field>): (ls: seq<string>)
    ensures |ls| == |OtherFields(fs)|
    ensures forall i :: 0 <= i < |ls| ==> ls[i] == AttributeLine(OtherFields(fs)[i])
  {
    var others := OtherFields(fs);
    seq(|others|, i requires 0 <= i < |others| => AttributeLine(others[i]))
  }
}
