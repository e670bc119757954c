/**
 Equality of graphs on conversation logic, ignoring editor chrome and order, and what may be concluded
 from it about a graph that was not itself validated.
 */
module Equivalence {
  import opened Text
  import opened Json
  import opened WorkflowGraph
  import opened Validation
  import opened Permutations
  import opened SortedViews

  const NODE_LOGIC := {"id", "type", "data"}
  const EDGE_LOGIC := {"id", "source", "target", "sourceHandle", "targetHandle", "data"}

  /** The list under `key`, restricted to its logic keys; None where the source iterates over something
      that is not a list of dictionaries. */
  function Views(graph: Fields, key: string, keys: set<string>): Option<seq<Fields>> {
    if key !in graph || !Truthy(graph[key]) then Some([])
    else if !graph[key].List? then None
    else
      var items := graph[key].items;
      if forall i :: 0 <= i < |items| ==> items[i].Obj?
      then Some(seq(|items|, i requires 0 <= i < |items| => Restrict(items[i].fields, keys)))
      else None
  }

  function Version(graph: Fields): Json { if "version" in graph then graph["version"] else Null }

  function NodeViews(raw: Json): Option<seq<Fields>> {
    if raw.Obj? then Views(raw.fields, "nodes", NODE_LOGIC) else None
  }

  function EdgeViews(raw: Json): Option<seq<Fields>> {
    if raw.Obj? then Views(raw.fields, "edges", EDGE_LOGIC) else None
  }

  predicate SameLogic(a: Json, b: Json) {
    && NodeViews(a).Some? && NodeViews(b).Some? && EdgeViews(a).Some? && EdgeViews(b).Some?
    && Equal(Version(a.fields), Version(b.fields))
    && EqualLists(Sort(NodeViews(a).value), Sort(NodeViews(b).value))
    && EqualLists(Sort(EdgeViews(a).value), Sort(EdgeViews(b).value))
  }

  // ---------------------------------------------------------------- an equivalence relation

  lemma SameLogicSymmetric(a: Json, b: Json)
    requires SameLogic(a, b)
    ensures SameLogic(b, a)
  {
    EqualSymmetric(Version(a.fields), Version(b.fields));
    EqualListsSymmetric(Sort(NodeViews(a).value), Sort(NodeViews(b).value));
    EqualListsSymmetric(Sort(EdgeViews(a).value), Sort(EdgeViews(b).value));
  }

  lemma SameLogicTransitive(a: Json, b: Json, c: Json)
    requires SameLogic(a, b) && SameLogic(b, c)
    ensures SameLogic(a, c)
  {
    EqualTransitive(Version(a.fields), Version(b.fields), Version(c.fields));
    EqualListsTransitive(Sort(NodeViews(a).value), Sort(NodeViews(b).value), Sort(NodeViews(c).value));
    EqualListsTransitive(Sort(EdgeViews(a).value), Sort(EdgeViews(b).value), Sort(EdgeViews(c).value));
  }

  lemma SameLogicReflexive(a: Json)
    requires NodeViews(a).Some? && EdgeViews(a).Some?
    ensures SameLogic(a, a)
  {
    EqualReflexive(Version(a.fields));
    EqualListsReflexive(Sort(NodeViews(a).value));
    EqualListsReflexive(Sort(EdgeViews(a).value));
  }

  // ---------------------------------------------------------------- the condition

  /** The text fields of a step, other than its id, print the same whatever equals them. */
  ghost predicate FixedVariable(j: Json, o: Origin) {
    j.Obj? ==> FixedOr(j.fields, "name", o) && (Strip(TextOr(j.fields, "name")) != "" ==>
      FixedOr(j.fields, "type", o) && FixedOr(j.fields, "prompt", o))
  }

  ghost predicate FixedTexts(items: seq<Json>, o: Origin) { forall i :: 0 <= i < |items| ==> Fixed(items[i], o) }

  ghost predicate FixedExtraction(data: Fields, o: Origin) {
    "extraction" in data && data["extraction"].Obj? ==>
      var raw := data["extraction"].fields;
      FixedOr(raw, "prompt", o) && forall i :: 0 <= i < |SubList(raw, "variables")| ==>
        FixedVariable(SubList(raw, "variables")[i], o)
  }

  ghost predicate FixedSpoken(data: Fields, o: Origin) {
    FixedOr(data, "name", o) && FixedOr(data, "prompt", o) && FixedOptional(data, "greeting", o)
  }

  ghost predicate FixedListed(data: Fields, o: Origin) {
    FixedTexts(SubList(data, "tools"), o) && FixedTexts(SubList(data, "knowledge_base_ids"), o)
  }

  ghost predicate FixedEnding(data: Fields, o: Origin) {
    FixedOptional(data, "transfer_destination", o) && FixedOptional(data, "disposition", o)
  }

  ghost predicate FixedData(data: Fields, o: Origin) {
    FixedSpoken(data, o) && FixedListed(data, o) && FixedExtraction(data, o) && FixedEnding(data, o)
  }

  ghost predicate FixedStep(v: Fields, o: Origin) { FixedOr(v, "type", o) && FixedData(SubObject(v, "data"), o) }

  ghost function FixedSteps(o: Origin): Fields -> bool { (v: Fields) => FixedStep(v, o) }

  ghost predicate FixedMove(data: Fields, o: Origin) {
    FixedOr(data, "label", o) && FixedOr(data, "condition", o) && FixedOr(data, "transition_speech", o)
  }

  ghost predicate FixedConnection(v: Fields, o: Origin) {
    FixedOr(v, "source", o) && FixedOr(v, "target", o) && FixedMove(SubObject(v, "data"), o)
  }

  ghost function FixedConnections(o: Origin): Fields -> bool { (v: Fields) => FixedConnection(v, o) }

  function RawSteps(raw: Json): seq<Fields> { if raw.Obj? then Objects(SubList(raw.fields, "nodes")) else [] }

  function RawConnections(raw: Json): seq<Fields> { if raw.Obj? then Objects(SubList(raw.fields, "edges")) else [] }

  /** The dictionaries of a list. */
  function Objects(items: seq<Json>): seq<Fields> {
    seq(|items|, i requires 0 <= i < |items| => if items[i].Obj? then items[i].fields else map[])
  }

  ghost predicate Everywhere(s: seq<Fields>, plain: Fields -> bool) {
    forall i :: 0 <= i < |s| ==> plain(s[i])
  }

  /** Equality decides what the graph says: its text fields print one way, and so do the ids of its steps as far
      as the sorted order lets them. */
  ghost predicate FixedGraph(raw: Json, o: Origin) {
    && Everywhere(RawSteps(raw), FixedSteps(o)) && Everywhere(RawConnections(raw), FixedConnections(o))
    && (NodeViews(raw).Some? ==> Pinned(Sort(NodeViews(raw).value), o))
  }

  // ---------------------------------------------------------------- equal views parse alike

  /** A connection without its id, which only labels messages. */
  function RouteOf(v: Fields): Edge { EdgeOf(v).(id := "") }

  lemma EqualTextList(a: seq<Json>, b: seq<Json>, o: Origin)
    requires |a| == |b| && FixedTexts(a, o) && forall i :: 0 <= i < |a| ==> Equal(a[i], b[i])
    requires forall i :: 0 <= i < |a| ==> From(a[i], o) && From(b[i], o)
    ensures TextList(a) == TextList(b) && FixedTexts(b, o)
  {
    forall i | 0 <= i < |a| ensures Shown(a[i]) == Shown(b[i]) && Fixed(b[i], o) { FixedPrintsOneWay(a[i], b[i], o); }
  }

  lemma EqualVariable(a: Json, b: Json, o: Origin)
    requires Equal(a, b) && From(a, o) && From(b, o) && FixedVariable(a, o)
    ensures FixedVariable(b, o) && VariableIn(a) == VariableIn(b)
  {
    EqualTruthy(a, b);
    if a.Obj? {
      EqualTextOr(a.fields, b.fields, "name", o);
      if Strip(TextOr(a.fields, "name")) != "" {
        EqualTextOr(a.fields, b.fields, "type", o);
        EqualTextOr(a.fields, b.fields, "prompt", o);
      }
    }
  }

  lemma {:induction false} EqualVariables(a: seq<Json>, b: seq<Json>, o: Origin)
    requires |a| == |b| && forall i :: 0 <= i < |a| ==> Equal(a[i], b[i]) && FixedVariable(a[i], o)
    requires forall i :: 0 <= i < |a| ==> From(a[i], o) && From(b[i], o)
    ensures Variables(a) == Variables(b)
    ensures forall i :: 0 <= i < |b| ==> FixedVariable(b[i], o)
  {
    if a != [] {
      EqualVariable(a[0], b[0], o);
      EqualVariables(a[1..], b[1..], o);
      assert forall i :: 1 <= i < |b| ==> b[i] == b[1..][i - 1];
    }
  }

  lemma EqualExtraction(a: Fields, b: Fields, o: Origin)
    requires EqualFields(a, b) && FieldsFrom(a, o) && FieldsFrom(b, o) && FixedExtraction(a, o)
    ensures ExtractionOf(a) == ExtractionOf(b) && FixedExtraction(b, o)
  {
    if "extraction" in a {
      EqualTruthy(a["extraction"], b["extraction"]);
      if a["extraction"].Obj? {
        var x, y := a["extraction"].fields, b["extraction"].fields;
        EqualTextOr(x, y, "prompt", o);
        SubListFrom(x, "variables", o);
        SubListFrom(y, "variables", o);
        EqualSubList(x, y, "variables");
        EqualVariables(SubList(x, "variables"), SubList(y, "variables"), o);
        if "enabled" in x { EqualTruthy(x["enabled"], y["enabled"]); }
      }
    }
  }

  lemma EqualDelay(a: Fields, b: Fields)
    requires EqualFields(a, b)
    ensures DelayedStart(a) == DelayedStart(b)
  {
    if "delayed_start_ms" in a {
      var x, y := a["delayed_start_ms"], b["delayed_start_ms"];
      EqualInt(x, y);
    }
  }

  lemma EqualInt(x: Json, y: Json)
    requires Equal(x, y)
    ensures IntOr(x) == IntOr(y)
  {
    hide ParseInt, FloatValue;
    EqualTruthy(x, y);
    if Amount(x).Some? && Truthy(x) {
      WholeAmount(x);
      WholeAmount(y);
    }
  }

  lemma WholeAmount(x: Json)
    requires Amount(x).Some? && Truthy(x)
    ensures IntOr(x) == Some(Truncate(Amount(x).value))
  {
    hide FloatValue;
  }

  lemma EqualSpoken(a: Fields, b: Fields, o: Origin)
    requires EqualFields(a, b) && FieldsFrom(a, o) && FieldsFrom(b, o) && FixedSpoken(a, o)
    ensures FixedSpoken(b, o)
    ensures SpokenOf(a) == SpokenOf(b)
  {
    EqualTextOr(a, b, "name", o);
    EqualTextOr(a, b, "prompt", o);
    EqualOptionalText(a, b, "greeting", o);
  }

  lemma EqualListed(a: Fields, b: Fields, o: Origin)
    requires EqualFields(a, b) && FieldsFrom(a, o) && FieldsFrom(b, o) && FixedListed(a, o)
    ensures FixedListed(b, o)
    ensures ListedOf(a) == ListedOf(b)
  {
    hide From;
    SubListFrom(a, "tools", o);
    SubListFrom(b, "tools", o);
    SubListFrom(a, "knowledge_base_ids", o);
    SubListFrom(b, "knowledge_base_ids", o);
    EqualSubList(a, b, "tools");
    EqualTextList(SubList(a, "tools"), SubList(b, "tools"), o);
    EqualSubList(a, b, "knowledge_base_ids");
    EqualTextList(SubList(a, "knowledge_base_ids"), SubList(b, "knowledge_base_ids"), o);
  }

  lemma EqualEnding(a: Fields, b: Fields, o: Origin)
    requires EqualFields(a, b) && FieldsFrom(a, o) && FieldsFrom(b, o) && FixedEnding(a, o)
    ensures FixedEnding(b, o)
    ensures EndingOf(a) == EndingOf(b)
  {
    EqualOptionalText(a, b, "transfer_destination", o);
    EqualOptionalText(a, b, "disposition", o);
  }

  lemma SameData(a: Fields, b: Fields)
    requires SpokenOf(a) == SpokenOf(b) && ListedOf(a) == ListedOf(b) && EndingOf(a) == EndingOf(b)
    requires ExtractionOf(a) == ExtractionOf(b) && DelayedStart(a) == DelayedStart(b)
    ensures StepDataOf(a) == StepDataOf(b)
  {}

  lemma EqualData(a: Fields, b: Fields, o: Origin)
    requires EqualFields(a, b) && FieldsFrom(a, o) && FieldsFrom(b, o) && FixedSpoken(a, o) && FixedListed(a, o)
      && FixedExtraction(a, o) && FixedEnding(a, o)
    ensures StepDataOf(a) == StepDataOf(b)
    ensures FixedSpoken(b, o) && FixedListed(b, o) && FixedExtraction(b, o) && FixedEnding(b, o)
  {
    EqualSpoken(a, b, o);
    EqualListed(a, b, o);
    EqualExtraction(a, b, o);
    EqualDelay(a, b);
    EqualEnding(a, b, o);
    SameData(a, b);
  }

  lemma EqualStep(a: Fields, b: Fields, o: Origin)
    requires EqualFields(a, b) && FieldsFrom(a, o) && FieldsFrom(b, o) && FixedStep(a, o) && SortKey(a) == SortKey(b)
    ensures NodeOf(a) == NodeOf(b) && FixedStep(b, o)
  {
    if "id" in a { EqualTruthy(a["id"], b["id"]); }
    assert TextOr(a, "id") == TextOr(b, "id");
    EqualTextOr(a, b, "type", o);
    EqualSubObject(a, b, "data");
    SubObjectFrom(a, "data", o);
    SubObjectFrom(b, "data", o);
    EqualData(SubObject(a, "data"), SubObject(b, "data"), o);
    hide TextOr, StepDataOf, FixedData;
    SameStepParts(a, b);
  }

  lemma SameStepParts(a: Fields, b: Fields)
    requires TextOr(a, "id") == TextOr(b, "id") && TextOr(a, "type") == TextOr(b, "type")
    requires StepDataOf(SubObject(a, "data")) == StepDataOf(SubObject(b, "data"))
    ensures NodeOf(a) == NodeOf(b)
  {
    hide TextOr, StepDataOf, SubObject;
  }

  lemma EqualConnection(a: Fields, b: Fields, o: Origin)
    requires EqualFields(a, b) && FieldsFrom(a, o) && FieldsFrom(b, o) && FixedConnection(a, o)
    ensures RouteOf(a) == RouteOf(b) && FixedConnection(b, o)
  {
    EqualTextOr(a, b, "source", o);
    EqualTextOr(a, b, "target", o);
    EqualSubObject(a, b, "data");
    SubObjectFrom(a, "data", o);
    SubObjectFrom(b, "data", o);
    EqualMove(SubObject(a, "data"), SubObject(b, "data"), o);
    SameRoute(a, b);
  }

  lemma SameRoute(a: Fields, b: Fields)
    requires TextOr(a, "source") == TextOr(b, "source") && TextOr(a, "target") == TextOr(b, "target")
    requires MoveOf(SubObject(a, "data")) == MoveOf(SubObject(b, "data"))
    ensures RouteOf(a) == RouteOf(b)
  {
    hide MoveOf, TextOr, SubObject;
  }

  lemma EqualMove(a: Fields, b: Fields, o: Origin)
    requires EqualFields(a, b) && FieldsFrom(a, o) && FieldsFrom(b, o) && FixedMove(a, o)
    ensures FixedMove(b, o)
    ensures MoveOf(a) == MoveOf(b)
  {
    EqualTextOr(a, b, "label", o);
    EqualTextOr(a, b, "condition", o);
    EqualTextOr(a, b, "transition_speech", o);
  }

  // ---------------------------------------------------------------- the rules do not depend on order

  lemma StepsPermute(ns: seq<Node>, ms: seq<Node>)
    requires multiset(ns) == multiset(ms) && ValidSteps(ns)
    ensures ValidSteps(ms)
  {
    SameMembers(ns, ms);
    PairwisePermutes(ns, ms, NodesAgree);
  }

  lemma RouteFound(es: seq<Edge>, fs: seq<Edge>, f: Edge) returns (e: Edge)
    requires multiset(Map(es, Route)) == multiset(Map(fs, Route)) && f in fs
    ensures e in es && Route(e) == Route(f)
    ensures e.source == f.source && e.target == f.target && (ValidEdge(e) <==> ValidEdge(f))
  {
    SameMembers(Map(es, Route), Map(fs, Route));
    var j :| 0 <= j < |fs| && fs[j] == f;
    assert Map(fs, Route)[j] in Map(es, Route);
    var i :| 0 <= i < |es| && Map(es, Route)[i] == Route(f);
    e := es[i];
    assert Route(e).source == e.source && Route(f).source == f.source;
  }

  function Route(e: Edge): Edge { e.(id := "") }

  lemma LeadsAlike(es: seq<Edge>, fs: seq<Edge>, id: string)
    requires multiset(Map(es, Route)) == multiset(Map(fs, Route))
    ensures Leads(fs, id) ==> Leads(es, id)
    ensures Enters(fs, id) ==> Enters(es, id)
  {
    if Leads(fs, id) {
      var f :| f in fs && f.source == id;
      var e := RouteFound(es, fs, f);
    }
    if Enters(fs, id) {
      var f :| f in fs && f.target == id;
      var e := RouteFound(es, fs, f);
    }
  }

  lemma EdgesPermute(es: seq<Edge>, fs: seq<Edge>)
    requires multiset(Map(es, Route)) == multiset(Map(fs, Route))
    requires Pairwise(es, EdgesAgree)
    ensures Pairwise(fs, EdgesAgree)
  {
    forall i, j | 0 <= i < |es| && 0 <= j < |es| && i != j
      ensures EdgesAgree(Map(es, Route)[i], Map(es, Route)[j])
    {
      assert EdgesAgree(es[i], es[j]);
    }
    PairwisePermutes(Map(es, Route), Map(fs, Route), EdgesAgree);
    forall i, j | 0 <= i < |fs| && 0 <= j < |fs| && i != j
      ensures EdgesAgree(fs[i], fs[j])
    {
      assert EdgesAgree(Map(fs, Route)[i], Map(fs, Route)[j]);
    }
  }

  lemma ConnectionsPermute(ns: seq<Node>, ms: seq<Node>, es: seq<Edge>, fs: seq<Edge>)
    requires multiset(ns) == multiset(ms) && multiset(Map(es, Route)) == multiset(Map(fs, Route))
    requires ValidConnections(ns, es)
    ensures ValidConnections(ms, fs)
  {
    SameMembers(ns, ms);
    assert Ids(ns) == Ids(ms);
    EdgesPermute(es, fs);
    forall f | f in fs
      ensures f.source in Ids(ms) && f.target in Ids(ms) && ValidEdge(f)
    {
      var e := RouteFound(es, fs, f);
    }
    forall n | n in ms
      ensures StepRules(n, fs)
    {
      assert n in ns && StepRules(n, es);
      LeadsAlike(es, fs, n.id);
      LeadsAlike(fs, es, n.id);
    }
  }

  // ---------------------------------------------------------------- skipping re-validation

  lemma RestrictKeeps(f: Fields, keys: set<string>, k: string, o: Origin)
    requires k in keys
    ensures TextOr(Restrict(f, keys), k) == TextOr(f, k) && FixedOr(Restrict(f, keys), k, o) == FixedOr(f, k, o)
    ensures SubObject(Restrict(f, keys), k) == SubObject(f, k)
  {}

  lemma SameStep(a: Fields, b: Fields, o: Origin)
    requires TextOr(a, "id") == TextOr(b, "id") && TextOr(a, "type") == TextOr(b, "type")
    requires FixedOr(a, "id", o) == FixedOr(b, "id", o) && FixedOr(a, "type", o) == FixedOr(b, "type", o)
    requires SubObject(a, "data") == SubObject(b, "data")
    ensures NodeOf(a) == NodeOf(b) && FixedStep(a, o) == FixedStep(b, o)
  {}

  lemma StepReadsLogicOnly(f: Fields, o: Origin)
    ensures NodeOf(Restrict(f, NODE_LOGIC)) == NodeOf(f)
    ensures FixedStep(Restrict(f, NODE_LOGIC), o) == FixedStep(f, o)
  {
    RestrictKeeps(f, NODE_LOGIC, "id", o);
    RestrictKeeps(f, NODE_LOGIC, "type", o);
    RestrictKeeps(f, NODE_LOGIC, "data", o);
    SameStep(Restrict(f, NODE_LOGIC), f, o);
  }

  lemma SameConnection(a: Fields, b: Fields, o: Origin)
    requires TextOr(a, "source") == TextOr(b, "source") && TextOr(a, "target") == TextOr(b, "target")
    requires FixedOr(a, "source", o) == FixedOr(b, "source", o) && FixedOr(a, "target", o) == FixedOr(b, "target", o)
    requires SubObject(a, "data") == SubObject(b, "data")
    ensures RouteOf(a) == RouteOf(b) && FixedConnection(a, o) == FixedConnection(b, o)
  {}

  lemma ConnectionReadsLogicOnly(f: Fields, o: Origin)
    ensures RouteOf(Restrict(f, EDGE_LOGIC)) == RouteOf(f)
    ensures FixedConnection(Restrict(f, EDGE_LOGIC), o) == FixedConnection(f, o)
  {
    RestrictKeeps(f, EDGE_LOGIC, "source", o);
    RestrictKeeps(f, EDGE_LOGIC, "target", o);
    RestrictKeeps(f, EDGE_LOGIC, "data", o);
    SameConnection(Restrict(f, EDGE_LOGIC), f, o);
  }

  lemma AllParsed<U>(items: seq<Json>, parsed: seq<Option<U>>, parse: Json -> Option<U>)
    requires |parsed| == |items| && forall i :: 0 <= i < |items| ==> parsed[i] == parse(items[i])
    requires forall j :: parse(j).Some? <==> j.Obj?
    ensures AllSome(parsed) <==> forall i :: 0 <= i < |items| ==> items[i].Obj?
  {}

  lemma ShapeSteps(raw: Json)
    requires raw.Obj?
    ensures AllSome(Steps(raw)) <==> forall i :: 0 <= i < |SubList(raw.fields, "nodes")| ==>
      SubList(raw.fields, "nodes")[i].Obj?
    ensures AllSome(Connections(raw)) <==> forall i :: 0 <= i < |SubList(raw.fields, "edges")| ==>
      SubList(raw.fields, "edges")[i].Obj?
  {
    hide NodeOf, EdgeOf, SubList, AllSome;
    AllParsed(SubList(raw.fields, "nodes"), Steps(raw), StepOf);
    AllParsed(SubList(raw.fields, "edges"), Connections(raw), ConnectionOf);
  }

  /** A valid shape is one whose two lists have views, the first not empty. */
  lemma ShapeViews(raw: Json)
    ensures ValidShape(raw) <==> NodeViews(raw).Some? && EdgeViews(raw).Some? && NodeViews(raw).value != []
  {
    hide NodeOf, EdgeOf, AllSome, StepOf, ConnectionOf;
    if raw.Obj? { ShapeSteps(raw); }
  }

  /** What only reads the logic keys gives the same on the views as on the full entries. */
  lemma ViewsAgree<U>(full: seq<Fields>, keys: set<string>, parse: Fields -> U, plain: Fields -> bool)
    requires forall f :: parse(Restrict(f, keys)) == parse(f) && plain(Restrict(f, keys)) == plain(f)
    ensures var views := Map(full, (f: Fields) => Restrict(f, keys));
      Map(views, parse) == Map(full, parse) && (Everywhere(views, plain) <==> Everywhere(full, plain))
  {
    var views := Map(full, (f: Fields) => Restrict(f, keys));
    assert forall i :: 0 <= i < |full| ==> views[i] == Restrict(full[i], keys);
  }

  lemma ViewsAre(graph: Fields, key: string, keys: set<string>)
    requires Views(graph, key, keys).Some?
    ensures Views(graph, key, keys).value == Map(Objects(SubList(graph, key)), (f: Fields) => Restrict(f, keys))
  {}

  lemma ValuesAre<U>(items: seq<Json>, parsed: seq<Option<U>>, parse: Fields -> U)
    requires |parsed| == |items| && AllSome(parsed)
    requires forall i :: 0 <= i < |items| ==> parsed[i] == if items[i].Obj? then Some(parse(items[i].fields)) else None
    ensures Values(parsed) == Map(Objects(items), parse)
  {
    EachValue(parsed);
  }

  lemma NodesAre(raw: Json)
    requires ValidShape(raw)
    ensures NodesOf(raw) == Map(RawSteps(raw), NodeOf)
  {
    ValuesAre(SubList(raw.fields, "nodes"), Steps(raw), NodeOf);
  }

  lemma EdgesAre(raw: Json)
    requires ValidShape(raw)
    ensures EdgesOf(raw) == Map(RawConnections(raw), EdgeOf)
  {
    ValuesAre(SubList(raw.fields, "edges"), Connections(raw), EdgeOf);
  }

  lemma StepsOfViews(raw: Json, o: Origin)
    requires ValidShape(raw) && NodeViews(raw).Some?
    ensures NodesOf(raw) == Map(NodeViews(raw).value, NodeOf)
    ensures Everywhere(NodeViews(raw).value, FixedSteps(o)) <==> Everywhere(RawSteps(raw), FixedSteps(o))
  {
    NodesAre(raw);
    ViewsAre(raw.fields, "nodes", NODE_LOGIC);
    StepViewsAgree(RawSteps(raw), o);
  }

  lemma StepViewsAgree(full: seq<Fields>, o: Origin)
    ensures var views := Map(full, (f: Fields) => Restrict(f, NODE_LOGIC));
      Map(views, NodeOf) == Map(full, NodeOf) && (Everywhere(views, FixedSteps(o)) <==> Everywhere(full, FixedSteps(o)))
  {
    forall f ensures NodeOf(Restrict(f, NODE_LOGIC)) == NodeOf(f)
        && FixedStep(Restrict(f, NODE_LOGIC), o) == FixedStep(f, o) {
      StepReadsLogicOnly(f, o);
    }
    ViewsAgree(full, NODE_LOGIC, NodeOf, FixedSteps(o));
  }

  lemma RoutesOfViews(raw: Json, o: Origin)
    requires ValidShape(raw) && EdgeViews(raw).Some?
    ensures Map(EdgesOf(raw), Route) == Map(EdgeViews(raw).value, RouteOf)
    ensures Everywhere(EdgeViews(raw).value, FixedConnections(o)) <==>
      Everywhere(RawConnections(raw), FixedConnections(o))
  {
    EdgesAre(raw);
    ViewsAre(raw.fields, "edges", EDGE_LOGIC);
    RouteViewsAgree(RawConnections(raw), o);
    assert Map(Map(RawConnections(raw), EdgeOf), Route) == Map(RawConnections(raw), RouteOf);
  }

  lemma RouteViewsAgree(full: seq<Fields>, o: Origin)
    ensures var views := Map(full, (f: Fields) => Restrict(f, EDGE_LOGIC));
      Map(views, RouteOf) == Map(full, RouteOf)
        && (Everywhere(views, FixedConnections(o)) <==> Everywhere(full, FixedConnections(o)))
  {
    forall f ensures RouteOf(Restrict(f, EDGE_LOGIC)) == RouteOf(f)
        && FixedConnection(Restrict(f, EDGE_LOGIC), o) == FixedConnection(f, o) {
      ConnectionReadsLogicOnly(f, o);
    }
    ViewsAgree(full, EDGE_LOGIC, RouteOf, FixedConnections(o));
  }

  lemma FixedFromViews(raw: Json, o: Origin)
    requires ValidShape(raw) && NodeViews(raw).Some? && EdgeViews(raw).Some?
    ensures FixedGraph(raw, o) <==>
      && Everywhere(NodeViews(raw).value, FixedSteps(o)) && Everywhere(EdgeViews(raw).value, FixedConnections(o))
      && Pinned(Sort(NodeViews(raw).value), o)
  {
    hide Pinned;
    StepsOfViews(raw, o);
    RoutesOfViews(raw, o);
  }

  /** The graphs describe the same steps and, up to the ids of connections, the same connections. */
  ghost predicate SameParts(a: Json, b: Json)
    requires ValidShape(a) && ValidShape(b)
  {
    && multiset(NodesOf(a)) == multiset(NodesOf(b))
    && multiset(Map(EdgesOf(a), Route)) == multiset(Map(EdgesOf(b), Route))
  }

  /** Lists whose sorted views parse alike, place by place, hold the same parsed entries. */
  lemma EqualViewsParse<U>(va: seq<Fields>, vb: seq<Fields>, parse: Fields -> U, fixed: Fields -> bool)
    requires |Sort(va)| == |Sort(vb)|
    requires forall i :: 0 <= i < |Sort(va)| ==> parse(Sort(va)[i]) == parse(Sort(vb)[i]) && fixed(Sort(vb)[i])
    ensures multiset(Map(va, parse)) == multiset(Map(vb, parse)) && |va| == |vb|
    ensures Everywhere(vb, fixed)
  {
    var sa, sb := Sort(va), Sort(vb);
    SortPermutes(va);
    SortPermutes(vb);
    SameMembers(sa, va);
    SameMembers(sb, vb);
    assert Map(sa, parse) == Map(sb, parse);
    MapPermutes(sa, va, parse);
    MapPermutes(sb, vb, parse);
    forall j | 0 <= j < |vb| ensures fixed(vb[j]) {
      assert vb[j] in sb;
    }
  }

  lemma SortedEverywhere(views: seq<Fields>, fixed: Fields -> bool)
    requires Everywhere(views, fixed)
    ensures Everywhere(Sort(views), fixed)
  {
    SortPermutes(views);
    SameMembers(Sort(views), views);
    forall i | 0 <= i < |Sort(views)| ensures fixed(Sort(views)[i]) { assert Sort(views)[i] in views; }
  }

  lemma SortedFrom(views: seq<Fields>, o: Origin)
    requires AllFrom(views, o)
    ensures AllFrom(Sort(views), o)
  {
    hide FieldsFrom;
    SortedEverywhere(views, (v: Fields) => FieldsFrom(v, o));
  }

  lemma ViewsFrom(graph: Fields, key: string, keys: set<string>, o: Origin)
    requires FieldsFrom(graph, o) && Views(graph, key, keys).Some?
    ensures AllFrom(Views(graph, key, keys).value, o)
  {
    var views := Views(graph, key, keys).value;
    ViewsAre(graph, key, keys);
    SubListFrom(graph, key, o);
    forall i | 0 <= i < |views| ensures FieldsFrom(views[i], o) {
      assert From(SubList(graph, key)[i], o);
      assert forall k :: k in views[i] ==> views[i][k] == Objects(SubList(graph, key))[i][k];
    }
  }

  lemma EqualStepViews(va: seq<Fields>, vb: seq<Fields>, o: Origin)
    requires EqualLists(Sort(va), Sort(vb)) && Everywhere(va, FixedSteps(o)) && Pinned(Sort(va), o)
    requires AllFrom(va, o) && AllFrom(vb, o)
    ensures multiset(Map(va, NodeOf)) == multiset(Map(vb, NodeOf)) && |va| == |vb|
    ensures Everywhere(vb, FixedSteps(o)) && Pinned(Sort(vb), o)
  {
    var sa, sb := Sort(va), Sort(vb);
    SortOrdered(va);
    SortOrdered(vb);
    SortedFrom(va, o);
    SortedFrom(vb, o);
    PinnedKeys(sa, sb, o);
    SortedEverywhere(va, FixedSteps(o));
    hide FixedStep, NodeOf, Pinned, SortKey, Ordered, FieldsFrom;
    forall i | 0 <= i < |sa| ensures NodeOf(sa[i]) == NodeOf(sb[i]) && FixedStep(sb[i], o) {
      assert FixedSteps(o)(sa[i]) && FieldsFrom(sa[i], o) && FieldsFrom(sb[i], o) && EqualFields(sa[i], sb[i]);
      EqualStep(sa[i], sb[i], o);
    }
    EqualViewsParse(va, vb, NodeOf, FixedSteps(o));
  }

  lemma EqualRouteViews(va: seq<Fields>, vb: seq<Fields>, o: Origin)
    requires EqualLists(Sort(va), Sort(vb)) && Everywhere(va, FixedConnections(o))
    requires AllFrom(va, o) && AllFrom(vb, o)
    ensures multiset(Map(va, RouteOf)) == multiset(Map(vb, RouteOf)) && |va| == |vb|
      && Everywhere(vb, FixedConnections(o))
  {
    var sa, sb := Sort(va), Sort(vb);
    SortedFrom(va, o);
    SortedFrom(vb, o);
    SortedEverywhere(va, FixedConnections(o));
    hide FixedConnection, RouteOf, FieldsFrom;
    forall i | 0 <= i < |sa| ensures RouteOf(sa[i]) == RouteOf(sb[i]) && FixedConnection(sb[i], o) {
      assert FixedConnections(o)(sa[i]) && FieldsFrom(sa[i], o) && FieldsFrom(sb[i], o) && EqualFields(sa[i], sb[i]);
      EqualConnection(sa[i], sb[i], o);
    }
    EqualViewsParse(va, vb, RouteOf, FixedConnections(o));
  }

  /** Skipping re-validation is sound when equality decides what the validated graph says: an equivalent graph
      validates too and describes the same steps and connections. */
  lemma SkipIsSound(a: Json, b: Json, o: Origin)
    requires Valid(a) && FixedGraph(a, o) && SameLogic(a, b) && From(a, o) && From(b, o)
    ensures Valid(b) && SameParts(a, b) && FixedGraph(b, o)
  {
    hide FixedGraph, FixedStep, FixedConnection, Pinned, AllFrom, From, Valid, ValidSteps, ValidConnections, ValidShape,
         SameLogic, NodeViews, EdgeViews, NodesOf, EdgesOf, SameParts;
    ValidParts(a);
    ShapeViews(a);
    LogicEqual(a, b);
    GraphViewsFrom(a, o);
    GraphViewsFrom(b, o);
    FixedFromViews(a, o);
    EqualStepViews(NodeViews(a).value, NodeViews(b).value, o);
    EqualRouteViews(EdgeViews(a).value, EdgeViews(b).value, o);
    ShapeViews(b);
    FixedFromViews(b, o);
    EqualViewsSound(a, b, o);
  }

  lemma ValidParts(raw: Json)
    requires Valid(raw)
    ensures ValidShape(raw)
  {}

  lemma LogicEqual(a: Json, b: Json)
    requires SameLogic(a, b)
    ensures NodeViews(a).Some? && NodeViews(b).Some? && EdgeViews(a).Some? && EdgeViews(b).Some?
    ensures EqualLists(Sort(NodeViews(a).value), Sort(NodeViews(b).value))
    ensures EqualLists(Sort(EdgeViews(a).value), Sort(EdgeViews(b).value))
  {}

  lemma GraphViewsFrom(raw: Json, o: Origin)
    requires From(raw, o) && NodeViews(raw).Some? && EdgeViews(raw).Some?
    ensures AllFrom(NodeViews(raw).value, o) && AllFrom(EdgeViews(raw).value, o)
  {
    assert FieldsFrom(raw.fields, o);
    hide From, FieldsFrom, Views;
    ViewsFrom(raw.fields, "nodes", NODE_LOGIC, o);
    ViewsFrom(raw.fields, "edges", EDGE_LOGIC, o);
  }

  /** Graphs whose views parse alike are valid alike. */
  lemma EqualViewsSound(a: Json, b: Json, o: Origin)
    requires Valid(a) && ValidShape(b)
    requires NodeViews(a).Some? && NodeViews(b).Some? && EdgeViews(a).Some? && EdgeViews(b).Some?
    requires multiset(Map(NodeViews(a).value, NodeOf)) == multiset(Map(NodeViews(b).value, NodeOf))
    requires multiset(Map(EdgeViews(a).value, RouteOf)) == multiset(Map(EdgeViews(b).value, RouteOf))
    ensures Valid(b) && SameParts(a, b)
  {
    hide NodeOf, RouteOf, FixedStep, FixedConnection, ValidSteps, ValidConnections, ValidShape, NodeViews, EdgeViews,
         NodesOf, EdgesOf;
    StepsOfViews(a, o);
    StepsOfViews(b, o);
    RoutesOfViews(a, o);
    RoutesOfViews(b, o);
    StepsPermute(NodesOf(a), NodesOf(b));
    ConnectionsPermute(NodesOf(a), NodesOf(b), EdgesOf(a), EdgesOf(b));
  }

  // ---------------------------------------------------------------- graphs put together from entries

  /** A dictionary as a column returns it. */
  function Record(fields: Fields): Json { Obj(fields, COLUMN_ORDER(fields.Keys)) }

  function Wrapped(views: seq<Fields>): Json { List(Map(views, (v: Fields) => Record(v))) }

  function GraphOf(extra: Fields, steps: seq<Fields>, moves: seq<Fields>): Json {
    Record(extra["nodes" := Wrapped(steps)]["edges" := Wrapped(moves)])
  }

  lemma GraphOfParts(extra: Fields, steps: seq<Fields>, moves: seq<Fields>)
    requires steps != []
    ensures var g := GraphOf(extra, steps, moves);
      && ValidShape(g) && RawSteps(g) == steps && RawConnections(g) == moves
      && NodesOf(g) == Map(steps, NodeOf) && EdgesOf(g) == Map(moves, EdgeOf)
  {
    var g := GraphOf(extra, steps, moves);
    GraphOfShape(extra, steps, moves);
    NodesAre(g);
    EdgesAre(g);
  }

  lemma GraphOfShape(extra: Fields, steps: seq<Fields>, moves: seq<Fields>)
    requires steps != []
    ensures var g := GraphOf(extra, steps, moves);
      ValidShape(g) && RawSteps(g) == steps && RawConnections(g) == moves
  {
    var g := GraphOf(extra, steps, moves);
    ShapeViews(g);
    assert SubList(g.fields, "nodes") == Wrapped(steps).items && SubList(g.fields, "edges") == Wrapped(moves).items;
  }
}
