/** The graph a new agent gets, the creation of agents, and what an unlucky publish can do when the peeked graph is
    not fixed. */
module Starter {
  import opened Text
  import opened Json
  import opened WorkflowGraph
  import opened Validation
  import opened Permutations
  import opened SortedViews
  import opened Equivalence
  import opened Publishing
  import opened AgentRows
  import SkipExact

  function Entry(id: string, kind: string, data: Fields): Fields {
    map["id" := Str(id), "type" := Str(kind), "position" := Record(map[]), "data" := Record(data)]
  }

  function AlwaysOnData(systemPrompt: string): Fields {
    map["name" := Str("always applies"), "prompt" := Str(systemPrompt)]
  }

  function StartData(greeting: string): Fields {
    map["name" := Str("greeting"), "prompt" := Str("Greet the caller and find out what they need."),
        "greeting" := Str(greeting), "tools" := List([]), "knowledge_base_ids" := List([])]
  }

  function EndData(): Fields {
    map["name" := Str("goodbye"), "prompt" := Str("Confirm anything outstanding and close warmly."),
        "disposition" := Str("completed")]
  }

  function EndMove(): Fields {
    SkipExact.MoveEntry(Str("start"), Str("end"), "conversation finished", "The caller has no further questions.")
      ["id" := Str("e-start-end")]
  }

  function StarterSteps(greeting: string, systemPrompt: string): seq<Fields> {
    [Entry("global", "global", AlwaysOnData(systemPrompt)),
     Entry("start", "start", StartData(greeting)),
     Entry("end", "end", EndData())]
  }

  function StarterGraph(greeting: string, systemPrompt: string): Json {
    GraphOf(map["version" := Int(1)], StarterSteps(greeting, systemPrompt), [EndMove()])
  }

  // ---------------------------------------------------------------- it is valid

  lemma StripTight(s: string)
    requires s != "" && !IsSpace(s[0]) && !IsSpace(s[|s| - 1])
    ensures Strip(s) == s
  {}

  lemma {:induction false} LowerLength(s: string)
    requires IsAscii(s)
    ensures |Lower(s)| == |s|
  {
    if s != "" { LowerLength(s[1..]); }
  }

  lemma {:induction false} TrimKeepsHead(s: string)
    requires s != "" && s[0] != '_'
    ensures TrimUnderscores(s) != ""
    decreases |s|
  {
    if s[|s| - 1] == '_' { TrimKeepsHead(s[..|s| - 1]); }
  }

  lemma ToolNameNonEmpty(s: string)
    requires s != "" && IsLower(s[0]) && IsAscii(s)
    ensures ToolName(s) != ""
  {
    assert AsciiLower(s)[0] == s[0];
    assert Collapse(Lower(s))[0] == s[0];
    TrimKeepsHead(Collapse(Lower(s)));
  }

  /** Equality decides what the step says, its id and its column included. */
  ghost predicate SaidInStrings(v: Fields) {
    FixedStep(v, Sent) && FixedOptional(v, "id", Sent) && FixedOptional(SubObject(v, "data"), "prompt", Sent)
      && FixedOptional(SubObject(v, "data"), "greeting", Sent)
  }

  lemma EntryNode(id: string, kind: string, data: Fields, name: string)
    requires id != "" && kind != "" && name != "" && "name" in data && data["name"] == Str(name)
    requires !IsSpace(name[0]) && !IsSpace(name[|name| - 1])
    ensures var n := NodeOf(Entry(id, kind, data)); n.id == id && n.kind == kind && n.name == name
    ensures FixedData(data, Sent) && FixedOptional(data, "prompt", Sent) && FixedOptional(data, "greeting", Sent) ==>
      SaidInStrings(Entry(id, kind, data))
  {
    hide StepDataOf, FixedData;
    var f := Entry(id, kind, data);
    assert SubObject(f, "data") == data;
    assert TextOr(f, "id") == id && TextOr(f, "type") == kind;
    StripTight(name);
    DataName(data, name);
  }

  lemma DataName(data: Fields, name: string)
    requires "name" in data && data["name"] == Str(name) && name != "" && Strip(name) == name
    ensures StepDataOf(data).spoken.name == name
  {
    hide Strip, OptionalText, ListedOf, EndingOf, ExtractionOf, DelayedStart;
  }

  lemma AlwaysOnFixed(s: string)
    ensures FixedData(AlwaysOnData(s), Sent) && FixedOptional(AlwaysOnData(s), "prompt", Sent)
      && FixedOptional(AlwaysOnData(s), "greeting", Sent)
  {}

  lemma StartFixed(s: string)
    ensures FixedData(StartData(s), Sent) && FixedOptional(StartData(s), "prompt", Sent)
      && FixedOptional(StartData(s), "greeting", Sent)
  {}

  lemma EndFixed()
    ensures FixedData(EndData(), Sent) && FixedOptional(EndData(), "prompt", Sent)
      && FixedOptional(EndData(), "greeting", Sent)
  {}

  /** A connection described by strings only. */
  lemma TextMove(source: string, target: string, labelText: string, condition: string, f: Fields)
    requires source != "" && target != "" && labelText != "" && condition != ""
    requires "id" in f && f == SkipExact.MoveEntry(Str(source), Str(target), labelText, condition)["id" := f["id"]]
    ensures RouteOf(f) == Edge("", source, target, Strip(labelText), Strip(condition), None)
    ensures FixedConnection(f, Sent)
  {
    hide RouteOf;
    assert "source" in f && f["source"] == Str(source);
    assert "target" in f && f["target"] == Str(target);
    assert "data" in f && f["data"] == Record(SkipExact.MoveData(labelText, condition));
    SkipExact.MoveEntryRoute(f, Str(source), Str(target), labelText, condition);
    assert SubObject(f, "data") == SkipExact.MoveData(labelText, condition);
    TextMoveData(labelText, condition);
  }

  lemma TextMoveData(labelText: string, condition: string)
    ensures FixedMove(SkipExact.MoveData(labelText, condition), Sent)
  {}

  lemma EndMoveEdge()
    ensures var e := EdgeOf(EndMove()); e.source == "start" && e.target == "end" && ValidEdge(e)
    ensures FixedConnection(EndMove(), Sent)
  {
    hide ToolName, EdgeOf, FixedConnection, Strip;
    TextMove("start", "end", "conversation finished", "The caller has no further questions.", EndMove());
    StripTight("conversation finished");
    StripTight("The caller has no further questions.");
    ToolNameNonEmpty("conversation finished");
    var e := RouteOf(EndMove());
    assert e.source == EdgeOf(EndMove()).source && e.labelText == EdgeOf(EndMove()).labelText
      && e.condition == EdgeOf(EndMove()).condition;
  }

  lemma ThreeValid(x: Node, y: Node, z: Node, e: Edge)
    requires ValidNode(x) && ValidNode(y) && ValidNode(z)
    requires x.kind == "global" && y.kind == "start" && z.kind == "end"
    requires x.id != y.id && x.id != z.id && y.id != z.id
    requires Lower(x.name) != Lower(y.name) && Lower(x.name) != Lower(z.name) && Lower(y.name) != Lower(z.name)
    requires e.source == y.id && e.target == z.id && ValidEdge(e)
    ensures ValidSteps([x, y, z]) && ValidConnections([x, y, z], [e])
  {
    hide ValidNode, ValidEdge, Lower;
    var ns := [x, y, z];
    assert x in ns && y in ns && z in ns && e in [e];
    assert forall n :: n in ns <==> n == x || n == y || n == z;
    assert Ids(ns) == {x.id, y.id, z.id};
    assert forall f :: f in [e] <==> f == e;
  }

  lemma DataNames(greeting: string, systemPrompt: string)
    ensures "name" in AlwaysOnData(systemPrompt) && AlwaysOnData(systemPrompt)["name"] == Str("always applies")
    ensures "name" in StartData(greeting) && StartData(greeting)["name"] == Str("greeting")
    ensures "name" in EndData() && EndData()["name"] == Str("goodbye")
  {}

  lemma StarterNodes(greeting: string, systemPrompt: string)
    ensures var s := StarterSteps(greeting, systemPrompt);
      && NodeOf(s[0]).id == "global" && NodeOf(s[0]).kind == "global" && NodeOf(s[0]).name == "always applies"
      && NodeOf(s[1]).id == "start" && NodeOf(s[1]).kind == "start" && NodeOf(s[1]).name == "greeting"
      && NodeOf(s[2]).id == "end" && NodeOf(s[2]).kind == "end" && NodeOf(s[2]).name == "goodbye"
      && Everywhere(s, SaidInStrings)
  {
    hide NodeOf, SaidInStrings, FixedData, FixedOptional, AlwaysOnData, StartData, EndData;
    AlwaysOnFixed(systemPrompt);
    StartFixed(greeting);
    EndFixed();
    DataNames(greeting, systemPrompt);
    EntryNode("global", "global", AlwaysOnData(systemPrompt), "always applies");
    EntryNode("start", "start", StartData(greeting), "greeting");
    EntryNode("end", "end", EndData(), "goodbye");
  }

  lemma StarterParts(greeting: string, systemPrompt: string)
    ensures
      var g, steps := StarterGraph(greeting, systemPrompt), StarterSteps(greeting, systemPrompt);
      && ValidShape(g) && RawSteps(g) == steps && RawConnections(g) == [EndMove()]
      && NodesOf(g) == [NodeOf(steps[0]), NodeOf(steps[1]), NodeOf(steps[2])] && EdgesOf(g) == [EdgeOf(EndMove())]
  {
    hide NodeOf, EdgeOf, GraphOf, ValidShape, NodesOf, EdgesOf, RawSteps, RawConnections;
    var steps := StarterSteps(greeting, systemPrompt);
    GraphOfParts(map["version" := Int(1)], steps, [EndMove()]);
    assert Map(steps, NodeOf) == [NodeOf(steps[0]), NodeOf(steps[1]), NodeOf(steps[2])];
    assert Map([EndMove()], EdgeOf) == [EdgeOf(EndMove())];
  }

  lemma StepCount(greeting: string, systemPrompt: string)
    ensures |StarterSteps(greeting, systemPrompt)| == 3
  {}

  lemma StarterValid(greeting: string, systemPrompt: string)
    ensures Valid(StarterGraph(greeting, systemPrompt))
  {
    hide NodeOf, EdgeOf, ValidSteps, ValidConnections, SaidInStrings, FixedConnection, Lower, ValidEdge, StarterGraph,
         StarterSteps, ValidShape, NodesOf, EdgesOf, EndMove, IsAscii;
    StarterParts(greeting, systemPrompt);
    StarterNodes(greeting, systemPrompt);
    EndMoveEdge();
    DistinctNames();
    StepCount(greeting, systemPrompt);
    var steps := StarterSteps(greeting, systemPrompt);
    ThreeSteps(greeting, systemPrompt);
    ThreeValid(NodeOf(steps[0]), NodeOf(steps[1]), NodeOf(steps[2]), EdgeOf(EndMove()));
  }

  lemma ThreeSteps(greeting: string, systemPrompt: string)
    ensures
      var steps := StarterSteps(greeting, systemPrompt);
      ValidNode(NodeOf(steps[0])) && ValidNode(NodeOf(steps[1])) && ValidNode(NodeOf(steps[2]))
  {
    hide NodeOf, SaidInStrings;
    StarterNodes(greeting, systemPrompt);
  }

  lemma DistinctNames()
    ensures Lower("always applies") != Lower("greeting") && Lower("always applies") != Lower("goodbye")
    ensures Lower("greeting") != Lower("goodbye")
  {
    hide Lower;
    LowerLength("always applies");
    LowerLength("greeting");
    LowerLength("goodbye");
  }

  /** The starter graph validates for every greeting and system prompt, and equality decides what it says: a new
      agent's graph is inside every condition on publishing. */
  lemma StarterSound(greeting: string, systemPrompt: string)
    ensures Valid(StarterGraph(greeting, systemPrompt)) && FixedColumns(StarterGraph(greeting, systemPrompt))
    ensures FixedGraph(StarterGraph(greeting, systemPrompt), Sent)
  {
    hide NodeOf, EdgeOf, Valid, SaidInStrings, FixedConnection, FixedGraph, FixedColumns, StarterGraph, StarterSteps,
         EndMove;
    StarterValid(greeting, systemPrompt);
    StarterParts(greeting, systemPrompt);
    StarterNodes(greeting, systemPrompt);
    EndMoveEdge();
    StringsFixed(StarterGraph(greeting, systemPrompt));
  }

  lemma StringsFixed(raw: Json)
    requires Everywhere(RawSteps(raw), SaidInStrings) && Everywhere(RawConnections(raw), FixedConnections(Sent))
    ensures FixedGraph(raw, Sent) && FixedColumns(raw)
  {
    hide FixedConnection, Pinned, FixedOptional, FixedStep, SubObject, NodeViews, RawSteps;
    forall i | 0 <= i < |RawSteps(raw)| ensures FixedStep(RawSteps(raw)[i], Sent) && FixedLine(RawSteps(raw)[i]) {
      assert SaidInStrings(RawSteps(raw)[i]);
    }
    if NodeViews(raw).Some? { IdsPinned(raw); }
  }

  lemma IdsPinned(raw: Json)
    requires NodeViews(raw).Some? && Everywhere(RawSteps(raw), SaidInStrings)
    ensures Pinned(Sort(NodeViews(raw).value), Sent)
  {
    var views := NodeViews(raw).value;
    var fixedId := (v: Fields) => FixedOptional(v, "id", Sent);
    ViewsAre(raw.fields, "nodes", NODE_LOGIC);
    assert Everywhere(views, fixedId) by {
      assert forall i :: 0 <= i < |views| ==> SaidInStrings(RawSteps(raw)[i]);
    }
    hide FixedOptional, PinnedAt, Views;
    SortedEverywhere(views, fixedId);
    forall p | 0 <= p < |Sort(views)| ensures PinnedAt(Sort(views), p, Sent) {
      assert fixedId(Sort(views)[p]);
      SentFields(Sort(views)[p]);
      FixedPinned(Sort(views), p, Sent);
    }
  }

  // ---------------------------------------------------------------- creating agents

  /** Creates the agent with its first version: the caller's graph if it validates, the starter graph
      built from the two prompts when none is given. */
  method CreateAgent(workflow: Option<Json>, greeting: string, systemPrompt: string) returns (agent: AgentRow?,
      graph: Json)
    ensures graph == if workflow.Some? && Truthy(workflow.value) then workflow.value
      else StarterGraph(greeting, systemPrompt)
    ensures agent != null <==> Valid(graph)
    ensures agent != null ==> fresh(agent) && agent.Value() == NewRow(graph)
  {
    hide Valid, ColumnsOf, StarterGraph;
    graph := if workflow.Some? && Truthy(workflow.value) then workflow.value else StarterGraph(greeting, systemPrompt);
    var errors, g := ValidateAndBuild(graph);
    if errors != [] {
      return null, graph;
    }
    agent := new AgentRow(graph);
  }

  // ---------------------------------------------------------------- without the condition

  /** A draft that changes between the peek and the lock, only in how the number one is printed, goes
      live without being validated: whatever the row was, it ends up with an invalid live graph. */
  lemma UnvalidatedGraphGoesLive(row: Row)
    ensures var requests := [SaveDraft(SkipExact.Numbered(SkipExact.SAME_ID), None),
      Publish(None, SkipExact.Numbered(SkipExact.FIRST_ID))];
      !Valid(Run(row, requests).workflow)
  {
    hide Valid, SameLogic, ColumnsOf, SkipExact.Numbered;
    var a, b := SkipExact.Numbered(SkipExact.FIRST_ID), SkipExact.Numbered(SkipExact.SAME_ID);
    SkipExact.SkipCanAdmitInvalid();
    SameLogicSymmetric(a, b);
    var rs := [SaveDraft(b, None), Publish(None, a)];
    assert rs[..1] == [SaveDraft(b, None)];
    assert rs[..1][..0] == [];
    assert Run(row, rs[..1]) == row.(draft := Some(b));
    assert Run(row, rs) == Published(row.(draft := Some(b)), None, a);
  }
}
