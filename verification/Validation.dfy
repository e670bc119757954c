/**
 From editor JSON to a workflow graph: coercion of raw steps and connections, the structural rules,
 and the error-collecting validator that builds the graph.
 */
module Validation {
  import opened Text
  import opened Json
  import opened WorkflowGraph

  const NODE_TYPES := {"start", "agent", "transfer", "end", "global"}
  const MAX_DELAYED_START_MS := 2000

  // ---------------------------------------------------------------- names

  predicate IsAscii(s: string) { forall i :: 0 <= i < |s| ==> s[i] < '\U{0080}' }

  function AsciiLower(s: string): string {
    if s == "" then ""
    else [if IsUpper(s[0]) then (s[0] as int + 32) as char else s[0]] + AsciiLower(s[1..])
  }

  /** What lower-casing makes of a text that is not ASCII is left open: any function of the text. */
  const UNICODE_LOWER: string -> string

  function Lower(s: string): string { if IsAscii(s) then AsciiLower(s) else UNICODE_LOWER(s) }

  predicate IsSlug(c: char) { IsLower(c) || IsDigit(c) }

  function DropNonSlug(s: string): (r: string)
    ensures |r| <= |s|
  {
    if s != "" && !IsSlug(s[0]) then DropNonSlug(s[1..]) else s
  }

  function Collapse(s: string): string
    decreases |s|
  {
    if s == "" then ""
    else if IsSlug(s[0]) then [s[0]] + Collapse(s[1..])
    else "_" + Collapse(DropNonSlug(s[1..]))
  }

  function TrimUnderscores(s: string): string
    decreases |s|
  {
    if s != "" && s[0] == '_' then TrimUnderscores(s[1..])
    else if s != "" && s[|s| - 1] == '_' then TrimUnderscores(s[..|s| - 1])
    else s
  }

  /** The name the agent calls a connection by. */
  function ToolName(labelText: string): string { TrimUnderscores(Collapse(Lower(labelText))) }

  // ---------------------------------------------------------------- coercion

  function Truncate(v: real): int {
    if v >= 0.0 then v.Floor else -((-v).Floor)
  }

  function Digits(s: string): Option<nat> {
    if s == "" then None
    else if !IsDigit(s[|s| - 1]) then None
    else
      var d := s[|s| - 1] as int - '0' as int;
      if |s| == 1 then Some(d)
      else match Digits(s[..|s| - 1])
        case Some(n) => Some(10 * n + d)
        case None => None
  }

  function SignedDigits(t: string): Option<int> {
    if t != "" && t[0] == '-' then
      match Digits(t[1..]) case Some(n) => var v: int := n; Some(-v) case None => None
    else if t != "" && t[0] == '+' then Digits(t[1..])
    else Digits(t)
  }

  /** What a text with underscores or digits outside ASCII parses as is left open too. */
  const UNUSUAL_INT: string -> Option<int>

  /** `int(text)`; None where Python raises. */
  function ParseInt(s: string): Option<int> {
    var plain := SignedDigits(Strip(s));
    if plain.None? && (!IsAscii(s) || '_' in s) then UNUSUAL_INT(s) else plain
  }

  /** `int(j or 0)`; None where Python raises. */
  function IntOr(j: Json): Option<int> {
    if !Truthy(j) then Some(0)
    else match j
      case Bool(_) => Some(1)
      case Int(n) => Some(n)
      case Float(m, e) => Some(Truncate(FloatValue(m, e)))
      case Str(s) => ParseInt(s)
      case _ => None
  }

  function DelayedStart(data: Fields): int {
    var j := if "delayed_start_ms" in data then data["delayed_start_ms"] else Null;
    match IntOr(j)
    case None => 0
    case Some(v) => if v < 0 then 0 else if v > MAX_DELAYED_START_MS then MAX_DELAYED_START_MS else v
  }

  function TextList(items: seq<Json>): seq<string> {
    seq(|items|, i requires 0 <= i < |items| => Shown(items[i]))
  }

  /** A dictionary with a non-blank name is a variable; anything else is skipped. */
  function VariableIn(j: Json): seq<ExtractionVariable> {
    if j.Obj? && Strip(TextOr(j.fields, "name")) != "" then [VariableOf(j.fields)] else []
  }

  function Variables(items: seq<Json>): seq<ExtractionVariable> {
    if items == [] then [] else VariableIn(items[0]) + Variables(items[1..])
  }

  function VariableOf(v: Fields): ExtractionVariable {
    var kind := TextOr(v, "type");
    ExtractionVariable(Strip(TextOr(v, "name")), if kind == "" then "string" else kind, TextOr(v, "prompt"))
  }

  function ExtractionOf(data: Fields): Option<Extraction> {
    if "extraction" in data && data["extraction"].Obj? then
      var raw := data["extraction"].fields;
      Some(Extraction("enabled" in raw && Truthy(raw["enabled"]), TextOr(raw, "prompt"),
        Variables(SubList(raw, "variables"))))
    else None
  }

  /** `str(value).strip() or None` */
  function StrippedText(data: Fields, key: string): Option<string> {
    match OptionalText(data, key)
    case None => None
    case Some(t) => if Strip(t) == "" then None else Some(Strip(t))
  }

  /** What a step's `data` object contributes. */
  datatype Spoken = Spoken(name: string, prompt: string, greeting: Option<string>)
  datatype Listed = Listed(tools: seq<string>, knowledgeBaseIds: seq<string>)
  datatype Ending = Ending(transferDestination: Option<string>, disposition: Option<string>)
  datatype StepData = StepData(spoken: Spoken, delayedStartMs: int, listed: Listed, extraction: Option<Extraction>,
    ending: Ending)

  function SpokenOf(data: Fields): Spoken {
    Spoken(Strip(TextOr(data, "name")), TextOr(data, "prompt"), OptionalText(data, "greeting"))
  }

  function ListedOf(data: Fields): Listed {
    Listed(TextList(SubList(data, "tools")), TextList(SubList(data, "knowledge_base_ids")))
  }

  function EndingOf(data: Fields): Ending {
    Ending(StrippedText(data, "transfer_destination"), StrippedText(data, "disposition"))
  }

  function StepDataOf(data: Fields): StepData {
    StepData(SpokenOf(data), DelayedStart(data), ListedOf(data), ExtractionOf(data), EndingOf(data))
  }

  function NodeOf(raw: Fields): Node {
    var d := StepDataOf(SubObject(raw, "data"));
    Node(TextOr(raw, "id"), TextOr(raw, "type"), d.spoken.name, d.spoken.prompt, d.spoken.greeting, d.delayedStartMs,
         d.listed.tools, d.listed.knowledgeBaseIds, d.extraction, d.ending.transferDestination, d.ending.disposition,
           [])
  }

  /** What a connection's `data` object contributes. */
  datatype Move = Move(labelText: string, condition: string, speech: string)

  function MoveOf(data: Fields): Move {
    Move(Strip(TextOr(data, "label")), Strip(TextOr(data, "condition")), Strip(TextOr(data, "transition_speech")))
  }

  function EdgeOf(raw: Fields): Edge {
    var m := MoveOf(SubObject(raw, "data"));
    Edge(TextOr(raw, "id"), TextOr(raw, "source"), TextOr(raw, "target"), m.labelText, m.condition,
         if m.speech == "" then None else Some(m.speech))
  }

  // ---------------------------------------------------------------- the rules

  predicate ValidNode(n: Node) { n.id != "" && n.kind in NODE_TYPES && n.name != "" }

  /** What two different steps owe each other. */
  predicate NodesAgree(x: Node, y: Node) {
    && x.id != y.id && Lower(x.name) != Lower(y.name)
    && !(x.kind == "start" && y.kind == "start")
    && !(x.IsUnwired() && y.IsUnwired())
  }

  predicate ValidEdge(e: Edge) { e.labelText != "" && ToolName(e.labelText) != "" && e.condition != "" }

  /** Two connections out of one step must look different to the agent. */
  predicate EdgesAgree(x: Edge, y: Edge) {
    x.source == y.source ==> ToolName(x.labelText) != ToolName(y.labelText)
  }

  predicate Leads(es: seq<Edge>, id: string) { exists e :: e in es && e.source == id }

  predicate Enters(es: seq<Edge>, id: string) { exists e :: e in es && e.target == id }

  predicate StepRules(n: Node, es: seq<Edge>) {
    if n.IsUnwired() then !Leads(es, n.id) && !Enters(es, n.id)
    else
      && (n.kind == "start" ==> !Enters(es, n.id))
      && (n.kind == "transfer" ==> n.transferDestination.Some?)
      && (n.IsTerminal() <==> !Leads(es, n.id))
  }

  predicate HasKind(ns: seq<Node>, kind: string) { exists n :: n in ns && n.kind == kind }

  function Ids(ns: seq<Node>): set<string> { set n | n in ns :: n.id }

  ghost predicate ValidSteps(ns: seq<Node>) {
    && (forall n :: n in ns ==> ValidNode(n))
    && (forall i, j :: 0 <= i < |ns| && 0 <= j < |ns| && i != j ==> NodesAgree(ns[i], ns[j]))
    && HasKind(ns, "start") && HasKind(ns, "end")
  }

  ghost predicate ValidConnections(ns: seq<Node>, es: seq<Edge>) {
    && (forall e :: e in es ==> e.source in Ids(ns) && e.target in Ids(ns) && ValidEdge(e))
    && (forall i, j :: 0 <= i < |es| && 0 <= j < |es| && i != j ==> EdgesAgree(es[i], es[j]))
    && (forall n {:trigger StepRules(n, es)} :: n in ns ==> StepRules(n, es))
  }

  /** None for a list element that is not a dictionary. */
  function StepOf(j: Json): Option<Node> { if j.Obj? then Some(NodeOf(j.fields)) else None }

  function ConnectionOf(j: Json): Option<Edge> { if j.Obj? then Some(EdgeOf(j.fields)) else None }

  function Steps(raw: Json): seq<Option<Node>>
    requires raw.Obj?
  {
    var items := SubList(raw.fields, "nodes");
    seq(|items|, i requires 0 <= i < |items| => StepOf(items[i]))
  }

  function Connections(raw: Json): seq<Option<Edge>>
    requires raw.Obj?
  {
    var items := SubList(raw.fields, "edges");
    seq(|items|, i requires 0 <= i < |items| => ConnectionOf(items[i]))
  }

  ghost predicate AllSome<T>(s: seq<Option<T>>) {
    forall i :: 0 <= i < |s| ==> s[i].Some?
  }

  function Values<T>(s: seq<Option<T>>): (r: seq<T>)
    requires forall i :: 0 <= i < |s| ==> s[i].Some?
    ensures |r| == |s|
  {
    if s == [] then [] else [s[0].value] + Values(s[1..])
  }

  lemma {:induction false} EachValue<T>(s: seq<Option<T>>)
    requires forall i :: 0 <= i < |s| ==> s[i].Some?
    ensures forall i :: 0 <= i < |s| ==> Values(s)[i] == s[i].value
  {
    if s != [] { EachValue(s[1..]); }
  }

  /** The containers are of the kinds the validator insists on. */
  ghost predicate ValidShape(raw: Json) {
    && raw.Obj?
    && Steps(raw) != []
    && ("edges" in raw.fields ==> raw.fields["edges"].List? || !Truthy(raw.fields["edges"]))
    && AllSome(Steps(raw)) && AllSome(Connections(raw))
  }

  ghost function NodesOf(raw: Json): seq<Node>
    requires ValidShape(raw)
  {
    Values(Steps(raw))
  }

  ghost function EdgesOf(raw: Json): seq<Edge>
    requires ValidShape(raw)
  {
    Values(Connections(raw))
  }

  /** The rules, without reference to how the validator goes about checking them. */
  ghost predicate Valid(raw: Json) {
    ValidShape(raw) && ValidSteps(NodesOf(raw)) && ValidConnections(NodesOf(raw), EdgesOf(raw))
  }

  // ---------------------------------------------------------------- the validator

  datatype Error = Error(kind: string, id: Option<string>, field: Option<string>)

  /** Connections out of `id`, in the order they were given. */
  function OutOf(es: seq<Edge>, id: string): seq<Edge> {
    if es == [] then []
    else OutOf(es[..|es| - 1], id) + (if es[|es| - 1].source == id then [es[|es| - 1]] else [])
  }

  lemma {:induction false} OutOfMembers(es: seq<Edge>, id: string)
    ensures forall e :: e in OutOf(es, id) <==> e in es && e.source == id
  {
    if es != [] {
      OutOfMembers(es[..|es| - 1], id);
      assert es == es[..|es| - 1] + [es[|es| - 1]];
    }
  }

  lemma OutOfSnoc(es: seq<Edge>, e: Edge, id: string)
    ensures OutOf(es + [e], id) == OutOf(es, id) + (if e.source == id then [e] else [])
  {
    assert (es + [e])[..|es|] == es;
  }

  ghost predicate StepsAccepted(steps: seq<Option<Node>>) {
    && (forall i :: 0 <= i < |steps| ==> steps[i].Some? && ValidNode(steps[i].value))
    && forall i, j :: 0 <= i < j < |steps| ==>
      steps[i].Some? && steps[j].Some? && steps[i].value.id != steps[j].value.id
  }

  /** The first pass over the steps; any problem here stops the validation. */
  method CheckSteps(steps: seq<Option<Node>>) returns (errors: seq<Error>, nodes: seq<Node>)
    ensures errors == [] <==> StepsAccepted(steps)
    ensures errors == [] ==> |nodes| == |steps| && forall i :: 0 <= i < |steps| ==>
      steps[i].Some? && nodes[i] == steps[i].value
  {
    errors, nodes := [], [];
    for k := 0 to |steps|
      invariant errors == [] <==> StepsAccepted(steps[..k])
      invariant errors == [] ==> |nodes| == k && forall i :: 0 <= i < k ==> steps[i].Some? && nodes[i] == steps[i].value
    {
      ghost var before := steps[..k];
      assert steps[..k + 1] == before + [steps[k]];
      assert forall i :: 0 <= i < k ==> before[i] == steps[..k + 1][i];
      assert steps[..k + 1][k] == steps[k];
      if steps[k].None? {
        errors := errors + [Error("workflow", None, Some("nodes"))];
        continue;
      }
      var node := steps[k].value;
      if node.id == "" {
        errors := errors + [Error("node", None, Some("id"))];
        continue;
      }
      if node.id in Ids(nodes) {
        errors := errors + [Error("node", Some(node.id), Some("id"))];
        continue;
      }
      if node.kind !in NODE_TYPES {
        errors := errors + [Error("node", Some(node.id), Some("type"))];
      }
      if node.name == "" {
        errors := errors + [Error("node", Some(node.id), Some("name"))];
      }
      assert forall i :: 0 <= i < |nodes| ==> nodes[i] in nodes;
      nodes := nodes + [node];
    }
    TakeAll(steps);
  }

  ghost predicate NamesDiffer(ns: seq<Node>) {
    forall i, j :: 0 <= i < j < |ns| ==> Lower(ns[i].name) != Lower(ns[j].name)
  }

  ghost function NameSet(ns: seq<Node>): set<string> { set n | n in ns :: Lower(n.name) }

  lemma NamesDifferSnoc(ns: seq<Node>, n: Node)
    ensures NamesDiffer(ns + [n]) <==> NamesDiffer(ns) && Lower(n.name) !in NameSet(ns)
    ensures NameSet(ns + [n]) == NameSet(ns) + {Lower(n.name)}
  {
    var all := ns + [n];
    assert forall i :: 0 <= i < |ns| ==> all[i] == ns[i] && ns[i] in ns;
    assert all[|ns|] == n;
    assert forall x :: x in all <==> x in ns || x == n;
  }

  lemma NoNames()
    ensures NameSet([]) == {} && NamesDiffer([])
  {}

  /** Names show up in call logs, so no two may differ only in case. */
  method CheckNames(nodes: seq<Node>) returns (errors: seq<Error>)
    ensures errors == [] <==> NamesDiffer(nodes)
  {
    hide Lower, NameSet, NamesDiffer;
    errors := [];
    var seen: map<string, string> := map[];
    NoNames();
    assert nodes[..0] == [];
    for k := 0 to |nodes|
      invariant seen.Keys == NameSet(nodes[..k])
      invariant errors == [] <==> NamesDiffer(nodes[..k])
    {
      TakeSnoc(nodes, k);
      NamesDifferSnoc(nodes[..k], nodes[k]);
      if Lower(nodes[k].name) in seen {
        errors := errors + [Error("node", Some(nodes[k].id), Some("name"))];
      }
      seen := seen[Lower(nodes[k].name) := nodes[k].id];
    }
    TakeAll(nodes);
  }

  function OfKind(ns: seq<Node>, kind: string): seq<Node> {
    if ns == [] then []
    else OfKind(ns[..|ns| - 1], kind) + (if ns[|ns| - 1].kind == kind then [ns[|ns| - 1]] else [])
  }

  ghost predicate AtMostOne(ns: seq<Node>, kind: string) {
    forall i, j :: 0 <= i < j < |ns| ==> !(ns[i].kind == kind && ns[j].kind == kind)
  }

  lemma KindSnoc(ns: seq<Node>, n: Node, kind: string)
    ensures HasKind(ns + [n], kind) <==> HasKind(ns, kind) || n.kind == kind
    ensures AtMostOne(ns + [n], kind) <==> AtMostOne(ns, kind) && !(n.kind == kind && HasKind(ns, kind))
  {
    var all := ns + [n];
    assert forall x :: x in all <==> x in ns || x == n;
    assert forall i :: 0 <= i < |ns| ==> all[i] == ns[i] && ns[i] in ns;
    assert all[|ns|] == n;
  }

  lemma {:induction false} OfKindCounts(ns: seq<Node>, kind: string)
    ensures |OfKind(ns, kind)| > 0 <==> HasKind(ns, kind)
    ensures |OfKind(ns, kind)| <= 1 <==> AtMostOne(ns, kind)
  {
    if ns != [] {
      hide HasKind, AtMostOne;
      var init, last := ns[..|ns| - 1], ns[|ns| - 1];
      OfKindCounts(init, kind);
      KindSnoc(init, last, kind);
      assert ns == init + [last];
    }
  }

  /** One starting point, some ending, at most one always-on instruction. */
  method CheckCensus(nodes: seq<Node>) returns (errors: seq<Error>)
    ensures errors == [] <==>
      HasKind(nodes, "start") && AtMostOne(nodes, "start") && HasKind(nodes, "end") && AtMostOne(nodes, "global")
  {
    errors := [];
    OfKindCounts(nodes, "start");
    OfKindCounts(nodes, "end");
    OfKindCounts(nodes, "global");
    if |OfKind(nodes, "start")| != 1 {
      errors := errors + [Error("workflow", None, None)];
    }
    if |OfKind(nodes, "end")| == 0 {
      errors := errors + [Error("workflow", None, None)];
    }
    if |OfKind(nodes, "global")| > 1 {
      errors := errors + [Error("workflow", None, None)];
    }
  }

  ghost predicate ConnectionAccepted(c: Option<Edge>, nodes: seq<Node>) {
    c.Some? && c.value.source in Ids(nodes) && c.value.target in Ids(nodes) && ValidEdge(c.value)
  }

  method CheckConnections(conns: seq<Option<Edge>>, nodes: seq<Node>) returns (errors: seq<Error>, edges: seq<Edge>)
    ensures errors == [] <==> forall i :: 0 <= i < |conns| ==> ConnectionAccepted(conns[i], nodes)
    ensures errors == [] ==> |edges| == |conns| && forall i :: 0 <= i < |conns| ==> edges[i] == conns[i].value
    ensures forall e :: e in edges ==> e.source in Ids(nodes) && e.target in Ids(nodes)
  {
    errors, edges := [], [];
    for k := 0 to |conns|
      invariant errors == [] <==> forall i :: 0 <= i < k ==> ConnectionAccepted(conns[i], nodes)
      invariant errors == [] ==> |edges| == k && forall i :: 0 <= i < k ==> edges[i] == conns[i].value
      invariant forall e :: e in edges ==> e.source in Ids(nodes) && e.target in Ids(nodes)
    {
      if conns[k].None? {
        errors := errors + [Error("workflow", None, Some("edges"))];
        continue;
      }
      var edge := conns[k].value;
      if edge.source !in Ids(nodes) {
        errors := errors + [Error("edge", Some(edge.id), Some("source"))];
        continue;
      }
      if edge.target !in Ids(nodes) {
        errors := errors + [Error("edge", Some(edge.id), Some("target"))];
        continue;
      }
      if edge.labelText == "" && edge.condition == "" {
        errors := errors + [Error("edge", Some(edge.id), Some("condition"))];
      } else {
        if edge.labelText == "" {
          errors := errors + [Error("edge", Some(edge.id), Some("label"))];
        } else if ToolName(edge.labelText) == "" {
          errors := errors + [Error("edge", Some(edge.id), Some("label"))];
        }
        if edge.condition == "" {
          errors := errors + [Error("edge", Some(edge.id), Some("condition"))];
        }
      }
      edges := edges + [edge];
    }
  }

  ghost predicate ToolsDiffer(es: seq<Edge>) {
    forall i, j :: 0 <= i < j < |es| ==> ToolName(es[i].labelText) != ToolName(es[j].labelText)
  }

  ghost predicate ToolsDifferAt(es: seq<Edge>, id: string) {
    forall i, j :: 0 <= i < j < |es| && es[i].source == id && es[j].source == id ==>
      ToolName(es[i].labelText) != ToolName(es[j].labelText)
  }

  ghost predicate NoClash(es: seq<Edge>, e: Edge) {
    forall x :: x in es ==> ToolName(x.labelText) != ToolName(e.labelText)
  }

  ghost predicate NoClashAt(es: seq<Edge>, e: Edge, id: string) {
    forall x :: x in es && x.source == id ==> ToolName(x.labelText) != ToolName(e.labelText)
  }

  lemma NoClashOut(es: seq<Edge>, e: Edge, id: string)
    ensures NoClash(OutOf(es, id), e) <==> NoClashAt(es, e, id)
  {
    OutOfMembers(es, id);
  }

  lemma ToolsDifferSnoc(es: seq<Edge>, e: Edge)
    ensures ToolsDiffer(es + [e]) <==> ToolsDiffer(es) && NoClash(es, e)
  {
    var all := es + [e];
    assert forall i :: 0 <= i < |es| ==> all[i] == es[i] && es[i] in es;
    assert all[|es|] == e;
  }

  lemma ToolsDifferAtSnoc(es: seq<Edge>, e: Edge, id: string)
    ensures ToolsDifferAt(es + [e], id) <==>
      ToolsDifferAt(es, id) && (e.source == id ==> NoClashAt(es, e, id))
  {
    var all := es + [e];
    assert forall i :: 0 <= i < |es| ==> all[i] == es[i] && es[i] in es;
    assert all[|es|] == e;
  }

  lemma {:induction false} OutOfTools(es: seq<Edge>, id: string)
    ensures ToolsDiffer(OutOf(es, id)) <==> ToolsDifferAt(es, id)
  {
    if es != [] {
      var init, last := es[..|es| - 1], es[|es| - 1];
      assert es == init + [last];
      OutOfTools(init, id);
      OutOfSnoc(init, last, id);
      ToolsDifferAtSnoc(init, last, id);
      if last.source == id {
        NoClashOut(init, last, id);
        ToolsDifferSnoc(OutOf(init, id), last);
      } else {
        assert OutOf(es, id) == OutOf(init, id);
      }
    }
  }

  ghost function ToolSet(es: seq<Edge>): set<string> { set x | x in es :: ToolName(x.labelText) }

  lemma ToolSetSnoc(es: seq<Edge>, e: Edge)
    ensures ToolSet(es + [e]) == ToolSet(es) + {ToolName(e.labelText)}
    ensures NoClash(es, e) <==> ToolName(e.labelText) !in ToolSet(es)
  {
    assert forall x :: x in es + [e] <==> x in es || x == e;
  }

  /** What one more connection means for the tool names seen so far. */
  lemma OneMoreTool(out: seq<Edge>, k: nat)
    requires k < |out|
    ensures ToolSet(out[..k + 1]) == ToolSet(out[..k]) + {ToolName(out[k].labelText)}
    ensures ToolsDiffer(out[..k + 1]) <==> ToolsDiffer(out[..k]) && ToolName(out[k].labelText) !in ToolSet(out[..k])
    ensures AllNamed(out) ==> ToolName(out[k].labelText) != ""
  {
    hide ToolName, ToolSet, ToolsDiffer, NoClash;
    TakeSnoc(out, k);
    ToolsDifferSnoc(out[..k], out[k]);
    ToolSetSnoc(out[..k], out[k]);
  }

  lemma NoTools()
    ensures ToolSet([]) == {} && ToolsDiffer([])
  {}

  /** Labels that collapse to one tool name would shadow each other. */
  method CheckTools(out: seq<Edge>) returns (errors: seq<Error>)
    ensures AllNamed(out) ==> (errors == [] <==> ToolsDiffer(out))
  {
    hide ToolName, ToolSet, ToolsDiffer, AllNamed, Lower;
    errors := [];
    var byTool: map<string, Edge> := map[];
    NoTools();
    assert out[..0] == [];
    for k := 0 to |out|
      invariant AllNamed(out) ==> byTool.Keys == ToolSet(out[..k])
      invariant AllNamed(out) ==> (errors == [] <==> ToolsDiffer(out[..k]))
    {
      OneMoreTool(out, k);
      var tool := ToolName(out[k].labelText);
      if tool == "" {
        continue;
      }
      if tool in byTool {
        errors := errors + [Error("edge", Some(out[k].id), Some("label"))];
        assert errors != [];
      }
      assert byTool[tool := out[k]].Keys == byTool.Keys + {tool};
      byTool := byTool[tool := out[k]];
    }
    TakeAll(out);
  }

  ghost predicate AllNamed(es: seq<Edge>) {
    forall e :: e in es ==> ToolName(e.labelText) != ""
  }

  ghost predicate LocalRules(n: Node, out: seq<Edge>, entered: bool) {
    if n.IsUnwired() then out == [] && !entered
    else
      && (n.kind == "start" ==> !entered)
      && (n.kind == "transfer" ==> n.transferDestination.Some? && Strip(n.transferDestination.value) != "")
      && (n.IsTerminal() <==> out == [])
      && ToolsDiffer(out)
  }

  /** The rules of one step, from the connections out of it and whether any leads in. */
  method CheckRules(n: Node, out: seq<Edge>, entered: bool) returns (errors: seq<Error>)
    ensures AllNamed(out) ==> (errors == [] <==> LocalRules(n, out, entered))
  {
    errors := [];
    if n.IsUnwired() {
      if entered || out != [] {
        errors := errors + [Error("node", Some(n.id), None)];
      }
      return;
    }
    if n.kind == "start" && entered {
      errors := errors + [Error("node", Some(n.id), None)];
    }
    if n.kind == "transfer" && (n.transferDestination.None? || Strip(n.transferDestination.value) == "") {
      errors := errors + [Error("node", Some(n.id), Some("transfer_destination"))];
    }
    if n.IsTerminal() && out != [] {
      errors := errors + [Error("node", Some(n.id), None)];
    }
    if !n.IsTerminal() && out == [] {
      errors := errors + [Error("node", Some(n.id), None)];
    }
    var clashes := CheckTools(out);
    errors := errors + clashes;
  }

  ghost function OutMap(ids: set<string>, es: seq<Edge>): map<string, seq<Edge>> { map id | id in ids :: OutOf(es, id) }

  lemma OutMapSnoc(ids: set<string>, es: seq<Edge>, e: Edge)
    requires e.source in ids
    ensures OutMap(ids, es + [e]) == OutMap(ids, es)[e.source := OutOf(es, e.source) + [e]]
  {
    hide OutOf;
    forall id | id in ids ensures OutOf(es + [e], id) == if id == e.source then OutOf(es, id) + [e] else OutOf(es, id) {
      OutOfSnoc(es, e, id);
    }
  }

  /** How many connections lead into `id`. */
  function CountIn(es: seq<Edge>, id: string): nat {
    if es == [] then 0 else CountIn(es[..|es| - 1], id) + (if es[|es| - 1].target == id then 1 else 0)
  }

  lemma {:induction false} CountInEnters(es: seq<Edge>, id: string)
    ensures CountIn(es, id) > 0 <==> Enters(es, id)
  {
    if es != [] {
      CountInEnters(es[..|es| - 1], id);
      assert es == es[..|es| - 1] + [es[|es| - 1]];
    }
  }

  ghost function InMap(ids: set<string>, es: seq<Edge>): map<string, nat> { map id | id in ids :: CountIn(es, id) }

  lemma InMapSnoc(ids: set<string>, es: seq<Edge>, e: Edge)
    requires e.target in ids
    ensures InMap(ids, es + [e]) == InMap(ids, es)[e.target := CountIn(es, e.target) + 1]
  {
    hide CountIn;
    forall id | id in ids ensures CountIn(es + [e], id) == CountIn(es, id) + (if id == e.target then 1 else 0) {
      CountInSnoc(es, e, id);
    }
  }

  lemma CountInSnoc(es: seq<Edge>, e: Edge, id: string)
    ensures CountIn(es + [e], id) == CountIn(es, id) + (if id == e.target then 1 else 0)
  {
    assert (es + [e])[..|es|] == es;
  }

  lemma NothingWired(ids: set<string>)
    ensures OutMap(ids, []) == map id | id in ids :: []
    ensures InMap(ids, []) == map id | id in ids :: 0
  {}

  /** `out_edges` and `in_count`, for every step. */
  method Wire(ids: set<string>, edges: seq<Edge>) returns (out: map<string, seq<Edge>>, inCount: map<string, nat>)
    requires forall e :: e in edges ==> e.source in ids && e.target in ids
    ensures out == OutMap(ids, edges) && inCount == InMap(ids, edges)
  {
    out := map id | id in ids :: [];
    inCount := map id | id in ids :: 0;
    assert edges[..0] == [];
    NothingWired(ids);
    hide OutOf, CountIn;
    for k := 0 to |edges|
      invariant out == OutMap(ids, edges[..k]) && inCount == InMap(ids, edges[..k])
    {
      var e := edges[k];
      OneMore(ids, edges, k);
      out := out[e.source := out[e.source] + [e]];
      inCount := inCount[e.target := inCount[e.target] + 1];
    }
    TakeAll(edges);
  }

  /** What one more connection changes. */
  lemma OneMore(ids: set<string>, edges: seq<Edge>, k: nat)
    requires k < |edges| && edges[k].source in ids && edges[k].target in ids
    ensures OutMap(ids, edges[..k + 1]) ==
      OutMap(ids, edges[..k])[edges[k].source := OutOf(edges[..k], edges[k].source) + [edges[k]]]
    ensures InMap(ids, edges[..k + 1]) ==
      InMap(ids, edges[..k])[edges[k].target := CountIn(edges[..k], edges[k].target) + 1]
  {
    hide OutMap, InMap, OutOf, CountIn;
    TakeSnoc(edges, k);
    OutMapSnoc(ids, edges[..k], edges[k]);
    InMapSnoc(ids, edges[..k], edges[k]);
  }

  /** Everything the third pass demands of one step. */
  ghost predicate Wired(n: Node, es: seq<Edge>) {
    StepRules(n, es) && (!n.IsUnwired() ==> ToolsDifferAt(es, n.id))
  }

  ghost predicate TidyDestination(n: Node) {
    n.transferDestination.Some? ==> Strip(n.transferDestination.value) != ""
  }

  /** The step's rules, seen from the connections out of it. */
  lemma WiredLocally(n: Node, es: seq<Edge>)
    requires TidyDestination(n)
    ensures Wired(n, es) <==> LocalRules(n, OutOf(es, n.id), Enters(es, n.id))
    ensures AllNamed(es) ==> AllNamed(OutOf(es, n.id))
  {
    OutOfMembers(es, n.id);
    OutOfTools(es, n.id);
    OutOfEmpty(es, n.id);
  }

  method CheckStep(n: Node, ghost edges: seq<Edge>, out: seq<Edge>, entered: bool) returns (errors: seq<Error>)
    requires TidyDestination(n) && out == OutOf(edges, n.id) && (entered <==> Enters(edges, n.id))
    ensures AllNamed(edges) ==> (errors == [] <==> Wired(n, edges))
  {
    errors := CheckRules(n, out, entered);
    WiredLocally(n, edges);
  }

  method CheckWiring(nodes: seq<Node>, ghost edges: seq<Edge>, out: map<string, seq<Edge>>, inCount: map<string, nat>)
    returns (errors: seq<Error>)
    requires forall i :: 0 <= i < |nodes| ==> TidyDestination(nodes[i]) && nodes[i].id in out && nodes[i].id in inCount
    requires forall id :: id in out ==> out[id] == OutOf(edges, id)
    requires forall id :: id in inCount ==> inCount[id] == CountIn(edges, id)
    ensures AllNamed(edges) ==> (errors == [] <==> forall i :: 0 <= i < |nodes| ==> Wired(nodes[i], edges))
  {
    errors := [];
    for k := 0 to |nodes|
      invariant AllNamed(edges) ==> (errors == [] <==> forall i :: 0 <= i < k ==> Wired(nodes[i], edges))
    {
      CountInEnters(edges, nodes[k].id);
      var more := CheckStep(nodes[k], edges, out[nodes[k].id], inCount[nodes[k].id] > 0);
      errors := errors + more;
    }
  }

  lemma KnownIds(nodes: seq<Node>)
    ensures forall i :: 0 <= i < |nodes| ==> nodes[i].id in Ids(nodes)
  {
    assert forall i :: 0 <= i < |nodes| ==> nodes[i] in nodes;
  }

  lemma OutOfEmpty(es: seq<Edge>, id: string)
    ensures OutOf(es, id) == [] <==> !Leads(es, id)
  {
    OutOfMembers(es, id);
    assert OutOf(es, id) == [] || OutOf(es, id)[0] in OutOf(es, id);
  }

  function Finished(n: Node, es: seq<Edge>): Node { n.(outEdges := OutOf(es, n.id)) }

  /** The graph the validator hands out for accepted steps and connections. */
  ghost predicate IsBuilt(ns: seq<Node>, es: seq<Edge>, g: Graph) {
    && |g.order| == |ns| && (forall i :: 0 <= i < |ns| ==> g.order[i] == ns[i].id)
    && g.nodes.Keys == Ids(ns)
    && (forall i :: 0 <= i < |ns| ==> ns[i].id in g.nodes && g.nodes[ns[i].id] == Finished(ns[i], es))
    && g.startId in g.nodes && g.nodes[g.startId].kind == "start"
  }

  /** The node dictionary after the steps have been put into it in order. */
  ghost function Dictionary(ns: seq<Node>, es: seq<Edge>): map<string, Node> {
    if ns == [] then map[] else Dictionary(ns[..|ns| - 1], es)[ns[|ns| - 1].id := Finished(ns[|ns| - 1], es)]
  }

  lemma {:induction false} DictionaryKeys(ns: seq<Node>, es: seq<Edge>)
    ensures Dictionary(ns, es).Keys == Ids(ns)
  {
    if ns != [] {
      var init, last := ns[..|ns| - 1], ns[|ns| - 1];
      DictionaryKeys(init, es);
      IdsSnoc(init, last);
      assert ns == init + [last];
    }
  }

  lemma {:induction false} DictionaryAt(ns: seq<Node>, es: seq<Edge>, i: nat)
    requires i < |ns| && forall j, k :: 0 <= j < k < |ns| ==> ns[j].id != ns[k].id
    ensures ns[i].id in Dictionary(ns, es) && Dictionary(ns, es)[ns[i].id] == Finished(ns[i], es)
  {
    var m := |ns| - 1;
    if i < m {
      assert forall j :: 0 <= j < m ==> ns[..m][j] == ns[j];
      DictionaryAt(ns[..m], es, i);
    }
  }

  lemma IdsSnoc(ns: seq<Node>, n: Node)
    ensures Ids(ns + [n]) == Ids(ns) + {n.id}
  {
    assert forall x :: x in ns + [n] <==> x in ns || x == n;
  }

  lemma DictionarySnoc(ns: seq<Node>, n: Node, es: seq<Edge>)
    ensures Dictionary(ns + [n], es) == Dictionary(ns, es)[n.id := Finished(n, es)]
  {
    assert (ns + [n])[..|ns|] == ns;
  }

  method Assemble(nodes: seq<Node>, ghost edges: seq<Edge>, out: map<string, seq<Edge>>) returns (g: Graph)
    requires HasKind(nodes, "start")
    requires forall i, j :: 0 <= i < j < |nodes| ==> nodes[i].id != nodes[j].id
    requires out == OutMap(Ids(nodes), edges)
    ensures IsBuilt(nodes, edges, g)
  {
    KnownIds(nodes);
    var built: map<string, Node> := map[];
    var order: seq<string> := [];
    for k := 0 to |nodes|
      invariant |order| == k && forall i :: 0 <= i < k ==> order[i] == nodes[i].id
      invariant built == Dictionary(nodes[..k], edges)
    {
      TakeSnoc(nodes, k);
      DictionarySnoc(nodes[..k], nodes[k], edges);
      built := built[nodes[k].id := nodes[k].(outEdges := out[nodes[k].id])];
      order := order + [nodes[k].id];
    }
    TakeAll(nodes);
    DictionaryKeys(nodes, edges);
    forall i | 0 <= i < |nodes| ensures nodes[i].id in built && built[nodes[i].id] == Finished(nodes[i], edges) {
      DictionaryAt(nodes, edges, i);
    }
    var s := FindStart(nodes);
    g := Graph(built, order, nodes[s].id);
  }

  method FindStart(nodes: seq<Node>) returns (s: nat)
    requires HasKind(nodes, "start")
    ensures s < |nodes| && nodes[s].kind == "start"
  {
    s := 0;
    while nodes[s].kind != "start"
      invariant s < |nodes| && forall i :: 0 <= i < s ==> nodes[i].kind != "start"
      decreases |nodes| - s
    {
      s := s + 1;
    }
  }

  // ---------------------------------------------------------------- putting the passes together

  lemma TidyNode(raw: Fields)
    ensures TidyDestination(NodeOf(raw))
  {
    var data := SubObject(raw, "data");
    var d := StrippedText(data, "transfer_destination");
    if d.Some? { StripTwice(OptionalText(data, "transfer_destination").value); }
  }

  lemma StripTwice(s: string)
    requires Strip(s) != ""
    ensures Strip(Strip(s)) == Strip(s)
  {}

  lemma RulesSplit(ns: seq<Node>)
    ensures ValidSteps(ns) <==>
      && (forall i :: 0 <= i < |ns| ==> ValidNode(ns[i]))
      && (forall i, j :: 0 <= i < j < |ns| ==> ns[i].id != ns[j].id)
      && NamesDiffer(ns)
      && HasKind(ns, "start") && AtMostOne(ns, "start") && HasKind(ns, "end") && AtMostOne(ns, "global")
  {
    assert forall i :: 0 <= i < |ns| ==> ns[i] in ns;
    if ValidSteps(ns) {
      forall i, j | 0 <= i < j < |ns|
        ensures NodesAgree(ns[i], ns[j])
      {}
    }
  }

  lemma WiringSplit(ns: seq<Node>, es: seq<Edge>)
    requires forall e :: e in es ==> e.source in Ids(ns) && e.target in Ids(ns) && ValidEdge(e)
    ensures ValidConnections(ns, es) <==> forall i :: 0 <= i < |ns| ==> Wired(ns[i], es)
  {
    assert forall i :: 0 <= i < |ns| ==> ns[i] in ns;
    if forall i :: 0 <= i < |ns| ==> Wired(ns[i], es) {
      forall i, j | 0 <= i < |es| && 0 <= j < |es| && i != j && es[i].source == es[j].source
        ensures EdgesAgree(es[i], es[j])
      {
        assert es[i] in es;
        var n :| n in ns && n.id == es[i].source;
        assert Leads(es, n.id);
      }
    }
  }

  ghost predicate RestAccepted(nodes: seq<Node>, conns: seq<Option<Edge>>) {
    ValidSteps(nodes) && AllSome(conns) && ValidConnections(nodes, Values(conns))
  }

  /** The passes over the connections and the wiring they make. */
  method Connect(nodes: seq<Node>, conns: seq<Option<Edge>>) returns (errors: seq<Error>, edges: seq<Edge>,
      out: map<string, seq<Edge>>)
    requires forall i :: 0 <= i < |nodes| ==> TidyDestination(nodes[i])
    ensures errors == [] <==> AllSome(conns) && ValidConnections(nodes, Values(conns))
    ensures errors == [] ==> edges == Values(conns)
    ensures out == OutMap(Ids(nodes), edges)
  {
    var e3;
    e3, edges := CheckConnections(conns, nodes);
    ConnectionsSplit(nodes, conns, edges, e3 == []);
    var inCount;
    out, inCount := Wire(Ids(nodes), edges);
    KnownIds(nodes);
    var e4 := CheckWiring(nodes, edges, out, inCount);
    errors := e3 + e4;
  }

  /** The passes after the first one: names, census, connections, wiring. */
  method CheckRest(nodes: seq<Node>, conns: seq<Option<Edge>>) returns (errors: seq<Error>, g: Option<Graph>)
    requires forall i :: 0 <= i < |nodes| ==> TidyDestination(nodes[i]) && ValidNode(nodes[i])
    requires forall i, j :: 0 <= i < j < |nodes| ==> nodes[i].id != nodes[j].id
    ensures errors == [] <==> RestAccepted(nodes, conns)
    ensures errors == [] ==> g.Some? && IsBuilt(nodes, Values(conns), g.value)
    ensures errors != [] ==> g.None?
  {
    var e1 := CheckNames(nodes);
    var e2 := CheckCensus(nodes);
    RulesSplit(nodes);
    var e34, edges, out := Connect(nodes, conns);
    errors := e1 + e2 + e34;
    if errors != [] {
      return errors, None;
    }
    var graph := Assemble(nodes, edges, out);
    g := Some(graph);
  }

  lemma ConnectionsSplit(nodes: seq<Node>, conns: seq<Option<Edge>>, edges: seq<Edge>, accepted: bool)
    requires accepted <==> forall i :: 0 <= i < |conns| ==> ConnectionAccepted(conns[i], nodes)
    requires accepted ==> |edges| == |conns| && forall i :: 0 <= i < |conns| ==> edges[i] == conns[i].value
    ensures accepted ==> AllSome(conns) && edges == Values(conns) && AllNamed(edges)
    ensures AllSome(conns) && ValidConnections(nodes, Values(conns)) <==>
      accepted && forall i :: 0 <= i < |nodes| ==> Wired(nodes[i], edges)
  {
    if accepted {
      EachValue(conns);
      assert edges == Values(conns);
      forall e | e in edges ensures e.source in Ids(nodes) && e.target in Ids(nodes) && ValidEdge(e) {
        var i :| 0 <= i < |edges| && edges[i] == e;
        assert ConnectionAccepted(conns[i], nodes);
      }
      WiringSplit(nodes, edges);
    } else if AllSome(conns) {
      EachValue(conns);
      var i :| 0 <= i < |conns| && !ConnectionAccepted(conns[i], nodes);
      assert Values(conns)[i] in Values(conns);
    }
  }

  ghost predicate PartsAccepted(steps: seq<Option<Node>>, conns: seq<Option<Edge>>) {
    AllSome(steps) && RestAccepted(Values(steps), conns)
  }

  method CheckParts(steps: seq<Option<Node>>, conns: seq<Option<Edge>>) returns (errors: seq<Error>, g: Option<Graph>)
    requires forall i :: 0 <= i < |steps| ==> steps[i].Some? ==> TidyDestination(steps[i].value)
    ensures errors == [] <==> PartsAccepted(steps, conns)
    ensures errors == [] ==> g.Some? && IsBuilt(Values(steps), Values(conns), g.value)
    ensures errors != [] ==> g.None?
  {
    var nodes;
    errors, nodes := CheckSteps(steps);
    if errors != [] {
      NotAccepted(steps);
      return errors, None;
    }
    EachValue(steps);
    assert nodes == Values(steps);
    errors, g := CheckRest(nodes, conns);
  }

  lemma NotAccepted(steps: seq<Option<Node>>)
    ensures AllSome(steps) && ValidSteps(Values(steps)) ==> StepsAccepted(steps)
  {
    if AllSome(steps) {
      EachValue(steps);
      RulesSplit(Values(steps));
    }
  }

  /** Validates once and builds from the coerced parts: the error list is empty exactly when the rules
      hold, and then the graph is the one those parts describe. */
  method ValidateAndBuild(raw: Json) returns (errors: seq<Error>, g: Option<Graph>)
    ensures errors == [] <==> Valid(raw)
    ensures errors == [] ==> g.Some? && IsBuilt(NodesOf(raw), EdgesOf(raw), g.value)
    ensures errors != [] ==> g.None?
  {
    if !raw.Obj? {
      return [Error("workflow", None, None)], None;
    }
    if "nodes" !in raw.fields || !raw.fields["nodes"].List? || raw.fields["nodes"].items == [] {
      return [Error("workflow", None, Some("nodes"))], None;
    }
    if "edges" in raw.fields && Truthy(raw.fields["edges"]) && !raw.fields["edges"].List? {
      return [Error("workflow", None, Some("edges"))], None;
    }
    TidySteps(raw);
    errors, g := CheckParts(Steps(raw), Connections(raw));
  }

  lemma TidySteps(raw: Json)
    requires raw.Obj?
    ensures forall i :: 0 <= i < |Steps(raw)| ==> Steps(raw)[i].Some? ==> TidyDestination(Steps(raw)[i].value)
  {
    forall i | 0 <= i < |Steps(raw)| && Steps(raw)[i].Some? ensures TidyDestination(Steps(raw)[i].value) {
      TidyNode(SubList(raw.fields, "nodes")[i].fields);
    }
  }

  lemma BuiltNode(ns: seq<Node>, es: seq<Edge>, g: Graph, id: string) returns (i: nat)
    requires IsBuilt(ns, es, g) && id in g.nodes
    ensures i < |ns| && ns[i].id == id && g.order[i] == id && g.nodes[id] == Finished(ns[i], es)
  {
    var n :| n in ns && n.id == id;
    i :| 0 <= i < |ns| && ns[i] == n;
  }

  lemma BuiltOrder(ns: seq<Node>, es: seq<Edge>, g: Graph)
    requires IsBuilt(ns, es, g) && forall i, j :: 0 <= i < j < |ns| ==> ns[i].id != ns[j].id
    ensures forall id :: id in g.order <==> id in g.nodes
    ensures forall i, j :: 0 <= i < j < |g.order| ==> g.order[i] != g.order[j]
  {
    forall id | id in g.nodes ensures id in g.order { var i := BuiltNode(ns, es, g, id); }
    KnownIds(ns);
    forall id | id in g.order ensures id in g.nodes {
      var i :| 0 <= i < |g.order| && g.order[i] == id;
    }
  }

  /** What the validator accepts can be analysed: the graph it builds is well formed. */
  lemma BuiltWellFormed(ns: seq<Node>, es: seq<Edge>, g: Graph)
    requires IsBuilt(ns, es, g) && ValidSteps(ns) && ValidConnections(ns, es)
    ensures g.WellFormed()
  {
    forall i, j | 0 <= i < j < |ns| ensures ns[i].id != ns[j].id { assert NodesAgree(ns[i], ns[j]); }
    BuiltOrder(ns, es, g);
    forall id | id in g.nodes ensures g.nodes[id].id == id && g.WiredOut(g.nodes[id]) {
      var i := BuiltNode(ns, es, g, id);
      OutOfMembers(es, id);
    }
  }
}
