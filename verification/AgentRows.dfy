/**
 The agent row and everything that changes it: create, save draft, publish, rollback and the patch of a
 prompt that is mirrored into the graph.
 */
module AgentRows {
  import opened Text
  import opened Json
  import opened WorkflowGraph
  import opened Validation
  import opened Permutations
  import opened SortedViews
  import opened Equivalence
  import SkipExact
  import opened Publishing

  // ---------------------------------------------------------------- mirroring prompts into a graph

  /** The prompt fields of a PATCH, already coerced to text. */
  datatype Patch = Patch(greeting: Option<string>, systemPrompt: Option<string>)

  function PatchedData(kindStart: bool, kindGlobal: bool, data: Fields, p: Patch): Fields {
    if kindGlobal && p.systemPrompt.Some? then data["prompt" := Str(p.systemPrompt.value)]
    else if kindStart && p.greeting.Some? then data["greeting" := Str(p.greeting.value)]
    else data
  }

  /** One item of what `dict(..)` is given: a pair with a text first, a text of two characters, or the two keys of a
      dictionary. */
  function PairOf(j: Json): Option<(string, Json)> {
    match j
    case List(items) => if |items| == 2 && items[0].Str? then Some((items[0].s, items[1])) else None
    case Str(s) => if |s| == 2 then Some(([s[0]], Str([s[1]]))) else None
    case Obj(fields, order) =>
      var keys := KeyOrder(fields.Keys, order);
      if |keys| == 2 then Some((keys[0], Str(keys[1]))) else None
    case _ => None
  }

  /** `dict(items)`, a later pair winning; None where Python raises. */
  function PairsOf(items: seq<Json>): Option<Fields> {
    if items == [] then Some(map[])
    else
      match (PairsOf(items[..|items| - 1]), PairOf(items[|items| - 1]))
      case (Some(fields), Some(pair)) => Some(fields[pair.0 := pair.1])
      case _ => None
  }

  /** `dict(f.get("data") or {})` */
  function DataOf(f: Fields): Option<Fields> {
    if "data" !in f || !Truthy(f["data"]) then Some(map[])
    else
      match f["data"]
      case Obj(fields, _) => Some(fields)
      case List(items) => PairsOf(items)
      case _ => None
  }

  function GivenData(f: Fields): Fields { match DataOf(f) case Some(data) => data case None => map[] }

  function MirrorStep(f: Fields, p: Patch): Fields {
    f["data" := Record(PatchedData(IsKind(f, "start"), IsKind(f, "global"), GivenData(f), p))]
  }

  /** Types are put in a set, so they have to hash. */
  predicate HasPlainType(f: Fields) { "type" in f ==> !f["type"].List? && !f["type"].Obj? }

  predicate CanMirrorStep(f: Fields) { DataOf(f).Some? && HasPlainType(f) }

  /** Where the source does not raise: it can copy every step, and the steps to write to exist. */
  predicate CanMirror(raw: Json, p: Patch): (ok: bool)
    ensures ok ==> raw.Obj?
  {
    && NodeViews(raw).Some?
    && (forall i :: 0 <= i < |RawSteps(raw)| ==> CanMirrorStep(RawSteps(raw)[i]))
    && (p.greeting.Some? ==> exists i :: 0 <= i < |RawSteps(raw)| && IsKind(RawSteps(raw)[i], "start"))
    && (p.systemPrompt.Some? ==> exists i :: 0 <= i < |RawSteps(raw)| && IsKind(RawSteps(raw)[i], "global"))
  }

  function Mirrored(raw: Json, p: Patch): Json
    requires raw.Obj?
  {
    Record(raw.fields["nodes" := Wrapped(Map(RawSteps(raw), (f: Fields) => MirrorStep(f, p)))])
  }

  /** The data of the step is no list of pairs, which validation takes for no data at all. */
  predicate KeepsData(f: Fields) { GivenData(f) == SubObject(f, "data") }

  /** A step with a name has a dictionary for its data. */
  lemma NamedKeeps(f: Fields)
    requires NodeOf(f).name != ""
    ensures KeepsData(f)
  {
    NodeName(f);
    NoDataNoName();
  }

  lemma NodeName(f: Fields)
    ensures NodeOf(f).name == Strip(TextOr(SubObject(f, "data"), "name"))
  {
    hide TextOr, OptionalText, SubObject, Strip, ListedOf, EndingOf, ExtractionOf, DelayedStart;
  }

  lemma NoDataNoName()
    ensures Strip(TextOr(map[], "name")) == ""
  {}

  function PatchedNode(n: Node, p: Patch): Node {
    if n.kind == "global" && p.systemPrompt.Some? then n.(prompt := p.systemPrompt.value)
    else if n.kind == "start" && p.greeting.Some? then n.(greeting := Some(p.greeting.value))
    else n
  }

  lemma OtherKey(data: Fields, key: string, j: Json, k: string)
    requires k != key
    ensures TextOr(data[key := j], k) == TextOr(data, k) && OptionalText(data[key := j], k) == OptionalText(data, k)
    ensures SubList(data[key := j], k) == SubList(data, k)
  {}

  lemma PromptOnly(data: Fields, s: string)
    ensures StepDataOf(data["prompt" := Str(s)]) == StepDataOf(data).(spoken := StepDataOf(data).spoken.(prompt := s))
  {
    var d := data["prompt" := Str(s)];
    hide TextOr, OptionalText, Strip, ListedOf, EndingOf, ExtractionOf, DelayedStart;
    OtherKey(data, "prompt", Str(s), "name");
    OtherKey(data, "prompt", Str(s), "greeting");
    StrTextOr(data, "prompt", s);
    UnspokenAlike(data, "prompt", Str(s));
  }

  lemma GreetingOnly(data: Fields, s: string)
    ensures StepDataOf(data["greeting" := Str(s)])
      == StepDataOf(data).(spoken := StepDataOf(data).spoken.(greeting := Some(s)))
  {
    hide TextOr, OptionalText, Strip, ListedOf, EndingOf, ExtractionOf, DelayedStart;
    OtherKey(data, "greeting", Str(s), "name");
    OtherKey(data, "greeting", Str(s), "prompt");
    StrTextOr(data, "greeting", s);
    UnspokenAlike(data, "greeting", Str(s));
  }

  lemma StrTextOr(data: Fields, key: string, s: string)
    ensures TextOr(data[key := Str(s)], key) == s && OptionalText(data[key := Str(s)], key) == Some(s)
  {}

  lemma UnspokenAlike(data: Fields, key: string, j: Json)
    requires key == "prompt" || key == "greeting"
    ensures var d := data[key := j];
      && ListedOf(d) == ListedOf(data) && EndingOf(d) == EndingOf(data)
      && ExtractionOf(d) == ExtractionOf(data) && DelayedStart(d) == DelayedStart(data)
  {
    hide ExtractionOf, DelayedStart, TextList, Strip, SubList, OptionalText, TextOr;
    OtherKey(data, key, j, "tools");
    OtherKey(data, key, j, "knowledge_base_ids");
    OtherKey(data, key, j, "transfer_destination");
    OtherKey(data, key, j, "disposition");
    ExtractionAlike(data, key, j);
    DelayAlike(data, key, j);
  }

  lemma ExtractionAlike(data: Fields, key: string, j: Json)
    requires key != "extraction"
    ensures ExtractionOf(data[key := j]) == ExtractionOf(data)
  {
    hide Variables, TextOr, SubList;
    SameElsewhere(data, key, j, "extraction");
  }

  lemma DelayAlike(data: Fields, key: string, j: Json)
    requires key != "delayed_start_ms"
    ensures DelayedStart(data[key := j]) == DelayedStart(data)
  {
    hide IntOr;
    SameElsewhere(data, key, j, "delayed_start_ms");
  }

  lemma SameElsewhere(data: Fields, key: string, j: Json, k: string)
    requires k != key
    ensures k in data[key := j] <==> k in data
    ensures k in data ==> data[key := j][k] == data[k]
  {}

  /** Mirroring changes one text of one step and nothing else. */
  lemma MirrorStepNode(f: Fields, p: Patch)
    requires KeepsData(f)
    ensures NodeOf(MirrorStep(f, p)) == PatchedNode(NodeOf(f), p)
  {
    var data := SubObject(f, "data");
    var d := PatchedData(IsKind(f, "start"), IsKind(f, "global"), data, p);
    hide NodeOf, StepDataOf, TextOr, GivenData;
    KindOfStep(f, "start");
    KindOfStep(f, "global");
    if p.systemPrompt.Some? { PromptOnly(data, p.systemPrompt.value); }
    if p.greeting.Some? { GreetingOnly(data, p.greeting.value); }
    NewDataNode(f, d);
    PatchedParts(f, MirrorStep(f, p), p);
  }

  /** The node of a step whose data gives the old node's with the patched text in it. */
  lemma PatchedParts(f: Fields, g: Fields, p: Patch)
    requires TextOr(g, "id") == TextOr(f, "id") && TextOr(g, "type") == TextOr(f, "type")
    requires
      var was, now := StepDataOf(SubObject(f, "data")), StepDataOf(SubObject(g, "data"));
      now == if NodeOf(f).kind == "global" && p.systemPrompt.Some?
        then was.(spoken := was.spoken.(prompt := p.systemPrompt.value))
             else if NodeOf(f).kind == "start"
               && p.greeting.Some? then was.(spoken := was.spoken.(greeting := Some(p.greeting.value)))
             else was
    ensures NodeOf(g) == PatchedNode(NodeOf(f), p)
  {
    hide TextOr, SubObject, StepDataOf;
  }

  lemma NewDataNode(f: Fields, d: Fields)
    ensures var g := f["data" := Record(d)];
      SubObject(g, "data") == d && TextOr(g, "id") == TextOr(f, "id") && TextOr(g, "type") == TextOr(f, "type")
  {
    OtherKey(f, "data", Record(d), "id");
    OtherKey(f, "data", Record(d), "type");
  }

  lemma MirroredSteps(raw: Json, p: Patch)
    requires ValidShape(raw)
    ensures ValidShape(Mirrored(raw, p))
    ensures RawSteps(Mirrored(raw, p)) == Map(RawSteps(raw), (f: Fields) => MirrorStep(f, p))
    ensures RawConnections(Mirrored(raw, p)) == RawConnections(raw)
    ensures EdgesOf(Mirrored(raw, p)) == EdgesOf(raw)
  {
    hide NodeOf, EdgeOf, MirrorStep;
    var m := Mirrored(raw, p);
    ShapeViews(raw);
    assert SubList(m.fields, "edges") == SubList(raw.fields, "edges");
    assert SubList(m.fields, "nodes") == Wrapped(Map(RawSteps(raw), (f: Fields) => MirrorStep(f, p))).items;
    ShapeViews(m);
    EdgesAre(raw);
    EdgesAre(m);
  }

  lemma MirroredNodes(steps: seq<Fields>, p: Patch)
    requires Everywhere(steps, KeepsData)
    ensures Map(Map(steps, (f: Fields) => MirrorStep(f, p)), NodeOf)
      == Map(Map(steps, NodeOf), (n: Node) => PatchedNode(n, p))
  {
    hide NodeOf, MirrorStep, PatchedNode, KeepsData;
    var out := Map(steps, (f: Fields) => MirrorStep(f, p));
    forall i | 0 <= i < |steps| ensures NodeOf(out[i]) == PatchedNode(NodeOf(steps[i]), p) {
      assert KeepsData(steps[i]);
      MirrorStepNode(steps[i], p);
    }
  }

  lemma PatchedAlike(ns: seq<Node>, p: Patch)
    ensures var ms := Map(ns, (n: Node) => PatchedNode(n, p));
      forall i :: 0 <= i < |ns| ==> Alike(ns[i], ms[i])
  {}

  lemma ValidKeeps(raw: Json)
    requires Valid(raw)
    ensures Everywhere(RawSteps(raw), KeepsData)
  {
    NodesAre(raw);
    hide NodeOf, KeepsData, ValidConnections, NodesAgree, HasKind;
    forall i | 0 <= i < |RawSteps(raw)| ensures KeepsData(RawSteps(raw)[i]) {
      assert NodesOf(raw)[i] in NodesOf(raw);
      NamedKeeps(RawSteps(raw)[i]);
    }
  }

  /** The mirrored graph stays valid and differs in the patched texts only. */
  lemma MirroredValid(raw: Json, p: Patch)
    requires Valid(raw)
    ensures Valid(Mirrored(raw, p))
    ensures NodesOf(Mirrored(raw, p)) == Map(NodesOf(raw), (n: Node) => PatchedNode(n, p))
  {
    ValidKeeps(raw);
    hide NodeOf, MirrorStep, PatchedNode, Alike, ValidSteps, ValidConnections, KeepsData;
    MirroredSteps(raw, p);
    NodesAre(raw);
    NodesAre(Mirrored(raw, p));
    MirroredNodes(RawSteps(raw), p);
    hide Mirrored, RawSteps, ValidShape, NodesOf, EdgesOf;
    PatchedAlike(NodesOf(raw), p);
    AlikeSteps(NodesOf(raw), NodesOf(Mirrored(raw, p)));
    AlikeValid(NodesOf(raw), NodesOf(Mirrored(raw, p)), EdgesOf(raw));
  }

  function PatchedColumns(c: Columns, p: Patch): Columns {
    Columns(if p.greeting.Some? then p.greeting.value else c.greeting,
            if p.systemPrompt.Some? then p.systemPrompt.value else c.systemPrompt)
  }

  function PatchedLine(l: Line, p: Patch): Line {
    match l
    case Greeting(_) => if p.greeting.Some? then Greeting(p.greeting.value) else l
    case Instruction(_) => if p.systemPrompt.Some? then Instruction(p.systemPrompt.value) else l
    case Silent => l
  }

  lemma MirrorStepLine(f: Fields, p: Patch)
    requires KeepsData(f)
    ensures LineOf(MirrorStep(f, p)) == PatchedLine(LineOf(f), p)
  {
    var data := SubObject(f, "data");
    var d := PatchedData(IsKind(f, "start"), IsKind(f, "global"), data, p);
    assert SubObject(MirrorStep(f, p), "data") == d;
    assert forall kind :: IsKind(MirrorStep(f, p), kind) == IsKind(f, kind);
    assert !(IsKind(f, "start") && IsKind(f, "global"));
    hide MirrorStep, IsKind, SubObject, KeepsData;
    if p.systemPrompt.Some? { StrTextOr(data, "prompt", p.systemPrompt.value); }
    if p.greeting.Some? { StrTextOr(data, "greeting", p.greeting.value); }
    hide OptionalText;
  }

  lemma MirroredLines(raw: Json, p: Patch)
    requires raw.Obj? && Everywhere(RawSteps(raw), KeepsData)
    ensures Map(RawSteps(Mirrored(raw, p)), LineOf) == Map(Map(RawSteps(raw), LineOf), (l: Line) => PatchedLine(l, p))
  {
    hide LineOf, PatchedLine, MirrorStep, KeepsData;
    MirroredRaw(raw, p);
    var steps, out := RawSteps(raw), RawSteps(Mirrored(raw, p));
    forall i | 0 <= i < |steps| ensures LineOf(out[i]) == PatchedLine(LineOf(steps[i]), p) {
      assert KeepsData(steps[i]);
      MirrorStepLine(steps[i], p);
    }
  }

  lemma PatchedHold(c: Columns, ls: seq<Line>, ms: seq<Line>, p: Patch)
    requires |ls| == |ms| && forall i :: 0 <= i < |ls| ==> ms[i] == PatchedLine(ls[i], p)
    requires Hold(c, ls)
    requires p.greeting.Some? ==> exists l :: l in ls && l.Greeting?
    requires p.systemPrompt.Some? ==> exists l :: l in ls && l.Instruction?
    ensures Hold(PatchedColumns(c, p), ms)
  {
    forall m | m in ms
      ensures m.Greeting? ==> PatchedColumns(c, p).greeting == m.text
      ensures m.Instruction? ==> PatchedColumns(c, p).systemPrompt == m.text
    {
      var i :| 0 <= i < |ms| && ms[i] == m;
      assert ls[i] in ls;
    }
    forall l | l in ls
      ensures l.Greeting? ==> exists m :: m in ms && m.Greeting?
      ensures l.Instruction? ==> exists m :: m in ms && m.Instruction?
    {
      var i :| 0 <= i < |ls| && ls[i] == l;
      assert ms[i] in ms;
    }
  }

  lemma LineExists(raw: Json, p: Patch)
    requires CanMirror(raw, p)
    ensures p.greeting.Some? ==> exists l :: l in Map(RawSteps(raw), LineOf) && l.Greeting?
    ensures p.systemPrompt.Some? ==> exists l :: l in Map(RawSteps(raw), LineOf) && l.Instruction?
  {
    var lines := Map(RawSteps(raw), LineOf);
    assert forall i :: 0 <= i < |lines| ==> lines[i] in lines;
    assert forall f :: !(IsKind(f, "start") && IsKind(f, "global"));
  }

  /** The columns of the mirrored graph are the patched columns. */
  lemma MirroredColumns(raw: Json, p: Patch)
    requires Valid(raw) && CanMirror(raw, p)
    ensures ColumnsOf(Mirrored(raw, p)) == PatchedColumns(ColumnsOf(raw), p)
  {
    hide Valid, LineOf, Hold, ColumnsOf, OneEach, PatchedLine, CanMirror, RawSteps, Mirrored, PatchedColumns, KeepsData;
    var m := Mirrored(raw, p);
    MirroredValid(raw, p);
    ColumnsHold(raw);
    ColumnsHold(m);
    ValidKeeps(raw);
    MirroredHold(raw, p);
    HoldUnique(ColumnsOf(m), PatchedColumns(ColumnsOf(raw), p), Map(RawSteps(m), LineOf), Map(RawSteps(m), LineOf));
  }

  lemma MirroredHold(raw: Json, p: Patch)
    requires CanMirror(raw, p) && Hold(ColumnsOf(raw), Map(RawSteps(raw), LineOf))
      && Everywhere(RawSteps(raw), KeepsData)
    ensures Hold(PatchedColumns(ColumnsOf(raw), p), Map(RawSteps(Mirrored(raw, p)), LineOf))
  {
    LineExists(raw, p);
    MirroredLines(raw, p);
    hide LineOf, Hold, ColumnsOf, PatchedLine, CanMirror, RawSteps, Mirrored, PatchedColumns;
    PatchedHold(ColumnsOf(raw), Map(RawSteps(raw), LineOf), Map(RawSteps(Mirrored(raw, p)), LineOf), p);
  }

  lemma MirroredRaw(raw: Json, p: Patch)
    requires raw.Obj?
    ensures RawSteps(Mirrored(raw, p)) == Map(RawSteps(raw), (f: Fields) => MirrorStep(f, p))
    ensures RawConnections(Mirrored(raw, p)) == RawConnections(raw)
  {
    hide MirrorStep;
    var m := Mirrored(raw, p);
    assert SubList(m.fields, "edges") == SubList(raw.fields, "edges");
    assert SubList(m.fields, "nodes") == Wrapped(Map(RawSteps(raw), (f: Fields) => MirrorStep(f, p))).items;
  }

  // ---------------------------------------------------------------- the row

  datatype Version = Version(number: nat, graph: Json)

  datatype Row = Row(workflow: Json, draft: Option<Json>, columns: Columns, versions: seq<Version>, configVersion: nat)

  /** One request, as it reaches the database.  A publish of the draft carries the draft it peeked at and
      validated before taking the row lock; other requests may have come in between. */
  datatype Request =
    | SaveDraft(newDraft: Json, base: Option<nat>)
    | Publish(graph: Option<Json>, peeked: Json)
    | Rollback(version: nat)
    | PatchPrompts(patch: Patch)

  /** `COALESCE(MAX(version), 0)` */
  function MaxNumber(vs: seq<Version>): nat {
    if vs == [] then 0
    else
      var m := MaxNumber(vs[..|vs| - 1]);
      if vs[|vs| - 1].number > m then vs[|vs| - 1].number else m
  }

  function FindVersion(vs: seq<Version>, number: nat): Option<Json> {
    if vs == [] then None else if vs[0].number == number then Some(vs[0].graph) else FindVersion(vs[1..], number)
  }

  function Appended(vs: seq<Version>, graph: Json): seq<Version> { vs + [Version(MaxNumber(vs) + 1, graph)] }

  /** The trigger: the version moves when anything but the draft changed. */
  function Bumped(was: Row, now: Row): Row {
    now.(configVersion :=
      if Equal(now.workflow, was.workflow) && now.columns == was.columns then was.configVersion
          else was.configVersion + 1)
  }

  function Committed(row: Row, candidate: Json): Row {
    if SameLogic(candidate, row.workflow) then
      Bumped(row, row.(workflow := candidate, draft := Some(candidate)))
    else
      Bumped(row, row.(workflow := candidate, draft := Some(candidate), columns := ColumnsOf(candidate),
                       versions := Appended(row.versions, candidate)))
  }

  /** What publishing does under the lock, given the graph that was validated before it. */
  ghost function Published(row: Row, graph: Option<Json>, peeked: Json): Row {
    var seen := if graph.Some? then graph.value else peeked;
    var candidate := if graph.Some? then graph else row.draft;
    if !Valid(seen) || candidate.None? then row
    else if !SameLogic(candidate.value, seen) && !Valid(candidate.value) then row
    else Committed(row, candidate.value)
  }

  function Patched(row: Row, p: Patch): Row {
    var source := if row.draft.Some? then row.draft.value else row.workflow;
    if (p.greeting.None? && p.systemPrompt.None?) || !CanMirror(row.workflow, p) || !CanMirror(source, p) then row
    else
      var live, draft := Mirrored(row.workflow, p), Mirrored(source, p);
      var changed := !Equal(live, row.workflow);
      Bumped(row, Row(
        if changed then live else row.workflow,
        if Equal(draft, source) then row.draft else Some(draft),
        PatchedColumns(row.columns, p),
        if changed then Appended(row.versions, live) else row.versions,
        row.configVersion))
  }

  /** The row after one request; a refused request leaves it as it was. */
  ghost function After(row: Row, r: Request): Row {
    match r
    case SaveDraft(graph, base) =>
      if base.Some? && base.value != row.configVersion then row else row.(draft := Some(graph))
    case Publish(graph, peeked) => Published(row, graph, peeked)
    case PatchPrompts(p) => Patched(row, p)
    case Rollback(v) =>
      match FindVersion(row.versions, v)
      case Some(graph) => Published(row, Some(graph), graph)
      case None => row
  }

  ghost function Run(row: Row, rs: seq<Request>): Row {
    if rs == [] then row else After(Run(row, rs[..|rs| - 1]), rs[|rs| - 1])
  }

  // ---------------------------------------------------------------- the invariant

  ghost predicate NumberedFromOne(vs: seq<Version>) {
    forall i :: 0 <= i < |vs| ==> vs[i].number == i + 1
  }

  /** The live graph is valid, the columns are the ones it gives, the history is numbered 1..n and every
      version in it is valid, and the newest version is the live graph up to editor chrome. */
  ghost predicate InStep(row: Row) {
    && Valid(row.workflow)
    && row.columns == ColumnsOf(row.workflow)
    && NumberedFromOne(row.versions)
    && (forall i :: 0 <= i < |row.versions| ==> Valid(row.versions[i].graph))
    && row.versions != [] && SameLogic(row.versions[|row.versions| - 1].graph, row.workflow)
  }

  /** Equality decides what the peeked graph says, among the graphs that come from where the two come from. */
  ghost predicate Decided(peeked: Json, draft: Json) {
    exists o :: From(peeked, o) && From(draft, o) && FixedGraph(peeked, o)
  }

  /** A publish that takes the equivalent branch leaves the columns alone: equality has to decide those of the live
      graph. */
  ghost predicate ColumnsSafe(row: Row, candidate: Json) {
    SameLogic(candidate, row.workflow) ==> FixedColumns(row.workflow)
  }

  /** What a request has to keep to, where the source takes equal graphs for the same: `EquivalentDraftGoesLive` and
      `ColumnsStay` say that neither half can be spared. */
  ghost predicate SteadyRequest(row: Row, r: Request) {
    match r
    case Publish(graph, peeked) =>
      var candidate := if graph.Some? then graph else row.draft;
      candidate.Some? ==>
        && (graph.None? && Valid(peeked) && SameLogic(candidate.value, peeked) ==> Decided(peeked, candidate.value))
        && ColumnsSafe(row, candidate.value)
    case Rollback(v) =>
      FindVersion(row.versions, v).Some? ==> ColumnsSafe(row, FindVersion(row.versions, v).value)
    case _ => true
  }

  lemma {:induction false} MaxOfNumbered(vs: seq<Version>)
    requires NumberedFromOne(vs)
    ensures MaxNumber(vs) == |vs|
  {
    if vs != [] {
      assert forall i :: 0 <= i < |vs| - 1 ==> vs[..|vs| - 1][i] == vs[i];
      MaxOfNumbered(vs[..|vs| - 1]);
    }
  }

  lemma {:induction false} FindNumbered(vs: seq<Version>, number: nat, base: nat)
    requires forall i :: 0 <= i < |vs| ==> vs[i].number == base + i + 1
    ensures FindVersion(vs, number) ==
      if base + 1 <= number <= base + |vs| then Some(vs[number - base - 1].graph) else None
  {
    if vs != [] { FindNumbered(vs[1..], number, base + 1); }
  }

  lemma ValidReflexive(raw: Json)
    requires Valid(raw)
    ensures SameLogic(raw, raw)
  {
    ShapeViews(raw);
    SameLogicReflexive(raw);
  }

  /** A new version keeps the history in order. */
  lemma AppendInStep(row: Row, graph: Json, draft: Option<Json>, columns: Columns, cv: nat)
    requires InStep(row) && Valid(graph) && columns == ColumnsOf(graph)
    ensures InStep(Row(graph, draft, columns, Appended(row.versions, graph), cv))
  {
    hide Valid, SameLogic, ColumnsOf;
    MaxOfNumbered(row.versions);
    ValidReflexive(graph);
  }

  lemma CommitInStep(row: Row, candidate: Json)
    requires InStep(row) && Valid(candidate) && ColumnsSafe(row, candidate)
    ensures InStep(Committed(row, candidate))
  {
    hide Valid, FixedColumns, SameLogic, ColumnsOf, Equal;
    if SameLogic(candidate, row.workflow) {
      SameLogicSymmetric(candidate, row.workflow);
      EquivalentColumns(row.workflow, candidate);
      var last := row.versions[|row.versions| - 1].graph;
      SameLogicTransitive(last, row.workflow, candidate);
    } else {
      AppendInStep(row, candidate, Some(candidate), ColumnsOf(candidate), Committed(row, candidate).configVersion);
    }
  }

  lemma PublishInStep(row: Row, graph: Option<Json>, peeked: Json)
    requires InStep(row) && SteadyRequest(row, Publish(graph, peeked))
    ensures InStep(Published(row, graph, peeked))
  {
    hide Valid, FixedColumns, FixedGraph, SameLogic, ColumnsOf, Committed, From, InStep, ColumnsSafe;
    var candidate := if graph.Some? then graph else row.draft;
    if graph.None? && candidate.Some? && Valid(peeked) && SameLogic(candidate.value, peeked) {
      SameLogicSymmetric(candidate.value, peeked);
      var o :| From(peeked, o) && From(candidate.value, o) && FixedGraph(peeked, o);
      SkipIsSound(peeked, candidate.value, o);
    }
    if candidate.Some? && Valid(candidate.value) { CommitInStep(row, candidate.value); }
  }

  lemma StrTextEqual(data: Fields, key: string, s: string)
    requires EqualFields(data[key := Str(s)], data)
    ensures OptionalText(data, key) == Some(s)
  {
    assert key in data[key := Str(s)];
    EqualTruthy(data[key := Str(s)][key], data[key]);
  }

  /** A step that mirroring leaves equal has the patched text already. */
  lemma SameLine(f: Fields, p: Patch)
    requires KeepsData(f) && EqualFields(MirrorStep(f, p), f)
    ensures LineOf(MirrorStep(f, p)) == LineOf(f)
  {
    var data := SubObject(f, "data");
    var d := PatchedData(IsKind(f, "start"), IsKind(f, "global"), data, p);
    assert SubObject(MirrorStep(f, p), "data") == d;
    EqualSubObject(MirrorStep(f, p), f, "data");
    MirrorStepLine(f, p);
    hide MirrorStep, IsKind, SubObject, KeepsData, EqualFields, OptionalText;
    if IsKind(f, "global") && p.systemPrompt.Some? { StrTextEqual(data, "prompt", p.systemPrompt.value); }
    if IsKind(f, "start") && !IsKind(f, "global")
        && p.greeting.Some? { StrTextEqual(data, "greeting", p.greeting.value); }
  }

  lemma EqualRawSteps(a: Json, b: Json)
    requires Equal(a, b) && a.Obj? && b.Obj?
    ensures |RawSteps(a)| == |RawSteps(b)|
    ensures forall i :: 0 <= i < |RawSteps(a)| ==> EqualFields(RawSteps(a)[i], RawSteps(b)[i])
  {
    EqualSubList(a.fields, b.fields, "nodes");
    var x, y := SubList(a.fields, "nodes"), SubList(b.fields, "nodes");
    forall i | 0 <= i < |x| ensures EqualFields(RawSteps(a)[i], RawSteps(b)[i]) {
      assert Equal(x[i], y[i]);
      EqualTruthy(x[i], y[i]);
    }
  }

  /** Where mirroring changes nothing, the columns held the patched texts already. */
  lemma UnchangedColumns(raw: Json, p: Patch)
    requires Valid(raw) && CanMirror(raw, p) && Equal(Mirrored(raw, p), raw)
    ensures PatchedColumns(ColumnsOf(raw), p) == ColumnsOf(raw)
  {
    ValidKeeps(raw);
    hide Valid, Equal, EqualFields, LineOf, Hold, ColumnsOf, CanMirror, KeepsData, PatchedColumns, MirrorStep;
    var m := Mirrored(raw, p);
    EqualRawSteps(m, raw);
    MirroredRaw(raw, p);
    hide RawSteps, Mirrored;
    var steps, out := RawSteps(raw), RawSteps(m);
    forall i | 0 <= i < |steps| ensures LineOf(out[i]) == LineOf(steps[i]) {
      assert KeepsData(steps[i]) && EqualFields(out[i], steps[i]);
      SameLine(steps[i], p);
    }
    assert Map(out, LineOf) == Map(steps, LineOf);
    ColumnsHold(raw);
    MirroredHold(raw, p);
    HoldUnique(ColumnsOf(raw), PatchedColumns(ColumnsOf(raw), p), Map(steps, LineOf), Map(out, LineOf));
  }

  lemma PatchInStep(row: Row, p: Patch)
    requires InStep(row)
    ensures InStep(Patched(row, p))
  {
    hide Valid, SameLogic, ColumnsOf, Equal, CanMirror, Mirrored, PatchedColumns;
    var source := if row.draft.Some? then row.draft.value else row.workflow;
    if Patched(row, p) != row {
      var live, draft := Mirrored(row.workflow, p), Mirrored(source, p);
      MirroredValid(row.workflow, p);
      MirroredColumns(row.workflow, p);
      var d := if Equal(draft, source) then row.draft else Some(draft);
      if Equal(live, row.workflow) {
        UnchangedColumns(row.workflow, p);
      } else {
        AppendInStep(row, live, d, PatchedColumns(row.columns, p), Patched(row, p).configVersion);
      }
    }
  }

  /** Every request keeps the row in step, whatever happened between a publish's peek and its lock. */
  lemma AfterInStep(row: Row, r: Request)
    requires InStep(row) && SteadyRequest(row, r)
    ensures InStep(After(row, r))
  {
    hide Valid, FixedColumns, SameLogic, ColumnsOf, Published, Patched, Equal, Decided, ColumnsSafe;
    match r
    case SaveDraft(_, _) =>
    case Publish(graph, peeked) => PublishInStep(row, graph, peeked);
    case Rollback(v) =>
      if FindVersion(row.versions, v).Some? {
        var g := FindVersion(row.versions, v).value;
        PublishInStep(row, Some(g), g);
      }
    case PatchPrompts(p) => PatchInStep(row, p);
  }

  lemma HistoryGrows(row: Row, r: Request)
    ensures row.versions <= After(row, r).versions
  {
    hide Valid, SameLogic, ColumnsOf, Equal, CanMirror, Mirrored;
  }

  /** Every request of the run is steady where it meets the row. */
  ghost predicate SteadyRun(row: Row, rs: seq<Request>) {
    forall i :: 0 <= i < |rs| ==> SteadyRequest(Run(row, rs[..i]), rs[i])
  }

  /** Over every run the row stays in step and the history only grows. */
  lemma {:induction false} RunInStep(row: Row, rs: seq<Request>)
    requires InStep(row) && SteadyRun(row, rs)
    ensures InStep(Run(row, rs)) && row.versions <= Run(row, rs).versions
  {
    hide InStep, SteadyRequest;
    if rs != [] {
      var init := rs[..|rs| - 1];
      assert forall i :: 0 <= i < |init| ==> init[i] == rs[i] && init[..i] == rs[..i];
      RunInStep(row, init);
      AfterInStep(Run(row, init), rs[|rs| - 1]);
      HistoryGrows(Run(row, init), rs[|rs| - 1]);
    }
  }

  /** A recorded version can always be published again, and then it is the live graph; its columns too, within the
      condition. */
  lemma RollbackSucceeds(row: Row, v: nat)
    requires InStep(row) && 1 <= v <= |row.versions|
    ensures After(row, Rollback(v)).workflow == row.versions[v - 1].graph
    ensures SteadyRequest(row, Rollback(v)) ==> After(row, Rollback(v)).columns == ColumnsOf(row.versions[v - 1].graph)
  {
    hide Valid, FixedColumns, SameLogic, ColumnsOf, Equal;
    var g := row.versions[v - 1].graph;
    assert Valid(g);
    FindNumbered(row.versions, v, 0);
    if SameLogic(g, row.workflow) && FixedColumns(row.workflow) {
      SameLogicSymmetric(g, row.workflow);
      EquivalentColumns(row.workflow, g);
    }
  }

  // ---------------------------------------------------------------- what the conditions buy, exactly

  /** Publishing the draft puts every graph equivalent to the peeked one live, valid and with the same steps and
      connections, exactly when equality decides what the peeked graph says.  Read with `Stored`, for drafts as the
      column returns them. */
  lemma EquivalentDraftGoesLive(row: Row, peeked: Json, o: Origin)
    requires Valid(peeked) && From(peeked, o)
    ensures FixedGraph(peeked, o) <==> forall d :: From(d, o) && SameLogic(d, peeked) ==>
      After(row.(draft := Some(d)), Publish(None, peeked)).workflow == d && Valid(d) && SameParts(peeked, d)
  {
    hide Valid, FixedGraph, SameLogic, ColumnsOf, SameParts, From;
    SkipSoundIff(peeked, o);
  }

  lemma SkipSoundIff(a: Json, o: Origin)
    requires Valid(a) && From(a, o)
    ensures FixedGraph(a, o) <==> forall b :: From(b, o) && SameLogic(b, a) ==> Valid(b) && SameParts(a, b)
  {
    SkipExact.SkipSoundIffFixed(a, o);
    hide Valid, FixedGraph, SameLogic, SameParts, From;
    forall b ensures SameLogic(a, b) <==> SameLogic(b, a) {
      if SameLogic(a, b) { SameLogicSymmetric(a, b); }
      if SameLogic(b, a) { SameLogicSymmetric(b, a); }
    }
  }

  /** Publishing whatever valid graph is equivalent to the live one leaves columns that it gives too, exactly when
      equality decides the columns of the live graph. */
  lemma ColumnsStay(row: Row)
    requires Valid(row.workflow) && row.columns == ColumnsOf(row.workflow)
    ensures FixedColumns(row.workflow) <==> forall d :: Valid(d) && SameLogic(d, row.workflow) ==>
      var after := After(row, Publish(Some(d), d)); after.workflow == d && after.columns == ColumnsOf(d)
  {
    ColumnsKeptIff(row.workflow);
    hide Valid, FixedColumns, SameLogic, ColumnsOf;
    forall b ensures SameLogic(row.workflow, b) <==> SameLogic(b, row.workflow) {
      if SameLogic(row.workflow, b) { SameLogicSymmetric(row.workflow, b); }
      if SameLogic(b, row.workflow) { SameLogicSymmetric(b, row.workflow); }
    }
  }

  // ---------------------------------------------------------------- the fence on draft saves

  lemma AfterMoves(row: Row, r: Request)
    ensures After(row, r).configVersion >= row.configVersion
    ensures After(row, r).configVersion == row.configVersion ==>
      Equal(After(row, r).workflow, row.workflow) && After(row, r).columns == row.columns
  {
    EqualReflexive(row.workflow);
  }

  /** A draft saved against a config version is saved on top of the live graph its editor saw: if any
      request in between changed the live graph or the columns, the save is refused. */
  lemma {:induction false} FencedDraft(row: Row, rs: seq<Request>)
    ensures Run(row, rs).configVersion >= row.configVersion
    ensures Run(row, rs).configVersion == row.configVersion ==>
      Equal(Run(row, rs).workflow, row.workflow) && Run(row, rs).columns == row.columns
    ensures forall graph :: Run(row, rs).configVersion != row.configVersion ==>
      After(Run(row, rs), SaveDraft(graph, Some(row.configVersion))) == Run(row, rs)
  {
    if rs == [] {
      EqualReflexive(row.workflow);
    } else {
      var init := rs[..|rs| - 1];
      FencedDraft(row, init);
      AfterMoves(Run(row, init), rs[|rs| - 1]);
      if Run(row, rs).configVersion == row.configVersion {
        EqualTransitive(Run(row, rs).workflow, Run(row, init).workflow, row.workflow);
      }
    }
  }

  // ---------------------------------------------------------------- creating an agent

  /** A new agent starts with the graph published as version 1. */
  function NewRow(graph: Json): Row {
    Row(graph, Some(graph), ColumnsOf(graph), [Version(1, graph)], 1)
  }

  lemma NewRowInStep(graph: Json)
    requires Valid(graph)
    ensures InStep(NewRow(graph))
  {
    hide Valid, FixedColumns, SameLogic, ColumnsOf;
    ValidReflexive(graph);
  }

  // ---------------------------------------------------------------- the stored row

  /** The row as the service changes it, one request at a time under the row lock. */
  class AgentRow {
    var workflow: Json
    var draft: Option<Json>
    var columns: Columns
    var versions: seq<Version>
    var configVersion: nat

    ghost function Value(): Row
      reads this
    {
      Row(workflow, draft, columns, versions, configVersion)
    }

    constructor (graph: Json)
      ensures Value() == NewRow(graph)
    {
      var c := ColumnPrompts(graph);
      workflow, draft, columns := graph, Some(graph), c;
      versions, configVersion := [Version(1, graph)], 1;
    }

    /** Autosave: False when a fence was given and the config version has moved. */
    method SaveDraft(graph: Json, base: Option<nat>) returns (saved: bool)
      modifies this
      ensures Value() == After(old(Value()), Request.SaveDraft(graph, base))
      ensures saved <==> (base.Some? ==> base.value == old(configVersion))
    {
      if base.Some? && base.value != configVersion {
        return false;
      }
      draft := Some(graph);
      return true;
    }

    method AppendVersion(graph: Json) returns (number: nat)
      modifies this`versions
      ensures versions == Appended(old(versions), graph)
      ensures number == MaxNumber(old(versions)) + 1
    {
      number := MaxNumber(versions) + 1;
      versions := versions + [Version(number, graph)];
    }

    /** The update trigger, comparing the row with what it held before. */
    method Trigger(liveBefore: Json, columnsBefore: Columns)
      modifies this`configVersion
      ensures configVersion == old(configVersion)
        + (if Equal(workflow, liveBefore) && columns == columnsBefore then 0 else 1)
    {
      if !(Equal(workflow, liveBefore) && columns == columnsBefore) {
        configVersion := configVersion + 1;
      }
    }

    method Commit(candidate: Json)
      modifies this
      ensures Value() == Committed(old(Value()), candidate)
    {
      hide SameLogic, Equal, ColumnsOf;
      var live, cols := workflow, columns;
      if SameLogic(candidate, live) {
        workflow, draft := candidate, Some(candidate);
      } else {
        var c := ColumnPrompts(candidate);
        workflow, draft, columns := candidate, Some(candidate), c;
        var n := AppendVersion(candidate);
      }
      Trigger(live, cols);
    }

    /** Publish with the graph that was peeked at before the lock. */
    method Publish(graph: Option<Json>, peeked: Json) returns (published: bool)
      modifies this
      ensures Value() == After(old(Value()), Request.Publish(graph, peeked))
    {
      hide SameLogic, Equal, ColumnsOf, Valid, Committed, IsBuilt, NodesOf, EdgesOf;
      var seen := if graph.Some? then graph.value else peeked;
      var errors, g := ValidateAndBuild(seen);
      if errors != [] {
        return false;
      }
      var candidate := if graph.Some? then graph else draft;
      if candidate.None? {
        return false;
      }
      if !SameLogic(candidate.value, seen) {
        errors, g := ValidateAndBuild(candidate.value);
        if errors != [] {
          return false;
        }
      }
      Commit(candidate.value);
      return true;
    }

    method Rollback(version: nat) returns (published: bool)
      modifies this
      ensures Value() == After(old(Value()), Request.Rollback(version))
    {
      hide Published;
      var i := 0;
      while i < |versions| && versions[i].number != version
        invariant 0 <= i <= |versions| && FindVersion(versions[i..], version) == FindVersion(versions, version)
      {
        assert versions[i..][1..] == versions[i + 1..];
        i := i + 1;
      }
      if i == |versions| {
        return false;
      }
      published := Publish(Some(versions[i].graph), versions[i].graph);
    }

    /** The prompt part of a PATCH on the agent. */
    method UpdatePrompts(p: Patch) returns (updated: bool)
      modifies this
      ensures Value() == After(old(Value()), PatchPrompts(p))
    {
      hide Equal, CanMirror, Mirrored, ColumnsOf;
      var live, cols := workflow, columns;
      var source := if draft.Some? then draft.value else workflow;
      if (p.greeting.None? && p.systemPrompt.None?) || !CanMirror(live, p) || !CanMirror(source, p) {
        return false;
      }
      var syncedLive := Mirrored(live, p);
      var syncedDraft := Mirrored(source, p);
      if !Equal(syncedDraft, source) {
        draft := Some(syncedDraft);
      }
      columns := PatchedColumns(columns, p);
      if !Equal(syncedLive, live) {
        workflow := syncedLive;
        var n := AppendVersion(syncedLive);
      }
      Trigger(live, cols);
      return true;
    }
  }
}
