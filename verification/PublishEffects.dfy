/**
 What the requests on an agent row bring about, said of the graphs and columns themselves: what a publish puts live,
 what a saved draft is good for, and what a prompt patch does to the live graph and to the draft.
 */
module PublishEffects {
  import opened Text
  import opened Json
  import opened WorkflowGraph
  import opened Validation
  import opened Permutations
  import opened SortedViews
  import opened Equivalence
  import opened Publishing
  import opened AgentRows

  // ---------------------------------------------------------------- publishing

  /** A valid graph published goes live and becomes the draft; it is recorded as the next version, and gives the
      columns, exactly when it is not equivalent to the live one. */
  lemma PublishTakes(row: Row, graph: Json)
    requires Valid(graph) && InStep(row)
    ensures
      var after := After(row, Publish(Some(graph), graph));
      && after.workflow == graph && after.draft == Some(graph)
      && (SameLogic(graph, row.workflow) ==> after.columns == row.columns && after.versions == row.versions)
      && (!SameLogic(graph, row.workflow) ==>
           && after.columns == ColumnsOf(graph)
           && after.versions == row.versions + [Version(|row.versions| + 1, graph)])
  {
    hide Valid, SameLogic, ColumnsOf, Equal;
    MaxOfNumbered(row.versions);
  }

  /** An invalid graph changes nothing, and neither does publishing a draft that is not there. */
  lemma PublishRefuses(row: Row, graph: Json)
    ensures !Valid(graph) ==> After(row, Publish(Some(graph), graph)) == row
    ensures !Valid(graph) ==> After(row, Publish(None, graph)) == row
    ensures row.draft.None? ==> After(row, Publish(None, graph)) == row
  {}

  /** A draft that was saved is what the next publish puts live; the save itself moves nothing else. */
  lemma SavedDraftGoesLive(row: Row, draft: Json, base: Option<nat>)
    requires Valid(draft) && (base.Some? ==> base.value == row.configVersion)
    ensures
      var saved := After(row, SaveDraft(draft, base));
      && saved == row.(draft := Some(draft))
      && After(saved, Publish(None, draft)) == After(row, Publish(Some(draft), draft))
      && After(saved, Publish(None, draft)).workflow == draft
  {
    hide Valid, SameLogic, ColumnsOf, Equal;
  }

  /** The config version moves, by one, exactly when the live graph or the columns do. */
  lemma ConfigVersionMoves(row: Row, r: Request)
    ensures
      var after := After(row, r);
      after.configVersion == row.configVersion
        + if Equal(after.workflow, row.workflow) && after.columns == row.columns then 0 else 1
  {
    EqualReflexive(row.workflow);
    hide Valid, SameLogic, ColumnsOf, Equal, CanMirror, Mirrored;
  }

  // ---------------------------------------------------------------- patching the prompts

  /** What the editor shows: the draft, or the live graph where there is none. */
  function Editing(row: Row): Json { if row.draft.Some? then row.draft.value else row.workflow }

  /** Step by step the same, except that the start steps have the new greeting and the always-on ones the new prompt. */
  ghost predicate OnlyPrompts(was: seq<Node>, now: seq<Node>, p: Patch) {
    && |now| == |was|
    && forall i :: 0 <= i < |was| ==>
      && now[i].(greeting := was[i].greeting, prompt := was[i].prompt) == was[i]
      && now[i].greeting == (if was[i].kind == "start" && p.greeting.Some? then p.greeting else was[i].greeting)
      && now[i].prompt
         == (if was[i].kind == "global" && p.systemPrompt.Some? then p.systemPrompt.value else was[i].prompt)
  }

  lemma PatchedOnly(was: seq<Node>, p: Patch)
    ensures OnlyPrompts(was, Map(was, (n: Node) => PatchedNode(n, p)), p)
  {}

  lemma SameNode(f: Fields, p: Patch)
    requires KeepsData(f) && EqualFields(MirrorStep(f, p), f)
    ensures PatchedNode(NodeOf(f), p) == NodeOf(f)
  {
    var data := SubObject(f, "data");
    var d := PatchedData(IsKind(f, "start"), IsKind(f, "global"), data, p);
    assert SubObject(MirrorStep(f, p), "data") == d;
    EqualSubObject(MirrorStep(f, p), f, "data");
    hide NodeOf, MirrorStep, SubObject, KeepsData, EqualFields, OptionalText;
    NodeTexts(f);
    KindOfStep(f, "start");
    KindOfStep(f, "global");
    if IsKind(f, "global") && p.systemPrompt.Some? {
      StrTextEqual(data, "prompt", p.systemPrompt.value);
      GivenText(data, "prompt", p.systemPrompt.value);
    }
    if IsKind(f, "start") && !IsKind(f, "global") && p.greeting.Some? {
      StrTextEqual(data, "greeting", p.greeting.value);
    }
  }

  lemma GivenText(data: Fields, key: string, s: string)
    requires EqualFields(data[key := Str(s)], data)
    ensures TextOr(data, key) == s
  {
    assert key in data[key := Str(s)];
    EqualTruthy(data[key := Str(s)][key], data[key]);
  }

  lemma SameNodes(steps: seq<Fields>, out: seq<Fields>, ns: seq<Node>, p: Patch)
    requires Everywhere(steps, KeepsData) && ns == Map(steps, NodeOf)
    requires out == Map(steps, (f: Fields) => MirrorStep(f, p))
    requires forall i :: 0 <= i < |out| ==> EqualFields(out[i], steps[i])
    ensures OnlyPrompts(ns, ns, p)
  {
    hide EqualFields, NodeOf, KeepsData, MirrorStep, PatchedNode, OnlyPrompts;
    forall i | 0 <= i < |ns| ensures PatchedNode(ns[i], p) == ns[i] {
      assert KeepsData(steps[i]) && EqualFields(out[i], steps[i]);
      SameNode(steps[i], p);
    }
    assert Map(ns, (n: Node) => PatchedNode(n, p)) == ns;
    PatchedOnly(ns, p);
  }

  lemma UnchangedPrompts(raw: Json, p: Patch)
    requires Valid(raw) && Equal(Mirrored(raw, p), raw)
    ensures OnlyPrompts(NodesOf(raw), NodesOf(raw), p)
  {
    assert ValidShape(raw);
    hide Valid, Equal, Mirrored, RawSteps, NodesOf, ValidShape, Everywhere, EqualFields, MirrorStep, NodeOf, KeepsData;
    ValidKeeps(raw);
    NodesAre(raw);
    EqualRawSteps(Mirrored(raw, p), raw);
    MirroredRaw(raw, p);
    SameNodes(RawSteps(raw), RawSteps(Mirrored(raw, p)), NodesOf(raw), p);
  }

  function PatchedTo(c: Columns, p: Patch): Columns {
    Columns(if p.greeting.Some? then p.greeting.value else c.greeting,
            if p.systemPrompt.Some? then p.systemPrompt.value else c.systemPrompt)
  }

  /** A graph as a patch leaves it: rewritten only where that makes a difference. */
  function Synced(raw: Json, p: Patch): Json
    requires raw.Obj?
  {
    if Equal(Mirrored(raw, p), raw) then raw else Mirrored(raw, p)
  }

  /** One graph under a patch, whether it had to be rewritten or not. */
  lemma SyncedPrompts(raw: Json, p: Patch)
    requires Valid(raw) && CanMirror(raw, p)
    ensures
      var synced := Synced(raw, p);
      && Valid(synced) && OnlyPrompts(NodesOf(raw), NodesOf(synced), p) && EdgesOf(synced) == EdgesOf(raw)
      && ColumnsOf(synced) == PatchedTo(ColumnsOf(raw), p)
  {
    assert ValidShape(raw);
    hide Valid, Equal, CanMirror, ColumnsOf, NodesOf, EdgesOf, OnlyPrompts, Mirrored, ValidShape;
    if Equal(Mirrored(raw, p), raw) {
      UnchangedPrompts(raw, p);
      UnchangedColumns(raw, p);
    } else {
      MirroredValid(raw, p);
      MirroredSteps(raw, p);
      PatchedOnly(NodesOf(raw), p);
      MirroredColumns(raw, p);
    }
  }

  /** A valid graph can take every patch but a system prompt where there is no step for it. */
  lemma CanMirrorIff(raw: Json, p: Patch)
    requires Valid(raw)
    ensures CanMirror(raw, p) <==> (p.systemPrompt.Some? ==> HasKind(NodesOf(raw), "global"))
  {
    hide NodeOf, CanMirrorStep, NodeViews, RawSteps, ValidShape, NodesOf, ValidNode, HasKind, IsKind, Valid;
    ValidStepsOf(raw);
    var steps, ns := RawSteps(raw), NodesOf(raw);
    StepsMirror(steps, ns);
    KindStep(steps, ns, "start");
    KindStep(steps, ns, "global");
  }

  lemma ValidStepsOf(raw: Json)
    requires Valid(raw)
    ensures NodeViews(raw).Some? && ValidShape(raw) && NodesOf(raw) == Map(RawSteps(raw), NodeOf)
    ensures (forall n :: n in NodesOf(raw) ==> ValidNode(n)) && HasKind(NodesOf(raw), "start")
  {
    hide NodeOf, ValidConnections, NodesAgree, NodeViews, EdgeViews, RawSteps, ValidShape, NodesOf, ValidNode, HasKind;
    ShapeViews(raw);
    NodesAre(raw);
  }

  lemma StepsMirror(steps: seq<Fields>, ns: seq<Node>)
    requires ns == Map(steps, NodeOf) && forall n :: n in ns ==> ValidNode(n)
    ensures forall i :: 0 <= i < |steps| ==> CanMirrorStep(steps[i])
  {
    hide NodeOf, CanMirrorStep, ValidNode;
    forall i | 0 <= i < |steps| ensures CanMirrorStep(steps[i]) {
      assert ns[i] == NodeOf(steps[i]) && ns[i] in ns;
      NamedMirrors(steps[i]);
    }
  }

  lemma KindStep(steps: seq<Fields>, ns: seq<Node>, kind: string)
    requires ns == Map(steps, NodeOf) && kind != "" && IsLower(kind[0])
    ensures HasKind(ns, kind) <==> exists i :: 0 <= i < |steps| && IsKind(steps[i], kind)
  {
    hide NodeOf, IsKind;
    forall i | 0 <= i < |steps| ensures IsKind(steps[i], kind) <==> ns[i] in ns && ns[i].kind == kind {
      KindOfStep(steps[i], kind);
    }
  }

  lemma NamedMirrors(f: Fields)
    requires ValidNode(NodeOf(f))
    ensures CanMirrorStep(f)
  {
    NodeName(f);
    NoDataNoName();
    NodeTexts(f);
    hide NodeOf;
    assert NODE_TYPES == {"start", "agent", "transfer", "end", "global"};
    var kind := NodeOf(f).kind;
    KindOfStep(f, kind);
  }

  /** A patch of an agent whose live graph and draft are valid goes through, unless it sets a system prompt and one of
      the two has no always-on step. Then both graphs keep every step and connection but for the prompts, the columns
      are the live graph's, and publishing the draft as the editor now shows it gives the patched columns. */
  lemma PatchReachesBoth(row: Row, p: Patch)
    requires InStep(row) && Valid(Editing(row)) && (p.greeting.Some? || p.systemPrompt.Some?)
    requires p.systemPrompt.Some? ==>
      HasKind(NodesOf(row.workflow), "global") && HasKind(NodesOf(Editing(row)), "global")
    ensures
      var after := After(row, PatchPrompts(p));
      && Valid(after.workflow) && Valid(Editing(after))
      && OnlyPrompts(NodesOf(row.workflow), NodesOf(after.workflow), p)
      && EdgesOf(after.workflow) == EdgesOf(row.workflow)
      && OnlyPrompts(NodesOf(Editing(row)), NodesOf(Editing(after)), p)
      && EdgesOf(Editing(after)) == EdgesOf(Editing(row))
      && after.columns == PatchedTo(row.columns, p) && after.columns == ColumnsOf(after.workflow)
      && ColumnsOf(Editing(after)) == PatchedTo(ColumnsOf(Editing(row)), p)
  {
    assert Valid(row.workflow) && row.columns == ColumnsOf(row.workflow);
    hide InStep, Valid, Equal, CanMirror, ColumnsOf, NodesOf, EdgesOf, OnlyPrompts, Mirrored, HasKind, Synced, After,
         Editing;
    CanMirrorIff(row.workflow, p);
    CanMirrorIff(Editing(row), p);
    PatchedIs(row, p);
    SyncedPrompts(row.workflow, p);
    SyncedPrompts(Editing(row), p);
  }

  lemma PatchedIs(row: Row, p: Patch)
    requires (p.greeting.Some? || p.systemPrompt.Some?) && CanMirror(row.workflow, p) && CanMirror(Editing(row), p)
    ensures
      var after := After(row, PatchPrompts(p));
      && after.workflow == Synced(row.workflow, p) && Editing(after) == Synced(Editing(row), p)
      && after.columns == PatchedTo(row.columns, p)
  {
    hide Valid, Equal, CanMirror, ColumnsOf, Mirrored, Published;
  }

  /** Publishing that draft puts the patched columns in the row, where it differs from the live graph. */
  lemma PatchSurvivesPublish(row: Row, p: Patch)
    requires InStep(row) && Valid(Editing(row)) && (p.greeting.Some? || p.systemPrompt.Some?)
    requires p.systemPrompt.Some? ==>
      HasKind(NodesOf(row.workflow), "global") && HasKind(NodesOf(Editing(row)), "global")
    ensures
      var after := After(row, PatchPrompts(p));
      after.draft.Some? && !SameLogic(after.draft.value, after.workflow) ==>
        var published := After(after, Publish(None, after.draft.value));
        published.workflow == after.draft.value && published.columns == PatchedTo(ColumnsOf(Editing(row)), p)
  {
    hide InStep, Valid, Equal, CanMirror, ColumnsOf, NodesOf, EdgesOf, OnlyPrompts, Mirrored, SameLogic, After, HasKind,
         PatchedTo;
    PatchReachesBoth(row, p);
    var after := After(row, PatchPrompts(p));
    if after.draft.Some? && !SameLogic(after.draft.value, after.workflow) { DraftPublished(after); }
  }

  lemma DraftPublished(row: Row)
    requires row.draft.Some? && Valid(row.draft.value) && !SameLogic(row.draft.value, row.workflow)
    ensures
      var published := After(row, Publish(None, row.draft.value));
      published.workflow == row.draft.value && published.columns == ColumnsOf(row.draft.value)
  {
    hide Valid, Equal, ColumnsOf, SameLogic;
  }

  /** A patch that sets nothing, or a system prompt where there is no step for it, changes nothing. */
  lemma PatchRefuses(row: Row, p: Patch)
    requires InStep(row) && Valid(Editing(row))
    requires p.systemPrompt.Some? ==>
      !HasKind(NodesOf(row.workflow), "global") || !HasKind(NodesOf(Editing(row)), "global")
    requires p.systemPrompt.None? ==> p.greeting.None?
    ensures After(row, PatchPrompts(p)) == row
  {
    assert Valid(row.workflow);
    hide InStep, Valid, CanMirror, ColumnsOf, NodesOf, HasKind, Editing, After;
    CanMirrorIff(row.workflow, p);
    CanMirrorIff(Editing(row), p);
    PatchIdle(row, p);
  }

  lemma PatchIdle(row: Row, p: Patch)
    requires
      || (p.greeting.None? && p.systemPrompt.None?)
      || !CanMirror(row.workflow, p) || !CanMirror(Editing(row), p)
    ensures After(row, PatchPrompts(p)) == row
  {
    hide CanMirror, Mirrored, Equal, Published;
  }
}
