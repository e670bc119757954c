/**
 The editor's warnings about a valid graph: steps no call reaches, chunks that are not placeholders,
 and placeholders that come out blank on some path.
 */
module GraphWarnings {
  import opened Text
  import opened Templates
  import opened WorkflowGraph

  const CALL_CONTEXT_VARIABLES: set<string> := {
    "caller_number", "called_number", "direction", "agent_name",
    "current_date", "current_time", "business_name"
  }

  datatype Problem =
    | BadPlaceholder(chunk: string)
    | AlwaysOnUnfilled(name: string)   // used by the always-on instruction, not supplied by the call
    | CapturedTooLate(name: string)    // some step captures it, but not on every path
    | NobodyProvides(name: string)
    | Unreachable

  datatype Warning = Warning(onNode: bool, id: string, field: string, problem: Problem)

  function AlwaysAvailable(known: set<string>): set<string> { CALL_CONTEXT_VARIABLES + known }

  function Or(text: Option<string>): string {
    match text case Some(t) => t case None => ""
  }

  // ---------------------------------------------------------------- what a warning means on walks

  /** Some call enters step `id` (or is leaving it) without a value for `name`. */
  ghost predicate MissingOnWalk(g: Graph, always: set<string>, id: string, leaving: bool, name: string) {
    && name !in always
    && (leaving ==> name !in g.DeclaredBy(id))
    && exists w :: g.IsWalkTo(w, id) && name !in g.Captured(w)
  }

  ghost function Guaranteed(g: Graph, always: set<string>, id: string, leaving: bool): set<string> {
    always + g.MustCapture(id) + (if leaving then g.DeclaredBy(id) else {})
  }

  /** The analysis is exact: a name is outside the guaranteed set just when some walk misses it. */
  lemma GuaranteedIffNoMissingWalk(g: Graph, always: set<string>, id: string, leaving: bool, name: string)
    requires g.Reaches(id)
    ensures name !in Guaranteed(g, always, id, leaving) <==> MissingOnWalk(g, always, id, leaving, name)
  {
    var w0 :| g.IsWalkTo(w0, id);
    CapturedInUniverse(g, w0);
  }

  /** A problem reported about `text` spoken at step `id`. */
  ghost predicate ProblemAt(g: Graph, always: set<string>, id: string, leaving: bool, text: string, p: Problem) {
    match p
    case BadPlaceholder(c) => c in MalformedTemplates(text)
    case CapturedTooLate(n) => n in TemplateVariables(text) && n in g.Universe()
      && MissingOnWalk(g, always, id, leaving, n)
    case NobodyProvides(n) => n in TemplateVariables(text) && n !in g.Universe()
      && MissingOnWalk(g, always, id, leaving, n)
    case _ => false
  }

  ghost predicate AlwaysOnProblem(always: set<string>, text: string, p: Problem) {
    match p
    case BadPlaceholder(c) => c in MalformedTemplates(text)
    case AlwaysOnUnfilled(n) => n in TemplateVariables(text) && n !in always
    case _ => false
  }

  ghost predicate SpeechWarning(g: Graph, always: set<string>, step: string, edges: seq<Edge>, w: Warning) {
    && !w.onNode && w.field == "transition_speech"
    && exists e :: e in edges && w.id == e.id && ProblemAt(g, always, step, true, Or(e.speech), w.problem)
  }

  /** The warnings one step of the graph deserves, said in terms of walks only. */
  ghost predicate Deserved(g: Graph, always: set<string>, n: Node, w: Warning) {
    if n.IsUnwired() then
      w.onNode && w.id == n.id && w.field == "prompt" && AlwaysOnProblem(always, n.prompt, w.problem)
    else if !g.Reaches(n.id) then
      w == Warning(true, n.id, "", Unreachable)
    else
      || (w.onNode && w.id == n.id && w.field == "prompt" && ProblemAt(g, always, n.id, false, n.prompt, w.problem))
      || (w.onNode && w.id == n.id && w.field == "greeting"
        && ProblemAt(g, always, n.id, false, Or(n.greeting), w.problem))
      || SpeechWarning(g, always, n.id, n.outEdges, w)
  }

  // ---------------------------------------------------------------- the analyser

  /** Warnings about one text, given what is available where it is spoken. */
  method WarnTemplates(onNode: bool, id: string, field: string, text: string,
                       available: set<string>, declared: set<string>, alwaysOn: bool)
    returns (ws: seq<Warning>)
    ensures forall w :: w in ws ==> w.onNode == onNode && w.id == id && w.field == field
    ensures forall p :: Warning(onNode, id, field, p) in ws <==>
      match p
      case BadPlaceholder(c) => c in MalformedTemplates(text)
      case AlwaysOnUnfilled(n) => alwaysOn && n in TemplateVariables(text) && n !in available
      case CapturedTooLate(n) => !alwaysOn && n in TemplateVariables(text) && n !in available && n in declared
      case NobodyProvides(n) => !alwaysOn && n in TemplateVariables(text) && n !in available && n !in declared
      case Unreachable => false
  {
    ws := [];
    var chunks := MalformedTemplates(text);
    for i := 0 to |chunks|
      invariant forall w :: w in ws <==> exists k ::
        0 <= k < i && w == Warning(onNode, id, field, BadPlaceholder(chunks[k]))
    {
      ws := ws + [Warning(onNode, id, field, BadPlaceholder(chunks[i]))];
    }
    var missing := TemplateVariables(text) - available;
    ghost var all := missing;
    ghost var bad := ws;
    assert forall c :: Warning(onNode, id, field, BadPlaceholder(c)) in bad <==> c in chunks;
    while missing != {}
      invariant missing <= all
      invariant forall w :: w in ws <==>
        (w in bad || exists n ::
          n in all && n !in missing && w == Warning(onNode, id, field, UnfilledProblem(n, declared, alwaysOn)))
    {
      var n :| n in missing;
      missing := missing - {n};
      ws := ws + [Warning(onNode, id, field, UnfilledProblem(n, declared, alwaysOn))];
    }
  }

  function UnfilledProblem(name: string, declared: set<string>, alwaysOn: bool): Problem {
    if alwaysOn then AlwaysOnUnfilled(name)
    else if name in declared then CapturedTooLate(name)
    else NobodyProvides(name)
  }

  /** Warnings about a text spoken at a reachable step. */
  method WarnAt(g: Graph, known: set<string>, onNode: bool, id: string, field: string,
                text: string, step: string, leaving: bool, available: set<string>)
    returns (ws: seq<Warning>)
    requires g.Reaches(step)
    requires available == Guaranteed(g, AlwaysAvailable(known), step, leaving)
    ensures forall w :: w in ws <==>
      w.onNode == onNode && w.id == id && w.field == field
        && ProblemAt(g, AlwaysAvailable(known), step, leaving, text, w.problem)
  {
    ws := WarnTemplates(onNode, id, field, text, available, g.Universe(), false);
    forall n
      ensures n !in available <==> MissingOnWalk(g, AlwaysAvailable(known), step, leaving, n)
    {
      GuaranteedIffNoMissingWalk(g, AlwaysAvailable(known), step, leaving, n);
    }
    forall w
      ensures w in ws <==>
        w.onNode == onNode && w.id == id && w.field == field
          && ProblemAt(g, AlwaysAvailable(known), step, leaving, text, w.problem)
    {
      assert w == Warning(w.onNode, w.id, w.field, w.problem);
    }
  }

  method WarnNode(g: Graph, known: set<string>, n: Node, reachable: bool) returns (ws: seq<Warning>)
    requires g.WellFormed() && n.id in g.nodes && g.nodes[n.id] == n
    requires reachable <==> g.Reaches(n.id)
    ensures forall w :: w in ws <==> Deserved(g, AlwaysAvailable(known), n, w)
  {
    var always := AlwaysAvailable(known);
    if n.IsUnwired() {
      ws := WarnTemplates(true, n.id, "prompt", n.prompt, always, g.Universe(), true);
      assert forall w: Warning :: w == Warning(w.onNode, w.id, w.field, w.problem);
      return;
    }
    if !reachable {
      return [Warning(true, n.id, "", Unreachable)];
    }
    var onEntry := VariablesAvailableAt(g, n.id, false);
    var w1 := WarnAt(g, known, true, n.id, "prompt", n.prompt, n.id, false, always + onEntry);
    var w2 := WarnAt(g, known, true, n.id, "greeting", Or(n.greeting), n.id, false, always + onEntry);
    var onLeave := VariablesAvailableAt(g, n.id, true);
    var w3 := WarnSpeech(g, known, n.id, n.outEdges, always + onLeave);
    ws := w1 + w2 + w3;
  }

  /** Warnings about the speech of the given connections out of a reachable step. */
  method WarnSpeech(g: Graph, known: set<string>, step: string, edges: seq<Edge>, available: set<string>)
    returns (ws: seq<Warning>)
    requires g.Reaches(step) && available == Guaranteed(g, AlwaysAvailable(known), step, true)
    ensures forall w :: w in ws <==> SpeechWarning(g, AlwaysAvailable(known), step, edges, w)
  {
    ws := [];
    for i := 0 to |edges|
      invariant forall w :: w in ws <==> SpeechWarning(g, AlwaysAvailable(known), step, edges[..i], w)
    {
      TakeSnoc(edges, i);
      var e := edges[i];
      var more := WarnAt(g, known, false, e.id, "transition_speech", Or(e.speech), step, true, available);
      ws := ws + more;
    }
    TakeAll(edges);
  }

  /** The analyser reports exactly the deserved warnings: each one it gives on a reachable step has a
      walk on which the name is missing, and each such walk is reported. */
  method Analyse(g: Graph, known: set<string>) returns (ws: seq<Warning>)
    requires g.WellFormed()
    ensures forall w :: w in ws <==> exists id :: id in g.nodes && Deserved(g, AlwaysAvailable(known), g.nodes[id], w)
  {
    ws := [];
    var reach := Reachable(g);
    for i := 0 to |g.order|
      invariant forall w :: w in ws <==> exists id ::
        id in g.order[..i] && Deserved(g, AlwaysAvailable(known), g.nodes[id], w)
    {
      var id := g.order[i];
      assert g.order[..i + 1] == g.order[..i] + [id];
      var more := WarnNode(g, known, g.nodes[id], id in reach);
      ws := ws + more;
    }
    assert g.order[..|g.order|] == g.order;
  }

  // ---------------------------------------------------------------- what a clean report promises

  ghost predicate Clean(g: Graph, known: set<string>) {
    forall id, w :: id in g.nodes && Deserved(g, AlwaysAvailable(known), g.nodes[id], w) ==> w.problem.Unreachable?
  }

  /** On a graph with no placeholder warning, every call speaks every text exactly: whatever walk it
      took, once each step left has stored what it declares, the prompt and greeting of the step it
      enters, the speech of the connection it takes and the always-on instruction render to
      themselves with each placeholder replaced by its value. */
  lemma CleanGraphSpeaksExactly(g: Graph, known: set<string>, w: seq<string>, id: string, variables: map<string,
      string>)
    requires g.WellFormed() && Clean(g, known) && g.IsWalkTo(w, id) && id in g.nodes && !g.nodes[id].IsUnwired()
    requires Supplies(variables, AlwaysAvailable(known) + g.Captured(w))
    ensures SpokenExactly(g.nodes[id].prompt, variables)
    ensures SpokenExactly(Or(g.nodes[id].greeting), variables)
  {
    WalkInNodes(g, w);
    TextFilled(g, known, w, id, false, g.nodes[id].prompt, "prompt", id, true, variables);
    TextFilled(g, known, w, id, false, Or(g.nodes[id].greeting), "greeting", id, true, variables);
  }

  lemma CleanGraphSpeaksConnections(g: Graph, known: set<string>, w: seq<string>, id: string, e: Edge,
      variables: map<string, string>)
    requires g.WellFormed() && Clean(g, known) && g.IsWalkTo(w, id) && id in g.nodes && !g.nodes[id].IsUnwired()
    requires e in g.nodes[id].outEdges
    requires Supplies(variables, AlwaysAvailable(known) + g.Captured(w + [e.target]))
    ensures SpokenExactly(Or(e.speech), variables)
  {
    ExtendWalk(g, w, id, e.target);
    TextFilled(g, known, w, id, true, Or(e.speech), "transition_speech", e.id, false, variables);
  }

  lemma CleanGraphSpeaksAlwaysOn(g: Graph, known: set<string>, id: string, variables: map<string, string>)
    requires Clean(g, known) && id in g.nodes && g.nodes[id].IsUnwired()
    requires Supplies(variables, AlwaysAvailable(known))
    ensures SpokenExactly(g.nodes[id].prompt, variables)
  {
    var n := g.nodes[id];
    forall p | AlwaysOnProblem(AlwaysAvailable(known), n.prompt, p)
      ensures p.Unreachable?
    {
      assert Deserved(g, AlwaysAvailable(known), n, Warning(true, n.id, "prompt", p));
    }
    NoChunks(n.prompt, AlwaysAvailable(known));
    RenderIsExact(n.prompt, variables);
  }

  ghost predicate SpokenExactly(text: string, variables: map<string, string>) {
    && HoleNames(Pieces(text)) <= variables.Keys
    && Written(Pieces(text)) == text
    && Render(text, variables) == Filled(Pieces(text), variables)
  }

  lemma HasMember(s: seq<string>)
    ensures s != [] ==> exists c :: c in s
  {
    assert s == [] || s[0] in s;
  }

  lemma NoChunks(text: string, available: set<string>)
    requires forall p :: AlwaysOnProblem(available, text, p) ==> p.Unreachable?
    ensures MalformedTemplates(text) == [] && TemplateVariables(text) <= available
  {
    forall c ensures c !in MalformedTemplates(text) {
      assert AlwaysOnProblem(available, text, BadPlaceholder(c)) ==> BadPlaceholder(c).Unreachable?;
    }
    HasMember(MalformedTemplates(text));
    forall n | n in TemplateVariables(text)
      ensures n in available
    {
      assert AlwaysOnProblem(available, text, AlwaysOnUnfilled(n)) ==> AlwaysOnUnfilled(n).Unreachable?;
    }
  }

  lemma NoProblems(g: Graph, always: set<string>, id: string, leaving: bool, text: string, w: seq<string>)
    requires forall p :: ProblemAt(g, always, id, leaving, text, p) ==> p.Unreachable?
    requires g.IsWalkTo(w, id)
    ensures MalformedTemplates(text) == []
    ensures TemplateVariables(text) <= always + g.Captured(w) + (if leaving then g.DeclaredBy(id) else {})
  {
    forall c ensures c !in MalformedTemplates(text) {
      assert ProblemAt(g, always, id, leaving, text, BadPlaceholder(c)) ==> BadPlaceholder(c).Unreachable?;
    }
    HasMember(MalformedTemplates(text));
    forall n | n in TemplateVariables(text)
      ensures !MissingOnWalk(g, always, id, leaving, n)
    {
      var p := if n in g.Universe() then CapturedTooLate(n) else NobodyProvides(n);
      assert ProblemAt(g, always, id, leaving, text, p) ==> p.Unreachable?;
    }
  }

  lemma TextFilled(g: Graph, known: set<string>, w: seq<string>, id: string, leaving: bool, text: string,
                   field: string, target: string, onNode: bool, variables: map<string, string>)
    requires g.WellFormed() && Clean(g, known) && g.IsWalkTo(w, id) && id in g.nodes && !g.nodes[id].IsUnwired()
    requires forall p :: ProblemAt(g, AlwaysAvailable(known), id, leaving, text, p) ==>
      Deserved(g, AlwaysAvailable(known), g.nodes[id], Warning(onNode, target, field, p))
    requires Supplies(variables, AlwaysAvailable(known) + g.Captured(w) + (if leaving then g.DeclaredBy(id) else {}))
    ensures SpokenExactly(text, variables)
  {
    var always := AlwaysAvailable(known);
    forall p ensures ProblemAt(g, always, id, leaving, text, p) ==> p.Unreachable? {
      assert Deserved(g, always, g.nodes[id], Warning(onNode, target, field, p)) ==> p.Unreachable?;
    }
    NoProblems(g, always, id, leaving, text, w);
    RenderIsExact(text, variables);
  }
}
