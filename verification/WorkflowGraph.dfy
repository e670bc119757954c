/**
 The parsed workflow graph, its walks, and the must-define analysis of captured variables.

 A call starts at the start step and follows connections; leaving a step stores the variables its
 enabled extraction declares.  The analysis iterates a data-flow equation to its greatest fixpoint;
 the theorem is that this is the meet over all walks, whatever the visiting order.
 */
module WorkflowGraph {
  import opened Text

  datatype ExtractionVariable = ExtractionVariable(name: string, kind: string, prompt: string)

  datatype Extraction = Extraction(enabled: bool, prompt: string, variables: seq<ExtractionVariable>)

  datatype Edge = Edge(
    id: string, source: string, target: string,
    labelText: string, condition: string, speech: Option<string>)

  datatype Node = Node(
    id: string, kind: string, name: string, prompt: string, greeting: Option<string>,
    delayedStartMs: int, tools: seq<string>, knowledgeBaseIds: seq<string>,
    extraction: Option<Extraction>, transferDestination: Option<string>, disposition: Option<string>,
    outEdges: seq<Edge>)
  {
    predicate IsTerminal() { kind == "end" || kind == "transfer" }

    predicate IsUnwired() { kind == "global" }

    function Declared(): set<string> {
      if extraction.Some? && extraction.value.enabled
      then set v | v in extraction.value.variables :: v.name
      else {}
    }
  }

  /** `order` is the iteration order of the node dictionary. */
  datatype Graph = Graph(nodes: map<string, Node>, order: seq<string>, startId: string) {
    ghost predicate WellFormed() {
      && startId in nodes
      && (forall id :: id in order <==> id in nodes)
      && (forall i, j :: 0 <= i < j < |order| ==> order[i] != order[j])
      && (forall id :: id in nodes ==> nodes[id].id == id && WiredOut(nodes[id]))
    }

    ghost predicate WiredOut(n: Node) {
      forall e :: e in n.outEdges ==> e.source == n.id && e.target in nodes
    }

    predicate HasEdge(a: string, b: string) {
      a in nodes && exists e :: e in nodes[a].outEdges && e.target == b
    }

    /** A walk: the steps entered by some call, in order. */
    ghost predicate IsWalk(w: seq<string>) {
      && |w| > 0 && w[0] == startId
      && forall i {:trigger w[i]} :: 0 <= i < |w| - 1 ==> HasEdge(w[i], w[i + 1])
    }

    ghost predicate IsWalkTo(w: seq<string>, id: string) { IsWalk(w) && w[|w| - 1] == id }

    ghost predicate Reaches(id: string) { exists w :: IsWalkTo(w, id) }

    function DeclaredBy(id: string): set<string> {
      if id in nodes then nodes[id].Declared() else {}
    }

    /** What a call that walked `w` has stored on entering the last step of `w`. */
    function Captured(w: seq<string>): set<string> {
      if |w| <= 1 then {} else Captured(w[..|w| - 1]) + DeclaredBy(w[|w| - 2])
    }

    function Universe(): set<string> {
      set id, v | id in nodes && v in nodes[id].Declared() :: v
    }

    /** The meet over all walks: captured on every walk to `id`. */
    ghost function MustCapture(id: string): set<string> {
      set v | v in Universe() && forall w :: IsWalkTo(w, id) ==> v in Captured(w)
    }
  }

  // ---------------------------------------------------------------- walks

  lemma ExtendWalk(g: Graph, w: seq<string>, a: string, b: string)
    requires g.IsWalkTo(w, a) && g.HasEdge(a, b)
    ensures g.IsWalkTo(w + [b], b)
    ensures g.Captured(w + [b]) == g.Captured(w) + g.DeclaredBy(a)
  {
    assert (w + [b])[..|w|] == w;
  }

  lemma ShrinkWalk(g: Graph, w: seq<string>)
    requires g.IsWalk(w) && |w| > 1
    ensures g.IsWalkTo(w[..|w| - 1], w[|w| - 2])
    ensures g.HasEdge(w[|w| - 2], w[|w| - 1])
  {
    var v := w[..|w| - 1];
    forall i | 0 <= i < |v| - 1
      ensures g.HasEdge(v[i], v[i + 1])
    {
      assert v[i] == w[i];
    }
    assert w[|w| - 2] == v[|v| - 1];
  }

  lemma WalkInNodes(g: Graph, w: seq<string>)
    requires g.WellFormed() && g.IsWalk(w)
    ensures w[|w| - 1] in g.nodes
  {
    if |w| > 1 { ShrinkWalk(g, w); }
  }

  lemma {:induction false} CapturedInUniverse(g: Graph, w: seq<string>)
    ensures g.Captured(w) <= g.Universe()
  {
    if |w| > 1 { CapturedInUniverse(g, w[..|w| - 1]); }
  }

  /** A set that holds the start and is closed under connections holds the end of every walk. */
  lemma {:induction false} ClosedHoldsWalks(g: Graph, s: set<string>, w: seq<string>)
    requires g.startId in s && g.IsWalk(w)
    requires forall a, b :: a in s && g.HasEdge(a, b) ==> b in s
    ensures w[|w| - 1] in s
  {
    if |w| > 1 {
      ShrinkWalk(g, w);
      ClosedHoldsWalks(g, s, w[..|w| - 1]);
    }
  }

  /** The stack-driven search finds exactly the steps some walk enters. */
  method Reachable(g: Graph) returns (seen: set<string>)
    requires g.WellFormed()
    ensures forall id :: id in seen <==> g.Reaches(id)
    ensures seen <= g.nodes.Keys
  {
    seen := {};
    var stack := [g.startId];
    assert g.IsWalkTo([g.startId], g.startId);
    while stack != []
      invariant seen <= g.nodes.Keys
      invariant forall id :: id in seen || id in stack ==> id in g.nodes && g.Reaches(id)
      invariant g.startId in seen || g.startId in stack
      invariant forall a, b :: a in seen && g.HasEdge(a, b) ==> b in seen || b in stack
      decreases g.nodes.Keys - seen, |stack|
    {
      ghost var before := stack;
      var id := stack[|stack| - 1];
      stack := stack[..|stack| - 1];
      assert before == stack + [id];
      if id in seen {
        continue;
      }
      seen := seen + {id};
      var targets := seq(|g.nodes[id].outEdges|,
        i requires 0 <= i < |g.nodes[id].outEdges| => g.nodes[id].outEdges[i].target);
      TargetsReached(g, id, targets);
      stack := stack + targets;
      assert forall x :: x in before ==> x in stack || x == id;
    }
    forall id | g.Reaches(id)
      ensures id in seen
    {
      var w :| g.IsWalkTo(w, id);
      ClosedHoldsWalks(g, seen, w);
    }
  }

  lemma TargetsReached(g: Graph, id: string, targets: seq<string>)
    requires g.WellFormed() && g.Reaches(id) && id in g.nodes
    requires |targets| == |g.nodes[id].outEdges|
    requires forall i :: 0 <= i < |targets| ==> targets[i] == g.nodes[id].outEdges[i].target
    ensures forall b :: b in targets <==> g.HasEdge(id, b)
    ensures forall b :: b in targets ==> b in g.nodes && g.Reaches(b)
  {
    forall b | g.HasEdge(id, b)
      ensures b in targets
    {
      var e :| e in g.nodes[id].outEdges && e.target == b;
      var i :| 0 <= i < |targets| && g.nodes[id].outEdges[i] == e;
      assert targets[i] == b;
    }
    forall b | b in targets
      ensures g.HasEdge(id, b) && b in g.nodes && g.Reaches(b)
    {
      var i :| 0 <= i < |targets| && targets[i] == b;
      assert g.nodes[id].outEdges[i] in g.nodes[id].outEdges;
      var w :| g.IsWalkTo(w, id);
      ExtendWalk(g, w, id, b);
    }
  }

  // ---------------------------------------------------------------- the data-flow equation

  ghost function Sources(g: Graph, known: set<string>, id: string): set<string> {
    set p | p in known && g.HasEdge(p, id)
  }

  /** `v` is on hand after leaving `p`, according to the current approximation. */
  ghost predicate Passes(g: Graph, avail: map<string, set<string>>, p: string, v: string)
  {
    p in avail && (v in avail[p] || v in g.DeclaredBy(p))
  }

  /** What the equation gives for a step other than the start, from the current approximation. */
  ghost function Meet(g: Graph, avail: map<string, set<string>>, id: string): set<string> {
    if Sources(g, avail.Keys, id) == {} then {}
    else set v | v in g.Universe() && forall p :: p in Sources(g, avail.Keys, id) ==> Passes(g, avail, p, v)
  }

  ghost predicate Analysed(g: Graph, reach: set<string>) {
    && g.WellFormed() && reach <= g.nodes.Keys && g.startId in reach
    && forall id :: id in reach <==> g.Reaches(id)
  }

  /** The shape of every approximation the iteration goes through: nothing at the start, at least the
      meet over all walks everywhere, and never below what the equation gives. */
  ghost predicate Approximation(g: Graph, avail: map<string, set<string>>) {
    && Analysed(g, avail.Keys)
    && avail[g.startId] == {}
    && (forall id :: id in avail ==> g.MustCapture(id) <= avail[id] <= g.Universe())
    && (forall id :: id in avail && id != g.startId ==> Meet(g, avail, id) <= avail[id])
  }

  ghost predicate Settled(g: Graph, avail: map<string, set<string>>, id: string)
    requires id in avail
  {
    id == g.startId || avail[id] == Meet(g, avail, id)
  }

  /** What every walk to a step captures, every walk to a predecessor captures or the predecessor declares. */
  lemma MustCapturePasses(g: Graph, avail: map<string, set<string>>, id: string, p: string, v: string)
    requires Approximation(g, avail) && p in avail && g.HasEdge(p, id) && v in g.MustCapture(id)
    ensures Passes(g, avail, p, v)
  {
    if v !in g.DeclaredBy(p) {
      forall w | g.IsWalkTo(w, p)
        ensures v in g.Captured(w)
      {
        ExtendWalk(g, w, p, id);
      }
      assert v in g.MustCapture(p);
    }
  }

  lemma HasSource(g: Graph, avail: map<string, set<string>>, id: string)
    requires Approximation(g, avail) && id in avail && id != g.startId
    ensures Sources(g, avail.Keys, id) != {}
  {
    var w :| g.IsWalkTo(w, id);
    ShrinkWalk(g, w);
    assert w[|w| - 2] in Sources(g, avail.Keys, id);
  }

  /** The meet over all walks never exceeds what the equation gives. */
  lemma MustCaptureBelowMeet(g: Graph, avail: map<string, set<string>>, id: string)
    requires Approximation(g, avail) && id in avail && id != g.startId
    ensures g.MustCapture(id) <= Meet(g, avail, id)
  {
    HasSource(g, avail, id);
    forall v, p | v in g.MustCapture(id) && p in Sources(g, avail.Keys, id)
      ensures Passes(g, avail, p, v)
    {
      MustCapturePasses(g, avail, id, p, v);
    }
  }

  lemma MeetMonotone(g: Graph, low: map<string, set<string>>, high: map<string, set<string>>, id: string)
    requires low.Keys == high.Keys && forall k :: k in low ==> low[k] <= high[k]
    ensures Meet(g, low, id) <= Meet(g, high, id)
  {
    forall v, p | v in Meet(g, low, id) && p in Sources(g, low.Keys, id)
      ensures Passes(g, high, p, v)
    {
      assert Passes(g, low, p, v);
    }
  }

  /** Lowering one step to what the equation gives keeps the shape. */
  lemma LowerOne(g: Graph, avail: map<string, set<string>>, id: string)
    requires Approximation(g, avail) && id in avail && id != g.startId
    ensures Approximation(g, avail[id := Meet(g, avail, id)])
  {
    MustCaptureBelowMeet(g, avail, id);
    var lower := avail[id := Meet(g, avail, id)];
    assert lower.Keys == avail.Keys;
    forall k | k in avail && k != g.startId
      ensures Meet(g, lower, k) <= lower[k]
    {
      MeetMonotone(g, lower, avail, k);
    }
  }

  /** Once every step satisfies the equation, nothing is claimed that some walk does not capture. */
  lemma {:induction false} SettledBelowWalk(g: Graph, avail: map<string, set<string>>, w: seq<string>)
    requires Approximation(g, avail) && g.IsWalk(w)
    requires forall id :: id in avail ==> Settled(g, avail, id)
    ensures w[|w| - 1] in avail
    ensures avail[w[|w| - 1]] <= g.Captured(w)
  {
    var id := w[|w| - 1];
    assert g.IsWalkTo(w, id);
    if |w| > 1 {
      ShrinkWalk(g, w);
      var p := w[|w| - 2];
      SettledBelowWalk(g, avail, w[..|w| - 1]);
      assert Settled(g, avail, id);
      forall v | v in avail[id]
        ensures v in g.Captured(w)
      {
        assert p in Sources(g, avail.Keys, id);
        assert Passes(g, avail, p, v);
      }
    }
  }

  lemma SettledIsMustCapture(g: Graph, avail: map<string, set<string>>, id: string)
    requires Approximation(g, avail) && id in avail
    requires forall k :: k in avail ==> Settled(g, avail, k)
    ensures avail[id] == g.MustCapture(id)
  {
    forall w | g.IsWalkTo(w, id)
      ensures avail[id] <= g.Captured(w)
    {
      SettledBelowWalk(g, avail, w);
    }
  }

  // ---------------------------------------------------------------- the iteration

  ghost predicate Targets(edges: seq<Edge>, id: string) {
    exists e :: e in edges && e.target == id
  }

  /** Sources of the connections into each step, with repetition, in dictionary order. */
  method IncomingSources(g: Graph) returns (incoming: map<string, seq<string>>)
    requires g.WellFormed()
    ensures ListsSources(g, incoming)
  {
    incoming := map id | id in g.nodes :: [];
    for i := 0 to |g.order|
      invariant incoming.Keys == g.nodes.Keys
      invariant forall b :: b in g.nodes ==> forall a :: a in incoming[b] <==> a in g.order[..i] && g.HasEdge(a, b)
    {
      var n := g.nodes[g.order[i]];
      TakeSnoc(g.order, i);
      incoming := AddSources(incoming, n);
    }
    TakeAll(g.order);
  }

  /** Appends the step to the list of every step it leads to. */
  method AddSources(incoming0: map<string, seq<string>>, n: Node) returns (incoming: map<string, seq<string>>)
    requires forall e :: e in n.outEdges ==> e.source == n.id && e.target in incoming0
    ensures incoming.Keys == incoming0.Keys
    ensures forall b :: b in incoming ==> forall a :: a in incoming[b] <==>
      a in incoming0[b] || (a == n.id && Targets(n.outEdges, b))
  {
    incoming := incoming0;
    for j := 0 to |n.outEdges|
      invariant incoming.Keys == incoming0.Keys
      invariant forall b :: b in incoming ==> forall a :: a in incoming[b] <==>
        a in incoming0[b] || (a == n.id && Targets(n.outEdges[..j], b))
    {
      var e := n.outEdges[j];
      TakeSnoc(n.outEdges, j);
      incoming := incoming[e.target := incoming[e.target] + [e.source]];
    }
    TakeAll(n.outEdges);
  }

  ghost function OutOf(g: Graph, avail: map<string, set<string>>, p: string): set<string> {
    (if p in avail then avail[p] else {}) + g.DeclaredBy(p)
  }

  /** What leaving any of the listed steps guarantees. */
  ghost predicate AllPass(g: Graph, avail: map<string, set<string>>, ps: seq<string>, m: set<string>) {
    forall v :: v in m <==> forall i :: 0 <= i < |ps| ==> v in OutOf(g, avail, ps[i])
  }

  lemma AllPassSnoc(g: Graph, avail: map<string, set<string>>, ps: seq<string>, q: string, m: set<string>)
    requires AllPass(g, avail, ps, m)
    ensures AllPass(g, avail, ps + [q], m * OutOf(g, avail, q))
  {
    var qs := ps + [q];
    assert forall i :: 0 <= i < |ps| ==> qs[i] == ps[i];
    assert qs[|ps|] == q;
  }

  lemma AllPassIsMeet(g: Graph, avail: map<string, set<string>>, ps: seq<string>, id: string, m: set<string>)
    requires ps != [] && forall p :: p in avail ==> avail[p] <= g.Universe()
    requires forall p :: p in ps <==> p in Sources(g, avail.Keys, id)
    requires AllPass(g, avail, ps, m)
    ensures m == Meet(g, avail, id)
  {
    assert ps[0] in ps;
    forall v ensures v in m <==> v in Meet(g, avail, id) {
      if v in m {
        forall p | p in Sources(g, avail.Keys, id) ensures Passes(g, avail, p, v) {
          var i :| 0 <= i < |ps| && ps[i] == p;
        }
      }
      if v in Meet(g, avail, id) {
        forall i | 0 <= i < |ps| ensures v in OutOf(g, avail, ps[i]) {
          assert ps[i] in ps && Passes(g, avail, ps[i], v);
        }
      }
    }
  }

  /** One evaluation of the equation: the intersection over the reachable sources. */
  method EvaluateMeet(g: Graph, avail: map<string, set<string>>, preds: seq<string>, ghost id: string)
    returns (m: set<string>)
    requires forall p :: p in avail ==> avail[p] <= g.Universe()
    requires forall p :: p in preds <==> p in Sources(g, avail.Keys, id)
    ensures m == Meet(g, avail, id)
  {
    if preds == [] {
      assert Sources(g, avail.Keys, id) == {};
      return {};
    }
    assert preds[0] in preds;
    m := avail[preds[0]] + g.DeclaredBy(preds[0]);
    assert preds[..1] == [preds[0]];
    for i := 1 to |preds|
      invariant AllPass(g, avail, preds[..i], m)
    {
      TakeSnoc(preds, i);
      AllPassSnoc(g, avail, preds[..i], preds[i], m);
      m := m * (avail[preds[i]] + g.DeclaredBy(preds[i]));
    }
    TakeAll(preds);
    AllPassIsMeet(g, avail, preds, id, m);
  }

  ghost function Facts(avail: map<string, set<string>>): set<(string, string)> {
    set id, v | id in avail && v in avail[id] :: (id, v)
  }

  lemma FactsShrink(avail: map<string, set<string>>, id: string, m: set<string>)
    requires id in avail && m < avail[id]
    ensures Facts(avail[id := m]) < Facts(avail)
  {
    var v :| v in avail[id] && v !in m;
    assert (id, v) in Facts(avail) && (id, v) !in Facts(avail[id := m]);
  }

  ghost predicate ListsSources(g: Graph, incoming: map<string, seq<string>>) {
    && incoming.Keys == g.nodes.Keys
    && forall a, b :: b in g.nodes ==> (a in incoming[b] <==> g.HasEdge(a, b))
  }

  /** Re-evaluates one step. */
  method Visit(g: Graph, avail0: map<string, set<string>>, incoming: map<string, seq<string>>, id: string)
    returns (avail: map<string, set<string>>, changed: bool)
    requires Approximation(g, avail0) && ListsSources(g, incoming) && id in avail0
    ensures Approximation(g, avail) && avail.Keys == avail0.Keys
    ensures changed ==> Facts(avail) < Facts(avail0)
    ensures !changed ==> avail == avail0 && Settled(g, avail, id)
  {
    if id == g.startId {
      return avail0, false;
    }
    var preds := Filter(incoming[id], avail0.Keys);
    var m := EvaluateMeet(g, avail0, preds, id);
    if m == avail0[id] {
      return avail0, false;
    }
    LowerOne(g, avail0, id);
    FactsShrink(avail0, id, m);
    return avail0[id := m], true;
  }

  /** One round over the reachable steps, in any order. */
  method Round(g: Graph, avail0: map<string, set<string>>, incoming: map<string, seq<string>>)
    returns (avail: map<string, set<string>>, changed: bool)
    requires Approximation(g, avail0) && ListsSources(g, incoming)
    ensures Approximation(g, avail) && avail.Keys == avail0.Keys
    ensures changed ==> Facts(avail) < Facts(avail0)
    ensures !changed ==> avail == avail0 && forall id :: id in avail ==> Settled(g, avail, id)
  {
    avail, changed := avail0, false;
    var todo := avail0.Keys;
    while todo != {}
      invariant todo <= avail0.Keys == avail.Keys && Approximation(g, avail)
      invariant changed ==> Facts(avail) < Facts(avail0)
      invariant !changed ==> avail == avail0 && forall id :: id in avail && id !in todo ==> Settled(g, avail, id)
      decreases todo
    {
      var id :| id in todo;
      todo := todo - {id};
      var c: bool;
      avail, c := Visit(g, avail, incoming, id);
      changed := changed || c;
    }
  }

  function Filter(s: seq<string>, keep: set<string>): (r: seq<string>)
    ensures forall x :: x in r <==> x in s && x in keep
  {
    if s == [] then [] else (if s[0] in keep then [s[0]] else []) + Filter(s[1..], keep)
  }

  lemma InitialApproximation(g: Graph, reach: set<string>)
    requires Analysed(g, reach)
    ensures Approximation(g, (map id | id in reach :: g.Universe())[g.startId := {}])
  {
    assert g.IsWalkTo([g.startId], g.startId);
    assert g.Captured([g.startId]) == {};
  }

  /** The variables guaranteed when a call enters (or, with `leaving`, leaves) a step: exactly those
      captured on every walk from the start to it, plus the step's own when leaving. */
  method VariablesAvailableAt(g: Graph, id: string, leaving: bool) returns (result: set<string>)
    requires g.WellFormed()
    ensures g.Reaches(id) ==> result == g.MustCapture(id) + (if leaving then g.DeclaredBy(id) else {})
    ensures !g.Reaches(id) ==> result == {}
  {
    var reach := Reachable(g);
    if id !in reach {
      return {};
    }
    var incoming := IncomingSources(g);
    assert g.IsWalkTo([g.startId], g.startId);
    InitialApproximation(g, reach);
    var avail := (map k | k in reach :: g.Universe())[g.startId := {}];
    var changed := true;
    while changed
      invariant Approximation(g, avail)
      invariant avail.Keys == reach
      invariant !changed ==> forall k :: k in avail ==> Settled(g, avail, k)
      decreases Facts(avail), changed
    {
      avail, changed := Round(g, avail, incoming);
    }
    SettledIsMustCapture(g, avail, id);
    result := avail[id];
    if leaving {
      result := result + g.DeclaredBy(id);
    }
  }
}
