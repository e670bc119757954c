/**
 One agent's workflow: the live graph, the editor's draft, the two prompt columns the runtime reads,
 and the append-only history of published versions.
 */
module Publishing {
  import opened Text
  import opened Json
  import opened WorkflowGraph
  import opened Validation
  import opened Permutations
  import opened SortedViews
  import opened Reprints
  import opened Equivalence
  import SkipExact

  // ---------------------------------------------------------------- the prompt columns

  datatype Columns = Columns(greeting: string, systemPrompt: string)

  predicate IsKind(step: Fields, kind: string) {
    "type" in step && step["type"] == Str(kind)
  }

  function Blank(text: Option<string>): string { match text case Some(t) => t case None => "" }

  /** `"" if data.get(key) is None else str(...)` */
  function Prompt(step: Fields, key: string): string { Blank(OptionalText(SubObject(step, "data"), key)) }

  /** The text under `key` of the last step of the kind; None when there is no such step. */
  function LastPrompt(steps: seq<Fields>, kind: string, key: string): Option<string> {
    if steps == [] then None
    else
      var last := steps[|steps| - 1];
      if IsKind(last, kind) then Some(Prompt(last, key)) else LastPrompt(steps[..|steps| - 1], kind, key)
  }

  function ColumnsOf(raw: Json): Columns {
    Columns(Blank(LastPrompt(RawSteps(raw), "start", "greeting")), Blank(LastPrompt(RawSteps(raw), "global", "prompt")))
  }

  /** The columns derived from a graph in one pass over its steps. */
  method ColumnPrompts(raw: Json) returns (c: Columns)
    ensures c == ColumnsOf(raw)
  {
    var steps := RawSteps(raw);
    var greeting: Option<string>, systemPrompt: Option<string> := None, None;
    for i := 0 to |steps|
      invariant greeting == LastPrompt(steps[..i], "start", "greeting")
      invariant systemPrompt == LastPrompt(steps[..i], "global", "prompt")
    {
      TakeSnoc(steps, i);
      LastPromptSnoc(steps[..i], steps[i], "start", "greeting");
      LastPromptSnoc(steps[..i], steps[i], "global", "prompt");
      if IsKind(steps[i], "start") {
        greeting := Some(Prompt(steps[i], "greeting"));
      } else if IsKind(steps[i], "global") {
        systemPrompt := Some(Prompt(steps[i], "prompt"));
      }
    }
    TakeAll(steps);
    c := Columns(Blank(greeting), Blank(systemPrompt));
  }

  lemma LastPromptSnoc(steps: seq<Fields>, s: Fields, kind: string, key: string)
    ensures LastPrompt(steps + [s], kind, key) == if IsKind(s, kind) then Some(Prompt(s, key))
      else LastPrompt(steps, kind, key)
  {
    assert (steps + [s])[..|steps|] == steps;
  }

  // ---------------------------------------------------------------- the columns by what the steps say

  /** What one raw step has to say for the columns. */
  datatype Line = Greeting(text: string) | Instruction(text: string) | Silent

  function LineOf(step: Fields): Line {
    if IsKind(step, "start") then Greeting(Prompt(step, "greeting"))
    else if IsKind(step, "global") then Instruction(Prompt(step, "prompt"))
    else Silent
  }

  ghost predicate OneEach(lines: seq<Line>) {
    forall i, j :: 0 <= i < |lines| && 0 <= j < |lines| && i != j ==> OneOf(lines[i], lines[j])
  }

  predicate OneOf(x: Line, y: Line) { !(x.Greeting? && y.Greeting?) && !(x.Instruction? && y.Instruction?) }

  /** The columns hold what the lines say. */
  ghost predicate Hold(c: Columns, lines: seq<Line>) {
    && (forall l :: l in lines && l.Greeting? ==> c.greeting == l.text)
    && (forall l :: l in lines && l.Instruction? ==> c.systemPrompt == l.text)
    && ((forall l :: l in lines ==> !l.Greeting?) ==> c.greeting == "")
    && ((forall l :: l in lines ==> !l.Instruction?) ==> c.systemPrompt == "")
  }

  lemma {:induction false} LastIsThe(steps: seq<Fields>, kind: string, key: string, i: nat)
    requires i < |steps| && IsKind(steps[i], kind)
    requires forall j, k :: 0 <= j < k < |steps| ==> !(IsKind(steps[j], kind) && IsKind(steps[k], kind))
    ensures LastPrompt(steps, kind, key) == Some(Prompt(steps[i], key))
  {
    var m := |steps| - 1;
    if i < m {
      assert forall j :: 0 <= j < m ==> steps[..m][j] == steps[j];
      LastIsThe(steps[..m], kind, key, i);
    }
  }

  lemma {:induction false} NoPrompt(steps: seq<Fields>, kind: string, key: string)
    requires forall i :: 0 <= i < |steps| ==> !IsKind(steps[i], kind)
    ensures LastPrompt(steps, kind, key) == None
  {
    if steps != [] {
      assert forall j :: 0 <= j < |steps| - 1 ==> steps[..|steps| - 1][j] == steps[j];
      NoPrompt(steps[..|steps| - 1], kind, key);
    }
  }

  lemma LinesAre(steps: seq<Fields>, lines: seq<Line>)
    requires lines == Map(steps, LineOf) && OneEach(lines)
    ensures forall i :: 0 <= i < |steps| ==> (lines[i].Greeting? <==> IsKind(steps[i], "start"))
    ensures forall i :: 0 <= i < |steps| ==> (lines[i].Instruction? <==> IsKind(steps[i], "global"))
    ensures forall j, k :: 0 <= j < k < |steps| ==> !(IsKind(steps[j], "start") && IsKind(steps[k], "start"))
    ensures forall j, k :: 0 <= j < k < |steps| ==> !(IsKind(steps[j], "global") && IsKind(steps[k], "global"))
  {
    forall j, k | 0 <= j < k < |steps| ensures OneOf(lines[j], lines[k]) {}
  }

  lemma LastPromptHolds(steps: seq<Fields>, lines: seq<Line>)
    requires lines == Map(steps, LineOf) && OneEach(lines)
    ensures Hold(Columns(Blank(LastPrompt(steps, "start", "greeting")), Blank(LastPrompt(steps, "global", "prompt"))),
      lines)
  {
    LinesAre(steps, lines);
    forall l | l in lines
      ensures l.Greeting? ==> LastPrompt(steps, "start", "greeting") == Some(l.text)
      ensures l.Instruction? ==> LastPrompt(steps, "global", "prompt") == Some(l.text)
    {
      var i :| 0 <= i < |lines| && lines[i] == l;
      if l.Greeting? { LastIsThe(steps, "start", "greeting", i); }
      if l.Instruction? { LastIsThe(steps, "global", "prompt", i); }
    }
    assert forall i :: 0 <= i < |lines| ==> lines[i] in lines;
    if forall l :: l in lines ==> !l.Greeting? { NoPrompt(steps, "start", "greeting"); }
    if forall l :: l in lines ==> !l.Instruction? { NoPrompt(steps, "global", "prompt"); }
  }

  lemma HoldUnique(c: Columns, d: Columns, ls: seq<Line>, ms: seq<Line>)
    requires multiset(ls) == multiset(ms) && Hold(c, ls) && Hold(d, ms)
    ensures c == d
  {
    SameMembers(ls, ms);
    if l :| l in ls && l.Greeting? { assert c.greeting == d.greeting; }
    if l :| l in ls && l.Instruction? { assert c.systemPrompt == d.systemPrompt; }
  }

  // ---------------------------------------------------------------- kinds

  lemma NodeTexts(v: Fields)
    ensures NodeOf(v).kind == TextOr(v, "type")
    ensures NodeOf(v).greeting == OptionalText(SubObject(v, "data"), "greeting")
    ensures NodeOf(v).prompt == TextOr(SubObject(v, "data"), "prompt")
  {
    hide TextOr, OptionalText, SubObject, Strip, ListedOf, EndingOf, ExtractionOf, DelayedStart;
  }

  /** A step is of a kind exactly when it says so in a string: nothing else prints as that word. */
  lemma KindOfStep(v: Fields, kind: string)
    requires kind != "" && IsLower(kind[0])
    ensures IsKind(v, kind) <==> NodeOf(v).kind == kind
  {
    hide NodeOf, Repr;
    NodeTexts(v);
    if "type" in v && !v["type"].Str? { PrintsNoWord(v["type"], kind); }
  }

  lemma NodesOneEach(n: Node, m: Node, v: Fields, w: Fields)
    requires NodesAgree(n, m) && n == NodeOf(v) && m == NodeOf(w)
    ensures OneOf(LineOf(v), LineOf(w))
  {
    hide NodeOf, Lower, Prompt;
    KindOfStep(v, "start");
    KindOfStep(w, "start");
    KindOfStep(v, "global");
    KindOfStep(w, "global");
  }

  lemma LinesOneEach(steps: seq<Fields>)
    requires ValidSteps(Map(steps, NodeOf))
    ensures OneEach(Map(steps, LineOf))
  {
    var ns, lines := Map(steps, NodeOf), Map(steps, LineOf);
    hide NodeOf, LineOf, NodesAgree, OneOf, ValidNode;
    forall i, j | 0 <= i < |lines| && 0 <= j < |lines| && i != j ensures OneOf(lines[i], lines[j]) {
      assert NodesAgree(ns[i], ns[j]);
      NodesOneEach(ns[i], ns[j], steps[i], steps[j]);
    }
  }

  /** The columns of a valid graph hold the greeting of its start and the prompt of its always-on step. */
  lemma ColumnsHold(raw: Json)
    requires Valid(raw)
    ensures OneEach(Map(RawSteps(raw), LineOf)) && Hold(ColumnsOf(raw), Map(RawSteps(raw), LineOf))
  {
    hide NodeOf, LineOf, Hold, OneEach, ValidConnections;
    NodesAre(raw);
    LinesOneEach(RawSteps(raw));
    LastPromptHolds(RawSteps(raw), Map(RawSteps(raw), LineOf));
  }

  // ---------------------------------------------------------------- the columns and the parsed steps

  /** The columns speak for the parsed steps. */
  ghost predicate Speaks(ns: seq<Node>, c: Columns) {
    && (forall n :: n in ns && n.kind == "start" ==> c.greeting == Blank(n.greeting))
    && (forall n :: n in ns && n.kind == "global" ==> c.systemPrompt == n.prompt)
    && (!HasKind(ns, "global") ==> c.systemPrompt == "")
  }

  /** An always-on prompt that the column and the runtime read alike: the column prints 0 or [], the step is
      given no prompt. */
  predicate PromptAlike(v: Fields) {
    var data := SubObject(v, "data");
    IsKind(v, "global") && "prompt" in data ==> data["prompt"].Str? || data["prompt"].Null? || Truthy(data["prompt"])
  }

  lemma PromptAlikeIff(v: Fields)
    requires IsKind(v, "global")
    ensures PromptAlike(v) <==> Prompt(v, "prompt") == NodeOf(v).prompt
  {
    hide NodeOf, Repr, Strip;
    var data := SubObject(v, "data");
    NodeTexts(v);
    if "prompt" in data && !data["prompt"].Str? { PrintsTight(data["prompt"]); }
  }

  lemma LineSpeaks(v: Fields)
    ensures LineOf(v).Greeting? <==> NodeOf(v).kind == "start"
    ensures LineOf(v).Instruction? <==> NodeOf(v).kind == "global"
    ensures LineOf(v).Greeting? ==> LineOf(v).text == Blank(NodeOf(v).greeting)
    ensures LineOf(v).Instruction? ==> (PromptAlike(v) <==> LineOf(v).text == NodeOf(v).prompt)
  {
    hide NodeOf;
    NodeTexts(v);
    KindOfStep(v, "start");
    KindOfStep(v, "global");
    if IsKind(v, "global") { PromptAlikeIff(v); }
  }

  /** The columns of a valid graph speak for the steps it parses to, exactly when its always-on prompt, if any, is
      not an empty or zero value other than a string. */
  lemma ColumnsSpeakIff(raw: Json)
    requires Valid(raw)
    ensures Speaks(NodesOf(raw), ColumnsOf(raw)) <==> Everywhere(RawSteps(raw), PromptAlike)
  {
    ColumnsHold(raw);
    NodesAre(raw);
    hide NodeOf, LineOf, PromptAlike, OneEach, Valid, ColumnsOf, RawSteps;
    LinesSpeakIff(RawSteps(raw), ColumnsOf(raw));
  }

  lemma LineSpoken(steps: seq<Fields>, c: Columns, i: nat)
    requires i < |steps| && Hold(c, Map(steps, LineOf))
    ensures
      var n := NodeOf(steps[i]);
      && (n.kind == "start" ==> c.greeting == Blank(n.greeting))
      && (n.kind == "global" ==> (PromptAlike(steps[i]) <==> c.systemPrompt == n.prompt))
      && (n.kind != "global" ==> PromptAlike(steps[i]) && !LineOf(steps[i]).Instruction?)
  {
    hide NodeOf, LineOf, PromptAlike;
    assert Map(steps, LineOf)[i] in Map(steps, LineOf);
    LineSpeaks(steps[i]);
    OthersAlike(steps[i]);
  }

  lemma LinesSpeakIff(steps: seq<Fields>, c: Columns)
    requires Hold(c, Map(steps, LineOf))
    ensures Speaks(Map(steps, NodeOf), c) <==> Everywhere(steps, PromptAlike)
  {
    hide NodeOf, LineOf, PromptAlike;
    var ns, lines := Map(steps, NodeOf), Map(steps, LineOf);
    forall i | 0 <= i < |steps|
      ensures ns[i] in ns
      ensures ns[i].kind == "start" ==> c.greeting == Blank(ns[i].greeting)
      ensures ns[i].kind == "global" ==> (PromptAlike(steps[i]) <==> c.systemPrompt == ns[i].prompt)
      ensures ns[i].kind != "global" ==> PromptAlike(steps[i]) && !lines[i].Instruction?
    {
      LineSpoken(steps, c, i);
    }
    NobodyInstructs(steps, c);
    hide Hold;
    if Everywhere(steps, PromptAlike) {
      forall n | n in ns
        ensures n.kind == "start" ==> c.greeting == Blank(n.greeting)
        ensures n.kind == "global" ==> c.systemPrompt == n.prompt
      {
        var i :| 0 <= i < |ns| && ns[i] == n;
        assert PromptAlike(steps[i]);
      }
    }
  }

  lemma NobodyInstructs(steps: seq<Fields>, c: Columns)
    requires Hold(c, Map(steps, LineOf))
    ensures !HasKind(Map(steps, NodeOf), "global") ==> c.systemPrompt == ""
  {
    hide NodeOf, LineOf, PromptAlike;
    var ns, lines := Map(steps, NodeOf), Map(steps, LineOf);
    if !HasKind(ns, "global") {
      forall l | l in lines ensures !l.Instruction? {
        var i :| 0 <= i < |lines| && lines[i] == l;
        assert ns[i] in ns;
        LineSpoken(steps, c, i);
      }
    }
  }

  lemma OthersAlike(v: Fields)
    ensures NodeOf(v).kind != "global" ==> PromptAlike(v)
  {
    hide NodeOf;
    KindOfStep(v, "global");
  }

  // ---------------------------------------------------------------- equivalent graphs and the columns

  /** What a step puts in a column prints the same whatever equals it. */
  ghost predicate FixedLine(v: Fields) {
    && (IsKind(v, "start") ==> FixedOptional(SubObject(v, "data"), "greeting", Sent))
    && (IsKind(v, "global") ==> FixedOptional(SubObject(v, "data"), "prompt", Sent))
  }

  ghost predicate FixedColumns(raw: Json) { Everywhere(RawSteps(raw), FixedLine) }

  lemma EqualKinds(a: Fields, b: Fields, kind: string)
    requires EqualFields(a, b)
    ensures IsKind(a, kind) == IsKind(b, kind)
  {
    if "type" in a { EqualTruthy(a["type"], b["type"]); }
  }

  lemma EqualLine(a: Fields, b: Fields)
    requires EqualFields(a, b) && FixedLine(a)
    ensures LineOf(a) == LineOf(b) && FixedLine(b)
  {
    EqualKinds(a, b, "start");
    EqualKinds(a, b, "global");
    EqualSubObject(a, b, "data");
    hide Equal, Fixed, SubObject, OptionalText, IsKind, EqualFields;
    SentFields(SubObject(a, "data"));
    SentFields(SubObject(b, "data"));
    if IsKind(a, "start") { EqualOptionalText(SubObject(a, "data"), SubObject(b, "data"), "greeting", Sent); }
    if IsKind(a, "global") { EqualOptionalText(SubObject(a, "data"), SubObject(b, "data"), "prompt", Sent); }
  }

  lemma LineReadsLogicOnly(f: Fields)
    ensures LineOf(Restrict(f, NODE_LOGIC)) == LineOf(f) && FixedLine(Restrict(f, NODE_LOGIC)) == FixedLine(f)
  {
    RestrictKeeps(f, NODE_LOGIC, "data", Sent);
    assert forall kind :: IsKind(Restrict(f, NODE_LOGIC), kind) == IsKind(f, kind);
    hide IsKind, SubObject, Restrict;
  }

  lemma LinesOfViews(raw: Json)
    requires NodeViews(raw).Some?
    ensures Map(RawSteps(raw), LineOf) == Map(NodeViews(raw).value, LineOf)
    ensures Everywhere(NodeViews(raw).value, FixedLine) <==> FixedColumns(raw)
  {
    ViewsAre(raw.fields, "nodes", NODE_LOGIC);
    hide LineOf, FixedLine, Views;
    forall f ensures LineOf(Restrict(f, NODE_LOGIC)) == LineOf(f)
        && FixedLine(Restrict(f, NODE_LOGIC)) == FixedLine(f) {
      LineReadsLogicOnly(f);
    }
    ViewsAgree(RawSteps(raw), NODE_LOGIC, LineOf, FixedLine);
  }

  lemma EqualLineViews(va: seq<Fields>, vb: seq<Fields>)
    requires EqualLists(Sort(va), Sort(vb)) && Everywhere(va, FixedLine)
    ensures multiset(Map(va, LineOf)) == multiset(Map(vb, LineOf)) && Everywhere(vb, FixedLine)
  {
    var sa, sb := Sort(va), Sort(vb);
    SortedEverywhere(va, FixedLine);
    hide FixedLine, LineOf, EqualFields;
    forall i | 0 <= i < |sa| ensures LineOf(sa[i]) == LineOf(sb[i]) && FixedLine(sb[i]) {
      assert FixedLine(sa[i]) && EqualFields(sa[i], sb[i]);
      EqualLine(sa[i], sb[i]);
    }
    EqualViewsParse(va, vb, LineOf, FixedLine);
  }

  /** Equivalent graphs give the same columns when what goes into the columns is fixed. */
  lemma EquivalentColumns(a: Json, b: Json)
    requires Valid(a) && FixedColumns(a) && SameLogic(a, b)
    ensures ColumnsOf(a) == ColumnsOf(b) && FixedColumns(b)
  {
    ColumnsHold(a);
    hide Valid, LineOf, FixedLine, FixedColumns, Hold, ColumnsOf, OneOf;
    LinesOfViews(a);
    LinesOfViews(b);
    EqualLineViews(NodeViews(a).value, NodeViews(b).value);
    var la, lb := Map(RawSteps(a), LineOf), Map(RawSteps(b), LineOf);
    PairwisePermutes(la, lb, OneOf);
    LinesHold(b);
    HoldUnique(ColumnsOf(a), ColumnsOf(b), la, lb);
  }

  lemma LinesHold(raw: Json)
    requires OneEach(Map(RawSteps(raw), LineOf))
    ensures Hold(ColumnsOf(raw), Map(RawSteps(raw), LineOf))
  {
    hide LineOf, Hold, OneEach, LastPrompt;
    LastPromptHolds(RawSteps(raw), Map(RawSteps(raw), LineOf));
  }

  // ---------------------------------------------------------------- validity and the prompts

  lemma AlikeIds(ns: seq<Node>, ms: seq<Node>)
    requires |ns| == |ms| && forall i :: 0 <= i < |ns| ==> Alike(ns[i], ms[i])
    ensures Ids(ns) <= Ids(ms)
  {
    forall n | n in ns ensures n.id in Ids(ms) {
      var i :| 0 <= i < |ns| && ns[i] == n;
      assert ms[i] in ms;
    }
  }

  lemma AlikeRules(n: Node, m: Node, es: seq<Edge>)
    requires Alike(n, m) && StepRules(n, es)
    ensures StepRules(m, es)
  {}

  /** Validity looks at ids, kinds, names and transfer destinations only. */
  lemma AlikeValid(ns: seq<Node>, ms: seq<Node>, es: seq<Edge>)
    requires |ns| == |ms| && forall i :: 0 <= i < |ns| ==> Alike(ns[i], ms[i])
    requires ValidConnections(ns, es)
    ensures ValidConnections(ms, es)
  {
    AlikeIds(ns, ms);
    forall m | m in ms ensures StepRules(m, es) {
      var i :| 0 <= i < |ms| && ms[i] == m;
      assert ns[i] in ns;
      AlikeRules(ns[i], m, es);
    }
  }

  predicate Alike(n: Node, m: Node) {
    n.id == m.id && n.kind == m.kind && n.name == m.name && n.transferDestination == m.transferDestination
  }

  lemma AlikeSteps(ns: seq<Node>, ms: seq<Node>)
    requires |ns| == |ms| && forall i :: 0 <= i < |ns| ==> Alike(ns[i], ms[i])
    requires ValidSteps(ns)
    ensures ValidSteps(ms)
  {
    forall m | m in ms ensures ValidNode(m) {
      var i :| 0 <= i < |ms| && ms[i] == m;
      assert ns[i] in ns;
    }
    forall i, j | 0 <= i < |ms| && 0 <= j < |ms| && i != j ensures NodesAgree(ms[i], ms[j]) {
      assert NodesAgree(ns[i], ns[j]);
    }
    KindFound(ns, ms, "start");
    KindFound(ns, ms, "end");
  }

  lemma KindFound(ns: seq<Node>, ms: seq<Node>, kind: string)
    requires |ns| == |ms| && (forall i :: 0 <= i < |ns| ==> Alike(ns[i], ms[i])) && HasKind(ns, kind)
    ensures HasKind(ms, kind)
  {
    var n :| n in ns && n.kind == kind;
    var i :| 0 <= i < |ns| && ns[i] == n;
    assert ms[i] in ms;
  }


  // ---------------------------------------------------------------- the condition on columns is exact

  ghost function ReprintedUnder(v: Fields, key: string): Fields
    requires key in SubObject(v, "data")
  {
    var data := v["data"];
    v["data" := Obj(data.fields[key := Reprinted(data.fields[key], Sent)], data.order)]
  }

  lemma ReprintedUnderEqual(v: Fields, key: string)
    requires key in SubObject(v, "data")
    ensures EqualFields(v, ReprintedUnder(v, key)) && SortKey(ReprintedUnder(v, key)) == SortKey(v)
  {
    hide Repr, Fixed, Reprinted;
    var data := v["data"].fields;
    ReprintedEqual(data[key], Sent);
    forall k | k in data ensures Equal(data[k], data[key := Reprinted(data[key], Sent)][k]) { EqualReflexive(data[k]); }
    forall k | k in v ensures Equal(v[k], ReprintedUnder(v, key)[k]) { EqualReflexive(v[k]); }
  }

  lemma ReprintedUnderAlike(v: Fields, key: string)
    requires key in SubObject(v, "data") && (key == "greeting" || key == "prompt")
    ensures Alike(NodeOf(v), NodeOf(ReprintedUnder(v, key)))
    ensures forall kind :: IsKind(ReprintedUnder(v, key), kind) == IsKind(v, kind)
  {
    hide Shown, Truthy, Strip, Reprinted, ExtractionOf, DelayedStart, ListedOf;
    var w := ReprintedUnder(v, key);
    var data := SubObject(v, "data");
    assert SubObject(w, "data") == data[key := Reprinted(data[key], Sent)];
    assert TextOr(w, "id") == TextOr(v, "id") && TextOr(w, "type") == TextOr(v, "type");
    assert TextOr(SubObject(w, "data"), "name") == TextOr(data, "name");
    assert OptionalText(SubObject(w, "data"), "transfer_destination") == OptionalText(data, "transfer_destination");
  }

  lemma ReprintedUnderShows(v: Fields, key: string)
    requires key in SubObject(v, "data") && !Fixed(SubObject(v, "data")[key], Sent)
    ensures Prompt(ReprintedUnder(v, key), key) != Prompt(v, key)
  {
    hide Shown, Fixed, Reprinted, Strip, Truthy;
    SkipExact.ReprintedText(SubObject(v, "data")[key], Sent);
  }

  /** A step whose line is not fixed, said another way. */
  lemma UnfixedLine(v: Fields) returns (w: Fields)
    requires !FixedLine(v)
    ensures EqualFields(v, w) && SortKey(w) == SortKey(v) && Alike(NodeOf(v), NodeOf(w))
    ensures !LineOf(v).Silent? && LineOf(w) != LineOf(v) && LineOf(w).Greeting? == LineOf(v).Greeting?
      && !LineOf(w).Silent?
  {
    var key := if IsKind(v, "start") && !FixedOptional(SubObject(v, "data"), "greeting", Sent) then "greeting"
      else "prompt";
    w := ReprintedUnder(v, key);
    hide NodeOf, Fixed, Reprinted, Equal, SubObject, Prompt;
    ReprintedUnderEqual(v, key);
    ReprintedUnderAlike(v, key);
    ReprintedUnderShows(v, key);
    assert IsKind(w, "start") == IsKind(v, "start") && IsKind(w, "global") == IsKind(v, "global");
  }

  /** Sorted, the steps of a valid graph satisfy the same rules. */
  lemma SortedValid(ns: seq<Node>, ms: seq<Node>, es: seq<Edge>, fs: seq<Edge>, ks: seq<Node>)
    requires multiset(ns) == multiset(ms) && multiset(Map(es, Route)) == multiset(Map(fs, Route))
    requires ValidSteps(ns) && ValidConnections(ns, es)
    requires |ks| == |ms| && forall i :: 0 <= i < |ms| ==> Alike(ms[i], ks[i])
    ensures ValidSteps(ks) && ValidConnections(ks, fs)
  {
    hide ValidSteps, ValidConnections, Alike, Route;
    StepsPermute(ns, ms);
    ConnectionsPermute(ns, ms, es, fs);
    AlikeSteps(ms, ks);
    AlikeValid(ms, ks, fs);
  }

  lemma ViewedNodes(a: Json, s: seq<Fields>)
    requires ValidShape(a) && NodeViews(a).Some? && s == Sort(NodeViews(a).value)
    ensures multiset(NodesOf(a)) == multiset(Map(s, NodeOf)) && |s| == |NodeViews(a).value|
  {
    hide NodeOf, Sort, ValidShape, NodesOf, NodeViews;
    SortPermutes(NodeViews(a).value);
    SameMembers(s, NodeViews(a).value);
    StepsOfViews(a, Sent);
    MapPermutes(s, NodeViews(a).value, NodeOf);
  }

  lemma AlikeGraphValid(a: Json, b: Json, s: seq<Fields>, t: seq<Fields>)
    requires Valid(a) && NodeViews(a).Some? && s == Sort(NodeViews(a).value) && NodeViews(b) == Some(t)
    requires EdgeViews(a).Some? && EdgeViews(b) == EdgeViews(a)
    requires |t| == |s| && forall i :: 0 <= i < |s| ==> Alike(NodeOf(s[i]), NodeOf(t[i]))
    ensures Valid(b)
  {
    hide NodeOf, RouteOf, Route, ValidSteps, ValidConnections, Alike, NodeViews, EdgeViews, Sort, ValidShape, NodesOf,
         EdgesOf;
    ViewedNodes(a, s);
    ShapeViews(a);
    assert t != [];
    ShapeViews(b);
    StepsOfViews(b, Sent);
    RoutesOfViews(a, Sent);
    RoutesOfViews(b, Sent);
    SortedValid(NodesOf(a), Map(s, NodeOf), EdgesOf(a), EdgesOf(b), Map(t, NodeOf));
  }

  lemma OtherLineShows(c: Columns, d: Columns, ls: seq<Line>, ms: seq<Line>, x: Line, y: Line)
    requires Hold(c, ls) && Hold(d, ms) && x in ls && y in ms
    requires !x.Silent? && !y.Silent? && x != y && x.Greeting? == y.Greeting?
    ensures c != d
  {}

  /** A valid graph whose columns are not fixed has an equivalent valid graph with other columns. */
  lemma UnfixedColumnsDiffer(a: Json) returns (b: Json)
    requires Valid(a) && !FixedColumns(a)
    ensures SameLogic(a, b) && Valid(b) && ColumnsOf(b) != ColumnsOf(a)
  {
    hide NodeOf, LineOf, FixedLine, Ordered, SortKey, EqualFields, SameLogic, Hold, ColumnsOf, ValidSteps,
         ValidConnections, Alike, Sort, NodeViews, EdgeViews;
    ShapeViews(a);
    LinesOfViews(a);
    var s := Sort(NodeViews(a).value);
    var p := SkipExact.NotEverywhere(NodeViews(a).value, FixedLine);
    var v := UnfixedLine(s[p]);
    SortOrdered(NodeViews(a).value);
    SkipExact.SameKeysOrdered(s, p, v);
    SentFrom(a);
    SentFields(v);
    b := SkipExact.StepSwapped(a, s, p, v, Sent);
    var t := s[p := v];
    forall i | 0 <= i < |s| ensures Alike(NodeOf(s[i]), NodeOf(t[i])) { AlikeSelf(NodeOf(s[i])); }
    AlikeGraphValid(a, b, s, t);
    ColumnsHold(a);
    ColumnsHold(b);
    LinesOfViews(b);
    hide Valid, RawSteps;
    SortedLine(NodeViews(a).value, p);
    assert Map(t, LineOf)[p] == LineOf(v);
    OtherLineShows(ColumnsOf(a), ColumnsOf(b), Map(RawSteps(a), LineOf), Map(RawSteps(b), LineOf), LineOf(s[p]),
      LineOf(v));
  }

  lemma AlikeSelf(n: Node)
    ensures Alike(n, n)
  {}

  lemma SortedLine(views: seq<Fields>, p: nat)
    requires p < |Sort(views)|
    ensures LineOf(Sort(views)[p]) in Map(views, LineOf)
  {
    hide LineOf, Sort;
    SortPermutes(views);
    SameMembers(Sort(views), views);
    var v := Sort(views)[p];
    assert v in views;
    var i :| 0 <= i < |views| && views[i] == v;
    assert Map(views, LineOf)[i] == LineOf(v);
  }

  /** Publishing an equivalent graph may leave the columns alone, whatever that graph is, exactly when what the live
      graph puts in them is fixed. */
  lemma ColumnsKeptIff(a: Json)
    requires Valid(a)
    ensures FixedColumns(a) <==> forall b :: SameLogic(a, b) && Valid(b) ==> ColumnsOf(b) == ColumnsOf(a)
  {
    hide SameLogic, ColumnsOf, FixedColumns;
    if FixedColumns(a) {
      forall b | SameLogic(a, b) && Valid(b) ensures ColumnsOf(b) == ColumnsOf(a) { EquivalentColumns(a, b); }
    } else {
      var b := UnfixedColumnsDiffer(a);
    }
  }
}
