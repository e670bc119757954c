/**
 Steps and connections written as JSON and read back, and how a delay is read whatever it is written as.
 */
module GraphJson {
  import opened Text
  import opened Json
  import opened WorkflowGraph
  import opened Validation
  import opened Permutations
  import opened Equivalence

  // ---------------------------------------------------------------- entries of a dictionary

  /** The entry is this text. */
  predicate Holds(f: Fields, key: string, s: string) { key in f && f[key] == Str(s) }

  /** The entry is this text with blanks around it. */
  ghost predicate HoldsPadded(f: Fields, key: string, s: string) {
    exists lead, trail :: IsBlank(lead) && IsBlank(trail) && Holds(f, key, lead + s + trail)
  }

  /** There is no entry, or it is null. */
  predicate Lacks(f: Fields, key: string) { key in f ==> f[key] == Null }

  ghost predicate HoldsOption(f: Fields, key: string, s: Option<string>) {
    if s.None? then Lacks(f, key) else Holds(f, key, s.value)
  }

  ghost predicate HoldsPaddedOption(f: Fields, key: string, s: Option<string>) {
    if s.None? then Lacks(f, key) || HoldsPadded(f, key, "") else HoldsPadded(f, key, s.value)
  }

  predicate HoldsTexts(f: Fields, key: string, texts: seq<string>) {
    if key in f && f[key].List? then f[key].items == Map(texts, (s: string) => Str(s)) else texts == []
  }

  predicate HoldsWhole(f: Fields, key: string, n: int) { key in f && f[key] == Int(n) }

  // ---------------------------------------------------------------- what is written for a step

  /** Nothing around it that reading takes away. */
  ghost predicate Tidy(s: string) { Strip(s) == s }

  ghost predicate TidyOption(s: Option<string>) { s.Some? ==> s.value != "" && Tidy(s.value) }

  ghost predicate TidyVariable(v: ExtractionVariable) { v.name != "" && Tidy(v.name) && v.kind != "" }

  ghost predicate TidyStep(n: Node) {
    && Tidy(n.name) && TidyOption(n.transferDestination) && TidyOption(n.disposition)
    && 0 <= n.delayedStartMs <= MAX_DELAYED_START_MS && n.outEdges == []
    && (n.extraction.Some? ==>
      forall i :: 0 <= i < |n.extraction.value.variables| ==> TidyVariable(n.extraction.value.variables[i]))
  }

  ghost predicate TidyMove(e: Edge) { Tidy(e.labelText) && Tidy(e.condition) && TidyOption(e.speech) }

  /** A variable as an entry of the list: the type may be left out when it is the usual one. */
  ghost predicate VariableWritten(j: Json, v: ExtractionVariable) {
    && j.Obj? && HoldsPadded(j.fields, "name", v.name) && Holds(j.fields, "prompt", v.prompt)
    && (Holds(j.fields, "type", v.kind) || (Lacks(j.fields, "type") && v.kind == "string"))
  }

  ghost predicate VariablesWritten(items: seq<Json>, vs: seq<ExtractionVariable>) {
    |items| == |vs| && forall i :: 0 <= i < |items| ==> VariableWritten(items[i], vs[i])
  }

  ghost predicate ExtractionWritten(data: Fields, x: Option<Extraction>) {
    if x.None? then Lacks(data, "extraction")
    else
      && "extraction" in data && data["extraction"].Obj?
      && var raw := data["extraction"].fields;
        && "enabled" in raw && raw["enabled"] == Bool(x.value.enabled) && Holds(raw, "prompt", x.value.prompt)
        && "variables" in raw && raw["variables"].List? && VariablesWritten(raw["variables"].items, x.value.variables)
  }

  ghost predicate DataWritten(data: Fields, n: Node) {
    && HoldsPadded(data, "name", n.name) && Holds(data, "prompt", n.prompt)
    && HoldsOption(data, "greeting", n.greeting) && HoldsWhole(data, "delayed_start_ms", n.delayedStartMs)
    && HoldsTexts(data, "tools", n.tools) && HoldsTexts(data, "knowledge_base_ids", n.knowledgeBaseIds)
    && ExtractionWritten(data, n.extraction)
    && HoldsPaddedOption(data, "transfer_destination", n.transferDestination)
    && HoldsPaddedOption(data, "disposition", n.disposition)
  }

  /** The dictionary says this step, whatever else it holds. */
  ghost predicate StepWritten(raw: Fields, n: Node) {
    && Holds(raw, "id", n.id) && Holds(raw, "type", n.kind)
    && "data" in raw && raw["data"].Obj? && DataWritten(raw["data"].fields, n)
  }

  ghost predicate MoveWritten(raw: Fields, e: Edge) {
    && Holds(raw, "id", e.id) && Holds(raw, "source", e.source) && Holds(raw, "target", e.target)
    && "data" in raw && raw["data"].Obj?
    && var data := raw["data"].fields;
      && HoldsPadded(data, "label", e.labelText) && HoldsPadded(data, "condition", e.condition)
      && HoldsPaddedOption(data, "transition_speech", e.speech)
  }

  // ---------------------------------------------------------------- reading them back

  lemma ReadText(f: Fields, key: string, s: string)
    requires Holds(f, key, s)
    ensures TextOr(f, key) == s && OptionalText(f, key) == Some(s)
  {}

  lemma ReadPadded(f: Fields, key: string, s: string)
    requires HoldsPadded(f, key, s) && Tidy(s)
    ensures Strip(TextOr(f, key)) == s
    ensures StrippedText(f, key) == if s == "" then None else Some(s)
  {
    var lead, trail :| IsBlank(lead) && IsBlank(trail) && Holds(f, key, lead + s + trail);
    ReadText(f, key, lead + s + trail);
    StripPadded(lead, s, trail);
  }

  lemma StripPadded(lead: string, s: string, trail: string)
    requires IsBlank(lead) && IsBlank(trail) && Tidy(s)
    ensures Strip(lead + s + trail) == s
  {
    TidyEnds(s);
    StripExact(lead, s, trail);
  }

  lemma TidyEnds(s: string)
    requires Tidy(s)
    ensures s != "" ==> !IsSpace(s[0]) && !IsSpace(s[|s| - 1])
  {}

  lemma ReadPaddedOption(f: Fields, key: string, s: Option<string>)
    requires HoldsPaddedOption(f, key, s) && TidyOption(s)
    ensures StrippedText(f, key) == s
  {
    if s.Some? {
      ReadPadded(f, key, s.value);
    } else if !Lacks(f, key) {
      assert Tidy("");
      ReadPadded(f, key, "");
    }
  }

  lemma ReadTexts(f: Fields, key: string, texts: seq<string>)
    requires HoldsTexts(f, key, texts)
    ensures TextList(SubList(f, key)) == texts
  {
    assert |TextList(SubList(f, key))| == |texts|;
    assert forall i :: 0 <= i < |texts| ==> TextList(SubList(f, key))[i] == texts[i];
  }

  lemma ReadVariable(j: Json, v: ExtractionVariable)
    requires VariableWritten(j, v) && TidyVariable(v)
    ensures VariableIn(j) == [v]
  {
    hide Strip, Tidy;
    assert Tidy(v.name);
    ReadPadded(j.fields, "name", v.name);
    ReadText(j.fields, "prompt", v.prompt);
    if Holds(j.fields, "type", v.kind) { ReadText(j.fields, "type", v.kind); }
  }

  lemma {:induction false} ReadVariables(items: seq<Json>, vs: seq<ExtractionVariable>)
    requires VariablesWritten(items, vs) && forall i :: 0 <= i < |vs| ==> TidyVariable(vs[i])
    ensures Variables(items) == vs
  {
    hide VariableWritten, TidyVariable, VariableIn;
    if items != [] {
      ReadVariable(items[0], vs[0]);
      ReadVariables(items[1..], vs[1..]);
      assert vs == [vs[0]] + vs[1..];
    }
  }

  lemma ReadExtraction(data: Fields, n: Node)
    requires ExtractionWritten(data, n.extraction) && TidyStep(n)
    ensures ExtractionOf(data) == n.extraction
  {
    hide VariablesWritten, TidyVariable, Variables;
    if n.extraction.Some? {
      var raw, x := data["extraction"].fields, n.extraction.value;
      ReadText(raw, "prompt", x.prompt);
      ReadVariables(raw["variables"].items, x.variables);
    }
  }

  lemma ReadDelay(data: Fields, n: int)
    requires HoldsWhole(data, "delayed_start_ms", n) && 0 <= n <= MAX_DELAYED_START_MS
    ensures DelayedStart(data) == n
  {}

  lemma ReadGreeting(data: Fields, s: Option<string>)
    requires HoldsOption(data, "greeting", s)
    ensures OptionalText(data, "greeting") == s
  {}

  lemma ReadData(data: Fields, n: Node)
    requires DataWritten(data, n) && TidyStep(n)
    ensures
      StepDataOf(data) == StepData(Spoken(n.name, n.prompt, n.greeting), n.delayedStartMs,
        Listed(n.tools, n.knowledgeBaseIds), n.extraction, Ending(n.transferDestination, n.disposition))
  {
    hide Holds, HoldsPadded, HoldsOption, HoldsPaddedOption, HoldsTexts, HoldsWhole, ExtractionWritten, Tidy,
      TidyOption, ExtractionOf, TextList, SubList, DelayedStart, StrippedText, OptionalText, TextOr, Strip,
      TidyVariable;
    ReadPadded(data, "name", n.name);
    ReadText(data, "prompt", n.prompt);
    ReadGreeting(data, n.greeting);
    ReadDelay(data, n.delayedStartMs);
    ReadTexts(data, "tools", n.tools);
    ReadTexts(data, "knowledge_base_ids", n.knowledgeBaseIds);
    ReadExtraction(data, n);
    ReadPaddedOption(data, "transfer_destination", n.transferDestination);
    ReadPaddedOption(data, "disposition", n.disposition);
  }

  /** A step reads back as it was written: blanks around the name, the destination and the disposition are dropped,
      and entries the reader does not know make no difference. */
  lemma StepReadsBack(raw: Fields, n: Node)
    requires StepWritten(raw, n) && TidyStep(n)
    ensures NodeOf(raw) == n
  {
    hide DataWritten, StepDataOf, TidyVariable, Tidy, TidyOption;
    ReadText(raw, "id", n.id);
    ReadText(raw, "type", n.kind);
    ReadData(raw["data"].fields, n);
  }

  lemma ReadSpeech(data: Fields, s: Option<string>)
    requires HoldsPaddedOption(data, "transition_speech", s) && TidyOption(s)
    ensures
      var read := Strip(TextOr(data, "transition_speech"));
      s == if read == "" then None else Some(read)
  {
    if s.Some? {
      ReadPadded(data, "transition_speech", s.value);
    } else if !Lacks(data, "transition_speech") {
      assert Tidy("");
      ReadPadded(data, "transition_speech", "");
    }
  }

  /** A connection reads back as it was written. */
  lemma MoveReadsBack(raw: Fields, e: Edge)
    requires MoveWritten(raw, e) && TidyMove(e)
    ensures EdgeOf(raw) == e
  {
    hide HoldsPadded, HoldsPaddedOption, Tidy, TidyOption, Strip;
    ReadText(raw, "id", e.id);
    ReadText(raw, "source", e.source);
    ReadText(raw, "target", e.target);
    var data := raw["data"].fields;
    ReadPadded(data, "label", e.labelText);
    ReadPadded(data, "condition", e.condition);
    ReadSpeech(data, e.speech);
  }

  // ---------------------------------------------------------------- whole graphs

  /** The graph lists these steps and connections, in this order, whatever else it holds. */
  ghost predicate GraphWritten(raw: Json, ns: seq<Node>, es: seq<Edge>) {
    && raw.Obj? && "nodes" in raw.fields && "edges" in raw.fields
    && raw.fields["nodes"].List? && raw.fields["edges"].List?
    && var nodes, edges := raw.fields["nodes"].items, raw.fields["edges"].items;
      && |nodes| == |ns| && (forall i :: 0 <= i < |ns| ==> nodes[i].Obj? && StepWritten(nodes[i].fields, ns[i]))
      && |edges| == |es| && (forall i :: 0 <= i < |es| ==> edges[i].Obj? && MoveWritten(edges[i].fields, es[i]))
  }

  /** A graph reads back as it was written, so it is valid exactly when what was written follows the rules. */
  lemma GraphReadsBack(raw: Json, ns: seq<Node>, es: seq<Edge>)
    requires GraphWritten(raw, ns, es) && ns != []
    requires forall i :: 0 <= i < |ns| ==> TidyStep(ns[i])
    requires forall i :: 0 <= i < |es| ==> TidyMove(es[i])
    ensures ValidShape(raw) && NodesOf(raw) == ns && EdgesOf(raw) == es
    ensures Valid(raw) <==> ValidSteps(ns) && ValidConnections(ns, es)
  {
    hide StepWritten, MoveWritten, TidyStep, TidyMove, NodeOf, EdgeOf, ValidSteps, ValidConnections;
    var nodes, edges := raw.fields["nodes"].items, raw.fields["edges"].items;
    forall i | 0 <= i < |ns| ensures Steps(raw)[i] == Some(ns[i]) {
      StepReadsBack(nodes[i].fields, ns[i]);
    }
    forall i | 0 <= i < |es| ensures Connections(raw)[i] == Some(es[i]) {
      MoveReadsBack(edges[i].fields, es[i]);
    }
    assert |Steps(raw)| == |ns| && |Connections(raw)| == |es|;
    EachValue(Steps(raw));
    EachValue(Connections(raw));
  }

  // ---------------------------------------------------------------- the delay of a greeting

  function Clamped(n: int): int { if n < 0 then 0 else if n > MAX_DELAYED_START_MS then MAX_DELAYED_START_MS else n }

  lemma {:induction false} DigitsOf(n: nat)
    ensures Digits(NatText(n)) == Some(n)
  {
    var text := NatText(n);
    if n >= 10 {
      DigitsOf(n / 10);
      assert text[..|text| - 1] == NatText(n / 10) && text[|text| - 1] == Digit(n % 10);
    } else {
      assert text == [Digit(n)];
    }
  }

  /** A whole number in decimal, with blanks around it if any, parses as that number. */
  lemma NumberReadsBack(lead: string, n: int, trail: string)
    requires IsBlank(lead) && IsBlank(trail)
    ensures ParseInt(lead + IntText(n) + trail) == Some(n) && lead + IntText(n) + trail != ""
  {
    hide NatText, Digits, Strip;
    if n < 0 {
      assert IntText(n)[1..] == NatText(-n);
      DigitsOf(-n);
    } else {
      assert IsDigit(NatText(n)[0]);
      DigitsOf(n);
    }
    StripExact(lead, IntText(n), trail);
  }

  /** `t` is `v` with what is behind the point dropped. */
  predicate PointDropped(v: real, t: int) {
    if v >= 0.0 then t as real <= v < t as real + 1.0 else t as real - 1.0 < v <= t as real
  }

  /** How a delay is read: a whole number or its decimal text is kept within its limits, a fraction is dropped first,
      true counts as one, and anything without a number in it is no delay. */
  lemma DelayIs(data: Fields)
    ensures 0 <= DelayedStart(data) <= MAX_DELAYED_START_MS
    ensures "delayed_start_ms" !in data ==> DelayedStart(data) == 0
    ensures "delayed_start_ms" in data ==>
      match data["delayed_start_ms"]
      case Int(n) => DelayedStart(data) == Clamped(n)
      case Float(m, e) => exists t :: PointDropped(FloatValue(m, e), t) && DelayedStart(data) == Clamped(t)
      case Bool(b) => DelayedStart(data) == if b then 1 else 0
      case Str(s) =>
        forall lead, n, trail :: IsBlank(lead) && IsBlank(trail) && s == lead + IntText(n) + trail ==>
          DelayedStart(data) == Clamped(n)
      case Null | List(_) | Obj(_, _) => DelayedStart(data) == 0
  {
    hide ParseInt, FloatValue, IntText;
    if "delayed_start_ms" in data {
      match data["delayed_start_ms"] {
        case Float(m, e) => assert PointDropped(FloatValue(m, e), Truncate(FloatValue(m, e)));
        case Str(s) =>
          forall lead, n, trail | IsBlank(lead) && IsBlank(trail) && s == lead + IntText(n) + trail
            ensures DelayedStart(data) == Clamped(n)
          {
            NumberReadsBack(lead, n, trail);
          }
        case _ =>
      }
    }
  }
}
