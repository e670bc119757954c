/**
 Why the condition on a graph is exact: a valid graph in which equality does not decide a text has an equivalent
 graph that is invalid or describes something different.
 */
module SkipExact {
  import opened Text
  import opened Ordering
  import opened Json
  import opened Reprints
  import opened WorkflowGraph
  import opened Validation
  import opened Permutations
  import opened SortedViews
  import opened Equivalence

  // ---------------------------------------------------------------- a reprinted field shows

  ghost function ReprintedFields(f: Fields, o: Origin): Fields { map k | k in f :: Reprinted(f[k], o) }

  lemma ReprintedFieldsEqual(f: Fields, o: Origin)
    ensures EqualFields(f, ReprintedFields(f, o))
  {
    forall k | k in f ensures Equal(f[k], Reprinted(f[k], o)) { ReprintedEqual(f[k], o); }
  }

  /** What reprinting does to one value read as text. */
  lemma ReprintedText(j: Json, o: Origin)
    ensures Truthy(Reprinted(j, o)) == Truthy(j) && Reprinted(j, o).Null? == j.Null?
    ensures Fixed(j, o) ==> Reprinted(j, o) == j
    ensures !Fixed(j, o) ==>
      !j.Null? && Shown(Reprinted(j, o)) != Shown(j) && Strip(Shown(Reprinted(j, o))) != Strip(Shown(j))
    ensures !Fixed(j, o) ==> Strip(Shown(Reprinted(j, o))) != "" && Strip(Shown(j)) != ""
  {
    ReprintedEqual(j, o);
    ReprintedDiffers(j, o);
    EqualTruthy(j, Reprinted(j, o));
    if !Fixed(j, o) {
      hide Repr, Reprinted, Strip;
      PrintsTight(j);
      PrintsTight(Reprinted(j, o));
    }
  }

  /** Both as it is and stripped, a text field reprinted shows unless it was fixed. */
  lemma ReprintedTextOr(f: Fields, g: Fields, k: string, o: Origin)
    requires k in f <==> k in g
    requires k in f ==> g[k] == Reprinted(f[k], o)
    ensures TextOr(g, k) == TextOr(f, k) ==> FixedOr(f, k, o)
    ensures Strip(TextOr(g, k)) == Strip(TextOr(f, k)) ==> FixedOr(f, k, o)
    ensures Strip(TextOr(g, k)) == "" <==> Strip(TextOr(f, k)) == ""
    ensures TextOr(g, k) == "" <==> TextOr(f, k) == ""
  {
    hide Shown, Fixed, Reprinted, Strip, Truthy;
    BlankStrips();
    if k in f { ReprintedText(f[k], o); }
  }

  lemma BlankStrips()
    ensures Strip("") == ""
  {}

  lemma ReprintedOptional(f: Fields, g: Fields, k: string, o: Origin)
    requires k in f <==> k in g
    requires k in f ==> g[k] == Reprinted(f[k], o)
    ensures OptionalText(g, k) == OptionalText(f, k) ==> FixedOptional(f, k, o)
    ensures StrippedText(g, k) == StrippedText(f, k) ==> FixedOptional(f, k, o)
  {
    hide Shown, Fixed, Reprinted, Strip, Truthy;
    if k in f { ReprintedText(f[k], o); }
  }

  lemma ReprintedTexts(f: Fields, g: Fields, k: string, o: Origin)
    requires k in f <==> k in g
    requires k in f ==> g[k] == Reprinted(f[k], o)
    ensures TextList(SubList(g, k)) == TextList(SubList(f, k)) ==> FixedTexts(SubList(f, k), o)
  {
    if k in f && f[k].List? && !Fixed(f[k], o) {
      var items := f[k].items;
      var i := Unfixed(items, o);
      ReprintedDiffers(items[i], o);
      hide Fixed, Repr;
      assert g[k] == List(items[i := Reprinted(items[i], o)]);
      assert TextList(SubList(g, k))[i] == Shown(Reprinted(items[i], o)) && TextList(items)[i] == Shown(items[i]);
    }
  }

  // ---------------------------------------------------------------- steps

  ghost function ReprintedVariable(x: Json, o: Origin): Json { if x.Obj? then Obj(ReprintedFields(x.fields, o), x.order)
      else x }

  ghost function ReprintedVariables(j: Json, o: Origin): Json { if j.List?
      then List(Map(j.items, (x: Json) => ReprintedVariable(x, o))) else Reprinted(j, o) }

  ghost function ReprintedExtraction(raw: Fields, o: Origin): Fields {
    map k | k in raw :: if k == "variables" then ReprintedVariables(raw[k], o) else Reprinted(raw[k], o)
  }

  ghost function ReprintedData(data: Fields, o: Origin): Fields {
    map k | k in data ::
      if k == "extraction" && data[k].Obj? then Obj(ReprintedExtraction(data[k].fields, o), data[k].order)
          else Reprinted(data[k], o)
  }

  /** A step with every text field reprinted except its id, which the views are sorted by. */
  ghost function ReprintedStep(v: Fields, o: Origin): Fields {
    map k | k in v ::
      if k == "id" then v[k] else if k == "data" && v[k].Obj? then Obj(ReprintedData(v[k].fields, o), v[k].order)
          else Reprinted(v[k], o)
  }

  lemma ReprintedFieldsFrom(f: Fields, o: Origin)
    requires FieldsFrom(f, o)
    ensures FieldsFrom(ReprintedFields(f, o), o)
  {
    hide From, Reprinted;
    forall k | k in f ensures From(Reprinted(f[k], o), o) { ReprintedFrom(f[k], o); }
  }

  lemma SameKeysFrom(j: Json, fields: Fields, o: Origin)
    requires j.Obj? && From(j, o) && fields.Keys == j.fields.Keys && FieldsFrom(fields, o)
    ensures From(Obj(fields, j.order), o)
  {}

  lemma PartsFrom(j: Json, o: Origin)
    requires From(j, o)
    ensures j.Obj? ==> FieldsFrom(j.fields, o)
    ensures j.List? ==> forall i :: 0 <= i < |j.items| ==> From(j.items[i], o)
  {}

  lemma ReprintedVariablesFrom(j: Json, o: Origin)
    requires From(j, o)
    ensures From(ReprintedVariables(j, o), o)
  {
    if j.List? {
      forall i | 0 <= i < |j.items| ensures From(ReprintedVariable(j.items[i], o), o) {
        var x := j.items[i];
        assert From(x, o);
        if x.Obj? {
          ReprintedFieldsFrom(x.fields, o);
          SameKeysFrom(x, ReprintedFields(x.fields, o), o);
        }
      }
    } else {
      ReprintedFrom(j, o);
    }
  }

  lemma ReprintedExtractionFrom(raw: Fields, o: Origin)
    requires FieldsFrom(raw, o)
    ensures FieldsFrom(ReprintedExtraction(raw, o), o)
  {
    hide From, Reprinted, ReprintedVariables;
    forall k | k in raw ensures From(ReprintedExtraction(raw, o)[k], o) {
      if k == "variables" { ReprintedVariablesFrom(raw[k], o); } else { ReprintedFrom(raw[k], o); }
    }
  }

  lemma ReprintedDataFrom(data: Fields, o: Origin)
    requires FieldsFrom(data, o)
    ensures FieldsFrom(ReprintedData(data, o), o)
  {
    hide From, Reprinted, ReprintedExtraction;
    forall k | k in data ensures From(ReprintedData(data, o)[k], o) {
      if k == "extraction" && data[k].Obj? {
        PartsFrom(data[k], o);
        ReprintedExtractionFrom(data[k].fields, o);
        ExtractionKeys(data[k].fields, o);
        SameKeysFrom(data[k], ReprintedExtraction(data[k].fields, o), o);
      } else {
        ReprintedFrom(data[k], o);
      }
    }
  }

  lemma ExtractionKeys(raw: Fields, o: Origin)
    ensures ReprintedExtraction(raw, o).Keys == raw.Keys
  {}

  lemma ReprintedStepFrom(v: Fields, o: Origin)
    requires FieldsFrom(v, o)
    ensures FieldsFrom(ReprintedStep(v, o), o)
  {
    hide From, Reprinted, ReprintedData;
    forall k | k in v ensures From(ReprintedStep(v, o)[k], o) {
      if k == "data" && v[k].Obj? {
        PartsFrom(v[k], o);
        ReprintedDataFrom(v[k].fields, o);
        DataKeys(v[k].fields, o);
        SameKeysFrom(v[k], ReprintedData(v[k].fields, o), o);
      } else if k != "id" {
        ReprintedFrom(v[k], o);
      }
    }
  }

  lemma DataKeys(data: Fields, o: Origin)
    ensures ReprintedData(data, o).Keys == data.Keys
  {}

  lemma VariableEqual(x: Json, o: Origin)
    ensures Equal(x, ReprintedVariable(x, o))
  {
    if x.Obj? { ReprintedFieldsEqual(x.fields, o); } else { EqualReflexive(x); }
  }

  lemma ExtractionEqual(raw: Fields, o: Origin)
    ensures EqualFields(raw, ReprintedExtraction(raw, o))
  {
    forall k | k in raw ensures Equal(raw[k], ReprintedExtraction(raw, o)[k]) {
      if k == "variables" && raw[k].List? {
        var items := raw[k].items;
        forall i | 0 <= i < |items| ensures Equal(items[i],
            ReprintedVariable(items[i], o)) { VariableEqual(items[i], o); }
      } else {
        ReprintedEqual(raw[k], o);
      }
    }
  }

  lemma DataEqual(data: Fields, o: Origin)
    ensures EqualFields(data, ReprintedData(data, o))
  {
    forall k | k in data ensures Equal(data[k], ReprintedData(data, o)[k]) {
      if k == "extraction" && data[k].Obj? { ExtractionEqual(data[k].fields, o); } else { ReprintedEqual(data[k], o); }
    }
  }

  lemma StepEqual(v: Fields, o: Origin)
    ensures EqualFields(v, ReprintedStep(v, o)) && SortKey(ReprintedStep(v, o)) == SortKey(v)
  {
    forall k | k in v ensures Equal(v[k], ReprintedStep(v, o)[k]) {
      if k == "id" { EqualReflexive(v[k]); }
      else if k == "data" && v[k].Obj? { DataEqual(v[k].fields, o); }
      else { ReprintedEqual(v[k], o); }
    }
  }

  lemma VariableShows(x: Json, o: Origin)
    ensures |VariableIn(ReprintedVariable(x, o))| == |VariableIn(x)|
    ensures VariableIn(ReprintedVariable(x, o)) == VariableIn(x) ==> FixedVariable(x, o)
  {
    if x.Obj? {
      var f, g := x.fields, ReprintedFields(x.fields, o);
      hide TextOr, FixedOr, Strip, VariableOf;
      ReprintedTextOr(f, g, "name", o);
      VariableOfShows(f, o);
    }
  }

  lemma VariableOfShows(f: Fields, o: Origin)
    ensures VariableOf(ReprintedFields(f, o)) == VariableOf(f) ==>
      FixedOr(f, "name", o) && FixedOr(f, "type", o) && FixedOr(f, "prompt", o)
  {
    hide TextOr, FixedOr, Strip;
    var g := ReprintedFields(f, o);
    ReprintedTextOr(f, g, "name", o);
    ReprintedTextOr(f, g, "type", o);
    ReprintedTextOr(f, g, "prompt", o);
    KindShows(TextOr(f, "type"), TextOr(g, "type"));
  }

  /** The default kind is not told from the same kind written out, but an absent text stays absent. */
  lemma KindShows(s: string, t: string)
    requires t == "" <==> s == ""
    ensures (if t == "" then "string" else t) == (if s == "" then "string" else s) ==> t == s
  {}

  lemma VariablesCons(items: seq<Json>)
    requires items != []
    ensures Variables(items) == VariableIn(items[0]) + Variables(items[1..])
  {}

  lemma OneVariableShows(items: seq<Json>, shown: seq<Json>, o: Origin)
    requires items != [] && shown != [] && shown[0] == ReprintedVariable(items[0], o)
    ensures |Variables(shown[1..])| == |Variables(items[1..])| ==> |Variables(shown)| == |Variables(items)|
    ensures Variables(shown) == Variables(items) ==>
      FixedVariable(items[0], o) && Variables(shown[1..]) == Variables(items[1..])
  {
    hide VariableIn, FixedVariable, Variables, ReprintedVariable;
    VariableShows(items[0], o);
    VariablesCons(items);
    VariablesCons(shown);
    if Variables(shown) == Variables(items) {
      SameSplit(VariableIn(shown[0]), Variables(shown[1..]), VariableIn(items[0]), Variables(items[1..]));
    }
  }

  lemma {:induction false} VariablesShow(items: seq<Json>, shown: seq<Json>, o: Origin)
    requires |shown| == |items| && forall i :: 0 <= i < |items| ==> shown[i] == ReprintedVariable(items[i], o)
    ensures |Variables(shown)| == |Variables(items)|
    ensures Variables(shown) == Variables(items) ==> forall i :: 0 <= i < |items| ==> FixedVariable(items[i], o)
  {
    hide FixedVariable, Variables, ReprintedVariable;
    if items == [] {
      assert shown == items;
    } else {
      OneVariableShows(items, shown, o);
      VariablesShow(items[1..], shown[1..], o);
      assert forall i :: 1 <= i < |items| ==> items[i] == items[1..][i - 1];
    }
  }

  lemma SameSplit<T>(h: seq<T>, t: seq<T>, h': seq<T>, t': seq<T>)
    requires |h| == |h'| && h + t == h' + t'
    ensures h == h' && t == t'
  {
    assert h == (h + t)[..|h|] && t == (h + t)[|h|..];
    assert h' == (h' + t')[..|h'|] && t' == (h' + t')[|h'|..];
  }

  lemma ExtractionShows(data: Fields, o: Origin)
    requires ExtractionOf(ReprintedData(data, o)) == ExtractionOf(data)
    ensures FixedExtraction(data, o)
  {
    if "extraction" in data && data["extraction"].Obj? {
      var raw := data["extraction"].fields;
      var out := ReprintedExtraction(raw, o);
      assert ReprintedData(data, o)["extraction"].fields == out;
      hide Variables, TextOr, FixedOr, Reprinted, FixedVariable;
      ReprintedTextOr(raw, out, "prompt", o);
      VariablesReprinted(raw, o);
      VariablesShow(SubList(raw, "variables"), SubList(out, "variables"), o);
    }
  }

  lemma VariablesReprinted(raw: Fields, o: Origin)
    ensures SubList(ReprintedExtraction(raw, o), "variables")
      == Map(SubList(raw, "variables"), (x: Json) => ReprintedVariable(x, o))
  {
    if "variables" in raw {
      ReprintedEqual(raw["variables"], o);
      EqualTruthy(raw["variables"], Reprinted(raw["variables"], o));
    }
  }

  lemma SpokenShows(data: Fields, o: Origin)
    requires SpokenOf(ReprintedData(data, o)) == SpokenOf(data)
    ensures FixedSpoken(data, o)
  {
    hide TextOr, OptionalText, FixedOr, FixedOptional, Strip;
    ReprintedTextOr(data, ReprintedData(data, o), "name", o);
    ReprintedTextOr(data, ReprintedData(data, o), "prompt", o);
    ReprintedOptional(data, ReprintedData(data, o), "greeting", o);
  }

  lemma ListedShows(data: Fields, o: Origin)
    requires ListedOf(ReprintedData(data, o)) == ListedOf(data)
    ensures FixedListed(data, o)
  {
    hide TextList, SubList, FixedTexts;
    ReprintedTexts(data, ReprintedData(data, o), "tools", o);
    ReprintedTexts(data, ReprintedData(data, o), "knowledge_base_ids", o);
  }

  lemma EndingShows(data: Fields, o: Origin)
    requires EndingOf(ReprintedData(data, o)) == EndingOf(data)
    ensures FixedEnding(data, o)
  {
    hide StrippedText, OptionalText, FixedOptional;
    ReprintedOptional(data, ReprintedData(data, o), "transfer_destination", o);
    ReprintedOptional(data, ReprintedData(data, o), "disposition", o);
  }

  lemma DataShows(data: Fields, o: Origin)
    requires StepDataOf(ReprintedData(data, o)) == StepDataOf(data)
    ensures FixedData(data, o)
  {
    SpokenShows(data, o);
    ListedShows(data, o);
    ExtractionShows(data, o);
    EndingShows(data, o);
  }

  lemma SameNodeData(a: Fields, b: Fields)
    requires NodeOf(a) == NodeOf(b)
    ensures StepDataOf(SubObject(a, "data")) == StepDataOf(SubObject(b, "data"))
    ensures TextOr(a, "id") == TextOr(b, "id") && TextOr(a, "type") == TextOr(b, "type")
  {
    PartsOfNode(NodeOf(a), TextOr(a, "id"), TextOr(a, "type"), StepDataOf(SubObject(a, "data")));
    PartsOfNode(NodeOf(b), TextOr(b, "id"), TextOr(b, "type"), StepDataOf(SubObject(b, "data")));
  }

  lemma PartsOfNode(n: Node, id: string, kind: string, d: StepData)
    requires n == Node(id, kind, d.spoken.name, d.spoken.prompt, d.spoken.greeting, d.delayedStartMs,
      d.listed.tools, d.listed.knowledgeBaseIds, d.extraction, d.ending.transferDestination, d.ending.disposition, [])
    ensures id == n.id && kind == n.kind
    ensures d == StepData(Spoken(n.name, n.prompt, n.greeting), n.delayedStartMs, Listed(n.tools, n.knowledgeBaseIds),
                          n.extraction, Ending(n.transferDestination, n.disposition))
  {}

  lemma StepShows(v: Fields, o: Origin)
    requires NodeOf(ReprintedStep(v, o)) == NodeOf(v)
    ensures FixedStep(v, o)
  {
    SameNodeData(ReprintedStep(v, o), v);
    DataReprinted(v, o);
    hide NodeOf, StepDataOf, TextOr, FixedOr, FixedData;
    ReprintedTextOr(v, ReprintedStep(v, o), "type", o);
    DataShows(SubObject(v, "data"), o);
  }

  lemma DataReprinted(v: Fields, o: Origin)
    ensures SubObject(ReprintedStep(v, o), "data") == ReprintedData(SubObject(v, "data"), o)
  {
    if "data" in v {
      ReprintedEqual(v["data"], o);
      EqualTruthy(v["data"], Reprinted(v["data"], o));
    }
  }

  // ---------------------------------------------------------------- connections

  /** A connection with every text field reprinted except its id. */
  ghost function ReprintedConnection(v: Fields, o: Origin): Fields {
    map k | k in v ::
      if k == "id" then v[k] else if k == "data" && v[k].Obj? then Obj(ReprintedFields(v[k].fields, o), v[k].order)
          else Reprinted(v[k], o)
  }

  lemma ReprintedConnectionFrom(v: Fields, o: Origin)
    requires FieldsFrom(v, o)
    ensures FieldsFrom(ReprintedConnection(v, o), o)
  {
    hide From, Reprinted, ReprintedFields;
    forall k | k in v ensures From(ReprintedConnection(v, o)[k], o) {
      if k == "data" && v[k].Obj? {
        PartsFrom(v[k], o);
        ReprintedFieldsFrom(v[k].fields, o);
        FieldKeys(v[k].fields, o);
        SameKeysFrom(v[k], ReprintedFields(v[k].fields, o), o);
      } else if k != "id" {
        ReprintedFrom(v[k], o);
      }
    }
  }

  lemma FieldKeys(f: Fields, o: Origin)
    ensures ReprintedFields(f, o).Keys == f.Keys
  {}

  lemma ConnectionEqual(v: Fields, o: Origin)
    ensures EqualFields(v, ReprintedConnection(v, o)) && SortKey(ReprintedConnection(v, o)) == SortKey(v)
  {
    forall k | k in v ensures Equal(v[k], ReprintedConnection(v, o)[k]) {
      if k == "id" { EqualReflexive(v[k]); }
      else if k == "data" && v[k].Obj? { ReprintedFieldsEqual(v[k].fields, o); }
      else { ReprintedEqual(v[k], o); }
    }
  }

  lemma MoveShows(data: Fields, o: Origin)
    requires MoveOf(ReprintedFields(data, o)) == MoveOf(data)
    ensures FixedMove(data, o)
  {
    hide TextOr, FixedOr, Strip;
    ReprintedTextOr(data, ReprintedFields(data, o), "label", o);
    ReprintedTextOr(data, ReprintedFields(data, o), "condition", o);
    ReprintedTextOr(data, ReprintedFields(data, o), "transition_speech", o);
  }

  lemma SameRouteParts(a: Fields, b: Fields)
    requires RouteOf(a) == RouteOf(b)
    ensures TextOr(a, "source") == TextOr(b, "source") && TextOr(a, "target") == TextOr(b, "target")
    ensures MoveOf(SubObject(a, "data")) == MoveOf(SubObject(b, "data"))
  {
    PartsOfRoute(RouteOf(a), TextOr(a, "source"), TextOr(a, "target"), MoveOf(SubObject(a, "data")));
    PartsOfRoute(RouteOf(b), TextOr(b, "source"), TextOr(b, "target"), MoveOf(SubObject(b, "data")));
  }

  lemma PartsOfRoute(e: Edge, source: string, target: string, m: Move)
    requires e == Edge("", source, target, m.labelText, m.condition, if m.speech == "" then None else Some(m.speech))
    ensures source == e.source && target == e.target
    ensures m == Move(e.labelText, e.condition, match e.speech case None => "" case Some(s) => s)
  {}

  lemma ConnectionShows(v: Fields, o: Origin)
    requires RouteOf(ReprintedConnection(v, o)) == RouteOf(v)
    ensures FixedConnection(v, o)
  {
    hide TextOr, FixedOr, FixedMove, RouteOf, MoveOf, SubObject, Reprinted, ReprintedFields, Fixed;
    SameRouteParts(ReprintedConnection(v, o), v);
    MoveReprinted(v, o);
    ReprintedTextOr(v, ReprintedConnection(v, o), "source", o);
    ReprintedTextOr(v, ReprintedConnection(v, o), "target", o);
    MoveShows(SubObject(v, "data"), o);
  }

  lemma MoveReprinted(v: Fields, o: Origin)
    ensures SubObject(ReprintedConnection(v, o), "data") == ReprintedFields(SubObject(v, "data"), o)
  {
    if "data" in v {
      ReprintedEqual(v["data"], o);
      EqualTruthy(v["data"], Reprinted(v["data"], o));
    }
  }

  // ---------------------------------------------------------------- the equivalent graph that differs

  lemma WrappedViews(graph: Fields, key: string, views: seq<Fields>, keys: set<string>)
    requires forall i :: 0 <= i < |views| ==> views[i].Keys <= keys
    ensures Views(graph[key := Wrapped(views)], key, keys) == Some(views)
  {
    forall i | 0 <= i < |views| ensures Restrict(views[i], keys) == views[i] {}
    assert Views(graph[key := Wrapped(views)], key, keys).Some?;
    assert Views(graph[key := Wrapped(views)], key, keys).value == views;
  }

  lemma OtherViews(graph: Fields, key: string, j: Json, other: string, keys: set<string>)
    requires other != key
    ensures Views(graph[key := j], other, keys) == Views(graph, other, keys)
  {}

  lemma SortedKeys(graph: Fields, key: string, keys: set<string>, i: nat)
    requires Views(graph, key, keys).Some? && i < |Sort(Views(graph, key, keys).value)|
    ensures Sort(Views(graph, key, keys).value)[i].Keys <= keys
  {
    var views := Views(graph, key, keys).value;
    SortPermutes(views);
    SameMembers(Sort(views), views);
    assert Sort(views)[i] in views;
  }

  lemma EqualListsReplace(s: seq<Fields>, p: nat, v: Fields)
    requires p < |s| && EqualFields(s[p], v)
    ensures EqualLists(s, s[p := v])
  {
    EqualListsReflexive(s);
  }

  lemma MapReplaced<U>(s: seq<Fields>, p: nat, v: Fields, f: Fields -> U)
    requires p < |s|
    ensures Map(s[p := v], f) == Map(s, f)[p := f(v)]
  {}

  /** Swapping one sorted view for one that parses differently changes what is described. */
  lemma OneDiffers<U>(views: seq<Fields>, p: nat, v: Fields, parse: Fields -> U)
    requires p < |Sort(views)| && parse(v) != parse(Sort(views)[p])
    ensures multiset(Map(Sort(views)[p := v], parse)) != multiset(Map(views, parse))
  {
    var s := Sort(views);
    MapReplaced(s, p, v, parse);
    Replaced(Map(s, parse), p, parse(v));
    SortPermutes(views);
    MapPermutes(s, views, parse);
  }

  lemma RecordFrom(fields: Fields, key: string, views: seq<Fields>, o: Origin)
    requires FieldsFrom(fields, o) && AllFrom(views, o)
    ensures From(Record(fields[key := Wrapped(views)]), o)
  {
    forall i | 0 <= i < |views| ensures From(Record(views[i]), o) { assert FieldsFrom(views[i], o); }
  }

  lemma StepsSwapped(a: Json, t: seq<Fields>, o: Origin) returns (b: Json)
    requires From(a, o) && AllFrom(t, o)
    requires NodeViews(a).Some? && EdgeViews(a).Some?
    requires Ordered(t) && EqualLists(Sort(NodeViews(a).value), t)
    requires forall i :: 0 <= i < |t| ==> t[i].Keys <= NODE_LOGIC
    ensures SameLogic(a, b) && NodeViews(b) == Some(t) && EdgeViews(b) == EdgeViews(a) && From(b, o)
  {
    SortKeepsOrdered(t);
    b := Record(a.fields["nodes" := Wrapped(t)]);
    RecordFrom(a.fields, "nodes", t, o);
    WrappedViews(a.fields, "nodes", t, NODE_LOGIC);
    OtherViews(a.fields, "nodes", Wrapped(t), "edges", EDGE_LOGIC);
    EqualListsReflexive(Sort(EdgeViews(a).value));
    EqualReflexive(Version(a.fields));
  }

  lemma ConnectionsSwapped(a: Json, t: seq<Fields>, o: Origin) returns (b: Json)
    requires From(a, o) && AllFrom(t, o)
    requires NodeViews(a).Some? && EdgeViews(a).Some?
    requires Ordered(t) && EqualLists(Sort(EdgeViews(a).value), t)
    requires forall i :: 0 <= i < |t| ==> t[i].Keys <= EDGE_LOGIC
    ensures SameLogic(a, b) && EdgeViews(b) == Some(t) && NodeViews(b) == NodeViews(a) && From(b, o)
  {
    SortKeepsOrdered(t);
    b := Record(a.fields["edges" := Wrapped(t)]);
    RecordFrom(a.fields, "edges", t, o);
    WrappedViews(a.fields, "edges", t, EDGE_LOGIC);
    OtherViews(a.fields, "edges", Wrapped(t), "nodes", NODE_LOGIC);
    EqualListsReflexive(Sort(NodeViews(a).value));
    EqualReflexive(Version(a.fields));
  }

  lemma OtherNodes(a: Json, b: Json, p: nat, v: Fields, o: Origin)
    requires ValidShape(a) && ValidShape(b) && NodeViews(a).Some? && p < |Sort(NodeViews(a).value)|
    requires NodeViews(b) == Some(Sort(NodeViews(a).value)[p := v]) && NodeOf(v) != NodeOf(Sort(NodeViews(a).value)[p])
    ensures multiset(NodesOf(a)) != multiset(NodesOf(b))
  {
    hide NodeOf, Sort, ValidShape, NodesOf, NodeViews;
    OneDiffers(NodeViews(a).value, p, v, NodeOf);
    StepsOfViews(a, o);
    StepsOfViews(b, o);
  }

  lemma OtherEdges(a: Json, b: Json, p: nat, v: Fields, o: Origin)
    requires ValidShape(a) && ValidShape(b) && EdgeViews(a).Some? && p < |Sort(EdgeViews(a).value)|
    requires EdgeViews(b) == Some(Sort(EdgeViews(a).value)[p := v])
      && RouteOf(v) != RouteOf(Sort(EdgeViews(a).value)[p])
    ensures multiset(Map(EdgesOf(a), Route)) != multiset(Map(EdgesOf(b), Route))
  {
    hide RouteOf, Sort, ValidShape, EdgesOf, EdgeViews;
    OneDiffers(EdgeViews(a).value, p, v, RouteOf);
    RoutesOfViews(a, o);
    RoutesOfViews(b, o);
  }

  lemma NodeKeys(a: Json)
    requires NodeViews(a).Some?
    ensures forall i :: 0 <= i < |Sort(NodeViews(a).value)| ==> Sort(NodeViews(a).value)[i].Keys <= NODE_LOGIC
  {
    hide Sort;
    forall i | 0 <= i < |Sort(NodeViews(a).value)| ensures Sort(NodeViews(a).value)[i].Keys <= NODE_LOGIC {
      SortedKeys(a.fields, "nodes", NODE_LOGIC, i);
    }
  }

  lemma EdgeKeys(a: Json)
    requires EdgeViews(a).Some?
    ensures forall i :: 0 <= i < |Sort(EdgeViews(a).value)| ==> Sort(EdgeViews(a).value)[i].Keys <= EDGE_LOGIC
  {
    hide Sort;
    forall i | 0 <= i < |Sort(EdgeViews(a).value)| ensures Sort(EdgeViews(a).value)[i].Keys <= EDGE_LOGIC {
      SortedKeys(a.fields, "edges", EDGE_LOGIC, i);
    }
  }

  lemma KeysKept(s: seq<Fields>, p: nat, v: Fields, t: seq<Fields>, keys: set<string>)
    requires p < |s| && EqualFields(s[p], v) && t == s[p := v] && forall i :: 0 <= i < |s| ==> s[i].Keys <= keys
    ensures forall i :: 0 <= i < |t| ==> t[i].Keys <= keys
  {}

  lemma SortedNodesFrom(a: Json, o: Origin)
    requires NodeViews(a).Some? && From(a, o)
    ensures AllFrom(Sort(NodeViews(a).value), o)
  {
    PartsFrom(a, o);
    hide From, FieldsFrom, Sort;
    ViewsFrom(a.fields, "nodes", NODE_LOGIC, o);
    SortedFrom(NodeViews(a).value, o);
  }

  lemma SortedEdgesFrom(a: Json, o: Origin)
    requires EdgeViews(a).Some? && From(a, o)
    ensures AllFrom(Sort(EdgeViews(a).value), o)
  {
    PartsFrom(a, o);
    hide From, FieldsFrom, Sort;
    ViewsFrom(a.fields, "edges", EDGE_LOGIC, o);
    SortedFrom(EdgeViews(a).value, o);
  }

  lemma ReplacedFrom(s: seq<Fields>, p: nat, v: Fields, t: seq<Fields>, o: Origin)
    requires p < |s| && AllFrom(s, o) && FieldsFrom(v, o) && t == s[p := v]
    ensures AllFrom(t, o) && FieldsFrom(s[p], o)
  {}

  lemma StepSwapped(a: Json, s: seq<Fields>, p: nat, v: Fields, o: Origin) returns (b: Json)
    requires NodeViews(a).Some? && EdgeViews(a).Some? && s == Sort(NodeViews(a).value)
    requires p < |s| && EqualFields(s[p], v) && Ordered(s[p := v]) && From(a, o) && FieldsFrom(v, o)
    ensures SameLogic(a, b) && NodeViews(b) == Some(s[p := v]) && EdgeViews(b) == EdgeViews(a) && From(b, o)
  {
    hide SortKey, Ordered, Sort, EqualFields, EqualLists, SameLogic, NodeViews, EdgeViews, From, FieldsFrom, AllFrom;
    NodeKeys(a);
    SortedNodesFrom(a, o);
    ReplacedFrom(s, p, v, s[p := v], o);
    KeysKept(s, p, v, s[p := v], NODE_LOGIC);
    EqualListsReplace(s, p, v);
    b := StepsSwapped(a, s[p := v], o);
  }

  /** One view of a step swapped for an equal one that keeps the order and parses differently. */
  lemma SwappedStepDiffers(a: Json, s: seq<Fields>, p: nat, v: Fields, o: Origin) returns (b: Json)
    requires ValidShape(a) && NodeViews(a).Some? && EdgeViews(a).Some? && s == Sort(NodeViews(a).value)
    requires p < |s| && EqualFields(s[p], v) && Ordered(s[p := v]) && NodeOf(v) != NodeOf(s[p])
    requires From(a, o) && FieldsFrom(v, o)
    ensures From(b, o) && SameLogic(a, b) && (ValidShape(b) ==> !SameParts(a, b))
  {
    hide NodeOf, Ordered, Sort, EqualFields, ValidShape, NodesOf, EdgesOf, SameLogic, NodeViews, EdgeViews, From,
         FieldsFrom;
    b := StepSwapped(a, s, p, v, o);
    if ValidShape(b) { OtherNodes(a, b, p, v, o); }
  }

  lemma SameKeysOrdered(s: seq<Fields>, p: nat, v: Fields)
    requires p < |s| && Ordered(s) && SortKey(v) == SortKey(s[p])
    ensures Ordered(s[p := v])
  {
    hide SortKey;
    assert forall i :: 0 <= i < |s| ==> SortKey(s[p := v][i]) == SortKey(s[i]);
  }

  lemma UnfixedStepDiffers(a: Json, p: nat, o: Origin) returns (b: Json)
    requires Valid(a) && From(a, o) && NodeViews(a).Some? && EdgeViews(a).Some?
    requires p < |Sort(NodeViews(a).value)| && !FixedStep(Sort(NodeViews(a).value)[p], o)
    ensures From(b, o) && SameLogic(a, b) && (ValidShape(b) ==> !SameParts(a, b))
  {
    hide NodeOf, FixedStep, Ordered, SortKey, Sort, EqualFields, From, FieldsFrom, ValidShape, ValidSteps,
         ValidConnections,
         NodesOf, EdgesOf, SameLogic, NodeViews, EdgeViews, ReprintedStep;
    var s := Sort(NodeViews(a).value);
    SortedNodesFrom(a, o);
    assert FieldsFrom(s[p], o);
    var v := ReprintedStep(s[p], o);
    ReprintedStepFrom(s[p], o);
    StepEqual(s[p], o);
    SortOrdered(NodeViews(a).value);
    SameKeysOrdered(s, p, v);
    StepReprintDiffers(s[p], o);
    b := SwappedStepDiffers(a, s, p, v, o);
  }

  lemma StepReprintDiffers(v: Fields, o: Origin)
    requires !FixedStep(v, o)
    ensures NodeOf(ReprintedStep(v, o)) != NodeOf(v)
  {
    hide NodeOf, FixedStep;
    if NodeOf(ReprintedStep(v, o)) == NodeOf(v) { StepShows(v, o); }
  }

  /** An id that is not pinned: the equal value that prints differently makes it another step. */
  lemma UnpinnedStepDiffers(a: Json, p: nat, o: Origin) returns (b: Json)
    requires Valid(a) && From(a, o) && NodeViews(a).Some? && EdgeViews(a).Some?
    requires p < |Sort(NodeViews(a).value)| && !PinnedAt(Sort(NodeViews(a).value), p, o)
    ensures From(b, o) && SameLogic(a, b) && (ValidShape(b) ==> !SameParts(a, b))
  {
    hide NodeOf, PinnedAt, Ordered, SortKey, Sort, EqualFields, From, FieldsFrom, ValidShape, ValidSteps,
         ValidConnections,
         NodesOf, EdgesOf, SameLogic, NodeViews, EdgeViews;
    var s := Sort(NodeViews(a).value);
    SortedNodesFrom(a, o);
    assert FieldsFrom(s[p], o);
    SortOrdered(NodeViews(a).value);
    var v := UnpinnedMoves(s, p, o);
    SortedIdGiven(a, p, o);
    KeyIsId(s[p], v);
    b := SwappedStepDiffers(a, s, p, v, o);
  }

  lemma KeyIsId(u: Fields, v: Fields)
    requires NodeOf(u).id != "" && SortKey(u) != SortKey(v) && EqualFields(u, v)
    ensures NodeOf(u) != NodeOf(v)
  {
    EqualTruthy(u["id"], v["id"]);
    assert NodeOf(u).id == Shown(u["id"]) && NodeOf(v).id == Shown(v["id"]);
  }

  lemma SortedIdGiven(a: Json, p: nat, o: Origin)
    requires Valid(a) && NodeViews(a).Some? && p < |Sort(NodeViews(a).value)|
    ensures NodeOf(Sort(NodeViews(a).value)[p]).id != ""
  {
    assert forall n :: n in NodesOf(a) ==> ValidNode(n);
    hide NodeOf, ValidSteps, ValidConnections, ValidShape, NodesOf, NodeViews;
    StepsOfViews(a, o);
    SortedMember(NodeViews(a).value, p);
  }

  lemma SortedMember(views: seq<Fields>, p: nat)
    requires p < |Sort(views)|
    ensures NodeOf(Sort(views)[p]) in Map(views, NodeOf)
  {
    hide NodeOf, Sort;
    SortPermutes(views);
    SameMembers(Sort(views), views);
    var v := Sort(views)[p];
    assert v in views;
    var i :| 0 <= i < |views| && views[i] == v;
    assert Map(views, NodeOf)[i] == NodeOf(v);
  }

  lemma UnfixedConnectionDiffers(a: Json, p: nat, o: Origin) returns (b: Json)
    requires Valid(a) && From(a, o) && NodeViews(a).Some? && EdgeViews(a).Some?
    requires p < |Sort(EdgeViews(a).value)| && !FixedConnection(Sort(EdgeViews(a).value)[p], o)
    ensures From(b, o) && SameLogic(a, b) && (ValidShape(b) ==> !SameParts(a, b))
  {
    hide RouteOf, FixedConnection, Ordered, SortKey, Sort, EqualFields, EqualLists, From, FieldsFrom, AllFrom,
         ValidShape,
         ValidSteps, ValidConnections, NodesOf, EdgesOf, SameLogic, NodeViews, EdgeViews, ReprintedConnection;
    var s := Sort(EdgeViews(a).value);
    EdgeKeys(a);
    SortedEdgesFrom(a, o);
    OneFrom(s, p, o);
    var v := ReprintedConnection(s[p], o);
    ReprintedConnectionFrom(s[p], o);
    ReplacedFrom(s, p, v, s[p := v], o);
    SortOrdered(EdgeViews(a).value);
    ConnectionEqual(s[p], o);
    SameKeysOrdered(s, p, v);
    EqualListsReplace(s, p, v);
    KeysKept(s, p, v, s[p := v], EDGE_LOGIC);
    b := ConnectionsSwapped(a, s[p := v], o);
    ConnectionReprintDiffers(s[p], o);
    if ValidShape(b) { OtherEdges(a, b, p, v, o); }
  }

  lemma OneFrom(s: seq<Fields>, p: nat, o: Origin)
    requires p < |s| && AllFrom(s, o)
    ensures FieldsFrom(s[p], o)
  {}

  lemma ConnectionReprintDiffers(v: Fields, o: Origin)
    requires !FixedConnection(v, o)
    ensures RouteOf(ReprintedConnection(v, o)) != RouteOf(v)
  {
    hide RouteOf, FixedConnection;
    if RouteOf(ReprintedConnection(v, o)) == RouteOf(v) { ConnectionShows(v, o); }
  }

  lemma NotEverywhere(views: seq<Fields>, fixed: Fields -> bool) returns (p: nat)
    requires !Everywhere(views, fixed)
    ensures p < |Sort(views)| && !fixed(Sort(views)[p])
  {
    var i :| 0 <= i < |views| && !fixed(views[i]);
    SortPermutes(views);
    SameMembers(Sort(views), views);
    assert views[i] in Sort(views);
    p :| 0 <= p < |Sort(views)| && Sort(views)[p] == views[i];
  }

  /** A valid graph that is not fixed has an equivalent one that is invalid or says something else. */
  lemma UnfixedGraphDiffers(a: Json, o: Origin) returns (b: Json)
    requires Valid(a) && From(a, o) && !FixedGraph(a, o)
    ensures From(b, o) && SameLogic(a, b) && !(Valid(b) && SameParts(a, b))
  {
    ShapeViews(a);
    FixedFromViews(a, o);
    hide FixedStep, FixedConnection, PinnedAt, FixedGraph;
    if !Everywhere(NodeViews(a).value, FixedSteps(o)) {
      var p := NotEverywhere(NodeViews(a).value, FixedSteps(o));
      b := UnfixedStepDiffers(a, p, o);
    } else if !Everywhere(EdgeViews(a).value, FixedConnections(o)) {
      var p := NotEverywhere(EdgeViews(a).value, FixedConnections(o));
      b := UnfixedConnectionDiffers(a, p, o);
    } else {
      var p :| 0 <= p < |Sort(NodeViews(a).value)| && !PinnedAt(Sort(NodeViews(a).value), p, o);
      b := UnpinnedStepDiffers(a, p, o);
    }
  }

  /** Skipping re-validation for every equivalent graph is sound exactly when equality decides what the validated
      graph says. */
  lemma SkipSoundIffFixed(a: Json, o: Origin)
    requires Valid(a) && From(a, o)
    ensures FixedGraph(a, o) <==> forall b :: From(b, o) && SameLogic(a, b) ==> Valid(b) && SameParts(a, b)
  {
    hide FixedGraph, SameLogic;
    if FixedGraph(a, o) {
      forall b | From(b, o) && SameLogic(a, b) ensures Valid(b) && SameParts(a, b) { SkipIsSound(a, b, o); }
    } else {
      var b := UnfixedGraphDiffers(a, o);
    }
  }

  // ---------------------------------------------------------------- a concrete pair

  function StepEntry(id: Json, kind: string, name: string): Fields {
    map["id" := id, "type" := Str(kind), "data" := Record(map["name" := Str(name)])]
  }

  function MoveEntry(source: Json, target: Json, labelText: string, condition: string): Fields {
    map["source" := source, "target" := target, "data" := Record(MoveData(labelText, condition))]
  }

  function MoveData(labelText: string, condition: string): Fields {
    map["label" := Str(labelText), "condition" := Str(condition)]
  }

  lemma MoveDataFields(labelText: string, condition: string)
    requires labelText != "" && condition != ""
    ensures MoveOf(MoveData(labelText, condition)) == Move(Strip(labelText), Strip(condition), [])
  {
    var d := MoveData(labelText, condition);
    assert TextOr(d, "label") == labelText && TextOr(d, "condition") == condition
      && TextOr(d, "transition_speech") == "";
  }

  /** Two steps and the connection between them. */
  function PairGraph(first: Fields, last: Fields, move: Fields): Json {
    GraphOf(map[], [first, last], [move])
  }

  lemma StepEntryFields(id: Json, kind: string, name: string)
    requires Truthy(id) && kind != "" && name != ""
    ensures var n := NodeOf(StepEntry(id, kind, name)); n.id == Shown(id) && n.kind == kind && n.name == Strip(name)
    ensures SortKey(StepEntry(id, kind, name)) == Shown(id)
  {
    var v := StepEntry(id, kind, name);
    var d := map["name" := Str(name)];
    hide ListedOf, EndingOf, ExtractionOf, DelayedStart, Strip, Repr;
    assert SubObject(v, "data") == d;
    assert TextOr(v, "id") == Shown(id) && TextOr(v, "type") == kind && TextOr(d, "name") == name;
    assert SpokenOf(d).name == Strip(name);
  }

  lemma MoveEntryFields(source: Json, target: Json, labelText: string, condition: string)
    requires Truthy(source) && Truthy(target) && labelText != "" && condition != ""
    ensures RouteOf(MoveEntry(source, target, labelText, condition)) ==
      Edge("", Shown(source), Shown(target), Strip(labelText), Strip(condition), None)
  {
    var v := MoveEntry(source, target, labelText, condition);
    assert "source" in v && v["source"] == source;
    assert "target" in v && v["target"] == target;
    assert "data" in v && v["data"] == Record(MoveData(labelText, condition));
    MoveEntryRoute(v, source, target, labelText, condition);
  }

  lemma MoveEntryRoute(v: Fields, source: Json, target: Json, labelText: string, condition: string)
    requires Truthy(source) && Truthy(target) && labelText != "" && condition != ""
    requires "source" in v && v["source"] == source && "target" in v && v["target"] == target
    requires "data" in v && v["data"] == Record(MoveData(labelText, condition))
    ensures RouteOf(v) == Edge("", Shown(source), Shown(target), Strip(labelText), Strip(condition), None)
  {
    MoveDataFields(labelText, condition);
    RouteParts(v, MoveData(labelText, condition));
  }

  lemma RouteParts(v: Fields, data: Fields)
    requires "data" in v && v["data"] == Record(data)
    ensures var m := MoveOf(data);
      RouteOf(v) == Edge("", TextOr(v, "source"), TextOr(v, "target"), m.labelText, m.condition, if m.speech == ""
        then None else Some(m.speech))
  {}

  lemma PairParts(first: Fields, last: Fields, move: Fields)
    ensures ValidShape(PairGraph(first, last, move))
    ensures NodesOf(PairGraph(first, last, move)) == [NodeOf(first), NodeOf(last)]
    ensures EdgesOf(PairGraph(first, last, move)) == [EdgeOf(move)]
  {
    GraphOfParts(map[], [first, last], [move]);
    MapTwo(first, last, NodeOf);
    MapOne(move, EdgeOf);
  }

  lemma MapTwo<U>(x: Fields, y: Fields, f: Fields -> U)
    ensures Map([x, y], f) == [f(x), f(y)]
  {}

  lemma MapOne<U>(x: Fields, f: Fields -> U)
    ensures Map([x], f) == [f(x)]
  {}

  lemma PairValid(n: Node, m: Node, e: Edge)
    requires ValidNode(n) && ValidNode(m) && n.kind == "start" && m.kind == "end"
    requires n.id != m.id && Lower(n.name) != Lower(m.name)
    requires e.source == n.id && e.target == m.id && ValidEdge(e)
    ensures ValidSteps([n, m]) && ValidConnections([n, m], [e])
  {
    assert n in [n, m] && m in [n, m] && e in [e];
    assert Ids([n, m]) == {n.id, m.id};
    assert forall x :: x in [e] <==> x == e;
  }

  const FIRST_ID := Int(1)
  const SAME_ID := Float(1, 0)

  lemma OnePrintings()
    ensures Equal(FIRST_ID, SAME_ID) && Shown(FIRST_ID) == "1" && Shown(SAME_ID) == "1.0"
    ensures Truthy(FIRST_ID) && Truthy(SAME_ID)
  {
    assert FloatValue(1, 0) == 1.0 && (1.0).Floor == 1;
    assert IntText(1) == "1";
  }

  function Numbered(id: Json): Json {
    PairGraph(StepEntry(id, "start", "a"), StepEntry(Str("e"), "end", "b"), MoveEntry(FIRST_ID, Str("e"), "x", "y"))
  }

  lemma Letter(c: char)
    requires IsLower(c)
    ensures Strip([c]) == [c] && Lower([c]) == [c] && ToolName([c]) == [c]
  {
    hide Strip, Lower, Collapse, TrimUnderscores;
    StripLetter(c);
    LowerLetter(c);
    CollapseLetter(c);
  }

  lemma StripLetter(c: char)
    requires IsLower(c)
    ensures Strip([c]) == [c]
  {}

  lemma LowerLetter(c: char)
    requires IsLower(c)
    ensures Lower([c]) == [c]
  {
    assert IsAscii([c]);
    assert AsciiLower("") == "" && [c][1..] == "";
    assert AsciiLower([c]) == [c] + AsciiLower([c][1..]);
  }

  lemma CollapseLetter(c: char)
    requires IsLower(c)
    ensures Collapse([c]) == [c] && TrimUnderscores([c]) == [c]
  {}

  lemma NumberedNodes(id: Json)
    requires id == FIRST_ID || id == SAME_ID
    ensures ValidShape(Numbered(id))
    ensures Valid(Numbered(id)) <==> id == FIRST_ID
  {
    hide PairGraph, ValidShape, NodesOf, EdgesOf, Strip, Lower, ToolName, StepEntry, MoveEntry, ValidSteps,
         ValidConnections, NodeOf, EdgeOf;
    var v, w, m := StepEntry(id, "start", "a"), StepEntry(Str("e"), "end", "b"),
      MoveEntry(FIRST_ID, Str("e"), "x", "y");
    Letter('a');
    Letter('b');
    Letter('x');
    Letter('y');
    PairParts(v, w, m);
    StepEntryFields(id, "start", "a");
    StepEntryFields(Str("e"), "end", "b");
    MoveEntryFields(FIRST_ID, Str("e"), "x", "y");
    assert RouteOf(m).source == EdgeOf(m).source;
    if id == FIRST_ID {
      PairValid(NodeOf(v), NodeOf(w), EdgeOf(m));
    } else {
      NoSuchStep(NodeOf(v), NodeOf(w), EdgeOf(m));
    }
  }

  lemma NoSuchStep(n: Node, m: Node, e: Edge)
    requires e.source != n.id && e.source != m.id
    ensures !ValidConnections([n, m], [e])
  {
    assert e in [e];
    assert Ids([n, m]) == {n.id, m.id};
  }

  lemma PairEquivalent(v: Fields, v': Fields, w: Fields, m: Fields)
    requires EqualFields(v, v') && v.Keys <= NODE_LOGIC && w.Keys <= NODE_LOGIC && m.Keys <= EDGE_LOGIC
    requires LessEq(SortKey(v), SortKey(w)) && LessEq(SortKey(v'), SortKey(w))
    ensures SameLogic(PairGraph(v, w, m), PairGraph(v', w, m))
  {
    hide NodeViews, EdgeViews, PairGraph, Sort, LessEq;
    PairViews(v, w, m);
    PairViews(v', w, m);
    SortKeepsOrdered([v, w]);
    SortKeepsOrdered([v', w]);
    EqualListsReplace([v, w], 0, v');
    assert [v, w][0 := v'] == [v', w];
    EqualListsReflexive(Sort([m]));
  }

  lemma NumberedEquivalent()
    ensures SameLogic(Numbered(FIRST_ID), Numbered(SAME_ID))
  {
    StepEntryFields(FIRST_ID, "start", "a");
    StepEntryFields(SAME_ID, "start", "a");
    StepEntryFields(Str("e"), "end", "b");
    SameEntry(FIRST_ID, SAME_ID, "start", "a");
    PairEquivalent(StepEntry(FIRST_ID, "start", "a"), StepEntry(SAME_ID, "start", "a"),
                   StepEntry(Str("e"), "end", "b"), MoveEntry(FIRST_ID, Str("e"), "x", "y"));
  }

  lemma SameEntry(x: Json, y: Json, kind: string, name: string)
    requires Equal(x, y)
    ensures EqualFields(StepEntry(x, kind, name), StepEntry(y, kind, name))
  {
    EqualReflexive(Record(map["name" := Str(name)]));
  }

  lemma PairViews(first: Fields, last: Fields, move: Fields)
    requires first.Keys <= NODE_LOGIC && last.Keys <= NODE_LOGIC && move.Keys <= EDGE_LOGIC
    ensures NodeViews(PairGraph(first, last, move)) == Some([first, last])
    ensures EdgeViews(PairGraph(first, last, move)) == Some([move])
    ensures Version(PairGraph(first, last, move).fields) == Null
  {
    var g := PairGraph(first, last, move).fields;
    WrappedViews(g, "nodes", [first, last], NODE_LOGIC);
    WrappedViews(g, "edges", [move], EDGE_LOGIC);
    assert g["nodes" := Wrapped([first, last])] == g && g["edges" := Wrapped([move])] == g;
  }

  lemma PairFrom(first: Fields, last: Fields, move: Fields, o: Origin)
    requires FieldsFrom(first, o) && FieldsFrom(last, o) && FieldsFrom(move, o)
    ensures From(PairGraph(first, last, move), o)
  {
    assert [first, last][0] == first && [first, last][1] == last && [move][0] == move;
    hide FieldsFrom;
    assert AllFrom([first, last], o) && AllFrom([move], o);
    WrappedFrom([first, last], o);
    WrappedFrom([move], o);
  }

  lemma WrappedFrom(views: seq<Fields>, o: Origin)
    requires AllFrom(views, o)
    ensures From(Wrapped(views), o)
  {
    forall i | 0 <= i < |views| ensures From(Record(views[i]), o) { assert FieldsFrom(views[i], o); }
  }

  lemma TextsFrom(fields: Fields, o: Origin)
    requires forall k :: k in fields ==> fields[k].Str?
    ensures From(Record(fields), o)
  {}

  lemma StepEntryFrom(id: Json, kind: string, name: string, o: Origin)
    requires From(id, o)
    ensures FieldsFrom(StepEntry(id, kind, name), o)
  {
    TextsFrom(map["name" := Str(name)], o);
  }

  lemma MoveEntryFrom(source: Json, target: Json, labelText: string, condition: string, o: Origin)
    requires From(source, o) && From(target, o)
    ensures FieldsFrom(MoveEntry(source, target, labelText, condition), o)
  {
    TextsFrom(MoveData(labelText, condition), o);
  }

  lemma NumberedFrom(id: Json, o: Origin)
    requires id == FIRST_ID || id == SAME_ID
    ensures From(Numbered(id), o)
  {
    assert FloatValue(1, 0) == 1.0;
    hide PairGraph, StepEntry, MoveEntry, FieldsFrom, Whole, FloatValue;
    StepEntryFrom(id, "start", "a", o);
    StepEntryFrom(Str("e"), "end", "b", o);
    MoveEntryFrom(FIRST_ID, Str("e"), "x", "y", o);
    PairFrom(StepEntry(id, "start", "a"), StepEntry(Str("e"), "end", "b"), MoveEntry(FIRST_ID, Str("e"), "x", "y"), o);
  }

  /** The number one printed as "1" and as "1.0", both as a column returns them: the graphs count as equivalent, the
      first is valid and the second is not, since its connection leaves a step that does not exist. */
  lemma SkipCanAdmitInvalid()
    ensures Valid(Numbered(FIRST_ID)) && SameLogic(Numbered(FIRST_ID), Numbered(SAME_ID)) && !Valid(Numbered(SAME_ID))
    ensures From(Numbered(FIRST_ID), Stored) && From(Numbered(SAME_ID), Stored)
  {
    NumberedFrom(FIRST_ID, Stored);
    NumberedFrom(SAME_ID, Stored);
    NumberedNodes(FIRST_ID);
    NumberedNodes(SAME_ID);
    NumberedEquivalent();
  }

  /** Why the ids of steps are asked to be pinned and not fixed: the id 1 is not fixed, but next to a step with the
      id "1!" neither 1.0 nor True would sort into its place. */
  lemma CrowdedIdPinned(o: Origin)
    ensures !Fixed(Int(1), o) && Pinned([map["id" := Int(1)], map["id" := Str("1!")]], o)
  {
    OnePrintings();
    var s: seq<Fields> := [map["id" := Int(1)], map["id" := Str("1!")]];
    FixedPinned(s, 1, o);
    assert FloatText(1.0) == "1.0" && IntText(1) == "1";
    assert !LessEq("1.0", "1!") by { assert "1.0"[1..] == ".0" && "1!"[1..] == "!"; }
    assert !LessEq("True", "1!");
    NumberPinnedIff(s, 0, 1, o);
    SmallTruths(o);
  }
}
