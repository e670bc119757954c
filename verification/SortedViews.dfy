/**
 The entries of a graph as the comparison of graphs sees them: restricted to their logic keys and sorted by the
 text of their ids.

 Sorting goes by text and comparing by equality, so two equal sorted lists need not have the same ids as text.
 They do when the ids are `Pinned`.
 */
module SortedViews {
  import opened Text
  import opened Ordering
  import opened Json
  import opened Reprints
  import opened Permutations

  function Restrict(f: Fields, keys: set<string>): Fields {
    map k | k in f && k in keys :: f[k]
  }

  /** `str(v.get("id", ""))`, the key the views are sorted by */
  function SortKey(v: Fields): string { if "id" in v then Shown(v["id"]) else "" }

  /** Puts `v` behind every element whose key is not greater, from the right. */
  function Insert(v: Fields, sorted: seq<Fields>): seq<Fields> {
    if sorted == [] then [v]
    else
      var last := sorted[|sorted| - 1];
      if LessEq(SortKey(last), SortKey(v)) then sorted + [v]
      else Insert(v, sorted[..|sorted| - 1]) + [last]
  }

  /** A stable sort by key. */
  function Sort(views: seq<Fields>): seq<Fields> {
    if views == [] then [] else Insert(views[|views| - 1], Sort(views[..|views| - 1]))
  }

  predicate EqualLists(a: seq<Fields>, b: seq<Fields>) {
    |a| == |b| && forall i :: 0 <= i < |a| ==> EqualFields(a[i], b[i])
  }

  // ---------------------------------------------------------------- an equivalence relation

  lemma EqualListsReflexive(s: seq<Fields>)
    ensures EqualLists(s, s)
  {
    forall i, k | 0 <= i < |s| && k in s[i] ensures Equal(s[i][k], s[i][k]) { EqualReflexive(s[i][k]); }
  }

  lemma EqualListsSymmetric(s: seq<Fields>, t: seq<Fields>)
    requires EqualLists(s, t)
    ensures EqualLists(t, s)
  {
    forall i, k | 0 <= i < |s| && k in t[i] ensures Equal(t[i][k], s[i][k]) {
      assert EqualFields(s[i], t[i]);
      EqualSymmetric(s[i][k], t[i][k]);
    }
  }

  lemma EqualListsTransitive(s: seq<Fields>, t: seq<Fields>, u: seq<Fields>)
    requires EqualLists(s, t) && EqualLists(t, u)
    ensures EqualLists(s, u)
  {
    forall i, k | 0 <= i < |s| && k in s[i] ensures Equal(s[i][k], u[i][k]) {
      assert EqualFields(s[i], t[i]) && EqualFields(t[i], u[i]);
      EqualTransitive(s[i][k], t[i][k], u[i][k]);
    }
    forall i | 0 <= i < |s| ensures s[i].Keys == u[i].Keys {
      assert EqualFields(s[i], t[i]) && EqualFields(t[i], u[i]);
    }
  }

  // ---------------------------------------------------------------- sorting

  lemma {:induction false} InsertPermutes(v: Fields, s: seq<Fields>)
    ensures multiset(Insert(v, s)) == multiset(s) + multiset{v}
  {
    if s != [] {
      var init, last := s[..|s| - 1], s[|s| - 1];
      assert s == init + [last];
      InsertPermutes(v, init);
    }
  }

  lemma {:induction false} SortPermutes(s: seq<Fields>)
    ensures multiset(Sort(s)) == multiset(s)
  {
    if s != [] {
      var init, last := s[..|s| - 1], s[|s| - 1];
      assert s == init + [last];
      SortPermutes(init);
      InsertPermutes(last, Sort(init));
    }
  }

  ghost predicate Ordered(s: seq<Fields>) {
    forall i, j :: 0 <= i < j < |s| ==> LessEq(SortKey(s[i]), SortKey(s[j]))
  }

  ghost predicate Below(s: seq<Fields>, key: string) { forall i :: 0 <= i < |s| ==> LessEq(SortKey(s[i]), key) }

  lemma InsertBelow(v: Fields, s: seq<Fields>, key: string)
    requires Below(s, key) && LessEq(SortKey(v), key)
    ensures Below(Insert(v, s), key)
  {
    hide LessEq, SortKey, Insert;
    InsertPermutes(v, s);
    var ins := Insert(v, s);
    forall i | 0 <= i < |ins| ensures LessEq(SortKey(ins[i]), key) {
      assert ins[i] in multiset(ins);
      assert ins[i] == v || ins[i] in s;
    }
  }

  lemma OrderedSnoc(s: seq<Fields>, v: Fields)
    requires Ordered(s) && Below(s, SortKey(v))
    ensures Ordered(s + [v])
  {
    hide LessEq, SortKey;
    var t := s + [v];
    assert forall i :: 0 <= i < |s| ==> t[i] == s[i];
  }

  lemma {:induction false} InsertOrdered(v: Fields, s: seq<Fields>)
    requires Ordered(s)
    ensures Ordered(Insert(v, s))
  {
    if s != [] {
      hide LessEq, SortKey;
      var init, last := s[..|s| - 1], s[|s| - 1];
      if LessEq(SortKey(last), SortKey(v)) {
        forall i | 0 <= i < |s| ensures LessEq(SortKey(s[i]), SortKey(v)) {
          if i < |s| - 1 { LessEqTransitive(SortKey(s[i]), SortKey(last), SortKey(v)); }
        }
        OrderedSnoc(s, v);
      } else {
        LessEqTotal(SortKey(last), SortKey(v));
        InsertOrdered(v, init);
        InsertBelow(v, init, SortKey(last));
        OrderedSnoc(Insert(v, init), last);
      }
    } else {
      OrderedSnoc(s, v);
      assert s + [v] == [v];
    }
  }

  lemma {:induction false} SortOrdered(s: seq<Fields>)
    ensures Ordered(Sort(s))
  {
    if s != [] {
      SortOrdered(s[..|s| - 1]);
      InsertOrdered(s[|s| - 1], Sort(s[..|s| - 1]));
    }
  }

  lemma OrderedInit(s: seq<Fields>)
    requires Ordered(s) && s != []
    ensures Ordered(s[..|s| - 1])
    ensures |s| > 1 ==> LessEq(SortKey(s[|s| - 2]), SortKey(s[|s| - 1]))
  {
    assert forall i :: 0 <= i < |s| - 1 ==> s[..|s| - 1][i] == s[i];
  }

  lemma InsertLast(s: seq<Fields>, v: Fields)
    requires s != [] ==> LessEq(SortKey(s[|s| - 1]), SortKey(v))
    ensures Insert(v, s) == s + [v]
  {}

  lemma {:induction false} SortKeepsOrdered(s: seq<Fields>)
    requires Ordered(s)
    ensures Sort(s) == s
  {
    if s != [] {
      OrderedInit(s);
      SortKeepsOrdered(s[..|s| - 1]);
      InsertLast(s[..|s| - 1], s[|s| - 1]);
    }
  }

  // ---------------------------------------------------------------- ids that cannot change their text

  /** A text that may stand as the id at `p` without leaving the order. */
  ghost predicate InPlace(s: seq<Fields>, p: nat, text: string)
    requires p < |s|
  {
    && (p > 0 ==> LessEq(SortKey(s[p - 1]), text))
    && (p + 1 < |s| ==> LessEq(text, SortKey(s[p + 1])))
  }

  ghost predicate AllFrom(s: seq<Fields>, o: Origin) { forall i :: 0 <= i < |s| ==> FieldsFrom(s[i], o) }

  /** No value from there equal to the id at `p` prints differently and still sorts between the neighbours of `p`. */
  ghost predicate PinnedAt(s: seq<Fields>, p: nat, o: Origin)
    requires p < |s|
  {
    "id" in s[p] ==> forall x :: From(x, o) && Equal(s[p]["id"], x) && InPlace(s, p, Shown(x)) ==>
      Shown(x) == SortKey(s[p])
  }

  ghost predicate Pinned(s: seq<Fields>, o: Origin) { forall p :: 0 <= p < |s| ==> PinnedAt(s, p, o) }

  /** Fixed ids are pinned wherever they stand. */
  lemma FixedPinned(s: seq<Fields>, p: nat, o: Origin)
    requires p < |s| && FixedOptional(s[p], "id", o) && FieldsFrom(s[p], o)
    ensures PinnedAt(s, p, o)
  {
    if "id" in s[p] {
      forall x | From(x, o) && Equal(s[p]["id"], x)
          ensures Shown(x) == SortKey(s[p]) { FixedPrintsOneWay(s[p]["id"], x, o); }
    }
  }

  /** The keys of an equal, ordered list, at one place, when the next place has not moved up. */
  lemma KeyNotUp(s: seq<Fields>, t: seq<Fields>, p: nat, o: Origin)
    requires EqualLists(s, t) && Ordered(s) && Ordered(t) && Pinned(s, o) && AllFrom(t, o) && p < |s|
    requires p + 1 < |s| ==> LessEq(SortKey(t[p + 1]), SortKey(s[p + 1]))
    ensures LessEq(SortKey(t[p]), SortKey(s[p]))
  {
    hide LessEq, From;
    LessEqTotal(SortKey(t[p]), SortKey(s[p]));
    LessEqReflexive(SortKey(s[p]));
    assert EqualFields(s[p], t[p]) && PinnedAt(s, p, o) && FieldsFrom(t[p], o);
    if LessEq(SortKey(s[p]), SortKey(t[p])) && "id" in s[p] {
      if p > 0 { LessEqTransitive(SortKey(s[p - 1]), SortKey(s[p]), SortKey(t[p])); }
      if p + 1 < |s| { LessEqTransitive(SortKey(t[p]), SortKey(t[p + 1]), SortKey(s[p + 1])); }
      assert InPlace(s, p, Shown(t[p]["id"]));
    }
  }

  lemma KeyNotDown(s: seq<Fields>, t: seq<Fields>, p: nat, o: Origin)
    requires EqualLists(s, t) && Ordered(s) && Ordered(t) && Pinned(s, o) && AllFrom(t, o) && p < |s|
    requires p > 0 ==> LessEq(SortKey(s[p - 1]), SortKey(t[p - 1]))
    ensures LessEq(SortKey(s[p]), SortKey(t[p]))
  {
    hide LessEq, From;
    LessEqTotal(SortKey(t[p]), SortKey(s[p]));
    LessEqReflexive(SortKey(s[p]));
    assert EqualFields(s[p], t[p]) && PinnedAt(s, p, o) && FieldsFrom(t[p], o);
    if LessEq(SortKey(t[p]), SortKey(s[p])) && "id" in s[p] {
      if p > 0 { LessEqTransitive(SortKey(s[p - 1]), SortKey(t[p - 1]), SortKey(t[p])); }
      if p + 1 < |s| { LessEqTransitive(SortKey(t[p]), SortKey(s[p]), SortKey(s[p + 1])); }
      assert InPlace(s, p, Shown(t[p]["id"]));
    }
  }

  lemma {:induction false} NoneUp(s: seq<Fields>, t: seq<Fields>, p: nat, o: Origin)
    requires EqualLists(s, t) && Ordered(s) && Ordered(t) && Pinned(s, o) && AllFrom(t, o) && p < |s|
    ensures LessEq(SortKey(t[p]), SortKey(s[p]))
    decreases |s| - p
  {
    hide LessEq, Pinned, Ordered, EqualLists, SortKey, AllFrom;
    if p + 1 < |s| { NoneUp(s, t, p + 1, o); }
    KeyNotUp(s, t, p, o);
  }

  lemma {:induction false} NoneDown(s: seq<Fields>, t: seq<Fields>, p: nat, o: Origin)
    requires EqualLists(s, t) && Ordered(s) && Ordered(t) && Pinned(s, o) && AllFrom(t, o) && p < |s|
    ensures LessEq(SortKey(s[p]), SortKey(t[p]))
    decreases p
  {
    hide LessEq, Pinned, Ordered, EqualLists, SortKey, AllFrom;
    if p > 0 { NoneDown(s, t, p - 1, o); }
    KeyNotDown(s, t, p, o);
  }

  /** An ordered list equal to one whose ids are pinned has the same ids as text, and they are pinned there. */
  lemma PinnedKeys(s: seq<Fields>, t: seq<Fields>, o: Origin)
    requires EqualLists(s, t) && Ordered(s) && Ordered(t) && Pinned(s, o) && AllFrom(t, o)
    ensures forall p :: 0 <= p < |s| ==> SortKey(t[p]) == SortKey(s[p])
    ensures Pinned(t, o)
  {
    hide From;
    forall p | 0 <= p < |s| ensures SortKey(t[p]) == SortKey(s[p]) {
      NoneUp(s, t, p, o);
      NoneDown(s, t, p, o);
      LessEqAntisymmetric(SortKey(s[p]), SortKey(t[p]));
    }
    hide LessEq, SortKey;
    forall p | 0 <= p < |t| ensures PinnedAt(t, p, o) {
      assert EqualFields(s[p], t[p]) && PinnedAt(s, p, o);
      if "id" in t[p] {
        forall x | From(x, o) && Equal(t[p]["id"], x) && InPlace(t, p, Shown(x)) ensures Shown(x) == SortKey(t[p]) {
          EqualTransitive(s[p]["id"], t[p]["id"], x);
          assert InPlace(s, p, Shown(x));
        }
      }
    }
  }

  /** An id that is not pinned has an equal value that prints differently and keeps the list ordered. */
  lemma UnpinnedMoves(s: seq<Fields>, p: nat, o: Origin) returns (v: Fields)
    requires Ordered(s) && p < |s| && !PinnedAt(s, p, o)
    ensures EqualFields(s[p], v) && SortKey(v) != SortKey(s[p]) && v.Keys == s[p].Keys
    ensures Ordered(s[p := v]) && (FieldsFrom(s[p], o) ==> FieldsFrom(v, o))
  {
    hide From, LessEq;
    var x :| From(x, o) && Equal(s[p]["id"], x) && InPlace(s, p, Shown(x)) && Shown(x) != SortKey(s[p]);
    v := s[p]["id" := x];
    forall k | k in s[p] ensures Equal(s[p][k], v[k]) { EqualReflexive(s[p][k]); }
    assert SortKey(v) == Shown(x);
    hide Equal, SortKey, Shown;
    StillOrdered(s, p, v, s[p := v]);
  }

  lemma StillOrdered(s: seq<Fields>, p: nat, v: Fields, t: seq<Fields>)
    requires p < |s| && Ordered(s) && InPlace(s, p, SortKey(v)) && t == s[p := v]
    ensures Ordered(t)
  {
    hide LessEq, SortKey;
    forall i, j | 0 <= i < j < |t| ensures LessEq(SortKey(t[i]), SortKey(t[j])) {
      if j == p && i < p - 1 {
        LessEqTransitive(SortKey(s[i]), SortKey(s[p - 1]), SortKey(v));
      } else if i == p && j > p + 1 {
        LessEqTransitive(SortKey(v), SortKey(s[p + 1]), SortKey(s[j]));
      }
    }
  }

  /** For an id that is a whole number or a truth value: it is pinned exactly when none of the texts its value can
      print, other than its own, stands between its neighbours. */
  lemma NumberPinnedIff(s: seq<Fields>, p: nat, n: int, o: Origin)
    requires p < |s| && "id" in s[p] && Amount(s[p]["id"]) == Some(n as real)
    ensures PinnedAt(s, p, o) <==> forall text :: text in Printings(n, o) && InPlace(s, p, text) ==>
      text == SortKey(s[p])
  {
    var id := s[p]["id"];
    forall x ensures Equal(id, x) <==> Equal(Int(n), x) { SameAmount(id, Int(n), x); }
    hide Printings, From, Equal, InPlace, SortKey, Amount;
    if PinnedAt(s, p, o) {
      forall text | text in Printings(n, o) && InPlace(s, p, text) ensures text == SortKey(s[p]) {
        PrintingsAre(n, o, text);
        var x :| From(x, o) && Equal(Int(n), x) && Shown(x) == text;
      }
    }
    if forall text :: text in Printings(n, o) && InPlace(s, p, text) ==> text == SortKey(s[p]) {
      forall x | From(x, o) && Equal(id, x) && InPlace(s, p, Shown(x)) ensures Shown(x) == SortKey(s[p]) {
        PrintingsAre(n, o, Shown(x));
      }
    }
  }

  lemma SameAmount(a: Json, b: Json, x: Json)
    requires Amount(a).Some? && Amount(a) == Amount(b)
    ensures Equal(a, x) <==> Equal(b, x)
  {}
}
