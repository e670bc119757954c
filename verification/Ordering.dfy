/** Python's order on strings, and sets of strings put in that order. */
module Ordering {
  import opened Sets

  /** `s <= t` on strings */
  predicate LessEq(s: string, t: string) {
    s == "" || (t != "" && (s[0] < t[0] || (s[0] == t[0] && LessEq(s[1..], t[1..]))))
  }

  lemma {:induction false} LessEqReflexive(s: string)
    ensures LessEq(s, s)
  {
    if s != "" { LessEqReflexive(s[1..]); }
  }

  lemma {:induction false} LessEqTotal(s: string, t: string)
    ensures LessEq(s, t) || LessEq(t, s)
  {
    if s != "" && t != "" { LessEqTotal(s[1..], t[1..]); }
  }

  lemma {:induction false} LessEqTransitive(s: string, t: string, u: string)
    requires LessEq(s, t) && LessEq(t, u)
    ensures LessEq(s, u)
  {
    if s != "" && s[0] == t[0] && t[0] == u[0] { LessEqTransitive(s[1..], t[1..], u[1..]); }
  }

  lemma {:induction false} LessEqAntisymmetric(s: string, t: string)
    requires LessEq(s, t) && LessEq(t, s)
    ensures s == t
  {
    if s != "" && t != "" {
      LessEqAntisymmetric(s[1..], t[1..]);
      assert s == [s[0]] + s[1..] && t == [t[0]] + t[1..];
    }
  }

  /** The texts of a set, each once, in some order. */
  predicate IsOrderOf(order: seq<string>, keys: set<string>) {
    && (forall k :: k in order ==> k in keys) && (forall k :: k in keys ==> k in order)
    && (forall i, j :: 0 <= i < j < |order| ==> order[i] != order[j])
  }

  predicate IsLeast(k: string, s: set<string>) { k in s && forall m :: m in s ==> LessEq(k, m) }

  lemma {:induction false} LeastExists(s: set<string>, k: string)
    requires k in s
    ensures exists m :: IsLeast(m, s)
    decreases s
  {
    LessEqReflexive(k);
    if s == {k} {
      assert IsLeast(k, s);
    } else {
      var other := Member(s - {k});
      LeastExists(s - {k}, other);
      var m :| IsLeast(m, s - {k});
      LessEqTotal(k, m);
      if LessEq(k, m) {
        forall x | x in s ensures LessEq(k, x) { if x != k { LessEqTransitive(k, m, x); } }
        assert IsLeast(k, s);
      } else {
        assert IsLeast(m, s);
      }
    }
  }

  lemma LeastUnique(s: set<string>)
    ensures forall k, m :: IsLeast(k, s) && IsLeast(m, s) ==> k == m
  {
    forall k, m | IsLeast(k, s) && IsLeast(m, s) ensures k == m { LessEqAntisymmetric(k, m); }
  }

  function Sorted(s: set<string>): (r: seq<string>)
    ensures IsOrderOf(r, s)
  {
    if s == {} then []
    else
      LeastUnique(s);
      assert exists k :: IsLeast(k, s) by { var k :| k in s; LeastExists(s, k); }
      var k :| IsLeast(k, s);
      [k] + Sorted(s - {k})
  }
}
