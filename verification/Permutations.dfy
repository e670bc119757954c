/** Facts about sequences that hold the same elements in a different order. */
module Permutations {

  lemma Without<T>(s: seq<T>, i: nat)
    requires i < |s|
    ensures multiset(s) == multiset(s[..i] + s[i + 1..]) + multiset{s[i]}
  {
    assert s == s[..i] + [s[i]] + s[i + 1..];
  }

  lemma Replaced<T>(s: seq<T>, i: nat, x: T)
    requires i < |s| && x != s[i]
    ensures multiset(s[i := x]) != multiset(s)
  {
    Without(s, i);
    var t := s[i := x];
    Without(t, i);
    assert t[..i] + t[i + 1..] == s[..i] + s[i + 1..];
    assert multiset(t)[x] == multiset(s)[x] + 1;
  }

  lemma TwiceHeld<T>(s: seq<T>, i: nat, j: nat)
    requires i < j < |s| && s[i] == s[j]
    ensures multiset(s)[s[i]] >= 2
  {
    assert s == s[..j] + s[j..];
    assert s[..j][i] in multiset(s[..j]) && s[j..][0] in multiset(s[j..]);
  }

  lemma TwiceFound<T>(s: seq<T>, x: T) returns (p: nat, q: nat)
    requires multiset(s)[x] >= 2
    ensures p < |s| && q < |s| && p != q && s[p] == x && s[q] == x
  {
    assert x in s;
    p :| 0 <= p < |s| && s[p] == x;
    Without(s, p);
    var rest := s[..p] + s[p + 1..];
    assert x in multiset(rest);
    var k :| 0 <= k < |rest| && rest[k] == x;
    q := if k < p then k else k + 1;
  }

  ghost predicate Pairwise<T>(s: seq<T>, r: (T, T) -> bool) {
    forall i, j :: 0 <= i < |s| && 0 <= j < |s| && i != j ==> r(s[i], s[j])
  }

  /** What holds between any two positions does not depend on the order. */
  lemma PairwisePermutes<T>(s: seq<T>, t: seq<T>, r: (T, T) -> bool)
    requires multiset(s) == multiset(t) && Pairwise(s, r)
    ensures Pairwise(t, r)
  {
    forall i, j | 0 <= i < |t| && 0 <= j < |t| && i != j
      ensures r(t[i], t[j])
    {
      SameMembers(s, t);
      if t[i] == t[j] {
        if i < j { TwiceHeld(t, i, j); } else { TwiceHeld(t, j, i); }
        var p, q := TwiceFound(s, t[i]);
        assert r(s[p], s[q]);
      } else {
        assert t[i] in t && t[j] in t;
        var p :| 0 <= p < |s| && s[p] == t[i];
        var q :| 0 <= q < |s| && s[q] == t[j];
        assert r(s[p], s[q]);
      }
    }
  }

  lemma SameMembers<T>(s: seq<T>, t: seq<T>)
    requires multiset(s) == multiset(t)
    ensures |s| == |t| && forall x :: x in s <==> x in t
  {
    assert |multiset(s)| == |s| && |multiset(t)| == |t|;
    forall x ensures x in s <==> x in t {
      assert x in s <==> x in multiset(s);
      assert x in t <==> x in multiset(t);
    }
  }

  function Map<T, U>(s: seq<T>, f: T -> U): (r: seq<U>)
    ensures |r| == |s| && forall i :: 0 <= i < |s| ==> r[i] == f(s[i])
  {
    seq(|s|, i requires 0 <= i < |s| => f(s[i]))
  }

  lemma Cancel<T>(a: multiset<T>, b: multiset<T>, x: T)
    requires a + multiset{x} == b + multiset{x}
    ensures a == b
  {
    assert a == (a + multiset{x}) - multiset{x};
    assert b == (b + multiset{x}) - multiset{x};
  }

  lemma MapWithout<T, U>(s: seq<T>, i: nat, f: T -> U)
    requires i < |s|
    ensures multiset(Map(s, f)) == multiset(Map(s[..i] + s[i + 1..], f)) + multiset{f(s[i])}
  {
    Without(Map(s, f), i);
    assert Map(s, f)[..i] + Map(s, f)[i + 1..] == Map(s[..i] + s[i + 1..], f);
  }

  /** Taking one member that both hold out of each leaves the same members. */
  lemma TakenOut<T>(s: seq<T>, t: seq<T>, i: nat)
    requires multiset(s) == multiset(t) && s != [] && i < |t| && t[i] == s[0]
    ensures multiset(s[..0] + s[1..]) == multiset(t[..i] + t[i + 1..])
  {
    Without(s, 0);
    Without(t, i);
    Cancel(multiset(s[..0] + s[1..]), multiset(t[..i] + t[i + 1..]), s[0]);
  }

  lemma {:induction false} MapPermutes<T, U>(s: seq<T>, t: seq<T>, f: T -> U)
    requires multiset(s) == multiset(t)
    ensures multiset(Map(s, f)) == multiset(Map(t, f))
    decreases |s|
  {
    hide Map;
    SameMembers(s, t);
    if s == [] {
      assert t == s;
    } else {
      assert s[0] in t;
      var i :| 0 <= i < |t| && t[i] == s[0];
      var s', t' := s[..0] + s[1..], t[..i] + t[i + 1..];
      TakenOut(s, t, i);
      MapPermutes(s', t', f);
      MapWithout(s, 0, f);
      MapWithout(t, i, f);
    }
  }
}
