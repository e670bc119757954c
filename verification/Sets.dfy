/** Counting the members of finite sets. */
module Sets {

  lemma {:induction false} SubsetSize<T>(a: set<T>, b: set<T>)
    requires a <= b
    ensures |a| <= |b|
  {
    if a != {} {
      var x :| x in a;
      SubsetSize(a - {x}, b - {x});
    }
  }

  lemma SameSize<T>(a: set<T>, b: set<T>)
    requires a <= b && |a| == |b|
    ensures a == b
  {
    assert b == a + (b - a) && |b| == |a| + |b - a|;
  }

  lemma Member<T>(s: set<T>) returns (x: T)
    requires s != {}
    ensures x in s
  {
    x :| x in s;
  }

  lemma {:induction false} WithinRange(s: set<int>, low: int, n: nat)
    requires forall i :: i in s ==> low <= i < low + n
    ensures |s| <= n
    decreases n
  {
    if n > 0 {
      WithinRange(s - {low + n - 1}, low, n - 1);
    } else if s != {} {
      var x := Member(s);
      assert false;
    }
  }

  lemma {:induction false} Least(s: set<int>, x: int) returns (low: int)
    requires x in s
    ensures low in s && forall i :: i in s ==> low <= i
    decreases s
  {
    if y :| y in s && y < x {
      low := Least(s - {x}, y);
      assert forall i :: i in s ==> i == x || i in s - {x};
    } else {
      low := x;
    }
  }

  /** A set of indices whose members are all less than `n` apart has at most `n` members. */
  lemma CloseTogether(s: set<int>, n: nat)
    requires forall i, j :: i in s && j in s && i < j ==> j - i < n
    requires n == 0 ==> s == {}
    ensures |s| <= n
  {
    if s != {} {
      var x := Member(s);
      var low := Least(s, x);
      WithinRange(s, low, n);
    }
  }
}
