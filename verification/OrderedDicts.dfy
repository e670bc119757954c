/** Dictionaries that remember the order of their keys: new keys go to the end, and a key can be moved there. */
module OrderedDicts {

  datatype Ordered<K(==,!new), V> = Ordered(order: seq<K>, at: map<K, V>) {

    ghost predicate Valid() {
      && (forall k :: k in order <==> k in at)
      && Distinct(order)
    }

    function Put(k: K, v: V): (r: Ordered<K, V>)
      ensures Valid() ==> r.Valid()
      ensures |r.order| == |order| + (if k in at then 0 else 1)
    {
      Ordered(if k in at then order else order + [k], at[k := v])
    }

    function MovedToEnd(k: K): (r: Ordered<K, V>)
      requires k in at
      ensures Valid() ==> r.Valid() && |r.order| == |order|
      ensures |r.order| > 0 && r.order[|r.order| - 1] == k && r.at == at
    {
      Ordered(Without(order, k) + [k], at)
    }

    function Deleted(k: K): (r: Ordered<K, V>)
      requires k in at
      ensures Valid() ==> r.Valid() && |r.order| == |order| - 1
    {
      Ordered(Without(order, k), at - {k})
    }

    function PopFirst(): (r: Ordered<K, V>)
      requires |order| > 0
      ensures Valid() ==> r.Valid()
    {
      Ordered(order[1..], at - {order[0]})
    }
  }

  function Empty<K(==,!new), V>(): (r: Ordered<K, V>)
    ensures r.Valid()
  {
    Ordered([], map[])
  }

  ghost predicate Distinct<K>(s: seq<K>) { forall i, j :: 0 <= i < j < |s| ==> s[i] != s[j] }

  /** The keys in order, without `k`. */
  function Without<K(==,!new)>(s: seq<K>, k: K): (r: seq<K>)
    ensures forall x :: x in r <==> x in s && x != k
    ensures Distinct(s) ==> Distinct(r) && |r| == |s| - (if k in s then 1 else 0)
  {
    if s == [] then []
    else
      var rest := Without(s[1..], k);
      assert s == [s[0]] + s[1..];
      assert Distinct(s) ==> s[0] !in s[1..] && Distinct(s[1..]);
      if s[0] == k then rest else [s[0]] + rest
  }
}
