/**
 Who is least recently used in the store of tool latencies, said of the operations alone, and what its averages are.
 */
module LatencyOrder {
  import opened OrderedDicts
  import opened Text
  import opened ToolLatency

  // ---------------------------------------------------------------- averages and accepted samples

  lemma {:induction false} SumConcat(a: Samples, b: Samples)
    ensures Sum(a + b) == Sum(a) + Sum(b)
    ensures |a| == 1 ==> Sum(a) == a[0].ms
    ensures a == [] ==> Sum(a) == 0.0
  {
    if a == [] {
      assert a + b == b;
    } else {
      assert (a + b)[0] == a[0] && (a + b)[1..] == a[1..] + b;
      SumConcat(a[1..], b);
    }
  }

  /** An average is given from three samples on, and times their number it is their sum. */
  lemma MeanIs(d: Samples)
    ensures Mean(d).Some? <==> |d| >= 3
    ensures Mean(d).Some? ==> Mean(d).value * |d| as real == Sum(d)
  {}

  lemma {:induction false} NotBlank(s: string)
    ensures Strip(s) != [] <==> exists i :: 0 <= i < |s| && !IsSpace(s[i])
  {
    if forall i :: 0 <= i < |s| ==> IsSpace(s[i]) {
      StripExact(s, "", "");
      assert s + "" + "" == s;
    } else {
      var i :| 0 <= i < |s| && !IsSpace(s[i]);
      KeepsInk(s, i);
    }
  }

  lemma KeepsInk(s: string, i: nat)
    requires i < |s| && !IsSpace(s[i])
    ensures Strip(s) != []
  {
    InkBefore(s, 0, i);
    InkAfter(s, SpaceEnd(s, 0), |s|, i);
  }

  lemma {:induction false} InkBefore(s: string, from: nat, i: nat)
    requires from <= i < |s| && !IsSpace(s[i])
    ensures SpaceEnd(s, from) <= i
    decreases i - from
  {
    if IsSpace(s[from]) { InkBefore(s, from + 1, i); }
  }

  lemma {:induction false} InkAfter(s: string, from: nat, end: nat, i: nat)
    requires from <= i < end <= |s| && !IsSpace(s[i])
    ensures SpaceStart(s, from, end) > i
    decreases end
  {
    if IsSpace(s[end - 1]) { InkAfter(s, from, end - 1, i); }
  }

  /** A sample counts exactly when its tenant and agent are not blank and its duration is finite and positive. */
  lemma AcceptedIff(tenant: string, agent: string, m: Measure)
    ensures Accepted(tenant, agent, m) <==>
      && (exists i :: 0 <= i < |tenant| && !IsSpace(tenant[i])) && (exists i :: 0 <= i < |agent| && !IsSpace(agent[i]))
      && m.Finite? && m.ms > 0.0
  {
    NotBlank(tenant);
    NotBlank(agent);
  }

  // ---------------------------------------------------------------- the keys of a tenant

  /** The operation records or reads the key. */
  predicate Uses(op: Op, t: string, k: Key) {
    && op.tenant == t && (op.agent, op.tool) == k
    && (if op.Record? then Accepted(op.tenant, op.agent, op.m) else Named(op.tenant) && Named(op.agent))
  }

  /** The place of the last operation that uses the key; -1 if there is none. */
  function LastUse(ops: seq<Op>, t: string, k: Key): (i: int)
    ensures -1 <= i < |ops|
  {
    if ops == [] then -1
    else if Uses(ops[|ops| - 1], t, k) then |ops| - 1
    else LastUse(ops[..|ops| - 1], t, k)
  }

  lemma LastUseSnoc(ops: seq<Op>, op: Op, t: string, k: Key)
    ensures LastUse(ops + [op], t, k) == if Uses(op, t, k) then |ops| else LastUse(ops, t, k)
  {
    assert (ops + [op])[..|ops|] == ops;
  }

  /** Each of the keys was used, and each after the ones before it. */
  ghost predicate Rising(keys: seq<Key>, ops: seq<Op>, t: string) {
    keys != [] ==>
      && LastUse(ops, t, keys[0]) >= 0
      && (forall k :: k in keys[1..] ==> LastUse(ops, t, keys[0]) < LastUse(ops, t, k))
      && Rising(keys[1..], ops, t)
  }

  ghost predicate KeysByUse(tools: Tools, ops: seq<Op>, t: string) { Rising(tools.order, ops, t) }

  /** The keys of every tenant are in the order of their last use. */
  ghost predicate ByUse(tenants: Tenants, ops: seq<Op>) {
    forall t :: t in tenants.at ==> KeysByUse(tenants.at[t], ops, t)
  }

  lemma {:induction false} RisingWithout(keys: seq<Key>, ops: seq<Op>, t: string, k: Key)
    requires Rising(keys, ops, t)
    ensures Rising(Without(keys, k), ops, t)
  {
    hide LastUse;
    if keys != [] {
      RisingWithout(keys[1..], ops, t, k);
      var rest := Without(keys[1..], k);
      assert ([keys[0]] + rest)[1..] == rest;
    }
  }

  /** An operation that uses none of the keys. */
  lemma {:induction false} RisingUnused(keys: seq<Key>, ops: seq<Op>, op: Op, t: string)
    requires Rising(keys, ops, t) && forall k :: k in keys ==> !Uses(op, t, k)
    ensures Rising(keys, ops + [op], t)
  {
    if keys != [] {
      RisingUnused(keys[1..], ops, op, t);
      forall k | k in keys ensures LastUse(ops + [op], t, k) == LastUse(ops, t, k) { LastUseSnoc(ops, op, t, k); }
      hide LastUse, Uses;
      assert keys[0] in keys;
    }
  }

  lemma {:induction false} RisingSnoc(keys: seq<Key>, ops: seq<Op>, t: string, k: Key)
    requires Rising(keys, ops, t) && k !in keys && LastUse(ops, t, k) == |ops| - 1 >= 0
    requires forall x :: x in keys ==> LastUse(ops, t, x) < |ops| - 1
    ensures Rising(keys + [k], ops, t)
  {
    hide LastUse;
    if keys == [] {
      assert keys + [k] == [k];
    } else {
      RisingSnoc(keys[1..], ops, t, k);
      assert (keys + [k])[1..] == keys[1..] + [k];
      assert keys[0] in keys;
    }
  }

  /** The key that is used goes behind the others. */
  lemma RisingUsed(keys: seq<Key>, ops: seq<Op>, op: Op, t: string, k: Key)
    requires Rising(keys, ops, t) && k !in keys && Uses(op, t, k)
    ensures Rising(keys + [k], ops + [op], t)
  {
    assert forall x :: Uses(op, t, x) ==> x == k;
    RisingUnused(keys, ops, op, t);
    forall x | x in keys ensures LastUse(ops + [op], t, x) < |ops| { LastUseSnoc(ops, op, t, x); }
    LastUseSnoc(ops, op, t, k);
    hide LastUse, Uses;
    RisingSnoc(keys, ops + [op], t, k);
  }

  lemma RecordedOrder(tools: Tools, key: Key, x: Sample)
    requires ToolsBounded(tools)
    ensures
      var kept, now := Without(tools.order, key), KeyRecorded(tools, key, x).order;
      now == kept + [key] || (kept != [] && now == kept[1..] + [key])
  {
    hide Appended, SamplesAt, Without;
    var d := Appended(SamplesAt(tools, key), x);
    var kept := Without(tools.order, key);
    if key !in tools.at { WithoutSnoc(tools.order, key); }
    assert tools.Put(key, d).MovedToEnd(key).order == kept + [key];
    if kept != [] { assert (kept + [key])[1..] == kept[1..] + [key]; }
  }

  lemma RecordKeysByUse(tools: Tools, ops: seq<Op>, op: Op, t: string, key: Key, x: Sample)
    requires ToolsBounded(tools) && KeysByUse(tools, ops, t) && Uses(op, t, key)
    ensures KeysByUse(KeyRecorded(tools, key, x), ops + [op], t)
  {
    var kept := Without(tools.order, key);
    RecordedOrder(tools, key, x);
    RisingWithout(tools.order, ops, t, key);
    assert kept != [] ==> Rising(kept[1..], ops, t);
    assert key !in kept && (kept != [] ==> key !in kept[1..]);
    hide Without, KeyRecorded, Rising, Uses, ToolsBounded;
    RisingUsed(kept, ops, op, t, key);
    if kept != [] { RisingUsed(kept[1..], ops, op, t, key); }
  }

  lemma ReadKeysByUse(tools: Tools, ops: seq<Op>, op: Op, t: string, key: Key, cutoff: real)
    requires key in tools.at && KeysByUse(tools, ops, t) && Uses(op, t, key)
    ensures KeysByUse(KeyRead(tools, key, cutoff), ops + [op], t)
  {
    var kept := Without(tools.order, key);
    RisingWithout(tools.order, ops, t, key);
    hide Rising, Uses, AgedOut;
    RisingUsed(kept, ops, op, t, key);
    assert forall k :: k in kept && Uses(op, t, k) ==> k == key by { OneKey(op, t, key); }
    RisingUnused(kept, ops, op, t);
    WithoutSnoc(kept, key);
    WithoutNone(kept, key);
    hide Without;
  }

  lemma OneKey(op: Op, t: string, key: Key)
    requires Uses(op, t, key)
    ensures forall k :: Uses(op, t, k) ==> k == key
  {}

  lemma OthersByUse(tenants: Tenants, ops: seq<Op>, op: Op, t: string)
    requires ByUse(tenants, ops) && t in tenants.at && op.tenant != t
    ensures KeysByUse(tenants.at[t], ops + [op], t)
  {
    RisingUnused(tenants.at[t].order, ops, op, t);
  }

  lemma {:induction false} SweptTools(tenants: Tenants, ids: seq<string>, cutoff: real, t: string)
    ensures t in Swept(tenants, ids, cutoff).at ==>
      t in tenants.at && Swept(tenants, ids, cutoff).at[t] == tenants.at[t]
    decreases |ids|
  {
    hide Reclaimable;
    if ids != [] {
      if ids[0] !in tenants.at {
        SweptTools(tenants, ids[1..], cutoff, t);
      } else if Reclaimable(tenants.at[ids[0]], cutoff) {
        SweptTools(tenants.Deleted(ids[0]), ids[1..], cutoff, t);
      } else {
        SweptTools(tenants.MovedToEnd(ids[0]), ids[1..], cutoff, t);
      }
    }
  }

  lemma PlacedTools(tenants: Tenants, tenant: string, key: Key, x: Sample, t: string)
    requires Bounded(tenants) && t in Placed(tenants, tenant, key, x).at
    ensures
      var now := Placed(tenants, tenant, key, x).at[t];
      if t == tenant then now == KeyRecorded(ToolsAt(tenants, t), key, x) else t in tenants.at && now == tenants.at[t]
  {
    hide KeyRecorded, ToolsBounded;
    TenantAdmittedBounded(tenants, tenant);
  }

  lemma PlacedByUse(tenants: Tenants, ops: seq<Op>, op: Op, key: Key, x: Sample, t: string)
    requires Bounded(tenants) && ByUse(tenants, ops) && Uses(op, op.tenant, key)
    requires t in Placed(tenants, op.tenant, key, x).at
    ensures KeysByUse(Placed(tenants, op.tenant, key, x).at[t], ops + [op], t)
  {
    PlacedTools(tenants, op.tenant, key, x, t);
    var tools := ToolsAt(tenants, t);
    assert ToolsBounded(tools) && KeysByUse(tools, ops, t) by { EmptyBounded(); }
    hide Placed, KeyRecorded, ToolsBounded, Rising, Uses;
    if t == op.tenant {
      RecordKeysByUse(tools, ops, op, t, key, x);
    } else {
      OthersByUse(tenants, ops, op, t);
    }
  }

  lemma RecordDone(s: Store, op: Op, t: string)
    requires op.Record? && Accepted(op.tenant, op.agent, op.m) && t in Done(s, op).tenants.at
    ensures
      var placed := Placed(s.tenants, op.tenant, (op.agent, op.tool), Sample(op.now, op.m.ms));
      t in placed.at && Done(s, op).tenants.at[t] == placed.at[t]
  {
    hide Swept, SweepIds, Placed, Named;
    var placed := Placed(s.tenants, op.tenant, (op.agent, op.tool), Sample(op.now, op.m.ms));
    SweptTools(placed, SweepIds(placed), op.sweepAt - MAX_AGE, t);
  }

  lemma RecordByUse(s: Store, ops: seq<Op>, op: Op)
    requires Bounded(s.tenants) && ByUse(s.tenants, ops) && op.Record? && Accepted(op.tenant, op.agent, op.m)
    ensures ByUse(Done(s, op).tenants, ops + [op])
  {
    hide Bounded, Done, Placed, KeysByUse, Named;
    forall t | t in Done(s, op).tenants.at ensures KeysByUse(Done(s, op).tenants.at[t], ops + [op], t) {
      RecordDone(s, op, t);
      PlacedByUse(s.tenants, ops, op, (op.agent, op.tool), Sample(op.now, op.m.ms), t);
    }
  }

  lemma ReadTools(tenants: Tenants, tenant: string, key: Key, cutoff: real, t: string)
    requires t in Read(tenants, tenant, key, cutoff).at
    ensures t in tenants.at
    ensures
      var now := Read(tenants, tenant, key, cutoff).at[t];
      now == if t == tenant && key in tenants.at[t].at then KeyRead(tenants.at[t], key, cutoff) else tenants.at[t]
  {
    hide KeyRead;
  }

  lemma AverageByUse(s: Store, ops: seq<Op>, op: Op)
    requires Bounded(s.tenants) && ByUse(s.tenants, ops) && op.Average? && Named(op.tenant) && Named(op.agent)
    ensures ByUse(Done(s, op).tenants, ops + [op])
  {
    var key, cutoff := (op.agent, op.tool), op.now - MAX_AGE;
    var next := Done(s, op).tenants;
    assert Uses(op, op.tenant, key);
    hide Bounded, Read, KeyRead, Rising, Named, Uses;
    forall t | t in next.at ensures KeysByUse(next.at[t], ops + [op], t) {
      ReadTools(s.tenants, op.tenant, key, cutoff, t);
      if t != op.tenant {
        OthersByUse(s.tenants, ops, op, t);
      } else if key in s.tenants.at[t].at {
        ReadKeysByUse(s.tenants.at[t], ops, op, t, key, cutoff);
      } else {
        OneKey(op, t, key);
        assert key !in s.tenants.at[t].order by { assert s.tenants.at[t].Valid() by { TenantValid(s.tenants, t); } }
        RisingUnused(s.tenants.at[t].order, ops, op, t);
      }
    }
  }

  lemma TenantValid(tenants: Tenants, t: string)
    requires Bounded(tenants) && t in tenants.at
    ensures tenants.at[t].Valid()
  {}

  lemma DoneByUse(s: Store, ops: seq<Op>, op: Op)
    requires Bounded(s.tenants) && ByUse(s.tenants, ops)
    ensures ByUse(Done(s, op).tenants, ops + [op])
  {
    hide Bounded, ByUse, Recorded, Read, Named;
    if op.Record? && Accepted(op.tenant, op.agent, op.m) {
      RecordByUse(s, ops, op);
    } else if op.Average? && Named(op.tenant) && Named(op.agent) {
      AverageByUse(s, ops, op);
    } else {
      IdleByUse(s.tenants, ops, op);
    }
  }

  lemma IdleByUse(tenants: Tenants, ops: seq<Op>, op: Op)
    requires ByUse(tenants, ops) && forall t, k :: !Uses(op, t, k)
    ensures ByUse(tenants, ops + [op])
  {
    hide Rising, Uses;
    forall t | t in tenants.at ensures KeysByUse(tenants.at[t], ops + [op], t) {
      RisingUnused(tenants.at[t].order, ops, op, t);
    }
  }

  /** In every store a run leaves, the keys of a tenant are in the order of their last record or read. */
  lemma {:induction false} RunByUse(s: Store, past: seq<Op>, ops: seq<Op>)
    requires Bounded(s.tenants) && ByUse(s.tenants, past)
    ensures ByUse(DoneAll(s, ops).tenants, past + ops) && Bounded(DoneAll(s, ops).tenants)
    decreases |ops|
  {
    hide Bounded, ByUse, Done;
    if ops == [] {
      assert past + ops == past;
    } else {
      DoneBounded(s, ops[0]);
      DoneByUse(s, past, ops[0]);
      RunByUse(Done(s, ops[0]), past + [ops[0]], ops[1..]);
      assert past + ops == past + [ops[0]] + ops[1..];
    }
  }

  /** The key the cap pushes out is the tenant's least recently used: in a store a run leaves, it is the one all others
      were recorded or read after. */
  lemma EvictedKeyIsOldest(ops: seq<Op>, t: string, key: Key, x: Sample, gone: Key, other: Key)
    requires
      var s := DoneAll(Store(Empty(), 0), ops);
      && t in s.tenants.at && key !in s.tenants.at[t].at
      && gone in s.tenants.at[t].at && gone !in KeyRecorded(s.tenants.at[t], key, x).at
      && other in s.tenants.at[t].at && other != gone
    ensures
      var s := DoneAll(Store(Empty(), 0), ops);
      |s.tenants.at[t].order| == MAX_KEYS_PER_TENANT && 0 <= LastUse(ops, t, gone) < LastUse(ops, t, other)
  {
    hide DoneAll, LastUse, KeyRecorded;
    var empty: Store := Store(Empty(), 0);
    RunByUse(empty, [], ops);
    assert [] + ops == ops;
    Oldest(DoneAll(empty, ops).tenants, ops, t, key, x, gone, other);
  }

  lemma Oldest(tenants: Tenants, ops: seq<Op>, t: string, key: Key, x: Sample, gone: Key, other: Key)
    requires Bounded(tenants) && ByUse(tenants, ops) && t in tenants.at && key !in tenants.at[t].at
    requires gone in tenants.at[t].at && gone !in KeyRecorded(tenants.at[t], key, x).at
    requires other in tenants.at[t].at && other != gone
    ensures |tenants.at[t].order| == MAX_KEYS_PER_TENANT && 0 <= LastUse(ops, t, gone) < LastUse(ops, t, other)
  {
    hide LastUse, KeyRecorded, ToolsBounded, Rising;
    TenantValid(tenants, t);
    HeadGoes(tenants.at[t], key, x, gone);
    FirstIsOldest(tenants.at[t].order, ops, t, other);
  }

  lemma FirstIsOldest(keys: seq<Key>, ops: seq<Op>, t: string, other: Key)
    requires Rising(keys, ops, t) && other in keys && other != keys[0]
    ensures 0 <= LastUse(ops, t, keys[0]) < LastUse(ops, t, other)
  {
    hide LastUse;
    assert keys == [keys[0]] + keys[1..];
  }

  lemma HeadGoes(tools: Tools, key: Key, x: Sample, gone: Key)
    requires ToolsBounded(tools) && key !in tools.at && gone in tools.at && gone !in KeyRecorded(tools, key, x).at
    ensures |tools.order| == MAX_KEYS_PER_TENANT && tools.order[0] == gone
  {
    FrontStays(tools.order, key);
    hide Appended, SamplesAt, Without;
  }

  // ---------------------------------------------------------------- the tenants

  lemma AdmittedOrder(tenants: Tenants, tenant: string)
    requires Bounded(tenants)
    ensures
      var admitted := TenantAdmitted(tenants, tenant);
      && tenant in admitted.at
      && admitted.order == if tenant in tenants.at then tenants.order
                           else if |tenants.order| == MAX_TENANTS then tenants.order[1..] + [tenant]
                           else tenants.order + [tenant]
  {
    TenantAdmittedBounded(tenants, tenant);
    hide ToolsBounded, Distinct;
    if tenants.order != [] { assert (tenants.order + [tenant])[1..] == tenants.order[1..] + [tenant]; }
  }

  lemma LastStays(s: seq<string>, k: string)
    requires k !in s
    ensures Without(s + [k], k) == s
  {
    WithoutSnoc(s, k);
    WithoutNone(s, k);
  }

  /** A tenant that is recorded for goes to the end, the others keep their order, and the first makes room if
      need be. */
  lemma PlacedOrder(tenants: Tenants, tenant: string, key: Key, x: Sample)
    requires Bounded(tenants)
    ensures Placed(tenants, tenant, key, x).order ==
      if tenant in tenants.at then Without(tenants.order, tenant) + [tenant]
      else if |tenants.order| == MAX_TENANTS then tenants.order[1..] + [tenant]
      else tenants.order + [tenant]
  {
    AdmittedOrder(tenants, tenant);
    assert tenant in tenants.order <==> tenant in tenants.at;
    hide KeyRecorded, Bounded, Without, TenantAdmitted, Distinct;
    if tenant !in tenants.at {
      LastStays(tenants.order, tenant);
      if tenants.order != [] { LastStays(tenants.order[1..], tenant); }
    }
  }

  /** A tenant that is read goes to the end, unless nothing is left of it. */
  lemma ReadOrder(tenants: Tenants, tenant: string, key: Key, cutoff: real)
    requires Bounded(tenants)
    ensures
      var now := Read(tenants, tenant, key, cutoff);
      now.order == if tenant !in tenants.at then tenants.order
                   else if tenant in now.at then Without(tenants.order, tenant) + [tenant]
                   else Without(tenants.order, tenant)
  {
    if tenant in tenants.at {
      WithoutSnoc(Without(tenants.order, tenant), tenant);
      WithoutNone(Without(tenants.order, tenant), tenant);
    }
    hide KeyRead, ToolsBounded, Without;
  }

  /** The tenants of a list that hold something recent. */
  function Recent(tenants: Tenants, ids: seq<string>, cutoff: real): seq<string>
    requires forall k :: k in ids ==> k in tenants.at
  {
    if ids == [] then []
    else (if Reclaimable(tenants.at[ids[0]], cutoff) then [] else [ids[0]]) + Recent(tenants, ids[1..], cutoff)
  }

  lemma {:induction false} RecentSame(a: Tenants, b: Tenants, ids: seq<string>, cutoff: real)
    requires forall k :: k in ids ==> k in a.at && k in b.at && a.at[k] == b.at[k]
    ensures Recent(a, ids, cutoff) == Recent(b, ids, cutoff)
  {
    hide Reclaimable;
    if ids != [] { RecentSame(a, b, ids[1..], cutoff); }
  }

  lemma FirstOnce(s: seq<string>)
    requires Distinct(s) && s != []
    ensures s[0] !in s[1..] && Without(s, s[0]) == s[1..]
  {
    assert forall i :: 0 <= i < |s[1..]| ==> s[1..][i] == s[i + 1];
    WithoutNone(s[1..], s[0]);
  }

  lemma FrontOf(ids: seq<string>, rest: seq<string>)
    requires ids != []
    ensures (ids + rest)[0] == ids[0] && (ids + rest)[1..] == ids[1..] + rest
    ensures ids[0] !in ids[1..] + rest ==> ids[0] !in ids[1..]
    ensures ids[1..] + rest + [ids[0]] == ids[1..] + (rest + [ids[0]])
  {}

  /** What the two steps of a sweep do to the order. */
  lemma FrontStep(tenants: Tenants, ids: seq<string>, rest: seq<string>)
    requires tenants.Valid() && tenants.order == ids + rest && ids != [] && ids[0] in tenants.at
    ensures tenants.Deleted(ids[0]).order == ids[1..] + rest
    ensures tenants.MovedToEnd(ids[0]).order == ids[1..] + (rest + [ids[0]])
    ensures ids[0] !in ids[1..]
  {
    FirstOnce(tenants.order);
    hide Distinct, Without;
    FrontOf(ids, rest);
  }

  /** A sweep of the front of the order moves what it keeps behind the rest, in the same order: for the cap on tenants,
      being kept by a sweep is as good as being used. */
  lemma {:induction false} SweptOrder(tenants: Tenants, ids: seq<string>, rest: seq<string>, cutoff: real)
    requires tenants.Valid() && tenants.order == ids + rest && (forall k :: k in ids ==> k in tenants.at)
    ensures Swept(tenants, ids, cutoff).order == rest + Recent(tenants, ids, cutoff)
    decreases |ids|
  {
    hide Reclaimable, Swept, Recent, Without, Distinct;
    if ids == [] {
      SweptNothing(tenants, cutoff);
    } else {
      FrontStep(tenants, ids, rest);
      var less, moved := tenants.Deleted(ids[0]), tenants.MovedToEnd(ids[0]);
      assert less.Valid() && moved.Valid();
      assert forall k :: k in ids[1..] ==> k in ids;
      if Reclaimable(tenants.at[ids[0]], cutoff) {
        SweptOrder(less, ids[1..], rest, cutoff);
        SweptDropped(tenants, ids, cutoff);
      } else {
        SweptOrder(moved, ids[1..], rest + [ids[0]], cutoff);
        SweptMoved(tenants, ids, cutoff);
        Regroup(rest, ids[0], Recent(moved, ids[1..], cutoff));
      }
    }
  }

  lemma Regroup(rest: seq<string>, id: string, more: seq<string>)
    ensures rest + [id] + more == rest + ([id] + more)
  {}

  lemma SweptNothing(tenants: Tenants, cutoff: real)
    ensures Swept(tenants, [], cutoff) == tenants && Recent(tenants, [], cutoff) == []
  {}

  lemma SweptDropped(tenants: Tenants, ids: seq<string>, cutoff: real)
    requires ids != [] && ids[0] !in ids[1..] && (forall k :: k in ids ==> k in tenants.at)
    requires Reclaimable(tenants.at[ids[0]], cutoff)
    ensures Swept(tenants, ids, cutoff) == Swept(tenants.Deleted(ids[0]), ids[1..], cutoff)
    ensures forall k :: k in ids[1..] ==> k in tenants.Deleted(ids[0]).at
    ensures Recent(tenants, ids, cutoff) == Recent(tenants.Deleted(ids[0]), ids[1..], cutoff)
  {
    hide Reclaimable, Without;
    RecentSame(tenants, tenants.Deleted(ids[0]), ids[1..], cutoff);
  }

  lemma SweptMoved(tenants: Tenants, ids: seq<string>, cutoff: real)
    requires ids != [] && (forall k :: k in ids ==> k in tenants.at)
    requires !Reclaimable(tenants.at[ids[0]], cutoff)
    ensures Swept(tenants, ids, cutoff) == Swept(tenants.MovedToEnd(ids[0]), ids[1..], cutoff)
    ensures forall k :: k in ids[1..] ==> k in tenants.at
    ensures Recent(tenants, ids, cutoff) == [ids[0]] + Recent(tenants.MovedToEnd(ids[0]), ids[1..], cutoff)
  {
    hide Reclaimable, Without;
    RecentSame(tenants, tenants.MovedToEnd(ids[0]), ids[1..], cutoff);
  }
}
