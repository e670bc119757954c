/**
 The rolling window of tool-call durations: a bounded deque per (agent, tool), at most so many of those per
 tenant, at most so many tenants, least recently used out first, old samples dropped on read and by a sweep.
 */
module ToolLatency {
  import opened OrderedDicts
  import opened Sets
  import opened Text

  const WINDOW: nat := 50
  const MIN_SAMPLES: nat := 3
  const MAX_AGE: real := 900.0
  const MAX_KEYS_PER_TENANT: nat := 200
  const SWEEP_EVERY: nat := 64
  const SWEEP_SCAN: nat := 32
  const MAX_TENANTS: nat := 2000

  datatype Sample = Sample(at: real, ms: real)

  /** (agent, tool) */
  type Key = (string, string)

  type Samples = seq<Sample>
  type Tools = Ordered<Key, Samples>
  type Tenants = Ordered<string, Tools>

  datatype Store = Store(tenants: Tenants, recorded: nat)

  datatype Measure = Finite(ms: real) | NotFinite

  /** An id that is there and not only white space. */
  predicate Named(id: string) { Strip(id) != [] }

  predicate Accepted(tenant: string, agent: string, m: Measure) {
    Named(tenant) && Named(agent) && m.Finite? && m.ms > 0.0
  }

  // ---------------------------------------------------------------- what each operation does

  /** Appending to a deque that keeps only the newest samples. */
  function Appended(d: Samples, x: Sample): Samples {
    if |d| < WINDOW then d + [x] else d[|d| + 1 - WINDOW..] + [x]
  }

  function SamplesAt(tools: Tools, key: Key): Samples { if key in tools.at then tools.at[key] else [] }

  function ToolsAt(tenants: Tenants, tenant: string): Tools { if tenant in tenants.at then tenants.at[tenant]
      else Empty() }

  function KeyRecorded(tools: Tools, key: Key, x: Sample): Tools {
    var grown := tools.Put(key, Appended(SamplesAt(tools, key), x)).MovedToEnd(key);
    if |grown.order| > MAX_KEYS_PER_TENANT then grown.PopFirst() else grown
  }

  /** The outer map after a tenant is looked up for a record, made room for if it is new. */
  function TenantAdmitted(tenants: Tenants, tenant: string): Tenants {
    var grown := if tenant in tenants.at then tenants else tenants.Put(tenant, Empty());
    if tenant !in tenants.at && |grown.order| > MAX_TENANTS then grown.PopFirst() else grown
  }

  predicate Reclaimable(tools: Tools, cutoff: real) {
    forall k :: k in tools.at ==> tools.at[k] == [] || tools.at[k][|tools.at[k]| - 1].at < cutoff
  }

  /** One sweep over the given tenants: those with nothing recent are dropped, the others go to the end. */
  function Swept(tenants: Tenants, ids: seq<string>, cutoff: real): Tenants
    decreases |ids|
  {
    if ids == [] then tenants
    else if ids[0] !in tenants.at then Swept(tenants, ids[1..], cutoff)
    else if Reclaimable(tenants.at[ids[0]], cutoff) then Swept(tenants.Deleted(ids[0]), ids[1..], cutoff)
    else Swept(tenants.MovedToEnd(ids[0]), ids[1..], cutoff)
  }

  function SweepIds(tenants: Tenants): seq<string> {
    if |tenants.order| <= SWEEP_SCAN then tenants.order else tenants.order[..SWEEP_SCAN]
  }

  function Placed(tenants: Tenants, tenant: string, key: Key, x: Sample): Tenants {
    var admitted := TenantAdmitted(tenants, tenant);
    if tenant !in admitted.at then admitted
    else admitted.MovedToEnd(tenant).Put(tenant, KeyRecorded(admitted.at[tenant], key, x))
  }

  function Recorded(s: Store, tenant: string, key: Key, x: Sample, sweepAt: real): Store {
    var placed := Placed(s.tenants, tenant, key, x);
    if (s.recorded + 1) % SWEEP_EVERY == 0
    then Store(Swept(placed, SweepIds(placed), sweepAt - MAX_AGE), s.recorded + 1)
    else Store(placed, s.recorded + 1)
  }

  /** Dropping old samples from the front. */
  function AgedOut(d: Samples, cutoff: real): Samples {
    if d != [] && d[0].at < cutoff then AgedOut(d[1..], cutoff) else d
  }

  function Sum(d: Samples): real { if d == [] then 0.0 else d[0].ms + Sum(d[1..]) }

  function Mean(d: Samples): Option<real> {
    if |d| < MIN_SAMPLES then None else Some(Sum(d) / |d| as real)
  }

  /** One key after an average is read: it goes to the end, its old samples go, and it goes with the last. */
  function KeyRead(tools: Tools, key: Key, cutoff: real): Tools
    requires key in tools.at
  {
    var kept := AgedOut(tools.at[key], cutoff);
    if kept == [] then tools.MovedToEnd(key).Deleted(key) else tools.MovedToEnd(key).Put(key, kept)
  }

  /** The outer map after an average is read: the tenant goes to the end, or goes if no key is left to it. */
  function Read(tenants: Tenants, tenant: string, key: Key, cutoff: real): Tenants {
    if tenant !in tenants.at then tenants
    else
      var touched := tenants.MovedToEnd(tenant);
      if key !in tenants.at[tenant].at then touched
      else
        var left := KeyRead(tenants.at[tenant], key, cutoff);
        if left.at == map[] then touched.Deleted(tenant) else touched.Put(tenant, left)
  }

  function Averaged(tenants: Tenants, tenant: string, key: Key, cutoff: real): Option<real> {
    Mean(AgedOut(SamplesAt(ToolsAt(tenants, tenant), key), cutoff))
  }

  // ---------------------------------------------------------------- the size bounds

  ghost predicate ToolsBounded(tools: Tools) {
    && tools.Valid() && |tools.order| <= MAX_KEYS_PER_TENANT
    && forall k :: k in tools.at ==> 1 <= |tools.at[k]| <= WINDOW
  }

  ghost predicate Bounded(tenants: Tenants) {
    && tenants.Valid() && |tenants.order| <= MAX_TENANTS
    && forall t :: t in tenants.at ==> ToolsBounded(tenants.at[t])
  }

  lemma PoppedBounded(tools: Tools)
    requires tools.Valid() && 1 < |tools.order| <= MAX_KEYS_PER_TENANT + 1
    requires forall k :: k in tools.at ==> 1 <= |tools.at[k]| <= WINDOW
    ensures ToolsBounded(tools.PopFirst()) && tools.order[|tools.order| - 1] in tools.PopFirst().at
  {
    assert tools.order[0] != tools.order[|tools.order| - 1];
    assert tools.order[|tools.order| - 1] in tools.at;
  }

  lemma KeyRecordedBounded(tools: Tools, key: Key, x: Sample)
    requires ToolsBounded(tools)
    ensures ToolsBounded(KeyRecorded(tools, key, x))
    ensures key in KeyRecorded(tools, key, x).at
  {
    var d := Appended(SamplesAt(tools, key), x);
    assert 1 <= |d| <= WINDOW;
    hide Appended, SamplesAt, Without;
    var grown := tools.Put(key, d).MovedToEnd(key);
    if |grown.order| > MAX_KEYS_PER_TENANT {
      PoppedBounded(grown);
    }
  }

  lemma TenantAdmittedBounded(tenants: Tenants, tenant: string)
    requires Bounded(tenants)
    ensures Bounded(TenantAdmitted(tenants, tenant)) && tenant in TenantAdmitted(tenants, tenant).at
  {
    hide ToolsBounded;
    assert ToolsBounded(Empty()) by { EmptyBounded(); }
  }

  lemma EmptyBounded()
    ensures ToolsBounded(Empty())
  {
  }

  lemma PlacedBounded(tenants: Tenants, tenant: string, key: Key, x: Sample)
    requires Bounded(tenants)
    ensures Bounded(Placed(tenants, tenant, key, x))
  {
    hide ToolsBounded, TenantAdmitted, KeyRecorded;
    TenantAdmittedBounded(tenants, tenant);
    KeyRecordedBounded(TenantAdmitted(tenants, tenant).at[tenant], key, x);
  }

  lemma {:induction false} SweptBounded(tenants: Tenants, ids: seq<string>, cutoff: real)
    requires Bounded(tenants)
    ensures Bounded(Swept(tenants, ids, cutoff))
    decreases |ids|
  {
    hide ToolsBounded, Reclaimable;
    if ids != [] {
      if ids[0] !in tenants.at {
        SweptBounded(tenants, ids[1..], cutoff);
      } else if Reclaimable(tenants.at[ids[0]], cutoff) {
        SweptBounded(tenants.Deleted(ids[0]), ids[1..], cutoff);
      } else {
        SweptBounded(tenants.MovedToEnd(ids[0]), ids[1..], cutoff);
      }
    }
  }

  /** Every bound survives a record. */
  lemma RecordedBounded(s: Store, tenant: string, key: Key, x: Sample, sweepAt: real)
    requires Bounded(s.tenants)
    ensures Bounded(Recorded(s, tenant, key, x, sweepAt).tenants)
  {
    hide Bounded, Placed, Swept;
    PlacedBounded(s.tenants, tenant, key, x);
    var placed := Placed(s.tenants, tenant, key, x);
    SweptBounded(placed, SweepIds(placed), sweepAt - MAX_AGE);
  }

  lemma {:induction false} AgedOutSuffix(d: Samples, cutoff: real)
    ensures |AgedOut(d, cutoff)| <= |d| && AgedOut(d, cutoff) == d[|d| - |AgedOut(d, cutoff)|..]
    ensures forall i :: 0 <= i < |d| - |AgedOut(d, cutoff)| ==> d[i].at < cutoff
  {
    if d != [] && d[0].at < cutoff {
      AgedOutSuffix(d[1..], cutoff);
    }
  }

  lemma KeyReadBounded(tools: Tools, key: Key, cutoff: real)
    requires ToolsBounded(tools) && key in tools.at
    ensures ToolsBounded(KeyRead(tools, key, cutoff))
  {
    hide AgedOut;
    AgedOutSuffix(tools.at[key], cutoff);
  }

  /** Every bound survives a read. */
  lemma ReadBounded(tenants: Tenants, tenant: string, key: Key, cutoff: real)
    requires Bounded(tenants)
    ensures Bounded(Read(tenants, tenant, key, cutoff))
  {
    hide ToolsBounded, KeyRead;
    if tenant in tenants.at && key in tenants.at[tenant].at {
      KeyReadBounded(tenants.at[tenant], key, cutoff);
    }
  }

  // ---------------------------------------------------------------- the simple log

  datatype Op =
    | Record(tenant: string, agent: string, tool: string, m: Measure, now: real, sweepAt: real)
    | Average(tenant: string, agent: string, tool: string, now: real)

  function Done(s: Store, op: Op): Store {
    match op
    case Record(tenant, agent, tool, m, now, sweepAt) =>
      if Accepted(tenant, agent, m) then Recorded(s, tenant, (agent, tool), Sample(now, m.ms), sweepAt) else s
    case Average(tenant, agent, tool, now) =>
      if Named(tenant) && Named(agent) then s.(tenants := Read(s.tenants, tenant, (agent, tool), now - MAX_AGE)) else s
  }

  function DoneAll(s: Store, ops: seq<Op>): Store
    decreases |ops|
  {
    if ops == [] then s else DoneAll(Done(s, ops[0]), ops[1..])
  }

  function Told(s: Store, tenant: string, agent: string, tool: string, now: real): Option<real> {
    if Named(tenant) && Named(agent) then Averaged(s.tenants, tenant, (agent, tool), now - MAX_AGE) else None
  }

  function EndOf(op: Op): real { if op.Record? then op.sweepAt else op.now }

  ghost predicate InOrder(from: real, ops: seq<Op>)
    decreases |ops|
  {
    ops != [] ==> from <= ops[0].now <= EndOf(ops[0]) && InOrder(EndOf(ops[0]), ops[1..])
  }

  function EndOfAll(from: real, ops: seq<Op>): real
    decreases |ops|
  {
    if ops == [] then from else EndOfAll(EndOf(ops[0]), ops[1..])
  }

  /** The sample an operation adds to the log of a key, if it does. */
  function Counted(op: Op, tenant: string, key: Key): seq<Sample> {
    if op.Record? && op.tenant == tenant && (op.agent, op.tool) == key && Accepted(op.tenant, op.agent, op.m)
    then [Sample(op.now, op.m.ms)] else []
  }

  /** Every accepted sample of one key over a run, kept for ever. */
  function Log(ops: seq<Op>, tenant: string, key: Key): seq<Sample>
    decreases |ops|
  {
    if ops == [] then []
    else Counted(ops[0], tenant, key) + Log(ops[1..], tenant, key)
  }

  /** Whether an operation pushes the key out by one of the two least-recently-used caps. */
  ghost predicate Evicts(s: Store, op: Op, tenant: string, key: Key) {
    && op.Record? && Accepted(op.tenant, op.agent, op.m)
    && (|| (op.tenant !in s.tenants.at && |s.tenants.order| >= MAX_TENANTS && s.tenants.order[0] == tenant)
        || (op.tenant == tenant && tenant in s.tenants.at && (op.agent, op.tool) !in s.tenants.at[tenant].at
            && |s.tenants.at[tenant].order| >= MAX_KEYS_PER_TENANT && s.tenants.at[tenant].order[0] == key))
  }

  ghost predicate NeverEvicted(s: Store, ops: seq<Op>, tenant: string, key: Key)
    decreases |ops|
  {
    ops != [] ==> !Evicts(s, ops[0], tenant, key) && NeverEvicted(Done(s, ops[0]), ops[1..], tenant, key)
  }

  /** The samples of a window that are not too old. */
  function Kept(w: Samples, cutoff: real): Samples {
    if w == [] then []
    else (if w[0].at < cutoff then [] else [w[0]]) + Kept(w[1..], cutoff)
  }

  function WindowStart(log: Samples): nat { if |log| < WINDOW then 0 else |log| - WINDOW }

  /** What the store is to answer: the mean of the newest samples, those too old left out. */
  function Reference(log: Samples, now: real): Option<real> {
    Mean(Kept(log[WindowStart(log)..], now - MAX_AGE))
  }

  // ---------------------------------------------------------------- how a deque follows its log

  function Deque(tenants: Tenants, tenant: string, key: Key): Samples { SamplesAt(ToolsAt(tenants, tenant), key) }

  ghost predicate Sorted(log: Samples) { forall i, j :: 0 <= i < j < |log| ==> log[i].at <= log[j].at }

  /** A deque holds the newest samples of its log, lacking only ones that are too old or out of the window. */
  ghost predicate Follows(d: Samples, log: Samples, now: real) {
    && Sorted(log) && (log != [] ==> log[|log| - 1].at <= now)
    && |d| <= |log| && |d| <= WINDOW && d == log[|log| - |d|..]
    && forall i :: WindowStart(log) <= i < |log| - |d| ==> log[i].at < now - MAX_AGE
  }

  lemma FollowsLater(d: Samples, log: Samples, now: real, later: real)
    requires Follows(d, log, now) && now <= later
    ensures Follows(d, log, later)
  {
  }

  lemma FollowsAppended(d: Samples, log: Samples, x: Sample)
    requires Follows(d, log, x.at)
    ensures Follows(Appended(d, x), log + [x], x.at)
  {
    var e, grown := Appended(d, x), log + [x];
    assert grown[|grown| - 1] == x;
    forall i | 0 <= i < |e| ensures e[i] == grown[|grown| - |e| + i] {
    }
    forall i | WindowStart(grown) <= i < |grown| - |e| ensures grown[i].at < x.at - MAX_AGE {
      assert grown[i] == log[i];
    }
  }

  /** Losing only samples that are too old. */
  lemma FollowsDropped(d: Samples, e: Samples, log: Samples, now: real, cutoff: real)
    requires Follows(d, log, now) && cutoff <= now - MAX_AGE
    requires |e| <= |d| && e == d[|d| - |e|..]
    requires forall i :: 0 <= i < |d| - |e| ==> d[i].at < cutoff
    ensures Follows(e, log, now)
  {
    forall i | WindowStart(log) <= i < |log| - |e| ensures log[i].at < now - MAX_AGE {
      if i >= |log| - |d| {
        assert log[i] == d[i - (|log| - |d|)];
      }
    }
  }

  lemma {:induction false} KeptSplit(a: Samples, b: Samples, cutoff: real)
    requires forall i :: 0 <= i < |a| ==> a[i].at < cutoff
    ensures Kept(a + b, cutoff) == Kept(b, cutoff)
  {
    if a == [] {
      assert a + b == b;
    } else {
      assert (a + b)[1..] == a[1..] + b;
      KeptSplit(a[1..], b, cutoff);
    }
  }

  lemma {:induction false} KeptAll(d: Samples, cutoff: real)
    requires forall i :: 0 <= i < |d| ==> d[i].at >= cutoff
    ensures Kept(d, cutoff) == d
  {
    if d != [] {
      KeptAll(d[1..], cutoff);
    }
  }

  /** In time order the old samples are all at the front, so dropping from the front drops them all. */
  lemma {:induction false} AgedOutIsKept(d: Samples, cutoff: real)
    requires Sorted(d)
    ensures AgedOut(d, cutoff) == Kept(d, cutoff)
  {
    if d != [] && d[0].at < cutoff {
      AgedOutIsKept(d[1..], cutoff);
    } else {
      KeptAll(d, cutoff);
    }
  }

  /** The window of a log is what the deque lost, all too old, and then the deque. */
  lemma WindowSplit(d: Samples, log: Samples, now: real) returns (lost: Samples)
    requires Follows(d, log, now)
    ensures log[WindowStart(log)..] == lost + d
    ensures forall i :: 0 <= i < |lost| ==> lost[i].at < now - MAX_AGE
  {
    var start, end := WindowStart(log), |log| - |d|;
    lost := log[start..end];
    assert log[start..] == log[start..end] + log[end..];
  }

  /** A deque that follows its log gives the reference answer. */
  lemma FollowsAnswer(d: Samples, log: Samples, now: real)
    requires Follows(d, log, now)
    ensures Mean(AgedOut(d, now - MAX_AGE)) == Reference(log, now)
  {
    assert Sorted(d) by {
      assert forall i :: 0 <= i < |d| ==> d[i] == log[|log| - |d| + i];
    }
    hide Follows, Sorted, AgedOut, Kept, Mean;
    AgedOutIsKept(d, now - MAX_AGE);
    var lost := WindowSplit(d, log, now);
    KeptSplit(lost, d, now - MAX_AGE);
  }

  // ---------------------------------------------------------------- what each operation does to one deque

  lemma KeyRecordedDeque(tools: Tools, key: Key, x: Sample, other: Key)
    requires ToolsBounded(tools)
    requires !(key !in tools.at && |tools.order| >= MAX_KEYS_PER_TENANT && tools.order[0] == other)
    ensures SamplesAt(KeyRecorded(tools, key, x), other) ==
      if other == key then Appended(SamplesAt(tools, key), x) else SamplesAt(tools, other)
  {
    hide Appended;
    var put := tools.Put(key, Appended(SamplesAt(tools, key), x));
    var grown := put.MovedToEnd(key);
    if |grown.order| > MAX_KEYS_PER_TENANT {
      assert key !in tools.order && put.order == tools.order + [key];
      FrontStays(tools.order, key);
      assert grown.order[0] == tools.order[0];
    }
  }

  lemma {:induction false} WithoutNone<K(!new)>(s: seq<K>, k: K)
    requires k !in s
    ensures Without(s, k) == s
  {
    if s != [] {
      WithoutNone(s[1..], k);
    }
  }

  /** Moving the key just added at the end to the end changes nothing. */
  lemma FrontStays<K(!new)>(s: seq<K>, k: K)
    requires k !in s
    ensures Without(s + [k], k) + [k] == s + [k]
  {
    WithoutSnoc(s, k);
    WithoutNone(s, k);
  }

  lemma {:induction false} WithoutSnoc<K(!new)>(s: seq<K>, k: K)
    ensures Without(s + [k], k) == Without(s, k)
  {
    if s != [] {
      assert (s + [k])[1..] == s[1..] + [k];
      WithoutSnoc(s[1..], k);
    }
  }

  lemma PlacedDeque(tenants: Tenants, tenant: string, key: Key, x: Sample, t: string, k: Key)
    requires Bounded(tenants)
    requires !(tenant !in tenants.at && |tenants.order| >= MAX_TENANTS && tenants.order[0] == t)
    requires !(tenant == t && t in tenants.at && key !in tenants.at[t].at
               && |tenants.at[t].order| >= MAX_KEYS_PER_TENANT && tenants.at[t].order[0] == k)
    ensures Deque(Placed(tenants, tenant, key, x), t, k) ==
      if tenant == t && key == k then Appended(Deque(tenants, t, k), x) else Deque(tenants, t, k)
  {
    hide KeyRecorded, Appended, ToolsBounded;
    TenantAdmittedBounded(tenants, tenant);
    var admitted := TenantAdmitted(tenants, tenant);
    assert ToolsAt(admitted, t) == ToolsAt(tenants, t);
    if tenant == t {
      EmptyBounded();
      assert ToolsAt(tenants, t).order == [] || t in tenants.at;
      KeyRecordedDeque(ToolsAt(tenants, t), key, x, k);
    }
  }

  /** A sweep leaves a deque alone, or drops it when its newest sample is too old. */
  lemma {:induction false} SweptDeque(tenants: Tenants, ids: seq<string>, cutoff: real, t: string, k: Key)
    ensures
      var d := Deque(tenants, t, k);
      var e := Deque(Swept(tenants, ids, cutoff), t, k);
      e == d || (e == [] && d != [] && d[|d| - 1].at < cutoff)
    decreases |ids|
  {
    if ids != [] {
      if ids[0] !in tenants.at {
        SweptDeque(tenants, ids[1..], cutoff, t, k);
      } else if Reclaimable(tenants.at[ids[0]], cutoff) {
        SweptDeque(tenants.Deleted(ids[0]), ids[1..], cutoff, t, k);
      } else {
        hide Reclaimable;
        SweptDeque(tenants.MovedToEnd(ids[0]), ids[1..], cutoff, t, k);
      }
    }
  }

  lemma ReadDeque(tenants: Tenants, tenant: string, key: Key, cutoff: real, t: string, k: Key)
    ensures Deque(Read(tenants, tenant, key, cutoff), t, k) ==
      if tenant == t && key == k then AgedOut(Deque(tenants, t, k), cutoff) else Deque(tenants, t, k)
  {
    hide AgedOut;
    if tenant in tenants.at && key in tenants.at[tenant].at && tenant == t {
      var left := KeyRead(tenants.at[tenant], key, cutoff);
      assert k in left.at ==> left.at != map[];
      assert SamplesAt(left, k) == if key == k then AgedOut(Deque(tenants, t, k), cutoff) else Deque(tenants, t, k);
      assert Deque(Read(tenants, tenant, key, cutoff), t, k) == SamplesAt(left, k);
    } else {
      assert AgedOut([], cutoff) == [] by { AgedOutSuffix([], cutoff); }
    }
  }

  // ---------------------------------------------------------------- agreement over every run

  lemma RecordFollows(s: Store, op: Op, t: string, k: Key, log: Samples)
    requires Bounded(s.tenants) && op.Record? && Accepted(op.tenant, op.agent, op.m) && op.now <= op.sweepAt
    requires !Evicts(s, op, t, k) && Follows(Deque(s.tenants, t, k), log, op.now)
    ensures Follows(Deque(Done(s, op).tenants, t, k), log + Counted(op, t, k), op.sweepAt)
  {
    hide Bounded, Placed, Swept, Follows, Appended, Deque, Named;
    var key, x := (op.agent, op.tool), Sample(op.now, op.m.ms);
    var placed := Placed(s.tenants, op.tenant, key, x);
    var d, e, grown := Deque(s.tenants, t, k), Deque(placed, t, k), log + Counted(op, t, k);
    PlacedDeque(s.tenants, op.tenant, key, x, t, k);
    if op.tenant == t && key == k {
      FollowsAppended(d, log, x);
      assert grown == log + [x];
    } else {
      assert grown == log;
    }
    FollowsLater(e, grown, op.now, op.sweepAt);
    SweptFollows(placed, op.sweepAt, t, k, grown);
  }

  lemma SweptFollows(tenants: Tenants, now: real, t: string, k: Key, log: Samples)
    requires Follows(Deque(tenants, t, k), log, now)
    ensures Follows(Deque(Swept(tenants, SweepIds(tenants), now - MAX_AGE), t, k), log, now)
  {
    var cutoff := now - MAX_AGE;
    SweptDeque(tenants, SweepIds(tenants), cutoff, t, k);
    hide Swept, SweepIds;
    var d, e := Deque(tenants, t, k), Deque(Swept(tenants, SweepIds(tenants), cutoff), t, k);
    if e != d {
      assert forall i :: 0 <= i < |d| ==> d[i] == log[|log| - |d| + i];
      assert forall i :: 0 <= i < |d| - 1 ==> d[i].at <= d[|d| - 1].at;
      FollowsDropped(d, [], log, now, cutoff);
    }
  }

  lemma AverageFollows(tenants: Tenants, tenant: string, key: Key, now: real, t: string, k: Key, log: Samples)
    requires Follows(Deque(tenants, t, k), log, now)
    ensures Follows(Deque(Read(tenants, tenant, key, now - MAX_AGE), t, k), log, now)
  {
    hide Read, Deque, AgedOut, Follows;
    var d := Deque(tenants, t, k);
    ReadDeque(tenants, tenant, key, now - MAX_AGE, t, k);
    AgedOutSuffix(d, now - MAX_AGE);
    FollowsDropped(d, AgedOut(d, now - MAX_AGE), log, now, now - MAX_AGE);
  }

  lemma DoneBounded(s: Store, op: Op)
    requires Bounded(s.tenants)
    ensures Bounded(Done(s, op).tenants)
  {
    hide Bounded, Read, Recorded, Named;
    match op {
      case Record(tenant, agent, tool, m, now, sweepAt) =>
        if Accepted(tenant, agent, m) {
          RecordedBounded(s, tenant, (agent, tool), Sample(now, m.ms), sweepAt);
        }
      case Average(tenant, agent, tool, now) =>
        ReadBounded(s.tenants, tenant, (agent, tool), now - MAX_AGE);
    }
  }

  lemma DoneFollows(s: Store, op: Op, t: string, k: Key, log: Samples, from: real)
    requires Bounded(s.tenants) && from <= op.now <= EndOf(op)
    requires !Evicts(s, op, t, k) && Follows(Deque(s.tenants, t, k), log, from)
    ensures Follows(Deque(Done(s, op).tenants, t, k), log + Counted(op, t, k), EndOf(op))
  {
    hide Bounded, Read, Recorded, Deque, Evicts, Follows, Named;
    var d := Deque(s.tenants, t, k);
    FollowsLater(d, log, from, op.now);
    if op.Record? && Accepted(op.tenant, op.agent, op.m) {
      RecordFollows(s, op, t, k, log);
    } else {
      assert log + Counted(op, t, k) == log;
      if op.Average? && Named(op.tenant) && Named(op.agent) {
        AverageFollows(s.tenants, op.tenant, (op.agent, op.tool), op.now, t, k, log);
      } else {
        FollowsLater(d, log, op.now, EndOf(op));
      }
    }
  }

  lemma {:induction false} RunFollows(s: Store, ops: seq<Op>, t: string, k: Key, log: Samples, from: real)
    requires Bounded(s.tenants) && InOrder(from, ops) && NeverEvicted(s, ops, t, k)
    requires Follows(Deque(s.tenants, t, k), log, from)
    ensures Bounded(DoneAll(s, ops).tenants)
    ensures Follows(Deque(DoneAll(s, ops).tenants, t, k), log + Log(ops, t, k), EndOfAll(from, ops))
    decreases |ops|
  {
    hide Bounded, Follows, Deque, Evicts, Done, Counted;
    if ops == [] {
      assert log + [] == log;
    } else {
      var op := ops[0];
      DoneBounded(s, op);
      DoneFollows(s, op, t, k, log, from);
      var one := Counted(op, t, k);
      RunFollows(Done(s, op), ops[1..], t, k, log + one, EndOf(op));
      assert log + one + Log(ops[1..], t, k) == log + Log(ops, t, k);
    }
  }

  /** The fast store against the simple log. From any store that does not hold the key, over any run in which
      neither cap pushes the key out, the average equals the mean of the newest 50 accepted samples no older
      than 15 minutes, and is none below three of them. Age-out, sweeps and all other traffic are invisible. */
  lemma AverageIsReference(s: Store, ops: seq<Op>, tenant: string, agent: string, tool: string, from: real, now: real)
    requires Bounded(s.tenants) && Deque(s.tenants, tenant, (agent, tool)) == []
    requires InOrder(from, ops) && EndOfAll(from, ops) <= now && NeverEvicted(s, ops, tenant, (agent, tool))
    requires Named(tenant) && Named(agent)
    ensures Told(DoneAll(s, ops), tenant, agent, tool, now) == Reference(Log(ops, tenant, (agent, tool)), now)
  {
    hide Log, DoneAll, NeverEvicted, InOrder, EndOfAll, Reference, Mean, AgedOut, Bounded;
    var key, log := (agent, tool), Log(ops, tenant, (agent, tool));
    RunFollows(s, ops, tenant, key, [], from);
    assert [] + log == log;
    var d := Deque(DoneAll(s, ops).tenants, tenant, key);
    FollowsLater(d, log, EndOfAll(from, ops), now);
    FollowsAnswer(d, log, now);
  }

  /** All three size bounds hold at every point of every run from an empty store. */
  lemma {:induction false} RunBounded(s: Store, ops: seq<Op>)
    requires Bounded(s.tenants)
    ensures Bounded(DoneAll(s, ops).tenants)
    decreases |ops|
  {
    hide Bounded, Done;
    if ops != [] {
      DoneBounded(s, ops[0]);
      RunBounded(Done(s, ops[0]), ops[1..]);
    }
  }

  // ---------------------------------------------------------------- other tenants do not matter

  /** Samples in time order, none from the future. */
  ghost predicate InTime(d: Samples, now: real) { Sorted(d) && forall i :: 0 <= i < |d| ==> d[i].at <= now }

  lemma KeyRecordedAny(tools: Tools, key: Key, x: Sample, other: Key)
    requires ToolsBounded(tools)
    ensures
      var d, e := SamplesAt(tools, other), SamplesAt(KeyRecorded(tools, key, x), other);
      e == [] || e == if other == key then Appended(d, x) else d
  {
    hide Appended, Without;
  }

  lemma PlacedAny(tenants: Tenants, tenant: string, key: Key, x: Sample, t: string, k: Key)
    requires Bounded(tenants)
    ensures
      var d, e := Deque(tenants, t, k), Deque(Placed(tenants, tenant, key, x), t, k);
      e == [] || e == d || e == Appended(d, x)
  {
    hide KeyRecorded, Appended, ToolsBounded;
    TenantAdmittedBounded(tenants, tenant);
    var admitted := TenantAdmitted(tenants, tenant);
    assert ToolsAt(admitted, t) == ToolsAt(tenants, t) || ToolsAt(admitted, t) == Empty();
    assert ToolsBounded(admitted.at[tenant]);
    if tenant == t {
      assert ToolsAt(admitted, t) == ToolsAt(tenants, t);
      KeyRecordedAny(ToolsAt(admitted, t), key, x, k);
    }
  }

  lemma AppendedInTime(d: Samples, x: Sample, now: real)
    requires InTime(d, now) && now <= x.at
    ensures InTime(Appended(d, x), x.at)
  {
    var e := Appended(d, x);
    assert forall i :: 0 <= i < |e| - 1 ==> e[i] == d[|d| + 1 - |e| + i];
  }

  lemma SuffixInTime(d: Samples, cutoff: real, now: real)
    requires InTime(d, now)
    ensures InTime(AgedOut(d, cutoff), now)
  {
    AgedOutSuffix(d, cutoff);
  }

  lemma DoneInTime(s: Store, op: Op, t: string, k: Key, from: real)
    requires Bounded(s.tenants) && from <= op.now <= EndOf(op) && InTime(Deque(s.tenants, t, k), from)
    ensures InTime(Deque(Done(s, op).tenants, t, k), EndOf(op))
  {
    var d := Deque(s.tenants, t, k);
    hide Bounded, Placed, Swept, Read, Deque, AgedOut, Appended, Named, SweepIds;
    match op {
      case Record(tenant, agent, tool, m, now, sweepAt) =>
        if Accepted(tenant, agent, m) {
          var x := Sample(now, m.ms);
          var placed := Placed(s.tenants, tenant, (agent, tool), x);
          PlacedAny(s.tenants, tenant, (agent, tool), x, t, k);
          SweptDeque(placed, SweepIds(placed), sweepAt - MAX_AGE, t, k);
          AppendedInTime(d, x, from);
        }
      case Average(tenant, agent, tool, now) =>
        ReadDeque(s.tenants, tenant, (agent, tool), now - MAX_AGE, t, k);
        SuffixInTime(d, now - MAX_AGE, from);
    }
  }

  /** Every deque of every run is in time order. */
  lemma {:induction false} RunInTime(s: Store, ops: seq<Op>, t: string, k: Key, from: real)
    requires Bounded(s.tenants) && InOrder(from, ops) && InTime(Deque(s.tenants, t, k), from)
    ensures InTime(Deque(DoneAll(s, ops).tenants, t, k), EndOfAll(from, ops))
    decreases |ops|
  {
    hide Bounded, Deque, Done, InTime;
    if ops != [] {
      DoneBounded(s, ops[0]);
      DoneInTime(s, ops[0], t, k, from);
      RunInTime(Done(s, ops[0]), ops[1..], t, k, EndOf(ops[0]));
    }
  }

  /** The store knows no tenants but these. */
  ghost predicate KnowsOnly(s: Store, known: set<string>) { s.tenants.at.Keys <= known }

  lemma {:induction false} SweptKeys(tenants: Tenants, ids: seq<string>, cutoff: real)
    ensures Swept(tenants, ids, cutoff).at.Keys <= tenants.at.Keys
    decreases |ids|
  {
    hide Reclaimable;
    if ids != [] {
      if ids[0] !in tenants.at {
        SweptKeys(tenants, ids[1..], cutoff);
      } else if Reclaimable(tenants.at[ids[0]], cutoff) {
        SweptKeys(tenants.Deleted(ids[0]), ids[1..], cutoff);
      } else {
        SweptKeys(tenants.MovedToEnd(ids[0]), ids[1..], cutoff);
      }
    }
  }

  lemma PlacedKeys(tenants: Tenants, tenant: string, key: Key, x: Sample)
    ensures Placed(tenants, tenant, key, x).at.Keys <= tenants.at.Keys + {tenant}
  {
    hide KeyRecorded, Without;
  }

  lemma ReadKeys(tenants: Tenants, tenant: string, key: Key, cutoff: real)
    ensures Read(tenants, tenant, key, cutoff).at.Keys <= tenants.at.Keys
  {
    hide KeyRead, Without;
  }

  lemma DoneKnows(s: Store, op: Op, known: set<string>)
    requires KnowsOnly(s, known) && op.tenant in known
    ensures KnowsOnly(Done(s, op), known)
  {
    hide Swept, Placed, Read, Named, SweepIds;
    match op {
      case Record(tenant, agent, tool, m, now, sweepAt) =>
        if Accepted(tenant, agent, m) {
          var placed := Placed(s.tenants, tenant, (agent, tool), Sample(now, m.ms));
          PlacedKeys(s.tenants, tenant, (agent, tool), Sample(now, m.ms));
          SweptKeys(placed, SweepIds(placed), sweepAt - MAX_AGE);
        }
      case Average(tenant, agent, tool, now) =>
        ReadKeys(s.tenants, tenant, (agent, tool), now - MAX_AGE);
    }
  }

  lemma {:induction false} OrderSize<K(!new)>(order: seq<K>, keys: set<K>)
    requires Distinct(order) && forall k :: k in order <==> k in keys
    ensures |order| == |keys|
  {
    if order == [] {
      assert keys == {};
    } else {
      var rest := order[1..];
      assert order == [order[0]] + rest;
      OrderSize(rest, keys - {order[0]});
    }
  }

  /** With no more tenants than the cap, no tenant is ever pushed out. */
  lemma RoomForAll(s: Store, op: Op, known: set<string>)
    requires s.tenants.Valid() && KnowsOnly(s, known) && op.tenant in known && |known| <= MAX_TENANTS
    ensures op.tenant in s.tenants.at || |s.tenants.order| < MAX_TENANTS
  {
    OrderSize(s.tenants.order, s.tenants.at.Keys);
    if op.tenant !in s.tenants.at {
      SubsetSize(s.tenants.at.Keys + {op.tenant}, known);
    }
  }

  lemma NoneKept(d: Samples, cutoff: real)
    requires Sorted(d) && (d != [] ==> d[|d| - 1].at < cutoff)
    ensures Kept(d, cutoff) == []
  {
    assert d + [] == d;
    KeptSplit(d, [], cutoff);
  }

  /** One operation of another tenant loses nothing that is not too old by `cutoff`. */
  lemma OtherDone(s: Store, op: Op, t: string, k: Key, from: real, cutoff: real)
    requires Bounded(s.tenants) && op.tenant != t && InTime(Deque(s.tenants, t, k), from)
    requires op.tenant in s.tenants.at || |s.tenants.order| < MAX_TENANTS
    requires cutoff >= EndOf(op) - MAX_AGE
    ensures Kept(Deque(Done(s, op).tenants, t, k), cutoff) == Kept(Deque(s.tenants, t, k), cutoff)
  {
    var d := Deque(s.tenants, t, k);
    hide Bounded, Placed, Swept, Read, Deque, AgedOut, Named, SweepIds;
    match op {
      case Record(tenant, agent, tool, m, now, sweepAt) =>
        if Accepted(tenant, agent, m) {
          var placed := Placed(s.tenants, tenant, (agent, tool), Sample(now, m.ms));
          PlacedDeque(s.tenants, tenant, (agent, tool), Sample(now, m.ms), t, k);
          SweptDeque(placed, SweepIds(placed), sweepAt - MAX_AGE, t, k);
          if d != [] && d[|d| - 1].at < sweepAt - MAX_AGE { NoneKept(d, cutoff); }
        }
      case Average(tenant, agent, tool, now) =>
        ReadDeque(s.tenants, tenant, (agent, tool), now - MAX_AGE, t, k);
    }
  }

  lemma {:induction false} OthersDone(s: Store, others: seq<Op>, t: string, k: Key, known: set<string>, from: real,
      cutoff: real)
    requires Bounded(s.tenants) && KnowsOnly(s, known) && |known| <= MAX_TENANTS
    requires InOrder(from, others) && InTime(Deque(s.tenants, t, k), from)
    requires forall i :: 0 <= i < |others| ==> others[i].tenant != t && others[i].tenant in known
    requires cutoff >= EndOfAll(from, others) - MAX_AGE
    ensures Kept(Deque(DoneAll(s, others).tenants, t, k), cutoff) == Kept(Deque(s.tenants, t, k), cutoff)
    decreases |others|
  {
    hide Bounded, Deque, Done, InTime, Kept, KnowsOnly;
    if others != [] {
      var op, rest := others[0], others[1..];
      assert s.tenants.Valid() by { BoundedValid(s.tenants); }
      RoomForAll(s, op, known);
      EndLater(EndOf(op), rest);
      OtherDone(s, op, t, k, from, cutoff);
      DoneBounded(s, op);
      DoneKnows(s, op, known);
      DoneInTime(s, op, t, k, from);
      assert forall i :: 0 <= i < |rest| ==> rest[i] == others[i + 1];
      OthersDone(Done(s, op), rest, t, k, known, EndOf(op), cutoff);
    }
  }

  lemma BoundedValid(tenants: Tenants)
    requires Bounded(tenants)
    ensures tenants.Valid()
  {}

  lemma {:induction false} EndLater(from: real, ops: seq<Op>)
    requires InOrder(from, ops)
    ensures from <= EndOfAll(from, ops)
    decreases |ops|
  {
    if ops != [] { EndLater(EndOf(ops[0]), ops[1..]); }
  }

  lemma {:induction false} RunKnows(s: Store, ops: seq<Op>, known: set<string>)
    requires KnowsOnly(s, known) && forall i :: 0 <= i < |ops| ==> ops[i].tenant in known
    ensures KnowsOnly(DoneAll(s, ops), known)
    decreases |ops|
  {
    hide KnowsOnly, Done;
    if ops != [] {
      DoneKnows(s, ops[0], known);
      assert forall i :: 0 <= i < |ops[1..]| ==> ops[1..][i] == ops[i + 1];
      RunKnows(Done(s, ops[0]), ops[1..], known);
    }
  }

  /** From an empty store, whatever was done before: with no more tenants about than the cap, no run of operations of
      other tenants changes what a tenant is told, nor costs it a sample that is not too old. */
  lemma OthersKeepLiveSamples(before: seq<Op>, others: seq<Op>, known: set<string>, from: real, now: real,
                              tenant: string, agent: string, tool: string)
    requires InOrder(from, before) && InOrder(EndOfAll(from, before), others)
    requires EndOfAll(EndOfAll(from, before), others) <= now
    requires |known| <= MAX_TENANTS && forall i :: 0 <= i < |before| ==> before[i].tenant in known
    requires forall i :: 0 <= i < |others| ==> others[i].tenant != tenant && others[i].tenant in known
    ensures
      var s := DoneAll(Store(Empty(), 0), before);
      && Kept(Deque(DoneAll(s, others).tenants, tenant, (agent, tool)), now - MAX_AGE)
         == Kept(Deque(s.tenants, tenant, (agent, tool)), now - MAX_AGE)
      && Told(DoneAll(s, others), tenant, agent, tool, now) == Told(s, tenant, agent, tool, now)
  {
    var empty: Store := Store(Empty(), 0);
    var key := (agent, tool);
    EmptyStore(known, tenant, key, from);
    hide Bounded, InTime, Kept, KnowsOnly, Done, DoneAll, InOrder, EndOfAll, Named, Mean, AgedOut;
    var s := DoneAll(empty, before);
    RunBounded(empty, before);
    RunKnows(empty, before, known);
    RunInTime(empty, before, tenant, key, from);
    OthersDone(s, others, tenant, key, known, EndOfAll(from, before), now - MAX_AGE);
    RunInTime(s, others, tenant, key, EndOfAll(from, before));
    InTimeKept(Deque(s.tenants, tenant, key), EndOfAll(from, before), now - MAX_AGE);
    InTimeKept(Deque(DoneAll(s, others).tenants, tenant, key), EndOfAll(EndOfAll(from, before), others), now - MAX_AGE);
  }

  lemma InTimeKept(d: Samples, now: real, cutoff: real)
    requires InTime(d, now)
    ensures AgedOut(d, cutoff) == Kept(d, cutoff)
  {
    AgedOutIsKept(d, cutoff);
  }

  lemma EmptyStore(known: set<string>, t: string, k: Key, from: real)
    ensures
      var s: Store := Store(Empty(), 0);
      Bounded(s.tenants) && KnowsOnly(s, known) && InTime(Deque(s.tenants, t, k), from)
  {}

  // ---------------------------------------------------------------- the store itself

  method TenantIsReclaimable(tools: Tools, cutoff: real) returns (yes: bool)
    requires tools.Valid()
    ensures yes == Reclaimable(tools, cutoff)
  {
    for i := 0 to |tools.order|
      invariant forall j :: 0 <= j < i ==>
        tools.at[tools.order[j]] == [] || tools.at[tools.order[j]][|tools.at[tools.order[j]]| - 1].at < cutoff
    {
      var samples := tools.at[tools.order[i]];
      if samples != [] && samples[|samples| - 1].at >= cutoff {
        return false;
      }
    }
    assert forall k :: k in tools.at ==> k in tools.order;
    return true;
  }

  method Total(samples: Samples) returns (sum: real)
    ensures sum == Sum(samples)
  {
    sum := 0.0;
    for i := 0 to |samples|
      invariant sum + Sum(samples[i..]) == Sum(samples)
    {
      sum := sum + samples[i].ms;
      assert samples[i..][1..] == samples[i + 1..];
    }
  }

  /** Old samples leave from the front. */
  method DropOld(d: Samples, cutoff: real) returns (samples: Samples)
    ensures samples == AgedOut(d, cutoff)
  {
    samples := d;
    while samples != [] && samples[0].at < cutoff
      invariant AgedOut(samples, cutoff) == AgedOut(d, cutoff)
    {
      samples := samples[1..];
    }
  }

  /** The inner map after one more sample of a key. */
  method RecordKey(tools: Tools, key: Key, x: Sample) returns (grown: Tools)
    ensures grown == KeyRecorded(tools, key, x)
  {
    var samples := SamplesAt(tools, key);
    grown := tools.Put(key, Appended(samples, x)).MovedToEnd(key);
    if |grown.order| > MAX_KEYS_PER_TENANT {
      grown := grown.PopFirst();
    }
  }

  class ToolLatencyStore {
    var tenants: Tenants
    var recordCount: nat

    ghost function Value(): Store
      reads this
    {
      Store(tenants, recordCount)
    }

    ghost predicate Valid()
      reads this
    {
      Bounded(tenants)
    }

    constructor ()
      ensures Valid() && Value() == Store(Empty(), 0)
    {
      tenants, recordCount := Empty(), 0;
    }

    method Sweep(now: real)
      requires Valid()
      modifies this`tenants
      ensures Valid() && tenants == Swept(old(tenants), SweepIds(old(tenants)), now - MAX_AGE)
    {
      var cutoff := now - MAX_AGE;
      var ids := SweepIds(tenants);
      ghost var before := tenants;
      SweptBounded(tenants, ids, cutoff);
      var i := 0;
      while i < |ids|
        invariant 0 <= i <= |ids| && tenants.Valid()
        invariant forall t :: t in tenants.at ==> ToolsBounded(tenants.at[t])
        invariant Swept(tenants, ids[i..], cutoff) == Swept(before, ids, cutoff)
      {
        hide ToolsBounded;
        assert ids[i..][0] == ids[i] && ids[i..][1..] == ids[i + 1..];
        if ids[i] in tenants.at {
          assert tenants.at[ids[i]].Valid() by { ToolsValid(tenants.at[ids[i]]); }
          var reclaim := TenantIsReclaimable(tenants.at[ids[i]], cutoff);
          if reclaim {
            tenants := tenants.Deleted(ids[i]);
          } else {
            tenants := tenants.MovedToEnd(ids[i]);
          }
        }
        i := i + 1;
      }
      assert ids[i..] == [];
    }

    /** Looks a tenant up, making room for it if it is new. */
    method AdmitTenant(tenant: string)
      modifies this`tenants
      ensures tenants == TenantAdmitted(old(tenants), tenant)
    {
      if tenant !in tenants.at {
        tenants := tenants.Put(tenant, Empty());
        if |tenants.order| > MAX_TENANTS {
          tenants := tenants.PopFirst();
        }
      }
    }

    /** Places an accepted sample. */
    method Place(tenant: string, key: Key, x: Sample)
      requires Valid()
      modifies this`tenants
      ensures Valid() && tenants == Placed(old(tenants), tenant, key, x)
    {
      PlacedBounded(tenants, tenant, key, x);
      TenantAdmittedBounded(tenants, tenant);
      hide Bounded, KeyRecorded, TenantAdmitted;
      AdmitTenant(tenant);
      var grown := RecordKey(tenants.at[tenant], key, x);
      tenants := tenants.MovedToEnd(tenant).Put(tenant, grown);
    }

    method Record(tenant: string, agent: string, tool: string, m: Measure, now: real, sweepAt: real)
      requires Valid()
      modifies this
      ensures Valid() && Value() == Done(old(Value()), Op.Record(tenant, agent, tool, m, now, sweepAt))
    {
      hide Bounded, Placed, Swept, Named;
      if !Accepted(tenant, agent, m) {
        return;
      }
      Place(tenant, (agent, tool), Sample(now, m.ms));
      recordCount := recordCount + 1;
      if recordCount % SWEEP_EVERY == 0 {
        Sweep(sweepAt);
      }
    }

    /** Touches a key, drops what is too old, and gives what is left of it. */
    method ReadSamples(tenant: string, key: Key, cutoff: real) returns (samples: Samples)
      requires Valid()
      modifies this`tenants
      ensures Valid() && tenants == Read(old(tenants), tenant, key, cutoff)
      ensures samples == AgedOut(Deque(old(tenants), tenant, key), cutoff)
    {
      ReadBounded(tenants, tenant, key, cutoff);
      hide Bounded, Without;
      if tenant !in tenants.at {
        return [];
      }
      var tools := tenants.at[tenant];
      tenants := tenants.MovedToEnd(tenant);
      if key !in tools.at {
        return [];
      }
      hide AgedOut;
      samples := DropOld(tools.at[key], cutoff);
      tools := tools.MovedToEnd(key);
      if samples == [] {
        tools := tools.Deleted(key);
        if tools.at == map[] {
          tenants := tenants.Deleted(tenant);
          return;
        }
      } else {
        tools := tools.Put(key, samples);
        assert key in tools.at;
      }
      tenants := tenants.Put(tenant, tools);
    }

    method AverageMs(tenant: string, agent: string, tool: string, now: real) returns (mean: Option<real>)
      requires Valid()
      modifies this`tenants
      ensures Valid() && Value() == Done(old(Value()), Op.Average(tenant, agent, tool, now))
      ensures mean == Told(old(Value()), tenant, agent, tool, now)
    {
      hide Bounded, Read, AgedOut, Named, Sum;
      if !Named(tenant) || !Named(agent) {
        return None;
      }
      var samples := ReadSamples(tenant, (agent, tool), now - MAX_AGE);
      if |samples| < MIN_SAMPLES {
        return None;
      }
      var sum := Total(samples);
      return Some(sum / |samples| as real);
    }
  }

  lemma ToolsValid(tools: Tools)
    requires ToolsBounded(tools)
    ensures tools.Valid()
  {
  }
}
