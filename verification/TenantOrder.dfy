/**
 Which tenant the cap on tenants pushes out: the one that has gone longest without a record, a read or a sweep that
 kept it.
 */
module TenantOrder {
  import opened OrderedDicts
  import opened ToolLatency
  import opened LatencyOrder

  ghost function Front(tenants: Tenants): (r: seq<string>)
    requires tenants.Valid()
    ensures forall k :: k in r ==> k in tenants.at
  {
    SweepIds(tenants)
  }

  /** The tenants an accepted record keeps in the sweep it makes, if it makes one. */
  ghost function Kept(s: Store, op: Op): seq<string>
    requires Bounded(s.tenants) && op.Record? && op.m.Finite?
  {
    var key, x := (op.agent, op.tool), Sample(op.now, op.m.ms);
    PlacedBounded(s.tenants, op.tenant, key, x);
    var placed := Placed(s.tenants, op.tenant, key, x);
    if (s.recorded + 1) % SWEEP_EVERY == 0 then Recent(placed, Front(placed), op.sweepAt - MAX_AGE) else []
  }

  /** The operation records, reads, or keeps the tenant in a sweep. */
  ghost predicate Touches(s: Store, op: Op, t: string)
    requires Bounded(s.tenants)
  {
    match op
    case Record(tenant, agent, _, m, _, _) => Accepted(tenant, agent, m) && (t == tenant || t in Kept(s, op))
    case Average(tenant, agent, _, _) => Named(tenant) && Named(agent) && t == tenant && t in s.tenants.at
  }

  /** What a run of operations makes of an empty store. */
  ghost function StoreAfter(ops: seq<Op>): (s: Store)
    ensures Bounded(s.tenants)
  {
    var empty: Store := Store(Empty(), 0);
    EmptyTenants();
    RunBounded(empty, ops);
    DoneAll(empty, ops)
  }

  lemma EmptyTenants()
    ensures Bounded(Empty())
  {}

  lemma {:induction false} DoneAllSnoc(s: Store, ops: seq<Op>, op: Op)
    ensures DoneAll(s, ops + [op]) == Done(DoneAll(s, ops), op)
    decreases |ops|
  {
    hide Done;
    if ops == [] {
      assert [] + [op] == [op] && [op][1..] == [];
    } else {
      assert (ops + [op])[0] == ops[0] && (ops + [op])[1..] == ops[1..] + [op];
      DoneAllSnoc(Done(s, ops[0]), ops[1..], op);
    }
  }

  /** The place of the last operation that touched the tenant; -1 if there is none. */
  ghost function LastTouch(ops: seq<Op>, t: string): (i: int)
    ensures -1 <= i < |ops|
  {
    if ops == [] then -1
    else
      var before := ops[..|ops| - 1];
      if Touches(StoreAfter(before), ops[|ops| - 1], t) then |ops| - 1 else LastTouch(before, t)
  }

  lemma LastTouchSnoc(ops: seq<Op>, op: Op, t: string)
    ensures LastTouch(ops + [op], t) == if Touches(StoreAfter(ops), op, t) then |ops| else LastTouch(ops, t)
    ensures StoreAfter(ops + [op]) == Done(StoreAfter(ops), op)
  {
    assert (ops + [op])[..|ops|] == ops;
    DoneAllSnoc(Store(Empty(), 0), ops, op);
    hide Touches, Done, Bounded, DoneAll;
  }

  // ---------------------------------------------------------------- lists in the order of a rank

  /** None of the tenants has a higher rank than one that comes later. */
  ghost predicate NotFalling(ids: seq<string>, rank: string -> int) {
    ids != [] ==> (forall k :: k in ids[1..] ==> rank(ids[0]) <= rank(k)) && NotFalling(ids[1..], rank)
  }

  lemma {:induction false} NotFallingWithout(ids: seq<string>, rank: string -> int, t: string)
    requires NotFalling(ids, rank)
    ensures NotFalling(Without(ids, t), rank)
  {
    if ids != [] {
      NotFallingWithout(ids[1..], rank, t);
      var rest := Without(ids[1..], t);
      assert ([ids[0]] + rest)[1..] == rest;
    }
  }

  lemma {:induction false} NotFallingFrom(ids: seq<string>, rank: string -> int, n: nat)
    requires NotFalling(ids, rank) && n <= |ids|
    ensures NotFalling(ids[n..], rank)
  {
    if n == 0 {
      assert ids[0..] == ids;
    } else {
      NotFallingFrom(ids[1..], rank, n - 1);
      assert ids[1..][n - 1..] == ids[n..];
    }
  }

  /** What is touched now goes behind what is not. */
  lemma {:induction false} NotFallingLater(kept: seq<string>, moved: seq<string>, was: string -> int,
                                           now: string -> int, n: int)
    requires NotFalling(kept, was)
    requires forall k :: k in kept ==> now(k) == was(k) <= n
    requires forall k :: k in moved ==> now(k) == n
    ensures NotFalling(kept + moved, now)
    decreases |kept| + |moved|
  {
    if kept != [] {
      NotFallingLater(kept[1..], moved, was, now, n);
      assert (kept + moved)[1..] == kept[1..] + moved;
    } else if moved != [] {
      NotFallingLater(kept, moved[1..], was, now, n);
      assert (kept + moved)[1..] == kept + moved[1..];
    }
  }

  lemma FirstIsLowest(ids: seq<string>, rank: string -> int, other: string)
    requires NotFalling(ids, rank) && other in ids
    ensures rank(ids[0]) <= rank(other)
  {
    assert ids == [ids[0]] + ids[1..];
  }

  // ---------------------------------------------------------------- the order after an operation

  /** Part of the order stays as it is, and everything touched comes behind it. */
  ghost predicate Splits(s: Store, op: Op, kept: seq<string>, moved: seq<string>, rank: string -> int)
    requires Bounded(s.tenants)
  {
    && Done(s, op).tenants.order == kept + moved
    && (forall k :: k in kept ==> !Touches(s, op, k)) && (forall k :: k in moved ==> Touches(s, op, k))
    && NotFalling(kept, rank)
  }

  /** The order a new sample leaves behind, before any sweep: some of the others, and then its tenant. */
  lemma PlacedSplits(tenants: Tenants, tenant: string, key: Key, x: Sample, rank: string -> int)
    returns (others: seq<string>)
    requires Bounded(tenants) && NotFalling(tenants.order, rank)
    ensures Placed(tenants, tenant, key, x).order == others + [tenant] && tenant !in others && NotFalling(others, rank)
  {
    PlacedOrder(tenants, tenant, key, x);
    hide Placed;
    if tenant in tenants.at {
      others := Without(tenants.order, tenant);
      NotFallingWithout(tenants.order, rank, tenant);
    } else if |tenants.order| == MAX_TENANTS {
      others := tenants.order[1..];
    } else {
      others := tenants.order;
    }
  }

  lemma {:induction false} RecentIn(tenants: Tenants, ids: seq<string>, cutoff: real, t: string)
    requires forall k :: k in ids ==> k in tenants.at
    ensures t in Recent(tenants, ids, cutoff) ==> t in ids
  {
    hide Reclaimable;
    if ids != [] { RecentIn(tenants, ids[1..], cutoff, t); }
  }

  /** The order after a sweep: what is behind its front, and then what it keeps of the front. */
  lemma SweepSplits(placed: Tenants, others: seq<string>, tenant: string, cutoff: real, rank: string -> int)
    returns (kept: seq<string>, moved: seq<string>)
    requires placed.Valid() && placed.order == others + [tenant] && NotFalling(others, rank)
    ensures Swept(placed, SweepIds(placed), cutoff).order == kept + moved && NotFalling(kept, rank)
    ensures forall k :: k in moved ==> k == tenant || k in Recent(placed, Front(placed), cutoff)
    ensures forall k :: k in kept ==> k != tenant && k !in Recent(placed, Front(placed), cutoff)
  {
    var n := FrontLength(placed);
    var ids, rest := Front(placed), placed.order[n..];
    SweptOrder(placed, ids, rest, cutoff);
    forall k ensures k in Recent(placed, ids, cutoff) ==> k in ids { RecentIn(placed, ids, cutoff, k); }
    assert Distinct(placed.order);
    hide Swept, Recent, SweepIds, NotFalling, Distinct;
    kept, moved := Cut(others, tenant, n, Recent(placed, ids, cutoff), rank);
  }

  lemma FrontLength(placed: Tenants) returns (n: nat)
    requires placed.Valid()
    ensures n <= |placed.order| && Front(placed) == placed.order[..n]
    ensures placed.order == Front(placed) + placed.order[n..]
  {
    n := |Front(placed)|;
  }

  lemma Cut(others: seq<string>, tenant: string, n: nat, recent: seq<string>, rank: string -> int)
    returns (kept: seq<string>, moved: seq<string>)
    requires Distinct(others + [tenant]) && n <= |others| + 1 && NotFalling(others, rank)
    requires forall k :: k in recent ==> k in (others + [tenant])[..n]
    ensures (others + [tenant])[n..] + recent == kept + moved && NotFalling(kept, rank)
    ensures forall k :: k in moved ==> k == tenant || k in recent
    ensures forall k :: k in kept ==> k != tenant && k !in recent
  {
    var all := others + [tenant];
    if n == |all| {
      kept, moved := [], recent;
      NoneFalling(rank);
    } else {
      kept, moved := others[n..], [tenant] + recent;
      NotFallingFrom(others, rank, n);
      hide NotFalling, Distinct;
      assert all[n..] == kept + [tenant] && all[n..|all| - 1] == kept;
      forall k | k in kept ensures k != tenant && k !in recent { Apart(all, n, k, tenant); }
    }
  }

  lemma NoneFalling(rank: string -> int)
    ensures NotFalling([], rank)
  {}

  lemma Apart(s: seq<string>, n: nat, k: string, last: string)
    requires Distinct(s) && n < |s| && s[|s| - 1] == last && k in s[n..|s| - 1]
    ensures k != last && k !in s[..n]
  {
    var part := s[n..|s| - 1];
    var i :| 0 <= i < |part| && part[i] == k;
    assert s[n + i] == k;
  }

  lemma RecordTouches(s: Store, op: Op)
    requires Bounded(s.tenants) && op.Record? && Accepted(op.tenant, op.agent, op.m)
    ensures forall t :: Touches(s, op, t) <==> t == op.tenant || t in Kept(s, op)
  {
    hide Bounded, Kept, Named;
  }

  lemma KeptIs(s: Store, op: Op)
    requires Bounded(s.tenants) && op.Record? && op.m.Finite?
    ensures
      var placed := Placed(s.tenants, op.tenant, (op.agent, op.tool), Sample(op.now, op.m.ms));
      && placed.Valid()
      && Kept(s, op) == if (s.recorded + 1) % SWEEP_EVERY == 0
                        then Recent(placed, Front(placed), op.sweepAt - MAX_AGE) else []
  {
    hide Placed, Recent, Front, ToolsBounded;
    PlacedBounded(s.tenants, op.tenant, (op.agent, op.tool), Sample(op.now, op.m.ms));
  }

  lemma RecordMoves(s: Store, op: Op)
    requires op.Record? && Accepted(op.tenant, op.agent, op.m)
    ensures
      var placed := Placed(s.tenants, op.tenant, (op.agent, op.tool), Sample(op.now, op.m.ms));
      Done(s, op).tenants == if (s.recorded + 1) % SWEEP_EVERY == 0
                             then Swept(placed, SweepIds(placed), op.sweepAt - MAX_AGE) else placed
  {
    hide Placed, Swept, SweepIds, Named;
  }

  lemma RecordSplits(s: Store, op: Op, rank: string -> int) returns (kept: seq<string>, moved: seq<string>)
    requires Bounded(s.tenants) && NotFalling(s.tenants.order, rank)
    requires op.Record? && Accepted(op.tenant, op.agent, op.m)
    ensures Splits(s, op, kept, moved, rank)
  {
    hide Bounded, Placed, Swept, SweepIds, NotFalling, Named, Recent, Front, Done, Touches, Kept;
    var key, x := (op.agent, op.tool), Sample(op.now, op.m.ms);
    RecordTouches(s, op);
    KeptIs(s, op);
    RecordMoves(s, op);
    var others := PlacedSplits(s.tenants, op.tenant, key, x, rank);
    if (s.recorded + 1) % SWEEP_EVERY == 0 {
      kept, moved := SweepSplits(Placed(s.tenants, op.tenant, key, x), others, op.tenant, op.sweepAt - MAX_AGE, rank);
    } else {
      kept, moved := others, [op.tenant];
    }
  }

  lemma AverageTouches(s: Store, op: Op)
    requires Bounded(s.tenants) && op.Average? && Named(op.tenant) && Named(op.agent)
    ensures Done(s, op).tenants == Read(s.tenants, op.tenant, (op.agent, op.tool), op.now - MAX_AGE)
    ensures forall t :: Touches(s, op, t) <==> t == op.tenant && t in s.tenants.at
    ensures forall t :: t in s.tenants.order <==> t in s.tenants.at
  {
    BoundedValid(s.tenants);
    hide Bounded, Read, Named;
  }

  lemma AverageSplits(s: Store, op: Op, rank: string -> int) returns (kept: seq<string>, moved: seq<string>)
    requires Bounded(s.tenants) && NotFalling(s.tenants.order, rank)
    requires op.Average? && Named(op.tenant) && Named(op.agent)
    ensures Splits(s, op, kept, moved, rank)
  {
    hide Bounded, Read, NotFalling, Named, Done, Touches;
    AverageTouches(s, op);
    ReadOrder(s.tenants, op.tenant, (op.agent, op.tool), op.now - MAX_AGE);
    if op.tenant in s.tenants.at {
      kept := Without(s.tenants.order, op.tenant);
      NotFallingWithout(s.tenants.order, rank, op.tenant);
      moved := if op.tenant in Done(s, op).tenants.at then [op.tenant] else [];
      assert kept + [] == kept;
    } else {
      kept, moved := s.tenants.order, [];
      assert kept + moved == kept;
    }
  }

  /** What an operation does to the order. */
  lemma DoneSplits(s: Store, op: Op, rank: string -> int) returns (kept: seq<string>, moved: seq<string>)
    requires Bounded(s.tenants) && NotFalling(s.tenants.order, rank)
    ensures Splits(s, op, kept, moved, rank)
  {
    if op.Record? && Accepted(op.tenant, op.agent, op.m) {
      kept, moved := RecordSplits(s, op, rank);
    } else if op.Average? && Named(op.tenant) && Named(op.agent) {
      kept, moved := AverageSplits(s, op, rank);
    } else {
      kept, moved := s.tenants.order, [];
      hide Bounded, NotFalling, Named;
      assert kept + moved == kept;
    }
  }

  // ---------------------------------------------------------------- over runs

  ghost function Touch(ops: seq<Op>): string -> int { (t: string) => LastTouch(ops, t) }

  lemma {:induction false} RunByTouch(ops: seq<Op>)
    ensures NotFalling(StoreAfter(ops).tenants.order, Touch(ops))
  {
    hide StoreAfter, LastTouch;
    if ops == [] {
      NothingDone();
    } else {
      var before, op := ops[..|ops| - 1], ops[|ops| - 1];
      RunByTouch(before);
      StepByTouch(before, op);
      assert before + [op] == ops;
    }
  }

  lemma NothingDone()
    ensures StoreAfter([]).tenants.order == []
  {}

  lemma StepByTouch(ops: seq<Op>, op: Op)
    requires NotFalling(StoreAfter(ops).tenants.order, Touch(ops))
    ensures NotFalling(StoreAfter(ops + [op]).tenants.order, Touch(ops + [op]))
  {
    var kept, moved := DoneSplits(StoreAfter(ops), op, Touch(ops));
    forall t ensures
      LastTouch(ops + [op], t) == if Touches(StoreAfter(ops), op, t) then |ops| else LastTouch(ops, t)
    {
      LastTouchSnoc(ops, op, t);
    }
    LastTouchSnoc(ops, op, "");
    hide Done, Touches, LastTouch, NotFalling, Bounded, StoreAfter;
    NotFallingLater(kept, moved, Touch(ops), Touch(ops + [op]), |ops|);
  }

  /** The tenant the cap pushes out to make room for a new one is one that no other has gone longer without being
      recorded for, read, or kept in a sweep; and it goes only when the cap is reached. */
  lemma EvictedTenantIsOldest(ops: seq<Op>, tenant: string, key: Key, x: Sample, gone: string, other: string)
    requires
      var tenants := StoreAfter(ops).tenants;
      && gone in tenants.at && gone !in Placed(tenants, tenant, key, x).at && other in tenants.at
    ensures |StoreAfter(ops).tenants.order| == MAX_TENANTS && tenant !in StoreAfter(ops).tenants.at
    ensures LastTouch(ops, gone) <= LastTouch(ops, other)
  {
    var tenants := StoreAfter(ops).tenants;
    RunByTouch(ops);
    hide LastTouch, NotFalling, StoreAfter;
    PlacedBounded(tenants, tenant, key, x);
    BoundedValid(Placed(tenants, tenant, key, x));
    BoundedValid(tenants);
    PlacedOrder(tenants, tenant, key, x);
    hide Placed, Bounded;
    FirstGoes(tenants, tenant, gone);
    FirstIsLowest(tenants.order, Touch(ops), other);
  }

  lemma FirstGoes(tenants: Tenants, tenant: string, gone: string)
    requires tenants.Valid() && gone in tenants.at
    requires gone !in
      if tenant in tenants.at then Without(tenants.order, tenant) + [tenant]
      else if |tenants.order| == MAX_TENANTS then tenants.order[1..] + [tenant]
      else tenants.order + [tenant]
    ensures tenant !in tenants.at && |tenants.order| == MAX_TENANTS && tenants.order[0] == gone
  {
    assert gone in tenants.order;
    if tenants.order != [] { assert tenants.order == [tenants.order[0]] + tenants.order[1..]; }
    hide Distinct;
  }
}
