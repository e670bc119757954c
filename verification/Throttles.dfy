/**
 What the fixed-window counter promises over whole runs: its sweeps never change an answer, a request that
 is let through is always recorded, and no key is let through more often than the limit allows.
 */
module Throttles {
  import opened RateLimiter
  import opened Sets
  import opened Text

  datatype Access =
    | Peek(key: string, now: real)
    | Count(key: string, now: real)

  ghost predicate InOrder(from: real, accesses: seq<Access>) {
    && (forall i :: 0 <= i < |accesses| ==> from <= accesses[i].now)
    && (forall i, j :: 0 <= i < j < |accesses| ==> accesses[i].now <= accesses[j].now)
  }

  // ---------------------------------------------------------------- sweeping against never sweeping

  function Accessed(c: Counter, a: Access, window: real): Counter {
    match a
    case Peek(key, now) => Prepared(c, key, now, window)
    case Count(key, now) => Incremented(c, key, now, window)
  }

  function AccessedAll(c: Counter, accesses: seq<Access>, window: real): Counter
    decreases |accesses|
  {
    if accesses == [] then c else AccessedAll(Accessed(c, accesses[0], window), accesses[1..], window)
  }

  /** The answer each access of a run gives; an increment gives none. */
  function Answers(c: Counter, accesses: seq<Access>, limit: int, window: real): (r: seq<Option<Answer>>)
    ensures |r| == |accesses|
    decreases |accesses|
  {
    if accesses == [] then []
    else
      var a := accesses[0];
      [if a.Peek? then Some(Peeked(c, a.key, a.now, limit, window)) else None]
      + Answers(Accessed(c, a, window), accesses[1..], limit, window)
  }

  /** Which accesses of a run are turned away because the table is full. */
  function Refusals(c: Counter, accesses: seq<Access>, window: real): (r: seq<bool>)
    ensures |r| == |accesses|
    decreases |accesses|
  {
    if accesses == [] then []
    else
      [Refused(c, accesses[0].key, accesses[0].now, window)]
      + Refusals(Accessed(c, accesses[0], window), accesses[1..], window)
  }

  function PlainNext(m: Buckets, a: Access, window: real): Buckets {
    if a.Peek? then m
    else
      var b := Current(m, a.key, a.now, window);
      m[a.key := Bucket(b.start, b.count + 1)]
  }

  /** The same run on a table that is never swept and has no cap. */
  function PlainAnswers(m: Buckets, accesses: seq<Access>, limit: int, window: real): (r: seq<Option<Answer>>)
    ensures |r| == |accesses|
    decreases |accesses|
  {
    if accesses == [] then []
    else
      var a := accesses[0];
      [if a.Peek? then Some(CountAnswer(Current(m, a.key, a.now, window), a.now, limit, window)) else None]
      + PlainAnswers(PlainNext(m, a, window), accesses[1..], limit, window)
  }

  /** The swept table is a part of the full one, and lacks only keys whose window has run out. */
  ghost predicate SweptFrom(m: Buckets, full: Buckets, now: real, window: real) {
    && (forall k :: k in m ==> k in full && m[k] == full[k])
    && (forall k :: k in full && k !in m ==> Stale(full[k], now, window))
  }

  lemma SweptFromPrepared(c: Counter, full: Buckets, key: string, before: real, now: real, window: real)
    requires SweptFrom(c.buckets, full, before, window) && before <= now
    ensures SweptFrom(Prepared(c, key, now, window).buckets, full, now, window)
    ensures Current(Prepared(c, key, now, window).buckets, key, now, window) == Current(full, key, now, window)
  {
    var s := Swept(c, now, window);
    assert SweptFrom(s.buckets, full, now, window);
  }

  lemma SweptFromAccessed(c: Counter, full: Buckets, a: Access, from: real, window: real)
    requires SweptFrom(c.buckets, full, from, window) && from <= a.now
    requires a.Count? ==> !Refused(c, a.key, a.now, window)
    ensures SweptFrom(Accessed(c, a, window).buckets, PlainNext(full, a, window), a.now, window)
  {
    hide Prepared, Refused, Current;
    SweptFromPrepared(c, full, a.key, from, a.now, window);
  }

  /** Sweeping is invisible: as long as no earlier increment was turned away for capacity, an access that is
      not itself turned away answers as if nothing had ever been swept. */
  lemma {:induction false} SweepingIsInvisible(
      c: Counter, full: Buckets, accesses: seq<Access>, i: nat, from: real, limit: int, window: real)
    requires SweptFrom(c.buckets, full, from, window) && InOrder(from, accesses) && i < |accesses|
    requires forall j :: 0 <= j < i && accesses[j].Count? ==> !Refusals(c, accesses, window)[j]
    ensures !Refusals(c, accesses, window)[i] ==>
      Answers(c, accesses, limit, window)[i] == PlainAnswers(full, accesses, limit, window)[i]
    decreases i
  {
    hide Prepared, Refused, Current, CountAnswer, SweptFrom, Accessed, PlainNext;
    var a, rest := accesses[0], accesses[1..];
    if i == 0 {
      SweptFromPrepared(c, full, a.key, from, a.now, window);
    } else {
      var next := Accessed(c, a, window);
      assert a.Count? ==> !Refusals(c, accesses, window)[0];
      SweptFromAccessed(c, full, a, from, window);
      forall j | 0 <= j < |rest|
        ensures a.now <= rest[j].now
      {
        assert rest[j] == accesses[j + 1];
      }
      forall j | 0 <= j < i - 1 && rest[j].Count?
        ensures !Refusals(next, rest, window)[j]
      {
        assert rest[j] == accesses[j + 1] && Refusals(c, accesses, window)[j + 1] == Refusals(next, rest, window)[j];
      }
      SweepingIsInvisible(next, PlainNext(full, a, window), rest, i - 1, a.now, limit, window);
    }
  }

  /** The same from an empty counter, where the two tables start equal. */
  lemma SweepingIsInvisibleFromStart(accesses: seq<Access>, from: real, limit: int, window: real)
    requires InOrder(from, accesses)
    requires forall i :: 0 <= i < |accesses| ==> !Refusals(Counter(map[], 0), accesses, window)[i]
    ensures Answers(Counter(map[], 0), accesses, limit, window) == PlainAnswers(map[], accesses, limit, window)
  {
    forall i | 0 <= i < |accesses|
      ensures Answers(Counter(map[], 0), accesses, limit, window)[i] == PlainAnswers(map[], accesses, limit, window)[i]
    {
      SweepingIsInvisible(Counter(map[], 0), map[], accesses, i, from, limit, window);
    }
  }

  // ---------------------------------------------------------------- check, then count

  /** One use of a counter by a throttle: a check, and later, with nothing in between on this counter, an
      increment unless the check said no or something else held the request back. */
  datatype Call = Call(key: string, checked: real, counted: real, proceed: bool)

  predicate Admitted(c: Counter, call: Call, limit: int, window: real) {
    !Peeked(c, call.key, call.checked, limit, window).over && call.proceed
  }

  function Served(c: Counter, call: Call, limit: int, window: real): Counter {
    var p := Prepared(c, call.key, call.checked, window);
    if Admitted(c, call, limit, window) then Incremented(p, call.key, call.counted, window) else p
  }

  /** An admission: when it was counted, and the start of the window it was counted in. */
  datatype Entry = Entry(at: real, start: real)

  /** The admissions of one key over a run of calls for any keys. */
  function Admissions(c: Counter, calls: seq<Call>, key: string, limit: int, window: real): seq<Entry>
    decreases |calls|
  {
    if calls == [] then []
    else
      var next := Served(c, calls[0], limit, window);
      (if calls[0].key == key && Admitted(c, calls[0], limit, window) && key in next.buckets
       then [Entry(calls[0].counted, next.buckets[key].start)] else [])
      + Admissions(next, calls[1..], key, limit, window)
  }

  /** How many of the calls of a key were let through. */
  function AdmittedCount(c: Counter, calls: seq<Call>, key: string, limit: int, window: real): nat
    decreases |calls|
  {
    if calls == [] then 0
    else
      (if calls[0].key == key && Admitted(c, calls[0], limit, window) then 1 else 0)
      + AdmittedCount(Served(c, calls[0], limit, window), calls[1..], key, limit, window)
  }

  ghost predicate CallsInOrder(from: real, calls: seq<Call>) {
    && (forall i :: 0 <= i < |calls| ==> from <= calls[i].checked <= calls[i].counted)
    && (forall i, j :: 0 <= i < j < |calls| ==> calls[i].counted <= calls[j].checked)
  }

  lemma EvictedFrees(m: Buckets, key: string, now: real, window: real)
    requires |m| <= MAX_BUCKETS && !AtCapacity(m, key)
    ensures |Evicted(m, now, window)| <= MAX_BUCKETS && !AtCapacity(Evicted(m, now, window), key)
  {
    EvictedSize(m, now, window);
    var e := Evicted(m, now, window);
    if key in m && key !in e {
      SubsetSize(e.Keys, m.Keys - {key});
    }
  }

  /** A key the check did not turn away for capacity is not turned away by the increment that follows. */
  lemma CheckedKeyHasRoom(c: Counter, key: string, checked: real, counted: real, window: real)
    requires |c.buckets| <= MAX_BUCKETS && !Refused(c, key, checked, window)
    ensures !Refused(Prepared(c, key, checked, window), key, counted, window)
  {
    var p := Prepared(c, key, checked, window);
    PreparedSize(c, key, checked, window);
    assert !AtCapacity(p.buckets, key);
    EvictedFrees(p.buckets, key, counted, window);
  }

  /** A request that is let through is always recorded. */
  lemma AdmittedIsRecorded(c: Counter, call: Call, limit: int, window: real)
    requires |c.buckets| <= MAX_BUCKETS && Admitted(c, call, limit, window)
    ensures call.key in Served(c, call, limit, window).buckets
    ensures
      var p := Prepared(Prepared(c, call.key, call.checked, window), call.key, call.counted, window).buckets;
      var b := Current(p, call.key, call.counted, window);
      Served(c, call, limit, window).buckets == p[call.key := Bucket(b.start, b.count + 1)]
  {
    CheckedKeyHasRoom(c, call.key, call.checked, call.counted, window);
  }

  lemma ServedBounded(c: Counter, call: Call, limit: int, window: real)
    requires |c.buckets| <= MAX_BUCKETS
    ensures |Served(c, call, limit, window).buckets| <= MAX_BUCKETS
  {
    TableBounded(c, call.key, call.checked, window);
    TableBounded(Prepared(c, call.key, call.checked, window), call.key, call.counted, window);
  }

  // ---------------------------------------------------------------- the bucket and the log

  /** The bucket counts exactly the newest admissions of the key, all of one window, and no other admission is
      of a window less than one length older. A key without a bucket has had its last window run out. */
  ghost predicate Linked(m: Buckets, key: string, log: seq<Entry>, now: real, limit: int, window: real) {
    if key !in m then log != [] ==> now >= log[|log| - 1].start + window
    else
      && 1 <= m[key].count <= |log| && m[key].count <= limit
      && m[key].start <= now
      && (forall i :: |log| - m[key].count <= i < |log| ==> log[i].start == m[key].start)
      && (forall i :: 0 <= i < |log| - m[key].count ==> log[i].start + window <= m[key].start)
  }

  /** Every admission lies in its window, and any two that are `limit` apart lie in windows that are at
      least one length apart. */
  ghost predicate Spaced(log: seq<Entry>, limit: int, window: real) {
    && (log != [] ==> limit > 0)
    && (forall i :: 0 <= i < |log| ==> log[i].start <= log[i].at < log[i].start + window)
    && (forall i, j :: 0 <= i < j < |log| ==> log[i].at <= log[j].at && log[i].start <= log[j].start)
    && (forall i, j :: 0 <= i < j < |log| && j - i >= limit ==> log[i].start + window <= log[j].start)
  }

  lemma LinkedPrepared(c: Counter, k: string, key: string, log: seq<Entry>, before: real, now: real, limit: int,
      window: real)
    requires Linked(c.buckets, key, log, before, limit, window) && before <= now
    ensures Linked(Prepared(c, k, now, window).buckets, key, log, now, limit, window)
  {
    var s := Swept(c, now, window);
    assert Linked(s.buckets, key, log, now, limit, window);
  }

  /** Every admission before those in the current bucket is of an older window. */
  lemma OlderWindows(m: Buckets, key: string, log: seq<Entry>, now: real, limit: int, window: real)
    requires window > 0.0 && Linked(m, key, log, now, limit, window) && Spaced(log, limit, window)
    ensures
      var b := Current(m, key, now, window);
      && b.count <= |log| && b.start <= now < b.start + window
      && (forall i :: |log| - b.count <= i < |log| ==> log[i].start == b.start)
      && (forall i :: 0 <= i < |log| - b.count ==> log[i].start + window <= b.start)
  {
    var b := Current(m, key, now, window);
    if b.count == 0 && log != [] {
      assert log[|log| - 1].start + window <= now;
      assert forall i :: 0 <= i < |log| - 1 ==> log[i].start <= log[|log| - 1].start;
    }
  }

  lemma SpacedGrows(log: seq<Entry>, b: Bucket, now: real, limit: int, window: real)
    requires window > 0.0 && limit > 0 && Spaced(log, limit, window)
    requires log != [] ==> log[|log| - 1].at <= now
    requires b.count < limit && b.count <= |log| && b.start <= now < b.start + window
    requires forall i :: |log| - b.count <= i < |log| ==> log[i].start == b.start
    requires forall i :: 0 <= i < |log| - b.count ==> log[i].start + window <= b.start
    ensures Spaced(log + [Entry(now, b.start)], limit, window)
  {
    var grown := log + [Entry(now, b.start)];
    forall i, j | 0 <= i < j < |grown|
      ensures grown[i].at <= grown[j].at && grown[i].start <= grown[j].start
      ensures j - i >= limit ==> grown[i].start + window <= grown[j].start
    {
      assert j < |log| ==> grown[j] == log[j];
      assert i < |log| - 1 ==> log[i].at <= log[|log| - 1].at;
    }
  }

  /** Counting one more admission, when the bucket it is counted in has room for it. */
  lemma LinkedCounted(m: Buckets, key: string, log: seq<Entry>, now: real, limit: int, window: real)
    requires window > 0.0 && limit > 0
    requires Linked(m, key, log, now, limit, window) && Spaced(log, limit, window)
    requires log != [] ==> log[|log| - 1].at <= now
    requires Current(m, key, now, window).count < limit
    ensures
      var b := Current(m, key, now, window);
      var grown := log + [Entry(now, b.start)];
      Linked(m[key := Bucket(b.start, b.count + 1)], key, grown, now, limit, window) && Spaced(grown, limit, window)
  {
    hide Spaced, Current;
    var b := Current(m, key, now, window);
    OlderWindows(m, key, log, now, limit, window);
    SpacedGrows(log, b, now, limit, window);
  }

  /** A later check sees at least as much room as an earlier one did. */
  lemma RoomStays(c: Counter, key: string, checked: real, counted: real, limit: int, window: real)
    requires checked <= counted
    requires Current(Prepared(c, key, checked, window).buckets, key, checked, window).count < limit && limit > 0
    ensures
      var p := Prepared(Prepared(c, key, checked, window), key, counted, window).buckets;
      Current(p, key, counted, window).count < limit
  {
    var p := Prepared(c, key, checked, window);
    assert Prepared(p, key, counted, window).buckets.Keys <= p.buckets.Keys;
  }

  /** What a run keeps about one key, and the log it leaves. */
  lemma ServedKeeps(c: Counter, call: Call, key: string, log: seq<Entry>, from: real, limit: int, window: real)
    returns (grown: seq<Entry>)
    requires window > 0.0 && |c.buckets| <= MAX_BUCKETS && from <= call.checked <= call.counted
    requires Linked(c.buckets, key, log, from, limit, window) && Spaced(log, limit, window)
    requires log != [] ==> log[|log| - 1].at <= from
    ensures
      var next := Served(c, call, limit, window);
      && grown == log + (if call.key == key && Admitted(c, call, limit, window) && key in next.buckets
                         then [Entry(call.counted, next.buckets[key].start)] else [])
      && Linked(next.buckets, key, grown, call.counted, limit, window)
      && Spaced(grown, limit, window)
      && (grown != [] ==> grown[|grown| - 1].at <= call.counted)
  {
    hide Prepared, Refused, Spaced;
    var p := Prepared(c, call.key, call.checked, window);
    LinkedPrepared(c, call.key, key, log, from, call.checked, limit, window);
    if !Admitted(c, call, limit, window) {
      grown := log + [];
      assert grown == log;
    } else {
      AdmittedIsRecorded(c, call, limit, window);
      LinkedPrepared(p, call.key, key, log, call.checked, call.counted, limit, window);
      var q := Prepared(p, call.key, call.counted, window).buckets;
      var b := Current(q, call.key, call.counted, window);
      if call.key == key {
        RoomStays(c, key, call.checked, call.counted, limit, window);
        LinkedCounted(q, key, log, call.counted, limit, window);
        grown := log + [Entry(call.counted, b.start)];
      } else {
        grown := log + [];
        assert grown == log;
      }
    }
  }

  /** Over any run the log of a key stays spaced, and holds every request that was let through. */
  lemma {:induction false} RunSpaced(
      c: Counter, calls: seq<Call>, key: string, log: seq<Entry>, from: real, limit: int, window: real)
    requires window > 0.0 && |c.buckets| <= MAX_BUCKETS && CallsInOrder(from, calls)
    requires Linked(c.buckets, key, log, from, limit, window) && Spaced(log, limit, window)
    requires log != [] ==> log[|log| - 1].at <= from
    ensures Spaced(log + Admissions(c, calls, key, limit, window), limit, window)
    ensures |Admissions(c, calls, key, limit, window)| == AdmittedCount(c, calls, key, limit, window)
    decreases |calls|
  {
    hide Served, Admitted, Linked, Spaced;
    if calls == [] {
      assert log + [] == log;
    } else {
      var call, rest := calls[0], calls[1..];
      var next := Served(c, call, limit, window);
      var grown := ServedKeeps(c, call, key, log, from, limit, window);
      ServedBounded(c, call, limit, window);
      if Admitted(c, call, limit, window) {
        AdmittedIsRecorded(c, call, limit, window);
      }
      forall i | 0 <= i < |rest|
        ensures call.counted <= rest[i].checked <= rest[i].counted
      {
        assert rest[i] == calls[i + 1];
      }
      RunSpaced(next, rest, key, grown, call.counted, limit, window);
      assert log + Admissions(c, calls, key, limit, window) == grown + Admissions(next, rest, key, limit, window);
    }
  }

  // ---------------------------------------------------------------- how many are let through

  function Allowance(limit: int): nat { if limit > 0 then limit else 0 }

  /** The admissions counted within one window, by its start. */
  ghost function InWindow(log: seq<Entry>, start: real, window: real): set<int> {
    set i | 0 <= i < |log| && start <= log[i].at < start + window && log[i].start == start
  }

  /** The admissions counted at times from `a` up to and including one window length later. */
  ghost function InSpan(log: seq<Entry>, a: real, window: real): set<int> {
    set i | 0 <= i < |log| && a <= log[i].at <= a + window
  }

  lemma SpacedWindows(log: seq<Entry>, start: real, limit: int, window: real)
    requires window > 0.0 && Spaced(log, limit, window)
    ensures |InWindow(log, start, window)| <= Allowance(limit)
  {
    CloseTogether(InWindow(log, start, window), Allowance(limit));
  }

  lemma TwoWindowsApart(log: seq<Entry>, i: int, j: int, limit: int, window: real)
    requires window > 0.0 && Spaced(log, limit, window)
    requires 0 <= i < j < |log| && j - i >= 2 * limit
    ensures log[j].at - log[i].at > window
  {
    assert log[i].start + window <= log[i + limit].start;
    assert log[i + limit].start + window <= log[j].start;
  }

  lemma SpacedSpans(log: seq<Entry>, a: real, limit: int, window: real)
    requires window > 0.0 && Spaced(log, limit, window)
    ensures |InSpan(log, a, window)| <= 2 * Allowance(limit)
  {
    var s := InSpan(log, a, window);
    forall i, j | i in s && j in s && i < j
      ensures j - i < 2 * Allowance(limit)
    {
      if j - i >= 2 * limit {
        TwoWindowsApart(log, i, j, limit, window);
        assert false;
      }
    }
    CloseTogether(s, 2 * Allowance(limit));
  }

  /** No window holds more than `limit` admissions, and no stretch of one window length more than twice that. */
  ghost predicate WithinLimits(log: seq<Entry>, limit: int, window: real) {
    && (forall i :: 0 <= i < |log| ==> log[i].start <= log[i].at < log[i].start + window)
    && (forall start :: |InWindow(log, start, window)| <= Allowance(limit))
    && (forall a :: |InSpan(log, a, window)| <= 2 * Allowance(limit))
  }

  lemma SpacedWithinLimits(log: seq<Entry>, limit: int, window: real)
    requires window > 0.0 && Spaced(log, limit, window)
    ensures WithinLimits(log, limit, window)
  {
    hide InWindow, InSpan, Allowance;
    forall start ensures |InWindow(log, start, window)| <= Allowance(limit) {
      SpacedWindows(log, start, limit, window);
    }
    forall a ensures |InSpan(log, a, window)| <= 2 * Allowance(limit) {
      SpacedSpans(log, a, limit, window);
    }
  }

  /** Checking and then counting lets a key through at most `limit` times in one window and at most twice
      that in any stretch of one window length, whatever else the counter is used for meanwhile; and every
      request let through is in the log. */
  lemma AdmissionsBounded(calls: seq<Call>, key: string, from: real, limit: int, window: real)
    requires window > 0.0 && CallsInOrder(from, calls)
    ensures
      var log := Admissions(Counter(map[], 0), calls, key, limit, window);
      && |log| == AdmittedCount(Counter(map[], 0), calls, key, limit, window)
      && WithinLimits(log, limit, window)
  {
    hide Admissions, AdmittedCount, WithinLimits, CallsInOrder;
    var c := Counter(map[], 0);
    RunSpaced(c, calls, key, [], from, limit, window);
    var log := Admissions(c, calls, key, limit, window);
    assert [] + log == log;
    SpacedWithinLimits(log, limit, window);
  }

  // ---------------------------------------------------------------- waiting out a refusal

  /** Accesses that do not count the key leave its bucket as it was, or drop it once it is stale. */
  lemma {:induction false} Untouched(c: Counter, key: string, accesses: seq<Access>, from: real, later: real,
      window: real)
    requires InOrder(from, accesses)
    requires forall i :: 0 <= i < |accesses| ==> !(accesses[i].Count? && accesses[i].key == key)
    ensures
      var m := AccessedAll(c, accesses, window).buckets;
      key in m ==> key in c.buckets && m[key] == c.buckets[key]
    decreases |accesses|
  {
    if accesses != [] {
      hide AtCapacity;
      var a, rest := accesses[0], accesses[1..];
      forall i | 0 <= i < |rest|
        ensures a.now <= rest[i].now && !(rest[i].Count? && rest[i].key == key)
      {
        assert rest[i] == accesses[i + 1];
      }
      Untouched(Accessed(c, a, window), key, rest, a.now, later, window);
    }
  }

  /** Waiting as long as a count-based refusal asks, with no further count of the key, clears it, unless the
      table has meanwhile filled up or the limit admits nothing at all. */
  lemma RetryClears(c: Counter, key: string, now: real, accesses: seq<Access>, later: real, limit: int, window: real)
    requires InOrder(now, accesses)
    requires forall i :: 0 <= i < |accesses| ==> !(accesses[i].Count? && accesses[i].key == key)
    requires Peeked(c, key, now, limit, window).over && !Refused(c, key, now, window)
    requires later >= now + Peeked(c, key, now, limit, window).retryAfter as real
    ensures
      var waited := AccessedAll(Prepared(c, key, now, window), accesses, window);
      Peeked(waited, key, later, limit, window).over <==> Refused(waited, key, later, window) || limit <= 0
  {
    var p := Prepared(c, key, now, window);
    var waited := AccessedAll(p, accesses, window);
    Untouched(p, key, accesses, now, later, window);
    assert Prepared(waited, key, later, window).buckets.Keys <= waited.buckets.Keys;
  }

  /** A refusal for lack of room clears after the whole seconds of one window, if nothing is counted
      meanwhile, whatever is peeked at, and the window is a whole number of seconds, as every window in use is. */
  lemma CapacityRetryClears(c: Counter, key: string, now: real, peeks: seq<Access>, later: real, limit: int,
      window: int)
    requires window >= 0 && (forall k :: k in c.buckets ==> c.buckets[k].start <= now)
    requires InOrder(now, peeks) && forall i :: 0 <= i < |peeks| ==> peeks[i].Peek?
    requires Refused(c, key, now, window as real)
    requires later >= now + Peeked(c, key, now, limit, window as real).retryAfter as real
    ensures !Refused(AccessedAll(Prepared(c, key, now, window as real), peeks, window as real), key, later,
      window as real)
  {
    var p := Prepared(c, key, now, window as real);
    var waited := AccessedAll(p, peeks, window as real);
    forall k | k in waited.buckets ensures waited.buckets[k].start <= now {
      Untouched(p, k, peeks, now, later, window as real);
      assert k in c.buckets && p.buckets[k] == c.buckets[k];
    }
    AllOld(waited, key, now, later, window as real);
  }

  lemma AllOld(c: Counter, key: string, now: real, later: real, window: real)
    requires (forall k :: k in c.buckets ==> c.buckets[k].start <= now) && later >= now + window
    ensures !Refused(c, key, later, window)
  {
    assert Evicted(c.buckets, later, window) == map[];
  }

  // ---------------------------------------------------------------- the two throttles

  datatype Verdict = Allowed | TooMany(retryAfter: int)

  class InviteThrottle {
    const probe: FixedWindowCounter

    constructor ()
      ensures fresh(probe) && probe.limit == 30 && probe.window == 3600.0
      ensures probe.Value() == Counter(map[], 0)
    {
      probe := new FixedWindowCounter(30, 3600.0);
    }

    /** `checked` and `counted` are the clock readings of the two calls. */
    method CheckProbe(actor: string, checked: real, counted: real) returns (v: Verdict)
      modifies probe
      ensures probe.Value() ==
        Served(old(probe.Value()), Call(actor, checked, counted, true), probe.limit, probe.window)
      ensures v.Allowed? ==
        Admitted(old(probe.Value()), Call(actor, checked, counted, true), probe.limit, probe.window)
      ensures v.TooMany? ==>
        v.retryAfter == Peeked(old(probe.Value()), actor, checked, probe.limit, probe.window).retryAfter
    {
      var answer := probe.OverLimit(actor, checked);
      if answer.over {
        return TooMany(answer.retryAfter);
      }
      probe.Increment(actor, counted);
      return Allowed;
    }
  }

  class AcceptThrottle {
    const minute: FixedWindowCounter
    const hour: FixedWindowCounter

    constructor ()
      ensures fresh(minute) && fresh(hour) && minute != hour
      ensures minute.limit == 10 && minute.window == 60.0 && minute.Value() == Counter(map[], 0)
      ensures hour.limit == 50 && hour.window == 3600.0 && hour.Value() == Counter(map[], 0)
    {
      minute := new FixedWindowCounter(10, 60.0);
      hour := new FixedWindowCounter(50, 3600.0);
    }

    /** One request: both counters see a check before either counts, and both count or neither does. The hour
        counter is not consulted when the minute counter already says no. */
    method Check(client: string, t1: real, t2: real, t3: real, t4: real) returns (v: Verdict)
      requires minute != hour
      modifies minute, hour
      ensures v.Allowed? <==>
        !Peeked(old(minute.Value()), client, t1, minute.limit, minute.window).over
        && !Peeked(old(hour.Value()), client, t2, hour.limit, hour.window).over
      ensures v.TooMany? ==>
        var first := Peeked(old(minute.Value()), client, t1, minute.limit, minute.window);
        var second := Peeked(old(hour.Value()), client, t2, hour.limit, hour.window);
        v.retryAfter == (if first.over then first.retryAfter else second.retryAfter)
      ensures minute.Value() ==
        Served(old(minute.Value()), Call(client, t1, t3, v.Allowed?), minute.limit, minute.window)
      ensures hour.Value() ==
        (if Peeked(old(minute.Value()), client, t1, minute.limit, minute.window).over then old(hour.Value())
         else Served(old(hour.Value()), Call(client, t2, t4, true), hour.limit, hour.window))
    {
      var answer := minute.OverLimit(client, t1);
      if !answer.over {
        answer := hour.OverLimit(client, t2);
      }
      if answer.over {
        return TooMany(answer.retryAfter);
      }
      minute.Increment(client, t3);
      hour.Increment(client, t4);
      return Allowed;
    }
  }
}
