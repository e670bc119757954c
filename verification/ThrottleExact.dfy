/**
 When a check says no, and for how long: against the plain list of the times a key was counted, over any run of checks
 and counts of any keys.
 */
module ThrottleExact {
  import opened RateLimiter
  import opened Throttles
  import opened Sets

  /** The times a key was counted over a run, those turned away for lack of room left out. */
  function CountTimes(c: Counter, accesses: seq<Access>, key: string, window: real): seq<real>
    decreases |accesses|
  {
    if accesses == [] then []
    else
      var a := accesses[0];
      (if a.Count? && a.key == key && !Refused(c, a.key, a.now, window) then [a.now] else [])
      + CountTimes(Accessed(c, a, window), accesses[1..], key, window)
  }

  /** The window each count falls in, by its start: the window of the count before it, if that is not over yet, and
      otherwise a new one. */
  function Starts(times: seq<real>, window: real): (starts: seq<real>)
    ensures |starts| == |times|
  {
    if times == [] then []
    else
      var init, t := Starts(times[..|times| - 1], window), times[|times| - 1];
      init + [if init != [] && t < init[|init| - 1] + window then init[|init| - 1] else t]
  }

  /** The counts whose window is not over. */
  ghost function Live(times: seq<real>, now: real, window: real): set<int> {
    set i | 0 <= i < |times| && now < Starts(times, window)[i] + window
  }

  /** The bucket of the key holds exactly its newest counts, those of one window; earlier windows were over before that
      one began. A key without a bucket has no window that is not over. */
  ghost predicate Tallied(m: Buckets, key: string, times: seq<real>, now: real, window: real) {
    var starts := Starts(times, window);
    if key !in m then times != [] ==> now >= starts[|starts| - 1] + window
    else
      && 1 <= m[key].count <= |times| && m[key].start <= now
      && (forall i :: |times| - m[key].count <= i < |times| ==> starts[i] == m[key].start)
      && (forall i :: 0 <= i < |times| - m[key].count ==> starts[i] + window <= m[key].start)
  }

  ghost predicate Rising(times: seq<real>, now: real, window: real) {
    && (forall i :: 0 <= i < |times| ==> times[i] <= now)
    && (forall i, j :: 0 <= i < j < |times| ==> Starts(times, window)[i] <= Starts(times, window)[j])
    && (forall i :: 0 <= i < |times| ==> Starts(times, window)[i] <= times[i])
  }

  lemma TalliedPrepared(c: Counter, k: string, key: string, times: seq<real>, before: real, now: real, window: real)
    requires Tallied(c.buckets, key, times, before, window) && before <= now
    ensures Tallied(Prepared(c, k, now, window).buckets, key, times, now, window)
  {
    var s := Swept(c, now, window);
    assert Tallied(s.buckets, key, times, now, window);
  }

  lemma StartsSnoc(times: seq<real>, t: real, window: real)
    ensures
      var starts := Starts(times, window);
      Starts(times + [t], window)
        == starts + [if starts != [] && t < starts[|starts| - 1] + window then starts[|starts| - 1] else t]
  {
    assert (times + [t])[..|times|] == times;
  }

  /** The current bucket of the key, started afresh or not, in terms of the times. */
  lemma CurrentTallied(m: Buckets, key: string, times: seq<real>, now: real, window: real)
    requires window > 0.0 && Tallied(m, key, times, now, window) && Rising(times, now, window)
    ensures
      var b, starts := Current(m, key, now, window), Starts(times, window);
      && b.count <= |times| && b.start <= now < b.start + window
      && (b.count == 0 ==> b.start == now)
      && (forall i :: |times| - b.count <= i < |times| ==> starts[i] == b.start)
      && (forall i :: 0 <= i < |times| - b.count ==> starts[i] + window <= b.start)
  {
    var b, starts := Current(m, key, now, window), Starts(times, window);
    if b.count == 0 && times != [] {
      assert starts[|starts| - 1] + window <= now;
      assert forall i :: 0 <= i < |times| - 1 ==> starts[i] <= starts[|times| - 1];
    }
  }

  /** One more count, in the window that starts at `start`. */
  lemma StartsGrow(times: seq<real>, start: real, count: nat, now: real, window: real)
    requires window > 0.0 && Rising(times, now, window) && count <= |times| && start <= now < start + window
    requires count == 0 ==> start == now
    requires forall i :: |times| - count <= i < |times| ==> Starts(times, window)[i] == start
    requires forall i :: 0 <= i < |times| - count ==> Starts(times, window)[i] + window <= start
    ensures Starts(times + [now], window) == Starts(times, window) + [start]
  {
    StartsSnoc(times, now, window);
    hide Starts, Rising;
  }

  lemma RisingGrows(times: seq<real>, start: real, now: real, window: real)
    requires Rising(times, now, window) && Starts(times + [now], window) == Starts(times, window) + [start]
    requires start <= now && forall i :: 0 <= i < |times| ==> Starts(times, window)[i] <= start
    ensures Rising(times + [now], now, window)
  {
    hide Starts;
  }

  lemma TalliedCounted(m: Buckets, key: string, times: seq<real>, now: real, window: real)
    requires window > 0.0 && Tallied(m, key, times, now, window) && Rising(times, now, window)
    ensures
      var b := Current(m, key, now, window);
      && Tallied(m[key := Bucket(b.start, b.count + 1)], key, times + [now], now, window)
      && Rising(times + [now], now, window)
  {
    var b := Current(m, key, now, window);
    CurrentTallied(m, key, times, now, window);
    hide Current, Starts, Rising;
    StartsGrow(times, b.start, b.count, now, window);
    RisingGrows(times, b.start, now, window);
    NewTally(m[key := Bucket(b.start, b.count + 1)], key, times, b, now, window);
  }

  lemma NewTally(m: Buckets, key: string, times: seq<real>, b: Bucket, now: real, window: real)
    requires key in m && m[key] == Bucket(b.start, b.count + 1) && b.count <= |times| && b.start <= now
    requires Starts(times + [now], window) == Starts(times, window) + [b.start]
    requires forall i :: |times| - b.count <= i < |times| ==> Starts(times, window)[i] == b.start
    requires forall i :: 0 <= i < |times| - b.count ==> Starts(times, window)[i] + window <= b.start
    ensures Tallied(m, key, times + [now], now, window)
  {
    hide Starts;
  }

  lemma AccessTallied(c: Counter, a: Access, key: string, times: seq<real>, from: real, window: real)
    returns (grown: seq<real>)
    requires window > 0.0 && from <= a.now
    requires Tallied(c.buckets, key, times, from, window) && Rising(times, from, window)
    ensures grown
      == times + (if a.Count? && a.key == key && !Refused(c, a.key, a.now, window) then [a.now] else [])
    ensures Tallied(Accessed(c, a, window).buckets, key, grown, a.now, window) && Rising(grown, a.now, window)
  {
    TalliedPrepared(c, a.key, key, times, from, a.now, window);
    hide Prepared, Refused, Current, Starts;
    if a.Count? && a.key == key && !Refused(c, a.key, a.now, window) {
      TalliedCounted(Prepared(c, key, a.now, window).buckets, key, times, a.now, window);
      grown := times + [a.now];
    } else {
      grown := times + [];
      assert grown == times;
    }
  }

  ghost predicate AllBefore(accesses: seq<Access>, now: real) {
    forall i :: 0 <= i < |accesses| ==> accesses[i].now <= now
  }

  lemma {:induction false} RunTallied(c: Counter, accesses: seq<Access>, key: string, times: seq<real>, from: real,
                                      now: real, window: real)
    requires window > 0.0 && InOrder(from, accesses) && AllBefore(accesses, now) && from <= now
    requires Tallied(c.buckets, key, times, from, window) && Rising(times, from, window)
    ensures
      var all := times + CountTimes(c, accesses, key, window);
      Tallied(AccessedAll(c, accesses, window).buckets, key, all, now, window) && Rising(all, now, window)
    decreases |accesses|
  {
    hide Tallied, Rising, Accessed, Refused, Starts;
    if accesses == [] {
      assert times + [] == times;
      TalliedLater(c.buckets, key, times, from, now, window);
    } else {
      var a, rest := accesses[0], accesses[1..];
      var grown := AccessTallied(c, a, key, times, from, window);
      forall i | 0 <= i < |rest| ensures a.now <= rest[i].now <= now { assert rest[i] == accesses[i + 1]; }
      RunTallied(Accessed(c, a, window), rest, key, grown, a.now, now, window);
      assert times + CountTimes(c, accesses, key, window)
        == grown + CountTimes(Accessed(c, a, window), rest, key, window);
    }
  }

  lemma TalliedLater(m: Buckets, key: string, times: seq<real>, from: real, now: real, window: real)
    requires from <= now && Tallied(m, key, times, from, window) && Rising(times, from, window)
    ensures Tallied(m, key, times, now, window) && Rising(times, now, window)
  {}

  lemma {:induction false} RangeSize(s: set<int>, low: int, n: nat)
    requires forall i :: i in s <==> low <= i < low + n
    ensures |s| == n
    decreases n
  {
    if n > 0 { RangeSize(s - {low + n - 1}, low, n - 1); } else { WithinRange(s, low, n); }
  }

  lemma LiveCounts(m: Buckets, key: string, times: seq<real>, now: real, window: real)
    requires window > 0.0 && Tallied(m, key, times, now, window) && Rising(times, now, window)
    ensures |Live(times, now, window)| == Current(m, key, now, window).count
    ensures Live(times, now, window) != {} ==> Current(m, key, now, window).start == Starts(times, window)[|times| - 1]
    ensures Live(times, now, window) == {} ==> Current(m, key, now, window).start == now
  {
    var b := Current(m, key, now, window);
    CurrentTallied(m, key, times, now, window);
    hide Current, Starts, Tallied, Rising;
    var low := |times| - b.count;
    assert forall i :: i in Live(times, now, window) <==> low <= i < low + b.count;
    RangeSize(Live(times, now, window), low, b.count);
    if b.count == 0 { assert Live(times, now, window) == {}; } else { assert |times| - 1 in Live(times, now, window); }
  }

  /** How long the current window still lasts: the one of the newest count, or one that would start now. */
  ghost function Rest(times: seq<real>, now: real, window: real): real {
    (if Live(times, now, window) != {} then Starts(times, window)[|times| - 1] else now) + window - now
  }

  /** After any run, a check says no exactly when there is no room for the key, the limit admits nothing, or as many
      counts as the limit are in a window that is not over. It then asks to wait for the rest of that window, rounded up
      to the next whole second after it, and for lack of room for the whole seconds of one window. */
  lemma CheckExact(accesses: seq<Access>, key: string, from: real, now: real, limit: int, window: real)
    requires window > 0.0 && InOrder(from, accesses) && AllBefore(accesses, now) && from <= now
    ensures
      var c := AccessedAll(Counter(map[], 0), accesses, window);
      var times := CountTimes(Counter(map[], 0), accesses, key, window);
      var answer := Peeked(c, key, now, limit, window);
      && (answer.over <==>
           Refused(c, key, now, window) || limit <= 0 || |Live(times, now, window)| >= limit)
      && (!answer.over ==> answer.retryAfter == 0)
      && (Refused(c, key, now, window) ==> window - 1.0 < answer.retryAfter as real <= window)
      && (answer.over && !Refused(c, key, now, window) ==>
           Rest(times, now, window) < answer.retryAfter as real <= Rest(times, now, window) + 1.0)
  {
    var empty := Counter(map[], 0);
    var c := AccessedAll(empty, accesses, window);
    var times := CountTimes(empty, accesses, key, window);
    RunTallied(empty, accesses, key, [], from, now, window);
    assert [] + times == times;
    TalliedPrepared(c, key, key, times, now, now, window);
    var m := Prepared(c, key, now, window).buckets;
    LiveCounts(m, key, times, now, window);
    CurrentTallied(m, key, times, now, window);
    hide Starts, Tallied, Rising, Current, Prepared, Refused, Live;
  }
}
