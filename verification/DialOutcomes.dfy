/**
 How dials end, over whole runs of the dialler: what a report does to the contact's row, and by how much the in-flight
 counter can be off. Nothing here names the functions the steps decide with.
 */
module DialOutcomes {
  import opened Sets
  import opened Dialler

  // ---------------------------------------------------------------- how a dial ends

  /** At step `j` the dial was reported on: refused when it was placed, or by a job event. */
  ghost predicate Reported(worlds: seq<World>, steps: seq<Step>, j: nat, call: nat, succeeded: bool, noAnswer: bool)
    requires j < |steps| < |worlds|
  {
    || (steps[j].Rejected? && worlds[j].tick == Dialling(call) && !succeeded && !noAnswer)
    || (steps[j].JobDone? && steps[j].job in worlds[j].jobs && worlds[j].jobs[steps[j].job] == call
        && steps[j].succeeded == succeeded && steps[j].noAnswer == noAnswer)
  }

  /** A success completes the contact. A failure puts it back in the queue while attempts remain, and otherwise ends it
      with what was reported. */
  ghost predicate EndsAs(d: Dial, succeeded: bool, noAnswer: bool, status: Status) {
    && (succeeded ==> status == Completed)
    && (!succeeded && d.attempt < d.maxAttempts ==> status == Pending)
    && (!succeeded && d.attempt >= d.maxAttempts && noAnswer ==> status == NoAnswer)
    && (!succeeded && d.attempt >= d.maxAttempts && !noAnswer ==> status == Failed)
  }

  /** A dial reported on is out of reach of further reports, and its row is to end as reported. */
  ghost predicate Decided(w: World, call: nat, succeeded: bool, noAnswer: bool) {
    && call < |w.dials| && !JobHolds(w, call) && w.tick != Dialling(call)
    && (call in w.resolving ==> EndsAs(w.dials[call], succeeded, noAnswer, w.resolving[call].target))
  }

  lemma ReportDecides(w: World, s: Step, call: nat, succeeded: bool, noAnswer: bool)
    requires Separate(w) && Enabled(w, s) && call < |w.dials|
    requires
      || (s.Rejected? && w.tick == Dialling(call) && !succeeded && !noAnswer)
      || (s.JobDone? && s.job in w.jobs && w.jobs[s.job] == call && s.succeeded == succeeded && s.noAnswer == noAnswer)
    ensures Decided(After(w, s), call, succeeded, noAnswer)
  {
    hide SomeWith, Claimed, Marked;
  }

  lemma DecidedKept(w: World, s: Step, call: nat, succeeded: bool, noAnswer: bool)
    requires Decided(w, call, succeeded, noAnswer) && Enabled(w, s)
    ensures Decided(After(w, s), call, succeeded, noAnswer)
  {
    hide SomeWith, Claimed, Marked, Settled, Outcome, EndsAs;
  }

  lemma ReportedInRange(worlds: seq<World>, steps: seq<Step>, b: Bounds, j: nat, call: nat, succeeded: bool,
                        noAnswer: bool)
    requires Run(worlds, steps, b) && Started(worlds[0], b) && j < |steps|
    requires Reported(worlds, steps, j, call, succeeded, noAnswer)
    ensures call < |worlds[j].dials| && Separate(worlds[j])
  {
    HeldOnce(worlds, steps, b, j);
  }

  lemma {:induction false} StaysDecided(worlds: seq<World>, steps: seq<Step>, b: Bounds, j: nat, n: nat, call: nat,
                                        succeeded: bool, noAnswer: bool)
    requires Run(worlds, steps, b) && Started(worlds[0], b) && j < n < |worlds|
    requires Reported(worlds, steps, j, call, succeeded, noAnswer)
    ensures Decided(worlds[n], call, succeeded, noAnswer)
    decreases n
  {
    hide After, Enabled, Allowed, Decided, Separate, Started;
    if n == j + 1 {
      ReportedInRange(worlds, steps, b, j, call, succeeded, noAnswer);
      ReportDecides(worlds[j], steps[j], call, succeeded, noAnswer);
    } else {
      StaysDecided(worlds, steps, b, j, n - 1, call, succeeded, noAnswer);
      DecidedKept(worlds[n - 1], steps[n - 1], call, succeeded, noAnswer);
      assert worlds[n - 1 + 1] == worlds[n];
    }
  }

  lemma MarkSets(w: World, call: nat)
    requires Enabled(w, Mark(call))
    ensures var c := w.dials[call].contact;
      c in After(w, Mark(call)).contacts && After(w, Mark(call)).contacts[c].status == w.resolving[call].target
  {}

  /** The row written for a dial says what was reported on it. */
  lemma DialEnds(worlds: seq<World>, steps: seq<Step>, b: Bounds, j: nat, m: nat, call: nat, succeeded: bool,
                 noAnswer: bool)
    requires Run(worlds, steps, b) && Started(worlds[0], b) && j < m < |steps|
    requires Reported(worlds, steps, j, call, succeeded, noAnswer) && steps[m] == Mark(call)
    ensures
      var d := worlds[m].dials[call];
      d.contact in worlds[m + 1].contacts && EndsAs(d, succeeded, noAnswer, worlds[m + 1].contacts[d.contact].status)
  {
    hide After, Enabled, Allowed, Started;
    StaysDecided(worlds, steps, b, j, m, call, succeeded, noAnswer);
    assert Enabled(worlds[m], Mark(call)) && worlds[m + 1] == After(worlds[m], Mark(call));
    CanMark(worlds[m], call);
    MarkSets(worlds[m], call);
  }

  lemma CanMark(w: World, call: nat)
    requires Enabled(w, Mark(call))
    ensures call in w.resolving && call < |w.dials|
  {}

  /** No row is written for a dial that was not reported on. */
  lemma {:induction false} ReportedBefore(worlds: seq<World>, steps: seq<Step>, b: Bounds, m: nat, call: nat)
    requires Run(worlds, steps, b) && Started(worlds[0], b) && m < |worlds| && call in worlds[m].resolving
    ensures exists j, succeeded, noAnswer :: 0 <= j < m && Reported(worlds, steps, j, call, succeeded, noAnswer)
  {
    if m > 0 {
      var w, s := worlds[m - 1], steps[m - 1];
      assert worlds[m] == After(w, s) && Enabled(w, s);
      if call in w.resolving {
        ReportedBefore(worlds, steps, b, m - 1, call);
      } else {
        NewResolution(w, s, call);
        assert s.Rejected? ==> Reported(worlds, steps, m - 1, call, false, false);
        assert s.JobDone? ==> Reported(worlds, steps, m - 1, call, s.succeeded, s.noAnswer);
      }
    }
  }

  lemma NewResolution(w: World, s: Step, call: nat)
    requires Enabled(w, s) && call !in w.resolving && call in After(w, s).resolving
    ensures (s.Rejected? && w.tick == Dialling(call)) || (s.JobDone? && s.job in w.jobs && w.jobs[s.job] == call)
  {
    hide SomeWith, Claimed, Marked, Settled, Outcome;
  }

  /** A contact that is neither being called nor newly blocked changes only when the row of one of its dials is written,
      and then as that dial was reported: it is queued again only after a failure with attempts left, and completed only
      by a success. */
  lemma OnlyReportsChange(worlds: seq<World>, steps: seq<Step>, b: Bounds, k: nat, c: nat)
    requires Run(worlds, steps, b) && Started(worlds[0], b) && k < |steps| && c in worlds[k].contacts
    requires c in worlds[k + 1].contacts
    requires
      var now := worlds[k + 1].contacts[c].status;
      now != worlds[k].contacts[c].status && now != Calling && now != Blocked
    ensures exists j: nat, call: nat, succeeded: bool, noAnswer: bool ::
      && 0 <= j < k && Reported(worlds, steps, j, call, succeeded, noAnswer)
      && steps[k] == Mark(call) && call < |worlds[k].dials| && worlds[k].dials[call].contact == c
      && EndsAs(worlds[k].dials[call], succeeded, noAnswer, worlds[k + 1].contacts[c].status)
  {
    hide After, Allowed, Started;
    assert Enabled(worlds[k], steps[k]) && worlds[k + 1] == After(worlds[k], steps[k]);
    OnlyMarks(worlds[k], steps[k], c);
    hide Enabled, EndsAs, Reported;
    var call := steps[k].call;
    ReportedBefore(worlds, steps, b, k, call);
    var j, succeeded, noAnswer :| 0 <= j < k && Reported(worlds, steps, j, call, succeeded, noAnswer);
    DialEnds(worlds, steps, b, j, k, call, succeeded, noAnswer);
  }

  lemma OnlyMarks(w: World, s: Step, c: nat)
    requires Enabled(w, s) && c in w.contacts && c in After(w, s).contacts
    requires
      var now := After(w, s).contacts[c].status;
      now != w.contacts[c].status && now != Calling && now != Blocked
    ensures s.Mark? && s.call in w.resolving && s.call < |w.dials| && w.dials[s.call].contact == c
  {
    hide SomeWith, Settled, Outcome;
  }

  /** A person who answered is not dialled again: from the moment the row is written the contact is completed and no new
      dial is theirs. */
  lemma AnsweredForGood(worlds: seq<World>, steps: seq<Step>, b: Bounds, j: nat, m: nat, n: nat, call: nat,
                        noAnswer: bool)
    requires Run(worlds, steps, b) && Started(worlds[0], b) && j < m < |steps| && m < n < |worlds|
    requires Reported(worlds, steps, j, call, true, noAnswer) && steps[m] == Mark(call)
    requires call < |worlds[m].dials|
    ensures
      var c := worlds[m].dials[call].contact;
      && c in worlds[n].contacts && worlds[n].contacts[c].status == Completed
      && |worlds[m].dials| <= |worlds[n].dials|
      && forall i :: |worlds[m].dials| <= i < |worlds[n].dials| ==> worlds[n].dials[i].contact != c
  {
    hide Reported, After, Enabled, Allowed, Started;
    DialEnds(worlds, steps, b, j, m, call, true, noAnswer);
    MarkPlacesNone(worlds, steps, b, m);
    NotDialled(worlds, steps, b, m + 1, n, worlds[m].dials[call].contact);
    TerminalForGood(worlds, steps, b, m + 1, n, worlds[m].dials[call].contact);
  }

  lemma MarkPlacesNone(worlds: seq<World>, steps: seq<Step>, b: Bounds, m: nat)
    requires Run(worlds, steps, b) && m < |steps| && steps[m].Mark?
    ensures worlds[m + 1].dials == worlds[m].dials
  {
    assert worlds[m + 1] == After(worlds[m], steps[m]);
  }

  /** A contact that is done is dialled no more. */
  lemma {:induction false} NotDialled(worlds: seq<World>, steps: seq<Step>, b: Bounds, i: nat, n: nat, c: nat)
    requires Run(worlds, steps, b) && Started(worlds[0], b) && i <= n < |worlds|
    requires c in worlds[i].contacts && Terminal(worlds[i].contacts[c].status)
    ensures worlds[i].dials <= worlds[n].dials
    ensures forall k :: |worlds[i].dials| <= k < |worlds[n].dials| ==> worlds[n].dials[k].contact != c
    decreases n
  {
    hide After, Enabled, Allowed, Started;
    if i < n {
      NotDialled(worlds, steps, b, i, n - 1, c);
      TerminalForGood(worlds, steps, b, i, n - 1, c);
      HeldOnce(worlds, steps, b, n - 1);
      assert Enabled(worlds[n - 1], steps[n - 1]) && worlds[n - 1 + 1] == After(worlds[n - 1], steps[n - 1]);
      NewDialCalling(worlds[n - 1], steps[n - 1], c);
    }
  }

  lemma NewDialCalling(w: World, s: Step, c: nat)
    requires Held(w) && Enabled(w, s) && c in w.contacts && Terminal(w.contacts[c].status)
    ensures w.dials <= After(w, s).dials
    ensures forall k :: |w.dials| <= k < |After(w, s).dials| ==> After(w, s).dials[k].contact != c
  {
    hide SomeWith, Claimed, Marked, Settled, Outcome;
  }

  // ---------------------------------------------------------------- attempts, claims and do-not-call hits

  /** The times the contact was claimed. */
  function Claims(steps: seq<Step>, c: nat): nat {
    if steps == [] then 0
    else
      var last := steps[|steps| - 1];
      Claims(steps[..|steps| - 1], c)
        + if (last.Claim? || last.ClaimLost?) && last.contact == c then 1 else 0
  }

  function AttemptsAt(w: World, c: nat): nat { if c in w.contacts then w.contacts[c].attempts else 0 }

  lemma OneClaim(w: World, s: Step, c: nat)
    requires Enabled(w, s)
    ensures AttemptsAt(After(w, s), c) == AttemptsAt(w, c) + Claims([s], c)
  {
    hide SomeWith, Settled, Outcome;
  }

  /** A contact's attempts are those it started with and one for every time it was claimed. */
  lemma {:induction false} AttemptsExact(worlds: seq<World>, steps: seq<Step>, b: Bounds, k: nat, c: nat)
    requires Run(worlds, steps, b) && k < |worlds|
    ensures AttemptsAt(worlds[k], c) == AttemptsAt(worlds[0], c) + Claims(steps[..k], c)
  {
    hide After, Enabled, Allowed;
    if k > 0 {
      AttemptsExact(worlds, steps, b, k - 1, c);
      OneClaim(worlds[k - 1], steps[k - 1], c);
      assert steps[..k][..k - 1] == steps[..k - 1];
    }
  }

  /** No dial ends in a contact being busy or blocked. */
  ghost predicate PlainTargets(w: World) {
    forall k :: k in w.resolving ==> w.resolving[k].target != Calling && w.resolving[k].target != Blocked
  }

  lemma PlainTargetsKept(w: World, s: Step)
    requires Enabled(w, s) && PlainTargets(w)
    ensures PlainTargets(After(w, s))
  {
    hide SomeWith, Claimed, Marked;
  }

  lemma {:induction false} RunPlainTargets(worlds: seq<World>, steps: seq<Step>, b: Bounds, k: nat)
    requires Run(worlds, steps, b) && Started(worlds[0], b) && k < |worlds|
    ensures PlainTargets(worlds[k])
  {
    hide After, Enabled, Allowed;
    if k > 0 {
      RunPlainTargets(worlds, steps, b, k - 1);
      PlainTargetsKept(worlds[k - 1], steps[k - 1]);
    }
  }

  /** Only a claim makes a contact busy, from the queue; only the do-not-call list blocks one, the one that was claimed;
      and a contact that is new was uploaded, in the queue, with nothing tried. */
  lemma OtherChanges(worlds: seq<World>, steps: seq<Step>, b: Bounds, k: nat, c: nat)
    requires Run(worlds, steps, b) && Started(worlds[0], b) && k < |steps| && c in worlds[k + 1].contacts
    ensures
      var w, s, now := worlds[k], steps[k], worlds[k + 1].contacts[c];
      && (c in w.contacts && now.status == Calling && w.contacts[c].status != Calling ==>
            (s.Claim? || s.ClaimLost?) && s.contact == c && w.contacts[c].status == Pending)
      && (c in w.contacts && now.status == Blocked && w.contacts[c].status != Blocked ==>
            s.MarkBlocked? && w.tick.Blocking? && w.tick.contact == c)
      && (c !in w.contacts ==> s.Upload? && c in s.ids && now == Contact(Pending, 0))
  {
    RunPlainTargets(worlds, steps, b, k);
    assert Enabled(worlds[k], steps[k]) && worlds[k + 1] == After(worlds[k], steps[k]);
    hide SomeWith, Settled, Outcome;
  }

  /** A new dial is placed for the contact the tick has claimed and checked, as its latest attempt. */
  lemma NewDialIs(w: World, s: Step)
    requires Enabled(w, s) && After(w, s).dials != w.dials
    ensures s.Place? && w.tick.Checking? && w.tick.contact in w.contacts
    ensures
      After(w, s).dials ==
        w.dials + [Dial(w.tick.contact, AttemptsAt(w, w.tick.contact), w.tick.maxAttempts, w.tick.now)]
  {
    hide SomeWith, Settled, Outcome, Claimed, Marked;
  }

  // ---------------------------------------------------------------- when the tick goes on, and what the counter says

  /** A tick goes on to claim a contact exactly when the pacing has passed since the last dial, the counter is below the
      cap, and the campaign is ready. */
  lemma TickGoesOn(w: World, now: real, pacing: real, cap: int, maxAttempts: int, ready: bool)
    requires w.tick.Idle?
    ensures After(w, Begin(now, pacing, cap, maxAttempts, ready)) ==
      if now - w.lastAt >= pacing && w.inFlight < cap && ready
      then w.(tick := Claiming(w.inFlight, now, maxAttempts)) else w
  {}

  /** The releases that fell between a tick's reading of the counter and its write-back: since the reading, and in all
      the write-backs so far. */
  datatype Overlap = Overlap(open: nat, lost: nat)

  function NextOverlap(v: Overlap, s: Step): Overlap {
    match s
    case Begin(_, _, _, _, _) => v.(open := 0)
    case Release(_) => v.(open := v.open + 1)
    case Place => v.(lost := v.lost + v.open)
    case _ => v
  }

  ghost function Overlapped(worlds: seq<World>, steps: seq<Step>, k: nat): Overlap
    requires k <= |steps| < |worlds|
  {
    if k == 0 then Overlap(0, 0) else NextOverlap(Overlapped(worlds, steps, k - 1), steps[k - 1])
  }

  /** The counter is over by the lost releases and by nothing else. */
  ghost predicate OverBy(w: World, v: Overlap) {
    && w.inFlight == |w.owed| + v.lost
    && (w.tick.Claiming? || w.tick.Checking? ==> w.tick.seen == w.inFlight + v.open)
  }

  lemma OverPlace(w: World, v: Overlap)
    requires Separate(w) && Enabled(w, Place) && OverBy(w, v)
    ensures OverBy(After(w, Place), NextOverlap(v, Place))
  {
    assert |w.dials| !in w.owed;
    assert |w.owed + {|w.dials|}| == |w.owed| + 1;
    assert After(w, Place).owed == w.owed + {|w.dials|};
  }

  lemma OverRelease(w: World, call: nat, v: Overlap)
    requires Separate(w) && Enabled(w, Release(call)) && OverBy(w, v)
    ensures OverBy(After(w, Release(call)), NextOverlap(v, Release(call)))
  {
    assert call in w.owed;
    assert |w.owed - {call}| == |w.owed| - 1;
    assert After(w, Release(call)).owed == w.owed - {call};
  }

  lemma OverOther(w: World, s: Step, v: Overlap)
    requires Enabled(w, s) && OverBy(w, v) && !s.Place? && !s.Release?
    ensures OverBy(After(w, s), NextOverlap(v, s))
  {
    hide SomeWith, Claimed, Marked, Settled, Outcome;
    assert After(w, s).owed == w.owed;
  }

  lemma OverKept(w: World, s: Step, v: Overlap)
    requires Separate(w) && Enabled(w, s) && OverBy(w, v)
    ensures OverBy(After(w, s), NextOverlap(v, s))
  {
    hide Separate, Enabled, After, OverBy, NextOverlap;
    match s
    case Place => OverPlace(w, v);
    case Release(call) => OverRelease(w, call, v);
    case _ => OverOther(w, s, v);
  }

  /** At every moment the in-flight counter is the number of calls owed to it plus the releases that a tick, reading
      before them and writing after them, has overwritten: it is exact when no call ends while a contact is claimed. */
  lemma {:induction false} CounterExact(worlds: seq<World>, steps: seq<Step>, b: Bounds, k: nat)
    requires Run(worlds, steps, b) && Started(worlds[0], b) && k < |worlds|
    ensures OverBy(worlds[k], Overlapped(worlds, steps, k))
  {
    hide After, Enabled, Allowed, OverBy, Separate;
    if k == 0 {
      StartedExact(worlds[0], b);
    } else {
      CounterExact(worlds, steps, b, k - 1);
      HeldOnce(worlds, steps, b, k - 1);
      OverKept(worlds[k - 1], steps[k - 1], Overlapped(worlds, steps, k - 1));
    }
  }

  lemma StartedExact(w: World, b: Bounds)
    requires Started(w, b)
    ensures OverBy(w, Overlap(0, 0))
  {}
}
