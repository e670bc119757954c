/**
 The campaign dialler as a state machine. One tick at a time and any number of job-completion callbacks
 advance from await to await; each step below is what one of them does, or what the database does for it,
 between two awaits. One campaign is followed; the worker keeps every campaign's numbers apart by its id.

 A dial is named by its place in `dials`. It is `live` from the moment it is placed until its contact's row
 says how it ended, and `owed` until the in-flight counter has been lowered for it. A dial whose event is lost
 or whose bookkeeping raises stays in both for good.
 */
module Dialler {
  import opened Sets

  datatype Status = Pending | Calling | Completed | Failed | NoAnswer | Blocked

  datatype Contact = Contact(status: Status, attempts: nat)

  datatype Dial = Dial(contact: nat, attempt: nat, maxAttempts: int, at: real)

  /** Where the tick stands: what it awaits, and what it remembers meanwhile. */
  datatype Tick =
    | Idle
    | Claiming(seen: int, now: real, maxAttempts: int)
    | Checking(seen: int, now: real, maxAttempts: int, contact: nat)
    | Blocking(contact: nat)
    | Dialling(call: nat)
    | Settling(call: nat)
    | Counting
    | Finishing

  /** A callback, or the tick itself, ending a dial: first the row, then the counter. */
  datatype Resolution = Resolution(target: Status, marked: bool)

  datatype World = World(
    contacts: map<nat, Contact>,
    inFlight: int,
    lastAt: real,
    tick: Tick,
    jobs: map<string, nat>,
    resolving: map<nat, Resolution>,
    dials: seq<Dial>,
    live: set<nat>,
    owed: set<nat>,
    finished: bool)

  datatype Step =
    | Begin(now: real, pacing: real, cap: int, maxAttempts: int, ready: bool)
    | Claim(contact: nat)
    | ClaimNone
    | ClaimLost(contact: nat)
    | FoundBlocked
    | MarkBlocked
    | Place
    | Accepted(job: string)
    | Rejected
    | JobDone(job: string, succeeded: bool, noAnswer: bool)
    | Mark(call: nat)
    | Release(call: nat)
    | Abandon(call: nat)
    | TickFails
    | ReadProgress
    | Finish
    | Upload(ids: set<nat>)

  // ---------------------------------------------------------------- decisions the worker takes

  predicate MayDial(now: real, last: real, pacing: real, seen: int, cap: int) {
    now - last >= pacing && seen < cap
  }

  function Lowered(inFlight: int): int { if inFlight - 1 > 0 then inFlight - 1 else 0 }

  function Outcome(succeeded: bool, noAnswer: bool): Status {
    if succeeded then Completed else if noAnswer then NoAnswer else Failed
  }

  /** The status a contact is given when a dial ends: back in the queue while attempts remain. */
  function Settled(outcome: Status, attempt: nat, maxAttempts: int): Status {
    if outcome != Completed && attempt < maxAttempts then Pending else outcome
  }

  predicate Terminal(s: Status) { s != Pending && s != Calling }

  ghost predicate SomeWith(w: World, s: Status) { exists c :: c in w.contacts && w.contacts[c].status == s }

  ghost predicate AllTerminal(w: World) { forall c :: c in w.contacts ==> Terminal(w.contacts[c].status) }

  // ---------------------------------------------------------------- the steps

  predicate PendingContact(w: World, c: nat) { c in w.contacts && w.contacts[c].status == Pending }

  ghost predicate Enabled(w: World, s: Step) {
    match s
    case Begin(_, _, _, _, _) => w.tick.Idle?
    case Claim(c) => w.tick.Claiming? && PendingContact(w, c)
    case ClaimNone => w.tick.Claiming? && !SomeWith(w, Pending)
    case ClaimLost(c) => w.tick.Claiming? && PendingContact(w, c)
    case FoundBlocked => w.tick.Checking?
    case MarkBlocked => w.tick.Blocking? && w.tick.contact in w.contacts
    case Place => w.tick.Checking? && w.tick.contact in w.contacts
    case Accepted(_) => w.tick.Dialling?
    case Rejected => w.tick.Dialling? && w.tick.call < |w.dials|
    case JobDone(job, _, _) => job in w.jobs ==> w.jobs[job] < |w.dials|
    case Mark(call) =>
      && call in w.resolving && !w.resolving[call].marked
      && call < |w.dials| && w.dials[call].contact in w.contacts
    case Release(call) => call in w.resolving && w.resolving[call].marked
    case Abandon(call) => call in w.resolving
    case TickFails => !w.tick.Settling?
    case ReadProgress => w.tick.Counting?
    case Finish => w.tick.Finishing?
    case Upload(ids) => ids !! w.contacts.Keys
  }

  function Claimed(w: World, c: nat): map<nat, Contact>
    requires c in w.contacts
  {
    w.contacts[c := Contact(Calling, w.contacts[c].attempts + 1)]
  }

  function Marked(w: World, c: nat, status: Status): map<nat, Contact>
    requires c in w.contacts
  {
    w.contacts[c := Contact(status, w.contacts[c].attempts)]
  }

  /** The tick goes back to idle when the dial it was settling itself is done with. */
  function AfterSettling(t: Tick, call: nat): Tick { if t == Settling(call) then Idle else t }

  ghost function After(w: World, s: Step): World
    requires Enabled(w, s)
  {
    match s
    case Begin(now, pacing, cap, maxAttempts, ready) =>
      if MayDial(now, w.lastAt, pacing, w.inFlight, cap) && ready
      then w.(tick := Claiming(w.inFlight, now, maxAttempts)) else w
    case Claim(c) =>
      w.(contacts := Claimed(w, c), tick := Checking(w.tick.seen, w.tick.now, w.tick.maxAttempts, c))
    case ClaimNone => w.(tick := Counting)
    case ClaimLost(c) => w.(contacts := Claimed(w, c), tick := Idle)
    case FoundBlocked => w.(tick := Blocking(w.tick.contact))
    case MarkBlocked => w.(contacts := Marked(w, w.tick.contact, Blocked), tick := Idle)
    case Place =>
      var dial := Dial(w.tick.contact, w.contacts[w.tick.contact].attempts, w.tick.maxAttempts, w.tick.now);
      w.(lastAt := w.tick.now, inFlight := w.tick.seen + 1, dials := w.dials + [dial],
         live := w.live + {|w.dials|}, owed := w.owed + {|w.dials|}, tick := Dialling(|w.dials|))
    case Accepted(job) => w.(jobs := w.jobs[job := w.tick.call], tick := Idle)
    case Rejected =>
      var dial := w.dials[w.tick.call];
      w.(resolving := w.resolving[w.tick.call := Resolution(Settled(Failed, dial.attempt, dial.maxAttempts), false)],
         tick := Settling(w.tick.call))
    case JobDone(job, succeeded, noAnswer) =>
      if job !in w.jobs then w
      else
        var call := w.jobs[job];
        var target := Settled(Outcome(succeeded, noAnswer), w.dials[call].attempt, w.dials[call].maxAttempts);
        w.(jobs := w.jobs - {job}, resolving := w.resolving[call := Resolution(target, false)])
    case Mark(call) =>
      w.(contacts := Marked(w, w.dials[call].contact, w.resolving[call].target), live := w.live - {call},
         resolving := w.resolving[call := Resolution(w.resolving[call].target, true)])
    case Release(call) =>
      w.(inFlight := Lowered(w.inFlight), owed := w.owed - {call}, resolving := w.resolving - {call},
         tick := AfterSettling(w.tick, call))
    case Abandon(call) => w.(resolving := w.resolving - {call}, tick := AfterSettling(w.tick, call))
    case TickFails => w.(tick := Idle)
    case ReadProgress => w.(tick := if SomeWith(w, Calling) then Idle else Finishing)
    case Finish => w.(tick := Idle, finished := true)
    case Upload(ids) => w.(contacts := w.contacts + map i | i in ids :: Contact(Pending, 0))
  }

  // ---------------------------------------------------------------- what every step keeps

  /** The bounds the campaign's settings stay within during the run: no cap above `limit`, no more than
      `attempts` attempts, no pacing below `pacing`. With settings left alone these are the settings. */
  datatype Bounds = Bounds(limit: int, attempts: int, pacing: real)

  ghost predicate Allowed(s: Step, b: Bounds) {
    s.Begin? ==> s.cap <= b.limit && s.maxAttempts <= b.attempts && s.pacing >= b.pacing
  }

  function AtLeast(low: int, x: int): int { if x < low then low else x }

  predicate JobHolds(w: World, call: nat) { exists j :: j in w.jobs && w.jobs[j] == call }

  /** Every unresolved dial is in one place at most, and everything in flight is owed. */
  ghost predicate Separate(w: World) {
    && w.live <= w.owed
    && (forall k :: k in w.owed ==> k < |w.dials|)
    && (forall j :: j in w.jobs ==> w.jobs[j] in w.live && w.jobs[j] !in w.resolving)
    && (forall i, j :: i in w.jobs && j in w.jobs && i != j ==> w.jobs[i] != w.jobs[j])
    && (forall k :: k in w.resolving ==> k in w.owed && (k in w.live <==> !w.resolving[k].marked))
    && (w.tick.Dialling? ==> w.tick.call in w.live && w.tick.call !in w.resolving && !JobHolds(w, w.tick.call))
  }

  /** The counter may over-report, never under-report, and what the tick read is never below it. */
  ghost predicate Counted(w: World, limit: int) {
    && |w.owed| <= w.inFlight <= AtLeast(0, limit)
    && (w.tick.Claiming? || w.tick.Checking? ==> w.inFlight <= w.tick.seen < limit)
  }

  /** The steps that end a dial; the others leave the jobs and resolutions in progress alone or place a dial. */
  predicate Ending(s: Step) { s.JobDone? || s.Mark? || s.Release? || s.Abandon? }

  predicate Placing(s: Step) { s.Place? || s.Accepted? || s.Rejected? }

  lemma SeparatePlacing(w: World, s: Step)
    requires Separate(w) && Enabled(w, s) && Placing(s)
    ensures Separate(After(w, s))
  {
    hide Settled;
  }

  lemma SeparateJobDone(w: World, s: Step)
    requires Separate(w) && Enabled(w, s) && s.JobDone?
    ensures Separate(After(w, s))
  {
    hide Settled, Outcome;
  }

  lemma SeparateEnding(w: World, s: Step)
    requires Separate(w) && Enabled(w, s) && Ending(s)
    ensures Separate(After(w, s))
  {
    if s.JobDone? {
      hide After, Enabled, Separate;
      SeparateJobDone(w, s);
    } else {
      hide Marked, Settled;
    }
  }

  lemma SeparateKept(w: World, s: Step)
    requires Separate(w) && Enabled(w, s)
    ensures Separate(After(w, s))
  {
    if Placing(s) {
      hide After, Enabled, Separate;
      SeparatePlacing(w, s);
    } else if Ending(s) {
      hide After, Enabled, Separate;
      SeparateEnding(w, s);
    } else {
      hide Claimed, Marked, SomeWith;
    }
  }

  lemma CountedEnding(w: World, s: Step, limit: int)
    requires Separate(w) && Counted(w, limit) && Enabled(w, s) && Ending(s)
    ensures Counted(After(w, s), limit)
  {
    hide Marked, Settled;
  }

  /** The count read at the start of the tick is still no smaller than what is owed. */
  lemma CountedPlace(w: World, limit: int)
    requires Separate(w) && Counted(w, limit) && Enabled(w, Place)
    ensures Counted(After(w, Place), limit)
  {
    assert |w.dials| !in w.owed;
  }

  lemma CountedKept(w: World, s: Step, b: Bounds)
    requires Separate(w) && Counted(w, b.limit) && Enabled(w, s) && Allowed(s, b)
    ensures Counted(After(w, s), b.limit)
  {
    if Ending(s) {
      hide After, Enabled, Separate, Counted;
      CountedEnding(w, s, b.limit);
    } else if s.Place? {
      hide After, Enabled, Separate, Counted;
      CountedPlace(w, b.limit);
    } else {
      hide Separate, Claimed, Marked, SomeWith, Settled;
    }
  }

  // ---------------------------------------------------------------- who holds a contact

  /** A dial that is not resolved has its contact to itself, and so does a tick that has claimed one. */
  ghost predicate Held(w: World) {
    && (forall k :: k in w.live ==>
          && k < |w.dials| && w.dials[k].contact in w.contacts
          && w.contacts[w.dials[k].contact] == Contact(Calling, w.dials[k].attempt))
    && (forall i, k :: i in w.live && k in w.live && i != k ==> w.dials[i].contact != w.dials[k].contact)
    && (w.tick.Checking? || w.tick.Blocking? ==>
          && w.tick.contact in w.contacts && w.contacts[w.tick.contact].status == Calling
          && (forall k :: k in w.live ==> w.dials[k].contact != w.tick.contact))
  }

  lemma HeldEnding(w: World, s: Step)
    requires Separate(w) && Held(w) && Enabled(w, s) && Ending(s)
    ensures Held(After(w, s))
  {
    hide Settled;
  }

  lemma HeldPlacing(w: World, s: Step)
    requires Separate(w) && Held(w) && Enabled(w, s) && Placing(s)
    ensures Held(After(w, s))
  {
    hide Settled;
  }

  lemma HeldKept(w: World, s: Step)
    requires Separate(w) && Held(w) && Enabled(w, s)
    ensures Held(After(w, s))
  {
    if Ending(s) {
      hide After, Enabled, Separate, Held;
      HeldEnding(w, s);
    } else if Placing(s) {
      hide After, Enabled, Separate, Held;
      HeldPlacing(w, s);
    } else {
      hide SomeWith, Settled;
    }
  }

  /** Terminal statuses are never left, no contact disappears, and attempts never go down. */
  lemma TerminalStays(w: World, s: Step, c: nat)
    requires Separate(w) && Held(w) && Enabled(w, s) && c in w.contacts
    ensures c in After(w, s).contacts
    ensures After(w, s).contacts[c].attempts >= w.contacts[c].attempts
    ensures Terminal(w.contacts[c].status) ==> After(w, s).contacts[c] == w.contacts[c]
  {
    hide SomeWith, Settled;
  }

  // ---------------------------------------------------------------- how often a contact is dialled

  function DialsOf(dials: seq<Dial>, c: nat): nat {
    if dials == [] then 0
    else DialsOf(dials[..|dials| - 1], c) + (if dials[|dials| - 1].contact == c then 1 else 0)
  }

  /** The dials of a contact are within its attempts, and a contact is queued only while attempts remain. */
  ghost predicate Tried(w: World, c: nat, most: int) {
    && DialsOf(w.dials, c) <= AtLeast(1, most)
    && (c in w.contacts ==>
          && DialsOf(w.dials, c) <= w.contacts[c].attempts
          && (w.contacts[c].status == Pending ==> w.contacts[c].attempts < AtLeast(1, most)))
    && (c !in w.contacts ==> DialsOf(w.dials, c) == 0)
    && (w.tick.Checking? && w.tick.contact == c && c in w.contacts ==>
          DialsOf(w.dials, c) < w.contacts[c].attempts <= AtLeast(1, most))
  }

  ghost predicate Targets(w: World, most: int) {
    && (w.tick.Claiming? || w.tick.Checking? ==> w.tick.maxAttempts <= most)
    && (forall k :: 0 <= k < |w.dials| ==> w.dials[k].maxAttempts <= most)
    && (forall k :: k in w.resolving && k < |w.dials| && w.resolving[k].target == Pending ==> w.dials[k].attempt < most)
  }

  lemma TargetsKept(w: World, s: Step, b: Bounds)
    requires Separate(w) && Targets(w, b.attempts) && Enabled(w, s) && Allowed(s, b)
    ensures Targets(After(w, s), b.attempts)
  {
    hide SomeWith, Claimed, Marked;
  }

  lemma TriedPlace(w: World, c: nat, most: int)
    requires Held(w) && Enabled(w, Place) && Tried(w, c, most)
    ensures Tried(After(w, Place), c, most)
  {
    assert After(w, Place).dials[..|w.dials|] == w.dials;
  }

  lemma TriedMark(w: World, call: nat, c: nat, most: int)
    requires Separate(w) && Held(w) && Targets(w, most) && Enabled(w, Mark(call)) && Tried(w, c, most)
    ensures Tried(After(w, Mark(call)), c, most)
  {
    hide DialsOf;
    assert call in w.live;
  }

  lemma TriedKept(w: World, s: Step, c: nat, most: int)
    requires Separate(w) && Held(w) && Targets(w, most) && Enabled(w, s) && Tried(w, c, most)
    ensures Tried(After(w, s), c, most)
  {
    hide DialsOf, SomeWith, Settled;
    if s.Place? {
      hide After, Tried;
      TriedPlace(w, c, most);
    } else if s.Mark? {
      hide After, Tried;
      TriedMark(w, s.call, c, most);
    }
  }

  /** Two dials of the campaign are started at least the pacing apart. */
  ghost predicate Paced(w: World, pacing: real) {
    && (w.dials != [] ==> w.lastAt == w.dials[|w.dials| - 1].at)
    && (w.tick.Claiming? || w.tick.Checking? ==> w.tick.now - w.lastAt >= pacing)
    && (forall k :: 0 < k < |w.dials| ==> w.dials[k].at - w.dials[k - 1].at >= pacing)
  }

  lemma PacedKept(w: World, s: Step, b: Bounds)
    requires Paced(w, b.pacing) && Enabled(w, s) && Allowed(s, b)
    ensures Paced(After(w, s), b.pacing)
  {
    hide SomeWith, Settled, Claimed, Marked;
  }

  // ---------------------------------------------------------------- whole runs

  ghost predicate Run(worlds: seq<World>, steps: seq<Step>, b: Bounds) {
    && |worlds| == |steps| + 1
    && forall i :: 0 <= i < |steps| ==>
      Enabled(worlds[i], steps[i]) && Allowed(steps[i], b) && worlds[i + 1] == After(worlds[i], steps[i])
  }

  /** A worker that has just started: nothing in flight, nothing remembered; the rows are as earlier workers
      left them, with a contact queued only while it has attempts left. */
  ghost predicate Started(w: World, b: Bounds) {
    && w.inFlight == 0 && w.tick.Idle? && w.jobs == map[] && w.resolving == map[]
    && w.dials == [] && w.live == {} && w.owed == {} && !w.finished
    && forall c :: c in w.contacts && w.contacts[c].status == Pending ==>
      w.contacts[c].attempts < AtLeast(1, b.attempts)
  }

  ghost predicate Sound(w: World, b: Bounds) {
    && Separate(w) && Counted(w, b.limit) && Held(w) && Targets(w, b.attempts) && Paced(w, b.pacing)
    && forall c :: Tried(w, c, b.attempts)
  }

  lemma StartedSound(w: World, b: Bounds)
    requires Started(w, b)
    ensures Sound(w, b)
  {
  }

  lemma SoundKept(w: World, s: Step, b: Bounds)
    requires Sound(w, b) && Enabled(w, s) && Allowed(s, b)
    ensures Sound(After(w, s), b)
  {
    hide Separate, Counted, Held, Targets, Paced, Tried, After, Enabled, Allowed;
    SeparateKept(w, s);
    CountedKept(w, s, b);
    HeldKept(w, s);
    TargetsKept(w, s, b);
    PacedKept(w, s, b);
    forall c ensures Tried(After(w, s), c, b.attempts) {
      TriedKept(w, s, c, b.attempts);
    }
  }

  lemma {:induction false} RunSound(worlds: seq<World>, steps: seq<Step>, b: Bounds, k: nat)
    requires Run(worlds, steps, b) && Started(worlds[0], b) && k < |worlds|
    ensures Sound(worlds[k], b)
  {
    hide Sound, Started, After, Enabled, Allowed;
    if k == 0 {
      StartedSound(worlds[0], b);
    } else {
      RunSound(worlds, steps, b, k - 1);
      SoundKept(worlds[k - 1], steps[k - 1], b);
    }
  }

  /** At every moment of every run there are at most as many unresolved dials as the counter says, and never
      more than the cap. */
  lemma CapHolds(worlds: seq<World>, steps: seq<Step>, b: Bounds, k: nat)
    requires Run(worlds, steps, b) && Started(worlds[0], b) && k < |worlds|
    ensures |worlds[k].live| <= worlds[k].inFlight <= AtLeast(0, b.limit)
  {
    RunSound(worlds, steps, b, k);
    SubsetSize(worlds[k].live, worlds[k].owed);
  }

  /** Each contact belongs to at most one unresolved dial or claiming tick, and while it does its row says so. */
  lemma HeldOnce(worlds: seq<World>, steps: seq<Step>, b: Bounds, k: nat)
    requires Run(worlds, steps, b) && Started(worlds[0], b) && k < |worlds|
    ensures Separate(worlds[k]) && Held(worlds[k])
  {
    RunSound(worlds, steps, b, k);
  }

  /** Once terminal, always the same. */
  lemma {:induction false} TerminalForGood(worlds: seq<World>, steps: seq<Step>, b: Bounds, i: nat, k: nat, c: nat)
    requires Run(worlds, steps, b) && Started(worlds[0], b) && i <= k < |worlds|
    requires c in worlds[i].contacts && Terminal(worlds[i].contacts[c].status)
    ensures c in worlds[k].contacts && worlds[k].contacts[c] == worlds[i].contacts[c]
    decreases k
  {
    if i < k {
      hide After, Enabled, Allowed, Separate, Held;
      TerminalForGood(worlds, steps, b, i, k - 1, c);
      HeldOnce(worlds, steps, b, k - 1);
      TerminalStays(worlds[k - 1], steps[k - 1], c);
    }
  }

  /** A sequence in which every dial is of a contact in `s`, each at most `n` times, has at most `n * |s|` dials. */
  lemma {:induction false} AtMostEach(dials: seq<Dial>, s: set<nat>, n: nat)
    requires forall k :: 0 <= k < |dials| ==> dials[k].contact in s
    requires forall c :: c in s ==> DialsOf(dials, c) <= n
    ensures |dials| <= n * |s|
    decreases |s|
  {
    if |dials| > 0 {
      assert dials[0].contact in s;
      hide Without, DialsOf;
      var c := Member(s);
      var rest, others := Without(dials, c), s - {c};
      forall d | d in others ensures DialsOf(rest, d) <= n {
        WithoutCounts(dials, c, d);
      }
      WithoutLength(dials, c);
      AtMostEach(rest, others, n);
      OneMore(n, |others|);
      assert |s| == |others| + 1;
    }
  }

  lemma OneMore(n: nat, m: nat)
    ensures n * (m + 1) == n * m + n
  {
  }

  function Without(dials: seq<Dial>, c: nat): (r: seq<Dial>)
    ensures forall k :: 0 <= k < |r| ==> r[k] in dials && r[k].contact != c
  {
    if dials == [] then []
    else
      var d := dials[|dials| - 1];
      Without(dials[..|dials| - 1], c) + (if d.contact == c then [] else [d])
  }

  lemma {:induction false} WithoutLength(dials: seq<Dial>, c: nat)
    ensures |dials| == |Without(dials, c)| + DialsOf(dials, c)
  {
    if dials != [] {
      WithoutLength(dials[..|dials| - 1], c);
    }
  }

  lemma {:induction false} WithoutCounts(dials: seq<Dial>, c: nat, d: nat)
    requires c != d
    ensures DialsOf(Without(dials, c), d) == DialsOf(dials, d)
  {
    if dials != [] {
      var init, last := dials[..|dials| - 1], dials[|dials| - 1];
      WithoutCounts(init, c, d);
      if last.contact != c {
        assert (Without(init, c) + [last])[..|Without(init, c)|] == Without(init, c);
      } else {
        assert Without(dials, c) == Without(init, c);
      }
    }
  }

  lemma {:induction false} DialledCounts(dials: seq<Dial>, k: nat)
    requires k < |dials|
    ensures DialsOf(dials, dials[k].contact) >= 1
  {
    if k < |dials| - 1 {
      DialledCounts(dials[..|dials| - 1], k);
    }
  }

  /** No contact is dialled more than `max(1, max_attempts)` times, dials are at least the pacing apart, and a
      campaign of finitely many contacts is dialled only so often in all. */
  lemma DialsBounded(worlds: seq<World>, steps: seq<Step>, b: Bounds, k: nat)
    requires Run(worlds, steps, b) && Started(worlds[0], b) && k < |worlds|
    ensures forall c :: DialsOf(worlds[k].dials, c) <= AtLeast(1, b.attempts)
    ensures forall i :: 0 < i < |worlds[k].dials| ==> worlds[k].dials[i].at - worlds[k].dials[i - 1].at >= b.pacing
    ensures |worlds[k].dials| <= AtLeast(1, b.attempts) * |worlds[k].contacts|
  {
    RunSound(worlds, steps, b, k);
    var w := worlds[k];
    hide Separate, Counted, Held, Targets, Run;
    forall c ensures DialsOf(w.dials, c) <= AtLeast(1, b.attempts) {
      assert Tried(w, c, b.attempts);
    }
    forall i | 0 <= i < |w.dials| ensures w.dials[i].contact in w.contacts.Keys {
      DialledCounts(w.dials, i);
      assert Tried(w, w.dials[i].contact, b.attempts);
    }
    AtMostEach(w.dials, w.contacts.Keys, AtLeast(1, b.attempts));
  }

  // ---------------------------------------------------------------- completing a campaign

  ghost predicate TurnsPending(w: World, next: World) {
    exists c :: PendingContact(next, c) && !PendingContact(w, c)
  }

  /** While the tick counts or finishes nothing can be claimed: queued contacts stay queued. */
  lemma QueueKept(w: World, s: Step)
    requires Separate(w) && Held(w) && Enabled(w, s) && (w.tick.Counting? || w.tick.Finishing?)
    ensures SomeWith(After(w, s), Pending) <==> SomeWith(w, Pending) || TurnsPending(w, After(w, s))
    ensures SomeWith(After(w, s), Calling) ==> SomeWith(w, Calling)
    ensures After(w, s).tick.Finishing? && w.tick.Counting? ==> !SomeWith(w, Calling)
  {
    hide Settled;
    var next := After(w, s);
    forall c | PendingContact(w, c) ensures PendingContact(next, c) {
    }
    forall c | c in next.contacts && next.contacts[c].status == Calling
      ensures c in w.contacts && w.contacts[c].status == Calling
    {
    }
    assert forall c :: c in w.contacts && w.contacts[c].status == Pending ==>
      PendingContact(w, c) && c in next.contacts;
    forall c | c in next.contacts && next.contacts[c].status == Pending
      ensures SomeWith(w, Pending) || TurnsPending(w, next)
    {
      assert PendingContact(next, c);
      assert PendingContact(w, c) ==> c in w.contacts;
    }
  }

  /** From an empty claim at step `i` to the moment `k` before the campaign is marked completed: all contacts
      are terminal exactly when no contact was put in the queue in between. */
  lemma CompletedIff(worlds: seq<World>, steps: seq<Step>, b: Bounds, i: nat, k: nat)
    requires Run(worlds, steps, b) && Started(worlds[0], b) && i < k < |worlds|
    requires steps[i].ClaimNone? && worlds[k].tick.Finishing?
    requires forall j :: i < j <= k ==> worlds[j].tick.Counting? || worlds[j].tick.Finishing?
    ensures AllTerminal(worlds[k]) <==> forall j :: i < j < k ==> !TurnsPending(worlds[j], worlds[j + 1])
  {
    CountingRun(worlds, steps, b, i, k);
    hide Run, Started, TurnsPending;
    assert AllTerminal(worlds[k]) <==> !SomeWith(worlds[k], Pending) && !SomeWith(worlds[k], Calling);
  }

  lemma {:induction false} CountingRun(worlds: seq<World>, steps: seq<Step>, b: Bounds, i: nat, k: nat)
    requires Run(worlds, steps, b) && Started(worlds[0], b) && i < k < |worlds|
    requires steps[i].ClaimNone?
    requires forall j :: i < j <= k ==> worlds[j].tick.Counting? || worlds[j].tick.Finishing?
    ensures SomeWith(worlds[k], Pending) <==> exists j :: i < j < k && TurnsPending(worlds[j], worlds[j + 1])
    ensures worlds[k].tick.Finishing? ==> !SomeWith(worlds[k], Calling)
    decreases k
  {
    assert worlds[i + 1] == After(worlds[i], steps[i]);
    if k > i + 1 {
      CountingRun(worlds, steps, b, i, k - 1);
      HeldOnce(worlds, steps, b, k - 1);
      hide After, Enabled, Allowed, Separate, Held, SomeWith, TurnsPending, Started;
      QueueKept(worlds[k - 1], steps[k - 1]);
      assert worlds[k - 1 + 1] == worlds[k];
    }
  }

  /** A campaign of one contact, allowed two attempts and two calls at once. */
  function RaceWorld(k: nat): World {
    var queued := World(map[0 := Contact(Pending, 0)], 0, 0.0, Idle, map[], map[], [], {}, {}, false);
    var dialled := World(map[0 := Contact(Calling, 1)], 1, 0.0, Dialling(0), map[], map[], [Dial(0, 1, 2, 0.0)], {0},
      {0}, false);
    var failing := dialled.(resolving := map[0 := Resolution(Pending, false)], tick := Counting);
    var requeued := failing.(contacts := map[0 := Contact(Pending, 1)], live := {},
      resolving := map[0 := Resolution(Pending, true)]);
    match k
    case 0 => queued
    case 1 => queued.(tick := Claiming(0, 0.0, 2))
    case 2 => queued.(contacts := map[0 := Contact(Calling, 1)], tick := Checking(0, 0.0, 2, 0))
    case 3 => dialled
    case 4 => dialled.(jobs := map["job" := 0], tick := Idle)
    case 5 => dialled.(jobs := map["job" := 0], tick := Claiming(1, 0.0, 2))
    case 6 => dialled.(jobs := map["job" := 0], tick := Counting)
    case 7 => failing
    case 8 => requeued
    case 9 => requeued.(tick := Finishing)
    case _ => requeued.(tick := Idle, finished := true)
  }

  function RaceStep(k: nat): Step {
    match k
    case 0 => Begin(0.0, 0.0, 2, 2, true)
    case 1 => Claim(0)
    case 2 => Place
    case 3 => Accepted("job")
    case 4 => Begin(0.0, 0.0, 2, 2, true)
    case 5 => ClaimNone
    case 6 => JobDone("job", false, false)
    case 7 => Mark(0)
    case 8 => ReadProgress
    case _ => Finish
  }

  lemma RaceDials(k: nat)
    requires k < 5
    ensures Enabled(RaceWorld(k), RaceStep(k)) && RaceWorld(k + 1) == After(RaceWorld(k), RaceStep(k))
  {
    assert k == 0 || k == 1 || k == 2 || k == 3 || k == 4;
  }

  lemma RaceRequeues(k: nat)
    requires 5 <= k < 10
    ensures Enabled(RaceWorld(k), RaceStep(k)) && RaceWorld(k + 1) == After(RaceWorld(k), RaceStep(k))
  {
    assert k == 5 || k == 6 || k == 7 || k == 8 || k == 9;
  }

  /** The counterexample without that condition: the last dial fails and is requeued after the tick found the
      queue empty and before it read that nothing is being called. The campaign is marked completed with a
      contact still queued. */
  lemma RequeueRace() returns (worlds: seq<World>, steps: seq<Step>, b: Bounds)
    ensures Run(worlds, steps, b) && Started(worlds[0], b)
    ensures worlds[|worlds| - 1].finished && !AllTerminal(worlds[|worlds| - 1])
  {
    b := Bounds(2, 2, 0.0);
    worlds := seq(11, k requires 0 <= k => RaceWorld(k));
    steps := seq(10, k requires 0 <= k => RaceStep(k));
    forall k | 0 <= k < 10
      ensures Enabled(worlds[k], steps[k]) && Allowed(steps[k], b) && worlds[k + 1] == After(worlds[k], steps[k])
    {
      hide RaceWorld, Enabled, After;
      if k < 5 { RaceDials(k); } else { RaceRequeues(k); }
    }
    hide RaceStep, Enabled, After;
    assert worlds[10] == RaceWorld(10) && 0 in worlds[10].contacts;
  }

  // ---------------------------------------------------------------- the worker's own memory

  datatype Campaign = Campaign(id: string, pacing: real, cap: int, maxAttempts: int, hasCallerId: bool, open: bool)

  datatype Booking = Booking(campaign: string, contact: nat, maxAttempts: int, attempt: nat)

  /** What the worker remembers of one campaign. */
  datatype Memory = Memory(inFlight: int, lastAt: real, jobs: map<string, Booking>)

  function Booked(id: string, d: Dial): Booking { Booking(id, d.contact, d.maxAttempts, d.attempt) }

  /** The part of the machine's state that is the worker's memory of campaign `id`. */
  ghost function MemoryOf(w: World, id: string): Memory {
    Memory(w.inFlight, w.lastAt, map j | j in w.jobs && w.jobs[j] < |w.dials| :: Booked(id, w.dials[w.jobs[j]]))
  }

  lemma MemoryRegistered(w: World, id: string, job: string)
    requires w.tick.Dialling? && w.tick.call < |w.dials|
    ensures MemoryOf(After(w, Accepted(job)), id) ==
      var m := MemoryOf(w, id); m.(jobs := m.jobs[job := Booked(id, w.dials[w.tick.call])])
  {}

  lemma JobDoneIs(w: World, job: string, succeeded: bool, noAnswer: bool)
    requires job in w.jobs && w.jobs[job] < |w.dials|
    ensures
      var d := w.dials[w.jobs[job]];
      var target := Settled(Outcome(succeeded, noAnswer), d.attempt, d.maxAttempts);
      After(w, JobDone(job, succeeded, noAnswer))
        == w.(jobs := w.jobs - {job}, resolving := w.resolving[w.jobs[job] := Resolution(target, false)])
  {
    hide Outcome, Settled;
  }

  lemma MemoryForgets(w: World, id: string, job: string, succeeded: bool, noAnswer: bool)
    requires Enabled(w, JobDone(job, succeeded, noAnswer))
    ensures
      var m, after := MemoryOf(w, id), After(w, JobDone(job, succeeded, noAnswer));
      && MemoryOf(after, id) == m.(jobs := m.jobs - {job})
      && (job in m.jobs ==> JobSettled(w, after, id, job, m.jobs[job], succeeded, noAnswer))
      && (job !in m.jobs ==> after == w)
  {
    hide Outcome, Settled;
    if job in w.jobs {
      JobDoneIs(w, job, succeeded, noAnswer);
      hide After;
      assert MemoryOf(After(w, JobDone(job, succeeded, noAnswer)), id).jobs == MemoryOf(w, id).jobs - {job};
    }
  }

  /** The machine forgot the job, and the row of its dial's contact is to become what its attempts allow. */
  ghost predicate JobSettled(w: World, after: World, id: string, job: string, e: Booking, succeeded: bool,
      noAnswer: bool) {
    && job in w.jobs && w.jobs[job] < |w.dials| && e == Booked(id, w.dials[w.jobs[job]])
    && var target := Settled(Outcome(succeeded, noAnswer), e.attempt, e.maxAttempts);
       after == w.(jobs := w.jobs - {job}, resolving := w.resolving[w.jobs[job] := Resolution(target, false)])
  }

  /** What the worker remembers across awaits, per campaign and per job. */
  class CampaignWorker {
    var lastAttemptAt: map<string, real>
    var inFlight: map<string, int>
    var jobToContact: map<string, Booking>

    constructor ()
      ensures forall id :: Remembered(id) == Memory(0, 0.0, map[])
    {
      lastAttemptAt, inFlight, jobToContact := map[], map[], map[];
    }

    function InFlight(id: string): (n: int)
      reads this
    {
      if id in inFlight then inFlight[id] else 0
    }

    function LastAt(id: string): (t: real)
      reads this
    {
      if id in lastAttemptAt then lastAttemptAt[id] else 0.0
    }

    ghost function Remembered(id: string): Memory
      reads this
    {
      Memory(InFlight(id), LastAt(id), map j | j in jobToContact && jobToContact[j].campaign == id :: jobToContact[j])
    }

    /** The part of a tick before its first await: whether to go on, and the count it will write back from. */
    method BeginTick(c: Campaign, now: real) returns (go: bool, seen: int)
      ensures seen == InFlight(c.id)
      ensures go <==> now - LastAt(c.id) >= c.pacing && seen < c.cap && c.hasCallerId && c.open
      ensures forall w {:trigger MemoryOf(w, c.id)} :: MemoryOf(w, c.id) == Remembered(c.id) && w.tick.Idle? ==>
        After(w, Begin(now, c.pacing, c.cap, c.maxAttempts, c.hasCallerId && c.open))
          == if go then w.(tick := Claiming(seen, now, c.maxAttempts)) else w
    {
      seen := InFlight(c.id);
      if now - LastAt(c.id) < c.pacing {
        return false, seen;
      }
      if seen >= c.cap {
        return false, seen;
      }
      if !c.hasCallerId {
        return false, seen;
      }
      return c.open, seen;
    }

    /** The write-back just before the call is placed, from the count read at the start of the tick. Other
        campaigns are not touched. */
    method Reserve(id: string, now: real, seen: int)
      modifies this`lastAttemptAt, this`inFlight
      ensures forall w {:trigger MemoryOf(w, id)} ::
        MemoryOf(w, id) == old(Remembered(id)) && Separate(w) && Enabled(w, Place) && w.tick.seen == seen
          && w.tick.now == now ==>
        Remembered(id) == MemoryOf(After(w, Place), id)
      ensures forall other :: other != id ==> Remembered(other) == old(Remembered(other))
    {
      lastAttemptAt := lastAttemptAt[id := now];
      inFlight := inFlight[id := seen + 1];
    }

    /** The call was accepted under this job. */
    method Register(job: string, e: Booking)
      modifies this`jobToContact
      ensures forall w {:trigger MemoryOf(w, e.campaign)} ::
        MemoryOf(w, e.campaign) == old(Remembered(e.campaign)) && w.tick.Dialling? && w.tick.call < |w.dials|
        && e == Booked(e.campaign, w.dials[w.tick.call]) ==>
        Remembered(e.campaign) == MemoryOf(After(w, Accepted(job)), e.campaign)
      ensures forall other :: other != e.campaign && job !in old(jobToContact) ==>
        Remembered(other) == old(Remembered(other))
    {
      ghost var before := Remembered(e.campaign);
      jobToContact := jobToContact[job := e];
      assert Remembered(e.campaign) == before.(jobs := before.jobs[job := e]);
      forall w | MemoryOf(w, e.campaign) == before && w.tick.Dialling? && w.tick.call < |w.dials|
        ensures MemoryOf(After(w, Accepted(job)), e.campaign)
          == before.(jobs := before.jobs[job := Booked(e.campaign, w.dials[w.tick.call])])
      {
        MemoryRegistered(w, e.campaign, job);
      }
    }

    /** Forgets the job and gives what was booked under it. */
    method ForgetJob(job: string) returns (known: bool, e: Booking)
      modifies this`jobToContact
      ensures forall id :: Remembered(id) == old(Remembered(id)).(jobs := old(Remembered(id)).jobs - {job})
      ensures forall id :: (known && e.campaign == id) == (job in old(Remembered(id)).jobs)
      ensures known ==> e == old(Remembered(e.campaign)).jobs[job]
    {
      if job !in jobToContact {
        return false, Booking("", 0, 0, 0);
      }
      known, e := true, jobToContact[job];
      jobToContact := jobToContact - {job};
    }

    /** A job event: forgets the job and says what its contact's row is to become. An event for a job this
        worker did not register changes nothing. */
    method JobComplete(job: string, succeeded: bool, noAnswer: bool) returns (known: bool, e: Booking, target: Status)
      modifies this`jobToContact
      ensures known ==> target == Settled(Outcome(succeeded, noAnswer), e.attempt, e.maxAttempts)
      ensures forall w, id {:trigger MemoryOf(w, id)} ::
        MemoryOf(w, id) == old(Remembered(id)) && Enabled(w, JobDone(job, succeeded, noAnswer)) ==>
        var after := After(w, JobDone(job, succeeded, noAnswer));
        && Remembered(id) == MemoryOf(after, id)
        && if known && e.campaign == id then JobSettled(w, after, id, job, e, succeeded, noAnswer) else after == w
    {
      hide MemoryOf, After, JobSettled, Enabled, Remembered;
      known, e := ForgetJob(job);
      forall w, id | MemoryOf(w, id) == old(Remembered(id)) && Enabled(w, JobDone(job, succeeded, noAnswer))
        ensures
          var after := After(w, JobDone(job, succeeded, noAnswer));
          && Remembered(id) == MemoryOf(after, id)
          && if known && e.campaign == id then JobSettled(w, after, id, job, e, succeeded, noAnswer) else after == w
      {
        MemoryForgets(w, id, job, succeeded, noAnswer);
      }
      if !known {
        return false, e, Failed;
      }
      var status := if succeeded then Completed else if noAnswer then NoAnswer else Failed;
      if status == Failed || status == NoAnswer {
        if e.attempt < e.maxAttempts {
          target := Pending;
        } else {
          target := status;
        }
      } else {
        target := status;
      }
    }

    /** Lowers the counter of one campaign by one, never below zero. */
    method ReleaseSlot(id: string)
      modifies this`inFlight
      ensures forall w, call {:trigger MemoryOf(w, id), Release(call)} ::
        MemoryOf(w, id) == old(Remembered(id)) && Enabled(w, Release(call)) ==>
        Remembered(id) == MemoryOf(After(w, Release(call)), id)
      ensures forall other :: other != id ==> Remembered(other) == old(Remembered(other))
    {
      var n := if id in inFlight then inFlight[id] else 1;
      inFlight := inFlight[id := if n - 1 > 0 then n - 1 else 0];
    }
  }
}
