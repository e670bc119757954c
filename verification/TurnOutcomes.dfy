/**
 What a cancel and a transfer come to, over whole runs of the message loop: who is heard, and which transfers go out
 and when.
 */
module TurnOutcomes {
  import opened Text
  import opened Servicer

  // ---------------------------------------------------------------- who is heard

  /** A turn meets a cancel, or the end of the stream, before it passes its response on. */
  ghost predicate Stops(l: Loop, s: Step) {
    && s.DrainNext? && l.turn.Some? && l.queue != []
    && (l.queue[0].End? || l.queue[0].notice.CancelGeneration?)
  }

  ghost predicate InTurn(l: Loop, n: nat) { l.turn.Some? && l.turn.value.number == n }

  ghost predicate StoppedIn(loops: seq<Loop>, steps: seq<Step>, k: nat, n: nat)
    requires k <= |steps| <= |loops|
  {
    exists j :: 0 <= j < k && Stops(loops[j], steps[j]) && InTurn(loops[j], n)
  }

  lemma TurnsGrow(l: Loop, s: Step)
    requires Enabled(l, s)
    ensures l.turns <= After(l, s).turns
  {
    hide TakeEvents, DrainEvents, ForwardEvents, EndEvents;
  }

  /** The numbers of past turns are used up. */
  lemma {:induction false} PastTurns(loops: seq<Loop>, steps: seq<Step>, j: nat, k: nat)
    requires Run(loops, steps) && j <= k < |loops|
    ensures loops[j].turns <= loops[k].turns
    ensures loops[j].turn.Some? ==> loops[j].turn.value.number < loops[k].turns
  {
    hide Conserved, LeftAlone, AckedOnce, Single, Timely, After, Enabled;
    if j < k {
      PastTurns(loops, steps, j, k - 1);
      assert Enabled(loops[k - 1], steps[k - 1]) && loops[k - 1 + 1] == After(loops[k - 1], steps[k - 1]);
      TurnsGrow(loops[k - 1], steps[k - 1]);
    } else {
      RunSound(loops, steps, k);
      assert Numbered(loops[k]);
    }
  }

  lemma CancelledStep(l: Loop, s: Step)
    requires Enabled(l, s)
    ensures
      var next := After(l, s);
      next.turn.Some? ==>
        if InTurn(l, next.turn.value.number) then next.turn.value.cancelled == (l.turn.value.cancelled || Stops(l, s))
        else !next.turn.value.cancelled && next.turn.value.number == l.turns && l.turn.None?
  {
    hide TakeEvents, DrainEvents, ForwardEvents, EndEvents;
  }

  lemma StoppedOneMore(loops: seq<Loop>, steps: seq<Step>, k: nat, n: nat)
    requires 0 < k <= |steps| <= |loops|
    ensures StoppedIn(loops, steps, k, n) <==>
      StoppedIn(loops, steps, k - 1, n) || (Stops(loops[k - 1], steps[k - 1]) && InTurn(loops[k - 1], n))
  {
    hide Stops, InTurn;
  }

  /** A turn is marked cancelled exactly when it met a cancel or the end of the stream. */
  lemma {:induction false} CancelledIff(loops: seq<Loop>, steps: seq<Step>, k: nat)
    requires Run(loops, steps) && k <= |steps|
    ensures loops[k].turn.Some? ==>
      (loops[k].turn.value.cancelled <==> StoppedIn(loops, steps, k, loops[k].turn.value.number))
  {
    if k > 0 && loops[k].turn.Some? {
      hide After, Enabled, Stops;
      var n := loops[k].turn.value.number;
      CancelledIff(loops, steps, k - 1);
      assert Enabled(loops[k - 1], steps[k - 1]) && loops[k - 1 + 1] == After(loops[k - 1], steps[k - 1]);
      CancelledStep(loops[k - 1], steps[k - 1]);
      StoppedOneMore(loops, steps, k, n);
      if !InTurn(loops[k - 1], n) {
        forall j | 0 <= j < k - 1 ensures !InTurn(loops[j], n) { PastTurns(loops, steps, j, k - 1); }
      }
    }
  }

  /** A response with audio is heard exactly when its turn has met no cancel and no end of the stream. */
  lemma HeardIff(loops: seq<Loop>, steps: seq<Step>, k: nat)
    requires Run(loops, steps) && k < |steps| && steps[k].Forward?
    ensures
      var t := loops[k].turn.value;
      && Enabled(loops[k], steps[k]) && !t.phase.Generating?
      && (Spoke(t.number) in Emits(loops[k], steps[k]) <==>
           t.phase.response.audio && !StoppedIn(loops, steps, k, t.number))
      && forall e :: e in Emits(loops[k], steps[k]) ==> e == Spoke(t.number)
  {
    CancelledIff(loops, steps, k);
    hide StoppedIn;
  }

  // ---------------------------------------------------------------- nothing follows a cancel

  /** Nothing of turn `n` is to come: if it is still under way it is cancelled, and no transfer of it is held. */
  ghost predicate Silenced(l: Loop, n: nat) {
    && n < l.turns && (InTurn(l, n) ==> l.turn.value.cancelled)
    && (l.held.Some? ==> l.held.value.turn != n)
  }

  /** The held transfer is of a turn that is over. */
  ghost predicate HeldApart(l: Loop) {
    l.held.Some? ==> l.held.value.turn < l.turns && !InTurn(l, l.held.value.turn)
  }

  lemma HeldApartKept(l: Loop, s: Step)
    requires HeldApart(l) && Numbered(l) && Enabled(l, s)
    ensures HeldApart(After(l, s))
  {
    hide TakeEvents, DrainEvents, ForwardEvents, EndEvents;
  }

  lemma {:induction false} HeldApartAlways(loops: seq<Loop>, steps: seq<Step>, k: nat)
    requires Run(loops, steps) && k < |loops|
    ensures HeldApart(loops[k])
  {
    if k > 0 {
      hide Conserved, LeftAlone, AckedOnce, Single, Timely, Numbered, After, Enabled, HeldApart;
      HeldApartAlways(loops, steps, k - 1);
      RunSound(loops, steps, k - 1);
      assert Enabled(loops[k - 1], steps[k - 1]) && loops[k - 1 + 1] == After(loops[k - 1], steps[k - 1]);
      HeldApartKept(loops[k - 1], steps[k - 1]);
    }
  }

  lemma StopSilences(l: Loop, s: Step)
    requires HeldApart(l) && Numbered(l) && Enabled(l, s) && Stops(l, s)
    ensures Silenced(After(l, s), l.turn.value.number)
  {
    hide DrainEvents;
  }

  /** An event that is nothing of turn `n`. */
  predicate Foreign(e: Event, n: nat) { e != Spoke(n) && (e.Sent? ==> e.transfer.turn != n) }

  lemma {:induction false} MintedForeign(wishes: seq<Wish>, minted: nat, turns: nat, n: nat)
    requires n < turns
    ensures forall e :: e in Minted(wishes, minted, turns) ==> Foreign(e, n)
    decreases |wishes|
  {
    if wishes != [] { MintedForeign(wishes[1..], minted + 1, turns + 1, n); }
  }

  lemma SilencedKept(l: Loop, s: Step, n: nat)
    requires Silenced(l, n) && Numbered(l) && Enabled(l, s)
    ensures Silenced(After(l, s), n)
    ensures forall e :: e in Emits(l, s) ==> Foreign(e, n)
  {
    if s.Take? { MintedForeign(s.textWishes, l.minted, l.turns, n); }
    hide Minted;
  }

  lemma {:induction false} StaysSilenced(loops: seq<Loop>, steps: seq<Step>, j: nat, m: nat, n: nat)
    requires Run(loops, steps) && j < m < |loops| && Stops(loops[j], steps[j]) && InTurn(loops[j], n)
    ensures Silenced(loops[m], n) && |loops[j].log| <= |loops[m].log|
    ensures forall i :: |loops[j].log| <= i < |loops[m].log| ==> Foreign(loops[m].log[i], n)
    decreases m
  {
    hide Conserved, LeftAlone, AckedOnce, Single, Timely, Numbered, After, Enabled, Silenced, HeldApart, Emits, Foreign;
    if m == j + 1 {
      RunSound(loops, steps, j);
      HeldApartAlways(loops, steps, j);
      StopSilences(loops[j], steps[j]);
      StopsQuietly(loops[j], steps[j], n);
    } else {
      StaysSilenced(loops, steps, j, m - 1, n);
      RunSound(loops, steps, m - 1);
      assert Enabled(loops[m - 1], steps[m - 1]) && loops[m - 1 + 1] == After(loops[m - 1], steps[m - 1]);
      SilencedKept(loops[m - 1], steps[m - 1], n);
      var events := Emits(loops[m - 1], steps[m - 1]);
      assert loops[m].log == loops[m - 1].log + events;
      assert forall i :: 0 <= i < |events| ==> events[i] in events;
    }
  }

  lemma StopsQuietly(l: Loop, s: Step, n: nat)
    requires Enabled(l, s) && Stops(l, s)
    ensures l.log <= After(l, s).log
    ensures forall i :: |l.log| <= i < |After(l, s).log| ==> Foreign(After(l, s).log[i], n)
  {}

  /** Once a turn has met a cancel, or the end of the stream, nothing more of it is heard and no transfer it asked for,
      before or after, goes out. */
  lemma NothingFollowsStop(loops: seq<Loop>, steps: seq<Step>, j: nat, m: nat, n: nat)
    requires Run(loops, steps) && j < m < |loops| && Stops(loops[j], steps[j]) && InTurn(loops[j], n)
    ensures |loops[j].log| <= |loops[m].log|
    ensures forall i :: |loops[j].log| <= i < |loops[m].log| ==>
      loops[m].log[i] != Spoke(n) && (loops[m].log[i].Sent? ==> loops[m].log[i].transfer.turn != n)
  {
    StaysSilenced(loops, steps, j, m, n);
  }

  // ---------------------------------------------------------------- which transfers go out

  /** A turn that may still be heard passes on a response that asks for this transfer. */
  ghost predicate Asks(loops: seq<Loop>, steps: seq<Step>, i: nat, tr: Transfer)
    requires i < |steps| <= |loops|
  {
    && steps[i].Forward? && InTurn(loops[i], tr.turn) && !loops[i].turn.value.phase.Generating?
    && loops[i].turn.value.phase.response.wish == Some(Wish(tr.escalation, tr.destination))
    && tr.token == loops[i].minted && !StoppedIn(loops, steps, i, tr.turn)
  }

  /** The transfer its turn asked for last. */
  ghost predicate LastAsked(loops: seq<Loop>, steps: seq<Step>, k: nat, tr: Transfer)
    requires k <= |steps| <= |loops|
  {
    exists i :: 0 <= i < k && Asks(loops, steps, i, tr) &&
      forall j, other :: i < j < k && Asks(loops, steps, j, other) ==> other.turn != tr.turn
  }

  lemma TransferStep(l: Loop, s: Step)
    requires Enabled(l, s)
    ensures
      var next := After(l, s);
      next.turn.Some? ==>
        if !InTurn(l, next.turn.value.number) then next.turn.value.transfer.None? && next.turn.value.number == l.turns
        else if s.Forward? && !l.turn.value.cancelled && l.turn.value.phase.response.wish.Some? then
          var w := l.turn.value.phase.response.wish.value;
          next.turn.value.transfer == Some(Transfer(l.minted, l.turn.value.number, w.escalation, w.destination))
        else next.turn.value.transfer == l.turn.value.transfer
  {
    hide TakeEvents, DrainEvents, ForwardEvents, EndEvents;
  }

  /** What the last step changes about the transfer asked for last. */
  lemma LastAskedStep(loops: seq<Loop>, steps: seq<Step>, k: nat, tr: Transfer)
    requires 0 < k <= |steps| <= |loops|
    ensures LastAsked(loops, steps, k, tr) <==>
      || Asks(loops, steps, k - 1, tr)
      || (LastAsked(loops, steps, k - 1, tr)
          && forall other :: Asks(loops, steps, k - 1, other) ==> other.turn != tr.turn)
  {
    hide Asks;
    if LastAsked(loops, steps, k, tr) {
      var i :| 0 <= i < k && Asks(loops, steps, i, tr)
        && forall j, other :: i < j < k && Asks(loops, steps, j, other) ==> other.turn != tr.turn;
      if i < k - 1 { assert LastAsked(loops, steps, k - 1, tr); }
    }
    if
      && LastAsked(loops, steps, k - 1, tr)
      && (forall other :: Asks(loops, steps, k - 1, other) ==> other.turn != tr.turn)
    {
      var i :| 0 <= i < k - 1 && Asks(loops, steps, i, tr)
        && forall j, other :: i < j < k - 1 && Asks(loops, steps, j, other) ==> other.turn != tr.turn;
      assert forall j, other :: i < j < k && Asks(loops, steps, j, other) ==> other.turn != tr.turn;
    }
    if Asks(loops, steps, k - 1, tr) { assert LastAsked(loops, steps, k, tr); }
  }

  /** A turn carries the transfer it asked for last. */
  lemma {:induction false} CarriesLast(loops: seq<Loop>, steps: seq<Step>, k: nat, tr: Transfer)
    requires Run(loops, steps) && k <= |steps| && InTurn(loops[k], tr.turn)
    ensures loops[k].turn.value.transfer == Some(tr) <==> LastAsked(loops, steps, k, tr)
  {
    if k > 0 {
      hide After, Enabled, StoppedIn;
      var l, s, n := loops[k - 1], steps[k - 1], tr.turn;
      assert Enabled(l, s) && loops[k - 1 + 1] == After(l, s);
      TransferStep(l, s);
      LastAskedStep(loops, steps, k, tr);
      if InTurn(l, n) {
        CarriesLast(loops, steps, k - 1, tr);
        CancelledIff(loops, steps, k - 1);
        ForwardReady(l, s);
        AsksNow(loops, steps, k - 1, n);
      } else {
        forall i | 0 <= i < k ensures !InTurn(loops[i], n) { PastTurns(loops, steps, i, k - 1); }
      }
    }
  }

  lemma ForwardReady(l: Loop, s: Step)
    requires Enabled(l, s)
    ensures s.Forward? ==> l.turn.Some? && !l.turn.value.phase.Generating?
  {}

  /** Whether a step asks, and what for. */
  lemma AsksNow(loops: seq<Loop>, steps: seq<Step>, i: nat, n: nat)
    requires i < |steps| <= |loops| && InTurn(loops[i], n)
    requires loops[i].turn.value.cancelled <==> StoppedIn(loops, steps, i, n)
    requires steps[i].Forward? ==> !loops[i].turn.value.phase.Generating?
    ensures
      var asked := steps[i].Forward? && !loops[i].turn.value.cancelled && loops[i].turn.value.phase.response.wish.Some?;
      && (asked ==>
           var w := loops[i].turn.value.phase.response.wish.value;
           Asks(loops, steps, i, Transfer(loops[i].minted, n, w.escalation, w.destination)))
      && (forall tr :: Asks(loops, steps, i, tr) ==>
           asked && tr.turn == n && tr.token == loops[i].minted
           && loops[i].turn.value.phase.response.wish == Some(Wish(tr.escalation, tr.destination)))
  {
    hide StoppedIn;
  }

  /** As a turn ends, the transfer it asked for last goes out at once if nothing of the turn was heard and it has a
      destination; if something was heard it is held; and if the turn was stopped it is dropped. */
  lemma TurnEnds(loops: seq<Loop>, steps: seq<Step>, k: nat, tr: Transfer)
    requires Run(loops, steps) && k < |steps| && steps[k].EndTurn? && InTurn(loops[k], tr.turn)
    ensures Enabled(loops[k], steps[k])
    ensures
      var settled := LastAsked(loops, steps, k, tr) && !StoppedIn(loops, steps, k, tr.turn);
      && (Sent(tr) in Emits(loops[k], steps[k]) <==> settled && Spoke(tr.turn) !in loops[k].log && tr.destination != "")
      && (settled && Spoke(tr.turn) in loops[k].log ==> loops[k + 1].held == Some(tr))
  {
    CancelledIff(loops, steps, k);
    CarriesLast(loops, steps, k, tr);
    SpokenLogged(loops, steps, k);
    hide StoppedIn, LastAsked;
    assert loops[k + 1] == After(loops[k], steps[k]);
  }

  /** A turn counts as heard exactly when the log says so. */
  lemma {:induction false} SpokenLogged(loops: seq<Loop>, steps: seq<Step>, k: nat)
    requires Run(loops, steps) && k < |loops|
    ensures loops[k].turn.Some? ==> (loops[k].turn.value.spoke <==> Spoke(loops[k].turn.value.number) in loops[k].log)
  {
    RunSound(loops, steps, k);
    assert Numbered(loops[k]);
    if k > 0 {
      hide Conserved, LeftAlone, AckedOnce, Single, Timely;
      SpokenLogged(loops, steps, k - 1);
      assert Enabled(loops[k - 1], steps[k - 1]) && loops[k - 1 + 1] == After(loops[k - 1], steps[k - 1]);
      SpokenStep(loops[k - 1], steps[k - 1]);
    }
  }

  lemma SpokenStep(l: Loop, s: Step)
    requires Enabled(l, s)
    requires l.turn.Some? ==> (l.turn.value.spoke ==> Spoke(l.turn.value.number) in l.log)
    ensures
      var next := After(l, s);
      next.turn.Some? && next.turn.value.spoke ==> Spoke(next.turn.value.number) in next.log
  {
    hide TakeEvents, DrainEvents;
  }

  /** The step takes a playback notice, in a turn or outside one. */
  ghost predicate TakesPlayback(l: Loop, s: Step, interrupted: bool) {
    && (s.Take? || s.DrainNext?) && l.queue != []
    && l.queue[0].Message? && l.queue[0].notice == PlaybackFinished(interrupted)
  }

  /** A held transfer is decided by the next playback notice: it goes out if it has a destination and playback was not
      interrupted or the system itself decided on it; and it is not held any longer. */
  lemma PlaybackDecides(loops: seq<Loop>, steps: seq<Step>, k: nat, interrupted: bool)
    requires Run(loops, steps) && k < |steps| && TakesPlayback(loops[k], steps[k], interrupted)
    ensures Enabled(loops[k], steps[k]) && loops[k + 1].held.None?
    ensures forall tr :: Sent(tr) in Emits(loops[k], steps[k]) <==>
      loops[k].held == Some(tr) && tr.destination != "" && (!interrupted || tr.escalation)
  {
    assert loops[k + 1] == After(loops[k], steps[k]);
  }

  lemma HeldStep(l: Loop, s: Step)
    requires Enabled(l, s) && !TakesPlayback(l, s, true) && !TakesPlayback(l, s, false) && !s.EndTurn?
    ensures After(l, s).held == l.held
    ensures l.held.Some? && !s.Take? ==> Sent(l.held.value) !in Emits(l, s)
  {
    hide Minted;
  }

  /** Until then it waits, as long as no other turn ends. */
  lemma {:induction false} HeldWaits(loops: seq<Loop>, steps: seq<Step>, j: nat, k: nat)
    requires Run(loops, steps) && j <= k < |loops|
    requires forall i :: j <= i < k ==> !steps[i].EndTurn?
    requires forall i, interrupted :: j <= i < k ==> !TakesPlayback(loops[i], steps[i], interrupted)
    ensures loops[k].held == loops[j].held
    decreases k
  {
    if j < k {
      hide After, Enabled, TakesPlayback;
      HeldWaits(loops, steps, j, k - 1);
      assert Enabled(loops[k - 1], steps[k - 1]) && loops[k - 1 + 1] == After(loops[k - 1], steps[k - 1]);
      HeldStep(loops[k - 1], steps[k - 1]);
    }
  }

  /** The way of a transfer asked for in a turn that is heard and not stopped: it goes out at the next playback notice,
      exactly if it has a destination and the notice is of an uninterrupted playback or the system decided on it. */
  lemma HeardTransferGoesOut(loops: seq<Loop>, steps: seq<Step>, e: nat, q: nat, tr: Transfer, interrupted: bool)
    requires Run(loops, steps) && e < q < |steps|
    requires steps[e].EndTurn? && InTurn(loops[e], tr.turn) && LastAsked(loops, steps, e, tr)
    requires !StoppedIn(loops, steps, e, tr.turn) && Spoke(tr.turn) in loops[e].log
    requires forall i :: e < i < q ==> !steps[i].EndTurn?
    requires forall i, any :: e < i < q ==> !TakesPlayback(loops[i], steps[i], any)
    requires TakesPlayback(loops[q], steps[q], interrupted)
    ensures Enabled(loops[q], steps[q])
    ensures Sent(tr) in Emits(loops[q], steps[q]) <==> tr.destination != "" && (!interrupted || tr.escalation)
  {
    TurnEnds(loops, steps, e, tr);
    HeldWaits(loops, steps, e + 1, q);
    PlaybackDecides(loops, steps, q, interrupted);
  }

  predicate SentFor(w: Wish, token: nat, turn: nat, e: Event) {
    w.destination != "" && e == Sent(Transfer(token, turn, w.escalation, w.destination))
  }

  /** The transfers of a typed turn go out at once, those with a destination, each as it was asked for. */
  lemma {:induction false} TypedTurnSends(wishes: seq<Wish>, minted: nat, turns: nat, e: Event)
    ensures e in Minted(wishes, minted, turns) <==>
      exists i :: 0 <= i < |wishes| && SentFor(wishes[i], minted + i, turns + i, e)
    decreases |wishes|
  {
    if wishes != [] {
      var rest := wishes[1..];
      TypedTurnSends(rest, minted + 1, turns + 1, e);
      var first := Dispatch(Transfer(minted, turns, wishes[0].escalation, wishes[0].destination), false);
      assert Minted(wishes, minted, turns) == first + Minted(rest, minted + 1, turns + 1);
      assert e in first <==> SentFor(wishes[0], minted + 0, turns + 0, e);
      assert forall i :: 0 <= i < |rest| ==> rest[i] == wishes[i + 1];
      hide Minted, Dispatch, SentFor;
      if e in Minted(rest, minted + 1, turns + 1) {
        var i :| 0 <= i < |rest| && SentFor(rest[i], minted + 1 + i, turns + 1 + i, e);
        assert SentFor(wishes[i + 1], minted + (i + 1), turns + (i + 1), e);
      }
      if i :| 0 <= i < |wishes| && SentFor(wishes[i], minted + i, turns + i, e) {
        if i > 0 { assert SentFor(rest[i - 1], minted + 1 + (i - 1), turns + 1 + (i - 1), e); }
      }
    }
  }

  /** What the outer loop does with the message it takes: a finished utterance starts a turn of its own, a typed text
      sends what its turn asks for, the end of the stream ends the loop, and nothing else does any of that. */
  lemma OuterLoopTakes(l: Loop, wishes: seq<Wish>)
    requires Enabled(l, Take(wishes))
    ensures
      var item, next := l.queue[0], After(l, Take(wishes));
      && Took(item, false) in Emits(l, Take(wishes)) && next.queue == l.queue[1..]
      && (item.End? <==> next.stopped)
      && (next.turn.Some? <==> item.Message? && item.notice.SpeechEnded?)
      && (next.turn.Some? ==> InTurn(next, l.turns) && !next.turn.value.cancelled && next.turn.value.transfer.None?)
      && (item.Message? && item.notice.TextInput? ==>
           forall e :: e in Emits(l, Take(wishes)) <==>
             (|| e == Took(item, false)
              || exists i :: 0 <= i < |wishes| && SentFor(wishes[i], l.minted + i, l.turns + i, e)))
  {
    var item := l.queue[0];
    if item.Message? && item.notice.TextInput? {
      hide Minted, SentFor;
      assert Emits(l, Take(wishes)) == [Took(item, false)] + Minted(wishes, l.minted, l.turns);
      forall e
        ensures e in Emits(l, Take(wishes)) <==> e == Took(item, false) || e in Minted(wishes, l.minted, l.turns) {}
      forall e ensures e in Minted(wishes, l.minted, l.turns) <==>
        exists i :: 0 <= i < |wishes| && SentFor(wishes[i], l.minted + i, l.turns + i, e)
      {
        TypedTurnSends(wishes, l.minted, l.turns, e);
      }
    }
  }
}
