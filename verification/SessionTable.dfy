/**
 Where each message takes a session from each place of rest, and which turns leave it parked, said of the events of the
 turn alone.
 */
module SessionTable {
  import opened CallFsm
  import opened CallSession

  // ---------------------------------------------------------------- one message from a place of rest

  /** A turn is taken up when listening and leads back there, unless it parks; playback that ends, a cancel and the
      notices about transfers are heeded in one state each; a close is heeded everywhere. */
  lemma RestTable(s: State, m: Message)
    requires Resting(s) || s == BargeIn
    ensures
      match m
      case Audio => Processed(s, m) == s
      case SpeechEnded(_) => Processed(s, m) == if s == Listening && Parks(s, m) then BargeIn else s
      case TextInput(_) => Processed(s, m) == s
      case CancelGeneration => Processed(s, m) == if s == Speaking then Listening else s
      case PlaybackNotice(interrupted) =>
        Processed(s, m) == if s != Speaking then s else if interrupted then BargeIn else Listening
      case TransferInitiated => Processed(s, m) == if s in {Listening, Speaking} then Transferring else s
      case TransferDone => Processed(s, m) == if s == Transferring then Closing else s
      case TransferFailed(audio) =>
        Processed(s, m) == if s == Transferring && true in audio then Speaking
                           else if s == Transferring || (s == Speaking && true !in audio) then Listening
                           else s
      case Close => Processed(s, m) == Closed
  {
    match m {
      case SpeechEnded(events) => if TakesSpeech(s) { EventsPark(Recognizing, true, events); }
      case TextInput(transcripts) => if TakesSpeech(s) { HeardInTurn(Recognizing, transcripts); }
      case _ =>
    }
  }

  // ---------------------------------------------------------------- the turns that park

  predicate HasText(e: TurnEvent) { e.Response? && e.stt }

  predicate HasAudio(e: TurnEvent) { e.Response? && e.tts }

  /** The first audio of the turn, at `j`, follows or comes with a transcript, nothing cancels the turn before `p`, and
      the first notice about playback after that audio, at `p`, is that it was interrupted. */
  ghost predicate InterruptedAt(events: seq<TurnEvent>, i: nat, j: nat, p: nat) {
    && i <= j < p < |events| && HasText(events[i]) && HasAudio(events[j])
    && (forall k :: 0 <= k < j ==> !HasAudio(events[k]))
    && (forall k :: 0 <= k < p ==> !events[k].Cancel?)
    && (forall k :: j < k < p ==> !events[k].Playback?)
    && events[p] == Playback(true)
  }

  /** From a state of the turn in which speaking cannot be reached any more, nothing parks. */
  lemma {:induction false} NeverParks(s: State, first: bool, events: seq<TurnEvent>)
    requires s in {Listening, BargeIn} || (!first && s in {Recognizing, Thinking})
    ensures !ParksIn(s, first, events)
    decreases |events|
  {
    if events != [] { NeverParks(Happened(s, first, events[0]), StillFirst(first, events[0]), events[1..]); }
  }

  ghost predicate CutOff(events: seq<TurnEvent>, p: nat) {
    p < |events| && events[p] == Playback(true) && forall k :: 0 <= k < p ==> !events[k].Cancel? && !events[k].Playback?
  }

  lemma CutOffShift(events: seq<TurnEvent>)
    requires events != []
    ensures (exists p: nat :: CutOff(events, p)) <==>
      events[0] == Playback(true)
      || (!events[0].Cancel? && !events[0].Playback? && exists p: nat :: CutOff(events[1..], p))
  {
    var rest := events[1..];
    assert forall k :: 0 <= k < |rest| ==> rest[k] == events[k + 1];
    if events[0] == Playback(true) { assert CutOff(events, 0); }
    if p: nat :| CutOff(events, p) { if p > 0 { assert CutOff(rest, p - 1); } }
    if p: nat :| CutOff(rest, p) {
      if !events[0].Cancel? && !events[0].Playback? { assert CutOff(events, p + 1); }
    }
  }

  /** While speaking, the turn parks if the first cancel or notice about playback is an interruption. */
  lemma {:induction false} SpeakingParks(first: bool, events: seq<TurnEvent>)
    ensures ParksIn(Speaking, first, events) <==> exists p: nat :: CutOff(events, p)
    decreases |events|
  {
    if events != [] {
      hide CutOff;
      CutOffShift(events);
      var e, rest := events[0], events[1..];
      if e.Response? {
        SpeakingParks(StillFirst(first, e), rest);
        RelayKeeps(first, e);
      } else {
        NeverParks(Happened(Speaking, first, e), first, rest);
      }
    }
  }

  lemma RelayKeeps(first: bool, e: TurnEvent)
    requires e.Response?
    ensures Happened(Speaking, first, e) == Speaking
  {}

  /** The turn parks from here on, if a transcript has come already or not. */
  ghost predicate WillPark(heard: bool, events: seq<TurnEvent>) {
    exists j: nat, p: nat :: ParksAt(heard, events, j, p)
  }

  ghost predicate ParksAt(heard: bool, events: seq<TurnEvent>, j: nat, p: nat) {
    && j < p < |events| && HasAudio(events[j]) && (heard || exists i :: 0 <= i <= j && HasText(events[i]))
    && (forall k :: 0 <= k < j ==> !HasAudio(events[k]))
    && (forall k :: 0 <= k < p ==> !events[k].Cancel?)
    && (forall k :: j < k < p ==> !events[k].Playback?)
    && events[p] == Playback(true)
  }

  lemma WillParkShift(heard: bool, events: seq<TurnEvent>)
    requires events != []
    ensures
      var e, rest := events[0], events[1..];
      WillPark(heard, events) <==>
        if e.Cancel? then false
        else if HasAudio(e) then (heard || HasText(e)) && exists p: nat :: CutOff(rest, p)
        else WillPark(heard || HasText(e), rest)
  {
    var e, rest := events[0], events[1..];
    var told := heard || HasText(e);
    assert forall k :: 0 <= k < |rest| ==> rest[k] == events[k + 1];
    if j: nat, p: nat :| ParksAt(heard, events, j, p) {
      if HasAudio(e) {
        assert j == 0;
        assert CutOff(rest, p - 1);
      } else {
        assert j > 0;
        if !heard && !HasText(e) {
          var i :| 0 <= i <= j && HasText(events[i]);
          assert HasText(rest[i - 1]);
        }
        assert ParksAt(told, rest, j - 1, p - 1);
      }
    }
    if !e.Cancel? && HasAudio(e) && (heard || HasText(e)) {
      if p: nat :| CutOff(rest, p) {
        assert HasText(e) ==> HasText(events[0]);
        assert ParksAt(heard, events, 0, p + 1);
      }
    }
    if !e.Cancel? && !HasAudio(e) {
      if j: nat, p: nat :| ParksAt(told, rest, j, p) {
        if !heard {
          if HasText(e) { assert HasText(events[0]); } else {
            var i :| 0 <= i <= j && HasText(rest[i]);
            assert HasText(events[i + 1]);
          }
        }
        assert ParksAt(heard, events, j + 1, p + 1);
      }
    }
  }

  lemma {:induction false} ListeningTurnParks(heard: bool, events: seq<TurnEvent>)
    ensures ParksIn(if heard then Thinking else Recognizing, true, events) <==> WillPark(heard, events)
    decreases |events|
  {
    if events != [] {
      hide WillPark, CutOff;
      WillParkShift(heard, events);
      var s := if heard then Thinking else Recognizing;
      var e, rest := events[0], events[1..];
      var next := Happened(s, true, e);
      if e.Cancel? {
        NeverParks(next, true, rest);
      } else if HasAudio(e) {
        if heard || HasText(e) { SpeakingParks(false, rest); } else { NeverParks(next, false, rest); }
      } else {
        ListeningTurnParks(heard || HasText(e), rest);
      }
    }
  }

  /** A turn leaves the session parked exactly when its reply is being spoken, nothing having cancelled it, and the
      first word about its playback is that it was interrupted. */
  lemma TurnParksIff(events: seq<TurnEvent>)
    ensures Processed(Listening, SpeechEnded(events)) == BargeIn <==>
      exists i: nat, j: nat, p: nat :: InterruptedAt(events, i, j, p)
    ensures Processed(Listening, SpeechEnded(events)) in {BargeIn, Listening}
  {
    RestTable(Listening, SpeechEnded(events));
    ListeningTurnParks(false, events);
    hide ParksIn;
    if j: nat, p: nat :| ParksAt(false, events, j, p) {
      var i: nat :| i <= j && HasText(events[i]);
      assert InterruptedAt(events, i, j, p);
    }
    if i: nat, j: nat, p: nat :| InterruptedAt(events, i, j, p) { assert ParksAt(false, events, j, p); }
  }

  /** The handshake leads from idle to listening, and a transcript and the first audio on to speaking. */
  lemma TurnBegins()
    ensures Ready(Idle) == Listening
    ensures Spoken(Recognizing, true, false) == Thinking && Spoken(Recognizing, true, true) == Speaking
    ensures Spoken(Thinking, false, true) == Speaking && Spoken(Recognizing, false, true) == Recognizing
  {}
}
