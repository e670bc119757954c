/**
 One call's session: the messages it is given, the handler output it relays, and where they leave the
 conversation state machine between messages.
 */
module CallSession {
  import opened CallFsm

  /** What happens to the machine during a spoken turn, in order: a response of the handler, which may carry a
      transcript and may carry audio, or a notice drained from the queue between two responses. */
  datatype TurnEvent =
    | Response(stt: bool, tts: bool)
    | Cancel
    | Playback(interrupted: bool)

  datatype Message =
    | Audio
    | SpeechEnded(events: seq<TurnEvent>)
    | TextInput(transcripts: seq<bool>)
    | CancelGeneration
    | PlaybackNotice(interrupted: bool)
    | TransferInitiated
    | TransferDone
    | TransferFailed(audio: seq<bool>)
    | Close

  predicate TakesSpeech(s: State) { s in {Listening, Recognizing} }

  // ---------------------------------------------------------------- what each message does

  function Ready(s: State): State { Guarded(Moved(s, Connecting), Connecting, Listening) }

  function Spoken(s: State, stt: bool, firstAudio: bool): State {
    var heard := if stt then Guarded(s, Recognizing, Thinking) else s;
    if firstAudio then Guarded(Guarded(heard, Thinking, Synthesizing), Synthesizing, Speaking) else heard
  }

  /** One event of a turn; `first` says that no audio has come yet. */
  function Happened(s: State, first: bool, e: TurnEvent): State {
    match e
    case Response(stt, tts) => Spoken(s, stt, tts && first)
    case Cancel => Cancelled(s)
    case Playback(interrupted) => PlaybackFinished(s, interrupted)
  }

  function StillFirst(first: bool, e: TurnEvent): bool { first && !(e.Response? && e.tts) }

  function Events(s: State, first: bool, events: seq<TurnEvent>): State
    decreases |events|
  {
    if events == [] then s
    else Events(Happened(s, first, events[0]), StillFirst(first, events[0]), events[1..])
  }

  /** A turn that is over leaves no mid-turn state behind. */
  function TurnEnded(s: State): State { if MidTurn(s) || s == Speaking then Cancelled(s) else s }

  function Turned(s: State, events: seq<TurnEvent>): State {
    if TakesSpeech(s) then TurnEnded(Events(Guarded(s, Listening, Recognizing), true, events)) else s
  }

  function Heard(s: State, transcripts: seq<bool>): State
    decreases |transcripts|
  {
    if transcripts == [] then s
    else Heard(if transcripts[0] then Guarded(s, Recognizing, Thinking) else s, transcripts[1..])
  }

  function Typed(s: State, transcripts: seq<bool>): State {
    if TakesSpeech(s) then TurnEnded(Heard(Guarded(s, Listening, Recognizing), transcripts)) else s
  }

  /** The apology after a failed transfer; without any audio there will be no playback to wait for. */
  function Apologised(s: State, audio: seq<bool>): State {
    var spoken := Guarded(Guarded(s, Transferring, Recovering), Recovering, Speaking);
    if true in audio then spoken else PlaybackFinished(spoken, false)
  }

  function Processed(s: State, m: Message): State {
    match m
    case Audio => s
    case SpeechEnded(events) => Turned(s, events)
    case TextInput(transcripts) => Typed(s, transcripts)
    case CancelGeneration => Cancelled(s)
    case PlaybackNotice(interrupted) => PlaybackFinished(s, interrupted)
    case TransferInitiated => TransferRequested(s)
    case TransferDone => Guarded(TransferCompleted(s, true), Finalizing, Closing)
    case TransferFailed(audio) => Apologised(s, audio)
    case Close => if s == Closed then s else Guarded(SessionClosed(s), Closing, Closed)
  }

  function ProcessedAll(s: State, ms: seq<Message>): State {
    if ms == [] then s else Processed(ProcessedAll(s, ms[..|ms| - 1]), ms[|ms| - 1])
  }

  // ---------------------------------------------------------------- where a session rests

  predicate Resting(s: State) { s in {Listening, Speaking, Transferring, Closing, Closed} }

  /** Whether the events of a turn include an interrupted playback met while speaking. */
  predicate ParksIn(s: State, first: bool, events: seq<TurnEvent>)
    decreases |events|
  {
    events != [] &&
    ((events[0] == Playback(true) && s == Speaking)
     || ParksIn(Happened(s, first, events[0]), StillFirst(first, events[0]), events[1..]))
  }

  /** Whether processing a message meets an interrupted playback while speaking. */
  predicate Parks(s: State, m: Message) {
    match m
    case SpeechEnded(events) => TakesSpeech(s) && ParksIn(Guarded(s, Listening, Recognizing), true, events)
    case PlaybackNotice(interrupted) => interrupted && s == Speaking
    case _ => false
  }

  predicate InTurn(s: State) { MidTurn(s) || s in {Listening, Speaking, BargeIn} }

  /** During a turn the machine is parked exactly by an interrupted playback met while speaking. */
  lemma {:induction false} EventsPark(s: State, first: bool, events: seq<TurnEvent>)
    requires InTurn(s)
    ensures InTurn(Events(s, first, events))
    ensures Events(s, first, events) == BargeIn <==> s == BargeIn || ParksIn(s, first, events)
    decreases |events|
  {
    if events != [] {
      EventsPark(Happened(s, first, events[0]), StillFirst(first, events[0]), events[1..]);
    }
  }

  lemma {:induction false} HeardInTurn(s: State, transcripts: seq<bool>)
    requires MidTurn(s)
    ensures MidTurn(Heard(s, transcripts))
    decreases |transcripts|
  {
    if transcripts != [] {
      HeardInTurn(if transcripts[0] then Guarded(s, Recognizing, Thinking) else s, transcripts[1..]);
    }
  }

  /** One message, from a place of rest: the session rests again, or is parked exactly if it met an interrupted
      playback while speaking; and nothing but a close takes it out of there. */
  lemma MessageRests(s: State, m: Message)
    requires Resting(s) || s == BargeIn
    ensures Resting(Processed(s, m)) || Processed(s, m) == BargeIn
    ensures Processed(s, m) == BargeIn <==> (s == BargeIn && !m.Close?) || Parks(s, m)
  {
    match m {
      case SpeechEnded(events) =>
        if TakesSpeech(s) {
          EventsPark(Recognizing, true, events);
        }
      case TextInput(transcripts) =>
        if TakesSpeech(s) {
          HeardInTurn(Recognizing, transcripts);
        }
      case _ =>
    }
  }

  /** Message `i` met an interrupted playback while speaking, and no close has come since. */
  ghost predicate ParkedBy(ms: seq<Message>, i: int) {
    && 0 <= i < |ms| && Parks(ProcessedAll(Ready(Idle), ms[..i]), ms[i])
    && forall j :: i < j < |ms| ==> !ms[j].Close?
  }

  lemma ParkedByEarlier(ms: seq<Message>, i: int)
    requires 0 <= i < |ms| - 1
    ensures ParkedBy(ms, i) <==> ParkedBy(ms[..|ms| - 1], i) && !ms[|ms| - 1].Close?
  {
    hide Parks, ProcessedAll;
    var init := ms[..|ms| - 1];
    assert init[..i] == ms[..i] && init[i] == ms[i];
    assert forall j :: i < j < |init| ==> init[j] == ms[j];
    assert ms[|ms| - 1].Close? || forall j :: i < j < |ms| ==> j == |ms| - 1 || ms[j] == init[j];
  }

  /** Over every run of messages after the handshake: between messages the session is listening, speaking,
      transferring, closing or closed, except that it is parked in barge-in exactly when some message met an
      interrupted playback while speaking and no close has come since. */
  lemma {:induction false} RunRests(ms: seq<Message>)
    ensures Resting(ProcessedAll(Ready(Idle), ms)) || ProcessedAll(Ready(Idle), ms) == BargeIn
    ensures ProcessedAll(Ready(Idle), ms) == BargeIn <==> exists i :: ParkedBy(ms, i)
    decreases |ms|
  {
    if ms != [] {
      var last := |ms| - 1;
      var init := ms[..last];
      RunRests(init);
      MessageRests(ProcessedAll(Ready(Idle), init), ms[last]);
      assert ParkedBy(ms, last) <==> Parks(ProcessedAll(Ready(Idle), init), ms[last]);
      forall i | 0 <= i < last ensures ParkedBy(ms, i) <==> ParkedBy(init, i) && !ms[last].Close? {
        ParkedByEarlier(ms, i);
      }
      assert forall i :: ParkedBy(ms, i) ==> 0 <= i <= last;
      assert forall i :: ParkedBy(init, i) ==> 0 <= i < last;
      hide Processed, Parks, Resting, ParkedBy;
    }
  }

  /** A close after the handshake always ends closed, in whatever state it finds the machine. */
  lemma CloseCloses(s: State)
    ensures Processed(s, Close) == Closed <==> s != Idle
  {
  }

  // ---------------------------------------------------------------- the session itself

  class ConversationSession {
    const fsm: ConversationFSM

    constructor ()
      ensures fresh(fsm) && fsm.Valid() && fsm.state == Idle && fsm.changes == []
    {
      fsm := new ConversationFSM();
    }

    method SessionReady()
      requires fsm.Valid()
      modifies fsm
      ensures fsm.Valid() && fsm.state == Ready(old(fsm.state)) && old(fsm.changes) <= fsm.changes
    {
      fsm.OnSessionStart();
      fsm.Trigger(Connecting, Listening);
    }

    /** One response relayed during a spoken turn. */
    method Relay(stt: bool, firstAudio: bool)
      requires fsm.Valid()
      modifies fsm
      ensures fsm.Valid() && fsm.state == Spoken(old(fsm.state), stt, firstAudio) && old(fsm.changes) <= fsm.changes
    {
      if stt {
        fsm.Trigger(Recognizing, Thinking);
      }
      if firstAudio {
        fsm.Trigger(Thinking, Synthesizing);
        fsm.Trigger(Synthesizing, Speaking);
      }
    }

    /** A spoken turn, with what the handler produces and what is drained meanwhile. */
    method SpeechEnded(events: seq<TurnEvent>)
      requires fsm.Valid()
      modifies fsm
      ensures fsm.Valid() && fsm.state == Turned(old(fsm.state), events) && old(fsm.changes) <= fsm.changes
    {
      if !TakesSpeech(fsm.state) {
        return;
      }
      fsm.Trigger(Listening, Recognizing);
      ghost var start := fsm.state;
      var firstTts := true;
      for i := 0 to |events|
        invariant fsm.Valid() && old(fsm.changes) <= fsm.changes
        invariant Events(fsm.state, firstTts, events[i..]) == Events(start, true, events)
      {
        assert events[i..][0] == events[i] && events[i..][1..] == events[i + 1..];
        match events[i] {
          case Response(stt, tts) =>
            Relay(stt, tts && firstTts);
            if tts {
              firstTts := false;
            }
          case Cancel =>
            fsm.OnCancel();
          case Playback(interrupted) =>
            fsm.OnPlaybackFinished(interrupted);
        }
      }
      assert events[|events|..] == [];
      if MidTurn(fsm.state) || fsm.state == Speaking {
        fsm.OnCancel();
      }
    }

    method TextInput(transcripts: seq<bool>)
      requires fsm.Valid()
      modifies fsm
      ensures fsm.Valid() && fsm.state == Typed(old(fsm.state), transcripts) && old(fsm.changes) <= fsm.changes
    {
      if !TakesSpeech(fsm.state) {
        return;
      }
      fsm.Trigger(Listening, Recognizing);
      ghost var start := fsm.state;
      for i := 0 to |transcripts|
        invariant fsm.Valid() && old(fsm.changes) <= fsm.changes
        invariant Heard(fsm.state, transcripts[i..]) == Heard(start, transcripts)
      {
        assert transcripts[i..][0] == transcripts[i] && transcripts[i..][1..] == transcripts[i + 1..];
        if transcripts[i] {
          fsm.Trigger(Recognizing, Thinking);
        }
      }
      assert transcripts[|transcripts|..] == [];
      if MidTurn(fsm.state) || fsm.state == Speaking {
        fsm.OnCancel();
      }
    }

    method OnTransferCompleted()
      requires fsm.Valid()
      modifies fsm
      ensures fsm.Valid() && fsm.state == Processed(old(fsm.state), TransferDone) && old(fsm.changes) <= fsm.changes
    {
      fsm.OnTransferCompleted(true);
      fsm.Trigger(Finalizing, Closing);
    }

    /** The apology after a failed transfer, response by response. */
    method OnTransferFailed(audio: seq<bool>)
      requires fsm.Valid()
      modifies fsm
      ensures fsm.Valid() && fsm.state == Apologised(old(fsm.state), audio) && old(fsm.changes) <= fsm.changes
    {
      fsm.Trigger(Transferring, Recovering);
      ghost var start := fsm.state;
      var anyAudio := false;
      for i := 0 to |audio|
        invariant fsm.Valid() && old(fsm.changes) <= fsm.changes
        invariant anyAudio == (true in audio[..i])
        invariant fsm.state == if anyAudio then Guarded(start, Recovering, Speaking) else start
      {
        assert audio[..i + 1] == audio[..i] + [audio[i]];
        if audio[i] && !anyAudio {
          fsm.Trigger(Recovering, Speaking);
          anyAudio := true;
        }
      }
      assert audio[..|audio|] == audio;
      if !anyAudio {
        fsm.Trigger(Recovering, Speaking);
        fsm.OnPlaybackFinished(false);
      }
    }

    method CloseSession()
      requires fsm.Valid()
      modifies fsm
      ensures fsm.Valid() && fsm.state == Processed(old(fsm.state), Message.Close) && old(fsm.changes) <= fsm.changes
      ensures old(fsm.state) != Idle ==> fsm.state == Closed
    {
      if fsm.state != Closed {
        fsm.OnSessionClose();
        fsm.Trigger(Closing, Closed);
      }
    }
  }
}
