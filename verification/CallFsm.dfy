/**
 The conversation state machine: a table of allowed transitions, triggers that ask for them, and a record of
 every change of state.
 */
module CallFsm {

  datatype State =
    | Idle | Connecting | Listening | Recognizing | Thinking | Synthesizing | Speaking | BargeIn
    | Transferring | Recovering | Finalizing | Closing | Closed

  /** The transition table. */
  predicate Allowed(a: State, b: State) {
    match a
    case Idle => b == Connecting
    case Connecting => b in {Listening, Closing}
    case Listening => b in {Recognizing, Transferring, Closing}
    case Recognizing => b in {Thinking, Listening, Transferring, Closing}
    case Thinking => b in {Synthesizing, Listening, Transferring, Closing}
    case Synthesizing => b in {Speaking, Listening, Transferring, Closing}
    case Speaking => b in {Listening, BargeIn, Transferring, Closing}
    case BargeIn => b in {Listening, Closing}
    case Transferring => b in {Closing, Finalizing, Recovering}
    case Recovering => b in {Speaking, Closing}
    case Finalizing => b == Closing
    case Closing => b == Closed
    case Closed => false
  }

  /** A request the table refuses changes nothing. */
  function Moved(s: State, next: State): State { if Allowed(s, next) then next else s }

  // ---------------------------------------------------------------- the triggers

  function Guarded(s: State, from: State, next: State): State { if s == from then Moved(s, next) else s }

  function PlaybackFinished(s: State, interrupted: bool): State {
    Guarded(s, Speaking, if interrupted then BargeIn else Listening)
  }

  predicate MidTurn(s: State) { s in {Recognizing, Thinking, Synthesizing} }

  function Cancelled(s: State): State {
    if s == Speaking then Moved(Moved(s, BargeIn), Listening)
    else if MidTurn(s) then Moved(s, Listening)
    else s
  }

  predicate Active(s: State) { s !in {Idle, Closing, Closed} }

  function TransferRequested(s: State): State { if Active(s) then Moved(s, Transferring) else s }

  function TransferCompleted(s: State, success: bool): State {
    Guarded(s, Transferring, if success then Finalizing else Closing)
  }

  function SessionClosed(s: State): State { if s in {Closing, Closed} then s else Moved(s, Closing) }

  /** A timer armed in state `of` fires; a stale timer does nothing. */
  function TimedOut(s: State, of: State): State {
    if s != of then s
    else if MidTurn(s) then Moved(s, Listening)
    else if s in {Connecting, Listening, Speaking, Transferring} then SessionClosed(s)
    else if s == BargeIn then Guarded(s, BargeIn, Listening)
    else if s == Closing then Moved(s, Closed)
    else s
  }

  // ---------------------------------------------------------------- the record of changes

  datatype Change = Change(from: State, to: State)

  /** An unbroken path in the table, from the idle state to `s`. */
  ghost predicate PathTo(changes: seq<Change>, s: State) {
    && (forall i :: 0 <= i < |changes| ==> Allowed(changes[i].from, changes[i].to))
    && (forall i :: 0 < i < |changes| ==> changes[i].from == changes[i - 1].to)
    && (if changes == [] then s == Idle else changes[0].from == Idle && changes[|changes| - 1].to == s)
  }

  /** Nothing follows the closed state: only the last change can be one into it. */
  lemma NothingAfterClosed(changes: seq<Change>, s: State, i: nat)
    requires PathTo(changes, s) && i < |changes|
    ensures i < |changes| - 1 ==> changes[i].to != Closed
    ensures i == |changes| - 1 ==> changes[i].to == s
  {
    assert i < |changes| - 1 ==> changes[i].to == changes[i + 1].from;
  }

  class ConversationFSM {
    var state: State
    var changes: seq<Change>

    ghost predicate Valid()
      reads this
    {
      PathTo(changes, state)
    }

    constructor ()
      ensures Valid() && state == Idle && changes == []
    {
      state, changes := Idle, [];
    }

    /** The one place where the state changes, and the record with it. */
    method Transition(next: State)
      requires Valid()
      modifies this
      ensures Valid() && state == Moved(old(state), next)
      ensures changes == old(changes) + (if Allowed(old(state), next) then [Change(old(state), next)] else [])
    {
      if Allowed(state, next) {
        changes := changes + [Change(state, next)];
        state := next;
      }
    }

    method Trigger(from: State, next: State)
      requires Valid()
      modifies this
      ensures Valid() && state == Guarded(old(state), from, next) && old(changes) <= changes
    {
      if state != from {
        return;
      }
      Transition(next);
    }

    method OnSessionStart()
      requires Valid()
      modifies this
      ensures Valid() && state == Moved(old(state), Connecting) && old(changes) <= changes
    {
      Transition(Connecting);
    }

    method OnPlaybackFinished(interrupted: bool)
      requires Valid()
      modifies this
      ensures Valid() && state == PlaybackFinished(old(state), interrupted) && old(changes) <= changes
    {
      if state != Speaking {
        return;
      }
      if interrupted {
        Transition(BargeIn);
      } else {
        Transition(Listening);
      }
    }

    method OnCancel()
      requires Valid()
      modifies this
      ensures Valid() && state == Cancelled(old(state)) && old(changes) <= changes
    {
      if state == Speaking {
        Transition(BargeIn);
        Transition(Listening);
      } else if MidTurn(state) {
        Transition(Listening);
      }
    }

    method OnTransferRequested()
      requires Valid()
      modifies this
      ensures Valid() && state == TransferRequested(old(state)) && old(changes) <= changes
    {
      if !Active(state) {
        return;
      }
      Transition(Transferring);
    }

    method OnTransferCompleted(success: bool)
      requires Valid()
      modifies this
      ensures Valid() && state == TransferCompleted(old(state), success) && old(changes) <= changes
    {
      if state != Transferring {
        return;
      }
      if success {
        Transition(Finalizing);
      } else {
        Transition(Closing);
      }
    }

    method OnSessionClose()
      requires Valid()
      modifies this
      ensures Valid() && state == SessionClosed(old(state)) && old(changes) <= changes
    {
      if state == Closing || state == Closed {
        return;
      }
      Transition(Closing);
    }

    method OnTimeout(of: State)
      requires Valid()
      modifies this
      ensures Valid() && state == TimedOut(old(state), of) && old(changes) <= changes
    {
      if state != of {
        return;
      }
      if MidTurn(of) {
        Transition(Listening);
      } else if of in {Connecting, Listening, Speaking, Transferring} {
        OnSessionClose();
      } else if of == BargeIn {
        Trigger(BargeIn, Listening);
      } else if of == Closing {
        Transition(Closed);
      }
    }
  }
}
