/**
 One call's message loop. Messages from the gateway arrive in a queue; an outer loop takes them one by one, and
 while a spoken turn is under way the queue is drained before each response of the turn is passed on. Arrivals
 may fall between any two steps.
 */
module Servicer {
  import opened Text

  datatype Notice =
    | Audio
    | SpeechEnded
    | CancelGeneration(trace: string)
    | PlaybackFinished(interrupted: bool)
    | TransferInitiated
    | TransferCompleted
    | TransferFailed
    | TextInput
    | Unknown

  /** A message, numbered in the order of arrival, or the end of the stream. */
  datatype Item = Message(id: nat, notice: Notice) | End

  /** A transfer the handler asked for, by its token, in the turn with the given number. */
  datatype Transfer = Transfer(token: nat, turn: nat, escalation: bool, destination: string)

  /** What a response of the handler carries that matters here. */
  datatype Wish = Wish(escalation: bool, destination: string)
  datatype Response = Response(audio: bool, wish: Option<Wish>)

  datatype Phase = Generating | Draining(response: Response) | Drained(response: Response)

  datatype Turn = Turn(number: nat, cancelled: bool, spoke: bool, transfer: Option<Transfer>, phase: Phase)

  /** What the loop did, in order. */
  datatype Event =
    | Took(item: Item, inTurn: bool)
    | Acknowledged(trace: string)
    | Spoke(turn: nat)
    | Sent(transfer: Transfer)
    | TurnOver(turn: nat)

  datatype Loop = Loop(
    arrived: seq<Item>,
    queue: seq<Item>,
    log: seq<Event>,
    held: Option<Transfer>,
    turn: Option<Turn>,
    turns: nat,
    minted: nat,
    stopped: bool)

  datatype Step =
    | Arrive(notice: Notice)
    | StreamEnds
    | Take(textWishes: seq<Wish>)
    | Respond(response: Response)
    | DrainNext
    | Forward
    | EndTurn
    | Fail

  // ---------------------------------------------------------------- decisions

  /** Whether a held transfer goes out when playback ends: an interruption drops it unless the system itself
      decided on it, and one without a destination never goes out. */
  predicate GoesOut(tr: Transfer, interrupted: bool) {
    (!interrupted || tr.escalation) && tr.destination != ""
  }

  /** The messages a turn leaves to the outer loop. */
  predicate Deferred(n: Notice) { n in {SpeechEnded, TransferInitiated, TransferCompleted, TransferFailed} }

  function Dispatch(tr: Transfer, interrupted: bool): seq<Event> {
    if GoesOut(tr, interrupted) then [Sent(tr)] else []
  }

  /** A playback notice decides the held transfer, if there is one. */
  function Resolved(held: Option<Transfer>, interrupted: bool): seq<Event> {
    if held.Some? then Dispatch(held.value, interrupted) else []
  }

  // ---------------------------------------------------------------- the steps

  predicate Enabled(l: Loop, s: Step) {
    match s
    case Arrive(_) => End !in l.arrived
    case StreamEnds => End !in l.arrived
    case Take(_) => !l.stopped && l.turn.None? && l.queue != []
    case Respond(_) => !l.stopped && l.turn.Some? && l.turn.value.phase.Generating?
    case DrainNext => !l.stopped && l.turn.Some? && l.turn.value.phase.Draining? && l.queue != []
    case Forward =>
      && !l.stopped && l.turn.Some?
      && (l.turn.value.phase.Drained? || (l.turn.value.phase.Draining? && l.queue == []))
    case EndTurn => !l.stopped && l.turn.Some? && l.turn.value.phase.Generating?
    case Fail => true
  }

  /** The transfers of a typed turn go out at once, each with a token and turn number of its own. */
  function Minted(wishes: seq<Wish>, minted: nat, turns: nat): seq<Event>
    decreases |wishes|
  {
    if wishes == [] then []
    else
      Dispatch(Transfer(minted, turns, wishes[0].escalation, wishes[0].destination), false)
      + Minted(wishes[1..], minted + 1, turns + 1)
  }

  /** What taking the first queued item in the outer loop makes the loop do. */
  function TakeEvents(l: Loop, wishes: seq<Wish>): seq<Event>
    requires l.queue != []
  {
    var item := l.queue[0];
    [Took(item, false)] +
    if item.End? then []
    else
      match item.notice
      case CancelGeneration(trace) => [Acknowledged(trace)]
      case PlaybackFinished(interrupted) => Resolved(l.held, interrupted)
      case TextInput => Minted(wishes, l.minted, l.turns)
      case _ => []
  }

  function Taken(l: Loop, wishes: seq<Wish>): Loop
    requires l.queue != []
  {
    var item := l.queue[0];
    var popped := l.(queue := l.queue[1..], log := l.log + TakeEvents(l, wishes));
    if item.End? then popped.(stopped := true)
    else
      match item.notice
      case SpeechEnded => popped.(turn := Some(Turn(l.turns, false, false, None, Generating)), turns := l.turns + 1)
      case PlaybackFinished(interrupted) => popped.(held := None)
      case TextInput => popped.(minted := l.minted + |wishes|, turns := l.turns + |wishes|)
      case _ => popped
  }

  /** The end of the stream and the messages meant for the outer loop are put back, behind everything else. */
  predicate PutBack(item: Item) { item.End? || Deferred(item.notice) }

  function DrainEvents(l: Loop): seq<Event>
    requires l.queue != []
  {
    var item := l.queue[0];
    if PutBack(item) then []
    else
      [Took(item, true)] +
      match item.notice
      case CancelGeneration(trace) => [Acknowledged(trace)]
      case PlaybackFinished(interrupted) => Resolved(l.held, interrupted)
      case _ => []
  }

  /** One message drained during a turn. */
  function Drain(l: Loop): Loop
    requires l.queue != [] && l.turn.Some? && l.turn.value.phase.Draining?
  {
    var item, t := l.queue[0], l.turn.value;
    var on := l.(log := l.log + DrainEvents(l));
    if PutBack(item) then
      on.(queue := l.queue[1..] + [item],
          turn := Some(t.(cancelled := t.cancelled || item.End?, phase := Drained(t.phase.response))))
    else
      on.(queue := l.queue[1..],
          held := if item.notice.PlaybackFinished? then None else l.held,
          turn := Some(t.(cancelled := t.cancelled || item.notice.CancelGeneration?)))
  }

  function ForwardEvents(l: Loop): seq<Event>
    requires l.turn.Some? && !l.turn.value.phase.Generating?
  {
    var t := l.turn.value;
    if !t.cancelled && t.phase.response.audio then [Spoke(t.number)] else []
  }

  /** A response goes on once the queue is drained, unless the turn has been cancelled. */
  function Forwarded(l: Loop): Loop
    requires l.turn.Some? && !l.turn.value.phase.Generating?
  {
    var t := l.turn.value;
    var r := t.phase.response;
    var on := l.(log := l.log + ForwardEvents(l));
    if t.cancelled then on.(turn := Some(t.(phase := Generating)))
    else if r.wish.None? then on.(turn := Some(t.(phase := Generating, spoke := t.spoke || r.audio)))
    else
      var asked := Transfer(l.minted, t.number, r.wish.value.escalation, r.wish.value.destination);
      on.(turn := Some(t.(phase := Generating, spoke := t.spoke || r.audio, transfer := Some(asked))),
          minted := l.minted + 1)
  }

  function EndEvents(l: Loop): seq<Event>
    requires l.turn.Some?
  {
    var t := l.turn.value;
    [TurnOver(t.number)] +
    if t.transfer.Some? && !t.cancelled && !t.spoke then Dispatch(t.transfer.value, false) else []
  }

  /** The end of a turn: its transfer is held behind the audio, or goes out at once if there was none. */
  function Ended(l: Loop): Loop
    requires l.turn.Some?
  {
    var t := l.turn.value;
    l.(turn := None, log := l.log + EndEvents(l),
       held := if t.transfer.Some? && !t.cancelled && t.spoke then t.transfer else l.held)
  }

  function After(l: Loop, s: Step): Loop
    requires Enabled(l, s)
  {
    match s
    case Arrive(notice) =>
      var item := Message(|l.arrived|, notice);
      l.(arrived := l.arrived + [item], queue := l.queue + [item])
    case StreamEnds => l.(arrived := l.arrived + [End], queue := l.queue + [End])
    case Take(wishes) => Taken(l, wishes)
    case Respond(response) => l.(turn := Some(l.turn.value.(phase := Draining(response))))
    case DrainNext => Drain(l)
    case Forward => Forwarded(l)
    case EndTurn => Ended(l)
    case Fail => l.(stopped := true)
  }

  /** What a step adds to the log. */
  function Emits(l: Loop, s: Step): (events: seq<Event>)
    requires Enabled(l, s)
    ensures After(l, s).log == l.log + events
  {
    match s
    case Take(wishes) => TakeEvents(l, wishes)
    case DrainNext => DrainEvents(l)
    case Forward => ForwardEvents(l)
    case EndTurn => EndEvents(l)
    case _ => []
  }

  function Opened(): Loop { Loop([], [], [], None, None, 0, 0, false) }

  // ---------------------------------------------------------------- nothing is lost or taken twice

  function Items(log: seq<Event>): seq<Item> {
    if log == [] then []
    else (if log[0].Took? then [log[0].item] else []) + Items(log[1..])
  }

  lemma {:induction false} ItemsConcat(a: seq<Event>, b: seq<Event>)
    ensures Items(a + b) == Items(a) + Items(b)
  {
    if a == [] {
      assert a + b == b;
    } else {
      assert (a + b)[0] == a[0] && (a + b)[1..] == a[1..] + b;
      ItemsConcat(a[1..], b);
    }
  }

  lemma {:induction false} MintedSent(wishes: seq<Wish>, minted: nat, turns: nat)
    ensures forall i :: 0 <= i < |Minted(wishes, minted, turns)| ==> Minted(wishes, minted, turns)[i].Sent?
    decreases |wishes|
  {
    if wishes != [] {
      MintedSent(wishes[1..], minted + 1, turns + 1);
    }
  }

  lemma {:induction false} ItemsNone(events: seq<Event>)
    requires forall i :: 0 <= i < |events| ==> !events[i].Took?
    ensures Items(events) == []
  {
    if events != [] {
      ItemsNone(events[1..]);
    }
  }

  /** Only the first event of a step can be one of taking an item. */
  lemma ItemsHead(events: seq<Event>)
    requires events != [] && forall i :: 0 < i < |events| ==> !events[i].Took?
    ensures Items(events) == if events[0].Took? then [events[0].item] else []
  {
    ItemsNone(events[1..]);
  }

  lemma TakeItems(l: Loop, wishes: seq<Wish>)
    requires l.queue != []
    ensures Items(TakeEvents(l, wishes)) == [l.queue[0]]
  {
    MintedSent(wishes, l.minted, l.turns);
    hide Items, Minted;
    ItemsHead(TakeEvents(l, wishes));
  }

  lemma DrainItems(l: Loop)
    requires l.queue != []
    ensures Items(DrainEvents(l)) == if PutBack(l.queue[0]) then [] else [l.queue[0]]
  {
    if !PutBack(l.queue[0]) {
      hide Items;
      ItemsHead(DrainEvents(l));
    }
  }

  /** Every item that arrived is still queued or was taken, and none is in two places. */
  ghost predicate Conserved(l: Loop) { multiset(l.arrived) == multiset(l.queue) + multiset(Items(l.log)) }

  lemma Popped<T>(s: seq<T>)
    requires s != []
    ensures multiset(s) == multiset(s[1..]) + multiset([s[0]]) && multiset(s[1..] + [s[0]]) == multiset(s)
  {
    assert s == [s[0]] + s[1..];
  }

  /** Taking the first queued item, whatever else is logged with it, conserves; so does putting it back. */
  lemma ConservedMove(l: Loop, next: Loop, events: seq<Event>)
    requires Conserved(l) && l.queue != [] && next.arrived == l.arrived && next.log == l.log + events
    requires
      || (next.queue == l.queue[1..] && Items(events) == [l.queue[0]])
      || (next.queue == l.queue[1..] + [l.queue[0]] && Items(events) == [])
    ensures Conserved(next)
  {
    hide Items;
    ItemsConcat(l.log, events);
    Popped(l.queue);
  }

  lemma ConservedQuiet(l: Loop, next: Loop, events: seq<Event>)
    requires Conserved(l) && next.arrived == l.arrived && next.queue == l.queue && next.log == l.log + events
    requires forall i :: 0 <= i < |events| ==> !events[i].Took?
    ensures Conserved(next)
  {
    ItemsConcat(l.log, events);
    ItemsNone(events);
  }

  lemma ConservedArrive(l: Loop, item: Item)
    requires Conserved(l)
    ensures Conserved(l.(arrived := l.arrived + [item], queue := l.queue + [item]))
  {
    hide Items;
  }

  lemma ConservedKept(l: Loop, s: Step)
    requires Conserved(l) && Enabled(l, s)
    ensures Conserved(After(l, s))
  {
    if s.Take? {
      hide Conserved, TakeEvents, Items;
      TakeItems(l, s.textWishes);
      ConservedMove(l, After(l, s), TakeEvents(l, s.textWishes));
    } else if s.DrainNext? {
      hide Conserved, DrainEvents, Items;
      DrainItems(l);
      ConservedMove(l, After(l, s), DrainEvents(l));
    } else if s.Arrive? {
      hide Conserved;
      ConservedArrive(l, Message(|l.arrived|, s.notice));
    } else if s.StreamEnds? {
      hide Conserved;
      ConservedArrive(l, End);
    } else {
      hide Conserved;
      ConservedQuiet(l, After(l, s), Emits(l, s));
    }
  }

  /** What a turn takes itself is never a message meant for the outer loop, nor the end of the stream. */
  ghost predicate LeftAlone(events: seq<Event>) {
    forall i :: 0 <= i < |events| && events[i].Took? && events[i].inTurn ==> !PutBack(events[i].item)
  }

  lemma LeftAloneKept(l: Loop, s: Step)
    requires Enabled(l, s)
    ensures LeftAlone(Emits(l, s))
  {
    if s.Take? {
      MintedSent(s.textWishes, l.minted, l.turns);
      hide Minted;
    }
  }

  // ---------------------------------------------------------------- acknowledgements

  function Acks(log: seq<Event>): seq<string> {
    if log == [] then []
    else (if log[0].Acknowledged? then [log[0].trace] else []) + Acks(log[1..])
  }

  function Cancels(items: seq<Item>): seq<string> {
    if items == [] then []
    else
      (if items[0].Message? && items[0].notice.CancelGeneration? then [items[0].notice.trace] else [])
      + Cancels(items[1..])
  }

  lemma {:induction false} AcksConcat(a: seq<Event>, b: seq<Event>)
    ensures Acks(a + b) == Acks(a) + Acks(b)
  {
    if a == [] {
      assert a + b == b;
    } else {
      assert (a + b)[0] == a[0] && (a + b)[1..] == a[1..] + b;
      AcksConcat(a[1..], b);
    }
  }

  lemma {:induction false} CancelsConcat(a: seq<Item>, b: seq<Item>)
    ensures Cancels(a + b) == Cancels(a) + Cancels(b)
  {
    if a == [] {
      assert a + b == b;
    } else {
      assert (a + b)[0] == a[0] && (a + b)[1..] == a[1..] + b;
      CancelsConcat(a[1..], b);
    }
  }

  lemma {:induction false} AcksNone(events: seq<Event>)
    requires forall i :: 0 <= i < |events| ==> !events[i].Acknowledged?
    ensures Acks(events) == []
  {
    if events != [] {
      AcksNone(events[1..]);
    }
  }

  /** The acknowledgements sent are those of the cancels taken, one each and in the same order. */
  ghost predicate AckedOnce(l: Loop) { Acks(l.log) == Cancels(Items(l.log)) }

  lemma AckPair(item: Item, inTurn: bool)
    requires item.Message? && item.notice.CancelGeneration?
    ensures
      var events := [Took(item, inTurn), Acknowledged(item.notice.trace)];
      Acks(events) == [item.notice.trace] && Cancels(Items(events)) == [item.notice.trace]
  {
    var events := [Took(item, inTurn), Acknowledged(item.notice.trace)];
    AcksConcat([events[0]], [events[1]]);
    ItemsConcat([events[0]], [events[1]]);
    assert events == [events[0]] + [events[1]];
    assert Items(events) == [item];
  }

  lemma StepAcks(l: Loop, s: Step)
    requires Enabled(l, s)
    ensures Acks(Emits(l, s)) == Cancels(Items(Emits(l, s)))
  {
    var events := Emits(l, s);
    if events != [] && events[0].Took? && events[0].item.Message? && events[0].item.notice.CancelGeneration? {
      assert events == [events[0], Acknowledged(events[0].item.notice.trace)];
      hide Acks, Cancels, Items;
      AckPair(events[0].item, events[0].inTurn);
    } else {
      if s.Take? {
        MintedSent(s.textWishes, l.minted, l.turns);
        TakeItems(l, s.textWishes);
        hide Minted, Items;
        AcksNone(events);
      } else if s.DrainNext? {
        DrainItems(l);
        hide Items;
        AcksNone(events);
      } else {
        AcksNone(events);
        ItemsNone(events);
      }
    }
  }

  lemma AckedOnceKept(l: Loop, s: Step)
    requires AckedOnce(l) && Enabled(l, s)
    ensures AckedOnce(After(l, s))
  {
    var events := Emits(l, s);
    hide Acks, Cancels, Items, After, Enabled;
    ItemsConcat(l.log, events);
    AcksConcat(l.log, events);
    CancelsConcat(Items(l.log), Items(events));
    StepAcks(l, s);
  }

  // ---------------------------------------------------------------- a transfer goes out once

  ghost predicate Unsent(log: seq<Event>, token: nat) {
    forall i :: 0 <= i < |log| && log[i].Sent? ==> log[i].transfer.token != token
  }

  /** No transfer has gone out twice. */
  ghost predicate OnceEach(log: seq<Event>, minted: nat) {
    && (forall i :: 0 <= i < |log| && log[i].Sent? ==> log[i].transfer.token < minted)
    && (forall i, j :: 0 <= i < j < |log| && log[i].Sent? && log[j].Sent? ==>
      log[i].transfer.token != log[j].transfer.token)
  }

  lemma OnceSend(log: seq<Event>, tr: Transfer, minted: nat)
    requires OnceEach(log, minted) && Unsent(log, tr.token) && tr.token < minted
    ensures OnceEach(log + [Sent(tr)], minted)
    ensures forall k :: Unsent(log, k) && k != tr.token ==> Unsent(log + [Sent(tr)], k)
  {
  }

  lemma OnceQuiet(log: seq<Event>, events: seq<Event>, minted: nat)
    requires OnceEach(log, minted) && forall i :: 0 <= i < |events| ==> !events[i].Sent?
    ensures OnceEach(log + events, minted)
    ensures forall k :: Unsent(log, k) ==> Unsent(log + events, k)
  {
  }

  lemma OnceDispatched(log: seq<Event>, tr: Transfer, minted: nat)
    requires OnceEach(log, minted) && tr.token == minted
    ensures OnceEach(log + Dispatch(tr, false), minted + 1)
    ensures forall k: nat :: k < minted && Unsent(log, k) ==> Unsent(log + Dispatch(tr, false), k)
  {
    if !GoesOut(tr, false) {
      assert log + Dispatch(tr, false) == log;
    }
  }

  lemma {:induction false} OnceMinted(log: seq<Event>, wishes: seq<Wish>, minted: nat, turns: nat)
    requires OnceEach(log, minted)
    ensures OnceEach(log + Minted(wishes, minted, turns), minted + |wishes|)
    ensures forall k: nat :: k < minted && Unsent(log, k) ==> Unsent(log + Minted(wishes, minted, turns), k)
    decreases |wishes|
  {
    hide OnceEach, Unsent, Dispatch;
    var all := log + Minted(wishes, minted, turns);
    if wishes == [] {
      assert all == log;
    } else {
      var tr := Transfer(minted, turns, wishes[0].escalation, wishes[0].destination);
      var first, rest := Dispatch(tr, false), Minted(wishes[1..], minted + 1, turns + 1);
      assert Minted(wishes, minted, turns) == first + rest;
      hide Minted;
      OnceDispatched(log, tr, minted);
      OnceMinted(log + first, wishes[1..], minted + 1, turns + 1);
      assert all == log + first + rest;
      forall k: nat | k < minted && Unsent(log, k) ensures Unsent(all, k) {
        assert Unsent(log + first, k);
      }
    }
  }

  /** The held transfer and the one of the turn under way have not gone out, and are not the same. */
  ghost predicate Outstanding(log: seq<Event>, held: Option<Transfer>, turn: Option<Turn>, minted: nat) {
    && (held.Some? ==> held.value.token < minted && Unsent(log, held.value.token))
    && (turn.Some? && turn.value.transfer.Some? ==>
          && turn.value.transfer.value.token < minted && Unsent(log, turn.value.transfer.value.token)
          && (held.Some? ==> held.value.token != turn.value.transfer.value.token))
  }

  ghost predicate Single(l: Loop) {
    OnceEach(l.log, l.minted) && Outstanding(l.log, l.held, l.turn, l.minted)
  }

  /** Deciding the held transfer at the end of playback. */
  lemma ResolveSingle(log: seq<Event>, held: Option<Transfer>, turn: Option<Turn>, minted: nat, took: Event,
      interrupted: bool)
    requires OnceEach(log, minted) && Outstanding(log, held, turn, minted) && !took.Sent?
    ensures OnceEach(log + ([took] + Resolved(held, interrupted)), minted)
    ensures Outstanding(log + ([took] + Resolved(held, interrupted)), None, turn, minted)
  {
    hide OnceEach, Unsent;
    OnceQuiet(log, [took], minted);
    if held.Some? && GoesOut(held.value, interrupted) {
      OnceSend(log + [took], held.value, minted);
      assert log + ([took] + Resolved(held, interrupted)) == log + [took] + [Sent(held.value)];
    } else {
      assert log + ([took] + Resolved(held, interrupted)) == log + [took];
    }
  }

  lemma TakeSingle(l: Loop, wishes: seq<Wish>)
    requires Single(l) && l.queue != [] && l.turn.None?
    ensures Single(Taken(l, wishes))
  {
    hide OnceEach, Unsent, Minted;
    var item := l.queue[0];
    var took := Took(item, false);
    if item.Message? && item.notice.PlaybackFinished? {
      ResolveSingle(l.log, l.held, None, l.minted, took, item.notice.interrupted);
    } else if item.Message? && item.notice.TextInput? {
      OnceQuiet(l.log, [took], l.minted);
      OnceMinted(l.log + [took], wishes, l.minted, l.turns);
      assert l.log + TakeEvents(l, wishes) == l.log + [took] + Minted(wishes, l.minted, l.turns);
    } else {
      OnceQuiet(l.log, TakeEvents(l, wishes), l.minted);
    }
  }

  lemma DrainSingle(l: Loop)
    requires Single(l) && l.queue != [] && l.turn.Some? && l.turn.value.phase.Draining?
    ensures Single(Drain(l))
  {
    hide OnceEach, Unsent;
    var item := l.queue[0];
    if item.Message? && item.notice.PlaybackFinished? {
      ResolveSingle(l.log, l.held, l.turn, l.minted, Took(item, true), item.notice.interrupted);
    } else {
      OnceQuiet(l.log, DrainEvents(l), l.minted);
    }
  }

  lemma ForwardSingle(l: Loop)
    requires Single(l) && l.turn.Some? && !l.turn.value.phase.Generating?
    ensures Single(Forwarded(l))
  {
    OnceQuiet(l.log, ForwardEvents(l), l.minted);
  }

  lemma EndSingle(l: Loop)
    requires Single(l) && l.turn.Some?
    ensures Single(Ended(l))
  {
    hide OnceEach, Unsent;
    var t := l.turn.value;
    var over := [TurnOver(t.number)];
    OnceQuiet(l.log, over, l.minted);
    if t.transfer.Some? && !t.cancelled && !t.spoke && GoesOut(t.transfer.value, false) {
      OnceSend(l.log + over, t.transfer.value, l.minted);
      assert l.log + EndEvents(l) == l.log + over + [Sent(t.transfer.value)];
    } else {
      assert l.log + EndEvents(l) == l.log + over;
    }
  }

  lemma SingleKept(l: Loop, s: Step)
    requires Single(l) && Enabled(l, s)
    ensures Single(After(l, s))
  {
    hide OnceEach, Unsent, Taken, Drain, Forwarded, Ended;
    match s {
      case Take(wishes) => TakeSingle(l, wishes);
      case DrainNext => DrainSingle(l);
      case Forward => ForwardSingle(l);
      case EndTurn => EndSingle(l);
      case _ =>
    }
  }

  // ---------------------------------------------------------------- and only when it may

  predicate IsPlayback(e: Event) { e.Took? && e.item.Message? && e.item.notice.PlaybackFinished? }

  /** A transfer may go out now: it has a destination, and if its turn was spoken the turn is over and a playback
      notice has just been taken, an interrupted one only if the system itself decided on the transfer. */
  ghost predicate MayGo(log: seq<Event>, tr: Transfer) {
    && tr.destination != ""
    && (Spoke(tr.turn) in log ==>
          && log != [] && IsPlayback(log[|log| - 1])
          && (log[|log| - 1].item.notice.interrupted ==> tr.escalation)
          && TurnOver(tr.turn) in log[..|log| - 1])
  }

  ghost predicate Timely(log: seq<Event>) {
    forall i :: 0 <= i < |log| && log[i].Sent? ==> MayGo(log[..i], log[i].transfer)
  }

  lemma TimelySend(log: seq<Event>, tr: Transfer)
    requires Timely(log) && MayGo(log, tr)
    ensures Timely(log + [Sent(tr)])
  {
    hide MayGo;
    var grown := log + [Sent(tr)];
    assert grown[..|log|] == log;
    forall i | 0 <= i < |log| ensures grown[..i] == log[..i] && grown[i] == log[i] {
    }
  }

  lemma TimelyQuiet(log: seq<Event>, events: seq<Event>)
    requires Timely(log) && forall i :: 0 <= i < |events| ==> !events[i].Sent?
    ensures Timely(log + events)
  {
    hide MayGo;
    var grown := log + events;
    forall i | 0 <= i < |log| ensures grown[..i] == log[..i] && grown[i] == log[i] {
    }
  }

  /** What the numbers of turns say about the log. */
  ghost predicate Numbered(l: Loop) {
    && (forall n: nat :: Spoke(n) in l.log ==> n < l.turns)
    && (l.held.Some? ==> TurnOver(l.held.value.turn) in l.log)
    && (l.turn.Some? ==>
          && l.turn.value.number < l.turns
          && (Spoke(l.turn.value.number) in l.log ==> l.turn.value.spoke)
          && (l.turn.value.transfer.Some? ==> l.turn.value.transfer.value.turn == l.turn.value.number))
  }

  lemma NumberedKept(l: Loop, s: Step)
    requires Numbered(l) && Enabled(l, s)
    ensures Numbered(After(l, s))
  {
    if s.Take? {
      MintedSent(s.textWishes, l.minted, l.turns);
      hide Minted;
    }
    var events := Emits(l, s);
    assert forall e :: e in After(l, s).log <==> e in l.log || e in events;
    assert forall n: nat :: Spoke(n) in events ==> s.Forward? && n == l.turn.value.number;
  }

  lemma {:induction false} TimelyMinted(log: seq<Event>, wishes: seq<Wish>, minted: nat, turns: nat)
    requires Timely(log) && forall n: nat :: Spoke(n) in log ==> n < turns
    ensures Timely(log + Minted(wishes, minted, turns))
    decreases |wishes|
  {
    if wishes == [] {
      assert log + [] == log;
    } else {
      var tr := Transfer(minted, turns, wishes[0].escalation, wishes[0].destination);
      var first := Dispatch(tr, false);
      var rest := Minted(wishes[1..], minted + 1, turns + 1);
      assert log + Minted(wishes, minted, turns) == log + first + rest;
      hide Timely, Minted;
      if GoesOut(tr, false) {
        TimelySend(log, tr);
      } else {
        assert log + first == log;
      }
      assert forall n: nat :: Spoke(n) in log + first ==> Spoke(n) in log;
      TimelyMinted(log + first, wishes[1..], minted + 1, turns + 1);
    }
  }

  lemma ResolveTimely(l: Loop, took: Event)
    requires Timely(l.log) && Numbered(l) && IsPlayback(took)
    ensures Timely(l.log + ([took] + Resolved(l.held, took.item.notice.interrupted)))
  {
    var interrupted := took.item.notice.interrupted;
    var log := l.log + [took];
    TimelyQuiet(l.log, [took]);
    assert log[..|log| - 1] == l.log;
    if l.held.Some? && GoesOut(l.held.value, interrupted) {
      hide Timely;
      TimelySend(log, l.held.value);
      assert l.log + ([took] + Resolved(l.held, interrupted)) == log + [Sent(l.held.value)];
    } else {
      assert l.log + ([took] + Resolved(l.held, interrupted)) == log;
    }
  }

  lemma TakeTimely(l: Loop, wishes: seq<Wish>)
    requires Timely(l.log) && Numbered(l) && l.queue != []
    ensures Timely(l.log + TakeEvents(l, wishes))
  {
    var item := l.queue[0];
    var took := Took(item, false);
    if item.Message? && item.notice.PlaybackFinished? {
      hide Timely, Numbered;
      ResolveTimely(l, took);
    } else if item.Message? && item.notice.TextInput? {
      TimelyQuiet(l.log, [took]);
      assert forall n: nat :: Spoke(n) in l.log + [took] ==> Spoke(n) in l.log;
      TimelyMinted(l.log + [took], wishes, l.minted, l.turns);
      hide Timely, Minted;
      assert l.log + TakeEvents(l, wishes) == l.log + [took] + Minted(wishes, l.minted, l.turns);
    } else {
      TimelyQuiet(l.log, TakeEvents(l, wishes));
    }
  }

  lemma EndTimely(l: Loop)
    requires Timely(l.log) && Numbered(l) && l.turn.Some?
    ensures Timely(l.log + EndEvents(l))
  {
    var t := l.turn.value;
    var over := l.log + [TurnOver(t.number)];
    TimelyQuiet(l.log, [TurnOver(t.number)]);
    hide Timely;
    if t.transfer.Some? && !t.cancelled && !t.spoke && GoesOut(t.transfer.value, false) {
      assert Spoke(t.number) in over ==> Spoke(t.number) in l.log;
      TimelySend(over, t.transfer.value);
      assert l.log + EndEvents(l) == over + [Sent(t.transfer.value)];
    } else {
      assert l.log + EndEvents(l) == over;
    }
  }

  lemma TimelyKept(l: Loop, s: Step)
    requires Timely(l.log) && Numbered(l) && Enabled(l, s)
    ensures Timely(After(l, s).log)
  {
    hide Timely, Numbered, MayGo;
    match s {
      case Take(wishes) => TakeTimely(l, wishes);
      case DrainNext =>
        var item := l.queue[0];
        if item.Message? && item.notice.PlaybackFinished? {
          ResolveTimely(l, Took(item, true));
        } else {
          TimelyQuiet(l.log, DrainEvents(l));
        }
      case Forward => TimelyQuiet(l.log, ForwardEvents(l));
      case EndTurn => EndTimely(l);
      case _ =>
    }
  }

  // ---------------------------------------------------------------- whole runs

  ghost predicate Path(loops: seq<Loop>, steps: seq<Step>) {
    && |loops| == |steps| + 1
    && forall i :: 0 <= i < |steps| ==> Enabled(loops[i], steps[i]) && loops[i + 1] == After(loops[i], steps[i])
  }

  ghost predicate Run(loops: seq<Loop>, steps: seq<Step>) { Path(loops, steps) && loops[0] == Opened() }

  ghost predicate Sound(l: Loop) {
    Conserved(l) && LeftAlone(l.log) && AckedOnce(l) && Single(l) && Numbered(l) && Timely(l.log)
  }

  lemma SoundKept(l: Loop, s: Step)
    requires Sound(l) && Enabled(l, s)
    ensures Sound(After(l, s))
  {
    var events := Emits(l, s);
    LeftAloneKept(l, s);
    assert LeftAlone(l.log + events);
    hide Conserved, LeftAlone, AckedOnce, Single, Numbered, Timely, After, Enabled, Emits;
    ConservedKept(l, s);
    AckedOnceKept(l, s);
    SingleKept(l, s);
    NumberedKept(l, s);
    TimelyKept(l, s);
  }

  /** At every moment of every run: nothing that arrived is lost or taken twice, a turn leaves speech and transfer
      notices to the outer loop, each cancel taken is acknowledged once and in order, no transfer goes out twice,
      and none goes out before it may. */
  lemma {:induction false} RunSound(loops: seq<Loop>, steps: seq<Step>, k: nat)
    requires Run(loops, steps) && k < |loops|
    ensures Sound(loops[k])
  {
    if k > 0 {
      hide Sound, After, Enabled;
      RunSound(loops, steps, k - 1);
      SoundKept(loops[k - 1], steps[k - 1]);
    }
  }

  // ---------------------------------------------------------------- the end of the stream

  /** Only messages meant for the outer loop can be queued behind the end of the stream. */
  ghost predicate OnlyNoticesBehindEnd(l: Loop) {
    (End in l.queue ==> End in l.arrived) && EndLast(l.queue)
  }

  ghost predicate EndLast(queue: seq<Item>) {
    forall i, j :: 0 <= i < j < |queue| && queue[i].End? ==> queue[j].Message? && Deferred(queue[j].notice)
  }

  lemma EndLastMoves(queue: seq<Item>)
    requires queue != [] && EndLast(queue)
    ensures EndLast(queue[1..])
    ensures PutBack(queue[0]) ==> EndLast(queue[1..] + [queue[0]])
    ensures forall x :: x in queue[1..] || x in queue[1..] + [queue[0]] ==> x in queue
  {
    var rest := queue[1..];
    assert forall i :: 0 <= i < |rest| ==> rest[i] == queue[i + 1];
    assert queue[0].End? ==> forall i :: 0 <= i < |rest| ==> !rest[i].End?;
  }

  lemma BehindEndKept(l: Loop, s: Step)
    requires OnlyNoticesBehindEnd(l) && Conserved(l) && Enabled(l, s)
    ensures OnlyNoticesBehindEnd(After(l, s))
  {
    hide Conserved, TakeEvents, DrainEvents, ForwardEvents, EndEvents;
    if s.Take? || s.DrainNext? {
      hide EndLast;
      EndLastMoves(l.queue);
    }
  }

  lemma {:induction false} BehindEndAlways(loops: seq<Loop>, steps: seq<Step>, k: nat)
    requires Run(loops, steps) && k < |loops|
    ensures OnlyNoticesBehindEnd(loops[k])
  {
    if k > 0 {
      BehindEndAlways(loops, steps, k - 1);
      RunSound(loops, steps, k - 1);
      hide OnlyNoticesBehindEnd, Conserved, After, Enabled, LeftAlone, AckedOnce, Single, Numbered, Timely;
      BehindEndKept(loops[k - 1], steps[k - 1]);
    }
  }

  /** What is queued behind the end of the stream. */
  function Behind(queue: seq<Item>): seq<Item> {
    if queue == [] then [] else if queue[0].End? then queue[1..] else Behind(queue[1..])
  }

  lemma {:induction false} BehindSnoc(queue: seq<Item>, x: Item)
    ensures Behind(queue + [x]) == if End in queue then Behind(queue) + [x] else []
  {
    if queue != [] {
      assert (queue + [x])[0] == queue[0] && (queue + [x])[1..] == queue[1..] + [x];
      BehindSnoc(queue[1..], x);
    }
  }

  lemma {:induction false} NoneBehind(queue: seq<Item>)
    requires End !in queue
    ensures Behind(queue) == []
  {
    if queue != [] { NoneBehind(queue[1..]); }
  }

  /** The step takes this item off the front of the queue during a turn. */
  ghost predicate Drains(l: Loop, s: Step, item: Item) { s.DrainNext? && l.queue != [] && l.queue[0] == item }

  /** The step is a turn putting this message back while the end of the stream is queued. */
  ghost predicate PutsBehind(l: Loop, s: Step, m: Item) {
    Drains(l, s, m) && m.Message? && Deferred(m.notice) && End in l.queue
  }

  /** Only a turn puts anything behind the end of the stream, and only by putting the end itself back does it bring
      what is there in front again. */
  lemma BehindMoves(l: Loop, s: Step)
    requires OnlyNoticesBehindEnd(l) && Enabled(l, s) && !(s.Take? && l.queue[0].End?)
    ensures Behind(After(l, s).queue) ==
      if Drains(l, s, End) then []
      else if s.DrainNext? && PutsBehind(l, s, l.queue[0]) then Behind(l.queue) + [l.queue[0]]
      else Behind(l.queue)
    ensures End in l.queue ==> End in After(l, s).queue
  {
    hide TakeEvents, DrainEvents, ForwardEvents, EndEvents;
    match s {
      case Arrive(notice) => NoneBehind(l.queue); BehindSnoc(l.queue, Message(|l.arrived|, notice));
      case StreamEnds => NoneBehind(l.queue); BehindSnoc(l.queue, End);
      case Take(_) =>
        assert l.queue == [l.queue[0]] + l.queue[1..];
      case DrainNext =>
        assert l.queue == [l.queue[0]] + l.queue[1..];
        BehindSnoc(l.queue[1..], l.queue[0]);
        if l.queue[0].End? { EndFront(l.queue); }
        if End !in l.queue { NoneBehind(l.queue); }
      case _ =>
    }
  }

  lemma EndFront(queue: seq<Item>)
    requires queue != [] && queue[0].End? && EndLast(queue)
    ensures End !in queue[1..]
  {
    assert forall i :: 0 <= i < |queue[1..]| ==> queue[1..][i] == queue[i + 1];
  }

  /** The message was put behind the end of the stream at step `j` and, up to step `k`, nothing brought it in front. */
  ghost predicate LeftBehind(loops: seq<Loop>, steps: seq<Step>, m: Item, j: nat, k: nat)
    requires j < k <= |steps| <= |loops|
  {
    && PutsBehind(loops[j], steps[j], m)
    && forall i :: j < i < k ==> !Drains(loops[i], steps[i], End)
  }

  ghost predicate StaysBehind(loops: seq<Loop>, steps: seq<Step>, m: Item, k: nat)
    requires k <= |steps| <= |loops|
  {
    exists j :: 0 <= j < k && LeftBehind(loops, steps, m, j, k)
  }

  /** The end of the stream has not been taken. */
  ghost predicate Listening(loops: seq<Loop>, steps: seq<Step>, k: nat)
    requires k <= |steps| <= |loops|
  {
    forall i :: 0 <= i < k ==> !(steps[i].Take? && loops[i].queue != [] && loops[i].queue[0].End?)
  }

  lemma {:induction false} BehindIff(loops: seq<Loop>, steps: seq<Step>, k: nat, m: Item)
    requires Run(loops, steps) && k <= |steps| && Listening(loops, steps, k)
    ensures m in Behind(loops[k].queue) <==> StaysBehind(loops, steps, m, k)
  {
    hide After, Enabled, OnlyNoticesBehindEnd;
    if k > 0 {
      var l, s := loops[k - 1], steps[k - 1];
      BehindIff(loops, steps, k - 1, m);
      BehindEndAlways(loops, steps, k - 1);
      assert Enabled(l, s) && loops[k] == After(l, s);
      TakesSome(l, s);
      BehindStep(l, s, m);
      LeftOneMore(loops, steps, m, k);
    }
  }

  lemma BehindStep(l: Loop, s: Step, m: Item)
    requires OnlyNoticesBehindEnd(l) && Enabled(l, s) && !(s.Take? && l.queue[0].End?)
    ensures m in Behind(After(l, s).queue) <==> PutsBehind(l, s, m) || (m in Behind(l.queue) && !Drains(l, s, End))
  {
    hide After, OnlyNoticesBehindEnd;
    BehindMoves(l, s);
  }

  lemma LeftOneMore(loops: seq<Loop>, steps: seq<Step>, m: Item, k: nat)
    requires 0 < k <= |steps| <= |loops|
    ensures StaysBehind(loops, steps, m, k) <==>
      || PutsBehind(loops[k - 1], steps[k - 1], m)
      || (StaysBehind(loops, steps, m, k - 1) && !Drains(loops[k - 1], steps[k - 1], End))
  {
    hide PutsBehind, Drains;
    assert LeftBehind(loops, steps, m, k - 1, k) == PutsBehind(loops[k - 1], steps[k - 1], m);
    forall j | 0 <= j < k - 1
      ensures LeftBehind(loops, steps, m, j, k) <==>
        LeftBehind(loops, steps, m, j, k - 1) && !Drains(loops[k - 1], steps[k - 1], End)
    {}
    hide LeftBehind;
    if StaysBehind(loops, steps, m, k) {
      var j :| 0 <= j < k && LeftBehind(loops, steps, m, j, k);
      assert j < k - 1 ==> LeftBehind(loops, steps, m, j, k - 1);
    }
    if StaysBehind(loops, steps, m, k - 1) && !Drains(loops[k - 1], steps[k - 1], End) {
      var j :| 0 <= j < k - 1 && LeftBehind(loops, steps, m, j, k - 1);
      assert LeftBehind(loops, steps, m, j, k);
    }
  }

  lemma TakesSome(l: Loop, s: Step)
    requires Enabled(l, s)
    ensures s.Take? ==> l.queue != []
  {}

  lemma {:induction false} StoppedStays(loops: seq<Loop>, steps: seq<Step>, i: nat, k: nat)
    requires Run(loops, steps) && i <= k < |loops| && loops[i].stopped
    ensures loops[k].stopped
  {
    if i < k { StoppedStays(loops, steps, i, k - 1); }
  }

  /** The loop takes the end of the stream only once. */
  lemma StillListening(loops: seq<Loop>, steps: seq<Step>, k: nat)
    requires Run(loops, steps) && k < |steps| && steps[k].Take?
    ensures Listening(loops, steps, k)
  {
    forall i | 0 <= i < k ensures !(steps[i].Take? && loops[i].queue != [] && loops[i].queue[0].End?) {
      if loops[i + 1].stopped { StoppedStays(loops, steps, i + 1, k); }
    }
  }

  /** When the loop ends because the stream did, a message is abandoned in the queue exactly when it is a speech or
      transfer notice that a turn put back while the end was queued, with no later turn putting the end back too. */
  lemma AbandonedIff(loops: seq<Loop>, steps: seq<Step>, k: nat, m: Item)
    requires Run(loops, steps) && k < |steps| && steps[k].Take? && loops[k].queue[0].End?
    ensures m in loops[k + 1].queue <==> exists j :: 0 <= j < k && LeftBehind(loops, steps, m, j, k)
  {
    StillListening(loops, steps, k);
    hide Listening, Enabled;
    BehindIff(loops, steps, k, m);
    assert loops[k + 1].queue == Behind(loops[k].queue);
  }

  lemma {:induction false} NotDraining(loops: seq<Loop>, steps: seq<Step>, k: nat)
    requires Run(loops, steps) && k <= |steps|
    requires forall i :: 0 <= i < k && steps[i].StreamEnds? ==> !InDrain(loops[i])
    requires forall i :: 0 <= i < k && steps[i].Respond? ==> End !in loops[i].arrived
    ensures End in loops[k].arrived ==> !InDrain(loops[k])
  {
    if k > 0 {
      NotDraining(loops, steps, k - 1);
      hide TakeEvents, DrainEvents, ForwardEvents, EndEvents;
      assert loops[k] == After(loops[k - 1], steps[k - 1]);
    }
  }

  predicate InDrain(l: Loop) { l.turn.Some? && l.turn.value.phase.Draining? }

  /** Nothing is abandoned if no response was waiting to be passed on when the stream ended and none came after. */
  lemma NothingAbandoned(loops: seq<Loop>, steps: seq<Step>, k: nat)
    requires Run(loops, steps) && k < |steps| && steps[k].Take? && loops[k].queue[0].End?
    requires forall i :: 0 <= i < k && steps[i].StreamEnds? ==> !InDrain(loops[i])
    requires forall i :: 0 <= i < k && steps[i].Respond? ==> End !in loops[i].arrived
    ensures loops[k + 1].queue == []
  {
    var left := loops[k + 1].queue;
    assert left == [] || left[0] in left;
    if left != [] { NotAbandoned(loops, steps, k, left[0]); }
  }

  lemma NotAbandoned(loops: seq<Loop>, steps: seq<Step>, k: nat, m: Item)
    requires Run(loops, steps) && k < |steps| && steps[k].Take? && loops[k].queue[0].End?
    requires forall i :: 0 <= i < k && steps[i].StreamEnds? ==> !InDrain(loops[i])
    requires forall i :: 0 <= i < k && steps[i].Respond? ==> End !in loops[i].arrived
    ensures m !in loops[k + 1].queue
  {
    AbandonedIff(loops, steps, k, m);
    forall j | 0 <= j < k ensures !LeftBehind(loops, steps, m, j, k) {
      NotDraining(loops, steps, j);
      BehindEndAlways(loops, steps, j);
    }
  }

  /** A call with one spoken turn, during which a second utterance and then the end of the stream arrive. */
  function HangUp(k: nat): Loop {
    var first, second := Message(0, SpeechEnded), Message(1, SpeechEnded);
    var quiet := Response(false, None);
    var speaking := Turn(0, false, false, None, Generating);
    var asked := speaking.(phase := Draining(quiet));
    var taken := [Took(first, false)];
    match k
    case 0 => Opened()
    case 1 => Opened().(arrived := [first], queue := [first])
    case 2 => Loop([first], [], taken, None, Some(speaking), 1, 0, false)
    case 3 => Loop([first], [], taken, None, Some(asked), 1, 0, false)
    case 4 => Loop([first, second], [second], taken, None, Some(asked), 1, 0, false)
    case 5 => Loop([first, second, End], [second, End], taken, None, Some(asked), 1, 0, false)
    case 6 => Loop([first, second, End], [End, second], taken, None, Some(speaking.(phase := Drained(quiet))), 1, 0,
      false)
    case 7 => Loop([first, second, End], [End, second], taken, None, Some(speaking), 1, 0, false)
    case 8 => Loop([first, second, End], [End, second], taken + [TurnOver(0)], None, None, 1, 0, false)
    case _ => Loop([first, second, End], [second], taken + [TurnOver(0), Took(End, false)], None, None, 1, 0, true)
  }

  function HangUpStep(k: nat): Step {
    match k
    case 0 => Arrive(SpeechEnded)
    case 1 => Take([])
    case 2 => Respond(Response(false, None))
    case 3 => Arrive(SpeechEnded)
    case 4 => StreamEnds
    case 5 => DrainNext
    case 6 => Forward
    case 7 => EndTurn
    case _ => Take([])
  }

  lemma HangUpArrives(k: nat)
    requires k < 5
    ensures Enabled(HangUp(k), HangUpStep(k)) && HangUp(k + 1) == After(HangUp(k), HangUpStep(k))
  {
    assert k == 0 || k == 1 || k == 2 || k == 3 || k == 4;
  }

  lemma HangUpEnds(k: nat)
    requires 5 <= k < 9
    ensures Enabled(HangUp(k), HangUpStep(k)) && HangUp(k + 1) == After(HangUp(k), HangUpStep(k))
  {
    assert k == 5 || k == 6 || k == 7 || k == 8;
  }

  /** It does happen: a turn puts a speech notice back behind the end of the stream that followed it, and the outer
      loop, meeting the end first, never takes it. */
  lemma NoticeAbandoned() returns (loops: seq<Loop>, steps: seq<Step>)
    ensures Run(loops, steps)
    ensures loops[|loops| - 1].stopped && loops[|loops| - 1].queue == [Message(1, SpeechEnded)]
  {
    loops := seq(10, k requires 0 <= k => HangUp(k));
    steps := seq(9, k requires 0 <= k => HangUpStep(k));
    forall k | 0 <= k < 9
      ensures Enabled(loops[k], steps[k]) && loops[k + 1] == After(loops[k], steps[k])
    {
      hide HangUp, HangUpStep, Enabled, After;
      if k < 5 { HangUpArrives(k); } else { HangUpEnds(k); }
    }
    hide HangUpStep, Enabled, After;
    assert loops[9] == HangUp(9);
  }

  // ---------------------------------------------------------------- the drain loop

  /** What the reader puts in the queue while the loop waits: messages, and None for the end of the stream, after
      which nothing comes. */
  function Incoming(arrived: seq<Item>, notices: seq<Option<Notice>>): seq<Item>
    decreases |notices|
  {
    if notices == [] || End in arrived then []
    else
      var item := if notices[0].Some? then Message(|arrived|, notices[0].value) else End;
      [item] + Incoming(arrived + [item], notices[1..])
  }

  function Received(l: Loop, notices: seq<Option<Notice>>): Loop {
    var items := Incoming(l.arrived, notices);
    l.(arrived := l.arrived + items, queue := l.queue + items)
  }

  function NextOf<T>(s: seq<seq<T>>): seq<T> { if s == [] then [] else s[0] }

  function RestOf<T>(s: seq<seq<T>>): seq<seq<T>> { if s == [] then [] else s[1..] }

  /** Draining until the queue is empty or something was put back, with what arrives after each message. */
  function DrainedAll(l: Loop, arriving: seq<seq<Option<Notice>>>): (r: Loop)
    requires l.turn.Some? && !l.turn.value.phase.Generating?
    ensures r.turn.Some? && (r.queue == [] || r.turn.value.phase.Drained?) && r.stopped == l.stopped
    decreases |arriving|, |l.queue|, if l.turn.value.phase.Draining? then 1 else 0
  {
    if l.queue == [] || !l.turn.value.phase.Draining? then l
    else DrainedAll(Received(Drain(l), NextOf(arriving)), RestOf(arriving))
  }

  lemma PathThen(loops: seq<Loop>, steps: seq<Step>, more: seq<Loop>, others: seq<Step>)
    requires Path(loops, steps) && Path(more, others) && loops[|steps|] == more[0]
    ensures Path(loops + more[1..], steps + others)
  {
    hide After, Enabled;
    var ls, ss := loops + more[1..], steps + others;
    forall i | 0 <= i < |ss| ensures Enabled(ls[i], ss[i]) && ls[i + 1] == After(ls[i], ss[i]) {
      if i < |steps| {
        assert ls[i] == loops[i] && ls[i + 1] == loops[i + 1] && ss[i] == steps[i];
      } else {
        var j := i - |steps|;
        assert ls[i] == more[j] && ls[i + 1] == more[j + 1] && ss[i] == others[j];
      }
    }
  }

  predicate WhileDraining(s: Step) { s.DrainNext? || s.Arrive? || s.StreamEnds? }

  lemma {:induction false} ReceivedSteps(l: Loop, notices: seq<Option<Notice>>) returns (loops: seq<Loop>,
      steps: seq<Step>)
    ensures Path(loops, steps) && loops[0] == l && loops[|steps|] == Received(l, notices)
    ensures forall s :: s in steps ==> WhileDraining(s)
    decreases |notices|
  {
    if notices == [] || End in l.arrived {
      loops, steps := [l], [];
    } else {
      var s := if notices[0].Some? then Arrive(notices[0].value) else StreamEnds;
      var next := After(l, s);
      ReceivedOne(l, notices);
      hide After, Received;
      var more, others := ReceivedSteps(next, notices[1..]);
      PathThen([l, next], [s], more, others);
      loops, steps := [l, next] + more[1..], [s] + others;
    }
  }

  lemma ReceivedOne(l: Loop, notices: seq<Option<Notice>>)
    requires notices != [] && End !in l.arrived
    ensures
      var s := if notices[0].Some? then Arrive(notices[0].value) else StreamEnds;
      Enabled(l, s) && Received(After(l, s), notices[1..]) == Received(l, notices)
  {
    var item := if notices[0].Some? then Message(|l.arrived|, notices[0].value) else End;
    var rest := Incoming(l.arrived + [item], notices[1..]);
    assert l.arrived + ([item] + rest) == l.arrived + [item] + rest;
    assert l.queue + ([item] + rest) == l.queue + [item] + rest;
  }

  /** The drain is a stretch of a run: of drained messages and arrivals, after which the response can be passed on. */
  lemma {:induction false} DrainedSteps(l: Loop, arriving: seq<seq<Option<Notice>>>) returns (loops: seq<Loop>,
      steps: seq<Step>)
    requires l.turn.Some? && !l.turn.value.phase.Generating? && !l.stopped
    ensures Path(loops, steps) && loops[0] == l && loops[|steps|] == DrainedAll(l, arriving)
    ensures forall s :: s in steps ==> WhileDraining(s)
    ensures Enabled(DrainedAll(l, arriving), Forward)
    decreases |arriving|, |l.queue|, if l.turn.value.phase.Draining? then 1 else 0
  {
    if l.queue == [] || !l.turn.value.phase.Draining? {
      loops, steps := [l], [];
    } else {
      var drained := Drain(l);
      var on := Received(drained, NextOf(arriving));
      var more, others := ReceivedSteps(drained, NextOf(arriving));
      var last, ends := DrainedSteps(on, RestOf(arriving));
      hide Drain, DrainedAll, Received;
      assert After(l, DrainNext) == drained;
      PathThen([l, drained], [DrainNext], more, others);
      PathThen([l, drained] + more[1..], [DrainNext] + others, last, ends);
      loops, steps := [l, drained] + more[1..] + last[1..], [DrainNext] + others + ends;
    }
  }

  lemma NoneIncoming(arrived: seq<Item>)
    ensures Incoming(arrived, []) == []
  {}

  lemma DrainedOne(l: Loop, arriving: seq<seq<Option<Notice>>>)
    requires l.turn.Some? && l.turn.value.phase.Draining? && l.queue != []
    ensures DrainedAll(l, arriving) == DrainedAll(Received(Drain(l), NextOf(arriving)), RestOf(arriving))
  {}

  lemma DrainedNone(l: Loop, arriving: seq<seq<Option<Notice>>>)
    requires l.turn.Some? && !l.turn.value.phase.Generating? && (l.queue == [] || l.turn.value.phase.Drained?)
    ensures DrainedAll(l, arriving) == l
  {}

  /** The loop that runs before a response is passed on. It ends although it puts messages back in the queue it
      drains, whatever arrives while it waits. */
  method DrainQueue(l: Loop, arriving: seq<seq<Option<Notice>>>) returns (r: Loop)
    requires l.turn.Some? && l.turn.value.phase.Draining?
    ensures r == DrainedAll(l, arriving)
  {
    hide DrainedAll, Incoming;
    var arrived, queue, log, held, cancelled, broke := l.arrived, l.queue, l.log, l.held, l.turn.value.cancelled, false;
    var response := l.turn.value.phase.response;
    var later := arriving;
    ghost var now := l;
    while queue != [] && !broke
      invariant now.turn.Some? && !now.turn.value.phase.Generating? && DrainedAll(now, later) == DrainedAll(l, arriving)
      invariant now == l.(arrived := arrived, queue := queue, log := log, held := held, turn := now.turn)
      invariant now.turn.value ==
        l.turn.value.(cancelled := cancelled, phase := if broke then Drained(response) else Draining(response))
      decreases |later|, |queue|, !broke
    {
      DrainedOne(now, later);
      now := Received(Drain(now), NextOf(later));
      var pending := queue[0];
      queue := queue[1..];
      match pending {
        case End =>
          cancelled := true;
          queue := queue + [pending];
          broke := true;
        case Message(_, notice) =>
          match notice {
            case CancelGeneration(trace) =>
              cancelled := true;
              log := log + ([Took(pending, true)] + [Acknowledged(trace)]);
            case PlaybackFinished(interrupted) =>
              log := log + ([Took(pending, true)] + Resolved(held, interrupted));
              held := None;
            case SpeechEnded =>
              queue := queue + [pending];
              broke := true;
            case TransferInitiated =>
              queue := queue + [pending];
              broke := true;
            case TransferCompleted =>
              queue := queue + [pending];
              broke := true;
            case TransferFailed =>
              queue := queue + [pending];
              broke := true;
            case _ =>
              log := log + ([Took(pending, true)] + []);
          }
      }
      if later == [] { NoneIncoming(arrived); }
      var items := Incoming(arrived, NextOf(later));
      arrived, queue, later := arrived + items, queue + items, RestOf(later);
    }
    r := l.(arrived := arrived, queue := queue, log := log, held := held,
            turn := Some(l.turn.value.(cancelled := cancelled, phase := if broke then Drained(response)
              else Draining(response))));
    DrainedNone(now, later);
  }
}
