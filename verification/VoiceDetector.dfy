/**
 The two voice detectors share one automaton with hysteresis: speech starts after enough consecutive loud frames
 and ends after enough consecutive quiet ones. How a frame's level is obtained is left open.
 */
module VoiceDetector {

  datatype Event = Nothing | SpeechStart | SpeechEnd

  datatype Tuning = Tuning(speech: real, silence: real, onset: nat, hold: nat)

  datatype Detector = Detector(inSpeech: bool, onset: nat, silence: nat, speech: nat)

  /** Division rounding down, as `//` does. */
  function FloorDiv(a: int, b: int): int
    requires b != 0
  {
    if b > 0 then a / b else (-a) / (-b)
  }

  function CeilDiv(a: int, b: int): int
    requires b != 0
  {
    -FloorDiv(-a, b)
  }

  function AtLeastOne(x: int): (n: nat)
    ensures n >= 1 && n >= x && (n == 1 || n == x)
  {
    if x < 1 then 1 else x
  }

  lemma CeilCovers(a: int, b: int)
    requires b > 0
    ensures (CeilDiv(a, b) - 1) * b < a <= CeilDiv(a, b) * b
  {
    assert (-a) / b * b + (-a) % b == -a;
  }

  lemma FloorFits(a: int, b: int)
    requires b > 0
    ensures a - b < FloorDiv(a, b) * b <= a
  {
    assert a / b * b + a % b == a;
  }

  /** A start takes the least number of frames, and at least one, that last the onset time; an end the greatest, and at
      least one, that last no longer than the hold time. */
  function EnergyTuning(speech: real, silence: real, onsetMs: int, holdMs: int, frameMs: int): (t: Tuning)
    requires frameMs != 0
    ensures t.speech == speech && t.silence == silence && t.onset >= 1 && t.hold >= 1
    ensures frameMs > 0 ==> t.onset * frameMs >= onsetMs && (t.onset == 1 || (t.onset - 1) * frameMs < onsetMs)
    ensures frameMs > 0 ==> (t.hold + 1) * frameMs > holdMs && (t.hold == 1 || t.hold * frameMs <= holdMs)
  {
    if frameMs > 0 then
      CeilCovers(onsetMs, frameMs);
      FloorFits(holdMs, frameMs);
      MoreFrames(CeilDiv(onsetMs, frameMs), AtLeastOne(CeilDiv(onsetMs, frameMs)), frameMs);
      MoreFrames(FloorDiv(holdMs, frameMs), AtLeastOne(FloorDiv(holdMs, frameMs)), frameMs);
      Tuned(speech, silence, CeilDiv(onsetMs, frameMs), FloorDiv(holdMs, frameMs))
    else
      Tuned(speech, silence, CeilDiv(onsetMs, frameMs), FloorDiv(holdMs, frameMs))
  }

  function Tuned(speech: real, silence: real, onset: int, hold: int): Tuning {
    Tuning(speech, silence, AtLeastOne(onset), AtLeastOne(hold))
  }

  lemma MoreFrames(n: int, m: int, frameMs: int)
    requires n <= m && frameMs > 0
    ensures n * frameMs <= m * frameMs
  {}

  const WINDOW_MS := 32

  /** Both take the least number of windows, and at least one, that last as long as they are to. */
  function SileroTuning(speech: real, silence: real, onsetMs: int, holdMs: int): (t: Tuning)
    ensures t.speech == speech && t.silence == silence && t.onset >= 1 && t.hold >= 1
    ensures t.onset * WINDOW_MS >= onsetMs && (t.onset == 1 || (t.onset - 1) * WINDOW_MS < onsetMs)
    ensures t.hold * WINDOW_MS >= holdMs && (t.hold == 1 || (t.hold - 1) * WINDOW_MS < holdMs)
  {
    CeilCovers(onsetMs, WINDOW_MS);
    CeilCovers(holdMs, WINDOW_MS);
    Tuned(speech, silence, CeilDiv(onsetMs, WINDOW_MS), CeilDiv(holdMs, WINDOW_MS))
  }

  predicate Loud(t: Tuning, level: real) { level >= t.speech }

  predicate Quiet(t: Tuning, level: real) { level < t.silence }

  function Idle(): Detector { Detector(false, 0, 0, 0) }

  function Stepped(t: Tuning, d: Detector, level: real): (Detector, Event) {
    if !d.inSpeech then
      if !Loud(t, level) then (d.(onset := 0), Nothing)
      else if d.onset + 1 >= t.onset then (Detector(true, 0, 0, d.onset + 1), SpeechStart)
      else (d.(onset := d.onset + 1), Nothing)
    else if !Quiet(t, level) then (d.(silence := 0, speech := d.speech + 1), Nothing)
    else if d.silence + 1 >= t.hold then (d.(inSpeech := false, silence := 0, speech := 0), SpeechEnd)
    else (d.(silence := d.silence + 1), Nothing)
  }

  // ---------------------------------------------------------------- the detector as it is written

  /** A frame that cannot be judged (empty, of the wrong length, or failed inference) or its level. */
  datatype Frame = Skipped | Heard(level: real)

  class VoiceActivityDetector {
    const tuning: Tuning
    var inSpeech: bool
    var onsetFrames: nat
    var silenceFrames: nat
    var speechFrames: nat

    ghost function Value(): Detector
      reads this
    {
      Detector(inSpeech, onsetFrames, silenceFrames, speechFrames)
    }

    constructor (tuning: Tuning)
      ensures this.tuning == tuning && Value() == Idle()
    {
      this.tuning := tuning;
      inSpeech, onsetFrames, silenceFrames, speechFrames := false, 0, 0, 0;
    }

    method Process(frame: Frame) returns (e: Event)
      modifies this
      ensures frame.Skipped? ==> e == Nothing && Value() == old(Value())
      ensures frame.Heard? ==> (Value(), e) == Stepped(tuning, old(Value()), frame.level)
    {
      if frame.Skipped? {
        return Nothing;
      }
      if !inSpeech {
        if Loud(tuning, frame.level) {
          onsetFrames := onsetFrames + 1;
          if onsetFrames >= tuning.onset {
            inSpeech := true;
            silenceFrames := 0;
            speechFrames := onsetFrames;
            onsetFrames := 0;
            return SpeechStart;
          }
        } else {
          onsetFrames := 0;
        }
        return Nothing;
      }
      if Quiet(tuning, frame.level) {
        silenceFrames := silenceFrames + 1;
        if silenceFrames >= tuning.hold {
          inSpeech := false;
          silenceFrames := 0;
          speechFrames := 0;
          return SpeechEnd;
        }
      } else {
        silenceFrames := 0;
        speechFrames := speechFrames + 1;
      }
      return Nothing;
    }

    method Reset()
      modifies this
      ensures Value() == Idle()
    {
      inSpeech, onsetFrames, silenceFrames, speechFrames := false, 0, 0, 0;
    }
  }

  // ---------------------------------------------------------------- runs

  /** The detector after the given levels, from reset. */
  function Reached(t: Tuning, levels: seq<real>): Detector {
    if levels == [] then Idle()
    else Stepped(t, Reached(t, levels[..|levels| - 1]), levels[|levels| - 1]).0
  }

  function Events(t: Tuning, levels: seq<real>): (es: seq<Event>)
    ensures |es| == |levels|
  {
    if levels == [] then []
    else
      var init := levels[..|levels| - 1];
      Events(t, init) + [Stepped(t, Reached(t, init), levels[|levels| - 1]).1]
  }

  /** The number of frames up to and including the last event, if any. */
  function LastMark(es: seq<Event>): (m: nat)
    ensures m <= |es|
  {
    if es == [] then 0
    else if es[|es| - 1] != Nothing then |es|
    else LastMark(es[..|es| - 1])
  }

  predicate Talking(es: seq<Event>) {
    es != [] && (if es[|es| - 1] == Nothing then Talking(es[..|es| - 1]) else es[|es| - 1] == SpeechStart)
  }

  function CountOf(es: seq<Event>, e: Event): nat {
    if es == [] then 0 else CountOf(es[..|es| - 1], e) + (if es[|es| - 1] == e then 1 else 0)
  }

  ghost predicate AllLoud(t: Tuning, levels: seq<real>, from: int, to: int)
    requires 0 <= from <= to <= |levels|
  {
    forall i :: from <= i < to ==> Loud(t, levels[i])
  }

  ghost predicate AllQuiet(t: Tuning, levels: seq<real>, from: int, to: int)
    requires 0 <= from <= to <= |levels|
  {
    forall i :: from <= i < to ==> Quiet(t, levels[i])
  }

  /** The counters are the lengths of the runs of loud or quiet frames just seen, counted from the last event. */
  ghost predicate Counting(t: Tuning, levels: seq<real>, d: Detector, mark: nat)
    requires mark <= |levels|
  {
    var n := |levels|;
    if d.inSpeech then
      && d.onset == 0 && d.silence <= n - mark && d.silence < t.hold && AllQuiet(t, levels, n - d.silence, n)
      && (n - d.silence > mark ==> !Quiet(t, levels[n - d.silence - 1]))
    else
      && d.silence == 0 && d.onset <= n - mark && d.onset < t.onset && AllLoud(t, levels, n - d.onset, n)
      && (n - d.onset > mark ==> !Loud(t, levels[n - d.onset - 1]))
  }

  lemma StepCounting(t: Tuning, levels: seq<real>, level: real, d: Detector, mark: nat)
    requires t.onset > 0 && t.hold > 0 && mark <= |levels| && Counting(t, levels, d, mark)
    ensures
      var (next, e) := Stepped(t, d, level);
      var grown := levels + [level];
      && Counting(t, grown, next, if e == Nothing then mark else |grown|)
      && (e == SpeechStart <==>
            !d.inSpeech && |grown| - t.onset >= mark && AllLoud(t, grown, |grown| - t.onset, |grown|))
      && (e == SpeechEnd <==>
            d.inSpeech && |grown| - t.hold >= mark && AllQuiet(t, grown, |grown| - t.hold, |grown|))
      && next.inSpeech == (if e == Nothing then d.inSpeech else e == SpeechStart)
  {
    var (next, e) := Stepped(t, d, level);
    var grown := levels + [level];
    var n := |levels|;
    assert forall i :: 0 <= i < n ==> grown[i] == levels[i];
    if !d.inSpeech {
      assert n - d.onset > mark ==> !Loud(t, grown[n - d.onset - 1]);
    } else {
      assert n - d.silence > mark ==> !Quiet(t, grown[n - d.silence - 1]);
    }
  }

  lemma RunSnoc(t: Tuning, init: seq<real>, last: real)
    ensures Events(t, init + [last]) == Events(t, init) + [Stepped(t, Reached(t, init), last).1]
    ensures Reached(t, init + [last]) == Stepped(t, Reached(t, init), last).0
  {
    assert (init + [last])[..|init|] == init;
  }

  lemma MarkSnoc(es: seq<Event>, e: Event)
    ensures LastMark(es + [e]) == if e == Nothing then LastMark(es) else |es| + 1
    ensures Talking(es + [e]) == if e == Nothing then Talking(es) else e == SpeechStart
  {
    assert (es + [e])[..|es|] == es;
  }

  lemma Snoc(levels: seq<real>) returns (init: seq<real>, last: real)
    requires levels != []
    ensures levels == init + [last]
  {
    init, last := levels[..|levels| - 1], levels[|levels| - 1];
  }

  lemma {:induction false} RunCounting(t: Tuning, levels: seq<real>)
    requires t.onset > 0 && t.hold > 0
    ensures Counting(t, levels, Reached(t, levels), LastMark(Events(t, levels)))
    ensures Reached(t, levels).inSpeech == Talking(Events(t, levels))
    decreases |levels|
  {
    if levels != [] {
      hide Counting, Stepped, Reached, Events, LastMark, Talking;
      var init, last := Snoc(levels);
      RunCounting(t, init);
      StepCounting(t, init, last, Reached(t, init), LastMark(Events(t, init)));
      RunSnoc(t, init, last);
      MarkSnoc(Events(t, init), Stepped(t, Reached(t, init), last).1);
    }
  }

  /** What the next frame after `init` brings. */
  lemma NextEvent(t: Tuning, init: seq<real>, last: real)
    requires t.onset > 0 && t.hold > 0
    ensures
      var before := Events(t, init);
      var grown := init + [last];
      var n := |grown|;
      var e := Events(t, grown)[|init|];
      && Events(t, grown) == before + [e]
      && (e == SpeechStart <==>
            !Talking(before) && n - t.onset >= LastMark(before) && AllLoud(t, grown, n - t.onset, n))
      && (e == SpeechEnd <==>
            Talking(before) && n - t.hold >= LastMark(before) && AllQuiet(t, grown, n - t.hold, n))
  {
    hide Counting, Stepped, Reached, Events, LastMark, Talking;
    RunCounting(t, init);
    StepCounting(t, init, last, Reached(t, init), LastMark(Events(t, init)));
    RunSnoc(t, init, last);
  }

  /** Speech starts at a frame exactly when no speech is under way and it completes the needed number of loud
      frames in a row since the last end; it ends exactly when it completes the needed number of quiet ones in a
      row since the last start. */
  lemma EventsExact(t: Tuning, levels: seq<real>, i: nat)
    requires t.onset > 0 && t.hold > 0 && i < |levels|
    ensures
      var before := Events(t, levels)[..i];
      && (Events(t, levels)[i] == SpeechStart <==>
            !Talking(before) && i + 1 - t.onset >= LastMark(before) && AllLoud(t, levels, i + 1 - t.onset, i + 1))
      && (Events(t, levels)[i] == SpeechEnd <==>
            Talking(before) && i + 1 - t.hold >= LastMark(before) && AllQuiet(t, levels, i + 1 - t.hold, i + 1))
  {
    hide Talking, LastMark, Reached, Events;
    var init, last := levels[..i], levels[i];
    EventsPrefix(t, levels, i);
    EventsPrefix(t, levels, i + 1);
    assert init + [last] == levels[..i + 1];
    NextEvent(t, init, last);
    assert Events(t, levels)[i] == Events(t, levels)[..i + 1][i];
    assert forall j :: 0 <= j <= i ==> (init + [last])[j] == levels[j];
  }

  lemma {:induction false} EventsPrefix(t: Tuning, levels: seq<real>, i: nat)
    requires i <= |levels|
    ensures Events(t, levels)[..i] == Events(t, levels[..i])
    decreases |levels|
  {
    if i < |levels| {
      var init := levels[..|levels| - 1];
      EventsPrefix(t, init, i);
      assert init[..i] == levels[..i];
    } else {
      assert levels[..i] == levels;
    }
  }

  // ---------------------------------------------------------------- alternation and spacing

  function Marks(es: seq<Event>): seq<Event> {
    if es == [] then []
    else Marks(es[..|es| - 1]) + (if es[|es| - 1] == Nothing then [] else [es[|es| - 1]])
  }

  ghost predicate Alternates(ms: seq<Event>) {
    forall i :: 0 <= i < |ms| ==> ms[i] == if i % 2 == 0 then SpeechStart else SpeechEnd
  }

  lemma MarksSnoc(es: seq<Event>, e: Event)
    ensures Marks(es + [e]) == Marks(es) + (if e == Nothing then [] else [e])
    ensures CountOf(es + [e], SpeechStart) == CountOf(es, SpeechStart) + (if e == SpeechStart then 1 else 0)
    ensures CountOf(es + [e], SpeechEnd) == CountOf(es, SpeechEnd) + (if e == SpeechEnd then 1 else 0)
  {
    assert (es + [e])[..|es|] == es;
  }

  /** An event always turns the state over, and nothing else does. */
  lemma StepTurns(t: Tuning, d: Detector, level: real)
    ensures
      var (next, e) := Stepped(t, d, level);
      if e == Nothing then next.inSpeech == d.inSpeech
      else next.inSpeech == !d.inSpeech && e == if d.inSpeech then SpeechEnd else SpeechStart
  {
  }

  lemma AlternatesGrows(ms: seq<Event>)
    requires Alternates(ms)
    ensures Alternates(ms + [if |ms| % 2 == 0 then SpeechStart else SpeechEnd])
    ensures (|ms| + 1) % 2 == 1 - |ms| % 2
  {
  }

  /** Events alternate, beginning with a start. */
  lemma {:induction false} EventsAlternate(t: Tuning, levels: seq<real>)
    ensures Alternates(Marks(Events(t, levels)))
    ensures Reached(t, levels).inSpeech == (|Marks(Events(t, levels))| % 2 == 1)
    decreases |levels|
  {
    if levels != [] {
      hide Marks, Events, Reached, Stepped, Alternates;
      var init, last := Snoc(levels);
      EventsAlternate(t, init);
      RunSnoc(t, init, last);
      StepTurns(t, Reached(t, init), last);
      var e := Stepped(t, Reached(t, init), last).1;
      MarksSnoc(Events(t, init), e);
      AlternatesGrows(Marks(Events(t, init)));
      assert e == Nothing ==> Marks(Events(t, levels)) == Marks(Events(t, init));
    }
  }

  /** Each event is at least as many frames after the one before as it takes to bring it about. */
  lemma {:induction false} MarksSpaced(t: Tuning, levels: seq<real>)
    requires t.onset > 0 && t.hold > 0
    ensures
      var es := Events(t, levels);
      && LastMark(es) >= CountOf(es, SpeechStart) * t.onset + CountOf(es, SpeechEnd) * t.hold
      && CountOf(es, SpeechStart) == CountOf(es, SpeechEnd) + (if Talking(es) then 1 else 0)
    decreases |levels|
  {
    if levels != [] {
      hide CountOf, Events, LastMark, Talking, Marks;
      var init, last := Snoc(levels);
      MarksSpaced(t, init);
      NextEvent(t, init, last);
      var before, e := Events(t, init), Events(t, levels)[|init|];
      MarksSnoc(before, e);
      MarkSnoc(before, e);
      Distributes(CountOf(before, SpeechStart), t.onset);
      Distributes(CountOf(before, SpeechEnd), t.hold);
    }
  }

  lemma Distributes(k: nat, n: nat)
    ensures (k + 1) * n == k * n + n
  {
  }

  /** So many starts need so many frames. */
  lemma StartsNeedFrames(t: Tuning, levels: seq<real>)
    requires t.onset > 0 && t.hold > 0
    ensures
      var k := CountOf(Events(t, levels), SpeechStart);
      k > 0 ==> |levels| >= k * t.onset + (k - 1) * t.hold
  {
    MarksSpaced(t, levels);
    var es := Events(t, levels);
    var k, e := CountOf(es, SpeechStart), CountOf(es, SpeechEnd);
    hide Events, CountOf, Talking;
    if k > 0 && e == k {
      Distributes(k - 1, t.hold);
    }
  }
}
