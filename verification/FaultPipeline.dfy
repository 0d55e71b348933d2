/** The fake adapter's fault pipeline: events may be dropped, doubled, held back and reversed, or
    swallowed by a crash, but none is lost silently and none is made up. */
module FaultPipeline {
  import opened Common

  datatype Fault = Crash | Delay | Duplicate | Reorder | Drop

  datatype Faults = Faults(crash: bool, delayMs: nat, duplicateCount: nat, reorderWindow: nat, dropCount: nat)

  const NoFaults: Faults := Faults(false, 0, 0, 0, 0)

  datatype Event = Event(sessionId: string, body: string)

  datatype Emission = AdapterCrash(sessionId: string) | SessionEvent(event: Event, faultDuplicate: bool)

  /** The adapter's fields and what it emitted, with a record of the events that never come out. */
  datatype State = State(
    faults: Faults,
    buffer: seq<Event>,
    seed: nat,
    emitted: seq<Emission>,
    dropped: seq<Event>,
    crashed: seq<Event>,
    cleared: seq<Event>)

  const Start: State := State(NoFaults, [], 0, [], [], [], [])

  const MODULUS := 4294967296

  function Seeded(seed: nat): nat {
    (seed * 1664525 + 1013904223) % MODULUS
  }

  function Injected(s: State, f: Fault): State {
    match f
    case Crash => s.(faults := s.faults.(crash := true))
    case Delay => s.(seed := Seeded(s.seed), faults := s.faults.(delayMs := 500 + Seeded(s.seed) * 1500 / MODULUS))
    case Duplicate => s.(faults := s.faults.(duplicateCount := 2))
    case Reorder => s.(faults := s.faults.(reorderWindow := 3))
    case Drop => s.(faults := s.faults.(dropCount := 1))
  }

  function Cleared(s: State): State {
    s.(faults := NoFaults, buffer := [], cleared := s.cleared + s.buffer)
  }

  function Reversed<T>(s: seq<T>): seq<T> {
    seq(|s|, i requires 0 <= i < |s| => s[|s| - 1 - i])
  }

  function Plain(events: seq<Event>): seq<Emission> {
    seq(|events|, i requires 0 <= i < |events| => SessionEvent(events[i], false))
  }

  function Copies(e: Event, n: nat): seq<Emission> {
    seq(n, _ => SessionEvent(e, true))
  }

  /** What one event does, fault by fault in the order they apply. */
  function Emitted(s: State, e: Event): State {
    if s.faults.crash then s.(emitted := s.emitted + [AdapterCrash(e.sessionId)], crashed := s.crashed + [e])
    else if s.faults.dropCount > 0 then
      s.(faults := s.faults.(dropCount := s.faults.dropCount - 1), dropped := s.dropped + [e])
    else
      var t := s.(faults := s.faults.(duplicateCount := 0), emitted := s.emitted + Copies(e, s.faults.duplicateCount));
      if s.faults.reorderWindow == 0 then t.(emitted := t.emitted + [SessionEvent(e, false)])
      else if |s.buffer| + 1 < s.faults.reorderWindow then t.(buffer := s.buffer + [e])
      else t.(faults := t.faults.(reorderWindow := 0), buffer := [],
              emitted := t.emitted + Plain(Reversed(s.buffer + [e])))
  }

  class FakeAdapter {
    var faults: Faults
    var reorderBuffer: seq<Event>
    var emitCounter: nat
    var emitted: seq<Emission>
    ghost var dropped: seq<Event>
    ghost var crashed: seq<Event>
    ghost var cleared: seq<Event>

    constructor ()
      ensures Now() == Start
    {
      faults, reorderBuffer, emitCounter, emitted := NoFaults, [], 0, [];
      dropped, crashed, cleared := [], [], [];
    }

    ghost function Now(): State
      reads this
    {
      State(faults, reorderBuffer, emitCounter, emitted, dropped, crashed, cleared)
    }

    method InjectFault(f: Fault)
      modifies this
      ensures Now() == Injected(old(Now()), f)
    {
      match f
      case Crash => faults := faults.(crash := true);
      case Delay =>
        emitCounter := Seeded(emitCounter);
        faults := faults.(delayMs := 500 + emitCounter * 1500 / MODULUS);
      case Duplicate => faults := faults.(duplicateCount := 2);
      case Reorder => faults := faults.(reorderWindow := 3);
      case Drop => faults := faults.(dropCount := 1);
    }

    method ClearFaults()
      modifies this
      ensures Now() == Cleared(old(Now()))
    {
      faults := NoFaults;
      cleared := cleared + reorderBuffer;
      reorderBuffer := [];
    }

    method EmitWithFaults(e: Event)
      modifies this
      ensures Now() == Emitted(old(Now()), e)
    {
      if faults.crash {
        emitted := emitted + [AdapterCrash(e.sessionId)];
        crashed := crashed + [e];
        return;
      }
      if faults.dropCount > 0 {
        faults := faults.(dropCount := faults.dropCount - 1);
        dropped := dropped + [e];
        return;
      }
      if faults.duplicateCount > 0 {
        var i := 0;
        while i < faults.duplicateCount
          invariant i <= faults.duplicateCount
          invariant Now() == old(Now()).(emitted := old(emitted) + Copies(e, i))
        {
          assert Copies(e, i) + [SessionEvent(e, true)] == Copies(e, i + 1);
          emitted := emitted + [SessionEvent(e, true)];
          i := i + 1;
        }
        faults := faults.(duplicateCount := 0);
      }
      assert emitted == old(emitted) + Copies(e, old(faults).duplicateCount);
      if faults.reorderWindow > 0 {
        reorderBuffer := reorderBuffer + [e];
        if |reorderBuffer| >= faults.reorderWindow {
          var buffered := Reversed(reorderBuffer);
          reorderBuffer := [];
          faults := faults.(reorderWindow := 0);
          EmitAll(buffered);
        }
        return;
      }
      emitted := emitted + [SessionEvent(e, false)];
    }

    method EmitAll(events: seq<Event>)
      modifies this`emitted
      ensures emitted == old(emitted) + Plain(events)
    {
      var i := 0;
      while i < |events|
        invariant 0 <= i <= |events|
        invariant emitted == old(emitted) + Plain(events[..i])
      {
        assert Plain(events[..i]) + [SessionEvent(events[i], false)] == Plain(events[..i + 1]);
        emitted := emitted + [SessionEvent(events[i], false)];
        i := i + 1;
      }
      assert events[..i] == events;
    }
  }

  // ---------------------------------------------------------------------
  // Runs
  // ---------------------------------------------------------------------

  datatype Step = Emit(event: Event) | Inject(fault: Fault) | Clear

  function Next(s: State, step: Step): State {
    match step
    case Emit(e) => Emitted(s, e)
    case Inject(f) => Injected(s, f)
    case Clear => Cleared(s)
  }

  function Run(steps: seq<Step>): State {
    if steps == [] then Start else Next(Run(Front(steps)), Last(steps))
  }

  function Inputs(steps: seq<Step>): seq<Event> {
    if steps == [] then [] else Inputs(Front(steps)) + (if Last(steps).Emit? then [Last(steps).event] else [])
  }

  /** The deliveries that are not flagged as injected duplicates. */
  function Unflagged(emitted: seq<Emission>): seq<Event> {
    if emitted == [] then []
    else
      var last := Last(emitted);
      Unflagged(Front(emitted)) + (if last.SessionEvent? && !last.faultDuplicate then [last.event] else [])
  }

  lemma {:induction false} UnflaggedAppend(a: seq<Emission>, b: seq<Emission>)
    ensures Unflagged(a + b) == Unflagged(a) + Unflagged(b)
  {
    if b == [] {
      assert a + b == a;
    } else {
      UnflaggedAppend(a, Front(b));
      assert Front(a + b) == a + Front(b);
    }
  }

  lemma {:induction false} UnflaggedCopies(e: Event, n: nat)
    ensures Unflagged(Copies(e, n)) == []
  {
    if n > 0 {
      assert Front(Copies(e, n)) == Copies(e, n - 1);
      UnflaggedCopies(e, n - 1);
    }
  }

  lemma {:induction false} UnflaggedPlain(events: seq<Event>)
    ensures Unflagged(Plain(events)) == events
  {
    if events != [] {
      assert Front(Plain(events)) == Plain(Front(events));
      UnflaggedPlain(Front(events));
    }
  }

  /** The multiset of everything the adapter has or had, wherever it went. */
  function Accounted(s: State): multiset<Event> {
    multiset(Unflagged(s.emitted)) + multiset(s.dropped) + multiset(s.crashed)
    + multiset(s.cleared) + multiset(s.buffer)
  }

  /** The unflagged deliveries that one event causes. */
  function Delivered(s: State, e: Event): seq<Event> {
    if s.faults.crash || s.faults.dropCount > 0 then []
    else if s.faults.reorderWindow == 0 then [e]
    else if |s.buffer| + 1 < s.faults.reorderWindow then []
    else Reversed(s.buffer + [e])
  }

  lemma UnflaggedAfter(emitted: seq<Emission>, e: Event, n: nat, events: seq<Event>)
    ensures Unflagged(emitted + [AdapterCrash(e.sessionId)]) == Unflagged(emitted)
    ensures Unflagged(emitted + Copies(e, n)) == Unflagged(emitted)
    ensures Unflagged(emitted + Copies(e, n) + Plain(events)) == Unflagged(emitted) + events
  {
    UnflaggedCopies(e, n);
    UnflaggedPlain(events);
    UnflaggedAppend(emitted, Copies(e, n));
    UnflaggedAppend(emitted + Copies(e, n), Plain(events));
    assert Front(emitted + [AdapterCrash(e.sessionId)]) == emitted;
    hide Copies, Plain;
    assert Unflagged(emitted) + [] == Unflagged(emitted);
  }

  lemma EmitDelivers(s: State, e: Event)
    ensures Unflagged(Emitted(s, e).emitted) == Unflagged(s.emitted) + Delivered(s, e)
  {
    assert Plain([e]) == [SessionEvent(e, false)];
    hide Unflagged, Reversed, Copies, Plain;
    UnflaggedAfter(s.emitted, e, s.faults.duplicateCount, Delivered(s, e));
    assert Unflagged(s.emitted) + [] == Unflagged(s.emitted);
  }

  lemma {:induction false} SameElements(s: seq<Event>)
    ensures multiset(Reversed(s)) == multiset(s)
  {
    if s != [] {
      SameElements(Front(s));
      assert Reversed(s) == [Last(s)] + Reversed(Front(s));
      assert s == Front(s) + [Last(s)];
    }
  }

  /** Where the one event, and with a flush the held ones, went. */
  lemma EmitMoves(s: State, e: Event)
    ensures var t := Emitted(s, e);
            && t.cleared == s.cleared
            && (if s.faults.crash then t.crashed == s.crashed + [e] else t.crashed == s.crashed)
            && (if !s.faults.crash && s.faults.dropCount > 0 then
                  t.dropped == s.dropped + [e] && t.faults.dropCount == s.faults.dropCount - 1
                else t.dropped == s.dropped && t.faults.dropCount == s.faults.dropCount)
            && multiset(Delivered(s, e)) + multiset(t.buffer)
               == multiset(s.buffer) + (if s.faults.crash || s.faults.dropCount > 0 then multiset{} else multiset{e})
  {
    SameElements(s.buffer + [e]);
    hide Reversed, Copies, Plain;
    assert multiset(s.buffer + [e]) == multiset(s.buffer) + multiset{e};
  }

  lemma EmitAccounted(s: State, e: Event)
    ensures Accounted(Emitted(s, e)) == Accounted(s) + multiset{e}
  {
    EmitDelivers(s, e);
    EmitMoves(s, e);
    hide Emitted, Unflagged, Delivered;
    assert multiset(s.dropped + [e]) == multiset(s.dropped) + multiset{e};
    assert multiset(s.crashed + [e]) == multiset(s.crashed) + multiset{e};
    var t := Emitted(s, e);
    assert multiset(Unflagged(t.emitted)) == multiset(Unflagged(s.emitted)) + multiset(Delivered(s, e));
    Regroup(multiset(Unflagged(s.emitted)), multiset(Delivered(s, e)), multiset(t.buffer),
            multiset(t.dropped), multiset(t.crashed), multiset(s.cleared));
  }

  lemma Regroup(unflagged: multiset<Event>, delivered: multiset<Event>, buffer: multiset<Event>,
                dropped: multiset<Event>, crashed: multiset<Event>, cleared: multiset<Event>)
    ensures unflagged + delivered + dropped + crashed + cleared + buffer
         == unflagged + dropped + crashed + cleared + (delivered + buffer)
  {
  }

  /** Conservation: for every schedule of faults each input event is, counting repetitions, exactly
      once delivered unflagged, dropped, swallowed by the crash, cleared away or still held back. */
  lemma {:induction false} Conservation(steps: seq<Step>)
    ensures multiset(Inputs(steps)) == Accounted(Run(steps))
  {
    hide Emitted, Unflagged;
    if steps != [] {
      Conservation(Front(steps));
      if Last(steps).Emit? {
        EmitAccounted(Run(Front(steps)), Last(steps).event);
      }
    } else {
      NothingUnflagged();
    }
  }

  lemma NothingUnflagged()
    ensures Unflagged([]) == []
  {
  }

  /** Events are held back only while the window of three is open, and never three of them. */
  ghost predicate BufferSound(s: State) {
    (s.faults.reorderWindow == 0 || s.faults.reorderWindow == 3) && |s.buffer| < 3
        && (s.buffer != [] ==> s.faults.reorderWindow == 3)
  }

  lemma {:induction false} BufferBound(steps: seq<Step>)
    ensures BufferSound(Run(steps))
  {
    if steps != [] {
      BufferBound(Front(steps));
    }
  }

  /** A flush delivers exactly the two held events and the new one, last first, and nothing else. */
  lemma FlushReverses(steps: seq<Step>, e: Event)
    ensures var s := Run(steps);
            var t := Emitted(s, e);
            s.buffer != [] && t.buffer == [] ==>
              && |s.buffer| == 2
              && t.emitted == s.emitted + Copies(e, s.faults.duplicateCount)
                              + [SessionEvent(e, false), SessionEvent(s.buffer[1], false),
                                 SessionEvent(s.buffer[0], false)]
  {
    hide Run;
    BufferBound(steps);
    hide Copies, Reversed, Plain;
    var s := Run(steps);
    if |s.buffer| == 2 {
      assert s.buffer + [e] == [s.buffer[0], s.buffer[1], e];
      PlainReversed(s.buffer[0], s.buffer[1], e);
    }
  }

  lemma PlainReversed(a: Event, b: Event, c: Event)
    ensures Plain(Reversed([a, b, c])) == [SessionEvent(c, false), SessionEvent(b, false), SessionEvent(a, false)]
  {
  }

  // ---------------------------------------------------------------------
  // What comes out, told from the steps
  // ---------------------------------------------------------------------

  predicate CrashOn(steps: seq<Step>) {
    steps != [] && !Last(steps).Clear? && (CrashOn(Front(steps)) || Last(steps) == Inject(Crash))
  }

  /** The next event is dropped: one was asked for and no event has been dropped since. */
  predicate DropNext(steps: seq<Step>) {
    && steps != [] && !Last(steps).Clear?
    && (|| Last(steps) == Inject(Drop)
        || (DropNext(Front(steps)) && (Last(steps).Emit? ==> CrashOn(Front(steps)))))
  }

  /** The next event that is neither swallowed nor dropped comes out doubled. */
  predicate DoubleNext(steps: seq<Step>) {
    && steps != [] && !Last(steps).Clear?
    && (|| Last(steps) == Inject(Duplicate)
        || (DoubleNext(Front(steps)) && (Last(steps).Emit? ==> CrashOn(Front(steps)) || DropNext(Front(steps)))))
  }

  /** The events held back while a window is open. */
  function Held(steps: seq<Step>): Option<seq<Event>> {
    if steps == [] || Last(steps).Clear? then None
    else
      var was := Held(Front(steps));
      if Last(steps) == Inject(Reorder) then Some(if was.Some? then was.value else [])
      else if Last(steps).Emit? && !CrashOn(Front(steps)) && !DropNext(Front(steps)) && was.Some? then
        if |was.value| < 2 then Some(was.value + [Last(steps).event]) else None
      else was
  }

  /** What one event brings out: a crash notice; nothing; or, after two flagged copies if it is to be
      doubled, the event itself, nothing yet while the window fills, or the window last first. */
  function Brings(steps: seq<Step>, e: Event): seq<Emission> {
    if CrashOn(steps) then [AdapterCrash(e.sessionId)]
    else if DropNext(steps) then []
    else
      (if DoubleNext(steps) then [SessionEvent(e, true), SessionEvent(e, true)] else [])
      + match Held(steps)
        case None => [SessionEvent(e, false)]
        case Some(held) =>
          if |held| < 2 then []
          else [SessionEvent(e, false), SessionEvent(held[1], false), SessionEvent(held[0], false)]
  }

  function Output(steps: seq<Step>): seq<Emission> {
    if steps == [] then []
    else Output(Front(steps)) + (if Last(steps).Emit? then Brings(Front(steps), Last(steps).event) else [])
  }

  ghost predicate FaultsAre(s: State, crash: bool, drop: bool, double: bool, held: Option<seq<Event>>) {
    && s.faults.crash == crash
    && s.faults.dropCount == (if drop then 1 else 0)
    && s.faults.duplicateCount == (if double then 2 else 0)
    && (if held == None then s.faults.reorderWindow == 0 && s.buffer == []
        else s.faults.reorderWindow == 3 && s.buffer == held.value && |held.value| < 3)
  }

  lemma {:induction false} FaultsAsInjected(steps: seq<Step>)
    ensures FaultsAre(Run(steps), CrashOn(steps), DropNext(steps), DoubleNext(steps), Held(steps))
  {
    hide Seeded, Copies, Plain, Reversed;
    if steps != [] {
      FaultsAsInjected(Front(steps));
    }
  }

  lemma EmitBrings(s: State, steps: seq<Step>, e: Event)
    requires FaultsAre(s, CrashOn(steps), DropNext(steps), DoubleNext(steps), Held(steps))
    ensures Emitted(s, e).emitted == s.emitted + Brings(steps, e)
  {
    TwoCopies(e);
    assert s.emitted + [] == s.emitted;
    if Held(steps).Some? && |s.buffer| == 2 {
      assert s.buffer + [e] == [s.buffer[0], s.buffer[1], e];
      PlainReversed(s.buffer[0], s.buffer[1], e);
    }
    hide Copies, Plain, Reversed, CrashOn, DropNext, DoubleNext, Held;
  }

  lemma TwoCopies(e: Event)
    ensures Copies(e, 0) == [] && Copies(e, 2) == [SessionEvent(e, true), SessionEvent(e, true)]
  {
  }

  /** Over every schedule of faults the adapter emits exactly this, in this order. */
  lemma {:induction false} OutputIs(steps: seq<Step>)
    ensures Run(steps).emitted == Output(steps)
  {
    hide Emitted, Brings, Seeded;
    if steps != [] {
      OutputIs(Front(steps));
      FaultsAsInjected(Front(steps));
      if Last(steps).Emit? {
        EmitBrings(Run(Front(steps)), Front(steps), Last(steps).event);
      } else {
        assert Output(Front(steps)) + [] == Output(Front(steps));
      }
    }
  }

  /** An injected delay lasts at least half a second and less than two; the first one 854 milliseconds. */
  lemma DelayWithinBounds(s: State)
    ensures 500 <= Injected(s, Delay).faults.delayMs < 2000
    ensures Injected(Start, Delay).faults.delayMs == 854
  {
  }
}
