/**
 The bridge that carries audit events from many producers to one writer: a bounded queue, a drain thread, and an
 inline drain when the bridge is stopped. `Bridge` shows each method undisturbed.
 */
module AuditBridge {

  datatype Event = Event(name: string)

  /** `queue.Full`; a queue whose `maxsize` is not positive is unbounded. */
  predicate IsFull(maxsize: int, size: nat) {
    maxsize > 0 && size >= maxsize
  }

  /** What the bridge holds. */
  datatype View = View(queue: seq<Event>, stopped: bool, dropped: nat, written: seq<Event>)

  // ---- The methods on values ----

  function AfterPut(v: View, maxsize: int, event: Event, broken: bool): View {
    if broken || IsFull(maxsize, |v.queue|) then v.(dropped := v.dropped + 1) else v.(queue := v.queue + [event])
  }

  /** For a bridge with a writer. */
  function AfterTurn(v: View): View {
    if v.stopped || v.queue == [] then v else v.(queue := v.queue[1..], written := v.written + [v.queue[0]])
  }

  /** `writes` says whether there is a writer. */
  function AfterStop(v: View, turns: nat, writes: bool): View {
    var n := if turns < |v.queue| then turns else |v.queue|;
    View(v.queue[n..], true, v.dropped, v.written + if writes then v.queue[..n] else [])
  }

  lemma StopSetsFlag(v: View, turns: nat, writes: bool)
    ensures AfterStop(v.(stopped := true), turns, writes) == AfterStop(v, turns, writes)
  {
  }

  lemma StopNoMore(v: View, turns: nat, writes: bool)
    requires v.stopped && (turns == 0 || v.queue == [])
    ensures AfterStop(v, turns, writes) == v
  {
    assert v.queue[0..] == v.queue && v.queue[..0] == [] && v.written + [] == v.written;
  }

  lemma StopNext(v: View, turns: nat)
    requires v.stopped && turns > 0 && v.queue != []
    ensures AfterStop(v, turns, true)
      == AfterStop(View(v.queue[1..], true, v.dropped, v.written + [v.queue[0]]), turns - 1, true)
  {
    var n := if turns < |v.queue| then turns else |v.queue|;
    assert v.queue[..n] == [v.queue[0]] + v.queue[1..][..n - 1];
  }

  /** Undisturbed, `stop` hands everything over, and leaves nothing behind, exactly when its inline drain has time
      for as many turns as events were queued when it was called. */
  lemma StopEmptiesIff(v: View, turns: nat)
    ensures AfterStop(v, turns, true).queue == [] <==> turns >= |v.queue|
    ensures AfterStop(v, turns, true).written == v.written + v.queue <==> turns >= |v.queue|
  {
    var written := AfterStop(v, turns, true).written;
    if turns >= |v.queue| {
      assert v.queue[..|v.queue|] == v.queue;
    } else {
      assert |written| < |v.written + v.queue|;
    }
  }

  /** A stop hands events over from the front of the queue, one per turn, and leaves the rest as they were. */
  lemma StopKeepsOrder(v: View, turns: nat)
    ensures
      var w := AfterStop(v, turns, true);
      && w.written + w.queue == v.written + v.queue
      && |w.written| == |v.written| + (if turns < |v.queue| then turns else |v.queue|)
      && w.stopped && w.dropped == v.dropped
  {
    var n := if turns < |v.queue| then turns else |v.queue|;
    assert v.queue == v.queue[..n] + v.queue[n..];
  }

  /** A turn of the drain thread moves the oldest event to the writer, unless the bridge is stopped. */
  lemma TurnKeepsOrder(v: View)
    ensures
      var w := AfterTurn(v);
      && w.written + w.queue == v.written + v.queue
      && |w.written| == |v.written| + (if v.stopped || v.queue == [] then 0 else 1)
      && w.stopped == v.stopped && w.dropped == v.dropped
  {
  }

  class Bridge {
    var queue: seq<Event>
    var stopped: bool
    var droppedCount: nat
    var written: seq<Event> // the calls of writer.write, whether or not the writer then raises
    var hasThread: bool
    const maxsize: int
    const hasWriter: bool

    function Held(): View
      reads this
    {
      View(queue, stopped, droppedCount, written)
    }

    constructor (maxsize: int, hasWriter: bool)
      ensures this.maxsize == maxsize && this.hasWriter == hasWriter
      ensures Held() == View([], false, 0, []) && !hasThread
    {
      this.maxsize, this.hasWriter := maxsize, hasWriter;
      queue, stopped, droppedCount, written, hasThread := [], false, 0, [], false;
    }

    /** `alive` says whether a thread started before is still running; then nothing changes. */
    method Start(alive: bool)
      modifies this`stopped, this`hasThread
      ensures hasThread
      ensures Held() == old(Held()).(stopped := old(stopped) && old(hasThread) && alive)
    {
      if hasThread && alive {
        return;
      }
      stopped := false;
      hasThread := true;
    }

    method RecordDrop()
      modifies this`droppedCount
      ensures droppedCount == old(droppedCount) + 1
    {
      droppedCount := droppedCount + 1;
    }

    /** `broken` says that the event cannot be serialised or the queue cannot be reached. Never raises: the event is
        enqueued last, or counted as dropped. */
    method Put(event: Event, broken: bool)
      modifies this`queue, this`droppedCount
      ensures Held() == AfterPut(old(Held()), maxsize, event, broken)
      ensures
        var taken := !broken && (maxsize <= 0 || |old(queue)| < maxsize);
        && queue == old(queue) + (if taken then [event] else [])
        && droppedCount == old(droppedCount) + if taken then 0 else 1
    {
      if broken || IsFull(maxsize, |queue|) {
        RecordDrop();
      } else {
        queue := queue + [event];
      }
    }

    /** One turn of the drain thread's loop; `alive` is false when the loop ends. It ends on the stop flag, however
        many events are queued. */
    method DrainTurn() returns (alive: bool)
      modifies this`queue, this`droppedCount, this`written
      ensures alive == !old(stopped)
      ensures hasWriter ==> Held() == AfterTurn(old(Held()))
      ensures !hasWriter && !stopped && old(queue) != [] ==>
        Held() == old(Held()).(queue := old(queue)[1..], dropped := old(droppedCount) + 1)
      ensures !hasWriter && (stopped || old(queue) == []) ==> Held() == old(Held())
    {
      if stopped {
        return false;
      }
      if queue != [] {
        var payload := queue[0];
        queue := queue[1..];
        if hasWriter {
          written := written + [payload];
        } else {
          RecordDrop();
        }
      }
      return true;
    }

    /** `stop` with time for `turns` turns of its inline drain before the deadline: the first `turns` events are
        handed to the writer in order, the rest stay queued, and the thread is let go. */
    method Stop(turns: nat)
      modifies this`queue, this`stopped, this`written, this`hasThread
      ensures Held() == AfterStop(old(Held()), turns, hasWriter) && !hasThread
    {
      StopSetsFlag(Held(), turns, hasWriter);
      stopped := true;
      DrainInline(turns);
      hasThread := false;
    }

    method DrainInline(turns: nat)
      requires stopped
      modifies this`queue, this`written
      ensures stopped && Held() == AfterStop(old(Held()), turns, hasWriter)
    {
      var left := turns;
      while left > 0 && queue != []
        invariant stopped && droppedCount == old(droppedCount)
        invariant AfterStop(Held(), left, hasWriter) == AfterStop(old(Held()), turns, hasWriter)
      {
        var payload := queue[0];
        queue := queue[1..];
        if hasWriter {
          written := written + [payload];
        }
        left := left - 1;
      }
      StopNoMore(Held(), left, hasWriter);
    }
  }
}

/**
 The bridge with everyone at work: any number of producers, the drain thread and one caller of `stop`, interleaved
 at each access to the queue, the stop flag, the drop counter and the writer. Events are known by the position in
 which they were enqueued.
 */
module BridgeRuns {
  import opened AuditBridge

  datatype DrainPc = AtCheck | AtGet | Holding(held: nat) | Exited

  /** `Left` remembers how the inline drain ended, and how many events had been enqueued by then. */
  datatype StopPc = Running | AtDeadline | Carrying(carried: nat) | Left(foundEmpty: bool, seen: nat)

  /** What there was when the stop flag was set: the events enqueued and taken so far. */
  datatype Mark = Mark(enqueued: nat, taken: nat, inGet: bool)

  datatype System = System(
    maxsize: int,
    puts: nat, uncounted: nat, dropped: nat, // put calls; failed ones not yet, and already, counted
    enqueued: seq<Event>, taken: nat,        // the queue holds enqueued[taken..]
    handed: seq<nat>,                        // the positions handed to the writer
    stopped: bool, drain: DrainPc, stop: StopPc,
    mark: Mark, turns: nat,                  // the turns of the inline drain that took an event
    late: nat, failed: bool) // since the stop flag was set: events the drain thread took, whether its get raised

  function Boot(maxsize: int): System {
    System(maxsize, 0, 0, 0, [], 0, [], false, AtCheck, Running, Mark(0, 0, false), 0, 0, false)
  }

  datatype Step =
    | Put(event: Event, broken: bool)
    | CountDrop
    | DrainCheck
    | DrainGet
    | DrainMiss  // the get timed out
    | DrainFail  // the get raised
    | DrainBreak // the queue is gone
    | DrainWrite
    | StopSet
    | StopGet
    | StopEmpty
    | StopGiveUp // deadline passed, or the queue is gone
    | StopWrite

  predicate Enabled(s: System, step: Step) {
    match step
    case Put(_, _) => true
    case CountDrop => s.uncounted > 0
    case DrainCheck => s.drain.AtCheck?
    case DrainGet => s.drain.AtGet? && s.taken < |s.enqueued|
    case DrainMiss => s.drain.AtGet? && s.taken >= |s.enqueued|
    case DrainFail => s.drain.AtGet?
    case DrainBreak => s.drain.AtGet?
    case DrainWrite => s.drain.Holding?
    case StopSet => s.stop.Running?
    case StopGet => s.stop.AtDeadline? && s.taken < |s.enqueued|
    case StopEmpty => s.stop.AtDeadline? && s.taken >= |s.enqueued|
    case StopGiveUp => s.stop.AtDeadline?
    case StopWrite => s.stop.Carrying?
  }

  function Apply(s: System, step: Step): System
    requires Enabled(s, step)
  {
    match step
    case Put(event, broken) =>
      if broken || IsFull(s.maxsize, if s.taken < |s.enqueued| then |s.enqueued| - s.taken else 0) then
        s.(puts := s.puts + 1, uncounted := s.uncounted + 1)
      else s.(puts := s.puts + 1, enqueued := s.enqueued + [event])
    case CountDrop => s.(uncounted := s.uncounted - 1, dropped := s.dropped + 1)
    case DrainCheck => s.(drain := if s.stopped then Exited else AtGet)
    case DrainGet =>
      s.(drain := Holding(s.taken), taken := s.taken + 1, late := s.late + if s.stopped then 1 else 0)
    case DrainMiss => s.(drain := AtCheck)
    case DrainFail => s.(drain := AtCheck, failed := s.stopped)
    case DrainBreak => s.(drain := Exited, failed := s.stopped)
    case DrainWrite => s.(drain := AtCheck, handed := s.handed + [s.drain.held])
    case StopSet =>
      s.(stopped := true, stop := AtDeadline, mark := Mark(|s.enqueued|, s.taken, s.drain.AtGet?), failed := false)
    case StopGet => s.(stop := Carrying(s.taken), taken := s.taken + 1, turns := s.turns + 1)
    case StopEmpty => s.(stop := Left(true, |s.enqueued|))
    case StopGiveUp => s.(stop := Left(false, |s.enqueued|))
    case StopWrite => s.(stop := AtDeadline, handed := s.handed + [s.stop.carried])
  }

  /** The system after the steps. A step that cannot be taken where the system stands changes nothing. */
  function Run(maxsize: int, steps: seq<Step>): System {
    if steps == [] then Boot(maxsize)
    else
      var s, step := Run(maxsize, steps[..|steps| - 1]), steps[|steps| - 1];
      if Enabled(s, step) then Apply(s, step) else s
  }

  // ---- The invariant ----

  /** How often position `p` was handed over or is in a consumer's hand. */
  function Times(s: System, p: nat): nat {
    multiset(s.handed)[p]
    + (if s.drain == Holding(p) then 1 else 0)
    + (if s.stop == Carrying(p) then 1 else 0)
  }

  /** 0, 1, ..., n - 1 */
  function Positions(n: nat): (ps: seq<nat>)
    ensures |ps| == n && forall i :: 0 <= i < n ==> ps[i] == i
  {
    seq(n, i => i)
  }

  predicate CountsHeld(s: System) {
    && s.puts == |s.enqueued| + s.dropped + s.uncounted
    && s.taken <= |s.enqueued|
    && (s.stopped <==> !s.stop.Running?)
    && (!s.stopped ==> s.late == s.turns == 0)
    && (s.stopped ==> s.late + (if s.drain.AtGet? then 1 else 0) <= if s.mark.inGet then 1 else 0)
    && (s.stop.Left? && s.stop.foundEmpty ==> s.stop.seen <= s.taken)
  }

  /** The balance since the stop flag was set; and a drain thread that was waiting for an event gets one, unless its get
      raises or the inline drain leaves it none. */
  predicate BalanceHeld(s: System) {
    s.stopped ==>
      && s.mark.taken <= s.mark.enqueued <= |s.enqueued|
      && s.taken == s.mark.taken + s.turns + s.late
      && (s.mark.inGet && !s.failed ==> s.drain.AtGet? || s.late == 1 || s.mark.enqueued <= s.taken)
      && (s.stop.Left? ==> s.mark.enqueued <= s.stop.seen)
  }

  /** What was taken is in a hand or handed over, once. */
  ghost predicate HandsHeld(s: System) {
    forall p: nat :: Times(s, p) == if p < s.taken then 1 else 0
  }

  /** Before the stop flag is set, events are handed over in order. */
  predicate OrderHeld(s: System) {
    !s.stopped ==>
      && s.stop.Running?
      && s.handed == Positions(|s.handed|)
      && (if s.drain.Holding? then s.drain.held == |s.handed| && s.taken == |s.handed| + 1 else s.taken == |s.handed|)
  }

  ghost predicate Inv(s: System) {
    CountsHeld(s) && BalanceHeld(s) && HandsHeld(s) && OrderHeld(s)
  }

  lemma StepKeepsCounts(s: System, step: Step)
    requires CountsHeld(s) && Enabled(s, step)
    ensures CountsHeld(Apply(s, step))
  {
  }

  lemma StepKeepsBalance(s: System, step: Step)
    requires CountsHeld(s) && BalanceHeld(s) && Enabled(s, step)
    ensures BalanceHeld(Apply(s, step))
  {
  }

  lemma StepKeepsHands(s: System, step: Step)
    requires HandsHeld(s) && Enabled(s, step)
    ensures HandsHeld(Apply(s, step))
  {
    var s' := Apply(s, step);
    forall p: nat ensures Times(s', p) == if p < s'.taken then 1 else 0 {
      assert Times(s, p) == if p < s.taken then 1 else 0;
      StepKeepsTimes(s, step, p);
    }
  }

  lemma StepKeepsTimes(s: System, step: Step, p: nat)
    requires Enabled(s, step) && Times(s, p) == if p < s.taken then 1 else 0
    ensures Times(Apply(s, step), p) == if p < Apply(s, step).taken then 1 else 0
  {
  }

  lemma StepKeepsOrder(s: System, step: Step)
    requires OrderHeld(s) && Enabled(s, step)
    ensures OrderHeld(Apply(s, step))
  {
  }

  lemma StepKeepsInv(s: System, step: Step)
    requires Inv(s) && Enabled(s, step)
    ensures Inv(Apply(s, step))
  {
    StepKeepsCounts(s, step);
    StepKeepsBalance(s, step);
    StepKeepsHands(s, step);
    StepKeepsOrder(s, step);
  }

  lemma {:induction false} RunKeepsInv(maxsize: int, steps: seq<Step>)
    ensures Inv(Run(maxsize, steps))
  {
    if steps != [] {
      var s, step := Run(maxsize, steps[..|steps| - 1]), steps[|steps| - 1];
      RunKeepsInv(maxsize, steps[..|steps| - 1]);
      if Enabled(s, step) {
        StepKeepsInv(s, step);
      }
    }
  }

  // ---- What every run shows ----

  function PutCount(steps: seq<Step>): nat {
    if steps == [] then 0 else PutCount(steps[..|steps| - 1]) + if steps[|steps| - 1].Put? then 1 else 0
  }

  lemma {:induction false} PutsAreCounted(maxsize: int, steps: seq<Step>)
    ensures Run(maxsize, steps).puts == PutCount(steps)
  {
    if steps != [] {
      PutsAreCounted(maxsize, steps[..|steps| - 1]);
    }
  }

  /** A bounded queue never holds more events than its bound. */
  lemma {:induction false} QueueIsBounded(maxsize: int, steps: seq<Step>)
    requires maxsize > 0
    ensures var s := Run(maxsize, steps); s.maxsize == maxsize && |s.enqueued| - s.taken <= maxsize
  {
    if steps != [] {
      var s, step := Run(maxsize, steps[..|steps| - 1]), steps[|steps| - 1];
      QueueIsBounded(maxsize, steps[..|steps| - 1]);
      if Enabled(s, step) {
        StepKeepsBound(s, step);
      }
    }
  }

  lemma StepKeepsBound(s: System, step: Step)
    requires s.maxsize > 0 && |s.enqueued| - s.taken <= s.maxsize && Enabled(s, step)
    ensures
      var t := Apply(s, step);
      t.maxsize == s.maxsize && |t.enqueued| - t.taken <= t.maxsize
  {
  }

  /** In every interleaving each put is either enqueued or dropped, and each drop is counted once its producer has
      left `put`. */
  lemma {:induction false} PutsAreConserved(maxsize: int, steps: seq<Step>)
    ensures
      var s := Run(maxsize, steps);
      PutCount(steps) == |s.enqueued| + s.dropped + s.uncounted
  {
    RunKeepsInv(maxsize, steps);
    PutsAreCounted(maxsize, steps);
  }

  /** Every enqueued event is handed to the writer at most once, and nothing else is; before `stop` is called the
      events are handed over in the order in which they were enqueued. */
  lemma HandedAtMostOnce(maxsize: int, steps: seq<Step>)
    ensures
      var s := Run(maxsize, steps);
      && (forall p: nat :: multiset(s.handed)[p] <= 1)
      && (forall p <- s.handed :: p < |s.enqueued|)
      && (!s.stopped ==> s.handed == Positions(|s.handed|))
  {
    RunKeepsInv(maxsize, steps);
    var s := Run(maxsize, steps);
    forall p: nat ensures multiset(s.handed)[p] <= 1 && (p in s.handed ==> p < s.taken) {
      assert Times(s, p) == if p < s.taken then 1 else 0;
    }
  }

  /** After the stop flag is set the drain thread takes at most one more event. */
  lemma DrainTakesAtMostOneLate(maxsize: int, steps: seq<Step>)
    ensures Run(maxsize, steps).late <= 1
  {
    RunKeepsInv(maxsize, steps);
  }

  predicate AllHanded(s: System) {
    forall p: nat :: p < |s.enqueued| ==> multiset(s.handed)[p] == 1
  }

  /** Nobody takes events from the queue any more. */
  predicate IsOver(s: System) {
    s.drain.Exited? && s.stop.Left?
  }

  lemma OverHandsTaken(s: System, p: nat)
    requires Inv(s) && IsOver(s)
    ensures multiset(s.handed)[p] == if p < s.taken then 1 else 0
  {
    assert Times(s, p) == if p < s.taken then 1 else 0;
  }

  /** A `stop` whose inline drain found the queue empty before its deadline, with no further put enqueued and the
      drain thread gone, leaves the queue empty and every enqueued event handed over exactly once. */
  lemma CleanStopHandsAll(maxsize: int, steps: seq<Step>)
    requires IsOver(Run(maxsize, steps))
    requires Run(maxsize, steps).stop.foundEmpty && Run(maxsize, steps).stop.seen == |Run(maxsize, steps).enqueued|
    ensures Run(maxsize, steps).taken == |Run(maxsize, steps).enqueued| && AllHanded(Run(maxsize, steps))
  {
    RunKeepsInv(maxsize, steps);
    var s := Run(maxsize, steps);
    forall p: nat | p < |s.enqueued| ensures multiset(s.handed)[p] == 1 {
      OverHandsTaken(s, p);
    }
  }

  lemma AllHandedIffQueueEmpty(s: System)
    requires Inv(s) && IsOver(s)
    ensures AllHanded(s) <==> s.taken == |s.enqueued|
  {
    if s.taken < |s.enqueued| {
      OverHandsTaken(s, s.taken);
    } else {
      forall p: nat | p < |s.enqueued| ensures multiset(s.handed)[p] == 1 {
        OverHandsTaken(s, p);
      }
    }
  }

  /** An event enqueued before a `stop` without time to drain is left behind by both. */
  lemma StopCanLoseEvents(maxsize: int, event: Event)
    requires !IsFull(maxsize, 0)
    ensures
      var s := Run(maxsize, [Put(event, false), StopSet, StopGiveUp, DrainCheck]);
      IsOver(s) && s.enqueued == [event] && s.handed == []
  {
    var put := Put(event, false);
    RunNext(maxsize, [], put);
    RunNext(maxsize, [put], StopSet);
    RunNext(maxsize, [put, StopSet], StopGiveUp);
    RunNext(maxsize, [put, StopSet, StopGiveUp], DrainCheck);
    assert [] + [put] == [put] && [put] + [StopSet] == [put, StopSet];
    assert [put, StopSet] + [StopGiveUp] == [put, StopSet, StopGiveUp];
    assert [put, StopSet, StopGiveUp] + [DrainCheck] == [put, StopSet, StopGiveUp, DrainCheck];
    assert Run(maxsize, [put]) == Boot(maxsize).(puts := 1, enqueued := [event]);
  }

  lemma RunNext(maxsize: int, steps: seq<Step>, step: Step)
    ensures
      var s := Run(maxsize, steps);
      Run(maxsize, steps + [step]) == if Enabled(s, step) then Apply(s, step) else s
  {
  }

  // ---- When stop hands everything over ----

  function Then(s: System, step: Step): System {
    if Enabled(s, step) then Apply(s, step) else s
  }

  /** The system after more steps. */
  function After(s: System, steps: seq<Step>): System
    decreases |steps|
  {
    if steps == [] then s else After(Then(s, steps[0]), steps[1..])
  }

  lemma {:induction false} AfterIsRun(maxsize: int, steps: seq<Step>, more: seq<Step>)
    ensures After(Run(maxsize, steps), more) == Run(maxsize, steps + more)
    decreases |more|
  {
    if more == [] {
      assert steps + [] == steps;
    } else {
      RunNext(maxsize, steps, more[0]);
      AfterIsRun(maxsize, steps + [more[0]], more[1..]);
      assert steps + [more[0]] + more[1..] == steps + more;
    }
  }

  lemma {:induction false} AfterKeepsInv(s: System, steps: seq<Step>)
    requires Inv(s)
    ensures Inv(After(s, steps))
    decreases |steps|
  {
    if steps != [] {
      if Enabled(s, steps[0]) {
        StepKeepsInv(s, steps[0]);
      }
      AfterKeepsInv(Then(s, steps[0]), steps[1..]);
    }
  }

  lemma {:induction false} AfterBoth(s: System, a: seq<Step>, b: seq<Step>)
    ensures After(s, a + b) == After(After(s, a), b)
    decreases |a|
  {
    if a == [] {
      assert a + b == b;
    } else {
      AfterBoth(Then(s, a[0]), a[1..], b);
      assert (a + b)[0] == a[0] && (a + b)[1..] == a[1..] + b;
    }
  }

  /** The mark and the flag, once set, stay. */
  lemma {:induction false} AfterKeepsMark(s: System, steps: seq<Step>)
    requires s.stopped && !s.stop.Running?
    ensures After(s, steps).stopped && !After(s, steps).stop.Running? && After(s, steps).mark == s.mark
    decreases |steps|
  {
    if steps != [] {
      AfterKeepsMark(Then(s, steps[0]), steps[1..]);
    }
  }

  /** The inline drain took `turns` events before it gave up, or had time to see the queue empty. */
  predicate HadTime(s: System, turns: nat) {
    s.stop.Left? && (s.stop.foundEmpty || s.turns >= turns)
  }

  /** Both drains are done, and nothing was enqueued since the stop flag was set. */
  predicate IsSettled(s: System) {
    IsOver(s) && |s.enqueued| == s.mark.enqueued
  }

  /** A run in which `stop`, called where `s` stands, has time for `turns` turns; `failing` allows the drain thread's
      last get to raise. */
  predicate IsStopRun(s: System, steps: seq<Step>, turns: nat, failing: bool) {
    var t := After(Then(s, StopSet), steps);
    IsSettled(t) && HadTime(t, turns) && (failing || !t.failed)
  }

  ghost predicate StopHandsAll(s: System, steps: seq<Step>) {
    AllHanded(After(Then(s, StopSet), steps))
  }

  /** The turns the inline drain is spared: one, if the drain thread is waiting for an event and sure to get it. */
  function Spared(s: System, failing: bool): nat {
    if s.drain.AtGet? && !failing then 1 else 0
  }

  lemma EnoughTurnsHandAll(s: System, steps: seq<Step>, turns: nat, failing: bool)
    requires Inv(s) && s.stop.Running? && IsStopRun(s, steps, turns, failing)
    requires turns + Spared(s, failing) >= |s.enqueued| - s.taken
    ensures StopHandsAll(s, steps)
  {
    StepKeepsInv(s, StopSet);
    AfterKeepsInv(Then(s, StopSet), steps);
    AfterKeepsMark(Then(s, StopSet), steps);
    AllHandedIffQueueEmpty(After(Then(s, StopSet), steps));
  }

  /** `turns` turns of the inline drain. */
  function Turns(turns: nat): seq<Step> {
    if turns == 0 then [] else [StopGet, StopWrite] + Turns(turns - 1)
  }

  lemma {:induction false} TurnsTake(s: System, turns: nat)
    requires s.stop.AtDeadline? && s.taken + turns <= |s.enqueued|
    ensures
      var t := After(s, Turns(turns));
      t == s.(taken := s.taken + turns, turns := s.turns + turns, handed := t.handed)
    decreases turns
  {
    if turns > 0 {
      var next := Then(Then(s, StopGet), StopWrite);
      assert After(s, Turns(turns)) == After(next, Turns(turns - 1)) by {
        AfterBoth(s, [StopGet, StopWrite], Turns(turns - 1));
        assert [StopGet, StopWrite][1..] == [StopWrite] && [StopWrite][1..] == [];
      }
      TurnsTake(next, turns - 1);
    }
  }

  /** How the drain thread ends once the flag is set. */
  function DrainEnds(failing: bool): seq<Step> {
    [StopGiveUp, if failing then DrainFail else DrainGet, DrainWrite, DrainCheck]
  }

  lemma EndsAfter(s: System, failing: bool)
    requires s.stop.AtDeadline? && s.stopped && s.taken < |s.enqueued| && !s.failed
    ensures
      var t := After(s, DrainEnds(failing));
      && IsOver(t) && t.enqueued == s.enqueued && t.turns == s.turns && t.mark == s.mark
      && t.taken == s.taken + (if s.drain.AtGet? && !failing then 1 else 0) && (failing || !t.failed)
  {
    var ends := DrainEnds(failing);
    var a := Then(s, ends[0]);
    var b := Then(a, ends[1]);
    var c := Then(b, ends[2]);
    assert ends[1..][1..][1..][1..] == [];
    assert After(s, ends) == After(a, ends[1..]) == After(b, ends[1..][1..]);
    assert After(b, ends[1..][1..]) == After(c, ends[1..][1..][1..]) == Then(c, ends[3]);
  }

  /** With too little time, the inline drain leaves more behind than the drain thread takes. */
  lemma TooFewTurnsLose(s: System, turns: nat, failing: bool) returns (steps: seq<Step>)
    requires Inv(s) && s.stop.Running? && turns + Spared(s, failing) < |s.enqueued| - s.taken
    ensures IsStopRun(s, steps, turns, failing) && !StopHandsAll(s, steps)
  {
    var a := Then(s, StopSet);
    var b := After(a, Turns(turns));
    steps := Turns(turns) + DrainEnds(failing);
    TurnsTake(a, turns);
    EndsAfter(b, failing);
    AfterBoth(a, Turns(turns), DrainEnds(failing));
    StepKeepsInv(s, StopSet);
    AfterKeepsInv(a, steps);
    AllHandedIffQueueEmpty(After(a, steps));
  }

  /** `stop` promises that the drain thread picks up what the inline drain misses. It picks up at most one event.
      Wherever the system stands when `stop` is called: every run in which the inline drain has time for `turns`
      turns, and nothing is enqueued meanwhile, hands all events over, if and only if `turns` is at least the number
      of events queued at the call, less one if the drain thread is waiting in its get just then and the get does
      not raise. */
  lemma StopHandsAllIff(maxsize: int, before: seq<Step>, turns: nat, failing: bool)
    requires Run(maxsize, before).stop.Running?
    ensures
      var s := Run(maxsize, before);
      (forall steps :: IsStopRun(s, steps, turns, failing) ==> StopHandsAll(s, steps))
      <==> turns + Spared(s, failing) >= |s.enqueued| - s.taken
  {
    var s := Run(maxsize, before);
    RunKeepsInv(maxsize, before);
    if turns + Spared(s, failing) >= |s.enqueued| - s.taken {
      forall steps | IsStopRun(s, steps, turns, failing) ensures StopHandsAll(s, steps) {
        EnoughTurnsHandAll(s, steps, turns, failing);
      }
    } else {
      var steps := TooFewTurnsLose(s, turns, failing);
    }
  }

  /** The same for any run that is over, whatever was enqueued meanwhile: all events were handed over exactly when the
      inline drain and the drain thread took as many as were queued at the call and enqueued since; without a get in
      progress at the call, the inline drain had to take them all. */
  lemma StopBalance(maxsize: int, steps: seq<Step>)
    requires IsOver(Run(maxsize, steps))
    ensures
      var s := Run(maxsize, steps);
      var total := |s.enqueued| - s.mark.taken;
      && (AllHanded(s) <==> s.turns + s.late == total)
      && (!s.mark.inGet ==> (AllHanded(s) <==> s.turns >= total))
      && (s.turns >= total ==> AllHanded(s))
      && (s.turns + 1 < total ==> !AllHanded(s))
  {
    RunKeepsInv(maxsize, steps);
    AllHandedIffQueueEmpty(Run(maxsize, steps));
  }

  // ---- Undisturbed, the steps are the methods ----

  /** The positions handed over are positions of enqueued events. */
  predicate IsReachable(s: System) {
    s.taken <= |s.enqueued| && forall i :: 0 <= i < |s.handed| ==> s.handed[i] < |s.enqueued|
  }

  function Written(s: System): (w: seq<Event>)
    requires IsReachable(s)
    ensures |w| == |s.handed|
  {
    seq(|s.handed|, i requires 0 <= i < |s.handed| => s.enqueued[s.handed[i]])
  }

  function Picture(s: System): View
    requires IsReachable(s)
  {
    View(s.enqueued[s.taken..], s.stopped, s.dropped, Written(s))
  }

  /** Every run has a picture. */
  lemma RunsAreReachable(maxsize: int, steps: seq<Step>)
    ensures IsReachable(Run(maxsize, steps))
  {
    RunKeepsInv(maxsize, steps);
    HandedAtMostOnce(maxsize, steps);
    var s := Run(maxsize, steps);
    forall i | 0 <= i < |s.handed| ensures s.handed[i] < |s.enqueued| {
      assert s.handed[i] in s.handed;
    }
  }

  /** A producer that is not interrupted does what `put` does. */
  lemma PutIsAtomic(s: System, event: Event, broken: bool)
    requires IsReachable(s)
    ensures
      var failed := Then(s, Put(event, broken)).uncounted > s.uncounted;
      var t := if failed then Then(Then(s, Put(event, broken)), CountDrop) else Then(s, Put(event, broken));
      IsReachable(t) && t.uncounted == s.uncounted && Picture(t) == AfterPut(Picture(s), s.maxsize, event, broken)
  {
    var t := Then(s, Put(event, broken));
    if t.uncounted == s.uncounted {
      assert t.enqueued[t.taken..] == s.enqueued[s.taken..] + [event];
      assert Written(t) == Written(s);
    }
  }

  /** A turn of the drain thread that is not interrupted does what the method does; a get that times out finds the
      queue empty. */
  lemma TurnIsAtomic(s: System)
    requires IsReachable(s) && s.drain.AtCheck?
    ensures
      var a := Then(s, DrainCheck);
      var t := if s.taken < |s.enqueued| then Then(Then(a, DrainGet), DrainWrite) else Then(a, DrainMiss);
      && IsReachable(t) && Picture(t) == AfterTurn(Picture(s))
      && t.drain == if s.stopped then Exited else AtCheck
  {
    var a := Then(s, DrainCheck);
    if !s.stopped && s.taken < |s.enqueued| {
      HandOver(s, Then(Then(a, DrainGet), DrainWrite));
    }
  }

  /** One more event has left the queue for the writer. */
  lemma HandOver(s: System, t: System)
    requires IsReachable(s) && s.taken < |s.enqueued|
    requires t.enqueued == s.enqueued && t.taken == s.taken + 1 && t.handed == s.handed + [s.taken]
    ensures IsReachable(t)
    ensures t.enqueued[t.taken..] == s.enqueued[s.taken..][1..]
    ensures Written(t) == Written(s) + [s.enqueued[s.taken..][0]]
  {
  }

  /** `turns` turns of the inline drain. */
  function Drained(s: System, turns: nat): System
    decreases turns
  {
    if turns == 0 || s.taken >= |s.enqueued| then s
    else Drained(Then(Then(s, StopGet), StopWrite), turns - 1)
  }

  lemma {:induction false} DrainedHandsOver(s: System, turns: nat)
    requires IsReachable(s) && s.stop.AtDeadline? && s.stopped
    ensures
      var t := Drained(s, turns);
      IsReachable(t) && t.stop.AtDeadline? && Picture(t) == AfterStop(Picture(s), turns, true)
    decreases turns
  {
    if turns > 0 && s.taken < |s.enqueued| {
      var next := Then(Then(s, StopGet), StopWrite);
      HandOver(s, next);
      StopNext(Picture(s), turns);
      DrainedHandsOver(next, turns - 1);
    } else {
      StopNoMore(Picture(s), turns, true);
    }
  }

  /** A `stop` that is not interrupted does what the method does. */
  lemma StopIsAtomic(s: System, turns: nat)
    requires IsReachable(s) && s.stop.Running?
    ensures
      var t := Drained(Then(s, StopSet), turns);
      IsReachable(t) && t.stop.AtDeadline? && Picture(t) == AfterStop(Picture(s), turns, true)
  {
    DrainedHandsOver(Then(s, StopSet), turns);
  }
}
