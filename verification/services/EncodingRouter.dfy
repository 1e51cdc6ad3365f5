/**
 The router that sends texts to the GPU or the CPU. Every `with self._lock` section is one step on the shared
 state; `EncodingRouter` makes these steps in place.
 */
module EncodingRouter {

  datatype Channel = Unknown | Cpu | Gpu

  datatype Reason = SelfCheckPass | SelfCheckFail | Unavailable | EncodeError

  /** A `channel_switched` audit event. */
  datatype Event = Event(from: Channel, to: Channel, reason: Reason)

  /** The router's state with the events it has emitted. */
  datatype State = State(channel: Channel, attempted: bool, switches: map<Reason, nat>, log: seq<Event>)

  /** How an encode on the GPU would end. */
  datatype GpuOutcome = Succeeds | RaisesUnavailable | RaisesOther

  function ReasonOf(outcome: GpuOutcome): Reason
    requires !outcome.Succeeds?
  {
    if outcome.RaisesUnavailable? then Unavailable else EncodeError
  }

  const START := State(Unknown, false, map[], [])

  function Count(switches: map<Reason, nat>, reason: Reason): nat {
    if reason in switches then switches[reason] else 0
  }

  // ---- The lock-protected sections as steps ----

  function Recorded(s: State, from: Channel, to: Channel, reason: Reason): State {
    s.(channel := to,
       switches := s.switches[reason := Count(s.switches, reason) + 1],
       log := s.log + [Event(from, to, reason)])
  }

  /** The section that claims the registration. */
  function Claimed(s: State): State {
    s.(attempted := true)
  }

  /** The section that takes the outcome of the self-check. */
  function Registered(s: State, passed: bool): State {
    var to := if passed then Gpu else Cpu;
    if s.channel.Unknown? || s.channel != to then
      Recorded(s, s.channel, to, if passed then SelfCheckPass else SelfCheckFail)
    else s.(channel := to)
  }

  /** The section that falls back to `to`, naming `from` as the channel left. */
  function Switched(s: State, from: Channel, to: Channel, reason: Reason): State {
    if s.channel != to then Recorded(s, from, to, reason) else s
  }

  function Cleared(s: State): State {
    s.(attempted := false)
  }

  // ---- The class ----

  class Router {
    var currentChannel: Channel
    var registrationAttempted: bool
    var switchCountByReason: map<Reason, nat>
    var emitted: seq<Event>
    const maxQueueDepthForGpu: int

    ghost function View(): State
      reads this
    {
      State(currentChannel, registrationAttempted, switchCountByReason, emitted)
    }

    constructor (maxQueueDepthForGpu: int)
      ensures View() == START && this.maxQueueDepthForGpu == maxQueueDepthForGpu
    {
      this.maxQueueDepthForGpu := maxQueueDepthForGpu;
      currentChannel, registrationAttempted, switchCountByReason, emitted := Unknown, false, map[], [];
    }

    method RecordTransition(from: Channel, to: Channel, reason: Reason)
      modifies this
      ensures View() == Recorded(old(View()), from, to, reason)
    {
      currentChannel := to;
      switchCountByReason := switchCountByReason[reason := Count(switchCountByReason, reason) + 1];
      emitted := emitted + [Event(from, to, reason)];
    }

    /** `proceed` tells the caller to run the self-check; otherwise `isGpu` is the answer. */
    method ClaimRegistration() returns (proceed: bool, isGpu: bool)
      modifies this
      ensures proceed == !old(View()).attempted && isGpu == old(View()).channel.Gpu?
      ensures View() == Claimed(old(View()))
    {
      proceed, isGpu := !registrationAttempted, currentChannel.Gpu?;
      if proceed {
        registrationAttempted := true;
      }
    }

    method FinishRegistration(passed: bool)
      modifies this
      ensures View() == Registered(old(View()), passed)
    {
      var newChannel := if passed then Gpu else Cpu;
      var oldChannel := currentChannel;
      currentChannel := newChannel;
      if oldChannel == Unknown || oldChannel != newChannel {
        RecordTransition(oldChannel, newChannel, if passed then SelfCheckPass else SelfCheckFail);
      }
    }

    method Transition(from: Channel, to: Channel, reason: Reason)
      modifies this
      ensures View() == Switched(old(View()), from, to, reason)
    {
      if currentChannel != to {
        RecordTransition(from, to, reason);
      }
    }

    method ClearRegistration()
      modifies this
      ensures View() == Cleared(old(View()))
    {
      registrationAttempted := false;
    }

    /** `try_register_gpu` run without interruption; `selfCheck` is what the self-check would return. It keeps the
        first outcome: once a registration was attempted it changes nothing. */
    method TryRegisterGpu(selfCheck: bool) returns (isGpu: bool)
      modifies this
      ensures isGpu == View().channel.Gpu?
      ensures old(View()).attempted ==> View() == old(View())
      ensures !old(View()).attempted ==> View() == Registered(Claimed(old(View())), selfCheck) && isGpu == selfCheck
    {
      var proceed: bool;
      proceed, isGpu := ClaimRegistration();
      if proceed {
        FinishRegistration(selfCheck);
        isGpu := selfCheck;
      }
    }

    method ForceReRegisterGpu(selfCheck: bool) returns (isGpu: bool)
      modifies this
      ensures isGpu == View().channel.Gpu? == selfCheck
      ensures View() == Registered(Claimed(old(View())), selfCheck)
      ensures emitted == old(emitted)
        + if old(currentChannel) == currentChannel then []
          else [Event(old(currentChannel), currentChannel, if selfCheck then SelfCheckPass else SelfCheckFail)]
    {
      ClearRegistration();
      isGpu := TryRegisterGpu(selfCheck);
    }

    /** `route` run without interruption, for a GPU encoder that would end in `outcome`. The texts are encoded on the
        GPU exactly when it is registered, not overloaded, and does not raise. */
    method Route(depth: int, outcome: GpuOutcome) returns (onGpu: bool)
      modifies this
      ensures onGpu <==> old(View()).channel.Gpu? && depth <= maxQueueDepthForGpu && outcome.Succeeds?
      ensures View() ==
        if old(View()).channel.Gpu? && depth <= maxQueueDepthForGpu && !outcome.Succeeds? then
          Recorded(old(View()), Gpu, Cpu, ReasonOf(outcome))
        else old(View())
      ensures emitted == old(emitted)
        + if old(currentChannel).Gpu? && depth <= maxQueueDepthForGpu && !outcome.Succeeds? then
            [Event(Gpu, Cpu, if outcome.RaisesUnavailable? then Unavailable else EncodeError)]
          else []
    {
      var channel := currentChannel;
      if channel == Gpu && depth > maxQueueDepthForGpu {
        return false;
      }
      if channel == Gpu {
        if outcome == Succeeds {
          return true;
        }
        Transition(Gpu, Cpu, ReasonOf(outcome));
      }
      return false;
    }
  }
}

/**
 Any number of threads running the router's methods, interleaved section by section, with the self-checks and the
 encodes happening between the sections.
 */
module RouterRuns {
  import opened EncodingRouter

  /** Where a thread stands. Self-checks are numbered from 1 in the order in which they begin. */
  datatype Pc = Idle | Reregistering | Checking(began: nat) | OnGpu

  /** `finished` holds the numbers of the self-checks whose outcome was taken, in that order. */
  datatype System = System(router: State, pcs: map<nat, Pc>, checks: nat, forced: nat, finished: seq<nat>)

  const BOOT := System(START, map[], 0, 0, [])

  datatype Step =
    | Claim(t: nat) // enter try_register_gpu, from outside or from force_re_register_gpu
    | CheckDone(t: nat, passed: bool)
    | CheckRaised(t: nat)
    | Clear(t: nat) // enter force_re_register_gpu
    | Snapshot(t: nat, overloaded: bool) // enter route
    | Encoded(t: nat)
    | EncodeRaised(t: nat, outcome: GpuOutcome)

  function PcOf(s: System, t: nat): Pc {
    if t in s.pcs then s.pcs[t] else Idle
  }

  predicate Enabled(s: System, step: Step) {
    match step
    case Claim(t) => PcOf(s, t).Idle? || PcOf(s, t).Reregistering?
    case CheckDone(t, _) => PcOf(s, t).Checking?
    case CheckRaised(t) => PcOf(s, t).Checking?
    case Clear(t) => PcOf(s, t).Idle?
    case Snapshot(t, _) => PcOf(s, t).Idle?
    case Encoded(t) => PcOf(s, t).OnGpu?
    case EncodeRaised(t, outcome) => PcOf(s, t).OnGpu? && !outcome.Succeeds?
  }

  function At(s: System, t: nat, pc: Pc): System {
    s.(pcs := s.pcs[t := pc])
  }

  function Apply(s: System, step: Step): System
    requires Enabled(s, step)
  {
    match step
    case Claim(t) =>
      if s.router.attempted then At(s, t, Idle)
      else At(s, t, Checking(s.checks + 1)).(router := Claimed(s.router), checks := s.checks + 1)
    case CheckDone(t, passed) =>
      At(s, t, Idle).(router := Registered(s.router, passed), finished := s.finished + [PcOf(s, t).began])
    case CheckRaised(t) => At(s, t, Idle)
    case Clear(t) => At(s, t, Reregistering).(router := Cleared(s.router), forced := s.forced + 1)
    case Snapshot(t, overloaded) => At(s, t, if s.router.channel.Gpu? && !overloaded then OnGpu else Idle)
    case Encoded(t) => At(s, t, Idle)
    case EncodeRaised(t, outcome) => At(s, t, Idle).(router := Switched(s.router, Gpu, Cpu, ReasonOf(outcome)))
  }

  /** The system after the steps. A step that its thread cannot take where it stands changes nothing. */
  function Run(steps: seq<Step>): System {
    if steps == [] then BOOT
    else
      var s, step := Run(steps[..|steps| - 1]), steps[|steps| - 1];
      if Enabled(s, step) then Apply(s, step) else s
  }

  // ---- The event chain ----

  /** The channel reached after the first `n` events. */
  function ChannelAfter(log: seq<Event>, n: nat): Channel
    requires n <= |log|
  {
    if n == 0 then Unknown else log[n - 1].to
  }

  predicate IsChain(log: seq<Event>) {
    forall i :: 0 <= i < |log| ==>
      && log[i].from == ChannelAfter(log, i)
      && log[i].from != log[i].to
      && !log[i].to.Unknown?
      && (log[i].to.Gpu? <==> log[i].reason.SelfCheckPass?)
  }

  function Occurrences(log: seq<Event>, reason: Reason): nat {
    if log == [] then 0
    else Occurrences(log[..|log| - 1], reason) + if log[|log| - 1].reason == reason then 1 else 0
  }

  ghost predicate Inv(s: System) {
    && IsChain(s.router.log)
    && s.router.channel == ChannelAfter(s.router.log, |s.router.log|)
    && (forall t :: PcOf(s, t).OnGpu? ==> !s.router.channel.Unknown?)
    && (forall r :: Count(s.router.switches, r) == Occurrences(s.router.log, r))
    && s.checks + (if s.router.attempted then 0 else 1) <= 1 + s.forced
  }

  lemma ChainGrows(s: State, to: Channel, reason: Reason)
    requires IsChain(s.log) && s.channel == ChannelAfter(s.log, |s.log|)
    requires s.channel != to && !to.Unknown? && (to.Gpu? <==> reason.SelfCheckPass?)
    ensures IsChain(Recorded(s, s.channel, to, reason).log)
  {
    var log := Recorded(s, s.channel, to, reason).log;
    forall i | 0 <= i < |log| ensures log[i].from == ChannelAfter(log, i) {
      assert i < |s.log| ==> log[i] == s.log[i] && ChannelAfter(log, i) == ChannelAfter(s.log, i);
    }
  }

  lemma CountsGrow(s: State, to: Channel, reason: Reason)
    requires forall r :: Count(s.switches, r) == Occurrences(s.log, r)
    ensures var s' := Recorded(s, s.channel, to, reason); forall r :: Count(s'.switches, r) == Occurrences(s'.log, r)
  {
  }

  /** Every step of every thread keeps the invariant; in particular the channel `route` names as left is the
      channel it leaves. */
  lemma StepKeepsInv(s: System, step: Step)
    requires Inv(s) && Enabled(s, step)
    ensures Inv(Apply(s, step))
  {
    var s' := Apply(s, step);
    forall t | PcOf(s', t).OnGpu? ensures !s'.router.channel.Unknown? {
      assert PcOf(s, t).OnGpu? || step.Snapshot?;
    }
    match step {
      case CheckDone(t, passed) =>
        var to := if passed then Gpu else Cpu;
        if s.router.channel != to {
          var reason := if passed then SelfCheckPass else SelfCheckFail;
          ChainGrows(s.router, to, reason);
          CountsGrow(s.router, to, reason);
        }
      case EncodeRaised(t, outcome) =>
        var reason := ReasonOf(outcome);
        if s.router.channel != Cpu {
          assert s.router.channel == Gpu;
          ChainGrows(s.router, Cpu, reason);
          CountsGrow(s.router, Cpu, reason);
        }
      case _ =>
    }
  }

  lemma {:induction false} RunKeepsInv(steps: seq<Step>)
    ensures Inv(Run(steps))
  {
    if steps != [] {
      var s, step := Run(steps[..|steps| - 1]), steps[|steps| - 1];
      RunKeepsInv(steps[..|steps| - 1]);
      if Enabled(s, step) {
        StepKeepsInv(s, step);
      }
    }
  }

  // ---- What every run shows ----

  /** What each step logs: a self-check that changes the channel is logged as passed or failed, an encode that raises
      while the channel is the GPU as unavailable or as an error, and nothing else is logged. Only these steps change
      the channel. */
  lemma StepEvents(s: System, step: Step)
    requires Inv(s) && Enabled(s, step)
    ensures
      var before, after := s.router, Apply(s, step).router;
      if step.CheckDone? then
        && after.channel == (if step.passed then Gpu else Cpu)
        && after.log == before.log
           + if before.channel == after.channel then []
             else [Event(before.channel, after.channel, if step.passed then SelfCheckPass else SelfCheckFail)]
      else if step.EncodeRaised? then
        && after.channel == Cpu
        && after.log == before.log
           + if before.channel == Cpu then []
             else [Event(Gpu, Cpu, if step.outcome.RaisesUnavailable? then Unavailable else EncodeError)]
      else after.channel == before.channel && after.log == before.log
  {
  }

  /** A thread that is not interrupted in `route` does what the method does. */
  lemma RouteIsAtomic(s: System, t: nat, overloaded: bool, outcome: GpuOutcome)
    requires PcOf(s, t).Idle?
    ensures
      var begun := Apply(s, Snapshot(t, overloaded));
      && begun.router == s.router
      && (PcOf(begun, t).OnGpu? <==> s.router.channel.Gpu? && !overloaded)
      && (PcOf(begun, t).OnGpu? && outcome.Succeeds? ==> Apply(begun, Encoded(t)).router == s.router)
      && (PcOf(begun, t).OnGpu? && !outcome.Succeeds? ==>
            Apply(begun, EncodeRaised(t, outcome)).router == Recorded(s.router, Gpu, Cpu, ReasonOf(outcome)))
  {
  }

  /** A thread that is not interrupted in `try_register_gpu` does what the method does. */
  lemma RegistrationIsAtomic(s: System, t: nat, passed: bool)
    requires PcOf(s, t).Idle? || PcOf(s, t).Reregistering?
    ensures
      var begun := Apply(s, Claim(t));
      && (PcOf(begun, t).Checking? <==> !s.router.attempted)
      && (s.router.attempted ==> begun.router == s.router && PcOf(begun, t).Idle?)
      && (!s.router.attempted ==> Apply(begun, CheckDone(t, passed)).router == Registered(Claimed(s.router), passed))
  {
  }

  /** The run's events are those of its steps, in order: each event was logged by one step, with the reason of that
      step. */
  lemma {:induction false} EventHasStep(steps: seq<Step>, i: nat) returns (n: nat)
    requires i < |Run(steps).router.log|
    ensures n < |steps| && Enabled(Run(steps[..n]), steps[n]) && |Run(steps[..n]).router.log| == i
    ensures
      var reason, step := Run(steps).router.log[i].reason, steps[n];
      && (reason.SelfCheckPass? ==> step.CheckDone? && step.passed)
      && (reason.SelfCheckFail? ==> step.CheckDone? && !step.passed)
      && (reason.Unavailable? ==> step.EncodeRaised? && step.outcome.RaisesUnavailable?)
      && (reason.EncodeError? ==> step.EncodeRaised? && step.outcome.RaisesOther?)
  {
    n := |steps| - 1;
    var s, step := Run(steps[..n]), steps[n];
    RunKeepsInv(steps[..n]);
    if Enabled(s, step) {
      StepEvents(s, step);
    }
    if i < |s.router.log| {
      var m := EventHasStep(steps[..n], i);
      assert steps[..n][..m] == steps[..m];
      n := m;
    }
  }

  /** In every interleaving the events form a chain: the first leaves "unknown", each leaves the channel the one
      before reached, none stays where it is, and the current channel is the last one reached. */
  lemma EventsFormChain(steps: seq<Step>)
    ensures
      var r := Run(steps).router;
      && (forall i :: 0 <= i < |r.log| ==> r.log[i].from != r.log[i].to)
      && (forall i :: 0 < i < |r.log| ==> r.log[i].from == r.log[i - 1].to)
      && (r.log != [] ==> r.log[0].from.Unknown? && r.channel == r.log[|r.log| - 1].to)
      && (r.log == [] ==> r.channel.Unknown?)
  {
    RunKeepsInv(steps);
    var log := Run(steps).router.log;
    forall i | 0 < i < |log| ensures log[i].from == log[i - 1].to {
      assert log[i].from == ChannelAfter(log, i);
    }
  }

  predicate IsFallback(e: Event) {
    e.from.Gpu? && e.to.Cpu?
  }

  lemma ChainNeverFlaps(log: seq<Event>, i: nat, j: nat)
    requires IsChain(log) && i < j < |log| && IsFallback(log[i]) && IsFallback(log[j])
    ensures i < j - 1 && log[j - 1].reason.SelfCheckPass?
  {
  }

  /** Fallback never flaps: between two fallbacks lies an event of a passed self-check. */
  lemma NoFlapping(steps: seq<Step>, i: nat, j: nat)
    requires i < j < |Run(steps).router.log|
    requires IsFallback(Run(steps).router.log[i]) && IsFallback(Run(steps).router.log[j])
    ensures exists k :: i < k < j && Run(steps).router.log[k].reason.SelfCheckPass?
  {
    RunKeepsInv(steps);
    ChainNeverFlaps(Run(steps).router.log, i, j);
  }

  /** Passed self-checks and failures alternate: after the first event, each event undoes the one before. */
  lemma EventsAlternate(steps: seq<Step>, i: nat)
    requires 0 < i < |Run(steps).router.log|
    ensures Run(steps).router.log[i].reason.SelfCheckPass? <==> !Run(steps).router.log[i - 1].reason.SelfCheckPass?
  {
    RunKeepsInv(steps);
    var log := Run(steps).router.log;
    assert log[i].from == ChannelAfter(log, i);
    assert IsChain(log) && log[i - 1].from != log[i - 1].to;
  }

  lemma {:induction false} OccurrencesSum(log: seq<Event>)
    ensures Occurrences(log, SelfCheckPass) + Occurrences(log, SelfCheckFail)
      + Occurrences(log, Unavailable) + Occurrences(log, EncodeError) == |log|
  {
    if log != [] {
      OccurrencesSum(log[..|log| - 1]);
    }
  }

  /** The switch counts by reason count the events with that reason, and sum to the number of transitions. */
  lemma {:induction false} SwitchCountsAreExact(steps: seq<Step>)
    ensures
      var r := Run(steps).router;
      && (forall reason :: Count(r.switches, reason) == Occurrences(r.log, reason))
      && Count(r.switches, SelfCheckPass) + Count(r.switches, SelfCheckFail)
       + Count(r.switches, Unavailable) + Count(r.switches, EncodeError) == |r.log|
  {
    RunKeepsInv(steps);
    OccurrencesSum(Run(steps).router.log);
  }

  /** The expensive self-check is begun at most once, and once more for every forced re-registration. */
  lemma SelfChecksAreBounded(steps: seq<Step>)
    ensures Run(steps).checks <= 1 + Run(steps).forced
  {
    RunKeepsInv(steps);
  }

  // ---- When self-checks are kept apart ----

  predicate IsCheckedBy(s: System, t: nat) {
    PcOf(s, t).Checking?
  }

  ghost predicate AtMostOneCheck(s: System) {
    forall t, u :: IsCheckedBy(s, t) && IsCheckedBy(s, u) ==> t == u
  }

  /** Outcomes are taken in the order in which their self-checks began: no older one overwrites a newer one. */
  predicate AreInOrder(finished: seq<nat>) {
    forall i, j :: 0 <= i < j < |finished| ==> finished[i] < finished[j]
  }

  predicate HasNoRepeats(finished: seq<nat>) {
    forall i, j :: 0 <= i < j < |finished| ==> finished[i] != finished[j]
  }

  /** Every self-check has its own number, whether it is running or finished. */
  ghost predicate NumbersHeld(s: System) {
    && (forall t :: IsCheckedBy(s, t) ==> 1 <= PcOf(s, t).began <= s.checks && PcOf(s, t).began !in s.finished)
    && (forall t, u :: IsCheckedBy(s, t) && IsCheckedBy(s, u) && PcOf(s, t).began == PcOf(s, u).began ==> t == u)
    && (forall n <- s.finished :: 1 <= n <= s.checks)
    && HasNoRepeats(s.finished)
  }

  lemma StepKeepsNumbers(s: System, step: Step)
    requires NumbersHeld(s) && Enabled(s, step)
    ensures NumbersHeld(Apply(s, step))
  {
    var s' := Apply(s, step);
    forall t | IsCheckedBy(s', t) ensures IsCheckedBy(s, t) || (step == Claim(t) && PcOf(s', t).began == s.checks + 1) {
    }
  }

  lemma {:induction false} RunKeepsNumbers(steps: seq<Step>)
    ensures NumbersHeld(Run(steps))
  {
    if steps != [] {
      var s, step := Run(steps[..|steps| - 1]), steps[|steps| - 1];
      RunKeepsNumbers(steps[..|steps| - 1]);
      if Enabled(s, step) {
        StepKeepsNumbers(s, step);
      }
    }
  }

  /** The `i`-th step enters `force_re_register_gpu` while some self-check is running. */
  ghost predicate ClearsDuringCheck(steps: seq<Step>, i: nat)
    requires i < |steps|
  {
    steps[i].Clear? && Enabled(Run(steps[..i]), steps[i]) && exists u :: IsCheckedBy(Run(steps[..i]), u)
  }

  /** Nobody clears the registration flag while a self-check is running. */
  ghost predicate IsOrderly(steps: seq<Step>) {
    forall i :: 0 <= i < |steps| ==> !ClearsDuringCheck(steps, i)
  }

  lemma RunNext(steps: seq<Step>, step: Step)
    ensures
      var s := Run(steps);
      Run(steps + [step]) == if Enabled(s, step) then Apply(s, step) else s
  {
    assert (steps + [step])[..|steps|] == steps;
  }

  lemma OrderlyPrefix(steps: seq<Step>, n: nat)
    requires n <= |steps| && IsOrderly(steps)
    ensures IsOrderly(steps[..n])
  {
    forall i | 0 <= i < n ensures !ClearsDuringCheck(steps[..n], i) {
      assert steps[..n][..i] == steps[..i];
      assert !ClearsDuringCheck(steps, i);
    }
  }

  lemma OrderlyNext(steps: seq<Step>, step: Step)
    requires IsOrderly(steps) && !step.Clear?
    ensures IsOrderly(steps + [step])
  {
    forall i | 0 <= i < |steps + [step]| ensures !ClearsDuringCheck(steps + [step], i) {
      if i < |steps| {
        assert (steps + [step])[..i] == steps[..i];
        assert !ClearsDuringCheck(steps, i);
      }
    }
  }

  /** Only the newest self-check can be running, and the flag shields it. */
  ghost predicate OrderHeld(s: System) {
    && (forall t :: IsCheckedBy(s, t) ==> PcOf(s, t).began == s.checks && s.router.attempted)
    && AreInOrder(s.finished)
  }

  lemma StepKeepsOrder(s: System, step: Step)
    requires NumbersHeld(s) && OrderHeld(s) && Enabled(s, step)
    requires step.Clear? ==> forall u :: !IsCheckedBy(s, u)
    ensures OrderHeld(Apply(s, step))
  {
    var s' := Apply(s, step);
    forall t | IsCheckedBy(s', t) ensures PcOf(s', t).began == s'.checks && s'.router.attempted {
      assert IsCheckedBy(s, t) || step == Claim(t);
    }
    if step.CheckDone? {
      forall i | 0 <= i < |s.finished| ensures s.finished[i] < s.checks {
        assert s.finished[i] in s.finished && IsCheckedBy(s, step.t);
      }
    }
  }

  lemma {:induction false} OrderlyKeepsOrder(steps: seq<Step>)
    requires IsOrderly(steps)
    ensures OrderHeld(Run(steps))
  {
    if steps != [] {
      var n := |steps| - 1;
      var s, step := Run(steps[..n]), steps[n];
      OrderlyPrefix(steps, n);
      OrderlyKeepsOrder(steps[..n]);
      RunKeepsNumbers(steps[..n]);
      if Enabled(s, step) {
        assert !ClearsDuringCheck(steps, n);
        StepKeepsOrder(s, step);
      }
    }
  }

  /** While re-registrations are forced only between self-checks, no two self-checks run at once and no older outcome
      overwrites a newer one. */
  lemma OrderlyRunsKeepChecksApart(steps: seq<Step>)
    requires IsOrderly(steps)
    ensures AtMostOneCheck(Run(steps)) && AreInOrder(Run(steps).finished)
  {
    OrderlyKeepsOrder(steps);
    RunKeepsNumbers(steps);
  }

  /** After the first `n` steps, a registration by thread `t` leaves at most one self-check running. */
  ghost predicate MayClaim(steps: seq<Step>, n: nat, t: nat)
    requires n <= |steps|
  {
    AtMostOneCheck(Run(steps[..n] + [Claim(t)]))
  }

  /** Clearing the flag during a self-check lets the thread that cleared it begin another. */
  lemma ClearLetsTwoIn(steps: seq<Step>, i: nat)
    requires i < |steps| && ClearsDuringCheck(steps, i)
    ensures !MayClaim(steps, i + 1, steps[i].t)
  {
    var s, t := Run(steps[..i]), steps[i].t;
    var u :| IsCheckedBy(s, u);
    assert steps[..i + 1] == steps[..i] + [steps[i]];
    RunNext(steps[..i], steps[i]);
    RunNext(steps[..i + 1], Claim(t));
    var both := Run(steps[..i + 1] + [Claim(t)]);
    assert IsCheckedBy(both, t) && IsCheckedBy(both, u);
  }

  /** Exactly when the registration flag keeps self-checks apart: at every point of a run, whoever registers next
      finds no other self-check running, if and only if the run never cleared the flag during a self-check. */
  lemma ChecksKeptApartIff(steps: seq<Step>)
    ensures IsOrderly(steps) <==> forall n, t :: 0 <= n <= |steps| ==> MayClaim(steps, n, t)
  {
    if IsOrderly(steps) {
      forall n, t | 0 <= n <= |steps| ensures MayClaim(steps, n, t) {
        OrderlyPrefix(steps, n);
        OrderlyNext(steps[..n], Claim(t));
        OrderlyRunsKeepChecksApart(steps[..n] + [Claim(t)]);
      }
    } else {
      var i :| 0 <= i < |steps| && ClearsDuringCheck(steps, i);
      ClearLetsTwoIn(steps, i);
    }
  }

  /** A run that forces at most `f` re-registrations. */
  predicate IsWithin(steps: seq<Step>, f: nat) {
    Run(steps).forced <= f
  }

  /** Without a forced re-registration there is only one self-check, and `try_register_gpu` keeps its outcome. */
  lemma UnforcedRunsKeepFirst(steps: seq<Step>)
    requires IsWithin(steps, 0)
    ensures AtMostOneCheck(Run(steps)) && |Run(steps).finished| <= 1
  {
    RunKeepsInv(steps);
    RunKeepsNumbers(steps);
    var s := Run(steps);
    OnesRepeat(s.finished);
  }

  lemma OnesRepeat(finished: seq<nat>)
    requires forall n <- finished :: n == 1
    ensures |finished| > 1 ==> !HasNoRepeats(finished)
  {
    if |finished| > 1 {
      assert finished[0] in finished && finished[1] in finished;
    }
  }

  /** With a forced re-registration, two self-checks can run at once, and the older outcome can overwrite the newer:
      the GPU passed the check begun last, yet the channel ends on the CPU. */
  lemma OlderCheckCanWin()
    ensures
      var two := Run([Claim(0), Clear(1), Claim(1)]);
      two.forced == 1 && IsCheckedBy(two, 0) && IsCheckedBy(two, 1)
    ensures
      var won := Run([Claim(0), Clear(1), Claim(1), CheckDone(1, true), CheckDone(0, false)]);
      won.forced == 1 && won.finished == [2, 1] && won.router.channel.Cpu?
  {
    var steps := [Claim(0), Clear(1), Claim(1)];
    var more := steps + [CheckDone(1, true)];
    assert [] + [Claim(0)] == [Claim(0)] && [Claim(0)] + [Clear(1)] == [Claim(0), Clear(1)];
    assert [Claim(0), Clear(1)] + [Claim(1)] == steps;
    assert more + [CheckDone(0, false)] == [Claim(0), Clear(1), Claim(1), CheckDone(1, true), CheckDone(0, false)];
    RunNext([], Claim(0));
    RunNext([Claim(0)], Clear(1));
    RunNext([Claim(0), Clear(1)], Claim(1));
    RunNext(steps, CheckDone(1, true));
    RunNext(more, CheckDone(0, false));
  }

  /** In every run with at most `f` forced re-registrations self-checks are kept apart and outcomes are taken in
      order, if and only if `f` is 0; so it is for the first outcome being kept. */
  lemma ChecksKeptApartWithinIff(f: nat)
    ensures (forall steps :: IsWithin(steps, f) ==> AtMostOneCheck(Run(steps))) <==> f == 0
    ensures (forall steps :: IsWithin(steps, f) ==> AreInOrder(Run(steps).finished)) <==> f == 0
    ensures (forall steps :: IsWithin(steps, f) ==> |Run(steps).finished| <= 1) <==> f == 0
  {
    if f == 0 {
      forall steps | IsWithin(steps, f) ensures AtMostOneCheck(Run(steps)) && |Run(steps).finished| <= 1 {
        UnforcedRunsKeepFirst(steps);
      }
    } else {
      OlderCheckCanWin();
      var two := [Claim(0), Clear(1), Claim(1)];
      var won := two + [CheckDone(1, true), CheckDone(0, false)];
      assert won == [Claim(0), Clear(1), Claim(1), CheckDone(1, true), CheckDone(0, false)];
      assert IsWithin(two, f) && !AtMostOneCheck(Run(two));
      var finished := Run(won).finished;
      assert IsWithin(won, f) && finished[0] > finished[1];
    }
  }
}
