/** When a suspend attempt is answered. Where the monitor is, and under which leases, decides it: on track, it
is answered within a bounded number of monitor turns in every run without shutdown; off track, there are
runs of any length in which it is not. A turn of the monitor is one await that ended; a suspend wakes the
monitor wherever it waits. */
module SuspendResponse {
  import opened Wrappers
  import opened Lifecycle
  import opened LifecycleTheorems

  /** The attempt is requested and the adapter is not shutting down. */
  predicate Asked(s: State, generation: nat) {
    && s.core.current.Some? && s.core.current.value.generation == generation
    && s.core.current.value.phase.Requested? && !s.core.shutdown
  }

  predicate Answered(s: State, generation: nat) {
    && s.core.current.Some? && s.core.current.value.generation == generation
    && !s.core.current.value.phase.Requested?
  }

  /** The monitor reads or parks with a stream of another lease than the attempt names. */
  predicate Spinning(s: State) {
    && s.core.current.Some? && s.core.current.value.phase.Requested?
    && (s.monitor.Head? || s.monitor.Checked? || s.monitor.Parking? || s.monitor.Waiting? || s.monitor.Losing?)
    && Owned(s.monitor).Some? && Owned(s.monitor).value != s.core.current.value.lease
  }

  /** The monitor has not begun to open or install a successor, nor to give the host up, and a stream it
      reads, or comes back with, has the lease the attempt names. */
  predicate OnTrack(s: State)
    requires s.core.current.Some?
  {
    && !OpensSuccessor(s.monitor) && !GivesUp(s.monitor) && !s.monitor.Panicked?
    && (HoldsOn(s.monitor) && Owned(s.monitor).Some? ==> Owned(s.monitor).value == s.core.current.value.lease)
  }

  predicate OpensSuccessor(m: Monitor) {
    m.Attempting? || m.Connecting? || m.Installing? || m.InstallFailed?
  }

  predicate GivesUp(m: Monitor) {
    m.HostLosing? || m.HostLossAnnouncing? || m.Done?
  }

  /** A stream owned here is the one the monitor parks with. */
  predicate HoldsOn(m: Monitor) {
    || m.Head? || m.Checked? || m.Waiting? || m.Losing? || m.Parking?
    || m.FlagsChanged? || m.FlagsRechecked?
  }

  /** The lease of the epoch a recovering monitor has lost. */
  function LostLease(m: Monitor): Option<Lease> {
    match m
    case Lost(lost, _) => Some(lost)
    case LossAnnouncing(lost) => Some(lost)
    case ReconnectHead(lost) => Some(lost)
    case ReconnectChecked(lost) => Some(lost)
    case Attempting(lost) => Some(lost)
    case Connecting(lost, _) => Some(lost)
    case Installing(lost, _, _) => Some(lost)
    case InstallFailed(lost, _) => Some(lost)
    case FlagsChanged(lost, _) => Some(lost)
    case FlagsRechecked(lost, _) => Some(lost)
    case HostLosing(lost, _) => Some(lost)
    case _ => None
  }

  /** A monitor that waits at the slot waits for a resume that is still to come, or has come with a stream
      of the current lease; an attempt that is stopped while the monitor handles it was stopped by shutdown,
      and an attempt is completed with an answer; what a recovering monitor lost is an earlier epoch; and
      while the adapter is healthy a stream the monitor owns is that of the current lease. */
  predicate WaitInv(s: State) {
    && (AtSlot(s.monitor) ==> s.core.shutdown || IsReleased(s.core) || s.slot.Some?)
    && (AtSlot(s.monitor) && s.slot.Some? ==> s.slot.value == LeaseOf(s.core.runtime, s.core.epoch))
    && (HandlesSuspend(s.monitor) && s.core.current.Some? && s.core.current.value.phase.Stopped? ==> s.core.shutdown)
    && (s.monitor.Completing? ==> !s.monitor.phase.Requested?)
    && (LostLease(s.monitor).Some? ==> LostLease(s.monitor).value.epoch < s.core.epoch)
    && (s.core.healthy && HoldsOn(s.monitor) && Owned(s.monitor).Some? ==>
          Owned(s.monitor).value == LeaseOf(s.core.runtime, s.core.epoch))
  }

  /** How many more turns an attempt waits for at most. */
  function TurnsLeft(m: Monitor): nat {
    match m
    case Completing(_, _) => 1
    case Exiting(_) => 1
    case SuspendAnnouncing(_) => 2
    case HostLossAnnouncing => 2
    case Draining(_) => 3
    case HostLosing(_, _) => 3
    case Releasing(_, _) => 4
    case Parking(_) => 5
    case Checked(_) => 6
    case Head(_) => 7
    case Losing(_, _, _) => 8
    case Parked => 8
    case ReconnectChecked(_) => 8
    case FlagsRechecked(_, _) => 8
    case Waiting(_) => 9
    case ParkedEmpty => 9
    case ReconnectHead(_) => 9
    case FlagsChanged(_, _) => 9
    case InstallFailed(_, _) => 10
    case LossAnnouncing(_) => 10
    case Installing(_, _, _) => 11
    case Lost(_, _) => 11
    case Connecting(_, _) => 12
    case Attempting(_) => 13
    case Done => 0
    case Panicked => 0
  }

  /** The attempt is answered, or its answer is closer. */
  predicate Closer(s: State, t: State, generation: nat) {
    || Answered(t, generation)
    || (Asked(t, generation) && OnTrack(t) && TurnsLeft(t.monitor) < TurnsLeft(s.monitor))
  }

  lemma {:induction false} ActiveCloser(s: State, c: Choice, generation: nat)
    requires Inv(s) && WaitInv(s) && Asked(s, generation) && OnTrack(s) && IsActive(s.monitor)
    ensures Closer(s, MonitorStep(s, c), generation)
  {
  }

  lemma {:induction false} RecoveryCloser(s: State, c: Choice, generation: nat)
    requires Inv(s) && WaitInv(s) && Asked(s, generation) && OnTrack(s) && IsRecovery(s.monitor)
    ensures Closer(s, MonitorStep(s, c), generation)
  {
  }

  lemma {:induction false} InstallCloser(s: State, c: Choice, generation: nat)
    requires Inv(s) && WaitInv(s) && Asked(s, generation) && OnTrack(s) && IsInstall(s.monitor)
    ensures Closer(s, MonitorStep(s, c), generation)
  {
  }

  lemma {:induction false} SuspendCloser(s: State, c: Choice, generation: nat)
    requires Inv(s) && WaitInv(s) && Asked(s, generation) && OnTrack(s) && IsSuspend(s.monitor)
    ensures Closer(s, MonitorStep(s, c), generation)
  {
  }

  lemma {:induction false} RestingCloser(s: State, c: Choice, generation: nat)
    requires Inv(s) && WaitInv(s) && Asked(s, generation) && OnTrack(s) && !HasTurn(s.monitor)
    ensures Closer(s, MonitorStep(s, c), generation)
  {
  }

  /** On track, every turn of the monitor answers the attempt or brings its answer closer. */
  lemma {:induction false} TurnBringsCloser(s: State, c: Choice, generation: nat)
    requires Inv(s) && WaitInv(s) && Asked(s, generation) && OnTrack(s)
    ensures Closer(s, MonitorStep(s, c), generation)
  {
    if IsActive(s.monitor) {
      ActiveCloser(s, c, generation);
    } else if IsRecovery(s.monitor) {
      RecoveryCloser(s, c, generation);
    } else if IsInstall(s.monitor) {
      InstallCloser(s, c, generation);
    } else if IsSuspend(s.monitor) {
      SuspendCloser(s, c, generation);
    } else {
      RestingCloser(s, c, generation);
    }
  }

  /** No other step but shutdown touches the attempt, the monitor or the slot meanwhile. */
  lemma {:induction false} OthersWait(s: State, step: Step, generation: nat)
    requires Inv(s) && Asked(s, generation) && !step.MonitorTurn? && !step.Shutdown?
    ensures var t := Apply(s, step);
            t.core == s.core && t.monitor == s.monitor && t.slot == s.slot
  {
  }

  lemma {:induction false} ActiveKeepsWaitInv(s: State, c: Choice)
    requires Inv(s) && WaitInv(s) && IsActive(s.monitor)
    ensures WaitInv(MonitorStep(s, c))
  {
  }

  lemma {:induction false} RecoveryKeepsWaitInv(s: State, c: Choice)
    requires Inv(s) && WaitInv(s) && IsRecovery(s.monitor)
    ensures WaitInv(MonitorStep(s, c))
  {
  }

  lemma {:induction false} InstallKeepsWaitInv(s: State, c: Choice)
    requires Inv(s) && WaitInv(s) && IsInstall(s.monitor)
    ensures WaitInv(MonitorStep(s, c))
  {
  }

  lemma {:induction false} SuspendKeepsWaitInv(s: State, c: Choice)
    requires Inv(s) && WaitInv(s) && IsSuspend(s.monitor)
    ensures WaitInv(MonitorStep(s, c))
  {
  }

  lemma {:induction false} TurnKeepsWaitInv(s: State, c: Choice)
    requires Inv(s) && WaitInv(s)
    ensures WaitInv(MonitorStep(s, c))
  {
    if IsActive(s.monitor) {
      ActiveKeepsWaitInv(s, c);
    } else if IsRecovery(s.monitor) {
      RecoveryKeepsWaitInv(s, c);
    } else if IsInstall(s.monitor) {
      InstallKeepsWaitInv(s, c);
    } else if IsSuspend(s.monitor) {
      SuspendKeepsWaitInv(s, c);
    }
  }

  lemma {:induction false} StepKeepsWaitInv(s: State, step: Step)
    requires Inv(s) && WaitInv(s)
    ensures WaitInv(Apply(s, step))
  {
    if step.MonitorTurn? {
      TurnKeepsWaitInv(s, step.choice);
    }
  }

  lemma {:induction false} RunKeepsWaitInv(s: State, steps: seq<Step>)
    requires Inv(s) && WaitInv(s)
    ensures Inv(After(s, steps)) && WaitInv(After(s, steps))
    decreases |steps|
  {
    if steps != [] {
      ApplyInv(s, steps[0]);
      StepKeepsWaitInv(s, steps[0]);
      RunKeepsWaitInv(Apply(s, steps[0]), steps[1..]);
    }
  }

  function MonitorTurns(steps: seq<Step>): nat
    decreases |steps|
  {
    if steps == [] then 0 else (if steps[0].MonitorTurn? then 1 else 0) + MonitorTurns(steps[1..])
  }

  /** The attempt is answered somewhere along the run. */
  ghost predicate AnsweredWithin(s: State, steps: seq<Step>, generation: nat) {
    exists n | 0 <= n <= |steps| :: Answered(After(s, steps[..n]), generation)
  }

  lemma {:induction false} WithinRest(s: State, steps: seq<Step>, generation: nat)
    requires steps != [] && AnsweredWithin(Apply(s, steps[0]), steps[1..], generation)
    ensures AnsweredWithin(s, steps, generation)
  {
    var m :| 0 <= m <= |steps| - 1 && Answered(After(Apply(s, steps[0]), steps[1..][..m]), generation);
    assert steps[..m + 1][0] == steps[0] && steps[..m + 1][1..] == steps[1..][..m];
    assert Answered(After(s, steps[..m + 1]), generation);
  }

  /** On track, a run without shutdown that gives the monitor the turns it needs answers the attempt. */
  lemma {:induction false} AnsweredInTime(s: State, steps: seq<Step>, generation: nat)
    requires Inv(s) && WaitInv(s) && Asked(s, generation) && OnTrack(s) && Shutdown !in steps
    requires MonitorTurns(steps) >= TurnsLeft(s.monitor)
    ensures AnsweredWithin(s, steps, generation)
    decreases |steps|
  {
    var t := Apply(s, steps[0]);
    ApplyInv(s, steps[0]);
    StepKeepsWaitInv(s, steps[0]);
    if steps[0].MonitorTurn? {
      TurnBringsCloser(s, steps[0].choice, generation);
    } else {
      OthersWait(s, steps[0], generation);
    }
    if Answered(t, generation) {
      assert After(t, steps[1..][..0]) == t;
    } else {
      AnsweredInTime(t, steps[1..], generation);
    }
    WithinRest(s, steps, generation);
  }

  // ----- off track -----

  /** What can happen next, off track: the new stream cannot be opened or installed in time, and the host is
      given up. */
  function WorstTurn(s: State): Choice {
    Choice(!s.monitor.Connecting?, false, Full, LeaseOf(s.core.runtime, s.core.epoch), s.core.runtime, "")
  }

  lemma {:induction false} OffTrackStaysOff(s: State, generation: nat)
    requires Inv(s) && WaitInv(s) && Asked(s, generation) && !OnTrack(s)
    ensures var t := MonitorStep(s, WorstTurn(s)); Asked(t, generation) && !OnTrack(t)
  {
  }

  lemma {:induction false} AskedThroughout(s: State, step: Step, rest: seq<Step>, generation: nat, n: nat)
    requires n <= |rest| + 1 && Asked(s, generation)
    requires forall m | 0 <= m <= |rest| :: Asked(After(Apply(s, step), rest[..m]), generation)
    ensures Asked(After(s, ([step] + rest)[..n]), generation)
  {
    var steps := [step] + rest;
    if n > 0 {
      assert steps[..n][0] == step && steps[..n][1..] == rest[..n - 1];
    }
  }

  /** Off track there is, for every number of turns, a run of so many turns that leaves the attempt
      unanswered throughout. */
  lemma {:induction false} OffTrackRun(s: State, generation: nat, turns: nat) returns (steps: seq<Step>)
    requires Inv(s) && WaitInv(s) && Asked(s, generation) && !OnTrack(s)
    ensures MonitorTurns(steps) == turns && Shutdown !in steps
    ensures forall n | 0 <= n <= |steps| :: Asked(After(s, steps[..n]), generation)
    decreases turns
  {
    steps := [];
    if turns > 0 {
      var step := MonitorTurn(WorstTurn(s));
      OffTrackStaysOff(s, generation);
      ApplyInv(s, step);
      StepKeepsWaitInv(s, step);
      var rest := OffTrackRun(Apply(s, step), generation, turns - 1);
      steps := [step] + rest;
      assert steps[1..] == rest;
      forall n | 0 <= n <= |steps|
        ensures Asked(After(s, steps[..n]), generation)
      {
        AskedThroughout(s, step, rest, generation, n);
      }
    }
  }

  // ----- the exact condition -----

  /** In every run without shutdown that gives the monitor the turns it needs, the attempt is answered. */
  ghost predicate AlwaysAnswered(s: State, generation: nat) {
    forall steps: seq<Step> | Shutdown !in steps && MonitorTurns(steps) >= TurnsLeft(s.monitor) ::
      AnsweredWithin(s, steps, generation)
  }

  /** A requested suspend is always answered in time if and only if the monitor is on track. */
  lemma {:induction false} AlwaysAnsweredExactly(runtime: Runtime, before: seq<Step>, generation: nat)
    requires Asked(After(Connected(runtime), before), generation)
    ensures var s := After(Connected(runtime), before);
            (AlwaysAnswered(s, generation) <==> OnTrack(s)) && TurnsLeft(s.monitor) <= 13
  {
    var s := After(Connected(runtime), before);
    ConnectedInv(runtime);
    RunKeepsWaitInv(Connected(runtime), before);
    if OnTrack(s) {
      forall steps: seq<Step> | Shutdown !in steps && MonitorTurns(steps) >= TurnsLeft(s.monitor)
        ensures AnsweredWithin(s, steps, generation)
      {
        AnsweredInTime(s, steps, generation);
      }
    } else {
      var steps := OffTrackRun(s, generation, TurnsLeft(s.monitor));
      assert !AnsweredWithin(s, steps, generation);
    }
  }

  /** A suspend that begins while the adapter is healthy is on track. */
  lemma {:induction false} HealthyIsOnTrack(s: State)
    requires Inv(s) && WaitInv(s) && s.core.healthy && s.core.terminalLoss.None?
    ensures var t := Apply(s, Suspend);
            Asked(t, s.core.nextGeneration) && OnTrack(t) && t.monitor == s.monitor
  {
  }

  /** So a suspend asked of a healthy adapter is answered in every run without shutdown that gives the
      monitor thirteen turns. */
  lemma {:induction false} HealthySuspendIsAnswered(runtime: Runtime, before: seq<Step>, steps: seq<Step>)
    requires After(Connected(runtime), before).core.healthy
    requires Shutdown !in steps && MonitorTurns(steps) >= 13
    ensures var s := After(Connected(runtime), before);
            AnsweredWithin(Apply(s, Suspend), steps, s.core.nextGeneration)
  {
    var s := After(Connected(runtime), before);
    ConnectedInv(runtime);
    RunKeepsWaitInv(Connected(runtime), before);
    HealthyIsOnTrack(s);
    ApplyInv(s, Suspend);
    StepKeepsWaitInv(s, Suspend);
    AnsweredInTime(Apply(s, Suspend), steps, s.core.nextGeneration);
  }

  lemma {:induction false} AnsweredForGood(s: State, steps: seq<Step>, generation: nat)
    requires Inv(s) && generation < s.core.nextGeneration && !WaitForSuspend(s.core, generation).Pending?
    ensures !WaitForSuspend(After(s, steps).core, generation).Pending?
    decreases |steps|
  {
    if steps != [] {
      ApplyInv(s, steps[0]);
      StepEvolves(s, steps[0]);
      AnsweredForGood(Apply(s, steps[0]), steps[1..], generation);
    }
  }

  /** A caller whose attempt was answered along the way is not left waiting at the end. */
  lemma {:induction false} AnswerReturns(s: State, steps: seq<Step>, generation: nat)
    requires Inv(s) && AnsweredWithin(s, steps, generation)
    ensures !WaitForSuspend(After(s, steps).core, generation).Pending?
  {
    var n :| 0 <= n <= |steps| && Answered(After(s, steps[..n]), generation);
    AfterInv(s, steps[..n]);
    AfterSplit(s, steps, n);
    AnsweredForGood(After(s, steps[..n]), steps[n..], generation);
  }

  // ----- a stream of another lease -----

  lemma {:induction false} SpinningOneStep(s: State, step: Step)
    requires Inv(s) && Spinning(s) && !s.core.shutdown && !step.Shutdown?
    ensures var t := Apply(s, step);
            Spinning(t) && t.core.current == s.core.current && !t.core.shutdown
  {
  }

  /** A monitor that holds a stream of another lease never answers the attempt while no shutdown comes. */
  lemma {:induction false} SpinsUntilShutdown(s: State, steps: seq<Step>)
    requires Inv(s) && Spinning(s) && !s.core.shutdown && Shutdown !in steps
    ensures Spinning(After(s, steps)) && After(s, steps).core.current == s.core.current
    decreases |steps|
  {
    if steps != [] {
      ApplyInv(s, steps[0]);
      SpinningOneStep(s, steps[0]);
      SpinsUntilShutdown(Apply(s, steps[0]), steps[1..]);
    }
  }

  /** A suspend that begins while a stream to another endpoint is ready to be installed. */
  lemma {:induction false} LateStreamSpins(s: State, c: Choice)
    requires s.monitor.Installing? && s.monitor.owned != LeaseOf(s.core.runtime, s.core.epoch) && c.permit.Reserved?
    requires s.core.current == None && s.core.terminalLoss == None && !s.core.shutdown && !s.core.suspended
    ensures var t := MonitorStep(MonitorStep(MonitorStep(Apply(s, Suspend), c), c), c);
            Spinning(t) && !t.core.shutdown
  {
  }

  /** Such a run exists, whatever the first endpoint: the host comes back at another one, and the suspend
      begins after the new stream was opened and before it was installed. */
  lemma {:induction false} SuspendCanSpin(runtime: Runtime, moved: Runtime, error: Error) returns (steps: seq<Step>)
    requires moved.endpoint != runtime.endpoint
    ensures Spinning(After(Connected(runtime), steps)) && !After(Connected(runtime), steps).core.shutdown
  {
    var s0, lease := Connected(runtime), LeaseOf(runtime, 1);
    var yes := Choice(true, false, Reserved, lease, moved, error);
    var no := yes.(ok := false);
    var s;
    steps, s := LossCanBeMarked(runtime, yes, no);
    steps := Turned(s0, steps, s, yes, s.(monitor := ReconnectChecked(lease)));
    steps := Turned(s0, steps, s.(monitor := ReconnectChecked(lease)), yes, s.(monitor := Attempting(lease)));
    steps := Turned(s0, steps, s.(monitor := Attempting(lease)), yes, s.(monitor := Connecting(lease, 2)));
    var ready := s.(monitor := Installing(lease, moved, LeaseOf(moved, 2)));
    steps := Turned(s0, steps, s.(monitor := Connecting(lease, 2)), yes, ready);
    LateStreamSpins(ready, yes);
    OneMore(s0, steps, Suspend);
    steps := steps + [Suspend];
    var t := After(s0, steps);
    steps := Turned(s0, steps, t, yes, MonitorStep(t, yes));
    steps := Turned(s0, steps, MonitorStep(t, yes), yes, MonitorStep(MonitorStep(t, yes), yes));
    var u := MonitorStep(MonitorStep(t, yes), yes);
    steps := Turned(s0, steps, u, yes, MonitorStep(u, yes));
  }
}
