/** What the adapter gets done when nothing stops it: a lost host is reconnected, whatever runtime it comes back
as; a suspend releases the stream; a resume installs; a host that stays away is given up; a shutdown ends the
monitor. The turns of the monitor interleave with any other steps that do not stop it. */
module LifecycleProgress {
  import opened Wrappers
  import opened Lifecycle
  import opened LifecycleTheorems
  import opened SuspendResponse

  // ----- reconnecting -----

  predicate AllWell(c: Choice, r: Runtime) {
    c.ok && c.retry && c.permit.Reserved? && c.runtime == r
  }

  /** Nobody asks for a suspend or a shutdown, and what the monitor awaits succeeds, with the host at `r`. */
  predicate GoesWell(step: Step, r: Runtime) {
    !step.Suspend? && !step.Shutdown? && (step.MonitorTurn? ==> AllWell(step.choice, r))
  }

  /** The monitor is between the marked loss and the install, and what it has opened since is at `r`. */
  predicate Reopening(s: State, r: Runtime) {
    && !s.core.shutdown && !s.core.suspended && !s.core.healthy
    && match s.monitor
       case Connecting(_, epoch) => epoch == s.core.epoch
       case Installing(_, runtime, owned) => runtime == r && owned == LeaseOf(r, s.core.epoch)
       case _ =>
         || s.monitor.Lost? || s.monitor.LossAnnouncing? || s.monitor.ReconnectHead? || s.monitor.ReconnectChecked?
         || s.monitor.Attempting? || s.monitor.InstallFailed? || s.monitor.FlagsChanged? || s.monitor.FlagsRechecked?
  }

  function TurnsToBack(m: Monitor): nat {
    match m
    case Installing(_, _, _) => 1
    case Connecting(_, _) => 2
    case Attempting(_) => 3
    case ReconnectChecked(_) => 4
    case ReconnectHead(_) => 5
    case LossAnnouncing(_) => 6
    case InstallFailed(_, _) => 6
    case Lost(_, _) => 7
    case FlagsRechecked(_, _) => 7
    case FlagsChanged(_, _) => 8
    case _ => 0
  }

  /** The loss is still to be announced. */
  predicate OwesAnnouncement(m: Monitor) {
    m.Lost? || m.LossAnnouncing?
  }

  function Announcement(m: Monitor): seq<Event> {
    if OwesAnnouncement(m) then [Unhealthy] else []
  }

  /** The monitor reads events from this stream, and nothing else happened to it. */
  predicate Reads(m: Monitor, lease: Lease) {
    m == Head(Some(lease)) || m == Checked(Some(lease)) || m == Waiting(lease)
  }

  /** From `s` to `t` the adapter has come back at `r`, in the epoch it was in, and has said so once. */
  predicate CameBack(s: State, t: State, r: Runtime) {
    && t.core == s.core.(runtime := r, healthy := true)
    && Reads(t.monitor, LeaseOf(r, s.core.epoch))
    && t.published == s.published + Announcement(s.monitor)
                      + [Reconnected(s.core.runtime.identity, r.identity, s.core.continuity)]
  }

  predicate Nearer(s: State, t: State, r: Runtime) {
    && Reopening(t, r) && t.core == s.core && TurnsToBack(t.monitor) < TurnsToBack(s.monitor)
    && s.published + Announcement(s.monitor) == t.published + Announcement(t.monitor)
  }

  lemma {:induction false} ReopeningTurn(s: State, c: Choice, r: Runtime)
    requires Reopening(s, r) && AllWell(c, r)
    ensures var t := MonitorStep(s, c); CameBack(s, t, r) || Nearer(s, t, r)
  {
  }

  /** Other steps leave a monitor that is not being stopped alone. */
  lemma {:induction false} BystandersLeave(s: State, step: Step)
    requires !s.core.shutdown && !s.core.suspended
    requires !step.Suspend? && !step.Shutdown? && !step.MonitorTurn?
    ensures var t := Apply(s, step); t.core == s.core && t.monitor == s.monitor && t.published == s.published
  {
  }

  lemma {:induction false} StaysBack(s: State, t: State, step: Step, r: Runtime)
    requires !s.core.shutdown && !s.core.suspended && CameBack(s, t, r) && GoesWell(step, r)
    ensures CameBack(s, Apply(t, step), r)
  {
  }

  lemma {:induction false} StaysBackThroughout(s: State, t: State, steps: seq<Step>, r: Runtime)
    requires !s.core.shutdown && !s.core.suspended && CameBack(s, t, r)
    requires forall step <- steps :: GoesWell(step, r)
    ensures CameBack(s, After(t, steps), r)
    decreases |steps|
  {
    if steps != [] {
      StaysBack(s, t, steps[0], r);
      StaysBackThroughout(s, Apply(t, steps[0]), steps[1..], r);
    }
  }

  /** A monitor on its way back arrives in so many turns, and stays. */
  lemma {:induction false} ComesBack(s: State, steps: seq<Step>, r: Runtime)
    requires Reopening(s, r) && (forall step <- steps :: GoesWell(step, r))
    requires MonitorTurns(steps) >= TurnsToBack(s.monitor)
    ensures CameBack(s, After(s, steps), r)
    decreases |steps|
  {
    var t := Apply(s, steps[0]);
    assert steps[0] in steps;
    if !steps[0].MonitorTurn? {
      BystandersLeave(s, steps[0]);
      ComesBack(t, steps[1..], r);
    } else {
      ReopeningTurn(s, steps[0].choice, r);
      if CameBack(s, t, r) {
        StaysBackThroughout(s, t, steps[1..], r);
      } else {
        ComesBack(t, steps[1..], r);
      }
    }
  }

  lemma {:induction false} LossIsMarked(s: State, c: Choice)
    requires Inv(s) && s.core.healthy
    requires s.monitor.Losing? && s.monitor.report == LeaseOf(s.core.runtime, s.core.epoch)
    ensures var t := MonitorStep(s, c);
            && t.core == s.core.(healthy := false, epoch := s.core.epoch + 1, continuity := s.core.continuity + 1)
            && t.monitor == Lost(s.monitor.report, s.monitor.owned) && t.published == s.published
  {
  }

  /** A reported loss of the current lease is repaired: whatever runtime the host comes back as, after eight
      turns that go well the adapter is healthy on that very runtime, in the epoch the loss moved to, the
      monitor reads its stream, and the loss and the reconnect were announced once each, in this order. */
  lemma {:induction false} LossIsRepaired(s: State, steps: seq<Step>, r: Runtime)
    requires Inv(s) && s.core.healthy
    requires s.monitor.Losing? && s.monitor.report == LeaseOf(s.core.runtime, s.core.epoch)
    requires (forall step <- steps :: GoesWell(step, r)) && MonitorTurns(steps) >= 8
    ensures var t, epoch := After(s, steps), s.core.epoch + 1;
            && t.core.healthy && t.core.runtime == r && t.core.epoch == epoch
                && t.core.continuity == s.core.continuity + 1
            && Reads(t.monitor, LeaseOf(r, epoch))
            && t.published == s.published + [Unhealthy]
                              + [Reconnected(s.core.runtime.identity, r.identity, s.core.continuity + 1)]
    decreases |steps|
  {
    var t := Apply(s, steps[0]);
    assert steps[0] in steps;
    ApplyInv(s, steps[0]);
    if steps[0].MonitorTurn? {
      LossIsMarked(s, steps[0].choice);
      ComesBack(t, steps[1..], r);
    } else {
      BystandersLeave(s, steps[0]);
      LossIsRepaired(t, steps[1..], r);
    }
  }

  /** A report about another lease changes nothing, and the monitor reads on. */
  lemma {:induction false} StaleReportIsIgnored(s: State, c: Choice)
    requires s.monitor.Losing? && s.monitor.report != LeaseOf(s.core.runtime, s.core.epoch)
    ensures MonitorStep(s, c) == s.(monitor := Head(Some(s.monitor.owned)))
  {
  }

  /** A read that ends in a loss leads to the report of that loss. */
  lemma {:induction false} LossIsReported(s: State, c: Choice)
    requires s.monitor.Waiting? && !c.ok
    ensures MonitorStep(s, c) == s.(monitor := Losing(c.lease, c.error, s.monitor.owned))
  {
  }

  // ----- giving the host up -----

  /** The monitor tries to reconnect, and can find that it has no more time or that an attempt failed. */
  predicate CanGiveUp(m: Monitor) {
    m.ReconnectChecked? || m.Connecting? || m.InstallFailed?
  }

  /** A host that does not come back in time is given up: the loss is recorded with its error and announced
      under the last identity, the monitor ends, and every later suspend is told at once. */
  lemma {:induction false} HostIsGivenUp(s: State, fails: Choice, next: Choice)
    requires CanGiveUp(s.monitor) && !s.core.shutdown && !s.core.suspended && s.core.current.None?
    requires !fails.ok && !fails.retry && next.ok
    ensures var t := After(s, [MonitorTurn(fails), MonitorTurn(next), MonitorTurn(next)]);
            && t.monitor.Done? && t.published == s.published + [HostLostEvent(s.core.runtime.identity)]
            && t.core == s.core.(terminalLoss := Some(TerminalLoss(s.monitor.lost, fails.error)))
            && WaitForSuspend(Apply(t, Suspend).core, t.core.nextGeneration) == HostGone(fails.error)
  {
    ThreeTurns(s, fails, next, next);
    var lost := s.(monitor := HostLosing(s.monitor.lost, fails.error));
    assert MonitorStep(s, fails) == lost;
    LossIsRecorded(lost, next);
  }

  lemma {:induction false} LossIsRecorded(s: State, next: Choice)
    requires s.monitor.HostLosing? && !s.core.shutdown && s.core.current.None? && next.ok
    ensures MonitorStep(MonitorStep(s, next), next)
         == s.(monitor := Done, published := s.published + [HostLostEvent(s.core.runtime.identity)],
               core := s.core.(terminalLoss := Some(TerminalLoss(s.monitor.lost, s.monitor.error))))
  {
  }

  lemma {:induction false} ThreeTurns(s: State, a: Choice, b: Choice, c: Choice)
    ensures After(s, [MonitorTurn(a), MonitorTurn(b), MonitorTurn(c)]) == MonitorStep(MonitorStep(MonitorStep(s, a), b), c)
  {
    var steps := [MonitorTurn(a), MonitorTurn(b), MonitorTurn(c)];
    assert steps[1..] == [MonitorTurn(b), MonitorTurn(c)] && steps[1..][1..] == [MonitorTurn(c)];
    var t := MonitorStep(MonitorStep(MonitorStep(s, a), b), c);
    assert After(t, []) == t;
    assert After(MonitorStep(MonitorStep(s, a), b), [MonitorTurn(c)]) == After(t, []);
    assert After(MonitorStep(s, a), steps[1..]) == After(MonitorStep(MonitorStep(s, a), b), steps[1..][1..]);
  }

  /** An attempt that fails with time left is made again. */
  lemma {:induction false} FailureIsRetried(s: State, c: Choice)
    requires (s.monitor.Connecting? || s.monitor.InstallFailed?) && !c.ok && c.retry
    ensures MonitorStep(s, c) == s.(monitor := ReconnectHead(s.monitor.lost))
  {
  }

  // ----- releasing for a suspend -----

  /** The requested suspend meets a monitor that holds the stream of the current lease or nothing, or will
      take it from the slot. */
  predicate Yielding(s: State, generation: nat) {
    && Asked(s, generation)
    && var lease := s.core.current.value.lease;
       match s.monitor
       case Head(sub) => sub == Some(lease)
       case Checked(sub) => sub == Some(lease)
       case Waiting(owned) => owned == lease
       case Losing(_, _, owned) => owned == lease
       case Parking(sub) => sub == Some(lease)
       case Parked => s.slot == Some(lease)
       case ParkedEmpty => s.slot == Some(lease)
       case Releasing(g, _) => g == generation
       case Draining(g) => g == generation
       case SuspendAnnouncing(g) => g == generation
       case Completing(g, phase) => g == generation && phase == Released
       case _ => false
  }

  /** What is still to be said before the attempt is answered. */
  function YieldingAnnouncement(m: Monitor): seq<Event> {
    if m.Completing? then [] else [Unhealthy]
  }

  predicate GaveUpStream(s: State, t: State, generation: nat) {
    && WaitForSuspend(t.core, generation) == Suspended
    && t.core.runtime == s.core.runtime && t.core.epoch == s.core.epoch && t.core.continuity == s.core.continuity
    && !t.core.healthy && !t.core.shutdown
    && AtSlot(t.monitor) && t.slot.None?
    && t.published == s.published + YieldingAnnouncement(s.monitor)
  }

  /** No shutdown and no commit of a resume; what the monitor awaits succeeds. */
  predicate YieldsWell(step: Step) {
    !step.Shutdown? && !step.FinishResume? && (step.MonitorTurn? ==> step.choice.ok)
  }

  predicate YieldsNearer(s: State, t: State, generation: nat) {
    && Yielding(t, generation) && TurnsLeft(t.monitor) < TurnsLeft(s.monitor)
    && t.core == s.core
    && s.published + YieldingAnnouncement(s.monitor) == t.published + YieldingAnnouncement(t.monitor)
  }

  lemma {:induction false} YieldingTurn(s: State, c: Choice, generation: nat)
    requires Inv(s) && WaitInv(s) && Yielding(s, generation) && c.ok
    ensures var t := MonitorStep(s, c); GaveUpStream(s, t, generation) || YieldsNearer(s, t, generation)
  {
  }

  lemma {:induction false} YieldingBystanders(s: State, step: Step, generation: nat)
    requires Inv(s) && Asked(s, generation) && YieldsWell(step) && !step.MonitorTurn?
    ensures var t := Apply(s, step);
            t.core == s.core && t.monitor == s.monitor && t.published == s.published && t.slot == s.slot
  {
  }

  lemma {:induction false} ReleasedStays(s: State, t: State, step: Step, generation: nat)
    requires Inv(t) && GaveUpStream(s, t, generation) && YieldsWell(step)
    ensures GaveUpStream(s, Apply(t, step), generation)
  {
  }

  lemma {:induction false} ReleasedThroughout(s: State, t: State, steps: seq<Step>, generation: nat)
    requires Inv(t) && GaveUpStream(s, t, generation) && (forall step <- steps :: YieldsWell(step))
    ensures GaveUpStream(s, After(t, steps), generation)
    decreases |steps|
  {
    if steps != [] {
      ReleasedStays(s, t, steps[0], generation);
      ApplyInv(t, steps[0]);
      ReleasedThroughout(s, Apply(t, steps[0]), steps[1..], generation);
    }
  }

  lemma {:induction false} Yields(s: State, steps: seq<Step>, generation: nat)
    requires Inv(s) && WaitInv(s) && Yielding(s, generation) && (forall step <- steps :: YieldsWell(step))
    requires MonitorTurns(steps) >= TurnsLeft(s.monitor)
    ensures GaveUpStream(s, After(s, steps), generation)
    decreases |steps|
  {
    var t := Apply(s, steps[0]);
    ApplyInv(s, steps[0]);
    StepKeepsWaitInv(s, steps[0]);
    assert steps[0] in steps;
    if !steps[0].MonitorTurn? {
      YieldingBystanders(s, steps[0], generation);
      Yields(t, steps[1..], generation);
    } else {
      YieldingTurn(s, steps[0].choice, generation);
      if GaveUpStream(s, t, generation) {
        ReleasedThroughout(s, t, steps[1..], generation);
      } else {
        Yields(t, steps[1..], generation);
      }
    }
  }

  /** A healthy adapter reads the stream of its current lease, or is about to take it from the slot. */
  lemma {:induction false} HealthyYields(s: State)
    requires Inv(s) && WaitInv(s) && s.core.healthy
    ensures Yielding(Apply(s, Suspend), s.core.nextGeneration)
  {
  }

  /** A suspend asked of a healthy adapter succeeds: after nine turns that go well, with no shutdown and no
      commit of a resume, the caller is told so, no stream is left, the adapter stands where it stood, and
      Unhealthy was announced once. */
  lemma {:induction false} HealthySuspendReleases(runtime: Runtime, before: seq<Step>, steps: seq<Step>)
    requires After(Connected(runtime), before).core.healthy
    requires (forall step <- steps :: YieldsWell(step)) && MonitorTurns(steps) >= 9
    ensures var s := After(Connected(runtime), before);
            var t := After(Apply(s, Suspend), steps);
            && WaitForSuspend(t.core, s.core.nextGeneration) == Suspended
            && Owned(t.monitor) == None && t.slot == None
            && LeaseOf(t.core.runtime, t.core.epoch) == LeaseOf(s.core.runtime, s.core.epoch) && !t.core.healthy
            && t.published == s.published + [Unhealthy]
  {
    var s := After(Connected(runtime), before);
    ConnectedInv(runtime);
    RunKeepsWaitInv(Connected(runtime), before);
    HealthyYields(s);
    ApplyInv(s, Suspend);
    StepKeepsWaitInv(s, Suspend);
    Yields(Apply(s, Suspend), steps, s.core.nextGeneration);
  }

  /** A send queue that cannot be drained is reported to the caller with its error. */
  lemma {:induction false} DrainFailureIsReported(s: State, c: Choice, next: Choice)
    requires Inv(s) && s.monitor.Draining? && Asked(s, s.monitor.generation) && !c.ok
    ensures var t := MonitorStep(MonitorStep(s, c), next);
            WaitForSuspend(t.core, s.monitor.generation) == HostGone(c.error) && t.monitor.Done?
  {
  }

  // ----- resuming -----

  /** A suspend has released the stream, and a resume may begin. */
  predicate Resumable(s: State) {
    IsReleased(s.core) && !s.core.shutdown && !s.resumesClosed
  }

  /** Not a step of this call, and neither a shutdown nor the end of another call. */
  predicate StandsBy(step: Step, call: nat) {
    !step.Shutdown? && !step.FinishResume? && (IsResumeStep(step) ==> step.call != call)
  }

  /** What a resume depends on is as it was. */
  predicate Untouched(s: State, t: State, call: nat) {
    && t.core == s.core && t.slot == s.slot && t.published == s.published && t.resumesClosed == s.resumesClosed
    && (call in t.resumes <==> call in s.resumes)
    && (call in s.resumes ==> t.resumes[call] == s.resumes[call])
  }

  lemma {:induction false} OneStandsBy(s: State, step: Step, call: nat)
    requires Inv(s) && Resumable(s) && StandsBy(step, call)
    ensures Untouched(s, Apply(s, step), call)
  {
  }

  lemma {:induction false} OthersStandBy(s: State, steps: seq<Step>, call: nat)
    requires Inv(s) && Resumable(s) && (forall step <- steps :: StandsBy(step, call))
    ensures Inv(After(s, steps)) && Untouched(s, After(s, steps), call)
    decreases |steps|
  {
    if steps != [] {
      assert steps[0] in steps;
      OneStandsBy(s, steps[0], call);
      ApplyInv(s, steps[0]);
      OthersStandBy(Apply(s, steps[0]), steps[1..], call);
    }
  }

  /** One step of the call, and then the others. */
  lemma {:induction false} CallThenOthers(s: State, step: Step, others: seq<Step>, call: nat) returns (t: State)
    requires Inv(s) && Resumable(Apply(s, step)) && (forall step <- others :: StandsBy(step, call))
    ensures t == After(s, [step] + others) && Inv(t) && Untouched(Apply(s, step), t, call)
  {
    assert ([step] + others)[1..] == others;
    ApplyInv(s, step);
    OthersStandBy(Apply(s, step), others, call);
    t := After(s, [step] + others);
  }

  lemma {:induction false} JoinRuns(s: State, first: seq<Step>, second: seq<Step>)
    ensures After(s, first + second) == After(After(s, first), second)
  {
    AfterSplit(s, first + second, |first|);
    assert (first + second)[..|first|] == first && (first + second)[|first|..] == second;
  }

  /** The steps of one resume up to its assembly, with what others do in between. */
  function ResumeSteps(call: nat, r: Runtime, a: seq<Step>, b: seq<Step>, c: seq<Step>, d: seq<Step>): seq<Step> {
    ([AdmitResume(call)] + a) + ([ReadPrior(call)] + b) + ([ProveReleased(call)] + c) + ([Assemble(call, r)] + d)
  }

  lemma {:induction false} ResumeIsAssembled(s: State, call: nat, r: Runtime, a: seq<Step>, b: seq<Step>, c: seq<Step>,
      d: seq<Step>)
    requires Inv(s) && Resumable(s) && call !in s.resumes
    requires forall step <- a + b + c + d :: StandsBy(step, call)
    ensures var t, k := After(s, ResumeSteps(call, r, a, b, c, d)), s.core;
            && Inv(t) && t.core == k && t.published == s.published && call in t.resumes
            && t.resumes[call] == Assembled(k.epoch, k.continuity, LeaseOf(k.runtime, k.epoch), r)
  {
    forall step | step in a || step in b || step in c || step in d
      ensures StandsBy(step, call)
    {
      assert step in a + b + c + d;
    }
    var t1 := CallThenOthers(s, AdmitResume(call), a, call);
    var t2 := CallThenOthers(t1, ReadPrior(call), b, call);
    var t3 := CallThenOthers(t2, ProveReleased(call), c, call);
    var t4 := CallThenOthers(t3, Assemble(call, r), d, call);
    var x, y := [AdmitResume(call)] + a, [ReadPrior(call)] + b;
    JoinRuns(s, x, y);
    JoinRuns(s, x + y, [ProveReleased(call)] + c);
    JoinRuns(s, x + y + ([ProveReleased(call)] + c), [Assemble(call, r)] + d);
  }

  /** A resume that nobody disturbs installs: after a suspend has released the stream, the call makes the
      runtime it assembled current, whatever host that is, in the next epoch, healthy, with its stream in the
      slot, and announces it once. */
  lemma {:induction false} ResumeInstalls(s: State, call: nat, r: Runtime, a: seq<Step>, b: seq<Step>, c: seq<Step>,
      d: seq<Step>)
    requires Inv(s) && Resumable(s) && call !in s.resumes
    requires forall step <- a + b + c + d :: StandsBy(step, call)
    ensures var t := After(s, ResumeSteps(call, r, a, b, c, d) + [FinishResume(call, Reserved)]);
            && t.core.healthy && t.core.runtime == r && !t.core.suspended && t.core.current == None
            && t.core.epoch == s.core.epoch + 1 && t.core.continuity == s.core.continuity + 1
            && t.slot == Some(LeaseOf(r, s.core.epoch + 1)) && call !in t.resumes
            && t.published == s.published
                              + [Reconnected(s.core.runtime.identity, r.identity, s.core.continuity + 1)]
  {
    ResumeIsAssembled(s, call, r, a, b, c, d);
    OneMore(s, ResumeSteps(call, r, a, b, c, d), FinishResume(call, Reserved));
  }

  /** Without room for its event the call ends and changes nothing else. */
  lemma {:induction false} FullQueueInstallsNothing(s: State, call: nat, permit: Permit)
    requires !permit.Reserved?
    ensures var t := Apply(s, FinishResume(call, permit));
            t == s.(resumes := t.resumes) && (call in s.resumes && s.resumes[call].Assembled? ==> call !in t.resumes)
  {
  }

  /** The monitor takes the resumed stream and reads it. */
  lemma {:induction false} ResumedStreamIsRead(s: State, steps: seq<Step>, lease: Lease)
    requires Inv(s) && !s.core.shutdown && !s.core.suspended && AtSlot(s.monitor) && s.slot == Some(lease)
    requires (forall step <- steps :: GoesWell(step, s.core.runtime)) && MonitorTurns(steps) >= 2
    ensures var t := After(s, steps); t.core == s.core && Reads(t.monitor, lease) && t.published == s.published
    decreases |steps|
  {
    assert steps[0] in steps;
    var t := Apply(s, steps[0]);
    if !steps[0].MonitorTurn? {
      BystandersLeave(s, steps[0]);
      ApplyInv(s, steps[0]);
      ResumedStreamIsRead(t, steps[1..], lease);
    } else if s.monitor.Parked? {
      ReadsOn(t, steps[1..], lease);
    } else {
      TakesNext(t, steps[1..], lease);
    }
  }

  lemma {:induction false} TakesNext(s: State, steps: seq<Step>, lease: Lease)
    requires !s.core.shutdown && !s.core.suspended && s.monitor.Parked? && s.slot == Some(lease)
    requires (forall step <- steps :: GoesWell(step, s.core.runtime)) && MonitorTurns(steps) >= 1
    ensures var t := After(s, steps); t.core == s.core && Reads(t.monitor, lease) && t.published == s.published
    decreases |steps|
  {
    assert steps[0] in steps;
    if steps[0].MonitorTurn? {
      ReadsOn(Apply(s, steps[0]), steps[1..], lease);
    } else {
      BystandersLeave(s, steps[0]);
      TakesNext(Apply(s, steps[0]), steps[1..], lease);
    }
  }

  lemma {:induction false} ReadsOn(s: State, steps: seq<Step>, lease: Lease)
    requires !s.core.shutdown && !s.core.suspended && Reads(s.monitor, lease)
    requires forall step <- steps :: GoesWell(step, s.core.runtime)
    ensures var t := After(s, steps); t.core == s.core && Reads(t.monitor, lease) && t.published == s.published
    decreases |steps|
  {
    if steps != [] {
      assert steps[0] in steps;
      if !steps[0].MonitorTurn? {
        BystandersLeave(s, steps[0]);
      }
      ReadsOn(Apply(s, steps[0]), steps[1..], lease);
    }
  }

  // ----- shutting down -----

  /** How many more turns the monitor takes at most, once a shutdown was requested. */
  function TurnsToEnd(m: Monitor): nat {
    match m
    case Done => 0
    case Panicked => 0
    case Exiting(_) => 1
    case Head(_) => 2
    case HostLossAnnouncing => 2
    case ReconnectHead(_) => 2
    case LossAnnouncing(_) => 2
    case ParkedEmpty => 2
    case FlagsChanged(_, _) => 2
    case Losing(_, _, _) => 3
    case Lost(_, _) => 3
    case Parked => 3
    case HostLosing(_, _) => 3
    case Waiting(_) => 4
    case Completing(_, _) => 4
    case InstallFailed(_, _) => 4
    case FlagsRechecked(_, _) => 5
    case Installing(_, _, _) => 5
    case SuspendAnnouncing(_) => 5
    case Connecting(_, _) => 6
    case Draining(_) => 6
    case Attempting(_) => 7
    case Releasing(_, _) => 7
    case ReconnectChecked(_) => 8
    case Parking(_) => 8
    case Checked(_) => 9
  }

  /** The monitor has ended, and has answered the attempt before. */
  predicate Ended(s: State) {
    s.monitor.Done? && s.core.shutdown && !(s.core.current.Some? && s.core.current.value.phase.Requested?)
  }

  predicate EndsNearer(s: State, t: State) {
    t.core.shutdown && (Ended(t) || (!t.monitor.Done? && TurnsToEnd(t.monitor) < TurnsToEnd(s.monitor)))
  }

  lemma {:induction false} ActiveEnds(s: State, c: Choice)
    requires Inv(s) && WaitInv(s) && s.core.shutdown && !s.monitor.Done? && IsActive(s.monitor)
    ensures EndsNearer(s, MonitorStep(s, c))
  {
  }

  lemma {:induction false} RecoveryEnds(s: State, c: Choice)
    requires Inv(s) && WaitInv(s) && s.core.shutdown && !s.monitor.Done? && IsRecovery(s.monitor)
    ensures EndsNearer(s, MonitorStep(s, c))
  {
  }

  lemma {:induction false} InstallEnds(s: State, c: Choice)
    requires Inv(s) && WaitInv(s) && s.core.shutdown && !s.monitor.Done? && IsInstall(s.monitor)
    ensures EndsNearer(s, MonitorStep(s, c))
  {
  }

  lemma {:induction false} SuspendEnds(s: State, c: Choice)
    requires Inv(s) && WaitInv(s) && s.core.shutdown && !s.monitor.Done? && IsSuspend(s.monitor)
    ensures EndsNearer(s, MonitorStep(s, c))
  {
  }

  lemma {:induction false} RestingEnds(s: State, c: Choice)
    requires Inv(s) && WaitInv(s) && s.core.shutdown && !s.monitor.Done? && !HasTurn(s.monitor)
    ensures EndsNearer(s, MonitorStep(s, c))
  {
  }

  lemma {:induction false} EndingTurn(s: State, c: Choice)
    requires Inv(s) && WaitInv(s) && s.core.shutdown && !s.monitor.Done?
    ensures EndsNearer(s, MonitorStep(s, c))
  {
    if IsActive(s.monitor) {
      ActiveEnds(s, c);
    } else if IsRecovery(s.monitor) {
      RecoveryEnds(s, c);
    } else if IsInstall(s.monitor) {
      InstallEnds(s, c);
    } else if IsSuspend(s.monitor) {
      SuspendEnds(s, c);
    } else {
      RestingEnds(s, c);
    }
  }

  lemma {:induction false} OthersLeaveTheEnd(s: State, step: Step)
    requires s.core.shutdown && !step.MonitorTurn?
    ensures Apply(s, step).core.shutdown && Apply(s, step).monitor == s.monitor
  {
  }

  lemma {:induction false} StaysEnded(s: State, step: Step)
    requires Ended(s)
    ensures Ended(Apply(s, step))
  {
  }

  lemma {:induction false} StaysEndedThroughout(s: State, steps: seq<Step>)
    requires Ended(s)
    ensures Ended(After(s, steps))
    decreases |steps|
  {
    if steps != [] {
      StaysEnded(s, steps[0]);
      StaysEndedThroughout(Apply(s, steps[0]), steps[1..]);
    }
  }

  /** After a shutdown the monitor ends within nine turns, however they go, and leaves no suspend waiting. */
  lemma {:induction false} ShutdownEndsTheMonitor(s: State, steps: seq<Step>)
    requires Inv(s) && WaitInv(s) && s.core.shutdown && !s.monitor.Done?
    requires MonitorTurns(steps) >= TurnsToEnd(s.monitor)
    ensures Ended(After(s, steps)) && TurnsToEnd(s.monitor) <= 9
    decreases |steps|
  {
    ApplyInv(s, steps[0]);
    StepKeepsWaitInv(s, steps[0]);
    if steps[0].MonitorTurn? {
      EndingTurn(s, steps[0].choice);
    } else {
      OthersLeaveTheEnd(s, steps[0]);
    }
    if Ended(Apply(s, steps[0])) {
      StaysEndedThroughout(Apply(s, steps[0]), steps[1..]);
    } else {
      ShutdownEndsTheMonitor(Apply(s, steps[0]), steps[1..]);
    }
  }

  /** A loss, or the loss of the host, that can no longer be announced ends the monitor without a word. */
  lemma {:induction false} UnannouncedLossEnds(s: State, c: Choice)
    requires s.monitor.LossAnnouncing? || s.monitor.HostLossAnnouncing?
    requires s.core.shutdown || !c.ok
    ensures MonitorStep(s, c) == s.(monitor := Exiting(None))
  {
  }

  /** A release that can no longer be announced is not reported as one: the caller is told of the shutdown. */
  lemma {:induction false} UnannouncedReleaseIsStopped(s: State, c: Choice, next: Choice)
    requires Inv(s) && s.monitor.SuspendAnnouncing? && (s.core.shutdown || !c.ok)
    ensures var t := MonitorStep(MonitorStep(s, c), next);
            && WaitForSuspend(t.core, s.monitor.generation) == StoppedWaiting && t.monitor.Done?
            && t.published == s.published
  {
  }

  // ----- suspends and resumes from the connection on -----

  /** Whether the step opens an attempt of its own. */
  predicate Begins(s: State, step: Step) {
    step.Suspend? && !s.core.shutdown && s.core.current.None?
  }

  function Begun(s: State, steps: seq<Step>): nat
    decreases |steps|
  {
    if steps == [] then 0 else (if Begins(s, steps[0]) then 1 else 0) + Begun(Apply(s, steps[0]), steps[1..])
  }

  lemma {:induction false} NumbersOn(s: State, steps: seq<Step>)
    ensures After(s, steps).core.nextGeneration == s.core.nextGeneration + Begun(s, steps)
    decreases |steps|
  {
    if steps != [] {
      NumbersOneStep(s, steps[0]);
      NumbersOn(Apply(s, steps[0]), steps[1..]);
    }
  }

  lemma {:induction false} NumbersOneStep(s: State, step: Step)
    ensures Apply(s, step).core.nextGeneration == s.core.nextGeneration + if Begins(s, step) then 1 else 0
  {
    if step.MonitorTurn? {
      TurnsBeginNothing(s, step.choice);
    }
  }

  lemma {:induction false} TurnsBeginNothing(s: State, c: Choice)
    ensures MonitorStep(s, c).core.nextGeneration == s.core.nextGeneration
  {
  }

  /** Attempts are numbered from one on, without a gap. */
  lemma {:induction false} AttemptsAreNumbered(runtime: Runtime, before: seq<Step>)
    requires Begins(After(Connected(runtime), before), Suspend)
    ensures var s := After(Connected(runtime), before);
            && Apply(s, Suspend).core.current.Some?
            && Apply(s, Suspend).core.current.value.generation == 1 + Begun(Connected(runtime), before)
  {
    NumbersOn(Connected(runtime), before);
  }

  lemma {:induction false} StaysOpen(s: State, steps: seq<Step>)
    requires s.resumesClosed ==> s.core.shutdown
    ensures After(s, steps).resumesClosed ==> After(s, steps).core.shutdown
    decreases |steps|
  {
    if steps != [] {
      StaysOpenOneStep(s, steps[0]);
      StaysOpen(Apply(s, steps[0]), steps[1..]);
    }
  }

  lemma {:induction false} StaysOpenOneStep(s: State, step: Step)
    requires s.resumesClosed ==> s.core.shutdown
    ensures Apply(s, step).resumesClosed ==> Apply(s, step).core.shutdown
  {
  }

  /** Whenever a suspend has released the stream and no shutdown was requested, a resume may begin. */
  lemma {:induction false} ReleasedIsResumable(runtime: Runtime, before: seq<Step>)
    requires var k := After(Connected(runtime), before).core; IsReleased(k) && !k.shutdown
    ensures Inv(After(Connected(runtime), before)) && Resumable(After(Connected(runtime), before))
  {
    ConnectedInv(runtime);
    AfterInv(Connected(runtime), before);
    StaysOpen(Connected(runtime), before);
  }

  /** A step of a resume that is out of its order does nothing. */
  lemma {:induction false} OutOfOrderDoesNothing(s: State, step: Step)
    requires IsResumeStep(step) && step.call in s.resumes && !step.DropResume?
    requires match s.resumes[step.call]
             case Admitted => !step.ReadPrior?
             case Prior(_, _, _) => !step.ProveReleased?
             case Proven(_, _, _) => !step.Assemble?
             case Assembled(_, _, _, _) => !step.FinishResume?
    ensures Apply(s, step) == s
  {
  }

  // ----- origins -----

  /** An origin captured in a healthy state is accepted later if and only if the adapter is healthy in the very
      same epoch. */
  lemma {:induction false} OriginAcceptedExactly(s: State, steps: seq<Step>, token: string)
    requires Inv(s) && RequireLifecycle(s.core).Ok? && token == CapturedToken(RequireLifecycle(s.core).value)
    ensures var t := After(s, steps);
            RequireCurrentOrigin(t.core, token).Ok? <==> t.core.healthy && t.core.epoch == s.core.epoch
  {
    var t := After(s, steps);
    AfterInv(s, steps);
    if RequireCurrentOrigin(t.core, token).Ok? {
      OriginTokenInjective(s.core.runtime.identity, s.core.epoch, t.core.runtime.identity, t.core.epoch);
    }
    if t.core.healthy && t.core.epoch == s.core.epoch {
      HealthyPeriodIsContiguous(s, steps, |steps|);
      assert steps[..|steps|] == steps;
    }
  }
}
