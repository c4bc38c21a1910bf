/** What the lifecycle promises over every interleaving of its steps. */
module LifecycleTheorems {
  import opened Wrappers
  import opened Lifecycle

  // ----- what one step may do to the core -----

  /** No later state is healthy under epoch `e`. */
  predicate Dead(k: Core, e: nat) {
    e < k.epoch || (e == k.epoch && !k.healthy && (k.suspended || k.shutdown))
  }

  /** Shutdown was requested, or the host was given up for good. */
  predicate Final(k: Core) {
    k.shutdown || k.terminalLoss.Some?
  }

  predicate Evolves(k: Core, k': Core) {
    && k.epoch <= k'.epoch
    && k.nextGeneration <= k'.nextGeneration
    && (k.shutdown ==> k'.shutdown)
    && (k.healthy && k'.epoch == k.epoch ==> k'.runtime == k.runtime)
    && (k.healthy ==> (k'.healthy && k'.epoch == k.epoch) || Dead(k', k.epoch))
    && (Dead(k, k.epoch) ==> Dead(k', k.epoch))
    && (Final(k) ==> Final(k') && !k'.healthy && k'.runtime == k.runtime && k'.epoch == k.epoch)
    && (k'.current.Some? ==>
          || k'.current.value.generation == k.nextGeneration
          || (k.current.Some?
              && k.current.value.generation == k'.current.value.generation
              && k.current.value.lease == k'.current.value.lease))
    && (k.current.Some? && k.current.value.phase.Stopped? ==> k'.current == k.current)
    && (k.current.Some? && !k.current.value.phase.Requested? && k'.current.Some?
        && k'.current.value.phase.Requested? ==>
          k'.current.value.generation == k.nextGeneration)
  }

  /** The event a step publishes is a Reconnected one exactly when the step makes the adapter healthy,
      and then it names the two identities and the continuity it installs. */
  predicate Publishes(s: State, s': State) {
    var k, k' := s.core, s'.core;
    var turnsHealthy := !k.healthy && k'.healthy;
    || (s'.published == s.published && !turnsHealthy)
    || (s'.published == s.published + [Reconnected(k.runtime.identity, k'.runtime.identity, k'.continuity)]
        && turnsHealthy)
    || (s'.published == s.published + [Unhealthy] && !turnsHealthy)
    || (s'.published == s.published + [HostLostEvent(k.runtime.identity)] && !turnsHealthy)
  }

  lemma {:induction false} TurnEvolves(k: Core, slot: Option<Lease>, m: Monitor, r: Reading, c: Choice)
    requires TurnInv(Goto(k, m), slot, r) && HasTurn(m)
    ensures Evolves(k, TurnOf(k, m, c).core)
  {
  }

  lemma {:induction false} StepEvolves(s: State, step: Step)
    requires Inv(s)
    ensures Evolves(s.core, Apply(s, step).core)
  {
    if step.MonitorTurn? && HasTurn(s.monitor) {
      TurnEvolves(s.core, s.slot, s.monitor, ReadLog(s.published), step.choice);
    }
  }

  lemma {:induction false} TurnPublishes(k: Core, slot: Option<Lease>, m: Monitor, r: Reading, c: Choice)
    requires TurnInv(Goto(k, m), slot, r) && HasTurn(m)
    ensures var turn := TurnOf(k, m, c);
            var turnsHealthy := !k.healthy && turn.core.healthy;
            if turn.event.Some? && turn.event.value.Reconnected?
            then turnsHealthy
                 && turn.event.value == Reconnected(k.runtime.identity, turn.core.runtime.identity,
                     turn.core.continuity)
            else !turnsHealthy && (turn.event.Some? ==> !turn.event.value.Healthy?)
  {
  }

  lemma {:induction false} StepPublishes(s: State, step: Step)
    requires Inv(s)
    ensures Publishes(s, Apply(s, step))
  {
    if step.MonitorTurn? && HasTurn(s.monitor) {
      TurnPublishes(s.core, s.slot, s.monitor, ReadLog(s.published), step.choice);
    }
  }

  // ----- runs -----

  lemma {:induction false} AfterSplit(s: State, steps: seq<Step>, n: nat)
    requires n <= |steps|
    ensures After(s, steps) == After(After(s, steps[..n]), steps[n..])
    decreases n
  {
    if n == 0 {
      assert steps[0..] == steps;
    } else {
      AfterSplit(Apply(s, steps[0]), steps[1..], n - 1);
      assert steps[..n][0] == steps[0] && steps[..n][1..] == steps[1..][..n - 1];
      assert steps[1..][n - 1..] == steps[n..];
    }
  }

  /** A healthy epoch either is healthy still, on the same runtime, or is dead; the dead stay dead. */
  lemma {:induction false} EpochFate(s: State, steps: seq<Step>, e: nat)
    requires Inv(s)
    requires Dead(s.core, e) || (s.core.healthy && s.core.epoch == e)
    ensures var t := After(s, steps).core;
            || Dead(t, e)
            || (s.core.healthy && s.core.epoch == e && t.healthy && t.epoch == e && t.runtime == s.core.runtime)
    decreases |steps|
  {
    if steps != [] {
      StepEvolves(s, steps[0]);
      ApplyInv(s, steps[0]);
      EpochFate(Apply(s, steps[0]), steps[1..], e);
    }
  }

  /** Each epoch is healthy during one contiguous period: between two states that are healthy under
      one epoch, every state is healthy under it, on the same runtime, with no suspend and no shutdown. */
  lemma {:induction false} HealthyPeriodIsContiguous(s: State, steps: seq<Step>, n: nat)
    requires Inv(s) && n <= |steps|
    requires s.core.healthy
    requires After(s, steps).core.healthy && After(s, steps).core.epoch == s.core.epoch
    ensures var mid := After(s, steps[..n]).core;
            && mid.healthy && mid.epoch == s.core.epoch && mid.runtime == s.core.runtime
            && !mid.suspended && !mid.shutdown
  {
    var mid := After(s, steps[..n]);
    AfterInv(s, steps[..n]);
    AfterSplit(s, steps, n);
    EpochFate(s, steps[..n], s.core.epoch);
    if Dead(mid.core, s.core.epoch) {
      EpochFate(mid, steps[n..], s.core.epoch);
    }
  }

  // ----- the origin token -----

  function OriginToken(identity: string, epoch: nat): string {
    identity + "#continuity-" + Decimal(epoch)
  }

  lemma {:induction false} DecimalHasNoDash(n: nat)
    ensures '-' !in Decimal(n) && Decimal(n) != []
  {
    if n >= 10 {
      DecimalHasNoDash(n / 10);
    }
  }

  lemma {:induction false} DecimalInjective(m: nat, n: nat)
    requires Decimal(m) == Decimal(n)
    ensures m == n
  {
    DecimalHasNoDash(m / 10);
    DecimalHasNoDash(n / 10);
    if m >= 10 && n >= 10 {
      assert Decimal(m)[..|Decimal(m)| - 1] == Decimal(m / 10);
      assert Decimal(n)[..|Decimal(n)| - 1] == Decimal(n / 10);
      DecimalInjective(m / 10, n / 10);
    }
  }

  lemma {:induction false} LaterDashIsInside(p: string, x: string, q: string, y: string)
    requires p + "-" + x == q + "-" + y
    ensures |p| > |q| ==> '-' in y
  {
    if |p| > |q| {
      assert (p + "-" + x)[|p|] == '-';
      assert (q + "-" + y)[|p|] == y[|p| - |q| - 1];
    }
  }

  /** The token names the server and the epoch, whatever the server calls itself. */
  lemma {:induction false} OriginTokenInjective(a: string, m: nat, b: string, n: nat)
    requires OriginToken(a, m) == OriginToken(b, n)
    ensures a == b && m == n
  {
    var p, q, x, y := a + "#continuity", b + "#continuity", Decimal(m), Decimal(n);
    assert OriginToken(a, m) == p + "-" + x && OriginToken(b, n) == q + "-" + y;
    LaterDashIsInside(p, x, q, y);
    LaterDashIsInside(q, y, p, x);
    DecimalHasNoDash(m);
    DecimalHasNoDash(n);
    assert (p + "-" + x)[..|p|] == p && (q + "-" + y)[..|q|] == q;
    assert (p + "-" + x)[|p| + 1..] == x && (q + "-" + y)[|q| + 1..] == y;
    assert p[..|a|] == a && q[..|b|] == b;
    DecimalInjective(m, n);
  }

  datatype Refusal = ShutDown | Unavailable | ContextUnavailable

  datatype Authority = Authority(runtime: Runtime, lease: Lease)

  function RequireLifecycle(k: Core): Result<Authority, Refusal> {
    if k.shutdown then Err(ShutDown)
    else if k.suspended then Err(Unavailable)
    else if k.healthy then Ok(Authority(k.runtime, LeaseOf(k.runtime, k.epoch)))
    else Err(Unavailable)
  }

  /** The token an origin captured under this authority carries. */
  function CapturedToken(a: Authority): string {
    OriginToken(a.runtime.identity, a.lease.epoch)
  }

  function RequireCurrentOrigin(k: Core, token: string): Result<Authority, Refusal> {
    var authority := RequireLifecycle(k);
    if authority.Ok? && token != CapturedToken(authority.value) then Err(ContextUnavailable) else authority
  }

  /** An accepted origin was captured in the current healthy period: nothing was lost, suspended or
      shut down since, and the authority is the very one it was captured under. */
  lemma {:induction false} AcceptedOriginIsCurrent(s: State, steps: seq<Step>, n: nat, token: string)
    requires Inv(s) && n <= |steps|
    requires RequireLifecycle(s.core).Ok? && token == CapturedToken(RequireLifecycle(s.core).value)
    requires RequireCurrentOrigin(After(s, steps).core, token).Ok?
    ensures RequireCurrentOrigin(After(s, steps).core, token) == RequireLifecycle(s.core)
    ensures RequireLifecycle(After(s, steps[..n]).core) == RequireLifecycle(s.core)
  {
    var k, t := s.core, After(s, steps).core;
    OriginTokenInjective(k.runtime.identity, k.epoch, t.runtime.identity, t.epoch);
    HealthyPeriodIsContiguous(s, steps, n);
    HealthyPeriodIsContiguous(s, steps, |steps|);
    assert steps[..|steps|] == steps;
  }

  // ----- suspend -----

  datatype Wait = Pending | Suspended | HostGone(error: Error) | StoppedWaiting

  function WaitForSuspend(k: Core, generation: nat): Wait {
    if k.current.None? || k.current.value.generation != generation then StoppedWaiting
    else
      match k.current.value.phase
      case Requested => Pending
      case Released => Suspended
      case HostLost(error) => HostGone(error)
      case Stopped => StoppedWaiting
  }

  /** While an attempt is current it keeps the lease it began with; a later one is newer. */
  lemma {:induction false} AttemptKeepsLease(s: State, steps: seq<Step>, a: Attempt)
    requires Inv(s) && a.generation < s.core.nextGeneration
    requires s.core.current.Some? && s.core.current.value.generation == a.generation
             ==> s.core.current.value.lease == a.lease
    ensures var k := After(s, steps).core;
            && a.generation < k.nextGeneration
            && (k.current.Some? && k.current.value.generation == a.generation ==> k.current.value.lease == a.lease)
    decreases |steps|
  {
    if steps != [] {
      StepEvolves(s, steps[0]);
      ApplyInv(s, steps[0]);
      AttemptKeepsLease(Apply(s, steps[0]), steps[1..], a);
    }
  }

  /** A suspend that returns success: the stream open when the attempt began has ended, no other stream
      exists, and the adapter still stands at the lease it began with, unhealthy and suspended. */
  lemma {:induction false} SuspendedMeansReleased(s: State, steps: seq<Step>)
    requires Inv(s) && s.core.current.Some?
    requires WaitForSuspend(After(s, steps).core, s.core.current.value.generation) == Suspended
    ensures var t := After(s, steps);
            && Owned(t.monitor) == None && t.slot == None
            && t.core.suspended && !t.core.healthy
            && LeaseOf(t.core.runtime, t.core.epoch) == s.core.current.value.lease
  {
    AfterInv(s, steps);
    AttemptKeepsLease(s, steps, s.core.current.value);
  }

  /** At most one subscription exists: the monitor's, or the one a resume left for it. */
  lemma {:induction false} OneSubscription(runtime: Runtime, steps: seq<Step>)
    ensures var s := After(Connected(runtime), steps);
            s.slot == None || Owned(s.monitor) == None
  {
    ConnectedInv(runtime);
    AfterInv(Connected(runtime), steps);
  }

  /** A monitor that goes on to read events always has a stream to read. */
  lemma {:induction false} MonitorNeverPanics(runtime: Runtime, steps: seq<Step>)
    ensures !After(Connected(runtime), steps).monitor.Panicked?
  {
    ConnectedInv(runtime);
    AfterInv(Connected(runtime), steps);
  }

  // ----- a suspend that nobody answers -----

  /** A requested attempt that the monitor can no longer answer. */
  predicate Stranded(s: State) {
    s.monitor.Done? && s.core.current.Some? && s.core.current.value.phase.Requested?
  }

  lemma {:induction false} StrandedOneStep(s: State, step: Step)
    requires Inv(s) && Stranded(s)
    ensures var t := Apply(s, step);
            if step.StopAttempt? && s.core.shutdown
            then Final(t.core) && t.core.shutdown && t.core.current.Some? && t.core.current.value.phase.Stopped?
            else t.core.current == s.core.current && t.monitor == s.monitor
    ensures s.core.shutdown || step.Shutdown? <==> Apply(s, step).core.shutdown
  {
  }

  /** A stranded attempt is answered by shutdown and by nothing else. */
  lemma {:induction false} StrandedUntilShutdown(s: State, steps: seq<Step>)
    requires Inv(s) && Stranded(s)
    ensures var t := After(s, steps);
            t.core.current == s.core.current
            || (&& (s.core.shutdown || Shutdown in steps) && StopAttempt in steps
                && t.core.current.Some? && t.core.current.value.phase.Stopped?)
    decreases |steps|
  {
    if steps != [] {
      var s' := Apply(s, steps[0]);
      ApplyInv(s, steps[0]);
      StrandedOneStep(s, steps[0]);
      if steps[0].StopAttempt? && s.core.shutdown {
        FinalityHolds(s', steps[1..]);
      } else {
        StrandedUntilShutdown(s', steps[1..]);
      }
    }
  }

  lemma {:induction false} OneMore(s: State, steps: seq<Step>, step: Step)
    ensures After(s, steps + [step]) == Apply(After(s, steps), step)
  {
    AfterSplit(s, steps + [step], |steps|);
    assert (steps + [step])[..|steps|] == steps && (steps + [step])[|steps|..] == [step];
    assert After(Apply(After(s, steps), step), []) == Apply(After(s, steps), step);
  }

  /** Takes a run from `s` to `next`, one monitor turn later. */
  lemma {:induction false} Turned(from: State, steps: seq<Step>, s: State, c: Choice, next: State)
      returns (longer: seq<Step>)
    requires After(from, steps) == s && MonitorStep(s, c) == next
    ensures After(from, longer) == next
  {
    OneMore(from, steps, MonitorTurn(c));
    longer := steps + [MonitorTurn(c)];
  }

  lemma {:induction false} LossCanBeMarked(runtime: Runtime, yes: Choice, no: Choice)
      returns (steps: seq<Step>, s: State)
    requires yes.ok && !no.ok && no.lease == LeaseOf(runtime, 1)
    ensures After(Connected(runtime), steps) == s && s.monitor == ReconnectHead(no.lease)
    ensures s.core == Connected(runtime).core.(healthy := false, epoch := 2, continuity := 2)
  {
    var s0, lease := Connected(runtime), no.lease;
    var lost := s0.(core := s0.core.(healthy := false, epoch := 2, continuity := 2));
    steps := Turned(s0, [], s0, no, s0.(monitor := Checked(Some(lease))));
    steps := Turned(s0, steps, s0.(monitor := Checked(Some(lease))), no, s0.(monitor := Waiting(lease)));
    steps := Turned(s0, steps, s0.(monitor := Waiting(lease)), no, s0.(monitor := Losing(lease, no.error, lease)));
    steps := Turned(s0, steps, s0.(monitor := Losing(lease, no.error, lease)), no,
        lost.(monitor := Lost(lease, lease)));
    steps := Turned(s0, steps, lost.(monitor := Lost(lease, lease)), no, lost.(monitor := LossAnnouncing(lease)));
    s := lost.(monitor := ReconnectHead(lease), published := s0.published + [Unhealthy]);
    steps := Turned(s0, steps, lost.(monitor := LossAnnouncing(lease)), yes, s);
  }

  /** A suspend that begins while the loss of the epoch before is being recorded is not answered by it. */
  lemma {:induction false} HostLossStrands(s: State, c: Choice)
    requires s.monitor.HostLosing? && s.monitor.lost == LeaseOf(s.core.runtime, 1) && s.core.epoch == 2 && c.ok
    requires s.core.current == None && s.core.terminalLoss == None && !s.core.shutdown && !s.core.suspended
    ensures var t := MonitorStep(MonitorStep(Apply(s, Suspend), c), c);
            Stranded(t) && !t.core.shutdown
  {
  }

  /** A suspend that begins after the monitor last looked at the flags, while the monitor is giving the
      host up, is stranded: the terminal loss names the lease of the epoch before. */
  lemma {:induction false} SuspendCanStrand(runtime: Runtime, error: Error) returns (steps: seq<Step>)
    ensures Stranded(After(Connected(runtime), steps)) && !After(Connected(runtime), steps).core.shutdown
  {
    var s0, lease := Connected(runtime), LeaseOf(runtime, 1);
    var yes := Choice(true, false, Full, lease, runtime, error);
    var no := yes.(ok := false);
    var s;
    steps, s := LossCanBeMarked(runtime, yes, no);
    steps := Turned(s0, steps, s, no, s.(monitor := ReconnectChecked(lease)));
    steps := Turned(s0, steps, s.(monitor := ReconnectChecked(lease)), no, s.(monitor := HostLosing(lease, error)));
    HostLossStrands(s.(monitor := HostLosing(lease, error)), yes);
    OneMore(s0, steps, Suspend);
    steps := steps + [Suspend];
    var t := After(s0, steps);
    steps := Turned(s0, steps, t, yes, MonitorStep(t, yes));
    steps := Turned(s0, steps, MonitorStep(t, yes), yes, MonitorStep(MonitorStep(t, yes), yes));
  }

  // ----- finality -----

  function Reconnects(log: seq<Event>): nat {
    if log == [] then 0 else Reconnects(log[..|log| - 1]) + if log[|log| - 1].Reconnected? then 1 else 0
  }

  /** After shutdown, or after a terminal loss, no run becomes healthy, installs a runtime or publishes
      another Reconnected; a stopped suspend attempt stays as it is. */
  lemma {:induction false} FinalityHolds(s: State, steps: seq<Step>)
    requires Inv(s) && Final(s.core)
    ensures var t := After(s, steps);
            && Final(t.core) && !t.core.healthy
            && t.core.runtime == s.core.runtime && t.core.epoch == s.core.epoch
            && Reconnects(t.published) == Reconnects(s.published)
            && (s.core.current.Some? && s.core.current.value.phase.Stopped? ==> t.core.current == s.core.current)
    decreases |steps|
  {
    if steps != [] {
      var s' := Apply(s, steps[0]);
      StepEvolves(s, steps[0]);
      StepPublishes(s, steps[0]);
      ApplyInv(s, steps[0]);
      assert s'.published != s.published ==> s'.published[..|s'.published| - 1] == s.published;
      FinalityHolds(s', steps[1..]);
    }
  }

  // ----- the published events -----

  predicate Announces(event: Event) {
    event.Healthy? || event.Reconnected?
  }

  function AnnouncedIdentity(event: Event): string
    requires Announces(event)
  {
    if event.Healthy? then event.identity else event.current
  }

  function AnnouncedContinuity(event: Event): nat
    requires Announces(event)
  {
    if event.Healthy? then 1 else event.continuity
  }

  lemma {:induction false} ChainedPrefix(log: seq<Event>, n: nat)
    requires ReadLog(log).chained && n <= |log|
    ensures ReadLog(log[..n]).chained
    decreases |log|
  {
    if n == |log| {
      assert log[..n] == log;
    } else {
      assert log[..|log| - 1][..n] == log[..n];
      ChainedPrefix(log[..|log| - 1], n);
    }
  }

  /** What a reader knows at `j` when the last announcement was at `i`. */
  lemma {:induction false} ReadSince(log: seq<Event>, i: nat, j: nat)
    requires i < j <= |log| && Announces(log[i])
    requires forall m :: i < m < j ==> !Announces(log[m])
    ensures ReadLog(log[..j]).identity == AnnouncedIdentity(log[i])
    ensures ReadLog(log[..j]).continuity == AnnouncedContinuity(log[i])
    ensures ReadLog(log[..j]).unhealthy ==> exists m :: i < m < j && log[m].Unhealthy?
    decreases j
  {
    assert log[..j][..j - 1] == log[..j - 1];
    if i + 1 < j {
      ReadSince(log, i, j - 1);
    }
  }

  /** Consecutive announcements of any run form a chain: each Reconnected starts from the identity
      announced before it, carries a larger continuity, and comes after an Unhealthy event. */
  lemma {:induction false} ReconnectsFormAChain(runtime: Runtime, steps: seq<Step>, i: nat, j: nat)
    requires var log := After(Connected(runtime), steps).published;
             && i < j < |log| && Announces(log[i]) && log[j].Reconnected?
             && forall m :: i < m < j ==> !Announces(log[m])
    ensures var log := After(Connected(runtime), steps).published;
            && log[j].previous == AnnouncedIdentity(log[i])
            && log[j].continuity > AnnouncedContinuity(log[i])
            && exists m :: i < m < j && log[m].Unhealthy?
  {
    var log := After(Connected(runtime), steps).published;
    ConnectedInv(runtime);
    AfterInv(Connected(runtime), steps);
    ChainedPrefix(log, j + 1);
    assert log[..j + 1][..j] == log[..j];
    ReadSince(log, i, j);
  }
}
