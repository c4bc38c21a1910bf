/** The adapter object: its fields, and one method for each region that updates them. Every method is
proved to take exactly the step of `Lifecycle` it stands for, so the theorems about runs hold of any
schedule of these methods; `ConnectAndExecute` and `SuspendForActivation` state the main ones of the object
itself. */
module Adapter {
  import opened Wrappers
  import opened LC = Lifecycle
  import opened LT = LifecycleTheorems
  import opened SR = SuspendResponse

  class HerdrAdapter {
    var runtime: Runtime
    var epoch: nat
    var continuity: nat
    var healthy: bool
    var shutdown: bool
    var suspended: bool
    var nextGeneration: nat
    var current: Option<Attempt>
    var terminalLoss: Option<TerminalLoss>
    var slot: Option<Lease>
    var monitor: Monitor
    var resumes: map<nat, Resume>
    var resumesClosed: bool
    ghost var published: seq<Event>

    ghost function CoreNow(): Core
      reads this
    {
      Core(runtime, epoch, continuity, healthy, shutdown, suspended, nextGeneration, current, terminalLoss)
    }

    ghost function Now(): State
      reads this
    {
      State(CoreNow(), slot, monitor, resumes, resumesClosed, published)
    }

    constructor Connect(connected: Runtime)
      ensures Now() == Connected(connected)
    {
      runtime, epoch, continuity, healthy := connected, 1, 1, true;
      shutdown, suspended, nextGeneration, current, terminalLoss := false, false, 1, None, None;
      slot, monitor := None, Head(Some(LeaseOf(connected, 1)));
      resumes, resumesClosed := map[], false;
      published := [Healthy(connected.identity)];
    }

    // ----- locked regions -----

    method MarkLost(lease: Lease) returns (transitioned: bool)
      modifies this
      ensures transitioned == CanLose(old(CoreNow()), lease)
      ensures Now() == old(Now()).(core := TransitionToLost(old(CoreNow()), lease))
    {
      if shutdown || suspended {
        return false;
      }
      if !healthy || epoch != lease.epoch || LeaseOf(runtime, epoch) != lease {
        return false;
      }
      healthy := false;
      epoch := epoch + 1;
      continuity := continuity + 1;
      return true;
    }

    method InstallReconnected(refreshed: Runtime, lease: Lease) returns (installed: bool)
      modifies this
      ensures installed == CanInstall(old(CoreNow()), refreshed, lease)
      ensures Now() == old(Now()).(
                core := Install(old(CoreNow()), refreshed, lease),
                published := if installed
                             then old(published) + [Reconnected(old(runtime).identity, refreshed.identity, old(continuity))]
                             else old(published))
    {
      if shutdown || suspended {
        return false;
      }
      if healthy || epoch != lease.epoch || LeaseOf(refreshed, epoch) != lease {
        return false;
      }
      published := published + [Reconnected(runtime.identity, refreshed.identity, continuity)];
      runtime := refreshed;
      healthy := true;
      return true;
    }

    /** The generation to wait for, and whether this call began the attempt; an error once shut down. */
    method BeginOrJoinSuspend() returns (joined: Result<(nat, bool), ()>)
      modifies this
      ensures Now() == old(Now()).(core := BeginSuspend(old(CoreNow())))
      ensures joined.Err? <==> old(shutdown)
      ensures joined.Ok? ==>
                && current.Some? && joined.value.0 == current.value.generation
                && (joined.value.1 <==> old(current).None? && old(terminalLoss).None?)
    {
      if shutdown {
        return Err(());
      }
      if current.Some? {
        return Ok((current.value.generation, false));
      }
      var generation := nextGeneration;
      nextGeneration := generation + 1;
      var lease, phase, requested := LeaseOf(runtime, epoch), Requested, true;
      if terminalLoss.Some? {
        lease, phase, requested := terminalLoss.value.lease, HostLost(terminalLoss.value.error), false;
      }
      current := Some(Attempt(generation, lease, phase));
      suspended := true;
      healthy := false;
      return Ok((generation, requested));
    }

    method FinishSuspend(generation: nat, phase: Phase)
      modifies this
      ensures Now() == old(Now()).(core := CompleteSuspend(old(CoreNow()), generation, phase))
    {
      if current.Some? && current.value.generation == generation && current.value.phase.Requested? {
        current := Some(current.value.(phase := phase));
      }
    }

    method StopSuspend()
      modifies this
      ensures Now() == old(Now()).(core := CompleteSuspendShutdown(old(CoreNow())))
    {
      if current.Some? {
        current := Some(current.value.(phase := Stopped));
      }
    }

    method GiveUpHost(lease: Lease, error: Error)
      modifies this
      ensures Now() == old(Now()).(core := RecordTerminalLoss(old(CoreNow()), lease, error))
    {
      terminalLoss := Some(TerminalLoss(lease, error));
      if current.Some? && current.value.lease == lease && current.value.phase.Requested? {
        current := Some(current.value.(phase := HostLost(error)));
      }
    }

    method RequestShutdown()
      modifies this
      ensures Now() == Apply(old(Now()), Shutdown)
    {
      shutdown := true;
      healthy := false;
    }

    // ----- resume -----

    method AdmitResumeCall(call: nat) returns (admitted: bool)
      requires call !in resumes
      modifies this
      ensures admitted <==> !old(resumesClosed) && !old(shutdown)
      ensures Now() == Apply(old(Now()), AdmitResume(call))
    {
      if resumesClosed || shutdown {
        return false;
      }
      resumes := resumes[call := Admitted];
      return true;
    }

    method ReadPriorIncarnation(call: nat)
      requires call in resumes && resumes[call].Admitted?
      modifies this
      ensures Now() == Apply(old(Now()), ReadPrior(call))
    {
      resumes := resumes[call := Prior(epoch, continuity, LeaseOf(runtime, epoch))];
    }

    method CheckReleased(call: nat) returns (released: bool)
      requires call in resumes && resumes[call].Prior?
      modifies this
      ensures released == IsReleasedFor(old(CoreNow()), old(resumes)[call].lease)
      ensures Now() == Apply(old(Now()), ProveReleased(call))
    {
      var r := resumes[call];
      released := current.Some? && current.value.lease == r.lease && current.value.phase.Released?;
      if released {
        resumes := resumes[call := Proven(r.epoch, r.continuity, r.lease)];
      } else {
        resumes := resumes - {call};
      }
    }

    method AssembleRuntime(call: nat, refreshed: Runtime)
      requires call in resumes && resumes[call].Proven?
      modifies this
      ensures Now() == Apply(old(Now()), Assemble(call, refreshed))
    {
      var r := resumes[call];
      resumes := resumes[call := Assembled(r.epoch, r.continuity, r.lease, refreshed)];
    }

    method InstallResumed(r: Resume) returns (resumed: bool)
      requires r.Assembled?
      modifies `runtime, `epoch, `continuity, `healthy, `current, `terminalLoss, `suspended, `slot, `published
      ensures resumed == CanResume(old(CoreNow()), r)
      ensures CoreNow() == InstallResume(old(CoreNow()), r)
      ensures slot == if resumed then Some(LeaseOf(r.runtime, r.epoch + 1)) else old(slot)
      ensures published == if resumed
                           then old(published)
                                + [Reconnected(old(runtime).identity, r.runtime.identity, r.continuity + 1)]
                           else old(published)
    {
      if shutdown {
        return false;
      }
      var released := current.Some? && current.value.lease == r.lease && current.value.phase.Released?;
      if !suspended || epoch != r.epoch || healthy || !released {
        return false;
      }
      published := published + [Reconnected(runtime.identity, r.runtime.identity, r.continuity + 1)];
      slot := Some(LeaseOf(r.runtime, r.epoch + 1));
      runtime, epoch, continuity, healthy := r.runtime, r.epoch + 1, r.continuity + 1, true;
      current, terminalLoss, suspended := None, None, false;
      return true;
    }

    method CommitResume(call: nat, permit: Permit) returns (resumed: bool)
      requires call in resumes && resumes[call].Assembled?
      modifies this
      ensures resumed <==> permit.Reserved? && CanResume(old(CoreNow()), old(resumes)[call])
      ensures Now() == Apply(old(Now()), FinishResume(call, permit))
    {
      var r := resumes[call];
      resumes := resumes - {call};
      resumed := false;
      if permit.Reserved? {
        resumed := InstallResumed(r);
      }
    }

    // ----- the monitor task -----

    method Send(event: Event)
      modifies this
      ensures Now() == old(Now()).(published := old(published) + [event])
    {
      published := published + [event];
    }

    method Fail(lost: Lease, c: Choice)
      modifies this
      ensures Now() == AfterTurn(old(Now()), AfterFailure(old(CoreNow()), lost, c))
    {
      monitor := if c.retry then ReconnectHead(lost) else HostLosing(lost, c.error);
    }

    method TurnActive(c: Choice)
      requires IsActive(monitor)
      modifies this
      ensures Now() == AfterTurn(old(Now()), ActiveTurn(old(CoreNow()), old(monitor), c))
    {
      match monitor
      case Head(sub) =>
        monitor := if shutdown then Exiting(sub) else Checked(sub);
      case Checked(sub) =>
        if suspended {
          monitor := Parking(sub);
        } else {
          monitor := if sub.Some? then Waiting(sub.value) else Panicked;
        }
      case Waiting(owned) =>
        monitor := if c.ok then Head(Some(owned)) else Losing(c.lease, c.error, owned);
      case Losing(report, _, owned) =>
        var transitioned := MarkLost(report);
        monitor := if transitioned then Lost(report, owned) else Head(Some(owned));
    }

    method TurnRecovery(c: Choice)
      requires IsRecovery(monitor)
      modifies this
      ensures Now() == AfterTurn(old(Now()), RecoveryTurn(old(CoreNow()), old(monitor), c))
    {
      match monitor
      case Lost(lost, _) =>
        monitor := LossAnnouncing(lost);
      case LossAnnouncing(lost) =>
        if shutdown || !c.ok {
          monitor := Exiting(None);
        } else {
          Send(Unhealthy);
          monitor := ReconnectHead(lost);
        }
      case ReconnectHead(lost) =>
        monitor := if shutdown then Exiting(None) else ReconnectChecked(lost);
      case ReconnectChecked(lost) =>
        if suspended {
          monitor := Head(None);
        } else {
          monitor := if c.ok then Attempting(lost) else HostLosing(lost, c.error);
        }
      case Attempting(lost) =>
        if healthy {
          Fail(lost, c);
        } else {
          monitor := Connecting(lost, epoch);
        }
      case Connecting(lost, under) =>
        if c.ok {
          monitor := Installing(lost, c.runtime, LeaseOf(c.runtime, under));
        } else {
          Fail(lost, c);
        }
    }

    method TurnInstall(c: Choice)
      requires IsInstall(monitor)
      modifies this
      ensures Now() == AfterTurn(old(Now()), InstallTurn(old(CoreNow()), old(monitor), c))
    {
      match monitor
      case Installing(lost, refreshed, owned) =>
        match c.permit {
          case Closed => monitor := Exiting(Some(owned));
          case Full => monitor := InstallFailed(lost, owned);
          case Reserved =>
            var changed := shutdown || suspended;
            var installed := InstallReconnected(refreshed, owned);
            monitor := if changed then FlagsChanged(lost, owned)
                       else if installed then Head(Some(owned)) else InstallFailed(lost, owned);
        }
      case InstallFailed(lost, _) =>
        Fail(lost, c);
      case FlagsChanged(lost, owned) =>
        monitor := if shutdown then Exiting(Some(owned)) else FlagsRechecked(lost, owned);
      case FlagsRechecked(lost, owned) =>
        monitor := if suspended then Head(Some(owned)) else InstallFailed(lost, owned);
      case HostLosing(lost, error) =>
        GiveUpHost(lost, error);
        monitor := HostLossAnnouncing;
      case HostLossAnnouncing =>
        if shutdown || !c.ok {
          monitor := Exiting(None);
        } else {
          Send(HostLostEvent(runtime.identity));
          monitor := Done;
        }
    }

    method TurnSuspend(c: Choice)
      requires IsSuspend(monitor)
      modifies this
      ensures Now() == AfterTurn(old(Now()), SuspendTurn(old(CoreNow()), old(monitor), c))
    {
      match monitor
      case Parking(sub) =>
        if current.Some? && current.value.phase.Requested? && (sub.Some? ==> current.value.lease == sub.value) {
          monitor := Releasing(current.value.generation, sub);
        } else {
          monitor := Head(sub);
        }
      case Releasing(generation, _) =>
        monitor := Draining(generation);
      case Draining(generation) =>
        monitor := if c.ok then SuspendAnnouncing(generation) else Completing(generation, HostLost(c.error));
      case SuspendAnnouncing(generation) =>
        if shutdown || !c.ok {
          monitor := Completing(generation, Stopped);
        } else {
          Send(Unhealthy);
          monitor := Completing(generation, Released);
        }
      case Completing(generation, phase) =>
        FinishSuspend(generation, phase);
        monitor := if phase.Released? then Parked else Done;
    }

    method TurnResting()
      requires !HasTurn(monitor)
      modifies this
      ensures Now() == RestingStep(old(Now()))
    {
      match monitor
      case Parked =>
        if slot.Some? {
          monitor := Head(slot);
          slot := None;
        } else {
          monitor := ParkedEmpty;
        }
      case ParkedEmpty =>
        monitor := if shutdown then Exiting(None) else Parked;
      case Exiting(_) =>
        StopSuspend();
        monitor := Done;
      case Done =>
      case Panicked =>
    }

    method TurnMonitor(c: Choice)
      modifies this
      ensures Now() == Apply(old(Now()), MonitorTurn(c))
    {
      if IsActive(monitor) {
        TurnActive(c);
      } else if IsRecovery(monitor) {
        TurnRecovery(c);
      } else if IsInstall(monitor) {
        TurnInstall(c);
      } else if IsSuspend(monitor) {
        TurnSuspend(c);
      } else {
        TurnResting();
      }
    }

    // ----- schedules -----

    method TakeResumeStep(step: Step)
      requires IsResumeStep(step)
      modifies this
      ensures Now() == Apply(old(Now()), step)
    {
      match step
      case AdmitResume(call) =>
        if call !in resumes {
          var _ := AdmitResumeCall(call);
        }
      case ReadPrior(call) =>
        if call in resumes && resumes[call].Admitted? {
          ReadPriorIncarnation(call);
        }
      case ProveReleased(call) =>
        if call in resumes && resumes[call].Prior? {
          var _ := CheckReleased(call);
        }
      case Assemble(call, refreshed) =>
        if call in resumes && resumes[call].Proven? {
          AssembleRuntime(call, refreshed);
        }
      case FinishResume(call, permit) =>
        if call in resumes && resumes[call].Assembled? {
          var _ := CommitResume(call, permit);
        }
      case DropResume(call) =>
        resumes := resumes - {call};
    }

    method Take(step: Step)
      modifies this
      ensures Now() == Apply(old(Now()), step)
    {
      if IsResumeStep(step) {
        TakeResumeStep(step);
      } else {
        match step
        case Suspend =>
          var _ := BeginOrJoinSuspend();
        case Shutdown =>
          RequestShutdown();
        case StopAttempt =>
          if shutdown {
            StopSuspend();
          }
        case CloseResumes =>
          if shutdown {
            resumesClosed := true;
          }
        case ClearSlot =>
          if shutdown {
            slot := None;
          }
        case MonitorTurn(c) =>
          TurnMonitor(c);
      }
    }

    /** Any schedule of the adapter's regions is a run, and keeps the invariant. */
    method Execute(schedule: seq<Step>)
      requires Inv(Now())
      modifies this
      ensures Now() == After(old(Now()), schedule) && Inv(Now())
    {
      var i := 0;
      while i < |schedule|
        invariant 0 <= i <= |schedule|
        invariant Inv(Now())
        invariant After(Now(), schedule[i..]) == After(old(Now()), schedule)
      {
        ApplyInv(Now(), schedule[i]);
        assert schedule[i..][0] == schedule[i] && schedule[i..][1..] == schedule[i + 1..];
        Take(schedule[i]);
        i := i + 1;
      }
    }

    /** The adapter from its connection on, under any schedule: it holds at most one stream, its monitor has
        one where it needs one, and its events form a chain that ends at the runtime it stands for. */
    static method ConnectAndExecute(connected: Runtime, schedule: seq<Step>) returns (adapter: HerdrAdapter)
      ensures fresh(adapter) && adapter.Now() == After(Connected(connected), schedule)
      ensures Inv(adapter.Now()) && WaitInv(adapter.Now())
      ensures adapter.slot == None || Owned(adapter.monitor) == None
      ensures !adapter.monitor.Panicked?
      ensures ReadLog(adapter.published).chained
      ensures ReadLog(adapter.published).identity == adapter.runtime.identity
      ensures adapter.shutdown ==> !adapter.healthy
    {
      adapter := new HerdrAdapter.Connect(connected);
      ConnectedInv(connected);
      RunKeepsWaitInv(Connected(connected), schedule);
      adapter.Execute(schedule);
    }

    /** A suspend for an activation, with any schedule between its request and the look at its answer. When it
        reports success the adapter has no stream and still stands where it stood, unhealthy; asked of a
        healthy adapter it has an answer once the monitor had thirteen turns and no shutdown came; after a
        shutdown it is refused. */
    method SuspendForActivation(schedule: seq<Step>) returns (answer: Wait)
      requires Inv(Now()) && WaitInv(Now())
      modifies this
      ensures Now() == After(Apply(old(Now()), Suspend), schedule) && Inv(Now()) && WaitInv(Now())
      ensures answer.Suspended? ==>
                && slot == None && Owned(monitor) == None && suspended && !healthy
                && BeginSuspend(old(CoreNow())).current.Some?
                && LeaseOf(runtime, epoch) == BeginSuspend(old(CoreNow())).current.value.lease
                && (old(healthy) ==> LeaseOf(runtime, epoch) == LeaseOf(old(runtime), old(epoch)))
      ensures old(healthy) && Shutdown !in schedule && MonitorTurns(schedule) >= 13 ==> !answer.Pending?
      ensures old(shutdown) ==> answer.StoppedWaiting?
    {
      ghost var before := Now();
      ApplyInv(Now(), Suspend);
      StepKeepsWaitInv(Now(), Suspend);
      var joined := BeginOrJoinSuspend();
      ghost var begun := Now();
      RunKeepsWaitInv(begun, schedule);
      Execute(schedule);
      if joined.Err? {
        return StoppedWaiting;
      }
      answer := WaitForSuspend(
        Core(runtime, epoch, continuity, healthy, shutdown, suspended, nextGeneration, current, terminalLoss),
        joined.value.0);
      if answer.Suspended? {
        SuspendedMeansReleased(begun, schedule);
      }
      if before.core.healthy && Shutdown !in schedule && MonitorTurns(schedule) >= 13 {
        HealthyIsOnTrack(before);
        AnsweredInTime(begun, schedule, joined.value.0);
        AnswerReturns(begun, schedule, joined.value.0);
      }
    }
  }
}
