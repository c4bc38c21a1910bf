/** The lifecycle of one host adapter as a step system.

Every region that the adapter runs under its incarnation lock or its suspend lock is one step, and
every flag it loads outside those locks is a step of its own. Sockets, timers and the host appear
as the choices of a step. The module defines the steps as total functions on `State`; a step whose
guard does not hold leaves the state alone, so any sequence of steps is an interleaving. */
module Lifecycle {
  import opened Wrappers

  type Error = string

  /** A connected runtime: the identity the host reported and the endpoint token it was seen at. */
  datatype Runtime = Runtime(identity: string, endpoint: nat)

  /** The authority to talk to one endpoint during one epoch, compared by value. */
  datatype Lease = Lease(endpoint: nat, epoch: nat)

  function LeaseOf(runtime: Runtime, epoch: nat): Lease {
    Lease(runtime.endpoint, epoch)
  }

  datatype Phase = Requested | Released | HostLost(error: Error) | Stopped

  datatype Attempt = Attempt(generation: nat, lease: Lease, phase: Phase)

  datatype TerminalLoss = TerminalLoss(lease: Lease, error: Error)

  datatype Event =
    | Healthy(identity: string)
    | Unhealthy
    | Reconnected(previous: string, current: string, continuity: nat)
    | HostLostEvent(identity: string)

  /** Where the monitor task is, and the subscription it owns there. A subscription is known by the
      lease it was opened under. */
  datatype Monitor =
    | Head(sub: Option<Lease>)                              // loads `shutdown`
    | Checked(sub: Option<Lease>)                           // loads `suspended`
    | Waiting(owned: Lease)                                 // reads events and loss reports
    | Losing(report: Lease, error: Error, owned: Lease)     // about to mark the epoch lost
    | Lost(lost: Lease, owned: Lease)                       // about to drop the lost stream
    | LossAnnouncing(lost: Lease)                           // about to publish Unhealthy
    | ReconnectHead(lost: Lease)                            // loads `shutdown`
    | ReconnectChecked(lost: Lease)                         // loads `suspended`
    | Attempting(lost: Lease)                               // reads the epoch to reconnect under
    | Connecting(lost: Lease, epoch: nat)                   // opens a runtime and a subscription
    | Installing(lost: Lease, runtime: Runtime, owned: Lease)
    | InstallFailed(lost: Lease, owned: Lease)              // about to drop the unused stream
    | FlagsChanged(lost: Lease, owned: Lease)               // loads `shutdown` again
    | FlagsRechecked(lost: Lease, owned: Lease)             // loads `suspended` again
    | HostLosing(lost: Lease, error: Error)                 // about to record the terminal loss
    | HostLossAnnouncing                                    // about to publish HostLost
    | Parking(sub: Option<Lease>)                           // looks for a requested suspend
    | Releasing(generation: nat, sub: Option<Lease>)        // about to drop the stream
    | Draining(generation: nat)                             // joins the send queue
    | SuspendAnnouncing(generation: nat)                    // about to publish Unhealthy
    | Completing(generation: nat, phase: Phase)             // about to complete the attempt
    | Parked                                                // looks into the resume slot
    | ParkedEmpty                                           // found it empty; loads `shutdown`
    | Exiting(sub: Option<Lease>)                           // about to stop the attempt and return
    | Done
    | Panicked                                              // an active monitor without a stream

  /** One call of `resume_after_activation_abort` between its locked regions. */
  datatype Resume =
    | Admitted
    | Prior(epoch: nat, continuity: nat, lease: Lease)
    | Proven(epoch: nat, continuity: nat, lease: Lease)
    | Assembled(epoch: nat, continuity: nat, lease: Lease, runtime: Runtime)

  /** What the incarnation lock and the suspend lock guard. */
  datatype Core = Core(
    runtime: Runtime,
    epoch: nat,
    continuity: nat,
    healthy: bool,
    shutdown: bool,
    suspended: bool,
    nextGeneration: nat,
    current: Option<Attempt>,
    terminalLoss: Option<TerminalLoss>)

  /** `published` is history: every health event in the order it entered the queue. */
  datatype State = State(
    core: Core,
    slot: Option<Lease>,
    monitor: Monitor,
    resumes: map<nat, Resume>,
    resumesClosed: bool,
    published: seq<Event>)

  /** The state `connect` returns: healthy, with the first stream handed to the monitor. */
  function Connected(runtime: Runtime): State {
    State(Core(runtime, 1, 1, true, false, false, 1, None, None), None,
          Head(Some(LeaseOf(runtime, 1))), map[], false, [Healthy(runtime.identity)])
  }

  // ----- the locked regions -----

  predicate CanLose(k: Core, lease: Lease) {
    !k.shutdown && !k.suspended && k.healthy && k.epoch == lease.epoch && LeaseOf(k.runtime, k.epoch) == lease
  }

  function TransitionToLost(k: Core, lease: Lease): Core {
    if CanLose(k, lease)
    then k.(healthy := false, epoch := k.epoch + 1, continuity := k.continuity + 1)
    else k
  }

  predicate CanInstall(k: Core, runtime: Runtime, lease: Lease) {
    !k.shutdown && !k.suspended && !k.healthy && k.epoch == lease.epoch && LeaseOf(runtime, k.epoch) == lease
  }

  function Install(k: Core, runtime: Runtime, lease: Lease): Core {
    if CanInstall(k, runtime, lease) then k.(runtime := runtime, healthy := true) else k
  }

  function BeginSuspend(k: Core): Core {
    if k.shutdown || k.current.Some? then k
    else
      var attempt := if k.terminalLoss.Some?
                     then Attempt(k.nextGeneration, k.terminalLoss.value.lease, HostLost(k.terminalLoss.value.error))
                     else Attempt(k.nextGeneration, LeaseOf(k.runtime, k.epoch), Requested);
      k.(nextGeneration := k.nextGeneration + 1, current := Some(attempt), suspended := true, healthy := false)
  }

  function RequestedSuspendFor(k: Core, lease: Option<Lease>): Option<nat> {
    if k.current.Some? && k.current.value.phase.Requested? && (lease.Some? ==> k.current.value.lease == lease.value)
    then Some(k.current.value.generation)
    else None
  }

  function CompleteSuspend(k: Core, generation: nat, phase: Phase): Core {
    if k.current.Some? && k.current.value.generation == generation && k.current.value.phase.Requested?
    then k.(current := Some(k.current.value.(phase := phase)))
    else k
  }

  function CompleteSuspendShutdown(k: Core): Core {
    if k.current.Some? then k.(current := Some(k.current.value.(phase := Stopped))) else k
  }

  function RecordTerminalLoss(k: Core, lease: Lease, error: Error): Core {
    var k' := k.(terminalLoss := Some(TerminalLoss(lease, error)));
    if k.current.Some? && k.current.value.lease == lease && k.current.value.phase.Requested?
    then k'.(current := Some(k.current.value.(phase := HostLost(error))))
    else k'
  }

  function BeginShutdown(k: Core): Core {
    k.(shutdown := true, healthy := false)
  }

  predicate IsReleasedFor(k: Core, lease: Lease) {
    k.current.Some? && k.current.value.lease == lease && k.current.value.phase.Released?
  }

  /** The last locked region of a resume: everything becomes current, or nothing does. */
  predicate CanResume(k: Core, r: Resume)
    requires r.Assembled?
  {
    !k.shutdown && k.suspended && k.epoch == r.epoch && !k.healthy && IsReleasedFor(k, r.lease)
  }

  function InstallResume(k: Core, r: Resume): Core
    requires r.Assembled?
  {
    if CanResume(k, r)
    then k.(runtime := r.runtime, epoch := r.epoch + 1, continuity := r.continuity + 1, healthy := true,
            current := None, terminalLoss := None, suspended := false)
    else k
  }

  // ----- the monitor -----

  datatype Permit = Reserved | Full | Closed

  /** What the environment decides for one monitor step: whether the awaited operation succeeded,
      which report or runtime it delivered, and whether the recovery deadline leaves room to retry. */
  datatype Choice = Choice(ok: bool, retry: bool, permit: Permit, lease: Lease, runtime: Runtime, error: Error)

  /** The core and the monitor after a monitor step, and the event it published, if any. */
  datatype Turn = Turn(core: Core, monitor: Monitor, event: Option<Event>)

  function Goto(k: Core, m: Monitor): Turn {
    Turn(k, m, None)
  }

  function AfterFailure(k: Core, lost: Lease, c: Choice): Turn {
    Goto(k, if c.retry then ReconnectHead(lost) else HostLosing(lost, c.error))
  }

  predicate IsActive(m: Monitor) {
    m.Head? || m.Checked? || m.Waiting? || m.Losing?
  }

  predicate IsRecovery(m: Monitor) {
    m.Lost? || m.LossAnnouncing? || m.ReconnectHead? || m.ReconnectChecked? || m.Attempting? || m.Connecting?
  }

  predicate IsInstall(m: Monitor) {
    || m.Installing? || m.InstallFailed? || m.FlagsChanged? || m.FlagsRechecked?
    || m.HostLosing? || m.HostLossAnnouncing?
  }

  predicate IsSuspend(m: Monitor) {
    m.Parking? || HandlesSuspend(m)
  }

  /** Reading events until a loss report or a suspend. */
  function ActiveTurn(k: Core, m: Monitor, c: Choice): Turn
    requires IsActive(m)
  {
    match m
    case Head(sub) => Goto(k, if k.shutdown then Exiting(sub) else Checked(sub))
    case Checked(sub) =>
      Goto(k, if k.suspended then Parking(sub) else if sub.Some? then Waiting(sub.value) else Panicked)
    case Waiting(owned) => Goto(k, if c.ok then Head(Some(owned)) else Losing(c.lease, c.error, owned))
    case Losing(report, _, owned) =>
      Goto(TransitionToLost(k, report), if CanLose(k, report) then Lost(report, owned) else Head(Some(owned)))
  }

  /** From a marked loss to a fresh stream that is ready to be installed. */
  function RecoveryTurn(k: Core, m: Monitor, c: Choice): Turn
    requires IsRecovery(m)
  {
    match m
    case Lost(lost, _) => Goto(k, LossAnnouncing(lost))
    case LossAnnouncing(lost) =>
      if k.shutdown || !c.ok then Goto(k, Exiting(None)) else Turn(k, ReconnectHead(lost), Some(Unhealthy))
    case ReconnectHead(lost) => Goto(k, if k.shutdown then Exiting(None) else ReconnectChecked(lost))
    case ReconnectChecked(lost) =>
      Goto(k, if k.suspended then Head(None) else if c.ok then Attempting(lost) else HostLosing(lost, c.error))
    case Attempting(lost) => if k.healthy then AfterFailure(k, lost, c) else Goto(k, Connecting(lost, k.epoch))
    case Connecting(lost, epoch) =>
      if c.ok then Goto(k, Installing(lost, c.runtime, LeaseOf(c.runtime, epoch))) else AfterFailure(k, lost, c)
  }

  /** From a fresh stream to its install, a suspend, or a terminal loss. */
  function InstallTurn(k: Core, m: Monitor, c: Choice): Turn
    requires IsInstall(m)
  {
    match m
    case Installing(lost, runtime, owned) =>
      if c.permit.Closed? then Goto(k, Exiting(Some(owned)))
      else if c.permit.Full? then Goto(k, InstallFailed(lost, owned))
      else if k.shutdown || k.suspended then Goto(k, FlagsChanged(lost, owned))
      else if CanInstall(k, runtime, owned) then
        Turn(Install(k, runtime, owned), Head(Some(owned)),
             Some(Reconnected(k.runtime.identity, runtime.identity, k.continuity)))
      else Goto(k, InstallFailed(lost, owned))
    case InstallFailed(lost, _) => AfterFailure(k, lost, c)
    case FlagsChanged(lost, owned) => Goto(k, if k.shutdown then Exiting(Some(owned)) else FlagsRechecked(lost, owned))
    case FlagsRechecked(lost, owned) => Goto(k, if k.suspended then Head(Some(owned)) else InstallFailed(lost, owned))
    case HostLosing(lost, error) => Goto(RecordTerminalLoss(k, lost, error), HostLossAnnouncing)
    case HostLossAnnouncing =>
      if k.shutdown || !c.ok then Goto(k, Exiting(None)) else Turn(k, Done, Some(HostLostEvent(k.runtime.identity)))
  }

  /** Giving up the stream for an activation. */
  function SuspendTurn(k: Core, m: Monitor, c: Choice): Turn
    requires IsSuspend(m)
  {
    match m
    case Parking(sub) =>
      var generation := RequestedSuspendFor(k, sub);
      Goto(k, if generation.Some? then Releasing(generation.value, sub) else Head(sub))
    case Releasing(generation, _) => Goto(k, Draining(generation))
    case Draining(generation) =>
      Goto(k, if c.ok then SuspendAnnouncing(generation) else Completing(generation, HostLost(c.error)))
    case SuspendAnnouncing(generation) =>
      if k.shutdown || !c.ok then Goto(k, Completing(generation, Stopped))
      else Turn(k, Completing(generation, Released), Some(Unhealthy))
    case Completing(generation, phase) =>
      Goto(CompleteSuspend(k, generation, phase), if phase.Released? then Parked else Done)
  }

  function AfterTurn(s: State, turn: Turn): State {
    s.(core := turn.core, monitor := turn.monitor,
       published := if turn.event.Some? then s.published + [turn.event.value] else s.published)
  }

  predicate HasTurn(m: Monitor) {
    IsActive(m) || IsRecovery(m) || IsInstall(m) || IsSuspend(m)
  }

  function TurnOf(k: Core, m: Monitor, c: Choice): Turn
    requires HasTurn(m)
  {
    if IsActive(m) then ActiveTurn(k, m, c)
    else if IsRecovery(m) then RecoveryTurn(k, m, c)
    else if IsInstall(m) then InstallTurn(k, m, c)
    else SuspendTurn(k, m, c)
  }

  /** Waiting at the resume slot, and leaving. */
  function RestingStep(s: State): State {
    if s.monitor.Parked? then
      if s.slot.Some? then s.(slot := None, monitor := Head(s.slot)) else s.(monitor := ParkedEmpty)
    else if s.monitor.ParkedEmpty? then s.(monitor := if s.core.shutdown then Exiting(None) else Parked)
    else if s.monitor.Exiting? then s.(core := CompleteSuspendShutdown(s.core), monitor := Done)
    else s
  }

  function MonitorStep(s: State, c: Choice): State {
    if HasTurn(s.monitor) then AfterTurn(s, TurnOf(s.core, s.monitor, c)) else RestingStep(s)
  }

  // ----- steps and runs -----

  datatype Step =
    | Suspend
    | Shutdown
    | StopAttempt
    | CloseResumes
    | ClearSlot
    | AdmitResume(call: nat)
    | ReadPrior(call: nat)
    | ProveReleased(call: nat)
    | Assemble(call: nat, runtime: Runtime)
    | FinishResume(call: nat, permit: Permit)
    | DropResume(call: nat)
    | MonitorTurn(choice: Choice)

  /** A step of one call of resume that is under way, or the start of such a call. */
  predicate IsResumeStep(step: Step) {
    step.AdmitResume? || step.ReadPrior? || step.ProveReleased? || step.Assemble? || step.FinishResume?
        || step.DropResume?
  }

  function ResumeStep(s: State, step: Step): State
    requires IsResumeStep(step)
  {
    var known := step.call in s.resumes;
    match step
    case AdmitResume(call) =>
      if s.resumesClosed || s.core.shutdown || known then s else s.(resumes := s.resumes[call := Admitted])
    case ReadPrior(call) =>
      if known && s.resumes[call].Admitted?
      then s.(resumes := s.resumes[call := Prior(s.core.epoch, s.core.continuity, LeaseOf(s.core.runtime, s.core.epoch))])
      else s
    case ProveReleased(call) =>
      if known && s.resumes[call].Prior? then
        var r := s.resumes[call];
        if IsReleasedFor(s.core, r.lease)
        then s.(resumes := s.resumes[call := Proven(r.epoch, r.continuity, r.lease)])
        else s.(resumes := s.resumes - {call})
      else s
    case Assemble(call, runtime) =>
      if known && s.resumes[call].Proven? then
        var r := s.resumes[call];
        s.(resumes := s.resumes[call := Assembled(r.epoch, r.continuity, r.lease, runtime)])
      else s
    case FinishResume(call, permit) =>
      if known && s.resumes[call].Assembled? then
        var r := s.resumes[call];
        var rest := s.(resumes := s.resumes - {call});
        if permit.Reserved? && CanResume(s.core, r) then
          rest.(slot := Some(LeaseOf(r.runtime, r.epoch + 1)), core := InstallResume(s.core, r),
                published := s.published
                             + [Reconnected(s.core.runtime.identity, r.runtime.identity, r.continuity + 1)])
        else rest
      else s
    case DropResume(call) => s.(resumes := s.resumes - {call})
  }

  function Apply(s: State, step: Step): State {
    if IsResumeStep(step) then ResumeStep(s, step)
    else
      match step
      case Suspend => s.(core := BeginSuspend(s.core))
      case Shutdown => s.(core := BeginShutdown(s.core))
      case StopAttempt => if s.core.shutdown then s.(core := CompleteSuspendShutdown(s.core)) else s
      case CloseResumes => if s.core.shutdown then s.(resumesClosed := true) else s
      case ClearSlot => if s.core.shutdown then s.(slot := None) else s
      case MonitorTurn(choice) => MonitorStep(s, choice)
  }

  function After(s: State, steps: seq<Step>): State
    decreases |steps|
  {
    if steps == [] then s else After(Apply(s, steps[0]), steps[1..])
  }

  // ----- what the steps keep -----

  /** The subscription the monitor owns, if it owns one. */
  function Owned(m: Monitor): Option<Lease> {
    match m
    case Head(sub) => sub
    case Checked(sub) => sub
    case Waiting(owned) => Some(owned)
    case Losing(_, _, owned) => Some(owned)
    case Lost(_, owned) => Some(owned)
    case Installing(_, _, owned) => Some(owned)
    case InstallFailed(_, owned) => Some(owned)
    case FlagsChanged(_, owned) => Some(owned)
    case FlagsRechecked(_, owned) => Some(owned)
    case Parking(sub) => sub
    case Releasing(_, sub) => sub
    case Exiting(sub) => sub
    case _ => None
  }

  /** The monitor has marked an epoch lost and has neither installed nor given up on a successor. */
  predicate Recovering(m: Monitor) {
    m.Lost? || m.LossAnnouncing? || Retrying(m)
  }

  predicate Retrying(m: Monitor) {
    || m.ReconnectHead? || m.ReconnectChecked? || m.Attempting? || m.Connecting? || m.Installing?
    || m.InstallFailed? || m.FlagsChanged? || m.FlagsRechecked? || m.HostLosing?
  }

  predicate Leaving(m: Monitor) {
    m.HostLossAnnouncing? || m.Exiting? || m.Done?
  }

  predicate HandlesSuspend(m: Monitor) {
    m.Releasing? || m.Draining? || m.SuspendAnnouncing? || m.Completing?
  }

  predicate AtSlot(m: Monitor) {
    m.Parked? || m.ParkedEmpty?
  }

  predicate LeftSlot(m: Monitor) {
    m == Exiting(None) || m.Done?
  }

  /** A reading of the published events: whether the one Healthy event came first and every
      Reconnected event so far continues its predecessors, the identity and continuity announced last,
      and whether an Unhealthy event came after the last announcement. */
  datatype Reading = Reading(chained: bool, started: bool, identity: string, continuity: nat, unhealthy: bool)

  function ReadOn(r: Reading, event: Event): Reading {
    match event
    case Healthy(identity) => Reading(r.chained && !r.started, true, identity, 1, false)
    case Unhealthy => r.(unhealthy := true)
    case Reconnected(previous, current, continuity) =>
      Reading(r.chained && r.started && previous == r.identity && continuity > r.continuity && r.unhealthy,
              r.started, current, continuity, false)
    case HostLostEvent(_) => r
  }

  function ReadLog(log: seq<Event>): Reading {
    if log == [] then Reading(true, false, "", 0, false) else ReadOn(ReadLog(log[..|log| - 1]), log[|log| - 1])
  }

  predicate CoreInv(k: Core) {
    && k.continuity == k.epoch
    && (k.healthy ==> !k.shutdown && !k.suspended)
    && (k.suspended <==> k.current.Some?)
    && (k.current.Some? ==>
          && k.current.value.generation < k.nextGeneration
          && (k.current.value.phase.Requested? || k.current.value.phase.Released? ==>
                k.current.value.lease == LeaseOf(k.runtime, k.epoch)))
  }

  predicate IsReleased(k: Core) {
    k.current.Some? && k.current.value.phase.Released?
  }

  /** Who may own a stream, and what the monitor's position says about the core. */
  predicate StreamInv(k: Core, slot: Option<Lease>, m: Monitor) {
    && (IsReleased(k) ==>
          slot == None && k.terminalLoss == None && (AtSlot(m) || (m == Exiting(None) && k.shutdown)))
    && (slot.Some? ==> AtSlot(m) || (LeftSlot(m) && k.shutdown))
    && (HandlesSuspend(m) ==>
          && k.current.Some?
          && k.current.value.generation == m.generation
          && (k.current.value.phase.Requested? || k.current.value.phase.Stopped?))
    && (Recovering(m) || Leaving(m) ==> !k.healthy)
    && (k.terminalLoss.Some? ==> Leaving(m))
    && (m.Head? || m.Checked? || m.Parking? ==> m.sub.Some? || k.suspended)
    && !m.Panicked?
  }

  /** A Reconnected event may be published from here. */
  predicate OwesUnhealthy(k: Core, m: Monitor) {
    Retrying(m) || (m.Completing? && m.phase.Released?) || IsReleased(k)
  }

  predicate EventInv(k: Core, m: Monitor, r: Reading) {
    && r.chained && r.started
    && r.identity == k.runtime.identity
    && r.continuity <= k.continuity
    && (Recovering(m) ==> r.continuity < k.continuity)
    && (OwesUnhealthy(k, m) ==> r.unhealthy)
  }

  predicate ResumesInv(resumes: map<nat, Resume>) {
    forall call <- resumes :: !resumes[call].Admitted? ==> resumes[call].continuity == resumes[call].epoch
  }

  predicate Inv(s: State) {
    && CoreInv(s.core)
    && StreamInv(s.core, s.slot, s.monitor)
    && EventInv(s.core, s.monitor, ReadLog(s.published))
    && ResumesInv(s.resumes)
  }

  lemma {:induction false} ConnectedInv(runtime: Runtime)
    ensures Inv(Connected(runtime))
  {
  }

  lemma {:induction false} Appended(log: seq<Event>, event: Event)
    ensures ReadLog(log + [event]) == ReadOn(ReadLog(log), event)
  {
    assert (log + [event])[..|log|] == log;
  }

  /** What a turn keeps, once its event is read on. */
  predicate TurnInv(turn: Turn, slot: Option<Lease>, r: Reading) {
    && CoreInv(turn.core)
    && StreamInv(turn.core, slot, turn.monitor)
    && EventInv(turn.core, turn.monitor, if turn.event.Some? then ReadOn(r, turn.event.value) else r)
  }

  lemma {:induction false} ActiveTurnInv(k: Core, slot: Option<Lease>, m: Monitor, r: Reading, c: Choice)
    requires TurnInv(Goto(k, m), slot, r) && IsActive(m)
    ensures TurnInv(ActiveTurn(k, m, c), slot, r)
  {
  }

  lemma {:induction false} RecoveryTurnInv(k: Core, slot: Option<Lease>, m: Monitor, r: Reading, c: Choice)
    requires TurnInv(Goto(k, m), slot, r) && IsRecovery(m)
    ensures TurnInv(RecoveryTurn(k, m, c), slot, r)
  {
  }

  lemma {:induction false} InstallTurnInv(k: Core, slot: Option<Lease>, m: Monitor, r: Reading, c: Choice)
    requires TurnInv(Goto(k, m), slot, r) && IsInstall(m)
    ensures TurnInv(InstallTurn(k, m, c), slot, r)
  {
  }

  lemma {:induction false} SuspendTurnInv(k: Core, slot: Option<Lease>, m: Monitor, r: Reading, c: Choice)
    requires TurnInv(Goto(k, m), slot, r) && IsSuspend(m)
    ensures TurnInv(SuspendTurn(k, m, c), slot, r)
  {
  }

  lemma {:induction false} TurnOfInv(k: Core, slot: Option<Lease>, m: Monitor, r: Reading, c: Choice)
    requires TurnInv(Goto(k, m), slot, r)
    requires HasTurn(m)
    ensures TurnInv(TurnOf(k, m, c), slot, r)
  {
    if IsActive(m) {
      ActiveTurnInv(k, slot, m, r, c);
    } else if IsRecovery(m) {
      RecoveryTurnInv(k, slot, m, r, c);
    } else if IsInstall(m) {
      InstallTurnInv(k, slot, m, r, c);
    } else {
      SuspendTurnInv(k, slot, m, r, c);
    }
  }

  /** Taking the resumed stream, waiting for it, and leaving. */
  lemma {:induction false} RestingInv(s: State)
    requires Inv(s)
    ensures Inv(RestingStep(s))
  {
  }

  lemma {:induction false} MonitorStepInv(s: State, c: Choice)
    requires Inv(s)
    ensures Inv(MonitorStep(s, c))
  {
    if !HasTurn(s.monitor) {
      RestingInv(s);
    } else {
      var turn := TurnOf(s.core, s.monitor, c);
      TurnOfInv(s.core, s.slot, s.monitor, ReadLog(s.published), c);
      if turn.event.Some? {
        Appended(s.published, turn.event.value);
      }
    }
  }

  lemma {:induction false} ResumeStepInv(s: State, step: Step)
    requires Inv(s) && IsResumeStep(step)
    ensures Inv(ResumeStep(s, step))
  {
    if step.FinishResume? && step.call in s.resumes && s.resumes[step.call].Assembled? {
      var r := s.resumes[step.call];
      Appended(s.published, Reconnected(s.core.runtime.identity, r.runtime.identity, r.continuity + 1));
    }
  }

  lemma {:induction false} ApplyInv(s: State, step: Step)
    requires Inv(s)
    ensures Inv(Apply(s, step))
  {
    if IsResumeStep(step) {
      ResumeStepInv(s, step);
    } else if step.MonitorTurn? {
      MonitorStepInv(s, step.choice);
    }
  }

  lemma {:induction false} AfterInv(s: State, steps: seq<Step>)
    requires Inv(s)
    ensures Inv(After(s, steps))
    decreases |steps|
  {
    if steps != [] {
      ApplyInv(s, steps[0]);
      AfterInv(Apply(s, steps[0]), steps[1..]);
    }
  }
}
