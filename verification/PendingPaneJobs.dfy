/** What one close of a pending pane does from its claim to its settlement, with any other steps in between that
do not replace its lease: which claims begin one, which looks lead to a request, and what each outcome leaves. */
module PendingPaneJobs {
  import opened Wrappers
  import opened PendingPane

  // ----- which claims begin a close -----

  /** The record that a registration of this claim by this incarnation would make. */
  function RecordOf(claim: Claim, authority: Incarnation): Record {
    Record(authority, claim.session, claim.pane, claim.temporaryTab, false)
  }

  /** A claim begins a close if and only if the lease stands and its registration was made for this very
      incarnation, session, pane and temporary tab, and the lease names the session that asks. */
  lemma {:induction false} BeginsExactly(s: State, call: Call, claim: Claim, authority: Incarnation)
    requires Inv(s) && call !in s.closers
    ensures var t := Apply(s, Begin(call, claim, authority));
            && (call in t.closers <==>
                  && claim.id in s.leases && claim.leaseSession == claim.session
                  && s.registered[s.leases[claim.id].registration] == Registered(claim.id, RecordOf(claim, authority)))
            && (call in t.closers ==>
                  t.closers[call] == Closer(claim.id, authority, s.leases[claim.id].record,
                                            s.leases[claim.id].registration, Queued))
            && t == s.(closers := t.closers) && t.closers - {call} == s.closers
  {
    if claim.id in s.leases {
      var e := s.leases[claim.id];
      assert Describes(s.registered, e.registration, claim.id, e.record);
    }
  }

  /** What a registration leaves: an open record under a number of its own, whatever was there before. */
  lemma {:induction false} RegistersOpen(s: State, id: LeaseId, record: Record)
    ensures var t, n := Apply(s, RegisterPane(id, record)), |s.registered|;
            && id in t.leases && t.leases[id].registration == n && !t.leases[id].record.mayHaveApplied
            && t.registered == s.registered + [Registered(id, t.leases[id].record)]
            && t.leases[id].record.(mayHaveApplied := record.mayHaveApplied) == record
            && t.leases - {id} == s.leases - {id} && t.closers == s.closers && t.requests == s.requests
  {
  }

  // ----- which looks lead to a request -----

  /** The close has seen its pane. */
  predicate HasLooked(c: Closer) {
    c.stage.Marking? || Holding(c)
  }

  /** From the step at `k` to the `n`-th state it is one job, past its look. */
  ghost predicate OneJob(steps: seq<Step>, k: nat, n: nat, call: Call)
    requires n <= |steps|
  {
    && k < n && steps[k] == LookAt(call, Shown(true))
    && forall m | k < m <= n :: JobAt(steps, m, call) && SamePane(steps, m, n, call)
  }

  ghost predicate JobAt(steps: seq<Step>, m: nat, call: Call)
    requires m <= |steps|
  {
    call in After(START, steps[..m]).closers && HasLooked(After(START, steps[..m]).closers[call])
  }

  ghost predicate SamePane(steps: seq<Step>, m: nat, n: nat, call: Call)
    requires m <= |steps| && n <= |steps| && JobAt(steps, m, call)
  {
    call in After(START, steps[..n]).closers
    && After(START, steps[..m]).closers[call].record == After(START, steps[..n]).closers[call].record
  }

  lemma {:induction false} OneMore(s: State, steps: seq<Step>, step: Step)
    ensures After(s, steps + [step]) == Apply(After(s, steps), step)
    decreases |steps|
  {
    if steps == [] {
      assert [] + [step] == [step] && After(Apply(s, step), []) == Apply(s, step);
    } else {
      assert (steps + [step])[1..] == steps[1..] + [step];
      OneMore(Apply(s, steps[0]), steps[1..], step);
    }
  }

  lemma {:induction false} NextState(steps: seq<Step>, n: nat)
    requires n < |steps|
    ensures After(START, steps[..n + 1]) == Apply(After(START, steps[..n]), steps[n])
  {
    assert steps[..n + 1] == steps[..n] + [steps[n]];
    OneMore(START, steps[..n], steps[n]);
  }

  /** A close gets past its look by being shown its pane, and keeps its record from there. */
  lemma {:induction false} LooksFirst(s: State, step: Step, call: Call)
    requires call in Apply(s, step).closers && HasLooked(Apply(s, step).closers[call])
    ensures || step == LookAt(call, Shown(true))
            || (&& call in s.closers && HasLooked(s.closers[call])
                && s.closers[call].record == Apply(s, step).closers[call].record)
  {
  }

  lemma {:induction false} LookedBefore(steps: seq<Step>, n: nat, call: Call) returns (k: nat)
    requires n <= |steps| && JobAt(steps, n, call)
    ensures OneJob(steps, k, n, call)
  {
    assert n > 0 by {
      assert After(START, steps[..0]) == START;
    }
    NextState(steps, n - 1);
    LooksFirst(After(START, steps[..n - 1]), steps[n - 1], call);
    if JobAt(steps, n - 1, call)
       && After(START, steps[..n - 1]).closers[call].record == After(START, steps[..n]).closers[call].record {
      k := LookedBefore(steps, n - 1, call);
      forall m | k < m <= n
        ensures JobAt(steps, m, call) && SamePane(steps, m, n, call)
      {
        assert m < n ==> JobAt(steps, m, call) && SamePane(steps, m, n - 1, call);
      }
    } else {
      k := n - 1;
    }
  }

  lemma {:induction false} OnlySendsLog(s: State, step: Step)
    requires Apply(s, step).requests != s.requests
    ensures step.Send? && step.call in s.closers && s.closers[step.call].stage.Sending?
    ensures var c := s.closers[step.call];
            Apply(s, step).requests
            == s.requests + [CloseRequest(c.registration, c.authority, c.record.pane, step.outcome)]
  {
  }

  /** Every `pane.close` that is ever sent comes after a look, in the same job, that showed the very pane it
      names. */
  lemma {:induction false} EveryCloseWasShown(steps: seq<Step>, n: nat) returns (k: nat)
    requires n < |steps| && After(START, steps[..n + 1]).requests != After(START, steps[..n]).requests
    ensures steps[n].Send? && OneJob(steps, k, n, steps[n].call)
    ensures var s, t := After(START, steps[..n]), After(START, steps[..n + 1]);
            && steps[n].call in s.closers && |t.requests| == |s.requests| + 1
                && t.requests[..|s.requests|] == s.requests
            && t.requests[|s.requests|].pane == s.closers[steps[n].call].record.pane
            && t.requests[|s.requests|].outcome == steps[n].outcome
  {
    NextState(steps, n);
    OnlySendsLog(After(START, steps[..n]), steps[n]);
    assert JobAt(steps, n, steps[n].call);
    k := LookedBefore(steps, n, steps[n].call);
  }

  // ----- a job from its start to its end -----

  /** Not a step of this call, and none that replaces or drops this lease. */
  predicate StandsAside(step: Step, call: Call, id: LeaseId) {
    match step
    case RegisterPane(x, _) => x != id
    case Release(x) => x != id
    case ClearAll => false
    case Begin(x, _, _) => x != call
    case Abandon(x) => x != call
    case _ => step.call != call
  }

  /** All closes of this lease run under this incarnation. */
  predicate Alone(s: State, id: LeaseId, authority: Incarnation) {
    forall call <- s.closers :: s.closers[call].id == id ==> s.closers[call].authority == authority
  }

  function OfRegistration(requests: seq<CloseRequest>, n: nat): seq<CloseRequest> {
    if requests == [] then []
    else
      var last := requests[|requests| - 1];
      OfRegistration(requests[..|requests| - 1], n) + if last.registration == n then [last] else []
  }

  lemma {:induction false} OneRequestMore(requests: seq<CloseRequest>, r: CloseRequest, n: nat)
    ensures OfRegistration(requests + [r], n)
            == OfRegistration(requests, n) + if r.registration == n then [r] else []
  {
    assert (requests + [r])[..|requests|] == requests;
  }

  /** The job of `call` runs on its lease, which stands as `e`. */
  predicate Runs(s: State, call: Call, c: Closer, e: Entry) {
    && Inv(s) && call in s.closers && s.closers[call] == c && !c.stage.Queued?
    && c.id in s.leases && s.leases[c.id] == e && e.record.incarnation == c.authority
    && Alone(s, c.id, c.authority)
  }

  /** Another close of the same incarnation waits for its turn. */
  lemma {:induction false} SameQueueWaits(s: State, step: Step, call: Call, c: Closer, e: Entry)
    requires Runs(s, call, c, e) && IsCloserStep(step) && step.call != call
    requires step.call in s.closers && s.closers[step.call].authority == c.authority
    ensures Apply(s, step) == s
  {
    assert s.closers[step.call].stage.Queued?;
    assert Busy(s.closers, c.authority);
  }

  /** One of another incarnation has another lease. */
  lemma {:induction false} OtherQueueLeaves(s: State, step: Step, call: Call, c: Closer, e: Entry)
    requires Runs(s, call, c, e) && IsCloserStep(step) && step.call != call
    requires step.call in s.closers && s.closers[step.call].authority != c.authority
    ensures var t := Apply(s, step);
            && call in t.closers && t.closers[call] == c && c.id in t.leases && t.leases[c.id] == e
            && Alone(t, c.id, c.authority)
  {
    assert s.closers[step.call].id != c.id;
  }

  /** The others neither see the lease nor send for its registration. */
  lemma {:induction false} OthersLeaveLease(s: State, step: Step, call: Call, c: Closer, e: Entry)
    requires Runs(s, call, c, e) && StandsAside(step, call, c.id)
    ensures var t := Apply(s, step);
            && call in t.closers && t.closers[call] == c && c.id in t.leases && t.leases[c.id] == e
            && Alone(t, c.id, c.authority)
  {
    if IsCloserStep(step) && step.call in s.closers {
      if s.closers[step.call].authority == c.authority {
        SameQueueWaits(s, step, call, c, e);
      } else {
        OtherQueueLeaves(s, step, call, c, e);
      }
    }
  }

  lemma {:induction false} OthersSendElsewhere(s: State, step: Step, call: Call, c: Closer, e: Entry)
    requires Runs(s, call, c, e) && StandsAside(step, call, c.id)
    ensures OfRegistration(Apply(s, step).requests, e.registration) == OfRegistration(s.requests, e.registration)
  {
    if Apply(s, step).requests != s.requests {
      OnlySendsLog(s, step);
      var d := s.closers[step.call];
      assert CloserInv(s, d) && Describes(s.registered, e.registration, c.id, e.record);
      assert d.authority != c.authority;
      OneRequestMore(s.requests, RequestOf(d, step.outcome), e.registration);
    }
  }

  lemma {:induction false} OthersStandAside(s: State, steps: seq<Step>, call: Call, c: Closer, e: Entry)
    requires Runs(s, call, c, e) && (forall step <- steps :: StandsAside(step, call, c.id))
    ensures var t := After(s, steps);
            Runs(t, call, c, e)
            && OfRegistration(t.requests, e.registration) == OfRegistration(s.requests, e.registration)
    decreases |steps|
  {
    if steps != [] {
      assert steps[0] in steps;
      OthersLeaveLease(s, steps[0], call, c, e);
      OthersSendElsewhere(s, steps[0], call, c, e);
      ApplyInv(s, steps[0]);
      OthersStandAside(Apply(s, steps[0]), steps[1..], call, c, e);
    }
  }

  /** One step of the job, and then the others. */
  lemma {:induction false} StepThenOthers(s: State, step: Step, others: seq<Step>, call: Call, c: Closer, e: Entry)
      returns (t: State)
    requires Runs(Apply(s, step), call, c, e) && (forall step <- others :: StandsAside(step, call, c.id))
    ensures t == After(s, [step] + others) && Runs(t, call, c, e)
    ensures OfRegistration(t.requests, e.registration) == OfRegistration(Apply(s, step).requests, e.registration)
  {
    assert ([step] + others)[1..] == others;
    OthersStandAside(Apply(s, step), others, call, c, e);
    t := After(s, [step] + others);
  }

  lemma {:induction false} JoinRuns(s: State, first: seq<Step>, second: seq<Step>)
    ensures After(s, first + second) == After(After(s, first), second)
    decreases |first|
  {
    if first == [] {
      assert first + second == second;
    } else {
      assert (first + second)[1..] == first[1..] + second;
      JoinRuns(Apply(s, first[0]), first[1..], second);
    }
  }

  /** A close waits on an open record that nobody has replaced, and the queue of its incarnation is free. */
  predicate MayRun(s: State, call: Call, c: Closer) {
    && Inv(s) && call in s.closers && s.closers[call] == c && c.stage.Queued?
    && c.id in s.leases && s.leases[c.id] == Entry(c.record, c.registration) && !c.record.mayHaveApplied
    && Alone(s, c.id, c.authority) && !Busy(s.closers, c.authority)
  }

  lemma {:induction false} StartsToRun(s: State, call: Call, c: Closer)
    requires MayRun(s, call, c)
    ensures Runs(Apply(s, Run(call)), call, c.(stage := Looking), s.leases[c.id])
    ensures Apply(s, Run(call)).requests == s.requests
  {
    ApplyInv(s, Run(call));
    assert c in s.closers.Values;
    assert CloserInv(s, s.closers[call]);
  }

  lemma {:induction false} SeesItsPane(s: State, call: Call, c: Closer, e: Entry)
    requires Runs(s, call, c, e) && c.stage.Looking? && !c.record.mayHaveApplied
    ensures Runs(Apply(s, LookAt(call, Shown(true))), call, c.(stage := Marking), e)
    ensures Apply(s, LookAt(call, Shown(true))).requests == s.requests
  {
    ApplyInv(s, LookAt(call, Shown(true)));
  }

  lemma {:induction false} MarksItsLease(s: State, call: Call, c: Closer, e: Entry)
    requires Runs(s, call, c, e) && c.stage.Marking? && e.record == c.record && e.registration == c.registration
    ensures Runs(Apply(s, MarkLease(call)), call, c.(stage := Sending),
                 Entry(c.record.(mayHaveApplied := true), e.registration))
    ensures Apply(s, MarkLease(call)).requests == s.requests
  {
    ApplyInv(s, MarkLease(call));
  }

  lemma {:induction false} SendsItsRequest(s: State, call: Call, c: Closer, e: Entry, outcome: Outcome)
    requires Runs(s, call, c, e) && c.stage.Sending? && e.registration == c.registration
    ensures Runs(Apply(s, Send(call, outcome)), call, c.(stage := Settling(outcome)), e)
    ensures OfRegistration(Apply(s, Send(call, outcome)).requests, c.registration)
            == OfRegistration(s.requests, c.registration)
               + [CloseRequest(c.registration, c.authority, c.record.pane, outcome)]
  {
    ApplyInv(s, Send(call, outcome));
    OneRequestMore(s.requests, RequestOf(c, outcome), c.registration);
  }

  /** What the outcome of a request leaves of a lease. */
  function LeftBy(outcome: Outcome, open: Record, n: nat): Option<Entry> {
    match outcome
    case Closed => None
    case ProvenAbsent => None
    case Rejected => Some(Entry(open, n))
    case NotSent => Some(Entry(open, n))
    case MayHaveReachedHost => Some(Entry(open.(mayHaveApplied := true), n))
  }

  function LeaseNow(s: State, id: LeaseId): Option<Entry> {
    if id in s.leases then Some(s.leases[id]) else None
  }

  lemma {:induction false} Settles(s: State, call: Call, c: Closer, outcome: Outcome)
    requires Runs(s, call, c, Entry(c.record.(mayHaveApplied := true), c.registration))
    requires c.stage == Settling(outcome) && !c.record.mayHaveApplied
    ensures var t := Apply(s, Settle(call));
            && call !in t.closers && t.requests == s.requests && t.closers == s.closers - {call}
            && LeaseNow(t, c.id) == LeftBy(outcome, c.record, c.registration)
            && t.leases - {c.id} == s.leases - {c.id}
  {
  }

  /** The steps of one job, with what others do in between. */
  function JobSteps(call: Call, outcome: Outcome, a: seq<Step>, b: seq<Step>, c: seq<Step>, d: seq<Step>): seq<Step> {
    ([Run(call)] + a) + ([LookAt(call, Shown(true))] + b) + ([MarkLease(call)] + c) + ([Send(call, outcome)] + d)
  }

  /** A job that is shown its pane, marks its lease and sends puts one `pane.close` of the registered pane, under
      the registered incarnation, into the history of that registration, with the outcome the host gave it. */
  lemma {:induction false} JobSends(s: State, call: Call, c: Closer, outcome: Outcome, w: seq<Step>, x: seq<Step>,
      y: seq<Step>, z: seq<Step>)
    requires MayRun(s, call, c) && (forall step <- w + x + y + z :: StandsAside(step, call, c.id))
    ensures var t, n := After(s, JobSteps(call, outcome, w, x, y, z)), c.registration;
            && Runs(t, call, c.(stage := Settling(outcome)), Entry(c.record.(mayHaveApplied := true), n))
            && OfRegistration(t.requests, n)
               == OfRegistration(s.requests, n) + [CloseRequest(n, c.authority, c.record.pane, outcome)]
  {
    forall step | step in w || step in x || step in y || step in z
      ensures StandsAside(step, call, c.id)
    {
      assert step in w + x + y + z;
    }
    var open, marked := Entry(c.record, c.registration), Entry(c.record.(mayHaveApplied := true), c.registration);
    var looking, marking, sending := c.(stage := Looking), c.(stage := Marking), c.(stage := Sending);
    StartsToRun(s, call, c);
    var s1 := StepThenOthers(s, Run(call), w, call, looking, open);
    SeesItsPane(s1, call, looking, open);
    var s2 := StepThenOthers(s1, LookAt(call, Shown(true)), x, call, marking, open);
    MarksItsLease(s2, call, marking, open);
    var s3 := StepThenOthers(s2, MarkLease(call), y, call, sending, marked);
    SendsItsRequest(s3, call, sending, marked, outcome);
    var s4 := StepThenOthers(s3, Send(call, outcome), z, call, c.(stage := Settling(outcome)), marked);
    JobJoined(s, call, outcome, w, x, y, z);
  }

  lemma {:induction false} JobJoined(s: State, call: Call, outcome: Outcome, w: seq<Step>, x: seq<Step>, y: seq<Step>,
      z: seq<Step>)
    ensures After(s, JobSteps(call, outcome, w, x, y, z))
            == After(After(After(After(s, [Run(call)] + w), [LookAt(call, Shown(true))] + x), [MarkLease(call)] + y),
                     [Send(call, outcome)] + z)
  {
    var one, two, three := [Run(call)] + w, [LookAt(call, Shown(true))] + x, [MarkLease(call)] + y;
    JoinRuns(s, one, two);
    JoinRuns(s, one + two, three);
    JoinRuns(s, one + two + three, [Send(call, outcome)] + z);
  }

  /** And once it has settled, the job is over, and the outcome decides what is left of the lease: nothing when
      the pane is closed, the open record when the host refused or never saw the request, the marked one
      otherwise. */
  lemma {:induction false} JobSettles(s: State, call: Call, c: Closer, outcome: Outcome, w: seq<Step>, x: seq<Step>,
      y: seq<Step>, z: seq<Step>)
    requires MayRun(s, call, c) && (forall step <- w + x + y + z :: StandsAside(step, call, c.id))
    ensures var t, n := After(s, JobSteps(call, outcome, w, x, y, z) + [Settle(call)]), c.registration;
            && call !in t.closers && LeaseNow(t, c.id) == LeftBy(outcome, c.record, n)
            && OfRegistration(t.requests, n)
               == OfRegistration(s.requests, n) + [CloseRequest(n, c.authority, c.record.pane, outcome)]
  {
    JobSends(s, call, c, outcome, w, x, y, z);
    OneMore(s, JobSteps(call, outcome, w, x, y, z), Settle(call));
    Settles(After(s, JobSteps(call, outcome, w, x, y, z)), call, c.(stage := Settling(outcome)), outcome);
  }

  /** A look that does not show the pane ends the job and sends nothing: a pane that is gone takes its lease
      along, and any other answer, like a record that was marked before, leaves the lease as it is. */
  lemma {:induction false} OtherLooksSendNothing(s: State, call: Call, answer: Look)
    requires call in s.closers && s.closers[call].stage.Looking?
    requires answer != Shown(true) || s.closers[call].record.mayHaveApplied
    ensures var t, id := Apply(s, LookAt(call, answer)), s.closers[call].id;
            && t.closers == s.closers - {call} && t.requests == s.requests && t.registered == s.registered
            && t.leases == if answer == PaneAbsent then s.leases - {id} else s.leases
  {
  }

  /** A lease that was dropped, replaced by another record or marked in the meantime is not marked, and the job
      ends without a request. */
  lemma {:induction false} ChangedLeaseSendsNothing(s: State, call: Call)
    requires call in s.closers && s.closers[call].stage.Marking?
    requires var c := s.closers[call]; c.id !in s.leases || s.leases[c.id].record != c.record
    ensures Apply(s, MarkLease(call)) == s.(closers := s.closers - {call})
  {
  }

  /** The queue of an incarnation is never stuck: whatever the host answers, the steps of its job end it. */
  lemma {:induction false} JobsEnd(s: State, call: Call, answer: Look, outcome: Outcome)
    requires call in s.closers && !s.closers[call].stage.Queued?
    ensures var t := Apply(Apply(Apply(Apply(s, LookAt(call, answer)), MarkLease(call)), Send(call, outcome)),
                           Settle(call));
            t.closers == s.closers - {call}
  {
    var s1 := Apply(s, LookAt(call, answer));
    var s2 := Apply(s1, MarkLease(call));
    var s3 := Apply(s2, Send(call, outcome));
    assert s1.closers - {call} == s.closers - {call};
    assert s2.closers - {call} == s.closers - {call};
    assert s3.closers - {call} == s.closers - {call};
  }

  /** A close that waits runs exactly when its queue has no job, and leaves unharmed when it is given up. */
  lemma {:induction false} WaitsForItsTurn(s: State, call: Call)
    requires call in s.closers && s.closers[call].stage.Queued?
    ensures var t, c := Apply(s, Run(call)), s.closers[call];
            if exists other <- s.closers :: other != call && s.closers[other].authority == c.authority
                                            && !s.closers[other].stage.Queued?
            then t == s else t == s.(closers := s.closers[call := c.(stage := Looking)])
    ensures Apply(s, Abandon(call)) == s.(closers := s.closers - {call})
  {
  }

  /** A job is not given up with its caller, and a release or a clear drops leases and nothing else. */
  lemma {:induction false} LeavesJobsAlone(s: State, call: Call, id: LeaseId)
    requires call in s.closers && !s.closers[call].stage.Queued?
    ensures Apply(s, Abandon(call)) == s && Apply(s, Run(call)) == s
    ensures Apply(s, Release(id)) == s.(leases := s.leases - {id}) && Apply(s, ClearAll) == s.(leases := map[])
  {
  }
}
