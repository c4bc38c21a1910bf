/** Closing a pane that Muxe registered but never used. `pane.close` cannot be repeated safely, so the
lease record is compared and marked before the request leaves, and reopened only when the host is known
not to have closed the pane.

Any number of registrations, closes, releases and lifecycle clears interleave. The part of a close that
talks to the host is one job of the request queue of its incarnation, whose worker ends a job before it takes
the next; a lease may be released, cleared or registered again under any job. */
module PendingPane {
  import opened Wrappers

  type LeaseId = string

  type Incarnation = nat

  type Call = nat

  datatype Record = Record(
    incarnation: Incarnation,
    session: string,
    pane: string,
    temporaryTab: Option<string>,
    mayHaveApplied: bool)

  /** A lease record and, as history, the number of the registration that made it. */
  datatype Entry = Entry(record: Record, registration: nat)

  type Leases = map<LeaseId, Entry>

  /** What a caller names when it asks for a close. */
  datatype Claim = Claim(id: LeaseId, leaseSession: string, session: string, pane: string, temporaryTab: Option<string>)

  // ----- the lease map -----

  predicate Matches(record: Record, claim: Claim, authority: Incarnation) {
    && claim.leaseSession == claim.session
    && record.incarnation == authority
    && record.session == claim.leaseSession
    && record.pane == claim.pane
    && record.temporaryTab == claim.temporaryTab
  }

  predicate CanMark(leases: Leases, id: LeaseId, record: Record) {
    id in leases && leases[id].record == record
  }

  function Marked(leases: Leases, id: LeaseId, record: Record): Leases {
    if CanMark(leases, id, record)
    then leases[id := leases[id].(record := record.(mayHaveApplied := true))]
    else leases
  }

  function Reopened(leases: Leases, id: LeaseId, record: Record): Leases {
    if id in leases && leases[id].record == record.(mayHaveApplied := true)
    then leases[id := leases[id].(record := record.(mayHaveApplied := false))]
    else leases
  }

  datatype MarkError = Stale | OutcomeUnknown

  // ----- concurrent closes -----

  /** How a `pane.close` request ended. */
  datatype Outcome = Closed | ProvenAbsent | Rejected | MayHaveReachedHost | NotSent

  /** The pane is closed, or may be: the request must not be repeated. */
  predicate IsFinal(o: Outcome) {
    o.Closed? || o.ProvenAbsent? || o.MayHaveReachedHost?
  }

  datatype Look = PaneAbsent | LookFailed | Shown(samePane: bool)

  /** A close waits in the request queue of its incarnation, and then is that queue's job. */
  datatype Stage = Queued | Looking | Marking | Sending | Settling(outcome: Outcome)

  datatype Closer = Closer(id: LeaseId, authority: Incarnation, record: Record, registration: nat, stage: Stage)

  datatype CloseRequest = CloseRequest(registration: nat, authority: Incarnation, pane: string, outcome: Outcome)

  datatype Registered = Registered(id: LeaseId, record: Record)

  /** `registered` and `requests` are history: every registration, and every `pane.close` in order. */
  datatype State = State(
    leases: Leases,
    closers: map<Call, Closer>,
    registered: seq<Registered>,
    requests: seq<CloseRequest>)

  const START := State(map[], map[], [], [])

  datatype Step =
    | RegisterPane(id: LeaseId, record: Record)
    | Release(id: LeaseId)
    | ClearAll
    | Begin(call: Call, claim: Claim, authority: Incarnation)
    | Run(call: Call)
    | LookAt(call: Call, answer: Look)
    | MarkLease(call: Call)
    | Send(call: Call, outcome: Outcome)
    | Settle(call: Call)
    | Abandon(call: Call)

  predicate IsCloserStep(step: Step) {
    step.Run? || step.LookAt? || step.MarkLease? || step.Send? || step.Settle?
  }

  /** From the mark to the settlement: the request is leaving, on its way, or answered. */
  predicate Holding(c: Closer) {
    c.stage.Sending? || c.stage.Settling?
  }

  /** The queue of this incarnation has a job. */
  predicate Busy(closers: map<Call, Closer>, authority: Incarnation) {
    exists call <- closers :: closers[call].authority == authority && !closers[call].stage.Queued?
  }

  function Leave(s: State, call: Call): State {
    s.(closers := s.closers - {call})
  }

  /** The request of a closer, once its outcome is known. */
  function RequestOf(c: Closer, outcome: Outcome): CloseRequest {
    CloseRequest(c.registration, c.authority, c.record.pane, outcome)
  }

  function CloserStep(s: State, step: Step): State
    requires IsCloserStep(step) && step.call in s.closers
  {
    var c := s.closers[step.call];
    match step
    case Run(call) =>
      if !c.stage.Queued? || Busy(s.closers, c.authority) then s
      else s.(closers := s.closers[call := c.(stage := Looking)])
    case LookAt(call, answer) =>
      if !c.stage.Looking? then s
      else if answer.PaneAbsent? then Leave(s.(leases := s.leases - {c.id}), call)
      else if answer.LookFailed? || c.record.mayHaveApplied || !answer.samePane then Leave(s, call)
      else s.(closers := s.closers[call := c.(stage := Marking)])
    case MarkLease(call) =>
      if !c.stage.Marking? then s
      else if CanMark(s.leases, c.id, c.record)
      then s.(leases := Marked(s.leases, c.id, c.record),
              closers := s.closers[call := c.(stage := Sending, registration := s.leases[c.id].registration)])
      else Leave(s, call)
    case Send(call, outcome) =>
      if !c.stage.Sending? then s
      else s.(requests := s.requests + [RequestOf(c, outcome)],
              closers := s.closers[call := c.(stage := Settling(outcome))])
    case Settle(call) =>
      if !c.stage.Settling? then s
      else
        var leases := if c.stage.outcome.Closed? || c.stage.outcome.ProvenAbsent? then s.leases - {c.id}
                      else if c.stage.outcome.MayHaveReachedHost? then s.leases
                      else Reopened(s.leases, c.id, c.record);
        Leave(s.(leases := leases), call)
  }

  function Apply(s: State, step: Step): State {
    if IsCloserStep(step) then if step.call in s.closers then CloserStep(s, step) else s
    else
      match step
      case RegisterPane(id, record) =>
        var open := record.(mayHaveApplied := false);
        s.(leases := s.leases[id := Entry(open, |s.registered|)], registered := s.registered + [Registered(id, open)])
      case Release(id) => s.(leases := s.leases - {id})
      case ClearAll => s.(leases := map[])
      case Begin(call, claim, authority) =>
        if call !in s.closers && claim.id in s.leases && Matches(s.leases[claim.id].record, claim, authority)
        then
          var e := s.leases[claim.id];
          s.(closers := s.closers[call := Closer(claim.id, authority, e.record, e.registration, Queued)])
        else s
      case Abandon(call) => if call in s.closers && s.closers[call].stage.Queued? then Leave(s, call) else s
  }

  ghost function After(s: State, steps: seq<Step>): State
    decreases |steps|
  {
    if steps == [] then s else After(Apply(s, steps[0]), steps[1..])
  }

  // ----- what the steps keep -----

  /** A `pane.close` of this registration succeeded or may have reached the host. */
  predicate Finished(requests: seq<CloseRequest>, registration: nat) {
    exists i :: 0 <= i < |requests| && requests[i].registration == registration && IsFinal(requests[i].outcome)
  }

  /** The record is the registered one, marked or not. */
  predicate Describes(registered: seq<Registered>, n: nat, id: LeaseId, record: Record) {
    n < |registered| && registered[n] == Registered(id, record.(mayHaveApplied := false))
  }

  predicate LeaseInv(s: State) {
    forall id <- s.leases ::
      && Describes(s.registered, s.leases[id].registration, id, s.leases[id].record)
      && (Finished(s.requests, s.leases[id].registration) ==> s.leases[id].record.mayHaveApplied)
  }

  /** What a close on its way finds under its lease ID: the entry it marked, or a later registration that no
      close of the same incarnation has marked. */
  predicate HeldBy(c: Closer, e: Entry) {
    || (e.registration == c.registration && e.record.mayHaveApplied)
    || (e.registration > c.registration && (e.record.incarnation == c.authority ==> !e.record.mayHaveApplied))
  }

  predicate CloserInv(s: State, c: Closer) {
    && Describes(s.registered, c.registration, c.id, c.record)
    && c.record.incarnation == c.authority
    && (c.stage.Marking? || Holding(c) ==> !c.record.mayHaveApplied)
    && (Holding(c) && c.id in s.leases ==> HeldBy(c, s.leases[c.id]))
    && (Finished(s.requests, c.registration) ==> !c.stage.Sending? && (c.stage.Settling? ==> IsFinal(c.stage.outcome)))
  }

  /** A queue has one job at a time. */
  predicate PairInv(s: State) {
    forall a <- s.closers, b <- s.closers | a != b && s.closers[a].authority == s.closers[b].authority ::
      s.closers[a].stage.Queued? || s.closers[b].stage.Queued?
  }

  /** Every request ran under its registration, and none follows a final one of the same registration. */
  predicate RequestInv(s: State) {
    && (forall i | 0 <= i < |s.requests| ::
          var n := s.requests[i].registration;
          && n < |s.registered|
          && s.requests[i].authority == s.registered[n].record.incarnation
          && s.requests[i].pane == s.registered[n].record.pane)
    && (forall i, j | 0 <= i < j < |s.requests| && s.requests[i].registration == s.requests[j].registration ::
          !IsFinal(s.requests[i].outcome))
  }

  predicate Inv(s: State) {
    && LeaseInv(s)
    && (forall call <- s.closers :: CloserInv(s, s.closers[call]))
    && PairInv(s)
    && RequestInv(s)
  }

  lemma {:induction false} StartInv()
    ensures Inv(START)
  {
  }

  lemma {:induction false} FinishedMore(requests: seq<CloseRequest>, r: CloseRequest, n: nat)
    ensures Finished(requests + [r], n) <==> Finished(requests, n) || (r.registration == n && IsFinal(r.outcome))
  {
    var more := requests + [r];
    assert more[|requests|] == r;
    if Finished(requests, n) {
      var i :| 0 <= i < |requests| && requests[i].registration == n && IsFinal(requests[i].outcome);
      assert more[i] == requests[i];
    }
  }

  lemma {:induction false} SendInv(s: State, call: Call, outcome: Outcome)
    requires Inv(s) && call in s.closers && s.closers[call].stage.Sending?
    ensures Inv(CloserStep(s, Send(call, outcome)))
  {
    var c, s' := s.closers[call], CloserStep(s, Send(call, outcome));
    var r := RequestOf(c, outcome);
    forall n: nat
      ensures Finished(s'.requests, n) <==> Finished(s.requests, n) || (r.registration == n && IsFinal(r.outcome))
    {
      FinishedMore(s.requests, r, n);
    }
  }

  ghost predicate Within<K, V>(less: map<K, V>, more: map<K, V>) {
    forall k <- less :: k in more && less[k] == more[k]
  }

  /** Leases may be dropped and closers may leave at any time. */
  lemma {:induction false} LessInv(s: State, leases: Leases, closers: map<Call, Closer>)
    requires Inv(s) && Within(leases, s.leases) && Within(closers, s.closers)
    ensures Inv(s.(leases := leases, closers := closers))
  {
  }

  lemma {:induction false} BeginInv(s: State, step: Step)
    requires Inv(s) && step.Begin?
    ensures Inv(Apply(s, step))
  {
  }

  lemma {:induction false} ReopenInv(s: State, call: Call)
    requires Inv(s) && call in s.closers && s.closers[call].stage.Settling?
    requires s.closers[call].stage.outcome.Rejected? || s.closers[call].stage.outcome.NotSent?
    ensures Inv(CloserStep(s, Settle(call)))
  {
  }

  lemma {:induction false} RunInv(s: State, call: Call)
    requires Inv(s) && call in s.closers
    ensures Inv(CloserStep(s, Run(call)))
  {
  }

  lemma {:induction false} LookInv(s: State, call: Call, answer: Look)
    requires Inv(s) && call in s.closers
    ensures Inv(CloserStep(s, LookAt(call, answer)))
  {
  }

  lemma {:induction false} MarkInv(s: State, call: Call)
    requires Inv(s) && call in s.closers
    ensures Inv(CloserStep(s, MarkLease(call)))
  {
  }

  lemma {:induction false} SettleInv(s: State, call: Call)
    requires Inv(s) && call in s.closers
    ensures Inv(CloserStep(s, Settle(call)))
  {
    var c := s.closers[call];
    if c.stage.Settling? {
      if c.stage.outcome.Rejected? || c.stage.outcome.NotSent? {
        ReopenInv(s, call);
      } else {
        LessInv(s, CloserStep(s, Settle(call)).leases, s.closers - {call});
      }
    }
  }

  lemma {:induction false} RegisterInv(s: State, id: LeaseId, record: Record)
    requires Inv(s)
    ensures Inv(Apply(s, RegisterPane(id, record)))
  {
    var n := |s.registered|;
    assert !Finished(s.requests, n) by {
      assert forall i | 0 <= i < |s.requests| :: s.requests[i].registration < n;
    }
  }

  lemma {:induction false} ApplyInv(s: State, step: Step)
    requires Inv(s)
    ensures Inv(Apply(s, step))
  {
    match step
    case RegisterPane(id, record) => RegisterInv(s, id, record);
    case Run(call) =>
      if call in s.closers {
        RunInv(s, call);
      }
    case LookAt(call, answer) =>
      if call in s.closers {
        LookInv(s, call, answer);
      }
    case MarkLease(call) =>
      if call in s.closers {
        MarkInv(s, call);
      }
    case Send(call, outcome) =>
      if call in s.closers && s.closers[call].stage.Sending? {
        SendInv(s, call, outcome);
      }
    case Settle(call) =>
      if call in s.closers {
        SettleInv(s, call);
      }
    case Begin(_, _, _) => BeginInv(s, step);
    case Release(_) => LessInv(s, Apply(s, step).leases, s.closers);
    case ClearAll => LessInv(s, map[], s.closers);
    case Abandon(call) => LessInv(s, s.leases, Apply(s, step).closers);
  }

  lemma {:induction false} AfterInv(s: State, steps: seq<Step>)
    requires Inv(s)
    ensures Inv(After(s, steps))
    decreases |steps|
  {
    if steps != [] {
      ApplyInv(s, steps[0]);
      AfterInv(Apply(s, steps[0]), steps[1..]);
    }
  }

  /** In any run: once a close of a registration succeeded or may have reached the host, no later request is a
      close of that registration; every close ran under the incarnation, and named the pane, of the
      registration it belongs to. */
  lemma {:induction false} NoCloseAfterAFinalOne(steps: seq<Step>, i: nat, j: nat)
    requires i < j < |After(START, steps).requests|
    requires IsFinal(After(START, steps).requests[i].outcome)
    ensures var s := After(START, steps);
            && s.requests[j].registration != s.requests[i].registration
            && s.requests[i].registration < |s.registered|
            && s.requests[i].authority == s.registered[s.requests[i].registration].record.incarnation
            && s.requests[i].pane == s.registered[s.requests[i].registration].record.pane
  {
    StartInv();
    AfterInv(START, steps);
  }

  /** A record that is open has had only rejected or unsent closes, and no close of it is on its way. */
  lemma {:induction false} OpenMeansNothingApplied(steps: seq<Step>, id: LeaseId)
    requires id in After(START, steps).leases && !After(START, steps).leases[id].record.mayHaveApplied
    ensures var s := After(START, steps);
            && !Finished(s.requests, s.leases[id].registration)
            && forall call <- s.closers | s.closers[call].registration == s.leases[id].registration ::
                 !Holding(s.closers[call])
  {
    StartInv();
    AfterInv(START, steps);
    var s := After(START, steps);
    assert forall call <- s.closers :: CloserInv(s, s.closers[call]);
  }

  /** Two closes of one incarnation, or of one registration, are never between the mark and the settlement
      together. */
  lemma {:induction false} OneCloseAtATime(steps: seq<Step>, a: Call, b: Call)
    requires var s := After(START, steps);
             a in s.closers && b in s.closers && a != b && Holding(s.closers[a]) && Holding(s.closers[b])
    ensures After(START, steps).closers[a].authority != After(START, steps).closers[b].authority
    ensures After(START, steps).closers[a].registration != After(START, steps).closers[b].registration
  {
    StartInv();
    AfterInv(START, steps);
    var s := After(START, steps);
    assert CloserInv(s, s.closers[a]) && CloserInv(s, s.closers[b]);
  }

  /** A record changes from marked to open only when the close that marked it was rejected or never sent. */
  lemma {:induction false} ReopenedOnlyAfterRefusal(s: State, step: Step, id: LeaseId)
    requires Inv(s) && id in s.leases && s.leases[id].record.mayHaveApplied
    requires id in Apply(s, step).leases && !Apply(s, step).leases[id].record.mayHaveApplied
    ensures || (step.RegisterPane? && step.id == id)
            || (&& step.Settle? && step.call in s.closers && s.closers[step.call].id == id
                && s.closers[step.call].registration == s.leases[id].registration
                && (s.closers[step.call].stage == Settling(Rejected)
                    || s.closers[step.call].stage == Settling(NotSent)))
  {
  }

  // ----- the object -----

  /** The lease map of the adapter and the closes that are under way, with the history. */
  class PendingPanes {
    var leases: Leases
    var closers: map<Call, Closer>
    var registered: seq<Registered>
    var requests: seq<CloseRequest>

    ghost function Now(): State
      reads this
    {
      State(leases, closers, registered, requests)
    }

    constructor ()
      ensures Now() == START
    {
      leases, closers, registered, requests := map[], map[], [], [];
    }

    method Register(id: LeaseId, record: Record)
      modifies this
      ensures Now() == Apply(old(Now()), RegisterPane(id, record))
    {
      var open := record.(mayHaveApplied := false);
      leases := leases[id := Entry(open, |registered|)];
      registered := registered + [Registered(id, open)];
    }

    method PendingCloseRecord(claim: Claim, authority: Incarnation) returns (found: Result<Entry, MarkError>)
      ensures found == if claim.id in leases && Matches(leases[claim.id].record, claim, authority)
                       then Ok(leases[claim.id]) else Err(Stale)
    {
      if claim.id !in leases || !Matches(leases[claim.id].record, claim, authority) {
        return Err(Stale);
      }
      return Ok(leases[claim.id]);
    }

    /** Compares and marks in one locked region. */
    method Mark(id: LeaseId, record: Record) returns (marked: Result<nat, MarkError>)
      modifies `leases
      ensures leases == Marked(old(leases), id, record)
      ensures marked == if id !in old(leases) then Err(Stale)
                        else if old(leases)[id].record != record then Err(OutcomeUnknown)
                        else Ok(old(leases)[id].registration)
    {
      if id !in leases {
        return Err(Stale);
      }
      if leases[id].record != record {
        return Err(OutcomeUnknown);
      }
      leases := leases[id := leases[id].(record := leases[id].record.(mayHaveApplied := true))];
      return Ok(leases[id].registration);
    }

    method Reopen(id: LeaseId, record: Record)
      modifies `leases
      ensures leases == Reopened(old(leases), id, record)
    {
      if id in leases {
        var expected := record.(mayHaveApplied := true);
        if leases[id].record == expected {
          leases := leases[id := leases[id].(record := leases[id].record.(mayHaveApplied := false))];
        }
      }
    }

    method Remove(id: LeaseId)
      modifies `leases
      ensures leases == old(leases) - {id}
    {
      leases := leases - {id};
    }

    method Clear()
      modifies `leases
      ensures leases == map[]
    {
      leases := map[];
    }

    /** A region of one close. */
    method TakeCloserStep(step: Step)
      requires IsCloserStep(step) && step.call in closers
      modifies this
      ensures Now() == CloserStep(old(Now()), step)
    {
      var c := closers[step.call];
      match step
      case Run(call) =>
        if c.stage.Queued? && !Busy(closers, c.authority) {
          closers := closers[call := c.(stage := Looking)];
        }
      case LookAt(call, answer) =>
        if c.stage.Looking? {
          if answer.PaneAbsent? {
            Remove(c.id);
            closers := closers - {call};
          } else if answer.LookFailed? || c.record.mayHaveApplied || !answer.samePane {
            closers := closers - {call};
          } else {
            closers := closers[call := c.(stage := Marking)];
          }
        }
      case MarkLease(call) =>
        if c.stage.Marking? {
          var marked := Mark(c.id, c.record);
          if marked.Ok? {
            closers := closers[call := c.(stage := Sending, registration := marked.value)];
          } else {
            closers := closers - {call};
          }
        }
      case Send(call, outcome) =>
        if c.stage.Sending? {
          requests := requests + [RequestOf(c, outcome)];
          closers := closers[call := c.(stage := Settling(outcome))];
        }
      case Settle(call) =>
        if c.stage.Settling? {
          match c.stage.outcome {
            case Closed => Remove(c.id);
            case ProvenAbsent => Remove(c.id);
            case MayHaveReachedHost =>
            case Rejected => Reopen(c.id, c.record);
            case NotSent => Reopen(c.id, c.record);
          }
          closers := closers - {call};
        }
    }

    method BeginClose(call: Call, claim: Claim, authority: Incarnation)
      modifies this
      ensures Now() == Apply(old(Now()), Begin(call, claim, authority))
    {
      if call !in closers {
        var found := PendingCloseRecord(claim, authority);
        if found.Ok? {
          var e := found.value;
          closers := closers[call := Closer(claim.id, authority, e.record, e.registration, Queued)];
        }
      }
    }

    /** The caller of a close is dropped, or its queue has closed. A close that has become a job goes on without
        its caller. */
    method AbandonClose(call: Call)
      modifies this
      ensures Now() == Apply(old(Now()), Abandon(call))
    {
      if call in closers && closers[call].stage.Queued? {
        closers := closers - {call};
      }
    }

    method Take(step: Step)
      modifies this
      ensures Now() == Apply(old(Now()), step)
    {
      match step
      case RegisterPane(id, record) => Register(id, record);
      case Release(id) => Remove(id);
      case ClearAll => Clear();
      case Begin(call, claim, authority) => BeginClose(call, claim, authority);
      case Abandon(call) => AbandonClose(call);
      case _ =>
        if step.call in closers {
          TakeCloserStep(step);
        }
    }

    /** Any schedule on the object is a run; no two entries of the log close one registration
        when the first is final, and an open record has no final close. */
    method Execute(schedule: seq<Step>)
      requires Inv(Now())
      modifies this
      ensures Now() == After(old(Now()), schedule) && Inv(Now())
      ensures forall i, j | 0 <= i < j < |requests| && requests[i].registration == requests[j].registration ::
                !IsFinal(requests[i].outcome)
      ensures forall id <- leases | !leases[id].record.mayHaveApplied :: !Finished(requests, leases[id].registration)
    {
      var i := 0;
      while i < |schedule|
        invariant 0 <= i <= |schedule|
        invariant Inv(Now())
        invariant After(Now(), schedule[i..]) == After(old(Now()), schedule)
      {
        assert schedule[i..][0] == schedule[i] && schedule[i..][1..] == schedule[i + 1..];
        ApplyInv(Now(), schedule[i]);
        Take(schedule[i]);
        i := i + 1;
      }
    }
  }
}
