/** Creations that wait for the Muxe UI pane to go away before they are sent to the host.

A caller queues its request first and asks for a host snapshot second, so that a close event and a
snapshot cannot both miss it. The queue map changes under its own lock; the host, the event stream and
any number of callers interleave freely. Execution IDs are fresh, and the host does not reuse a pane ID
within one incarnation. */
module PostDismissal {
  import opened Wrappers

  type Pane = string

  type Execution = nat

  datatype Request = Request(execution: Execution, pane: Pane)

  type Queue = map<Pane, seq<Request>>

  // ----- the queue map -----

  function Waiting(q: Queue, pane: Pane): seq<Request> {
    if pane in q then q[pane] else []
  }

  function Pushed(q: Queue, r: Request): Queue {
    q[r.pane := Waiting(q, r.pane) + [r]]
  }

  function Claimed(q: Queue, pane: Pane): Queue {
    q - {pane}
  }

  /** The position of the first request with this execution, or the length when there is none. */
  function Position(rs: seq<Request>, e: Execution): (i: nat)
    ensures i <= |rs|
    ensures i < |rs| ==> rs[i].execution == e
    ensures forall j :: 0 <= j < i ==> rs[j].execution != e
  {
    if rs == [] || rs[0].execution == e then 0 else Position(rs[1..], e) + 1
  }

  predicate Holds(q: Queue, pane: Pane, e: Execution) {
    exists i :: 0 <= i < |Waiting(q, pane)| && Waiting(q, pane)[i].execution == e
  }

  /** Without the first request of `e`; a pane that nothing waits for leaves the map. */
  function Reclaimed(q: Queue, pane: Pane, e: Execution): Queue {
    var rs := Waiting(q, pane);
    var i := Position(rs, e);
    if i == |rs| then q
    else if |rs| == 1 then q - {pane}
    else q[pane := rs[..i] + rs[i + 1..]]
  }

  class PostDismissalQueue {
    var queue: Queue

    constructor ()
      ensures queue == map[]
    {
      queue := map[];
    }

    method Push(r: Request)
      modifies this
      ensures queue == Pushed(old(queue), r)
    {
      if r.pane !in queue {
        queue := queue[r.pane := []];
      }
      queue := queue[r.pane := queue[r.pane] + [r]];
    }

    method Claim(pane: Pane) returns (batch: seq<Request>)
      modifies this
      ensures batch == Waiting(old(queue), pane)
      ensures queue == Claimed(old(queue), pane)
    {
      batch := [];
      if pane in queue {
        batch := queue[pane];
      }
      queue := queue - {pane};
    }

    /** Removes exactly the caller's own request; false when another path has claimed it. */
    method ReclaimAfterFailedSnapshot(pane: Pane, execution: Execution) returns (stillQueued: bool)
      modifies this
      ensures stillQueued == Holds(old(queue), pane, execution)
      ensures queue == Reclaimed(old(queue), pane, execution)
    {
      if pane !in queue {
        return false;
      }
      var requests := queue[pane];
      var index := 0;
      while index < |requests| && requests[index].execution != execution
        invariant 0 <= index <= |requests|
        invariant forall j :: 0 <= j < index ==> requests[j].execution != execution
      {
        index := index + 1;
      }
      if index == |requests| {
        return false;
      }
      assert Waiting(queue, pane)[index].execution == execution;
      requests := requests[..index] + requests[index + 1..];
      if requests == [] {
        queue := queue - {pane};
      } else {
        queue := queue[pane := requests];
      }
      return true;
    }

    method TakeAll() returns (taken: Queue)
      modifies this
      ensures taken == old(queue) && queue == map[]
    {
      taken := queue;
      queue := map[];
    }
  }

  // ----- callers, host and events -----

  /** A caller from its push to its return; `Answered` carries whether the snapshot shows the pane, or
      nothing when the snapshot failed. */
  datatype Stage = Asking | Answered(live: Option<bool>) | Accepted | Refused

  /** What became of a request. */
  datatype Place = Queued | Taken | Started | Failed | Retracted

  datatype Track = Track(pane: Pane, stage: Stage, place: Place)

  /** `gone` holds the panes that closed or that a snapshot did not show; none of them appears again.
      `listening` while the adapter reads host events. The places in `tracks`, `started`, `failed` and
      `missed` are history: the second and third count host requests and Failed terminals, the last holds the
      panes whose closing was never read, or was dropped with the event stream. */
  datatype State = State(
    queue: Queue,
    live: set<Pane>,
    gone: set<Pane>,
    events: seq<Pane>,
    tracks: map<Execution, Track>,
    started: multiset<Execution>,
    failed: multiset<Execution>,
    listening: bool,
    missed: set<Pane>)

  const START := State(map[], {}, {}, [], map[], multiset{}, multiset{}, true, {})

  datatype Step =
    | Enter(execution: Execution, pane: Pane)
    | Snapshot(execution: Execution, ok: bool)
    | Settle(execution: Execution)
    | Appear(pane: Pane)
    | Close(pane: Pane)
    | Repeat(pane: Pane)
    | Observe
    | Launch(execution: Execution, ok: bool)
    | Suspend
    | Listen
    | Lose

  /** The queued requests of one pane move to `to`. */
  function Moved(tracks: map<Execution, Track>, pane: Pane, to: Place): map<Execution, Track> {
    map e | e in tracks ::
      if tracks[e].place.Queued? && tracks[e].pane == pane then tracks[e].(place := to) else tracks[e]
  }

  function ClaimPane(s: State, pane: Pane): State {
    s.(queue := Claimed(s.queue, pane), tracks := Moved(s.tracks, pane, Taken))
  }

  function QueuedExecutions(s: State): set<Execution> {
    set e | e in s.tracks && s.tracks[e].place.Queued?
  }

  function AskHost(s: State, e: Execution, ok: bool): State
    requires e in s.tracks
  {
    var t := s.tracks[e];
    var shown := t.pane in s.live;
    s.(tracks := s.tracks[e := t.(stage := Answered(if ok then Some(shown) else None))],
       gone := if ok && !shown then s.gone + {t.pane} else s.gone)
  }

  function SettleCaller(s: State, e: Execution): State
    requires e in s.tracks && s.tracks[e].stage.Answered?
  {
    var t := s.tracks[e];
    var accepted := s.(tracks := s.tracks[e := t.(stage := Accepted)]);
    match t.stage.live
    case Some(true) => accepted
    case Some(false) => ClaimPane(accepted, t.pane)
    case None =>
      if Holds(s.queue, t.pane, e)
      then s.(tracks := s.tracks[e := t.(stage := Refused, place := Retracted)], queue := Reclaimed(s.queue, t.pane, e))
      else accepted
  }

  function LaunchTaken(s: State, e: Execution, ok: bool): State
    requires e in s.tracks
  {
    var t := s.tracks[e];
    if ok then s.(tracks := s.tracks[e := t.(place := Started)], started := s.started + multiset{e})
    else s.(tracks := s.tracks[e := t.(place := Failed)], failed := s.failed + multiset{e})
  }

  /** The event stream is dropped, with what it still held. */
  function Deafened(s: State): State {
    s.(events := [], listening := false, missed := s.missed + set pane | pane in s.events)
  }

  /** A loss or a shutdown drops the stream and fails whatever waits; a suspend only drops the stream. */
  function FailAll(s: State): State {
    Deafened(s).(queue := map[],
       failed := s.failed + multiset(QueuedExecutions(s)),
       tracks := map e | e in s.tracks ::
         if s.tracks[e].place.Queued? then s.tracks[e].(place := Failed) else s.tracks[e])
  }

  function ClosePane(s: State, pane: Pane): State {
    s.(live := s.live - {pane}, gone := s.gone + {pane},
       events := if s.listening then s.events + [pane] else s.events,
       missed := if s.listening then s.missed else s.missed + {pane})
  }

  function Apply(s: State, step: Step): State {
    match step
    case Enter(e, pane) =>
      if e in s.tracks then s
      else s.(queue := Pushed(s.queue, Request(e, pane)), tracks := s.tracks[e := Track(pane, Asking, Queued)])
    case Snapshot(e, ok) => if e in s.tracks && s.tracks[e].stage.Asking? then AskHost(s, e, ok) else s
    case Settle(e) => if e in s.tracks && s.tracks[e].stage.Answered? then SettleCaller(s, e) else s
    case Appear(pane) => if pane in s.gone then s else s.(live := s.live + {pane})
    case Close(pane) => if pane in s.live then ClosePane(s, pane) else s
    case Repeat(pane) => if pane in s.gone && s.listening then s.(events := s.events + [pane]) else s
    case Observe => if s.events != [] then ClaimPane(s.(events := s.events[1..]), s.events[0]) else s
    case Launch(e, ok) => if e in s.tracks && s.tracks[e].place.Taken? then LaunchTaken(s, e, ok) else s
    case Suspend => Deafened(s)
    case Listen => s.(listening := true)
    case Lose => FailAll(s)
  }

  function After(s: State, steps: seq<Step>): State
    decreases |steps|
  {
    if steps == [] then s else After(Apply(s, steps[0]), steps[1..])
  }

  // ----- what the steps keep -----

  /** A nonempty list of distinct queued requests of one pane. */
  predicate ListInv(rs: seq<Request>, p: Pane, tracks: map<Execution, Track>) {
    && rs != []
    && (forall i | 0 <= i < |rs| ::
          && rs[i].pane == p && rs[i].execution in tracks
          && tracks[rs[i].execution].pane == p && tracks[rs[i].execution].place.Queued?)
    && (forall i, j | 0 <= i < j < |rs| :: rs[i].execution != rs[j].execution)
  }

  /** The queue holds exactly the queued requests, each once, under its own pane. */
  ghost predicate QueueInv(q: Queue, tracks: map<Execution, Track>) {
    && (forall p <- q :: ListInv(q[p], p, tracks))
    && (forall e <- tracks | tracks[e].place.Queued? :: Holds(q, tracks[e].pane, e))
  }

  /** A started request counts one host request, a failed one counts one terminal, and no other counts. */
  predicate CountedOnce(s: State, e: Execution) {
    && s.started[e] == (if e in s.tracks && s.tracks[e].place.Started? then 1 else 0)
    && s.failed[e] == (if e in s.tracks && s.tracks[e].place.Failed? then 1 else 0)
  }

  ghost predicate CountInv(s: State) {
    forall e :: CountedOnce(s, e)
  }

  /** A refused caller is one whose request was retracted; a pane that a snapshot did not show, or whose
      requests were taken or started, is gone. */
  predicate TrackInv(t: Track, gone: set<Pane>) {
    && (t.stage.Refused? <==> t.place.Retracted?)
    && (t.stage == Answered(Some(false)) || t.place.Taken? || t.place.Started? ==> t.pane in gone)
  }

  predicate HostInv(s: State) {
    && s.live !! s.gone
    && (forall i | 0 <= i < |s.events| :: s.events[i] in s.gone)
    && s.missed <= s.gone
    && (forall e <- s.tracks :: TrackInv(s.tracks[e], s.gone))
  }

  /** The caller of this request still has to act on the queue. */
  predicate Unresolved(t: Track) {
    t.stage == Asking || t.stage == Answered(Some(false)) || t.stage == Answered(None)
  }

  predicate WakeInv(s: State) {
    forall e <- s.tracks | s.tracks[e].place.Queued? ::
      || Unresolved(s.tracks[e])
      || s.tracks[e].pane in s.live || s.tracks[e].pane in s.events || s.tracks[e].pane in s.missed
  }

  ghost predicate Inv(s: State) {
    QueueInv(s.queue, s.tracks) && CountInv(s) && HostInv(s) && WakeInv(s)
  }

  lemma {:induction false} StartInv()
    ensures Inv(START)
  {
  }

  lemma {:induction false} PushInv(q: Queue, tracks: map<Execution, Track>, e: Execution, pane: Pane)
    requires QueueInv(q, tracks) && e !in tracks
    ensures QueueInv(Pushed(q, Request(e, pane)), tracks[e := Track(pane, Asking, Queued)])
  {
    var q', tracks' := Pushed(q, Request(e, pane)), tracks[e := Track(pane, Asking, Queued)];
    assert Waiting(q', pane)[|Waiting(q, pane)|].execution == e;
    forall x <- tracks' | tracks'[x].place.Queued?
      ensures Holds(q', tracks'[x].pane, x)
    {
      if x != e {
        var i :| 0 <= i < |Waiting(q, tracks[x].pane)| && Waiting(q, tracks[x].pane)[i].execution == x;
        assert Waiting(q', tracks[x].pane)[i].execution == x;
      }
    }
  }

  lemma {:induction false} ClaimInv(q: Queue, tracks: map<Execution, Track>, pane: Pane)
    requires QueueInv(q, tracks)
    ensures QueueInv(Claimed(q, pane), Moved(tracks, pane, Taken))
  {
    var q', tracks' := Claimed(q, pane), Moved(tracks, pane, Taken);
    forall x <- tracks' | tracks'[x].place.Queued?
      ensures Holds(q', tracks'[x].pane, x)
    {
      assert Waiting(q', tracks[x].pane) == Waiting(q, tracks[x].pane);
    }
  }

  lemma {:induction false} WithoutOne(rs: seq<Request>, p: Pane, tracks: map<Execution, Track>, at: nat, t: Track)
    requires ListInv(rs, p, tracks) && at < |rs| && |rs| > 1
    ensures ListInv(rs[..at] + rs[at + 1..], p, tracks[rs[at].execution := t])
  {
    var rs' := rs[..at] + rs[at + 1..];
    assert forall i | 0 <= i < |rs'| :: rs'[i] == rs[if i < at then i else i + 1];
  }

  lemma {:induction false} ReclaimLists(q: Queue, tracks: map<Execution, Track>, e: Execution, t: Track)
    requires QueueInv(q, tracks) && e in tracks && Holds(q, tracks[e].pane, e)
    requires t.pane == tracks[e].pane && !t.place.Queued?
    ensures forall p <- Reclaimed(q, t.pane, e) :: ListInv(Reclaimed(q, t.pane, e)[p], p, tracks[e := t])
  {
    var rs, q' := q[t.pane], Reclaimed(q, t.pane, e);
    if |rs| > 1 {
      WithoutOne(rs, t.pane, tracks, Position(rs, e), t);
    }
    forall p <- q'
      ensures ListInv(q'[p], p, tracks[e := t])
    {
      if p != t.pane {
        assert ListInv(q[p], p, tracks);
      }
    }
  }

  lemma {:induction false} StillHeld(q: Queue, pane: Pane, e: Execution, x: Execution)
    requires Holds(q, pane, x) && x != e
    ensures Holds(Reclaimed(q, pane, e), pane, x)
  {
    var rs, q' := Waiting(q, pane), Reclaimed(q, pane, e);
    var i :| 0 <= i < |rs| && rs[i].execution == x;
    var at := Position(rs, e);
    assert i != at && Waiting(q', pane)[if i > at then i - 1 else i].execution == x;
  }

  lemma {:induction false} ReclaimInv(q: Queue, tracks: map<Execution, Track>, e: Execution, t: Track)
    requires QueueInv(q, tracks) && e in tracks && Holds(q, tracks[e].pane, e)
    requires t.pane == tracks[e].pane && !t.place.Queued?
    ensures QueueInv(Reclaimed(q, tracks[e].pane, e), tracks[e := t])
  {
    var q', tracks' := Reclaimed(q, t.pane, e), tracks[e := t];
    ReclaimLists(q, tracks, e, t);
    forall x <- tracks' | tracks'[x].place.Queued?
      ensures Holds(q', tracks'[x].pane, x)
    {
      if tracks[x].pane == t.pane {
        StillHeld(q, t.pane, e, x);
      } else {
        assert Waiting(q', tracks[x].pane) == Waiting(q, tracks[x].pane);
      }
    }
  }

  lemma {:induction false} ApplyQueueInv(s: State, step: Step)
    requires QueueInv(s.queue, s.tracks) && HostInv(s)
    ensures QueueInv(Apply(s, step).queue, Apply(s, step).tracks)
  {
    match step
    case Enter(e, pane) =>
      if e !in s.tracks {
        PushInv(s.queue, s.tracks, e, pane);
      }
    case Snapshot(e, ok) =>
      if e in s.tracks && s.tracks[e].stage.Asking? {
        RestagedInv(s.queue, s.tracks, e, AskHost(s, e, ok).tracks[e].stage);
      }
    case Settle(e) =>
      if e in s.tracks && s.tracks[e].stage.Answered? {
        var t := s.tracks[e];
        if t.stage.live == None && Holds(s.queue, t.pane, e) {
          ReclaimInv(s.queue, s.tracks, e, t.(stage := Refused, place := Retracted));
        } else {
          RestagedInv(s.queue, s.tracks, e, Accepted);
          ClaimInv(s.queue, s.tracks[e := t.(stage := Accepted)], t.pane);
        }
      }
    case Observe =>
      if s.events != [] {
        ClaimInv(s.queue, s.tracks, s.events[0]);
      }
    case Launch(e, ok) =>
      if e in s.tracks && s.tracks[e].place.Taken? {
        LaunchedInv(s.queue, s.tracks, e, if ok then Started else Failed);
      }
    case _ =>
  }

  lemma {:induction false} RestagedInv(q: Queue, tracks: map<Execution, Track>, e: Execution, stage: Stage)
    requires QueueInv(q, tracks) && e in tracks
    ensures QueueInv(q, tracks[e := tracks[e].(stage := stage)])
  {
    forall p <- q
      ensures ListInv(q[p], p, tracks[e := tracks[e].(stage := stage)])
    {
      assert ListInv(q[p], p, tracks);
    }
  }

  lemma {:induction false} LaunchedInv(q: Queue, tracks: map<Execution, Track>, e: Execution, place: Place)
    requires QueueInv(q, tracks) && e in tracks && tracks[e].place.Taken? && !place.Queued?
    ensures QueueInv(q, tracks[e := tracks[e].(place := place)])
  {
    forall p <- q
      ensures ListInv(q[p], p, tracks[e := tracks[e].(place := place)])
    {
      assert ListInv(q[p], p, tracks);
    }
  }

  lemma {:induction false} HeldIsQueued(q: Queue, tracks: map<Execution, Track>, pane: Pane, e: Execution)
    requires QueueInv(q, tracks) && Holds(q, pane, e)
    ensures e in tracks && tracks[e].place.Queued? && tracks[e].pane == pane
  {
    assert ListInv(q[pane], pane, tracks);
  }

  lemma {:induction false} ApplyCounts(s: State, step: Step, e: Execution)
    requires CountedOnce(s, e) && QueueInv(s.queue, s.tracks)
    ensures CountedOnce(Apply(s, step), e)
  {
    if step.Settle? && step.execution in s.tracks {
      var t := s.tracks[step.execution];
      if Holds(s.queue, t.pane, step.execution) {
        HeldIsQueued(s.queue, s.tracks, t.pane, step.execution);
      }
    }
  }

  lemma {:induction false} ApplyCountInv(s: State, step: Step)
    requires CountInv(s) && QueueInv(s.queue, s.tracks)
    ensures CountInv(Apply(s, step))
  {
    forall e: Execution
      ensures CountedOnce(Apply(s, step), e)
    {
      assert CountedOnce(s, e);
      ApplyCounts(s, step, e);
    }
  }

  lemma {:induction false} SettleHostInv(s: State, e: Execution)
    requires HostInv(s) && e in s.tracks && s.tracks[e].stage.Answered?
    ensures HostInv(SettleCaller(s, e))
  {
    var t, s' := s.tracks[e], SettleCaller(s, e);
    forall x <- s'.tracks
      ensures TrackInv(s'.tracks[x], s'.gone)
    {
      assert TrackInv(s.tracks[x], s.gone) && TrackInv(t, s.gone);
    }
  }

  lemma {:induction false} ApplyHostInv(s: State, step: Step)
    requires HostInv(s)
    ensures HostInv(Apply(s, step))
  {
    match step
    case Settle(e) =>
      if e in s.tracks && s.tracks[e].stage.Answered? {
        SettleHostInv(s, e);
      }
    case _ =>
  }

  lemma {:induction false} SettleWakeInv(s: State, e: Execution)
    requires Inv(s) && e in s.tracks && s.tracks[e].stage.Answered?
    ensures WakeInv(SettleCaller(s, e))
  {
    if s.tracks[e].stage == Answered(None) && !Holds(s.queue, s.tracks[e].pane, e) {
      assert !s.tracks[e].place.Queued?;
    }
  }

  lemma {:induction false} StreamWakeInv(s: State, step: Step)
    requires Inv(s) && (step.Close? || step.Observe? || step.Suspend? || step.Listen? || step.Lose? || step.Repeat?)
    ensures WakeInv(Apply(s, step))
  {
  }

  lemma {:induction false} ApplyWakeInv(s: State, step: Step)
    requires Inv(s)
    ensures WakeInv(Apply(s, step))
  {
    match step
    case Settle(e) =>
      if e in s.tracks && s.tracks[e].stage.Answered? {
        SettleWakeInv(s, e);
      }
    case Enter(_, _) =>
    case Snapshot(_, _) =>
    case Appear(_) =>
    case Launch(_, _) =>
    case _ => StreamWakeInv(s, step);
  }

  lemma {:induction false} ApplyInv(s: State, step: Step)
    requires Inv(s)
    ensures Inv(Apply(s, step))
  {
    ApplyQueueInv(s, step);
    ApplyCountInv(s, step);
    ApplyHostInv(s, step);
    ApplyWakeInv(s, step);
  }

  lemma {:induction false} AfterInv(s: State, steps: seq<Step>)
    requires Inv(s)
    ensures Inv(After(s, steps))
    decreases |steps|
  {
    if steps != [] {
      ApplyInv(s, steps[0]);
      AfterInv(Apply(s, steps[0]), steps[1..]);
    }
  }

  // ----- what callers may rely on -----

  lemma {:induction false} QueuedHasAReason(s: State, pane: Pane)
    requires Inv(s) && pane in s.queue
    ensures pane in s.live || pane in s.events || pane in s.missed || exists e <- s.tracks :: Unresolved(s.tracks[e])
  {
    assert ListInv(s.queue[pane], pane, s.tracks);
    assert s.tracks[s.queue[pane][0].execution].place.Queued?;
  }

  /** Events are drained and every caller has returned. */
  predicate Quiet(s: State) {
    s.events == [] && forall e <- s.tracks :: s.tracks[e].stage.Accepted? || s.tracks[e].stage.Refused?
  }

  /** No lost wake-up, over any number of losses, suspends and resumes: when all is quiet, nothing waits for a
      pane that is gone, unless the closing of that very pane went unread. */
  lemma {:induction false} NothingIsForgotten(steps: seq<Step>, pane: Pane)
    requires var s := After(START, steps); Quiet(s) && pane !in s.live && pane !in s.missed
    ensures pane !in After(START, steps).queue
  {
    var s := After(START, steps);
    StartInv();
    AfterInv(START, steps);
    if pane in s.queue {
      QueuedHasAReason(s, pane);
    }
  }

  lemma {:induction false} FirstStep(s: State, step: Step, rest: seq<Step>)
    ensures After(s, [step] + rest) == After(Apply(s, step), rest)
  {
    assert ([step] + rest)[1..] == rest;
  }

  function WaitingAt(pane: Pane, e: Execution, stage: Stage): State {
    START.(live := {pane}, queue := map[pane := [Request(e, pane)]], tracks := map[e := Track(pane, stage, Queued)])
  }

  lemma {:induction false} EntersAndAsks(pane: Pane, e: Execution)
    ensures Apply(Apply(START, Appear(pane)), Enter(e, pane)) == WaitingAt(pane, e, Asking)
    ensures Apply(WaitingAt(pane, e, Asking), Snapshot(e, true)) == WaitingAt(pane, e, Answered(Some(true)))
    ensures Apply(WaitingAt(pane, e, Answered(Some(true))), Settle(e)) == WaitingAt(pane, e, Accepted)
  {
    assert Apply(START, Appear(pane)) == START.(live := {pane});
    var none: seq<Request> := [];
    assert none + [Request(e, pane)] == [Request(e, pane)] && Waiting(START.queue, pane) == none;
    assert Pushed(START.queue, Request(e, pane)) == map[pane := [Request(e, pane)]];
  }

  /** A caller whose pane is shown live returns and leaves its request queued. */
  lemma {:induction false} LivePaneWaits(pane: Pane, e: Execution, rest: seq<Step>) returns (steps: seq<Step>)
    ensures After(START, steps) == After(WaitingAt(pane, e, Accepted), rest)
  {
    var shown := [Settle(e)] + rest;
    var asked := [Snapshot(e, true)] + shown;
    var entered := [Enter(e, pane)] + asked;
    steps := [Appear(pane)] + entered;
    EntersAndAsks(pane, e);
    FirstStep(START, Appear(pane), entered);
    FirstStep(Apply(START, Appear(pane)), Enter(e, pane), asked);
    FirstStep(WaitingAt(pane, e, Asking), Snapshot(e, true), shown);
    FirstStep(WaitingAt(pane, e, Answered(Some(true))), Settle(e), rest);
  }

  /** A pane that closes while the adapter is suspended is one: its request is still queued when all is quiet
      and the adapter listens again. */
  lemma {:induction false} SuspendForgets(pane: Pane, e: Execution) returns (steps: seq<Step>)
    ensures var s := After(START, steps);
            Quiet(s) && s.listening && pane !in s.live && pane in s.missed && Holds(s.queue, pane, e)
  {
    var s := WaitingAt(pane, e, Accepted);
    var resumed: seq<Step> := [Listen] + [];
    var closed := [Close(pane)] + resumed;
    steps := LivePaneWaits(pane, e, [Suspend] + closed);
    var s1 := Apply(s, Suspend);
    var s2 := Apply(s1, Close(pane));
    FirstStep(s, Suspend, closed);
    FirstStep(s1, Close(pane), resumed);
    FirstStep(s2, Listen, []);
    assert s.queue == map[pane := [Request(e, pane)]] && Waiting(s.queue, pane)[0].execution == e;
    assert Apply(s2, Listen) == s.(live := {}, gone := {pane}, missed := {pane});
    assert After(Apply(s2, Listen), []) == Apply(s2, Listen);
  }

  // ----- when a request is stuck -----

  predicate IsQueued(s: State, e: Execution) {
    e in s.tracks && s.tracks[e].place.Queued?
  }

  /** A caller of the pane has yet to learn from a snapshot that the pane is gone, or to act on it. */
  predicate MayClaim(t: Track, pane: Pane) {
    t.pane == pane && (t.stage.Asking? || t.stage == Answered(Some(false)))
  }

  /** The request waits for a pane that is gone, and neither an event that is still to be read nor a caller that
      is still under way will take it out of the queue. */
  predicate Forgotten(s: State, e: Execution) {
    && IsQueued(s, e)
    && s.tracks[e].stage != Answered(None)
    && s.tracks[e].pane in s.gone && s.tracks[e].pane !in s.events
    && forall d <- s.tracks :: !MayClaim(s.tracks[d], s.tracks[e].pane)
  }

  /** A step that may wake any waiting request: a loss or shutdown, another event of the pane, a new caller. */
  predicate WakesAnew(step: Step, pane: Pane) {
    step.Lose? || step == Repeat(pane) || (step.Enter? && step.pane == pane)
  }

  predicate LeftAlone(steps: seq<Step>, pane: Pane) {
    forall step <- steps :: !WakesAnew(step, pane)
  }

  lemma {:induction false} SettlingForgets(s: State, d: Execution, e: Execution)
    requires Forgotten(s, e) && d in s.tracks && s.tracks[d].stage.Answered?
    ensures Forgotten(SettleCaller(s, d), e) && SettleCaller(s, d).tracks[e].pane == s.tracks[e].pane
  {
  }

  /** Callers enter for other panes, ask the host, and taken requests are launched. */
  lemma {:induction false} CallersForget(s: State, step: Step, e: Execution)
    requires Forgotten(s, e) && !WakesAnew(step, s.tracks[e].pane)
    requires step.Enter? || step.Snapshot? || step.Launch?
    ensures Forgotten(Apply(s, step), e) && Apply(s, step).tracks[e].pane == s.tracks[e].pane
  {
  }

  lemma {:induction false} HostForgets(s: State, step: Step, e: Execution)
    requires HostInv(s) && Forgotten(s, e) && !WakesAnew(step, s.tracks[e].pane)
    requires !step.Enter? && !step.Snapshot? && !step.Launch? && !step.Settle?
    ensures Forgotten(Apply(s, step), e) && Apply(s, step).tracks[e].pane == s.tracks[e].pane
  {
  }

  lemma {:induction false} StepForgets(s: State, step: Step, e: Execution)
    requires Inv(s) && Forgotten(s, e) && !WakesAnew(step, s.tracks[e].pane)
    ensures Forgotten(Apply(s, step), e) && Apply(s, step).tracks[e].pane == s.tracks[e].pane
  {
    if step.Settle? {
      if step.execution in s.tracks && s.tracks[step.execution].stage.Answered? {
        SettlingForgets(s, step.execution, e);
      }
    } else if step.Enter? || step.Snapshot? || step.Launch? {
      CallersForget(s, step, e);
    } else {
      HostForgets(s, step, e);
    }
  }

  /** A forgotten request stays queued in every run that brings no loss or shutdown, no other event of its pane
      and no new caller for it. */
  lemma {:induction false} ForgottenStays(s: State, steps: seq<Step>, e: Execution)
    requires Inv(s) && Forgotten(s, e) && LeftAlone(steps, s.tracks[e].pane)
    ensures IsQueued(After(s, steps), e) && Forgotten(After(s, steps), e)
    decreases |steps|
  {
    if steps != [] {
      StepForgets(s, steps[0], e);
      ApplyInv(s, steps[0]);
      ForgottenStays(Apply(s, steps[0]), steps[1..], e);
    }
  }

  ghost predicate StaysQueued(s: State, e: Execution)
    requires e in s.tracks
  {
    forall steps: seq<Step> | LeftAlone(steps, s.tracks[e].pane) :: IsQueued(After(s, steps), e)
  }

  /** Takes a run out of the queue one step earlier. */
  lemma {:induction false} Earlier(s: State, step: Step, rest: seq<Step>, e: Execution) returns (steps: seq<Step>)
    requires e in s.tracks && LeftAlone(rest, s.tracks[e].pane) && !WakesAnew(step, s.tracks[e].pane)
    requires !IsQueued(After(Apply(s, step), rest), e)
    ensures LeftAlone(steps, s.tracks[e].pane) && !IsQueued(After(s, steps), e)
  {
    FirstStep(s, step, rest);
    steps := [step] + rest;
  }

  /** Reading the events up to one of the pane takes its requests. */
  lemma {:induction false} EventTakes(s: State, e: Execution) returns (steps: seq<Step>)
    requires Inv(s) && e in s.tracks && s.tracks[e].pane in s.events
    ensures LeftAlone(steps, s.tracks[e].pane) && !IsQueued(After(s, steps), e)
    decreases |s.events|
  {
    var t := Apply(s, Observe);
    var rest: seq<Step> := [];
    if IsQueued(t, e) {
      ApplyInv(s, Observe);
      rest := EventTakes(t, e);
    } else {
      assert After(t, rest) == t;
    }
    steps := Earlier(s, Observe, rest, e);
  }

  /** A caller that knows the pane is gone takes the requests of the pane. */
  lemma {:induction false} CallerTakes(s: State, d: Execution, e: Execution) returns (steps: seq<Step>)
    requires Inv(s) && e in s.tracks && d in s.tracks && s.tracks[e].pane in s.gone
    requires MayClaim(s.tracks[d], s.tracks[e].pane)
    ensures LeftAlone(steps, s.tracks[e].pane) && !IsQueued(After(s, steps), e)
  {
    var asked := if s.tracks[d].stage.Asking? then Apply(s, Snapshot(d, true)) else s;
    var settled := Apply(asked, Settle(d));
    assert After(settled, []) == settled;
    steps := Earlier(asked, Settle(d), [], e);
    if s.tracks[d].stage.Asking? {
      steps := Earlier(s, Snapshot(d, true), steps, e);
    }
  }

  /** The pane of a request is still there: it can close while the adapter listens. */
  lemma {:induction false} ClosingTakes(s: State, e: Execution) returns (steps: seq<Step>)
    requires Inv(s) && e in s.tracks && s.tracks[e].pane in s.live
    ensures LeftAlone(steps, s.tracks[e].pane) && !IsQueued(After(s, steps), e)
  {
    var pane := s.tracks[e].pane;
    var listening := Apply(s, Listen);
    var closed := Apply(listening, Close(pane));
    ApplyInv(s, Listen);
    ApplyInv(listening, Close(pane));
    assert closed.events == s.events + [pane];
    steps := EventTakes(closed, e);
    steps := Earlier(listening, Close(pane), steps, e);
    steps := Earlier(s, Listen, steps, e);
  }

  /** A caller whose snapshot failed takes its own request back. */
  lemma {:induction false} FailedCallerTakes(s: State, e: Execution) returns (steps: seq<Step>)
    requires Inv(s) && IsQueued(s, e) && s.tracks[e].stage == Answered(None)
    ensures LeftAlone(steps, s.tracks[e].pane) && !IsQueued(After(s, steps), e)
  {
    var settled := Apply(s, Settle(e));
    assert After(settled, []) == settled;
    steps := Earlier(s, Settle(e), [], e);
  }

  /** The first caller of a pane that is nowhere to be seen learns so. */
  lemma {:induction false} UnseenTakes(s: State, e: Execution) returns (steps: seq<Step>)
    requires Inv(s) && IsQueued(s, e) && s.tracks[e].stage.Asking? && s.tracks[e].pane !in s.live
    ensures LeftAlone(steps, s.tracks[e].pane) && !IsQueued(After(s, steps), e)
  {
    var asked := Apply(s, Snapshot(e, true));
    ApplyInv(s, Snapshot(e, true));
    steps := CallerTakes(asked, e, e);
    steps := Earlier(s, Snapshot(e, true), steps, e);
  }

  lemma {:induction false} OthersAreWoken(s: State, e: Execution) returns (steps: seq<Step>)
    requires Inv(s) && IsQueued(s, e) && !Forgotten(s, e)
    ensures LeftAlone(steps, s.tracks[e].pane) && !IsQueued(After(s, steps), e)
  {
    var pane := s.tracks[e].pane;
    if s.tracks[e].stage == Answered(None) {
      steps := FailedCallerTakes(s, e);
    } else if pane in s.live {
      steps := ClosingTakes(s, e);
    } else if pane in s.events {
      steps := EventTakes(s, e);
    } else if pane in s.gone {
      var d :| d in s.tracks && MayClaim(s.tracks[d], pane);
      steps := CallerTakes(s, d, e);
    } else {
      steps := UnseenTakes(s, e);
    }
  }

  /** In every state a run can reach, a queued request stays queued in all runs that bring no loss or shutdown,
      no other event of its pane and no new caller for it, if and only if it is forgotten; and then the closing
      of its pane went unread. */
  lemma {:induction false} StuckExactly(before: seq<Step>, e: Execution)
    requires IsQueued(After(START, before), e)
    ensures var s := After(START, before);
            && (StaysQueued(s, e) <==> Forgotten(s, e))
            && (Forgotten(s, e) ==> s.tracks[e].pane in s.missed)
  {
    var s := After(START, before);
    StartInv();
    AfterInv(START, before);
    if Forgotten(s, e) {
      assert !MayClaim(s.tracks[e], s.tracks[e].pane);
      forall steps: seq<Step> | LeftAlone(steps, s.tracks[e].pane)
        ensures IsQueued(After(s, steps), e)
      {
        ForgottenStays(s, steps, e);
      }
    } else {
      var steps := OthersAreWoken(s, e);
      assert !StaysQueued(s, e);
    }
  }

  /** When all is quiet, the forgotten requests are those whose pane is gone. */
  lemma {:induction false} ForgottenWhenQuiet(s: State, e: Execution)
    requires Inv(s) && Quiet(s) && IsQueued(s, e)
    ensures Forgotten(s, e) <==> s.tracks[e].pane !in s.live
  {
  }

  /** What a forgotten request is woken by: another event of its pane, while the adapter listens. */
  lemma {:induction false} AnotherEventWakes(s: State, e: Execution) returns (rest: seq<Step>)
    requires Inv(s) && Forgotten(s, e) && s.listening
    ensures !IsQueued(After(s, [Repeat(s.tracks[e].pane)] + rest), e)
  {
    var step := Repeat(s.tracks[e].pane);
    ApplyInv(s, step);
    rest := EventTakes(Apply(s, step), e);
    FirstStep(s, step, rest);
  }

  /** Or another caller for it, whose snapshot does not show the pane. */
  lemma {:induction false} AnotherCallerWakes(s: State, e: Execution, f: Execution) returns (rest: seq<Step>)
    requires Inv(s) && Forgotten(s, e) && f !in s.tracks
    ensures !IsQueued(After(s, [Enter(f, s.tracks[e].pane)] + rest), e)
  {
    var step := Enter(f, s.tracks[e].pane);
    ApplyInv(s, step);
    rest := CallerTakes(Apply(s, step), f, e);
    FirstStep(s, step, rest);
  }

  lemma {:induction false} SettleLeavesQueueOnly(s: State, caller: Execution, e: Execution)
    requires Inv(s) && e in s.tracks && s.tracks[e].place.Queued?
    requires caller in s.tracks && s.tracks[caller].stage.Answered?
    requires e in SettleCaller(s, caller).tracks && !SettleCaller(s, caller).tracks[e].place.Queued?
    ensures || (s.tracks[caller].stage == Answered(Some(false)) && s.tracks[caller].pane == s.tracks[e].pane)
            || (s.tracks[caller].stage == Answered(None) && caller == e)
  {
  }

  lemma {:induction false} OthersLeaveItQueued(s: State, step: Step, e: Execution)
    requires e in s.tracks && s.tracks[e].place.Queued? && !step.Settle? && !step.Lose?
    requires step.Observe? ==> s.events == [] || s.events[0] != s.tracks[e].pane
    ensures e in Apply(s, step).tracks && Apply(s, step).tracks[e].place.Queued?
  {
  }

  /** What takes a request out of the queue: a loss or shutdown, an event of its pane, a caller's snapshot
      without its pane, or its own caller's failed snapshot. */
  lemma {:induction false} LeavesQueueOnly(s: State, step: Step, e: Execution)
    requires Inv(s) && e in s.tracks && s.tracks[e].place.Queued?
    requires e in Apply(s, step).tracks && !Apply(s, step).tracks[e].place.Queued?
    ensures || step.Lose?
            || (step.Observe? && s.events != [] && s.events[0] == s.tracks[e].pane)
            || (&& step.Settle? && step.execution in s.tracks
                && (|| (&& s.tracks[step.execution].stage == Answered(Some(false))
                        && s.tracks[step.execution].pane == s.tracks[e].pane)
                    || (s.tracks[step.execution].stage == Answered(None) && step.execution == e)))
  {
    if step.Settle? {
      if step.execution in s.tracks && s.tracks[step.execution].stage.Answered? {
        SettleLeavesQueueOnly(s, step.execution, e);
      }
    } else if !step.Lose? && (step.Observe? ==> s.events == [] || s.events[0] != s.tracks[e].pane) {
      OthersLeaveItQueued(s, step, e);
    }
  }

  /** Nothing starts before its UI pane closed, exited or was missing from a snapshot. */
  lemma {:induction false} NoEarlyStart(steps: seq<Step>, e: Execution)
    requires e in After(START, steps).started
    ensures var s := After(START, steps);
            e in s.tracks && s.tracks[e].pane in s.gone && s.tracks[e].pane !in s.live
  {
    StartInv();
    AfterInv(START, steps);
    assert CountedOnce(After(START, steps), e);
  }

  function Rank(place: Place): nat {
    match place
    case Queued => 0
    case Taken => 1
    case _ => 2
  }

  predicate MovesOn(before: Track, after: Track) {
    && after.pane == before.pane
    && Rank(before.place) <= Rank(after.place)
    && (Rank(before.place) == 2 ==> after.place == before.place)
  }

  lemma {:induction false} SettleMovesOn(s: State, caller: Execution, e: Execution)
    requires QueueInv(s.queue, s.tracks) && e in s.tracks && caller in s.tracks && s.tracks[caller].stage.Answered?
    ensures e in SettleCaller(s, caller).tracks && MovesOn(s.tracks[e], SettleCaller(s, caller).tracks[e])
  {
    if Holds(s.queue, s.tracks[caller].pane, caller) {
      HeldIsQueued(s.queue, s.tracks, s.tracks[caller].pane, caller);
    }
  }

  lemma {:induction false} PlaceMovesOn(s: State, step: Step, e: Execution)
    requires QueueInv(s.queue, s.tracks) && e in s.tracks
    ensures e in Apply(s, step).tracks && MovesOn(s.tracks[e], Apply(s, step).tracks[e])
  {
    if step.Settle? {
      if step.execution in s.tracks && s.tracks[step.execution].stage.Answered? {
        SettleMovesOn(s, step.execution, e);
      }
    }
  }

  /** A request only ever moves on, and once it has started, failed or been retracted it stays so. */
  lemma {:induction false} PlacesMoveOn(s: State, steps: seq<Step>, e: Execution)
    requires Inv(s) && e in s.tracks
    ensures e in After(s, steps).tracks && MovesOn(s.tracks[e], After(s, steps).tracks[e])
    decreases |steps|
  {
    if steps != [] {
      PlaceMovesOn(s, steps[0], e);
      ApplyInv(s, steps[0]);
      PlacesMoveOn(Apply(s, steps[0]), steps[1..], e);
    }
  }

  /** A caller that was refused has no host request and no terminal, now or later. Every other request
      has at most one of the two in all, and exactly one once it has left the queue and been handled. */
  lemma {:induction false} ExactlyOneOutcome(s: State, steps: seq<Step>, e: Execution)
    requires Inv(s) && e in s.tracks
    ensures var t := After(s, steps);
            && e in t.tracks
            && (s.tracks[e].stage.Refused? ==> t.started[e] + t.failed[e] == 0)
            && t.started[e] + t.failed[e] == (if t.tracks[e].place.Started? || t.tracks[e].place.Failed? then 1 else 0)
            && s.started[e] <= t.started[e] && s.failed[e] <= t.failed[e]
  {
    AfterInv(s, steps);
    PlacesMoveOn(s, steps, e);
    assert CountedOnce(s, e) && CountedOnce(After(s, steps), e);
  }

  // ----- what becomes of a request that was taken -----

  predicate IsTaken(s: State, e: Execution) {
    e in s.tracks && s.tracks[e].place.Taken?
  }

  /** A taken request is launched: its host request is sent, or it fails with a terminal; nothing else moves. */
  lemma {:induction false} LaunchExactly(s: State, e: Execution, ok: bool)
    requires Inv(s) && IsTaken(s, e)
    ensures var t := Apply(s, Launch(e, ok));
            && t == s.(tracks := t.tracks, started := t.started, failed := t.failed)
            && t.tracks == s.tracks[e := s.tracks[e].(place := if ok then Started else Failed)]
            && t.started[e] == (if ok then 1 else 0) && t.failed[e] == (if ok then 0 else 1)
            && forall x | x != e :: t.started[x] == s.started[x] && t.failed[x] == s.failed[x]
  {
    assert CountedOnce(s, e);
  }

  /** A request that waits for a pane is taken by the event of its closing, and then launched. */
  lemma {:induction false} ClosingStarts(s: State, e: Execution, ok: bool)
    requires Inv(s) && IsQueued(s, e) && s.tracks[e].pane in s.live && s.listening && s.events == []
    ensures var t := Apply(Apply(Apply(s, Close(s.tracks[e].pane)), Observe), Launch(e, ok));
            t.tracks[e].place == (if ok then Started else Failed) && s.tracks[e].pane !in t.queue
            && t.started[e] == (if ok then 1 else 0) && t.failed[e] == (if ok then 0 else 1)
  {
    var pane := s.tracks[e].pane;
    var closed := Apply(s, Close(pane));
    ApplyInv(s, Close(pane));
    assert closed.events == [pane];
    ApplyInv(closed, Observe);
    LaunchExactly(Apply(closed, Observe), e, ok);
  }

  /** A caller whose snapshot fails takes back its own request, unless it was taken already, and is refused then;
      every other request stays where it is. */
  lemma {:induction false} FailedSnapshotExactly(s: State, e: Execution)
    requires Inv(s) && e in s.tracks && s.tracks[e].stage == Answered(None)
    ensures var t := Apply(s, Settle(e));
            && t.tracks[e] == (if IsQueued(s, e) then s.tracks[e].(stage := Refused, place := Retracted)
                               else s.tracks[e].(stage := Accepted))
            && t.tracks.Keys == s.tracks.Keys
            && (forall x <- s.tracks | x != e :: t.tracks[x] == s.tracks[x])
            && t.started == s.started && t.failed == s.failed
  {
  }

  /** A caller that is shown its pane leaves its request queued; one that is not takes all requests of the pane. */
  lemma {:induction false} SnapshotDecides(s: State, e: Execution)
    requires Inv(s) && e in s.tracks && s.tracks[e].stage.Asking?
    ensures var t, pane := Apply(Apply(s, Snapshot(e, true)), Settle(e)), s.tracks[e].pane;
            && e in t.tracks && t.tracks[e].stage.Accepted?
            && (pane in s.live ==> t.queue == s.queue && t.tracks[e].place == s.tracks[e].place)
            && (pane !in s.live ==>
                  && pane in t.gone && t.queue == s.queue - {pane}
                  && forall x <- s.tracks | s.tracks[x].pane == pane && s.tracks[x].place.Queued? ::
                       x in t.tracks && t.tracks[x].place.Taken?)
  {
  }

  // ----- what was missed, and the order of the queue -----

  /** A pane's closing counts as missed only if the pane closed while nobody listened, or its event was dropped
      unread with the stream. */
  lemma {:induction false} MissedExactly(s: State, step: Step, pane: Pane)
    ensures pane in Apply(s, step).missed <==>
              || pane in s.missed
              || (step == Close(pane) && pane in s.live && !s.listening)
              || ((step.Suspend? || step.Lose?) && pane in s.events)
  {
  }

  /** Nothing is heard while nobody listens. */
  lemma {:induction false} DeafHearsNothing(s: State, steps: seq<Step>)
    requires s.listening || s.events == []
    ensures After(s, steps).listening || After(s, steps).events == []
    decreases |steps|
  {
    if steps != [] {
      DeafHearsNothing(Apply(s, steps[0]), steps[1..]);
    }
  }

  lemma {:induction false} PositionIs(rs: seq<Request>, i: nat)
    requires i < |rs| && forall j | 0 <= j < i :: rs[j].execution != rs[i].execution
    ensures Position(rs, rs[i].execution) == i
  {
  }

  /** No execution occurs twice. */
  predicate EachOnce(rs: seq<Request>) {
    forall i, j | 0 <= i < j < |rs| :: rs[i].execution != rs[j].execution
  }

  /** `now` keeps the order of `was`, and what is new in it comes last. */
  predicate KeepsOrder(was: seq<Request>, now: seq<Request>) {
    forall i, j | 0 <= i < j < |now| :: Position(was, now[i].execution) < Position(was, now[j].execution)
  }

  lemma {:induction false} SameOrder(rs: seq<Request>)
    requires EachOnce(rs)
    ensures KeepsOrder(rs, rs)
  {
    forall i | 0 <= i < |rs|
      ensures Position(rs, rs[i].execution) == i
    {
      PositionIs(rs, i);
    }
  }

  lemma {:induction false} PushKeepsOrder(q: Queue, r: Request, pane: Pane)
    requires EachOnce(Waiting(q, pane)) && EachOnce(Waiting(Pushed(q, r), pane))
    ensures KeepsOrder(Waiting(q, pane), Waiting(Pushed(q, r), pane))
  {
    var was, now := Waiting(q, pane), Waiting(Pushed(q, r), pane);
    forall i | 0 <= i < |was|
      ensures Position(was, was[i].execution) == i && now[i] == was[i]
    {
      PositionIs(was, i);
    }
  }

  lemma {:induction false} WithoutOneKeepsOrder(was: seq<Request>, at: nat)
    requires EachOnce(was) && at < |was|
    ensures KeepsOrder(was, was[..at] + was[at + 1..])
  {
    var now := was[..at] + was[at + 1..];
    forall i | 0 <= i < |now|
      ensures Position(was, now[i].execution) == if i < at then i else i + 1
    {
      PositionIs(was, if i < at then i else i + 1);
    }
  }

  lemma {:induction false} OneLessKeepsOrder(was: seq<Request>, at: nat, now: seq<Request>)
    requires EachOnce(was) && (now == was || (at < |was| && now == was[..at] + was[at + 1..]))
    ensures KeepsOrder(was, now)
  {
    if now == was {
      SameOrder(was);
    } else {
      WithoutOneKeepsOrder(was, at);
    }
  }

  lemma {:induction false} WaitingAfterReclaim(q: Queue, from: Pane, e: Execution, pane: Pane)
    ensures var was := Waiting(q, pane);
            var at := Position(was, e);
            Waiting(Reclaimed(q, from, e), pane)
            == if pane == from && at < |was| then was[..at] + was[at + 1..] else was
  {
  }

  lemma {:induction false} ReclaimKeepsOrder(q: Queue, from: Pane, e: Execution, pane: Pane)
    requires EachOnce(Waiting(q, pane))
    ensures KeepsOrder(Waiting(q, pane), Waiting(Reclaimed(q, from, e), pane))
  {
    WaitingAfterReclaim(q, from, e, pane);
    OneLessKeepsOrder(Waiting(q, pane), Position(Waiting(q, pane), e), Waiting(Reclaimed(q, from, e), pane));
  }

  lemma {:induction false} ListsAreDistinct(s: State, pane: Pane)
    requires Inv(s)
    ensures EachOnce(Waiting(s.queue, pane))
  {
    if pane in s.queue {
      assert ListInv(s.queue[pane], pane, s.tracks);
    }
  }

  /** What changes the queue: a new request, a claim of a pane, one request taken back, or a loss. */
  lemma {:induction false} QueueChanges(s: State, step: Step)
    ensures var q, t := s.queue, Apply(s, step).queue;
            || t == q || t == map[]
            || (step.Enter? && step.execution !in s.tracks && t == Pushed(q, Request(step.execution, step.pane)))
            || (exists pane :: t == Claimed(q, pane))
            || (step.Settle? && step.execution in s.tracks
                && t == Reclaimed(q, s.tracks[step.execution].pane, step.execution))
  {
    match step
    case Observe =>
      if s.events != [] {
        assert Apply(s, step).queue == Claimed(s.queue, s.events[0]);
      }
    case Settle(e) =>
      if e in s.tracks && s.tracks[e].stage == Answered(Some(false)) {
        assert Apply(s, step).queue == Claimed(s.queue, s.tracks[e].pane);
      }
    case _ =>
  }

  /** The requests of a pane keep the order in which they came. */
  lemma {:induction false} FirstComeFirstServed(s: State, step: Step, pane: Pane)
    requires Inv(s)
    ensures KeepsOrder(Waiting(s.queue, pane), Waiting(Apply(s, step).queue, pane))
  {
    var q, t := s.queue, Apply(s, step).queue;
    ListsAreDistinct(s, pane);
    SameOrder(Waiting(q, pane));
    QueueChanges(s, step);
    if step.Enter? && step.execution !in s.tracks {
      ApplyInv(s, step);
      ListsAreDistinct(Apply(s, step), pane);
      PushKeepsOrder(q, Request(step.execution, step.pane), pane);
    } else if step.Settle? && step.execution in s.tracks
        && t == Reclaimed(q, s.tracks[step.execution].pane, step.execution) {
      ReclaimKeepsOrder(q, s.tracks[step.execution].pane, step.execution, pane);
    }
  }
}
