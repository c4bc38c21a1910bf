/** The registry of accepted host dispatches: admission, terminals, the health consumer that removes
finished tasks, and any number of overlapping shutdown calls that join what is left.

The registry lock makes each step atomic. Execution IDs are fresh per request: an ID that was admitted
or failed before is never offered again. */
module Dispatch {
  import opened Wrappers

  type Execution = nat

  type Call = nat

  datatype Completion = Succeeded | Failed | OutcomeUnknown

  datatype Terminal = Terminal(execution: Execution, completion: Completion)

  /** The health consumer between taking a terminal off the queue and handing it out. */
  datatype Consumer = Idle | Received(terminal: Terminal) | Joined(terminal: Terminal)

  /** `running` holds the spawned tasks that have not sent their terminal, `unjoined` the tasks a
      shutdown call took and has not awaited, `takers` the shutdown calls that have taken.
      `admitted`, `unsent` and `delivered` are history; `unsent` holds the executions that failed
      before any task was admitted for them. */
  datatype State = State(
    closed: bool,
    finalized: bool,
    joining: nat,
    tasks: set<Execution>,
    running: set<Execution>,
    queue: seq<Terminal>,
    consumer: Consumer,
    unjoined: map<Execution, Call>,
    takers: set<Call>,
    admitted: set<Execution>,
    unsent: set<Execution>,
    delivered: seq<Terminal>)

  const START := State(false, false, 0, {}, {}, [], Idle, map[], {}, {}, {}, [])

  datatype Step =
    | Admit(execution: Execution, spawned: bool)
    | FailUnsent(execution: Execution)
    | Finish(execution: Execution, completion: Completion)
    | Receive
    | Unregister
    | Deliver
    | Take(call: Call)
    | Join(execution: Execution)
    | Finalize(call: Call)

  predicate IsFresh(s: State, e: Execution) {
    e !in s.admitted && e !in s.unsent
  }

  /** Admission succeeds unless the registry is closed, already holds the ID, or the task cannot start. */
  predicate Admits(s: State, e: Execution, spawned: bool) {
    !s.closed && e !in s.tasks && spawned
  }

  function Apply(s: State, step: Step): State {
    match step
    case Admit(e, spawned) =>
      if IsFresh(s, e) && Admits(s, e, spawned)
      then s.(tasks := s.tasks + {e}, running := s.running + {e}, admitted := s.admitted + {e})
      else s
    case FailUnsent(e) =>
      if IsFresh(s, e) then s.(unsent := s.unsent + {e}, queue := s.queue + [Terminal(e, Failed)]) else s
    case Finish(e, completion) =>
      if e in s.running then s.(running := s.running - {e}, queue := s.queue + [Terminal(e, completion)]) else s
    case Receive =>
      if s.consumer.Idle? && s.queue != [] then s.(consumer := Received(s.queue[0]), queue := s.queue[1..]) else s
    case Unregister =>
      if s.consumer.Received?
      then s.(consumer := Joined(s.consumer.terminal), tasks := s.tasks - {s.consumer.terminal.execution})
      else s
    case Deliver =>
      if s.consumer.Joined? then s.(consumer := Idle, delivered := s.delivered + [s.consumer.terminal]) else s
    case Take(call) =>
      if call in s.takers then s
      else s.(closed := true, joining := s.joining + |s.tasks|, takers := s.takers + {call},
              unjoined := s.unjoined + map e | e in s.tasks :: call, tasks := {})
    case Join(e) =>
      if e in s.unjoined && e !in s.running
      then s.(unjoined := s.unjoined - {e}, joining := if s.joining > 0 then s.joining - 1 else 0)
      else s
    case Finalize(call) =>
      if call in s.takers && call !in s.unjoined.Values then s.(finalized := true) else s
  }

  function After(s: State, steps: seq<Step>): State
    decreases |steps|
  {
    if steps == [] then s else After(Apply(s, steps[0]), steps[1..])
  }

  predicate FullyDrained(s: State) {
    s.closed && s.finalized && s.tasks == {} && s.joining == 0
  }

  /** Every terminal that was ever sent, in the order it was sent: delivered, in hand, still queued. */
  function Sent(s: State): seq<Terminal> {
    s.delivered + (if s.consumer.Idle? then [] else [s.consumer.terminal]) + s.queue
  }

  function Executions(ts: seq<Terminal>): (r: seq<Execution>)
    ensures |r| == |ts|
    ensures forall i :: 0 <= i < |ts| ==> r[i] == ts[i].execution
  {
    seq(|ts|, i requires 0 <= i < |ts| => ts[i].execution)
  }

  /** The books balance: exactly the executions that are no longer running have sent a terminal, each
      of them one; the join counter counts the taken tasks; every running task is registered or taken. */
  predicate Inv(s: State) {
    Books(s) && OnceEach(Executions(Sent(s)), (s.admitted - s.running) + s.unsent)
  }

  predicate Books(s: State) {
    && s.running <= s.admitted && s.admitted !! s.unsent
    && s.tasks <= s.admitted && s.unjoined.Keys <= s.admitted
    && s.running <= s.tasks + s.unjoined.Keys
    && s.tasks !! s.unjoined.Keys
    && s.joining == |s.unjoined|
    && (s.closed <==> s.takers != {})
    && (s.finalized ==> s.closed)
  }

  lemma {:induction false} StartInv()
    ensures Inv(START)
  {
  }

  /** Every member of `who` occurs once, and nothing else occurs. */
  predicate OnceEach(ids: seq<Execution>, who: set<Execution>) {
    multiset(ids) == multiset(who)
  }

  lemma {:induction false} OneTerminalMore(ts: seq<Terminal>, t: Terminal, who: set<Execution>)
    requires OnceEach(Executions(ts), who) && t.execution !in who
    ensures OnceEach(Executions(ts + [t]), who + {t.execution})
  {
    assert Executions(ts + [t]) == Executions(ts) + [t.execution];
  }

  lemma {:induction false} TakenTasks(tasks: set<Execution>, unjoined: map<Execution, Call>, call: Call)
    requires tasks !! unjoined.Keys
    ensures var taken := unjoined + map e | e in tasks :: call;
            taken.Keys == unjoined.Keys + tasks && |taken| == |unjoined| + |tasks|
  {
    var taken := unjoined + map e | e in tasks :: call;
    assert taken.Keys == unjoined.Keys + tasks;
    assert |taken| == |taken.Keys| && |unjoined| == |unjoined.Keys|;
  }

  /** The terminal in the consumer's hand belongs to a task that runs no more. */
  lemma {:induction false} InHandHasFinished(s: State)
    requires Inv(s) && !s.consumer.Idle?
    ensures s.consumer.terminal.execution !in s.running
  {
    var sent := Executions(Sent(s));
    assert sent[|s.delivered|] == s.consumer.terminal.execution;
    assert s.consumer.terminal.execution in multiset(sent);
  }

  lemma {:induction false} AdmitInv(s: State, e: Execution, spawned: bool)
    requires Inv(s)
    ensures Inv(Apply(s, Admit(e, spawned))) && Sent(Apply(s, Admit(e, spawned))) == Sent(s)
  {
    var s' := Apply(s, Admit(e, spawned));
    assert s'.admitted - s'.running == s.admitted - s.running;
    assert Sent(s') == Sent(s);
  }

  lemma {:induction false} FailUnsentInv(s: State, e: Execution)
    requires Inv(s) && IsFresh(s, e)
    ensures var s' := Apply(s, FailUnsent(e)); Inv(s') && Sent(s') == Sent(s) + [Terminal(e, Failed)]
  {
    var s' := Apply(s, FailUnsent(e));
    OneTerminalMore(Sent(s), Terminal(e, Failed), (s.admitted - s.running) + s.unsent);
    assert Sent(s') == Sent(s) + [Terminal(e, Failed)];
    assert (s'.admitted - s'.running) + s'.unsent == ((s.admitted - s.running) + s.unsent) + {e};
  }

  lemma {:induction false} FinishInv(s: State, e: Execution, completion: Completion)
    requires Inv(s) && e in s.running
    ensures var s' := Apply(s, Finish(e, completion)); Inv(s') && Sent(s') == Sent(s) + [Terminal(e, completion)]
  {
    var s' := Apply(s, Finish(e, completion));
    OneTerminalMore(Sent(s), Terminal(e, completion), (s.admitted - s.running) + s.unsent);
    assert Sent(s') == Sent(s) + [Terminal(e, completion)];
    assert (s'.admitted - s'.running) + s'.unsent == ((s.admitted - s.running) + s.unsent) + {e};
  }

  lemma {:induction false} ReceiveInv(s: State)
    requires Inv(s)
    ensures Inv(Apply(s, Receive)) && Sent(Apply(s, Receive)) == Sent(s)
  {
    assert Sent(Apply(s, Receive)) == Sent(s);
  }

  lemma {:induction false} UnregisterInv(s: State)
    requires Inv(s)
    ensures Inv(Apply(s, Unregister)) && Sent(Apply(s, Unregister)) == Sent(s)
  {
    if s.consumer.Received? {
      InHandHasFinished(s);
    }
  }

  lemma {:induction false} DeliverInv(s: State)
    requires Inv(s)
    ensures Inv(Apply(s, Deliver)) && Sent(Apply(s, Deliver)) == Sent(s)
  {
    assert Sent(Apply(s, Deliver)) == Sent(s);
  }

  lemma {:induction false} TakeInv(s: State, call: Call)
    requires Inv(s)
    ensures Inv(Apply(s, Take(call))) && Sent(Apply(s, Take(call))) == Sent(s)
  {
    TakenTasks(s.tasks, s.unjoined, call);
  }

  lemma {:induction false} JoinedTask(unjoined: map<Execution, Call>, e: Execution)
    requires e in unjoined
    ensures (unjoined - {e}).Keys == unjoined.Keys - {e} && |unjoined - {e}| == |unjoined| - 1
  {
    var left := unjoined - {e};
    assert left.Keys == unjoined.Keys - {e};
    assert |left| == |left.Keys| && |unjoined| == |unjoined.Keys|;
  }

  lemma {:induction false} JoinInv(s: State, e: Execution)
    requires Inv(s)
    ensures Inv(Apply(s, Join(e))) && Sent(Apply(s, Join(e))) == Sent(s)
  {
    if e in s.unjoined && e !in s.running {
      JoinedTask(s.unjoined, e);
    }
  }

  lemma {:induction false} ApplyInv(s: State, step: Step)
    requires Inv(s)
    ensures Inv(Apply(s, step))
    ensures Sent(s) <= Sent(Apply(s, step))
  {
    match step
    case Admit(e, spawned) => AdmitInv(s, e, spawned);
    case FailUnsent(e) =>
      if IsFresh(s, e) {
        FailUnsentInv(s, e);
      }
    case Finish(e, completion) =>
      if e in s.running {
        FinishInv(s, e, completion);
      }
    case Receive => ReceiveInv(s);
    case Unregister => UnregisterInv(s);
    case Deliver => DeliverInv(s);
    case Take(call) => TakeInv(s, call);
    case Join(e) => JoinInv(s, e);
    case Finalize(_) =>
  }

  lemma {:induction false} AfterInv(s: State, steps: seq<Step>)
    requires Inv(s)
    ensures Inv(After(s, steps))
    ensures Sent(s) <= Sent(After(s, steps))
    decreases |steps|
  {
    if steps != [] {
      ApplyInv(s, steps[0]);
      AfterInv(Apply(s, steps[0]), steps[1..]);
    }
  }

  lemma {:induction false} CountedOnce(ids: seq<Execution>, who: set<Execution>, e: Execution)
    requires OnceEach(ids, who)
    ensures multiset(ids)[e] == if e in who then 1 else 0
    ensures e in ids <==> e in who
  {
    assert e in ids <==> e in multiset(ids);
  }

  /** Every admitted execution is in exactly one place: it runs and has sent nothing, or it has sent
      exactly one terminal, which is queued, in hand or delivered. */
  lemma {:induction false} OnePlace(s: State, e: Execution)
    requires Inv(s) && e in s.admitted
    ensures e in s.running <==> e !in Executions(Sent(s))
    ensures e !in s.running ==> multiset(Executions(Sent(s)))[e] == 1
    ensures multiset(Executions(s.delivered))[e] <= 1
  {
    CountedOnce(Executions(Sent(s)), (s.admitted - s.running) + s.unsent, e);
    var rest := Sent(s)[|s.delivered|..];
    assert Executions(Sent(s)) == Executions(s.delivered) + Executions(rest);
  }

  /** Reporting "drained" means that every admitted execution has sent its single terminal. */
  lemma {:induction false} DrainedMeansSent(s: State)
    requires Inv(s) && FullyDrained(s)
    ensures s.running == {} && s.unjoined == map[]
    ensures forall e <- s.admitted :: multiset(Executions(Sent(s)))[e] == 1
  {
    assert s.unjoined.Keys == {} by {
      assert |s.unjoined| == |s.unjoined.Keys|;
    }
    forall e <- s.admitted
      ensures multiset(Executions(Sent(s)))[e] == 1
    {
      OnePlace(s, e);
    }
  }

  lemma {:induction false} DrainedOneStep(s: State, step: Step)
    requires Inv(s) && FullyDrained(s)
    ensures FullyDrained(Apply(s, step)) && Apply(s, step).admitted == s.admitted
  {
    assert |s.unjoined| == |s.unjoined.Keys|;
  }

  /** Once drained, always drained: no execution is admitted any more. */
  lemma {:induction false} DrainedIsFinal(s: State, steps: seq<Step>)
    requires Inv(s) && FullyDrained(s)
    ensures FullyDrained(After(s, steps)) && After(s, steps).admitted == s.admitted
    decreases |steps|
  {
    if steps != [] {
      DrainedOneStep(s, steps[0]);
      ApplyInv(s, steps[0]);
      DrainedIsFinal(Apply(s, steps[0]), steps[1..]);
    }
  }

  /** The counter never runs ahead of the tasks or behind them, however many shutdown calls overlap. */
  lemma {:induction false} JoiningCountsTaken(steps: seq<Step>)
    ensures var s := After(START, steps);
            s.joining == |s.unjoined| && s.running <= s.tasks + s.unjoined.Keys
  {
    StartInv();
    AfterInv(START, steps);
  }

  // ----- when it is drained -----

  lemma {:induction false} OneMore(s: State, steps: seq<Step>, step: Step)
    ensures After(s, steps + [step]) == Apply(After(s, steps), step)
    decreases |steps|
  {
    if steps == [] {
      assert [] + [step] == [step] && After(Apply(s, step), []) == Apply(s, step);
    } else {
      assert (steps + [step])[1..] == steps[1..] + [step];
      OneMore(Apply(s, steps[0]), steps[1..], step);
    }
  }

  lemma {:induction false} TakersOneMore(steps: seq<Step>, step: Step)
    ensures After(START, steps + [step]).takers
         == After(START, steps).takers + if step.Take? then {step.call} else {}
  {
    OneMore(START, steps, step);
  }

  /** The shutdown calls that have taken are those whose step was taken. */
  lemma {:induction false} TakersExactly(steps: seq<Step>, call: Call)
    ensures call in After(START, steps).takers <==> Take(call) in steps
    decreases |steps|
  {
    if steps != [] {
      var front, last := steps[..|steps| - 1], steps[|steps| - 1];
      assert steps == front + [last];
      TakersExactly(front, call);
      TakersOneMore(front, last);
    }
  }

  lemma {:induction false} FinalizedOneMore(steps: seq<Step>, step: Step)
    ensures var s := After(START, steps);
            After(START, steps + [step]).finalized
            <==> s.finalized || (step.Finalize? && step.call in s.takers && step.call !in s.unjoined.Values)
  {
    OneMore(START, steps, step);
  }

  /** Some shutdown call took, and later, with all it took joined, finalized. */
  predicate ShutdownFinished(steps: seq<Step>) {
    exists j :: 0 <= j < |steps| && FinishedAt(steps, j)
  }

  predicate FinishedAt(steps: seq<Step>, j: nat)
    requires j < |steps|
  {
    && steps[j].Finalize? && Take(steps[j].call) in steps[..j]
    && steps[j].call !in After(START, steps[..j]).unjoined.Values
  }

  lemma {:induction false} FinishedLater(front: seq<Step>, last: Step)
    ensures ShutdownFinished(front + [last]) <==> ShutdownFinished(front) || FinishedAt(front + [last], |front|)
  {
    var steps := front + [last];
    forall j | 0 <= j < |front|
      ensures FinishedAt(steps, j) <==> FinishedAt(front, j)
    {
      assert steps[..j] == front[..j] && steps[j] == front[j];
    }
    if ShutdownFinished(front) {
      var j :| 0 <= j < |front| && FinishedAt(front, j);
      assert FinishedAt(steps, j);
    }
  }

  lemma {:induction false} FinalizedExactly(steps: seq<Step>)
    ensures After(START, steps).finalized <==> ShutdownFinished(steps)
    decreases |steps|
  {
    if steps != [] {
      var front, last := steps[..|steps| - 1], steps[|steps| - 1];
      assert steps == front + [last] && steps[..|front|] == front;
      FinalizedExactly(front);
      FinalizedOneMore(front, last);
      FinishedLater(front, last);
      if last.Finalize? {
        TakersExactly(front, last.call);
      }
    }
  }

  /** The adapter reports that it is drained exactly when some shutdown call has taken and later finalized,
      every task that any call took has been joined, and nothing is registered. */
  lemma {:induction false} DrainedExactly(steps: seq<Step>)
    ensures var s := After(START, steps);
            FullyDrained(s) <==> ShutdownFinished(steps) && s.unjoined == map[] && s.tasks == {}
  {
    var s := After(START, steps);
    StartInv();
    AfterInv(START, steps);
    FinalizedExactly(steps);
    assert |s.unjoined| == 0 <==> s.unjoined == map[];
  }

  // ----- what becomes of a task -----

  /** Where an execution is: it never came, its task runs and is registered or was taken by a shutdown call, or
      it has sent, and its task is still registered, was taken and is not joined, or is gone. */
  datatype Whereabouts = Unknown | Registered(running: bool) | Taken(call: Call, running: bool) | Gone | Unstarted

  function WhereIs(s: State, e: Execution): Whereabouts {
    if e in s.unsent then Unstarted
    else if e !in s.admitted then Unknown
    else if e in s.tasks then Registered(e in s.running)
    else if e in s.unjoined then Taken(s.unjoined[e], e in s.running)
    else Gone
  }

  /** The terminal in hand, before its task is removed. */
  predicate InHand(s: State, e: Execution) {
    s.consumer.Received? && s.consumer.terminal.execution == e
  }

  /** What each step does to one execution; no other step touches it. */
  function MovedBy(s: State, step: Step, e: Execution): Whereabouts {
    var was := WhereIs(s, e);
    match step
    case Admit(x, spawned) => if x == e && was.Unknown? && spawned && s.takers == {} then Registered(true) else was
    case FailUnsent(x) => if x == e && was.Unknown? then Unstarted else was
    case Finish(x, _) =>
      if x == e && was == Registered(true) then Registered(false)
      else if x == e && was.Taken? then Taken(was.call, false) else was
    case Unregister => if InHand(s, e) && was.Registered? then Gone else was
    case Take(call) => if was.Registered? && call !in s.takers then Taken(call, was.running) else was
    case Join(x) => if x == e && was.Taken? && !was.running then Gone else was
    case _ => was
  }

  /** What the books say of one execution. */
  predicate Placed(s: State, e: Execution) {
    && (e in s.running ==> e in s.admitted && (e in s.tasks || e in s.unjoined))
    && (e in s.tasks ==> e in s.admitted && e !in s.unjoined)
    && (e in s.unjoined ==> e in s.admitted)
    && !(e in s.admitted && e in s.unsent)
  }

  lemma {:induction false} AdmitMoves(s: State, x: Execution, spawned: bool, e: Execution)
    requires Placed(s, e) && Placed(s, x) && (s.closed <==> s.takers != {})
    ensures WhereIs(Apply(s, Admit(x, spawned)), e) == MovedBy(s, Admit(x, spawned), e)
  {
  }

  lemma {:induction false} TaskMoves(s: State, step: Step, e: Execution)
    requires Placed(s, e) && (step.FailUnsent? || step.Finish?)
    ensures WhereIs(Apply(s, step), e) == MovedBy(s, step, e)
  {
  }

  lemma {:induction false} ConsumerMoves(s: State, step: Step, e: Execution)
    requires Placed(s, e) && (step.Receive? || step.Unregister? || step.Deliver?)
    ensures WhereIs(Apply(s, step), e) == MovedBy(s, step, e)
  {
  }

  lemma {:induction false} TakeMoves(s: State, call: Call, e: Execution)
    requires Placed(s, e)
    ensures WhereIs(Apply(s, Take(call)), e) == MovedBy(s, Take(call), e)
  {
  }

  lemma {:induction false} JoinMoves(s: State, x: Execution, e: Execution)
    requires Placed(s, e)
    ensures WhereIs(Apply(s, Join(x)), e) == MovedBy(s, Join(x), e)
  {
  }

  /** An execution goes from unknown to registered and running, or to unstarted; it runs until it finishes; from
      the registry it is taken by the first shutdown call or removed by the consumer, and a taken one is gone
      when it has been joined. */
  lemma {:induction false} WhereaboutsMove(s: State, step: Step, e: Execution)
    requires Inv(s)
    ensures WhereIs(Apply(s, step), e) == MovedBy(s, step, e)
  {
    assert Placed(s, e);
    if step.Admit? {
      assert Placed(s, step.execution);
      AdmitMoves(s, step.execution, step.spawned, e);
    } else if step.FailUnsent? || step.Finish? {
      TaskMoves(s, step, e);
    } else if step.Take? {
      TakeMoves(s, step.call, e);
    } else if step.Join? {
      JoinMoves(s, step.execution, e);
    } else if !step.Finalize? {
      ConsumerMoves(s, step, e);
    }
  }

  /** The terminal a step sends, if it sends one. */
  function SentBy(s: State, step: Step): seq<Terminal> {
    match step
    case FailUnsent(e) => if WhereIs(s, e).Unknown? then [Terminal(e, Failed)] else []
    case Finish(e, completion) => if e in s.running then [Terminal(e, completion)] else []
    case _ => []
  }

  /** Every step but these two sends nothing, and only the last half of the consumer delivers. */
  lemma {:induction false} TerminalsMove(s: State, step: Step)
    ensures Sent(Apply(s, step)) == Sent(s) + SentBy(s, step)
    ensures Apply(s, step).delivered
            == s.delivered + if step.Deliver? && s.consumer.Joined? then [s.consumer.terminal] else []
  {
    var t := Apply(s, step);
    assert Sent(t) == Sent(s) + SentBy(s, step);
  }

  /** A consumer that keeps going delivers every terminal sent so far, in the order they were sent. */
  function Consume(n: nat): seq<Step> {
    if n == 0 then [] else [Receive, Unregister, Deliver] + Consume(n - 1)
  }

  function Consumed(s: State): State {
    Apply(Apply(Apply(s, Receive), Unregister), Deliver)
  }

  lemma {:induction false} ConsumedOnce(s: State)
    requires s.consumer.Idle? && s.queue != []
    ensures Consumed(s).consumer.Idle? && Consumed(s).queue == s.queue[1..] && Consumed(s).tasks <= s.tasks
    ensures Sent(Consumed(s)) == Sent(s)
  {
    assert Sent(Consumed(s)) == Sent(s);
  }

  lemma {:induction false} ThreeMore(s: State, rest: seq<Step>)
    ensures After(s, [Receive, Unregister, Deliver] + rest) == After(Consumed(s), rest)
  {
    var steps := [Receive, Unregister, Deliver] + rest;
    assert steps[1..] == [Unregister, Deliver] + rest && steps[1..][1..] == [Deliver] + rest;
    assert steps[1..][1..][1..] == rest;
    assert After(Apply(s, Receive), steps[1..]) == After(Apply(Apply(s, Receive), Unregister), steps[1..][1..]);
  }

  lemma {:induction false} AllIsDelivered(s: State)
    requires s.consumer.Idle?
    ensures var t := After(s, Consume(|s.queue|)); t.queue == [] && t.delivered == Sent(s) && t.consumer.Idle?
    decreases |s.queue|
  {
    if s.queue != [] {
      ConsumedOnce(s);
      AllIsDelivered(Consumed(s));
      ThreeMore(s, Consume(|s.queue| - 1));
    }
  }

  // ----- the registry object -----

  class DispatchTasks {
    var closed: bool
    var finalized: bool
    var joining: nat
    var tasks: set<Execution>
    var running: set<Execution>
    var queue: seq<Terminal>
    var consumer: Consumer
    var unjoined: map<Execution, Call>
    var takers: set<Call>
    var admitted: set<Execution>
    var unsent: set<Execution>
    var delivered: seq<Terminal>

    ghost function Now(): State
      reads this
    {
      State(closed, finalized, joining, tasks, running, queue, consumer, unjoined, takers, admitted, unsent, delivered)
    }

    constructor ()
      ensures Now() == START
    {
      closed, finalized, joining, tasks, running := false, false, 0, {}, {};
      queue, consumer, unjoined, takers := [], Idle, map[], {};
      admitted, unsent, delivered := {}, {}, [];
    }

    method AdmitDispatchTask(execution: Execution, spawned: bool) returns (accepted: bool)
      requires IsFresh(Now(), execution)
      modifies this
      ensures accepted == Admits(old(Now()), execution, spawned)
      ensures Now() == Apply(old(Now()), Admit(execution, spawned))
    {
      if closed {
        return false;
      }
      if execution in tasks {
        return false;
      }
      if !spawned {
        return false;
      }
      tasks := tasks + {execution};
      running := running + {execution};
      admitted := admitted + {execution};
      return true;
    }

    method SendUnsentFailure(execution: Execution)
      requires IsFresh(Now(), execution)
      modifies this
      ensures Now() == Apply(old(Now()), FailUnsent(execution))
    {
      unsent := unsent + {execution};
      queue := queue + [Terminal(execution, Failed)];
    }

    method FinishTask(execution: Execution, completion: Completion)
      requires execution in running
      modifies this
      ensures Now() == Apply(old(Now()), Finish(execution, completion))
    {
      running := running - {execution};
      queue := queue + [Terminal(execution, completion)];
    }

    method TryReceive() returns (received: bool)
      requires consumer.Idle?
      modifies this
      ensures received == (old(queue) != [])
      ensures Now() == Apply(old(Now()), Receive)
    {
      if queue == [] {
        return false;
      }
      consumer := Received(queue[0]);
      queue := queue[1..];
      return true;
    }

    /** Removes the finished task; the caller then awaits it, which ends at once: it has sent. */
    method FinishDispatchTerminal() returns (terminal: Terminal)
      requires Inv(Now()) && consumer.Received?
      modifies this
      ensures terminal == old(consumer.terminal) && terminal.execution !in running
      ensures Now() == Apply(Apply(old(Now()), Unregister), Deliver)
    {
      terminal := consumer.terminal;
      InHandHasFinished(Now());
      tasks := tasks - {terminal.execution};
      consumer := Idle;
      delivered := delivered + [terminal];
    }

    method TakeAll(call: Call)
      requires call !in takers
      modifies this
      ensures Now() == Apply(old(Now()), Take(call))
    {
      closed := true;
      joining := joining + |tasks|;
      takers := takers + {call};
      unjoined := unjoined + map e | e in tasks :: call;
      tasks := {};
    }

    method JoinTask(execution: Execution)
      requires execution in unjoined && execution !in running
      modifies this
      ensures Now() == Apply(old(Now()), Join(execution))
    {
      unjoined := unjoined - {execution};
      if joining > 0 {
        joining := joining - 1;
      }
    }

    method FinalizeRegistry(call: Call)
      requires call in takers && call !in unjoined.Values
      modifies this
      ensures Now() == Apply(old(Now()), Finalize(call))
    {
      finalized := true;
    }

    method DispatchesFullyDrained() returns (drained: bool)
      ensures drained == FullyDrained(Now())
    {
      drained := closed && finalized && tasks == {} && joining == 0;
    }

    /** A step of a task or of a caller. */
    method TakeTaskStep(step: Step)
      requires step.Admit? || step.FailUnsent? || step.Finish?
      modifies this
      ensures Now() == Apply(old(Now()), step)
    {
      match step
      case Admit(e, spawned) =>
        if e !in admitted && e !in unsent {
          var _ := AdmitDispatchTask(e, spawned);
        }
      case FailUnsent(e) =>
        if e !in admitted && e !in unsent {
          SendUnsentFailure(e);
        }
      case Finish(e, completion) =>
        if e in running {
          FinishTask(e, completion);
        }
    }

    /** A step of the consumer, whose two halves are steps of their own. */
    method TakeConsumerStep(step: Step)
      requires step.Receive? || step.Unregister? || step.Deliver?
      modifies this
      ensures Now() == Apply(old(Now()), step)
    {
      match step
      case Receive =>
        if consumer.Idle? {
          var _ := TryReceive();
        }
      case Unregister =>
        if consumer.Received? {
          tasks := tasks - {consumer.terminal.execution};
          consumer := Joined(consumer.terminal);
        }
      case Deliver =>
        if consumer.Joined? {
          delivered := delivered + [consumer.terminal];
          consumer := Idle;
        }
    }

    method TakeStep(step: Step)
      modifies this
      ensures Now() == Apply(old(Now()), step)
    {
      match step
      case Take(call) =>
        if call !in takers {
          TakeAll(call);
        }
      case Join(e) =>
        if e in unjoined && e !in running {
          JoinTask(e);
        }
      case Finalize(call) =>
        if call in takers && call !in unjoined.Values {
          FinalizeRegistry(call);
        }
      case Admit(_, _) => TakeTaskStep(step);
      case FailUnsent(_) => TakeTaskStep(step);
      case Finish(_, _) => TakeTaskStep(step);
      case _ => TakeConsumerStep(step);
    }

    method Execute(schedule: seq<Step>)
      requires Inv(Now())
      modifies this
      ensures Now() == After(old(Now()), schedule) && Inv(Now())
    {
      ghost var start := Now();
      AfterInv(start, schedule);
      var i := 0;
      while i < |schedule|
        invariant 0 <= i <= |schedule|
        invariant After(Now(), schedule[i..]) == After(start, schedule)
      {
        assert schedule[i..][0] == schedule[i] && schedule[i..][1..] == schedule[i + 1..];
        TakeStep(schedule[i]);
        i := i + 1;
      }
    }

    /** A new registry, any schedule, and then the question whether it is drained: it is exactly when some
        shutdown call has taken and later finalized, all taken tasks are joined and nothing is registered; then
        every admitted execution has sent its one terminal. */
    static method RunAndAsk(schedule: seq<Step>) returns (registry: DispatchTasks, drained: bool)
      ensures fresh(registry) && registry.Now() == After(START, schedule) && Inv(registry.Now())
      ensures drained <==> ShutdownFinished(schedule) && registry.unjoined == map[] && registry.tasks == {}
      ensures drained ==>
                && registry.running == {}
                && forall e <- registry.admitted :: multiset(Executions(Sent(registry.Now())))[e] == 1
    {
      registry := new DispatchTasks();
      StartInv();
      registry.Execute(schedule);
      drained := registry.DispatchesFullyDrained();
      DrainedExactly(schedule);
      if drained {
        DrainedMeansSent(registry.Now());
      }
    }
  }
}
