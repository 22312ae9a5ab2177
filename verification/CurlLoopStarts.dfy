/** Every request of the curl async loop that its client does not give up can be started.

    A request that waits comes nearer to its token with each step of its loop, or its easy comes back when that loop is
    over. Refused, it renews the manager, chooses and submits again; a loop that has just been started takes it in at
    once. */
module CurlLoopStarts {
  import opened Bytes
  import opened CurlLoop
  import opened CurlLoopSafety
  import opened CurlLoopThread

  /** A run in which the request is not given up. */
  ghost predicate Leads(s: Sys, t: Sys, r: nat) {
    exists events :: Run(s, events, t) && Client(r, Abandon) !in events
  }

  lemma LeadsNowhere(s: Sys, r: nat)
    ensures Leads(s, s, r)
  {
    assert Run(s, [], s);
  }

  lemma LeadsStep(s: Sys, e: Event, t: Sys, r: nat)
    requires Enabled(s, e) && e != Client(r, Abandon) && Leads(Apply(s, e), t, r)
    ensures Leads(s, t, r)
  {
    var events :| Run(Apply(s, e), events, t) && Client(r, Abandon) !in events;
    var longer := [e] + events;
    assert longer[1..] == events;
    assert Run(s, longer, t);
  }

  /** The place of the request's `ConstructHandle` in a queue. */
  function Place(tasks: seq<Task>, r: nat): nat {
    if tasks == [] || tasks[0] == Construct(r) then 0 else 1 + Place(tasks[1..], r)
  }

  /** A waiting future without a result has its easy in a queue. */
  predicate Queues(s: Sys, r: nat) {
    r < |s.reqs| && (s.reqs[r].phase.Waiting? && s.reqs[r].result.Init? ==> s.reqs[r].at.Queued?)
  }

  /** How far a loop is from taking in what is queued, or from giving it back. */
  function Rank(loop: Loop): nat {
    match loop.stage
    case Failing(_) => 3
    case Leaving(_) => 2
    case Released => 1
    case Torn => 1
    case _ => 4
  }

  function Rest(loop: Loop, r: nat): nat {
    match loop.stage
    case Failing(todo) => |todo|
    case Leaving(_) => 0
    case Released => loop.grips
    case Torn => loop.grips
    case _ => Place(loop.tasks, r)
  }

  function Turn(loop: Loop): nat {
    if loop.stage.Draining? && loop.taken > 0 then 0
    else if loop.stage.Polling? then 1
    else if loop.stage.Reporting? then 2
    else 3
  }

  /** The request waits, and its easy is in the queue of this loop. */
  predicate InQueue(s: Sys, l: nat, r: nat) {
    && Inv(s) && Queues(s, r) && s.sender.None? && r < |s.reqs| && l < |s.loops|
    && s.reqs[r].phase == Waiting(l) && s.reqs[r].result.Init?
  }

  /** The step has brought a result, or the loop nearer to one. */
  predicate Nearer(s: Sys, t: Sys, l: nat, r: nat) {
    && Inv(t) && Queues(t, r) && t.sender.None? && t.current == s.current
    && r < |t.reqs| && l < |t.loops| && l < |s.loops|
    && t.reqs[r].phase == Waiting(l)
    && (t.reqs[r].result.Init? ==>
          || Rank(t.loops[l]) < Rank(s.loops[l])
          || (Rank(t.loops[l]) == Rank(s.loops[l]) && Rest(t.loops[l], r) < Rest(s.loops[l], r))
          || (Rank(t.loops[l]) == Rank(s.loops[l]) && Rest(t.loops[l], r) == Rest(s.loops[l], r) &&
              Turn(t.loops[l]) < Turn(s.loops[l])))
  }

  lemma QueuedFacts(s: Sys, l: nat, r: nat)
    requires InQueue(s, l, r)
    ensures s.reqs[r].at == Queued(l) && Construct(r) in s.loops[l].tasks && s.reqs[r].handle.NoHandle?
    ensures StageOk(s.loops[l]) && LoopOk(s, l)
  {
    assert ReqOk(s, r) && LoopOk(s, l);
  }

  /** A task that is not the request's own leaves it in the queue, one place further to the front. */
  lemma TaskStep(s: Sys, l: nat, r: nat)
    requires InQueue(s, l, r) && s.loops[l].stage.Draining? && s.loops[l].taken > 0
    ensures var move := Move.Task(Vacant(s.loops[l].slab, 0), true);
      MoveEnabled(s, l, move) && Nearer(s, DoMove(s, l, move), l, r)
  {
    var token := Vacant(s.loops[l].slab, 0);
    QueuedFacts(s, l, r);
    var task := s.loops[l].tasks[0];
    assert TaskOk(s, l, task);
    TaskKeeps(s, l, token, true);
    if !task.Construct? && !task.Shutdown? {
      HeadFindsItsEasy(s, l);
      assert ReqOk(s, task.r);
    }
    hide Inv, LoopOk, StageOk;
    var t := Work(s, l, token, true);
    if task != Construct(r) {
      assert t.reqs[r] == s.reqs[r];
      assert t.loops[l].tasks == s.loops[l].tasks[1..];
    }
  }

  function RoundMove(loop: Loop): Move {
    if loop.stage.Polling? then Swap else if loop.stage.Reporting? then EndRound else Perform(true)
  }

  lemma RoundStep(s: Sys, l: nat, r: nat)
    requires InQueue(s, l, r) && (s.loops[l].stage.Polling? || s.loops[l].stage.Reporting? ||
                                  (s.loops[l].stage.Draining? && s.loops[l].taken == 0))
    ensures var move := RoundMove(s.loops[l]);
      MoveEnabled(s, l, move) && Nearer(s, DoMove(s, l, move), l, r)
  {
    QueuedFacts(s, l, r);
    var move := RoundMove(s.loops[l]);
    MoveKeeps(s, l, move);
    hide Inv, LoopOk;
  }

  lemma FailingStep(s: Sys, l: nat, r: nat) returns (move: Move)
    requires InQueue(s, l, r) && (s.loops[l].stage.Failing? || s.loops[l].stage.Leaving?)
    ensures MoveEnabled(s, l, move) && Nearer(s, DoMove(s, l, move), l, r)
  {
    if s.loops[l].stage.Leaving? {
      move := Release;
      LeavingStep(s, l, r);
    } else if s.loops[l].stage.todo == {} {
      move := Break;
      QueuedFacts(s, l, r);
      MoveKeeps(s, l, move);
      hide Inv, LoopOk;
    } else {
      var token :| token in s.loops[l].stage.todo;
      QueuedFacts(s, l, r);
      assert token in s.loops[l].slab;
      move := FailOne(token);
      FailOneStep(s, l, r, token);
    }
  }

  lemma LeavingStep(s: Sys, l: nat, r: nat)
    requires InQueue(s, l, r) && s.loops[l].stage.Leaving?
    ensures MoveEnabled(s, l, Release) && Nearer(s, DoMove(s, l, Release), l, r)
  {
    ReleasedReturns(s, l, r);
    MoveKeeps(s, l, Release);
    hide Inv, DoMove;
  }

  lemma FailOneStep(s: Sys, l: nat, r: nat, token: nat)
    requires InQueue(s, l, r) && MoveEnabled(s, l, FailOne(token))
    ensures Nearer(s, DoMove(s, l, FailOne(token)), l, r)
  {
    QueuedFacts(s, l, r);
    MoveKeeps(s, l, FailOne(token));
    var t := DoMove(s, l, FailOne(token));
    hide Inv, LoopOk, StageOk;
    assert t.loops[l] == s.loops[l].(stage := Failing(s.loops[l].stage.todo - {token}));
    assert |s.loops[l].stage.todo - {token}| < |s.loops[l].stage.todo|;
  }

  lemma ReleasedReturns(s: Sys, l: nat, r: nat)
    requires InQueue(s, l, r) && s.loops[l].stage.Leaving?
    ensures var t := DoMove(s, l, Release);
      && r < |t.reqs| && t.reqs[r].phase == Waiting(l) && (!t.reqs[r].result.Init? || t.reqs[r] == s.reqs[r])
      && l < |t.loops| && Rank(t.loops[l]) < Rank(s.loops[l]) && t.current == s.current && t.sender == s.sender
  {
    QueuedFacts(s, l, r);
    hide Inv, LoopOk;
  }

  lemma LettingStep(s: Sys, l: nat, r: nat)
    requires InQueue(s, l, r) && (s.loops[l].stage.Released? || s.loops[l].stage.Torn?)
    ensures MoveEnabled(s, l, Let) && Nearer(s, DoMove(s, l, Let), l, r)
  {
    QueuedFacts(s, l, r);
    MoveKeeps(s, l, Let);
    hide Inv, LoopOk;
  }

  /** A request that waits is started, or its easy comes back from a loop that is over. */
  lemma {:induction false} WaitingResolves(s: Sys, l: nat, r: nat) returns (t: Sys)
    requires Inv(s) && Queues(s, r) && s.sender.None? && r < |s.reqs| && s.reqs[r].phase == Waiting(l)
    ensures Leads(s, t, r) && Inv(t) && t.sender.None? && t.current == s.current && r < |t.reqs|
    ensures (t.reqs[r].phase.Started? && t.reqs[r].handle.WithCaller?) || t.reqs[r].phase == Refused(l)
    decreases s.reqs[r].result.Init?, if l < |s.loops| then Rank(s.loops[l]) else 0,
              if l < |s.loops| then Rest(s.loops[l], r) else 0, if l < |s.loops| then Turn(s.loops[l]) else 0
  {
    assert ReqOk(s, r);
    if !s.reqs[r].result.Init? {
      var e := Client(r, Collect);
      t := Apply(s, e);
      StepKeeps(s, e);
      LeadsNowhere(t, r);
      LeadsStep(s, e, t, r);
    } else {
      var loop := s.loops[l];
      var move;
      if loop.stage.Failing? || loop.stage.Leaving? {
        move := FailingStep(s, l, r);
      } else if loop.stage.Released? || loop.stage.Torn? {
        LettingStep(s, l, r);
        move := Let;
      } else if loop.stage.Draining? && loop.taken > 0 {
        TaskStep(s, l, r);
        move := Move.Task(Vacant(loop.slab, 0), true);
      } else {
        RoundStep(s, l, r);
        move := RoundMove(loop);
      }
      var e := Thread(l, move);
      var u := Apply(s, e);
      hide Inv, DoMove, Enabled;
      t := WaitingResolves(u, l, r);
      LeadsStep(s, e, t, r);
    }
  }

  /** Some run in which the request is not given up starts it. */
  ghost predicate CanStart(s: Sys, r: nat) {
    exists t :: Leads(s, t, r) && r < |t.reqs| && t.reqs[r].phase.Started? && t.reqs[r].handle.WithCaller?
  }

  lemma StartStepBack(s: Sys, e: Event, r: nat)
    requires Enabled(s, e) && e != Client(r, Abandon) && CanStart(Apply(s, e), r)
    ensures CanStart(s, r)
  {
    var t :| Leads(Apply(s, e), t, r) && r < |t.reqs| && t.reqs[r].phase.Started? && t.reqs[r].handle.WithCaller?;
    LeadsStep(s, e, t, r);
  }

  lemma StartTrans(s: Sys, t: Sys, r: nat)
    requires Leads(s, t, r) && CanStart(t, r)
    ensures CanStart(s, r)
  {
    var events :| Run(s, events, t) && Client(r, Abandon) !in events;
    StartRunBack(s, events, t, r);
  }

  lemma {:induction false} StartRunBack(s: Sys, events: seq<Event>, t: Sys, r: nat)
    requires Run(s, events, t) && Client(r, Abandon) !in events && CanStart(t, r)
    ensures CanStart(s, r)
    decreases |events|
  {
    if events != [] {
      assert events[0] in events;
      StartRunBack(Apply(s, events[0]), events[1..], t, r);
      StartStepBack(s, events[0], r);
    }
  }

  /** A request that has its easy, before a manager that nobody has locked. */
  predicate Ready(s: Sys, r: nat) {
    Inv(s) && Queues(s, r) && s.sender.None? && r < |s.reqs|
  }

  lemma StepStaysReady(s: Sys, e: Event, r: nat)
    requires Ready(s, r) && Enabled(s, e)
    requires e == Client(r, Choose) || e == Client(r, Submit) || e == Client(r, Renew) || e ==
        Client(r, Collect) || e == Client(r, EndSend)
    ensures Ready(Apply(s, e), r)
  {
    StepKeeps(s, e);
    assert ReqOk(s, r);
    hide Inv;
  }

  /** A loop that has just been started takes the request in at once. */
  lemma FreshLoopStarts(s: Sys, l: nat, r: nat)
    requires Ready(s, r) && l < |s.loops| && s.loops[l] == NEW_LOOP && s.reqs[r].phase == Chosen(l)
    ensures CanStart(s, r)
  {
    var submit := Client(r, Submit);
    var s1 := Apply(s, submit);
    StepStaysReady(s, submit, r);
    assert s1.loops[l].tasks == [Construct(r)];
    var swap := Thread(l, Swap);
    var s2 := Apply(s1, swap);
    var work := Thread(l, Move.Task(0, true));
    assert MoveEnabled(s2, l, Move.Task(0, true));
    var s3 := Apply(s2, work);
    assert s3.reqs[r].result == InProgress(0);
    var collect := Client(r, Collect);
    var s4 := Apply(s3, collect);
    LeadsNowhere(s4, r);
    assert CanStart(s4, r);
    hide CanStart, Inv;
    StartStepBack(s3, collect, r);
    StartStepBack(s2, work, r);
    StartStepBack(s1, swap, r);
    StartStepBack(s, submit, r);
  }

  /** Refused by the loop that the manager still hands out: a new one is started. */
  lemma RefusedByTheCurrent(s: Sys, l: nat, r: nat)
    requires Ready(s, r) && s.reqs[r].phase == Refused(l) && (s.current == Some(l) || s.current.None?)
    ensures CanStart(s, r)
  {
    var renew, choose := Client(r, Renew), Client(r, Choose);
    var t := Apply(s, renew);
    StepStaysReady(s, renew, r);
    var u := Apply(t, choose);
    StepStaysReady(t, choose, r);
    var n := u.reqs[r].phase.l;
    assert n < |u.loops| && u.loops[n] == NEW_LOOP;
    FreshLoopStarts(u, n, r);
    hide CanStart, Ready;
    StartStepBack(t, choose, r);
    StartStepBack(s, renew, r);
  }

  lemma WaitingInTheCurrent(s: Sys, l: nat, r: nat)
    requires Ready(s, r) && s.reqs[r].phase == Waiting(l) && s.current == Some(l)
    ensures CanStart(s, r)
  {
    var t := WaitingResolves(s, l, r);
    ResolvedCanStart(s, t, l, r);
  }

  lemma ResolvedCanStart(s: Sys, t: Sys, l: nat, r: nat)
    requires Leads(s, t, r) && Ready(t, r) && (t.current == Some(l) || t.current.None?)
    requires t.reqs[r].phase == Refused(l) || (t.reqs[r].phase.Started? && t.reqs[r].handle.WithCaller?)
    ensures CanStart(s, r)
  {
    if t.reqs[r].phase == Refused(l) {
      RefusedByTheCurrent(t, l, r);
    } else {
      LeadsNowhere(t, r);
    }
    StartTrans(s, t, r);
  }

  lemma ChosenCanStart(s: Sys, l: nat, r: nat)
    requires Ready(s, r) && s.reqs[r].phase == Chosen(l) && s.current == Some(l)
    ensures CanStart(s, r)
  {
    var e := Client(r, Submit);
    var t := Apply(s, e);
    StepStaysReady(s, e, r);
    if t.reqs[r].phase == Waiting(l) {
      WaitingInTheCurrent(t, l, r);
    } else {
      RefusedByTheCurrent(t, l, r);
    }
    StartStepBack(s, e, r);
  }

  lemma HoldingCanStart(s: Sys, r: nat)
    requires Ready(s, r) && s.reqs[r].phase.Holding?
    ensures CanStart(s, r)
  {
    var e := Client(r, Choose);
    var t := Apply(s, e);
    StepStaysReady(s, e, r);
    ChosenCanStart(t, t.reqs[r].phase.l, r);
    StartStepBack(s, e, r);
  }

  lemma RefusedCanStart(s: Sys, l: nat, r: nat)
    requires Ready(s, r) && s.reqs[r].phase == Refused(l)
    ensures CanStart(s, r)
  {
    var e := Client(r, Renew);
    StepStaysReady(s, e, r);
    HoldingCanStart(Apply(s, e), r);
    StartStepBack(s, e, r);
  }

  lemma WaitingCanStart(s: Sys, l: nat, r: nat)
    requires Ready(s, r) && s.reqs[r].phase == Waiting(l)
    ensures CanStart(s, r)
  {
    var t := WaitingResolves(s, l, r);
    if t.reqs[r].phase == Refused(l) {
      RefusedCanStart(t, l, r);
    } else {
      LeadsNowhere(t, r);
    }
    StartTrans(s, t, r);
  }

  lemma {:induction false} RunQueues(s: Sys, events: seq<Event>, t: Sys, r: nat)
    requires Inv(s) && Run(s, events, t) && (r < |s.reqs| ==> Queues(s, r))
    ensures r < |t.reqs| ==> Queues(t, r)
    decreases |events|
  {
    if events != [] {
      StepKeeps(s, events[0]);
      StepQueues(s, events[0], r);
      RunQueues(Apply(s, events[0]), events[1..], t, r);
    }
  }

  lemma StepQueues(s: Sys, e: Event, r: nat)
    requires Inv(s) && Enabled(s, e) && (r < |s.reqs| ==> Queues(s, r))
    ensures r < |Apply(s, e).reqs| ==> Queues(Apply(s, e), r)
  {
    if r < |s.reqs| {
      match e {
        case Client(k, act) => ActQueues(s, k, act, r);
        case Thread(l, move) => MoveQueues(s, l, move, r);
        case _ =>
      }
    } else {
      RequestsAreAdded(s, e);
    }
    hide Inv, DoAct, DoMove;
  }

  lemma RequestsAreAdded(s: Sys, e: Event)
    requires Enabled(s, e)
    ensures if e.NewRequest? then Apply(s, e).reqs == s.reqs + [NEW_REQ] else |Apply(s, e).reqs| == |s.reqs|
  {
  }

  lemma ActQueues(s: Sys, k: nat, act: Act, r: nat)
    requires Inv(s) && ActEnabled(s, k, act) && Queues(s, r)
    ensures |DoAct(s, k, act).reqs| == |s.reqs| && Queues(DoAct(s, k, act), r)
  {
    var t := DoAct(s, k, act);
    assert ReqOk(s, r);
    hide Inv;
    assert k != r ==> t.reqs[r] == s.reqs[r];
  }

  lemma MoveQueues(s: Sys, l: nat, move: Move, r: nat)
    requires Inv(s) && MoveEnabled(s, l, move) && Queues(s, r)
    ensures |DoMove(s, l, move).reqs| == |s.reqs| && Queues(DoMove(s, l, move), r)
  {
    assert ReqOk(s, r) && LoopOk(s, l);
    OnlyQueuedOrAskingReturn(s, l, r);
    if move.Task? {
      TaskQueues(s, l, move.token, move.ok, r);
    } else if move.Tear? && r in s.loops[l].slab.Values {
      var token :| token in s.loops[l].slab && s.loops[l].slab[token] == r;
    }
    hide Inv, Work, StageOk, TasksOk;
  }

  lemma TaskQueues(s: Sys, l: nat, token: nat, ok: bool, r: nat)
    requires Inv(s) && MoveEnabled(s, l, Move.Task(token, ok)) && Queues(s, r)
    ensures |Work(s, l, token, ok).reqs| == |s.reqs| && Queues(Work(s, l, token, ok), r)
  {
    var task := s.loops[l].tasks[0];
    assert ReqOk(s, r) && LoopOk(s, l);
    assert task.DropHandle? && task.id in s.loops[l].slab && s.loops[l].slab[task.id] == r ==>
      s.reqs[r].at == Slabbed(l, task.id);
    hide Inv, LoopOk;
  }

  /** In every run, a request that is not given up and has not been started can be started. */
  lemma EveryRequestCanStart(events: seq<Event>, s: Sys, r: nat)
    requires Run(START, events, s) && r < |s.reqs|
    requires s.reqs[r].phase.Holding? || s.reqs[r].phase.Chosen? || s.reqs[r].phase.Waiting? || s.reqs[r].phase.Refused?
    ensures CanStart(s, r)
  {
    RunKeeps(START, events, s);
    RunQueues(START, events, s, r);
    if s.sender.Some? {
      var e := Client(s.sender.value.r, EndSend);
      assert ActEnabled(s, s.sender.value.r, EndSend);
      var t := Apply(s, e);
      StepKeeps(s, e);
      UnlockedCanStart(t, r);
      StartStepBack(s, e, r);
    } else {
      UnlockedCanStart(s, r);
    }
  }

  lemma UnlockedCanStart(s: Sys, r: nat)
    requires Ready(s, r)
    requires s.reqs[r].phase.Holding? || s.reqs[r].phase.Chosen? || s.reqs[r].phase.Waiting? || s.reqs[r].phase.Refused?
    ensures CanStart(s, r)
  {
    match s.reqs[r].phase {
      case Holding => HoldingCanStart(s, r);
      case Chosen(l) =>
        var e := Client(r, Submit);
        var t := Apply(s, e);
        StepStaysReady(s, e, r);
        if t.reqs[r].phase == Waiting(l) {
          WaitingCanStart(t, l, r);
        } else {
          RefusedCanStart(t, l, r);
        }
        StartStepBack(s, e, r);
      case Waiting(l) => WaitingCanStart(s, l, r);
      case Refused(l) => RefusedCanStart(s, l, r);
      case _ =>
    }
  }
}
