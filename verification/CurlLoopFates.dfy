/** What becomes of requests that the loop lets wait, and of easies that their clients have abandoned.

    A wait behind a success ends only by an unpause that fails, or when the client gives up; an abandoned easy is
    dropped only by a task that its request has queued. */
module CurlLoopFates {
  import opened Bytes
  import opened CurlLoop
  import opened CurlLoopSafety
  import opened CurlLoopThread

  /** A request whose handle the loop has dropped: no response will come. */
  predicate HandleTaken(q: Req) {
    q.phase.Started? && q.handle.Dropped?
  }

  /** It waits on: its result is the success of the transfer, which its future does not return. */
  predicate Waits(q: Req) {
    HandleTaken(q) && q.result.Done? && q.result.ok
  }

  /** In every run, such a request has a result; its future can return exactly when that is an error. */
  lemma WaitEndsIffError(events: seq<Event>, s: Sys, r: nat)
    requires Run(START, events, s) && r < |s.reqs| && HandleTaken(s.reqs[r]) && !Sends(s, r)
    ensures s.reqs[r].result.Done?
    ensures ActEnabled(s, r, Return) <==> !Waits(s.reqs[r])
    ensures !ActEnabled(s, r, Take) && !ActEnabled(s, r, Ask)
  {
    RunKeeps(START, events, s);
    assert ReqOk(s, r);
  }

  /** The step lets the last reference to the request's queue go while its query is in it, behind a success. */
  predicate LosesItsQuery(s: Sys, e: Event, r: nat)
    requires r < |s.reqs|
  {
    var q := s.reqs[r];
    && q.phase.Started? && q.handle.InTask? && q.result.Done? && q.result.ok && q.home < |s.loops|
    && ((e == Thread(q.home, Release) && s.loops[q.home].grips == 0) ||
        (e == Thread(q.home, Let) && s.loops[q.home].grips == 1 && !s.loops[q.home].Held()))
  }

  /** The step reports the success of a transfer whose query failed, before its future has returned the error. */
  predicate OverwritesItsError(s: Sys, e: Event, r: nat)
    requires r < |s.reqs|
  {
    var q := s.reqs[r];
    HandleTaken(q) && !Waits(q) && q.at.Slabbed? && e == Thread(q.at.l, Message(q.at.token, true))
  }

  lemma ActsBeginNoWait(s: Sys, k: nat, act: Act, r: nat)
    requires Inv(s) && r < |s.reqs| && ActEnabled(s, k, act)
    ensures r < |DoAct(s, k, act).reqs| && (Waits(DoAct(s, k, act).reqs[r]) ==> Waits(s.reqs[r]))
  {
    hide Inv;
    var t := DoAct(s, k, act);
    assert k != r ==> t.reqs[r] == s.reqs[r];
  }

  lemma QueueEndBeginsWaitIff(s: Sys, l: nat, move: Move, r: nat)
    requires Inv(s) && r < |s.reqs| && MoveEnabled(s, l, move) && !Waits(s.reqs[r]) && (move.Let? || move.Release?)
    ensures r < |DoMove(s, l, move).reqs|
    ensures Waits(DoMove(s, l, move).reqs[r]) <==> LosesItsQuery(s, Thread(l, move), r)
  {
    assert ReqOk(s, r) && LoopOk(s, l);
    OnlyQueuedOrAskingReturn(s, l, r);
    hide Inv, TasksOk, StageOk;
  }

  lemma MessageBeginsWaitIff(s: Sys, l: nat, move: Move, r: nat)
    requires Inv(s) && r < |s.reqs| && MoveEnabled(s, l, move) && !Waits(s.reqs[r]) && move.Message?
    ensures r < |DoMove(s, l, move).reqs|
    ensures Waits(DoMove(s, l, move).reqs[r]) <==> OverwritesItsError(s, Thread(l, move), r)
  {
    assert ReqOk(s, r) && LoopOk(s, l);
    hide Inv, TasksOk, StageOk;
  }

  lemma OtherMovesBeginNoWait(s: Sys, l: nat, move: Move, r: nat)
    requires Inv(s) && r < |s.reqs| && MoveEnabled(s, l, move) && !Waits(s.reqs[r])
    requires !move.Let? && !move.Release? && !move.Message?
    ensures r < |DoMove(s, l, move).reqs| && !Waits(DoMove(s, l, move).reqs[r])
  {
    assert ReqOk(s, r) && LoopOk(s, l);
    hide Inv, TasksOk, StageOk;
  }

  lemma MovesBeginWaitIff(s: Sys, l: nat, move: Move, r: nat)
    requires Inv(s) && r < |s.reqs| && MoveEnabled(s, l, move) && !Waits(s.reqs[r])
    ensures r < |DoMove(s, l, move).reqs|
    ensures Waits(DoMove(s, l, move).reqs[r]) <==>
            LosesItsQuery(s, Thread(l, move), r) || OverwritesItsError(s, Thread(l, move), r)
  {
    match move {
      case Let | Release => QueueEndBeginsWaitIff(s, l, move, r);
      case Message(_, _) => MessageBeginsWaitIff(s, l, move, r);
      case _ => OtherMovesBeginNoWait(s, l, move, r);
    }
    hide Inv, DoMove, Waits;
  }

  lemma StepBeginsWaitIff(s: Sys, e: Event, r: nat)
    requires Inv(s) && Enabled(s, e) && r < |s.reqs| && !Waits(s.reqs[r])
    ensures r < |Apply(s, e).reqs|
    ensures Waits(Apply(s, e).reqs[r]) <==> LosesItsQuery(s, e, r) || OverwritesItsError(s, e, r)
  {
    match e {
      case Thread(l, move) => MovesBeginWaitIff(s, l, move, r);
      case Client(k, act) => ActsBeginNoWait(s, k, act, r);
      case _ =>
    }
    hide Inv, DoAct, DoMove, Waits;
  }

  /** In every run, such a wait begins in exactly two ways: the last reference to the loop's queue goes while the query
      is in it and the success already reported, or a success overwrites the error of a failed query before the future
      has returned it. */
  lemma WaitBeginsIff(events: seq<Event>, s: Sys, e: Event, r: nat)
    requires Run(START, events, s) && Enabled(s, e) && r < |s.reqs| && !Waits(s.reqs[r])
    ensures r < |Apply(s, e).reqs|
    ensures Waits(Apply(s, e).reqs[r]) <==> LosesItsQuery(s, e, r) || OverwritesItsError(s, e, r)
  {
    RunKeeps(START, events, s);
    StepBeginsWaitIff(s, e, r);
  }

  predicate IsUnpause(task: Task, token: nat) {
    (task.UnpauseRecv? || task.UnpauseSend?) && task.id == token
  }

  /** Whether an unpause with this token comes before the request's `DropHandle`. */
  predicate Ahead(tasks: seq<Task>, r: nat, token: nat) {
    tasks != [] &&
    (IsUnpause(tasks[0], token) || (tasks[0] != DropHandle(r, token) && Ahead(tasks[1..], r, token)))
  }

  /** Whether the loop will still perform an unpause on the request's easy. */
  predicate UnpauseAhead(s: Sys, r: nat)
    requires r < |s.reqs|
  {
    var at := s.reqs[r].at;
    at.Slabbed? && at.l < |s.loops| && Works(s.loops[at.l]) && Ahead(s.loops[at.l].tasks, r, at.token)
  }

  /** The loop thread is not on its way out. */
  predicate Works(loop: Loop) {
    loop.stage.Polling? || loop.stage.Draining? || loop.stage.Reporting?
  }

  lemma {:induction false} AheadPush(tasks: seq<Task>, r: nat, token: nat, extra: seq<Task>)
    requires DropHandle(r, token) in tasks
    ensures Ahead(tasks + extra, r, token) <==> Ahead(tasks, r, token)
  {
    assert (tasks + extra)[1..] == tasks[1..] + extra;
    if tasks[0] != DropHandle(r, token) {
      AheadPush(tasks[1..], r, token, extra);
    }
  }

  /** A wait that no unpause can end. */
  predicate Settled(s: Sys, r: nat) {
    r < |s.reqs| && Waits(s.reqs[r]) && !UnpauseAhead(s, r)
  }

  /** Its easy, if it is still in the slab of a loop that works, is about to be dropped. */
  lemma WaitingEasyIsDropped(s: Sys, r: nat)
    requires Inv(s) && r < |s.reqs| && Waits(s.reqs[r])
    ensures s.reqs[r].reported
    ensures s.reqs[r].at.Slabbed? ==>
              var at := s.reqs[r].at;
              && s.reqs[r].home == at.l && s.reqs[r].id == at.token && at.l < |s.loops|
              && at.token in s.loops[at.l].slab && s.loops[at.l].slab[at.token] == r
              && (Works(s.loops[at.l]) ==> DropHandle(r, at.token) in s.loops[at.l].tasks)
  {
    assert ReqOk(s, r);
  }

  /** A client only puts tasks behind the others. */
  lemma ActsOnlyPush(s: Sys, k: nat, act: Act, l: nat) returns (extra: seq<Task>)
    requires ActEnabled(s, k, act) && l < |s.loops|
    ensures var t := DoAct(s, k, act);
      l < |t.loops| && t.loops[l].stage == s.loops[l].stage && t.loops[l].tasks == s.loops[l].tasks + extra
  {
    var t := DoAct(s, k, act);
    var n := |s.loops[l].tasks|;
    extra := if n <= |t.loops[l].tasks| then t.loops[l].tasks[n..] else [];
  }

  /** The loop thread takes the first task, and may put one behind the others. */
  lemma WorkPopsAndPushes(s: Sys, l: nat, token: nat, ok: bool, k: nat) returns (extra: seq<Task>)
    requires MoveEnabled(s, l, Move.Task(token, ok)) && k < |s.loops|
    ensures var t := Work(s, l, token, ok);
      && k < |t.loops| && t.loops[k].stage == s.loops[k].stage
      && t.loops[k].tasks == (if k == l then s.loops[l].tasks[1..] else s.loops[k].tasks) + extra
  {
    var task := s.loops[l].tasks[0];
    extra := if k == l && task.Query? && task.r < |s.reqs| && !(task.id in s.loops[l].slab && ok)
             then [DropHandle(task.r, task.id)] else [];
  }

  lemma SettledThroughAct(s: Sys, k: nat, act: Act, r: nat)
    requires Inv(s) && Settled(s, r) && ActEnabled(s, k, act) && !(k == r && act.Abandon?)
    ensures Settled(DoAct(s, k, act), r)
  {
    WaitingEasyIsDropped(s, r);
    hide Inv;
    var t := DoAct(s, k, act);
    assert t.reqs[r] == s.reqs[r];
    var at := s.reqs[r].at;
    if at.Slabbed? {
      var extra := ActsOnlyPush(s, k, act, at.l);
      if Works(s.loops[at.l]) {
        AheadPush(s.loops[at.l].tasks, r, at.token, extra);
      }
    }
    hide DoAct, ActEnabled;
  }

  lemma SettledThroughTask(s: Sys, l: nat, token: nat, ok: bool, r: nat)
    requires Inv(s) && Settled(s, r) && MoveEnabled(s, l, Move.Task(token, ok))
    ensures Settled(Work(s, l, token, ok), r)
  {
    WaitingEasyIsDropped(s, r);
    OnlyQueuedOrAskingReturn(s, l, r);
    var task := s.loops[l].tasks[0];
    assert LoopOk(s, l) && TaskOk(s, l, task) && ReqOk(s, r);
    if !task.Construct? && !task.Shutdown? {
      HeadFindsItsEasy(s, l);
    }
    var at, t := s.reqs[r].at, Work(s, l, token, ok);
    hide Inv, LoopOk;
    assert t.reqs[r] == s.reqs[r] || t.reqs[r] == s.reqs[r].(at := Destroyed);
    if at.Slabbed? && t.reqs[r] == s.reqs[r] {
      var extra := WorkPopsAndPushes(s, l, token, ok, at.l);
      hide Work;
      assert at.l == l ==> s.loops[l].tasks == [task] + s.loops[l].tasks[1..];
      if Works(s.loops[at.l]) && (at.l != l || task != DropHandle(r, at.token)) {
        AheadPush(if at.l == l then s.loops[l].tasks[1..] else s.loops[at.l].tasks, r, at.token, extra);
      }
    }
  }

  lemma SettledThroughMove(s: Sys, l: nat, move: Move, r: nat)
    requires Inv(s) && Settled(s, r) && MoveEnabled(s, l, move)
    ensures Settled(DoMove(s, l, move), r)
  {
    WaitingEasyIsDropped(s, r);
    OnlyQueuedOrAskingReturn(s, l, r);
    assert ReqOk(s, r) && LoopOk(s, l);
    if move.Task? {
      SettledThroughTask(s, l, move.token, move.ok, r);
    }
    hide Inv, Work, TasksOk, StageOk;
  }

  lemma {:induction false} SettledForEver(s: Sys, events: seq<Event>, t: Sys, r: nat)
    requires Inv(s) && Settled(s, r) && Run(s, events, t) && Client(r, Abandon) !in events
    ensures Settled(t, r)
    decreases |events|
  {
    if events != [] {
      var e := events[0];
      assert e in events;
      match e {
        case Thread(l, move) => SettledThroughMove(s, l, move, r);
        case Client(k, act) => SettledThroughAct(s, k, act, r);
        case NewRequest =>
        case Close => SettledThroughClose(s, r);
      }
      StepKeeps(s, e);
      SettledForEver(Apply(s, e), events[1..], t, r);
    }
  }

  lemma SettledThroughClose(s: Sys, r: nat)
    requires Inv(s) && Settled(s, r) && Enabled(s, Close)
    ensures Settled(Apply(s, Close), r)
  {
    WaitingEasyIsDropped(s, r);
    hide Inv;
    var at := s.reqs[r].at;
    if at.Slabbed? && Works(s.loops[at.l]) && at.l == s.current.value {
      AheadPush(s.loops[at.l].tasks, r, at.token, [Shutdown]);
    }
  }

  predicate ThreadsOnly(events: seq<Event>) {
    forall e: Event | e in events :: e.Thread?
  }

  /** A run of loop threads alone. */
  ghost predicate ThreadsReach(s: Sys, t: Sys) {
    exists events :: Run(s, events, t) && ThreadsOnly(events)
  }

  lemma ThreadStep(s: Sys, l: nat, move: Move, t: Sys)
    requires MoveEnabled(s, l, move) && ThreadsReach(DoMove(s, l, move), t)
    ensures ThreadsReach(s, t)
  {
    var e := Thread(l, move);
    var events :| Run(DoMove(s, l, move), events, t) && ThreadsOnly(events);
    var longer := [e] + events;
    assert longer[1..] == events;
    assert Run(s, longer, t);
  }

  lemma {:induction false} ThreadsKeep(s: Sys, t: Sys)
    requires Inv(s) && ThreadsReach(s, t)
    ensures Inv(t)
  {
    var events :| Run(s, events, t) && ThreadsOnly(events);
    RunKeeps(s, events, t);
  }

  lemma {:induction false} ThreadsTrans(s: Sys, t: Sys, u: Sys)
    requires ThreadsReach(s, t) && ThreadsReach(t, u)
    ensures ThreadsReach(s, u)
  {
    var a :| Run(s, a, t) && ThreadsOnly(a);
    var b :| Run(t, b, u) && ThreadsOnly(b);
    RunConcat(s, a, t, b, u);
    assert ThreadsOnly(a + b);
  }

  lemma {:induction false} RunConcat(s: Sys, a: seq<Event>, t: Sys, b: seq<Event>, u: Sys)
    requires Run(s, a, t) && Run(t, b, u)
    ensures Run(s, a + b, u)
    decreases |a|
  {
    if a == [] {
      assert a + b == b;
    } else {
      assert (a + b)[1..] == a[1..] + b;
      RunConcat(Apply(s, a[0]), a[1..], t, b, u);
    }
  }

  /** How far a working loop is from performing a task. */
  function Turns(loop: Loop): nat {
    if loop.stage.Draining? && loop.taken > 0 then 0
    else if loop.stage.Polling? then 1
    else if loop.stage.Reporting? then 2
    else 3
  }

  /** The request's easy is in the slab of a loop that works. */
  predicate Kept(s: Sys, l: nat, r: nat) {
    && l < |s.loops| && r < |s.reqs| && Works(s.loops[l])
    && s.reqs[r].at.Slabbed? && s.reqs[r].at.l == l && !s.reqs[r].handle.NoHandle?
  }

  /** The request has no query and no `DropHandle` among the first `k` tasks. */
  predicate Untouched(tasks: seq<Task>, k: nat, r: nat) {
    k < |tasks| && forall j | 0 <= j < k :: tasks[j].Query? || tasks[j].DropHandle? ==> tasks[j].r != r
  }

  /** A successful task that is not the request's own query or `DropHandle` leaves the request alone. */
  lemma TaskPasses(s: Sys, l: nat, token: nat, r: nat)
    requires Inv(s) && Kept(s, l, r) && MoveEnabled(s, l, Move.Task(token, true))
    requires s.loops[l].tasks[0].Query? || s.loops[l].tasks[0].DropHandle? ==> s.loops[l].tasks[0].r != r
    ensures var t := Work(s, l, token, true);
      && Kept(t, l, r) && t.reqs[r] == s.reqs[r]
      && t.loops[l].tasks == s.loops[l].tasks[1..] && t.loops[l].taken == s.loops[l].taken - 1
  {
    var task := s.loops[l].tasks[0];
    assert LoopOk(s, l) && TaskOk(s, l, task) && ReqOk(s, r);
    OnlyQueuedOrAskingReturn(s, l, r);
    if !task.Construct? && !task.Shutdown? {
      HeadFindsItsEasy(s, l);
    }
    hide Inv;
  }

  /** Loop threads alone can bring a queued task to the front, without touching the request. */
  lemma {:induction false} ReachTask(s: Sys, l: nat, k: nat, r: nat) returns (t: Sys)
    requires Inv(s) && Kept(s, l, r) && Untouched(s.loops[l].tasks, k, r)
    ensures ThreadsReach(s, t) && Inv(t) && Kept(t, l, r) && t.reqs[r] == s.reqs[r]
    ensures t.loops[l].stage.Draining? && 0 < t.loops[l].taken <= |t.loops[l].tasks| &&
        t.loops[l].tasks == s.loops[l].tasks[k..]
    decreases k, Turns(s.loops[l])
  {
    var loop := s.loops[l];
    assert LoopOk(s, l);
    if loop.stage.Draining? && loop.taken > 0 && k == 0 {
      t := s;
      assert Run(s, [], s);
      assert loop.tasks[0..] == loop.tasks;
    } else if loop.stage.Draining? && loop.taken > 0 {
      var token := Vacant(loop.slab, 0);
      TaskPasses(s, l, token, r);
      TaskKeeps(s, l, token, true);
      var u := Work(s, l, token, true);
      assert forall j | 0 <= j < k - 1 :: u.loops[l].tasks[j] == loop.tasks[j + 1];
      t := ReachTask(u, l, k - 1, r);
      ThreadStep(s, l, Move.Task(token, true), t);
    } else {
      var move := if loop.stage.Polling? then Swap else if loop.stage.Reporting? then EndRound else Perform(true);
      assert loop.slab != map[] by {
        assert ReqOk(s, r);
      }
      MoveKeeps(s, l, move);
      t := ReachTask(DoMove(s, l, move), l, k, r);
      ThreadStep(s, l, move, t);
    }
  }

  lemma {:induction false} AheadIndex(tasks: seq<Task>, r: nat, token: nat) returns (k: nat)
    requires Ahead(tasks, r, token)
    ensures k < |tasks| && IsUnpause(tasks[k], token) && forall j | 0 <= j < k :: tasks[j] != DropHandle(r, token)
  {
    if IsUnpause(tasks[0], token) {
      k := 0;
    } else {
      k := AheadIndex(tasks[1..], r, token);
      k := k + 1;
    }
  }

  /** An unpause ahead can fail, and its error ends the wait. */
  lemma UnpauseAheadEndsWait(s: Sys, r: nat) returns (t: Sys)
    requires Inv(s) && r < |s.reqs| && Waits(s.reqs[r]) && UnpauseAhead(s, r)
    ensures ThreadsReach(s, t) && r < |t.reqs| && !Waits(t.reqs[r])
  {
    WaitingEasyIsDropped(s, r);
    var l, token := s.reqs[r].at.l, s.reqs[r].at.token;
    var tasks := s.loops[l].tasks;
    var k := AheadIndex(tasks, r, token);
    assert LoopOk(s, l);
    forall j | 0 <= j < k ensures tasks[j].Query? || tasks[j].DropHandle? ==> tasks[j].r != r {
      assert TaskOk(s, l, tasks[j]);
    }
    var u := ReachTask(s, l, k, r);
    assert u.loops[l].tasks[0] == tasks[k];
    assert NamedBySlab(u, l, r, token) by {
      assert ReqOk(u, r);
    }
    var move := Move.Task(Vacant(u.loops[l].slab, 0), false);
    t := DoMove(u, l, move);
    assert t.reqs[r].result == Done(false, token);
    assert Run(t, [], t);
    ThreadStep(u, l, move, t);
    ThreadsTrans(s, u, t);
  }

  predicate NamedBySlab(s: Sys, l: nat, r: nat, token: nat) {
    l < |s.loops| && token in s.loops[l].slab && s.loops[l].slab[token] == r
  }

  ghost predicate WaitsForEver(s: Sys, r: nat) {
    forall events, t | Run(s, events, t) && Client(r, Abandon) !in events :: r < |t.reqs| && Waits(t.reqs[r])
  }

  /** Only giving up ends such a wait, whatever else happens, exactly when no unpause with its token is ahead of its
      `DropHandle`. */
  lemma WaitsForEverIff(events: seq<Event>, s: Sys, r: nat)
    requires Run(START, events, s) && r < |s.reqs| && Waits(s.reqs[r])
    ensures WaitsForEver(s, r) <==> !UnpauseAhead(s, r)
  {
    RunKeeps(START, events, s);
    if UnpauseAhead(s, r) {
      var t := UnpauseAheadEndsWait(s, r);
      var more :| Run(s, more, t) && ThreadsOnly(more);
      assert Client(r, Abandon) !in more;
    } else {
      forall more, t | Run(s, more, t) && Client(r, Abandon) !in more ensures r < |t.reqs| && Waits(t.reqs[r]) {
        SettledForEver(s, more, t, r);
      }
    }
  }

  predicate GivenUp(stage: Stage) {
    stage.Failing? || stage == Leaving(true) || stage.Released? || stage.Torn?
  }

  /** An easy in a slab that no client can drop any more: its request was abandoned before it had a handle, or with
      the handle inside a response that nobody took. */
  predicate Orphan(s: Sys, l: nat, token: nat, r: nat) {
    && l < |s.loops| && r < |s.reqs| && s.reqs[r].at == Slabbed(l, token)
    && s.reqs[r].phase.Gone? && (s.reqs[r].handle.NoHandle? || s.reqs[r].handle.InResponse?)
  }

  lemma OrphanThroughAct(s: Sys, k: nat, act: Act, l: nat, token: nat, r: nat)
    requires Orphan(s, l, token, r) && ActEnabled(s, k, act) && !Sends(s, r)
    ensures Orphan(DoAct(s, k, act), l, token, r)
  {
    ActTouchesItsOwn(s, k, act, r);
    assert k != r;
    hide DoAct;
  }

  lemma OrphanStays(s: Sys, e: Event, l: nat, token: nat, r: nat)
    requires Inv(s) && Orphan(s, l, token, r) && !GivenUp(s.loops[l].stage) && Enabled(s, e)
    ensures Orphan(Apply(s, e), l, token, r)
  {
    assert !Sends(s, r);
    match e {
      case Thread(k, move) => OrphanThroughMove(s, k, move, l, token, r);
      case Client(k, act) => OrphanThroughAct(s, k, act, l, token, r);
      case _ =>
    }
    hide Inv, DoAct, DoMove;
  }

  lemma OrphanThroughTask(s: Sys, k: nat, tk: nat, ok: bool, l: nat, token: nat, r: nat)
    requires Inv(s) && Orphan(s, l, token, r) && MoveEnabled(s, k, Move.Task(tk, ok))
    ensures Orphan(Work(s, k, tk, ok), l, token, r)
  {
    var task := s.loops[k].tasks[0];
    assert LoopOk(s, k);
    assert task in s.loops[k].tasks;
    assert TaskOk(s, k, task);
    if task.DropHandle? {
      HeadFindsItsEasy(s, k);
    }
    hide Inv, LoopOk;
  }

  lemma OrphanThroughMove(s: Sys, k: nat, move: Move, l: nat, token: nat, r: nat)
    requires Inv(s) && Orphan(s, l, token, r) && !GivenUp(s.loops[l].stage) && MoveEnabled(s, k, move)
    ensures Orphan(DoMove(s, k, move), l, token, r)
  {
    if move.Task? {
      OrphanThroughTask(s, k, move.token, move.ok, l, token, r);
    }
    assert LoopOk(s, k);
    OnlyQueuedOrAskingReturn(s, k, r);
    hide Inv, Work, StageOk, TasksOk;
  }

  lemma GivenUpStays(s: Sys, e: Event, l: nat)
    requires Enabled(s, e) && l < |s.loops| && GivenUp(s.loops[l].stage)
    ensures l < |Apply(s, e).loops| && GivenUp(Apply(s, e).loops[l].stage)
  {
    match e {
      case Thread(k, move) => MoveGivesUp(s, k, move, l);
      case Client(r, act) => assert |DoAct(s, r, act).loops| >= |s.loops|;
      case _ =>
    }
    hide DoMove;
  }

  lemma MoveGivesUp(s: Sys, k: nat, move: Move, l: nat)
    requires MoveEnabled(s, k, move) && l < |s.loops| && GivenUp(s.loops[l].stage)
    ensures |DoMove(s, k, move).loops| == |s.loops| && GivenUp(DoMove(s, k, move).loops[l].stage)
  {
  }

  /** As long as its loop does not fail, an orphan stays in the slab, so the loop never leaves. */
  lemma {:induction false} OrphanKeepsTheLoop(s: Sys, events: seq<Event>, t: Sys, l: nat, token: nat, r: nat)
    requires Inv(s) && Run(s, events, t)
    requires l < |s.loops| && (GivenUp(s.loops[l].stage) || Orphan(s, l, token, r))
    ensures l < |t.loops| && t.loops[l].stage != Leaving(false)
    ensures GivenUp(t.loops[l].stage) || (Orphan(t, l, token, r) && t.loops[l].Held())
    decreases |events|
  {
    if events != [] {
      var e := events[0];
      StepKeeps(s, e);
      hide Inv, Apply, Enabled;
      if GivenUp(s.loops[l].stage) {
        GivenUpStays(s, e, l);
      } else {
        OrphanStays(s, e, l, token, r);
      }
      OrphanKeepsTheLoop(Apply(s, e), events[1..], t, l, token, r);
    } else if Orphan(s, l, token, r) {
      assert LoopOk(s, l);
      assert ReqOk(s, r);
    }
  }

  /** An abandoned easy in the slab of a running loop has a `DropHandle` on its way, or a query that may still fail and
      drop it, exactly unless it is an orphan. */
  lemma AbandonedEasyIsOnItsWayIff(events: seq<Event>, s: Sys, l: nat, token: nat, r: nat)
    requires Run(START, events, s) && r < |s.reqs| && s.reqs[r].phase.Gone? && s.reqs[r].at == Slabbed(l, token)
    requires l < |s.loops| && s.loops[l].Held()
    ensures DropHandle(r, token) in s.loops[l].tasks || Query(r, token) in s.loops[l].tasks <==> !Orphan(s, l, token, r)
  {
    RunKeeps(START, events, s);
    assert ReqOk(s, r) && LoopOk(s, l);
    if DropHandle(r, token) in s.loops[l].tasks {
      assert TaskOk(s, l, DropHandle(r, token));
    }
    if Query(r, token) in s.loops[l].tasks {
      assert TaskOk(s, l, Query(r, token));
    }
  }

  /** The query of an abandoned request makes an orphan exactly when it is answered. */
  lemma AnsweredQueryOrphansIff(events: seq<Event>, s: Sys, l: nat, hint: nat, ok: bool)
    requires Run(START, events, s) && MoveEnabled(s, l, Move.Task(hint, ok)) && s.loops[l].tasks[0].Query?
    requires s.loops[l].tasks[0].r < |s.reqs| && s.reqs[s.loops[l].tasks[0].r].phase.Gone?
    ensures var task := s.loops[l].tasks[0];
      var t := Work(s, l, hint, ok);
      if ok then Orphan(t, l, task.id, task.r) else DropHandle(task.r, task.id) in t.loops[l].tasks
  {
    RunKeeps(START, events, s);
    HeadFindsItsEasy(s, l);
  }

  /** The step lets the easy of a request become an orphan under `token`: the client gives up while the easy is in the
      slab and the handle not there yet or inside a response; or the request is abandoned, and its easy is put into
      the slab or its query answered. */
  predicate MakesOrphan(s: Sys, e: Event, l: nat, token: nat, r: nat)
    requires r < |s.reqs| && Enabled(s, e)
  {
    var q := s.reqs[r];
    match e
    case Client(k, Abandon) => k == r && q.at == Slabbed(l, token) && (q.handle.NoHandle? || q.handle.InResponse?)
    case Thread(k, Task(chosen, ok)) =>
      k == l && q.phase.Gone? &&
      var task := s.loops[l].tasks[0];
      (task == Construct(r) && chosen == token) || (task == Query(r, token) && ok)
    case _ => false
  }

  lemma ActMakesOrphanIff(s: Sys, k: nat, act: Act, l: nat, token: nat, r: nat)
    requires Inv(s) && ActEnabled(s, k, act) && r < |s.reqs| && !Orphan(s, l, token, r)
    ensures Orphan(DoAct(s, k, act), l, token, r) <==> MakesOrphan(s, Client(k, act), l, token, r)
  {
    ActTouchesItsOwn(s, k, act, r);
    assert ReqOk(s, r);
    hide Inv;
    if k != r {
      hide DoAct;
    }
  }

  lemma ActTouchesItsOwn(s: Sys, k: nat, act: Act, r: nat)
    requires ActEnabled(s, k, act) && r < |s.reqs|
    ensures var t := DoAct(s, k, act);
      |t.loops| >= |s.loops| && |t.reqs| == |s.reqs| && (k != r ==> t.reqs[r] == s.reqs[r])
  {
  }

  lemma TaskMakesOrphanIff(s: Sys, k: nat, chosen: nat, ok: bool, l: nat, token: nat, r: nat)
    requires Inv(s) && MoveEnabled(s, k, Move.Task(chosen, ok)) && r < |s.reqs| && !Orphan(s, l, token, r)
    ensures Orphan(Work(s, k, chosen, ok), l, token, r) <==>
        MakesOrphan(s, Thread(k, Move.Task(chosen, ok)), l, token, r)
  {
    var task := s.loops[k].tasks[0];
    assert LoopOk(s, k) && ReqOk(s, r);
    assert TaskOk(s, k, task);
    if !task.Construct? && !task.Shutdown? {
      HeadFindsItsEasy(s, k);
    }
    hide Inv, LoopOk;
  }

  lemma MoveMakesOrphanIff(s: Sys, k: nat, move: Move, l: nat, token: nat, r: nat)
    requires Inv(s) && MoveEnabled(s, k, move) && r < |s.reqs| && !Orphan(s, l, token, r) && !move.Task?
    ensures !Orphan(DoMove(s, k, move), l, token, r)
  {
    assert LoopOk(s, k) && ReqOk(s, r);
    hide Inv, StageOk, TasksOk;
  }

  /** In every run, an orphan comes to be in exactly these ways. */
  lemma OrphanBeginsIff(events: seq<Event>, s: Sys, e: Event, l: nat, token: nat, r: nat)
    requires Run(START, events, s) && Enabled(s, e) && r < |s.reqs| && !Orphan(s, l, token, r)
    ensures Orphan(Apply(s, e), l, token, r) <==> MakesOrphan(s, e, l, token, r)
  {
    RunKeeps(START, events, s);
    match e {
      case Client(k, act) => ActMakesOrphanIff(s, k, act, l, token, r);
      case Thread(k, Task(chosen, ok)) => TaskMakesOrphanIff(s, k, chosen, ok, l, token, r);
      case Thread(k, move) => MoveMakesOrphanIff(s, k, move, l, token, r);
      case _ =>
    }
    hide Inv, DoAct, DoMove, MakesOrphan;
  }

  ghost predicate CanBeDropped(s: Sys, l: nat, r: nat) {
    exists events, t :: Run(s, events, t) && DroppedWithoutFailure(t, l, r)
  }

  predicate DroppedWithoutFailure(t: Sys, l: nat, r: nat) {
    r < |t.reqs| && t.reqs[r].at == Destroyed && l < |t.loops| && !GivenUp(t.loops[l].stage)
  }

  lemma DropCanBePerformed(s: Sys, l: nat, r: nat)
    requires Inv(s) && Kept(s, l, r) && s.reqs[r].handle.Dropped?
    ensures exists t :: ThreadsReach(s, t) && DroppedWithoutFailure(t, l, r)
  {
    assert ReqOk(s, r) && LoopOk(s, l);
    var tasks, drop := s.loops[l].tasks, DropHandle(r, s.reqs[r].id);
    var k := FirstIndex(tasks, drop);
    forall j | 0 <= j < k ensures tasks[j].Query? || tasks[j].DropHandle? ==> tasks[j].r != r {
      assert TaskOk(s, l, tasks[j]);
    }
    var u := ReachTask(s, l, k, r);
    assert u.loops[l].tasks[0] == drop;
    HeadFindsItsEasy(u, l);
    var move := Move.Task(Vacant(u.loops[l].slab, 0), true);
    var t := DoMove(u, l, move);
    assert Run(t, [], t);
    ThreadStep(u, l, move, t);
    ThreadsTrans(s, u, t);
    assert DroppedWithoutFailure(t, l, r);
  }

  lemma {:induction false} FirstIndex(tasks: seq<Task>, task: Task) returns (k: nat)
    requires task in tasks
    ensures k < |tasks| && tasks[k] == task && forall j | 0 <= j < k :: tasks[j] != task
  {
    if tasks[0] == task {
      k := 0;
    } else {
      k := FirstIndex(tasks[1..], task);
      k := k + 1;
    }
  }

  lemma QueryCanFail(s: Sys, l: nat, r: nat) returns (t: Sys)
    requires Inv(s) && Kept(s, l, r) && s.reqs[r].handle.InTask?
    ensures ThreadsReach(s, t) && Inv(t) && Kept(t, l, r) && t.reqs[r].handle.Dropped?
  {
    assert ReqOk(s, r) && LoopOk(s, l);
    var tasks, query := s.loops[l].tasks, Query(r, s.reqs[r].id);
    var k := FirstIndex(tasks, query);
    forall j | 0 <= j < k ensures tasks[j].Query? || tasks[j].DropHandle? ==> tasks[j].r != r {
      assert TaskOk(s, l, tasks[j]);
    }
    var u := ReachTask(s, l, k, r);
    assert u.loops[l].tasks[0] == query;
    var token := Vacant(u.loops[l].slab, 0);
    TaskKeeps(u, l, token, false);
    t := Work(u, l, token, false);
    assert Run(t, [], t);
    ThreadStep(u, l, Move.Task(token, false), t);
    ThreadsTrans(s, u, t);
  }

  /** An abandoned easy can leave the slab of a working loop, without a failure of that loop, exactly unless it is an
      orphan. */
  lemma AbandonedEasyCanBeDroppedIff(events: seq<Event>, s: Sys, l: nat, token: nat, r: nat)
    requires Run(START, events, s) && r < |s.reqs| && s.reqs[r].phase.Gone? && s.reqs[r].at == Slabbed(l, token)
    requires l < |s.loops| && Works(s.loops[l])
    ensures CanBeDropped(s, l, r) <==> !Orphan(s, l, token, r)
  {
    RunKeeps(START, events, s);
    assert ReqOk(s, r);
    if Orphan(s, l, token, r) {
      forall more, t | Run(s, more, t) ensures !DroppedWithoutFailure(t, l, r) {
        OrphanKeepsTheLoop(s, more, t, l, token, r);
      }
    } else {
      var u := s;
      assert Run(s, [], s);
      if s.reqs[r].handle.InTask? {
        u := QueryCanFail(s, l, r);
      }
      DropCanBePerformed(u, l, r);
      var t :| ThreadsReach(u, t) && DroppedWithoutFailure(t, l, r);
      ThreadsTrans(s, u, t);
    }
  }
}
