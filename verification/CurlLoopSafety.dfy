/** What every interleaving of clients and loop threads keeps: one place for each easy, one meaning for each token.

    The invariant speaks about each request by itself, about the loops that a request names, about each loop's queue
    and slab, and about the sender. A step changes one request and one loop at most, save the end of a queue and the
    end of a slab; so each step is shown to keep the changed request and loop in order, and the frame lemmas carry
    all others over. */
module CurlLoopSafety {
  import opened Bytes
  import opened CurlLoop

  /** A request's `ConstructHandle` stands alone. Behind its `DropHandle` only a late unpause follows, which none of
      them precedes. */
  predicate MayPrecede(a: Task, b: Task) {
    a.Shutdown? || b.Shutdown? || a.r != b.r ||
    (!a.Construct? && !b.Construct? && !(a.Query? && b.Query?) &&
     (a.DropHandle? ==> b.UnpauseSend? && b.late) && (b.DropHandle? ==> !(a.UnpauseSend? && a.late)))
  }

  predicate Ordered(tasks: seq<Task>) {
    forall i, j | 0 <= i < j < |tasks| :: MayPrecede(tasks[i], tasks[j])
  }

  /** What a task in a queue says about its request; while the loop runs, its token is that of the request's easy,
      unless it is a late unpause. */
  predicate TaskOk(s: Sys, l: nat, task: Task)
    requires l < |s.loops|
  {
    task.Shutdown? ||
    (task.r < |s.reqs| &&
     var q := s.reqs[task.r];
     if task.Construct? then q.at == Queued(l)
     else
       && q.home == l && q.id == task.id && q.handle != NoHandle
       && (task.Query? ==> q.handle == InTask)
       && (task.DropHandle? ==> q.handle == Dropped)
       && (task.UnpauseSend? && task.late ==> q.handle == Dropped)
       && (s.loops[l].Held() && !(task.UnpauseSend? && task.late) ==> q.at == Slabbed(l, task.id)))
  }

  predicate StageOk(loop: Loop) {
    && loop.taken <= |loop.tasks|
    && (!loop.stage.Draining? ==> loop.taken == 0)
    && (loop.stage.Failing? ==> loop.stage.todo <= loop.slab.Keys)
    && (loop.stage == Leaving(false) || loop.stage.Torn? ==> loop.slab == map[])
    && (!loop.Alive() ==> loop.tasks == [])
    && Ordered(loop.tasks)
  }

  predicate SlabOk(s: Sys, l: nat)
    requires l < |s.loops|
  {
    forall token | token in s.loops[l].slab ::
      s.loops[l].slab[token] < |s.reqs| && s.reqs[s.loops[l].slab[token]].at == Slabbed(l, token)
  }

  predicate TasksOk(s: Sys, l: nat)
    requires l < |s.loops|
  {
    forall task | task in s.loops[l].tasks :: TaskOk(s, l, task)
  }

  predicate LoopOk(s: Sys, l: nat)
    requires l < |s.loops|
  {
    StageOk(s.loops[l]) && TasksOk(s, l) && SlabOk(s, l) && (s.loops[l].Held() ==> s.current == Some(l))
  }

  predicate HasEasy(q: Req) {
    q.phase.Holding? || q.phase.Chosen? || q.phase.Refused?
  }

  predicate HandleLives(q: Req) {
    q.handle.WithCaller? || q.handle.InTask? || q.handle.InResponse?
  }

  /** The phase, the result, the handle and the place of a request's easy fit together. */
  predicate ReqLocal(q: Req) {
    && (HasEasy(q) <==> q.at.Caller?)
    && (q.at.Caller? || q.at.Queued? ==> q.result.Init?)
    && (q.at.Caller? || q.at.Queued? || q.at.Lost? || q.phase.Waiting? ==> q.handle.NoHandle?)
    && (q.at.Lost? <==> q.result.EasyLost?)
    && (q.at.Queued? && q.phase.Waiting? ==> q.phase.l == q.at.l)
    && (q.at.Slabbed? && q.phase.Waiting? ==>
          q.phase.l == q.at.l && (q.result.InProgress? || q.result.Done?) && q.result.id == q.at.token)
    && (q.at.Slabbed? && !q.handle.NoHandle? ==> q.home == q.at.l && q.id == q.at.token)
    && (q.phase.Started? || q.phase.Answered? ==> !q.handle.NoHandle?)
    && (q.phase.Answered? ==> q.handle.WithCaller?)
    && (q.phase.Gone? ==> !q.handle.WithCaller?)
    && (q.result.Done? && q.result.ok ==> q.reported)
    && (q.phase.Started? ==> q.result.InProgress? || q.result.Done?)
    && (q.phase.Started? && q.handle.Dropped? ==> q.result.Done?)
    && ((q.phase.Started? || q.phase.Waiting?) && q.result.InProgress? ==> q.at.Slabbed? && q.at.token == q.result.id)
  }

  /** The loops that a request names agree with it. */
  predicate ReqLinked(s: Sys, r: nat)
    requires r < |s.reqs|
  {
    var q := s.reqs[r];
    && (q.phase.Chosen? ==> q.phase.l < |s.loops|)
    && (q.phase.Waiting? ==> q.phase.l < |s.loops|)
    && (q.phase.Refused? ==> q.phase.l < |s.loops| && !s.loops[q.phase.l].Held())
    && (!q.handle.NoHandle? ==> q.home < |s.loops|)
    && (q.at.Queued? ==> q.at.l < |s.loops| && Construct(r) in s.loops[q.at.l].tasks)
    && (q.at.Slabbed? ==>
          q.at.l < |s.loops| && q.at.token in s.loops[q.at.l].slab && s.loops[q.at.l].slab[q.at.token] == r)
    && ((q.at.Lost? || q.at.Destroyed?) && q.phase.Waiting? ==> !s.loops[q.phase.l].Held())
    && ((q.phase.Started? || q.phase.Waiting?) && q.result.InProgress? && q.at.Slabbed? ==>
          s.loops[q.at.l].Busy(q.at.token))
    && (q.handle.InTask? ==> Query(r, q.id) in s.loops[q.home].tasks)
    && (q.handle.Dropped? && q.at.Slabbed? && s.loops[q.at.l].Held() ==> DropHandle(r, q.id) in s.loops[q.at.l].tasks)
    && (HandleLives(q) && s.loops[q.home].Held() ==> q.at == Slabbed(q.home, q.id))
  }

  predicate ReqOk(s: Sys, r: nat)
    requires r < |s.reqs|
  {
    ReqLocal(s.reqs[r]) && ReqLinked(s, r)
  }

  /** The sender's token is the id of its request's handle, and that handle's loop its own. */
  predicate SenderOk(s: Sys) {
    s.sender.Some? ==>
      && s.sender.value.r < |s.reqs|
      && var q := s.reqs[s.sender.value.r]; q.phase.Started? && q.home == s.sender.value.l && q.id == s.sender.value.id
  }

  predicate Inv(s: Sys) {
    && SenderOk(s)
    && (s.current.Some? ==> s.current.value < |s.loops|)
    && (forall r | 0 <= r < |s.reqs| :: ReqOk(s, r))
    && (forall l | 0 <= l < |s.loops| :: LoopOk(s, l))
  }

  lemma OrderedPush(tasks: seq<Task>, task: Task)
    requires Ordered(tasks) && forall a | a in tasks :: MayPrecede(a, task)
    ensures Ordered(tasks + [task])
  {
  }

  lemma OrderedTail(tasks: seq<Task>)
    requires Ordered(tasks) && tasks != []
    ensures Ordered(tasks[1..]) && forall b | b in tasks[1..] :: MayPrecede(tasks[0], b)
  {
  }

  predicate AsksNothing(s: Sys, r: nat)
    requires r < |s.reqs|
  {
    s.reqs[r].home < |s.loops| ==> forall task | task in s.loops[s.reqs[r].home].tasks :: !(task.Query? && task.r == r)
  }

  /** What a step may do to a request without disturbing the queues and slabs that name it. */
  predicate Compatible(s: Sys, r: nat, q: Req)
    requires r < |s.reqs|
  {
    var p := s.reqs[r];
    && (p.at.Queued? || p.at.Slabbed? ==> q.at == p.at)
    && (!p.handle.NoHandle? ==> !q.handle.NoHandle? && q.home == p.home && q.id == p.id)
    && (p.handle.InTask? ==> q.handle.InTask? || AsksNothing(s, r))
    && (p.handle.Dropped? ==> q.handle.Dropped?)
    && (Sends(s, r) ==> q.phase.Started?)
  }

  lemma ReqKeeps(s: Sys, r: nat, q: Req)
    requires Inv(s) && r < |s.reqs| && Compatible(s, r, q) && ReqOk(SetReq(s, r, q), r)
    ensures Inv(SetReq(s, r, q))
  {
    var t := SetReq(s, r, q);
    assert ReqOk(s, r);
    forall k | 0 <= k < |t.reqs| ensures ReqOk(t, k) {
      assert ReqOk(s, k);
    }
    forall k | 0 <= k < |t.loops| ensures LoopOk(t, k) {
      assert LoopOk(s, k);
      forall a | a in t.loops[k].tasks ensures TaskOk(t, k, a) {
        assert TaskOk(s, k, a);
      }
    }
  }

  /** A task may be put behind the others by its own request. */
  predicate PushAllowed(s: Sys, l: nat, task: Task, r: nat, q: Req) {
    && l < |s.loops| && s.loops[l].Alive() && r < |s.reqs|
    && Compatible(s, r, q) && !s.reqs[r].at.Queued?
    && !task.Shutdown? && task.r == r
    && (if task.Construct? then s.reqs[r].handle.NoHandle?
        else s.reqs[r].handle.Dropped? ==> task.UnpauseSend? && task.late)
    && (task.Query? ==> !s.reqs[r].handle.InTask?)
    && ReqOk(SetReq(Push(s, l, task), r, q), r) && TaskOk(SetReq(Push(s, l, task), r, q), l, task)
  }

  lemma PushStaysOrdered(s: Sys, l: nat, task: Task, r: nat, q: Req)
    requires Inv(s) && PushAllowed(s, l, task, r, q)
    ensures StageOk(s.loops[l].Push(task))
  {
    assert LoopOk(s, l);
    forall a | a in s.loops[l].tasks ensures MayPrecede(a, task) {
      assert TaskOk(s, l, a);
    }
    OrderedPush(s.loops[l].tasks, task);
  }

  lemma PushKeepsReq(s: Sys, l: nat, task: Task, r: nat, q: Req, k: nat)
    requires Inv(s) && PushAllowed(s, l, task, r, q) && k < |s.reqs|
    ensures ReqOk(SetReq(Push(s, l, task), r, q), k)
  {
    assert ReqOk(s, k);
  }

  lemma PushKeepsLoop(s: Sys, l: nat, task: Task, r: nat, q: Req, k: nat)
    requires Inv(s) && PushAllowed(s, l, task, r, q) && k < |s.loops|
    ensures LoopOk(SetReq(Push(s, l, task), r, q), k)
  {
    var t := SetReq(Push(s, l, task), r, q);
    assert LoopOk(s, k);
    PushStaysOrdered(s, l, task, r, q);
    hide StageOk;
    forall a | a in t.loops[k].tasks ensures TaskOk(t, k, a) {
      if a in s.loops[k].tasks {
        assert TaskOk(s, k, a);
      }
    }
  }

  lemma PushKeeps(s: Sys, l: nat, task: Task, r: nat, q: Req)
    requires Inv(s) && PushAllowed(s, l, task, r, q)
    ensures Inv(SetReq(Push(s, l, task), r, q))
  {
    var t := SetReq(Push(s, l, task), r, q);
    assert SenderOk(t) by {
      assert ReqOk(s, r);
    }
    hide ReqOk, LoopOk, PushAllowed;
    forall k | 0 <= k < |t.reqs| ensures ReqOk(t, k) {
      PushKeepsReq(s, l, task, r, q, k);
    }
    forall k | 0 <= k < |t.loops| ensures LoopOk(t, k) {
      PushKeepsLoop(s, l, task, r, q, k);
    }
  }

  /** A loop may change its stage, its references and its flags. */
  lemma StageKeeps(s: Sys, l: nat, loop: Loop)
    requires Inv(s) && l < |s.loops|
    requires loop.tasks == s.loops[l].tasks && loop.slab == s.loops[l].slab
    requires StageOk(loop) && (loop.Held() ==> s.loops[l].Held()) && (loop.Alive() ==> s.loops[l].Alive())
    requires forall r | 0 <= r < |s.reqs| && s.reqs[r].at.Slabbed? && s.reqs[r].at.l == l &&
        !loop.Busy(s.reqs[r].at.token) ::
               s.loops[l].Busy(s.reqs[r].at.token) ==> !s.reqs[r].result.InProgress?
    ensures Inv(SetLoop(s, l, loop))
  {
    var t := SetLoop(s, l, loop);
    assert LoopOk(s, l);
    forall k | 0 <= k < |t.reqs| ensures ReqOk(t, k) {
      assert ReqOk(s, k);
    }
    forall k | 0 <= k < |t.loops| ensures LoopOk(t, k) {
      assert LoopOk(s, k);
      forall a | a in t.loops[k].tasks ensures TaskOk(t, k, a) {
        assert TaskOk(s, k, a);
      }
    }
  }

  lemma StartLoopKeeps(s: Sys)
    requires Inv(s) && forall l | 0 <= l < |s.loops| :: !s.loops[l].Held()
    ensures Inv(StartLoop(s))
  {
    var t := StartLoop(s);
    forall k | 0 <= k < |t.reqs| ensures ReqOk(t, k) {
      assert ReqOk(s, k);
    }
    forall k | 0 <= k < |t.loops| ensures LoopOk(t, k) {
      if k < |s.loops| {
        assert LoopOk(s, k);
        forall a | a in t.loops[k].tasks ensures TaskOk(t, k, a) {
          assert TaskOk(s, k, a);
        }
      }
    }
  }

  lemma NewRequestKeeps(s: Sys)
    requires Inv(s)
    ensures Inv(Apply(s, NewRequest))
  {
    var t := Apply(s, NewRequest);
    forall k | 0 <= k < |t.reqs| ensures ReqOk(t, k) {
      if k < |s.reqs| {
        assert ReqOk(s, k);
      }
    }
    forall k | 0 <= k < |t.loops| ensures LoopOk(t, k) {
      assert LoopOk(s, k);
      forall a | a in t.loops[k].tasks ensures TaskOk(t, k, a) {
        assert TaskOk(s, k, a);
      }
    }
  }

  lemma CloseKeeps(s: Sys)
    requires Inv(s) && Enabled(s, Close)
    ensures Inv(Apply(s, Close))
  {
    var l := s.current.value;
    var t := Apply(s, Close);
    assert LoopOk(s, l);
    OrderedPush(s.loops[l].tasks, Shutdown);
    forall k | 0 <= k < |t.reqs| ensures ReqOk(t, k) {
      assert ReqOk(s, k);
    }
    forall k | 0 <= k < |t.loops| ensures LoopOk(t, k) {
      assert LoopOk(s, k);
      forall a | a in t.loops[k].tasks ensures TaskOk(t, k, a) {
        if a in s.loops[k].tasks {
          assert TaskOk(s, k, a);
        }
      }
    }
  }

  /** A running loop is the current one, so when the current manager refuses, none runs. */
  lemma NoneRuns(s: Sys)
    requires Inv(s) && (s.current.Some? ==> !s.loops[s.current.value].Held())
    ensures forall l | 0 <= l < |s.loops| :: !s.loops[l].Held()
  {
    forall l | 0 <= l < |s.loops| ensures !s.loops[l].Held() {
      assert LoopOk(s, l);
    }
  }

  lemma StartKeeps(s: Sys, r: nat, act: Act)
    requires Inv(s) && ActEnabled(s, r, act) && (act.Choose? || act.Submit? || act.Collect? || act.Renew?)
    ensures Inv(DoAct(s, r, act))
  {
    var q := s.reqs[r];
    assert ReqOk(s, r);
    match act {
      case Choose =>
        if s.current.None? {
          NoneRuns(s);
          StartLoopKeeps(s);
          ReqKeeps(StartLoop(s), r, q.(phase := Chosen(|s.loops|)));
        } else {
          ReqKeeps(s, r, q.(phase := Chosen(s.current.value)));
        }
      case Submit =>
        var l := q.phase.l;
        if Alive(s, l) && !s.loops[l].stage.Torn? {
          PushKeeps(s, l, Construct(r), r, q.(phase := Waiting(l), at := Queued(l)));
        } else {
          ReqKeeps(s, r, q.(phase := Refused(l)));
        }
      case Collect =>
        if q.result.EasyLost? {
          ReqKeeps(s, r, q.(phase := Refused(q.phase.l), result := Init, at := Caller));
        } else {
          ReqKeeps(s, r, q.(phase := Started, handle := WithCaller, home := q.phase.l, id := q.result.id));
        }
      case Renew =>
        if s.current == Some(q.phase.l) {
          NoneRuns(s);
          StartLoopKeeps(s);
          ReqKeeps(StartLoop(s), r, q.(phase := Holding));
        } else {
          ReqKeeps(s, r, q.(phase := Holding));
        }
      case _ =>
    }
  }

  /** A handle that its caller drops. */
  lemma HandleLeaves(s: Sys, r: nat, result: Result)
    requires Inv(s) && r < |s.reqs| && s.reqs[r].handle.WithCaller? && !Sends(s, r)
    requires result == s.reqs[r].result || (result == Init && s.reqs[r].result.Done?)
    ensures Inv(Leave(s, r, s.reqs[r].(result := result)))
  {
    var q := s.reqs[r].(phase := Gone, handle := Dropped, result := result);
    assert ReqOk(s, r);
    if Alive(s, q.home) {
      PushKeeps(s, q.home, DropHandle(r, q.id), r, q);
    } else {
      ReqKeeps(s, r, q);
    }
  }

  lemma LeaveKeeps(s: Sys, r: nat, act: Act)
    requires Inv(s) && ActEnabled(s, r, act) && (act.Return? || act.Abandon?)
    ensures Inv(DoAct(s, r, act))
  {
    var q := s.reqs[r];
    assert ReqOk(s, r);
    if q.handle.WithCaller? {
      HandleLeaves(s, r, if act.Return? then Init else q.result);
    } else if HasEasy(q) {
      ReqKeeps(s, r, q.(phase := Gone, at := Destroyed));
    } else {
      ReqKeeps(s, r, q.(phase := Gone, result := if act.Return? then Init else q.result));
    }
  }

  lemma UseKeeps(s: Sys, r: nat, act: Act)
    requires Inv(s) && ActEnabled(s, r, act) && (act.Ask? || act.Take? || act.ReadBody?)
    ensures Inv(DoAct(s, r, act))
  {
    var q := s.reqs[r];
    assert ReqOk(s, r);
    match act {
      case Ask =>
        if Alive(s, q.home) {
          PushKeeps(s, q.home, Query(r, q.id), r, q.(handle := InTask));
        } else {
          ReqKeeps(s, r, q.(handle := Dropped, phase := Gone));
        }
      case Take => ReqKeeps(s, r, q.(phase := Answered, handle := WithCaller));
      case ReadBody =>
        if Alive(s, q.home) {
          PushKeeps(s, q.home, UnpauseRecv(r, q.id), r, q.(result := Init));
        } else {
          ReqKeeps(s, r, q.(result := Init));
        }
      case _ =>
    }
  }

  lemma SenderKeeps(s: Sys, sender: Option<Sender>)
    requires Inv(s) && SenderOk(s.(sender := sender))
    ensures Inv(s.(sender := sender))
  {
    var t := s.(sender := sender);
    forall k | 0 <= k < |t.reqs| ensures ReqOk(t, k) {
      assert ReqOk(s, k);
    }
    forall k | 0 <= k < |t.loops| ensures LoopOk(t, k) {
      assert LoopOk(s, k);
      forall a | a in t.loops[k].tasks ensures TaskOk(t, k, a) {
        assert TaskOk(s, k, a);
      }
    }
  }

  lemma SendKeeps(s: Sys, r: nat, act: Act)
    requires Inv(s) && ActEnabled(s, r, act) && (act.BeginSend? || act.Send? || act.EndSend?)
    ensures Inv(DoAct(s, r, act))
  {
    var q := s.reqs[r];
    assert ReqOk(s, r);
    match act {
      case BeginSend =>
        assert LoopOk(s, q.home);
        SenderKeeps(s, Some(Sender(r, s.current.value, q.result.id)));
      case Send =>
        var task := UnpauseSend(r, q.id, q.handle.Dropped?);
        PushKeeps(s, q.home, task, r, q);
        assert SetReq(Push(s, q.home, task), r, q) == Push(s, q.home, task);
      case EndSend => SenderKeeps(s, None);
      case _ =>
    }
  }

  /** The loop thread has taken the first task off the queue. */
  function Popped(loop: Loop): Loop
    requires loop.tasks != []
  {
    loop.(tasks := loop.tasks[1..], taken := if loop.taken > 0 then loop.taken - 1 else 0)
  }

  lemma PopKeeps(s: Sys, l: nat, lastCall: bool)
    requires Inv(s) && l < |s.loops| && s.loops[l].stage.Draining? && s.loops[l].tasks != [] && s.loops[l].taken > 0
    requires !s.loops[l].tasks[0].Construct? && !s.loops[l].tasks[0].Query? && !s.loops[l].tasks[0].DropHandle?
    ensures Inv(SetLoop(s, l, Popped(s.loops[l]).(lastCall := lastCall)))
  {
    var t := SetLoop(s, l, Popped(s.loops[l]).(lastCall := lastCall));
    assert LoopOk(s, l);
    OrderedTail(s.loops[l].tasks);
    forall k | 0 <= k < |t.reqs| ensures ReqOk(t, k) {
      assert ReqOk(s, k);
      assert s.loops[l].tasks == [s.loops[l].tasks[0]] + s.loops[l].tasks[1..];
    }
    forall k | 0 <= k < |t.loops| ensures LoopOk(t, k) {
      assert LoopOk(s, k);
      forall a | a in t.loops[k].tasks ensures TaskOk(t, k, a) {
        assert a in s.loops[k].tasks;
        assert TaskOk(s, k, a);
      }
    }
  }

  /** The first task's easy is the one behind its token, unless the task is a late unpause: that one's easy is gone. */
  lemma HeadFindsItsEasy(s: Sys, l: nat)
    requires Inv(s) && l < |s.loops| && s.loops[l].Held() && s.loops[l].tasks != []
    requires !s.loops[l].tasks[0].Construct? && !s.loops[l].tasks[0].Shutdown?
    ensures var task := s.loops[l].tasks[0];
      && task.r < |s.reqs| && s.reqs[task.r].home == l && s.reqs[task.r].id == task.id
      && (s.reqs[task.r].at == Slabbed(l, task.id) <==> !(task.UnpauseSend? && task.late))
      && (task.id in s.loops[l].slab && s.loops[l].slab[task.id] == task.r <==>
          s.reqs[task.r].at == Slabbed(l, task.id))
  {
    var task := s.loops[l].tasks[0];
    assert LoopOk(s, l);
    assert task in s.loops[l].tasks;
    assert TaskOk(s, l, task);
    assert ReqOk(s, task.r);
    OrderedTail(s.loops[l].tasks);
    if task.UnpauseSend? && task.late {
      assert DropHandle(task.r, task.id) !in s.loops[l].tasks;
    }
  }

  /** The easy of the first task, a `ConstructHandle`, is queued here and nowhere named otherwise. */
  lemma ConstructStandsAlone(s: Sys, l: nat)
    requires Inv(s) && l < |s.loops| && s.loops[l].tasks != [] && s.loops[l].tasks[0].Construct?
    ensures var r := s.loops[l].tasks[0].r;
      && r < |s.reqs| && s.reqs[r].at == Queued(l) && ReqOk(s, r)
      && (forall a | a in s.loops[l].tasks[1..] && !a.Shutdown? :: a.r != r)
      && Ordered(s.loops[l].tasks[1..])
  {
    assert LoopOk(s, l);
    assert s.loops[l].tasks[0] in s.loops[l].tasks;
    assert TaskOk(s, l, s.loops[l].tasks[0]);
    assert ReqOk(s, s.loops[l].tasks[0].r);
    OrderedTail(s.loops[l].tasks);
  }

  lemma ConstructKeepsReq(s: Sys, l: nat, token: nat, ok: bool, k: nat)
    requires Inv(s) && MoveEnabled(s, l, Move.Task(token, ok)) && s.loops[l].tasks[0].Construct? && k < |s.reqs|
    ensures |Work(s, l, token, ok).reqs| == |s.reqs| && ReqOk(Work(s, l, token, ok), k)
  {
    ConstructStandsAlone(s, l);
    assert ReqOk(s, k);
    assert s.loops[l].tasks == [s.loops[l].tasks[0]] + s.loops[l].tasks[1..];
    hide Inv;
  }

  lemma ConstructKeepsLoop(s: Sys, l: nat, token: nat, ok: bool, k: nat)
    requires Inv(s) && MoveEnabled(s, l, Move.Task(token, ok)) && s.loops[l].tasks[0].Construct? && k < |s.loops|
    ensures |Work(s, l, token, ok).loops| == |s.loops| && LoopOk(Work(s, l, token, ok), k)
  {
    var t := Work(s, l, token, ok);
    ConstructStandsAlone(s, l);
    assert LoopOk(s, k);
    hide Inv;
    forall a | a in t.loops[k].tasks ensures TaskOk(t, k, a) {
      assert a in s.loops[k].tasks;
      assert TaskOk(s, k, a);
    }
  }

  lemma ConstructKeeps(s: Sys, l: nat, token: nat, ok: bool)
    requires Inv(s) && MoveEnabled(s, l, Move.Task(token, ok)) && s.loops[l].tasks[0].Construct?
    ensures Inv(Work(s, l, token, ok))
  {
    ConstructStandsAlone(s, l);
    var t := Work(s, l, token, ok);
    assert t.current == s.current;
    hide ReqOk, LoopOk, Work;
    forall k | 0 <= k < |t.reqs| ensures ReqOk(t, k) {
      if k < |s.reqs| {
        ConstructKeepsReq(s, l, token, ok, k);
      }
    }
    forall k | 0 <= k < |t.loops| ensures LoopOk(t, k) {
      if k < |s.loops| {
        ConstructKeepsLoop(s, l, token, ok, k);
      }
    }
  }

  /** The loop thread performs the first task, which is its request's own: the request becomes `q`, the slab `slab`,
      and `extra` goes behind the other tasks. */
  function Performed(s: Sys, l: nat, q: Req, slab: map<nat, nat>, extra: seq<Task>): Sys
    requires l < |s.loops| && s.loops[l].tasks != [] && !s.loops[l].tasks[0].Shutdown?
  {
    var loop := Popped(s.loops[l]);
    SetReq(SetLoop(s, l, loop.(slab := slab, tasks := loop.tasks + extra)), s.loops[l].tasks[0].r, q)
  }

  predicate PerformAllowed(s: Sys, l: nat, q: Req, slab: map<nat, nat>, extra: seq<Task>) {
    && l < |s.loops| && s.loops[l].stage.Draining? && s.loops[l].taken > 0 && s.loops[l].tasks != []
    && (s.loops[l].tasks[0].Query? || s.loops[l].tasks[0].DropHandle?)
    && var task := s.loops[l].tasks[0];
       var t := Performed(s, l, q, slab, extra);
       && task.r < |s.reqs| && !q.handle.NoHandle? && q.phase == s.reqs[task.r].phase
       && q.home == s.reqs[task.r].home && q.id == s.reqs[task.r].id
       && (slab == s.loops[l].slab || (slab == s.loops[l].slab - {task.id} && q.at == Destroyed))
       && (slab == s.loops[l].slab ==> q.at == s.reqs[task.r].at)
       && Ordered(t.loops[l].tasks) && ReqOk(t, task.r)
       && (forall a | a in t.loops[l].tasks && !a.Shutdown? && a.r == task.r :: TaskOk(t, l, a))
       && (forall a | a in extra :: a.DropHandle? && a.r == task.r)
  }

  lemma PerformKeepsReq(s: Sys, l: nat, q: Req, slab: map<nat, nat>, extra: seq<Task>, k: nat)
    requires Inv(s) && PerformAllowed(s, l, q, slab, extra) && k < |s.reqs|
    ensures ReqOk(Performed(s, l, q, slab, extra), k)
  {
    if k != s.loops[l].tasks[0].r {
      HeadFindsItsEasy(s, l);
      assert ReqOk(s, k);
      assert s.loops[l].tasks == [s.loops[l].tasks[0]] + s.loops[l].tasks[1..];
      hide Inv;
    }
  }

  lemma PerformKeepsLoop(s: Sys, l: nat, q: Req, slab: map<nat, nat>, extra: seq<Task>, k: nat)
    requires Inv(s) && PerformAllowed(s, l, q, slab, extra) && k < |s.loops|
    ensures LoopOk(Performed(s, l, q, slab, extra), k)
  {
    var t := Performed(s, l, q, slab, extra);
    HeadFindsItsEasy(s, l);
    assert LoopOk(s, l) && LoopOk(s, k);
    assert ReqOk(s, s.loops[l].tasks[0].r);
    hide Inv;
    forall a | a in t.loops[k].tasks ensures TaskOk(t, k, a) {
      if a in s.loops[k].tasks {
        assert TaskOk(s, k, a);
      }
    }
  }

  lemma PerformKeeps(s: Sys, l: nat, q: Req, slab: map<nat, nat>, extra: seq<Task>)
    requires Inv(s) && PerformAllowed(s, l, q, slab, extra)
    ensures Inv(Performed(s, l, q, slab, extra))
  {
    var t := Performed(s, l, q, slab, extra);
    assert SenderOk(t) && t.current == s.current && |t.loops| == |s.loops| && |t.reqs| == |s.reqs|;
    hide ReqOk, LoopOk, PerformAllowed, Performed;
    forall k | 0 <= k < |t.reqs| ensures ReqOk(t, k) {
      PerformKeepsReq(s, l, q, slab, extra, k);
    }
    forall k | 0 <= k < |t.loops| ensures LoopOk(t, k) {
      PerformKeepsLoop(s, l, q, slab, extra, k);
    }
  }

  /** The first task, a query, is its request's only one, and no `DropHandle` of the request is queued. */
  lemma QueryIsAlone(s: Sys, l: nat)
    requires Inv(s) && l < |s.loops| && s.loops[l].Held() && s.loops[l].tasks != [] && s.loops[l].tasks[0].Query?
    ensures s.loops[l].tasks[0].r < |s.reqs| && s.reqs[s.loops[l].tasks[0].r].handle.InTask?
    ensures forall a | a in s.loops[l].tasks[1..] && !a.Shutdown? && a.r == s.loops[l].tasks[0].r ::
              !a.Query? && !a.DropHandle? && !(a.UnpauseSend? && a.late) && TaskOk(s, l, a)
    ensures Ordered(s.loops[l].tasks[1..])
  {
    assert LoopOk(s, l);
    assert s.loops[l].tasks[0] in s.loops[l].tasks;
    assert TaskOk(s, l, s.loops[l].tasks[0]);
    OrderedTail(s.loops[l].tasks);
    forall a | a in s.loops[l].tasks[1..] ensures TaskOk(s, l, a) {
      assert a in s.loops[l].tasks;
    }
  }

  /** An answered query moves the handle into the response. */
  lemma AnswerKeeps(s: Sys, l: nat, token: nat)
    requires Inv(s) && MoveEnabled(s, l, Move.Task(token, true)) && s.loops[l].tasks[0].Query?
    ensures Inv(Work(s, l, token, true))
  {
    var task := s.loops[l].tasks[0];
    HeadFindsItsEasy(s, l);
    QueryIsAlone(s, l);
    assert ReqOk(s, task.r);
    var q := s.reqs[task.r].(handle := InResponse);
    assert s.loops[l].tasks[1..] + [] == s.loops[l].tasks[1..];
    assert Work(s, l, token, true) == Performed(s, l, q, s.loops[l].slab, []);
    PerformKeeps(s, l, q, s.loops[l].slab, []);
  }

  /** One that fails drops it, which puts its `DropHandle` behind everything the request has queued so far. */
  lemma FailedQueryKeeps(s: Sys, l: nat, token: nat)
    requires Inv(s) && MoveEnabled(s, l, Move.Task(token, false)) && s.loops[l].tasks[0].Query?
    ensures Inv(Work(s, l, token, false))
  {
    var task, rest := s.loops[l].tasks[0], s.loops[l].tasks[1..];
    HeadFindsItsEasy(s, l);
    QueryIsAlone(s, l);
    assert ReqOk(s, task.r);
    var q := s.reqs[task.r].(result := Done(false, task.id), handle := Dropped);
    var extra := [DropHandle(task.r, task.id)];
    OrderedPush(rest, DropHandle(task.r, task.id));
    assert Work(s, l, token, false) == Performed(s, l, q, s.loops[l].slab, extra);
    PerformKeeps(s, l, q, s.loops[l].slab, extra);
  }

  /** Behind the first task, a `DropHandle`, its request has only late unpauses. */
  lemma DropHandleIsLast(s: Sys, l: nat)
    requires Inv(s) && l < |s.loops| && s.loops[l].Held() && s.loops[l].tasks != [] && s.loops[l].tasks[0].DropHandle?
    ensures var task := s.loops[l].tasks[0];
      && task.r < |s.reqs| && s.reqs[task.r].handle.Dropped?
      && (forall a | a in s.loops[l].tasks[1..] && !a.Shutdown? && a.r == task.r ::
          a.UnpauseSend? && a.late && TaskOk(s, l, a))
    ensures Ordered(s.loops[l].tasks[1..])
  {
    assert LoopOk(s, l);
    assert s.loops[l].tasks[0] in s.loops[l].tasks;
    assert TaskOk(s, l, s.loops[l].tasks[0]);
    OrderedTail(s.loops[l].tasks);
    forall a | a in s.loops[l].tasks[1..] ensures TaskOk(s, l, a) {
      assert a in s.loops[l].tasks;
    }
  }

  lemma DropHandleKeeps(s: Sys, l: nat, token: nat, ok: bool)
    requires Inv(s) && MoveEnabled(s, l, Move.Task(token, ok)) && s.loops[l].tasks[0].DropHandle?
    ensures Inv(Work(s, l, token, ok))
  {
    var task := s.loops[l].tasks[0];
    HeadFindsItsEasy(s, l);
    DropHandleIsLast(s, l);
    assert ReqOk(s, task.r);
    var q, slab := s.reqs[task.r].(at := Destroyed), s.loops[l].slab - {task.id};
    assert s.loops[l].tasks[1..] + [] == s.loops[l].tasks[1..];
    assert Work(s, l, token, ok) == Performed(s, l, q, slab, []);
    PerformKeeps(s, l, q, slab, []);
  }

  /** A failed unpause reports to whichever request its token names. */
  lemma UnpauseKeeps(s: Sys, l: nat, token: nat, ok: bool)
    requires Inv(s) && MoveEnabled(s, l, Move.Task(token, ok))
    requires s.loops[l].tasks[0].UnpauseRecv? || s.loops[l].tasks[0].UnpauseSend?
    ensures Inv(Work(s, l, token, ok))
  {
    var task := s.loops[l].tasks[0];
    PopKeeps(s, l, s.loops[l].lastCall);
    var u := SetLoop(s, l, Popped(s.loops[l]).(lastCall := s.loops[l].lastCall));
    if !ok && task.id in s.loops[l].slab {
      ReportKeeps(u, l, task.id, Done(false, task.id), false);
    }
  }

  /** The last reference to a queue goes, leaving `loop`. */
  predicate LastReference(s: Sys, l: nat, loop: Loop) {
    && l < |s.loops| && (s.loops[l].stage.Leaving? || !s.loops[l].Held())
    && !loop.Alive() && loop.tasks == s.loops[l].tasks && loop.slab == s.loops[l].slab && loop.taken == 0
    && (loop.stage.Torn? ==> loop.slab == map[])
  }

  lemma OnlyQueuedOrAskingReturn(s: Sys, l: nat, r: nat)
    requires Inv(s) && l < |s.loops| && r < |s.reqs|
    ensures Construct(r) in s.loops[l].tasks <==> s.reqs[r].at == Queued(l)
    ensures Query(r, s.reqs[r].id) in s.loops[l].tasks ==> s.reqs[r].handle.InTask? && s.reqs[r].home == l
  {
    assert ReqOk(s, r);
    assert LoopOk(s, l);
    if Construct(r) in s.loops[l].tasks {
      assert TaskOk(s, l, Construct(r));
    }
    if Query(r, s.reqs[r].id) in s.loops[l].tasks {
      assert TaskOk(s, l, Query(r, s.reqs[r].id));
    }
  }

  lemma LastReferenceReq(s: Sys, l: nat, loop: Loop, k: nat)
    requires Inv(s) && LastReference(s, l, loop) && k < |s.reqs|
    ensures ReqOk(DropInner(SetLoop(s, l, loop), l), k)
  {
    assert ReqOk(s, k);
    assert LoopOk(s, l);
    OnlyQueuedOrAskingReturn(s, l, k);
    hide Inv, LoopOk;
  }

  lemma LastReferenceLoop(s: Sys, l: nat, loop: Loop, k: nat)
    requires Inv(s) && LastReference(s, l, loop) && k < |s.loops|
    ensures LoopOk(DropInner(SetLoop(s, l, loop), l), k)
  {
    var t := DropInner(SetLoop(s, l, loop), l);
    assert LoopOk(s, k) && LoopOk(s, l);
    forall r | 0 <= r < |s.reqs| ensures s.reqs[r].at != t.reqs[r].at ==> s.reqs[r].at == Queued(l) {
      OnlyQueuedOrAskingReturn(s, l, r);
    }
    if k != l {
      forall a | a in t.loops[k].tasks ensures TaskOk(t, k, a) {
        assert TaskOk(s, k, a);
        if !a.Shutdown? {
          assert ReqOk(s, a.r);
          OnlyQueuedOrAskingReturn(s, l, a.r);
        }
      }
    }
  }

  /** Its easies go back to their requests, and its handles are dropped. */
  lemma LastReferenceKeeps(s: Sys, l: nat, loop: Loop)
    requires Inv(s) && LastReference(s, l, loop)
    ensures Inv(DropInner(SetLoop(s, l, loop), l))
  {
    hide ReqOk, LoopOk;
    var t := DropInner(SetLoop(s, l, loop), l);
    forall k | 0 <= k < |t.reqs| ensures ReqOk(t, k) {
      LastReferenceReq(s, l, loop, k);
    }
    forall k | 0 <= k < |t.loops| ensures LoopOk(t, k) {
      LastReferenceLoop(s, l, loop, k);
    }
  }

  lemma TearKeepsReq(s: Sys, l: nat, k: nat)
    requires Inv(s) && MoveEnabled(s, l, Tear) && k < |s.reqs|
    ensures ReqOk(TearDown(s, l), k)
  {
    assert ReqOk(s, k) && LoopOk(s, l);
    if k in s.loops[l].slab.Values {
      var token :| token in s.loops[l].slab && s.loops[l].slab[token] == k;
      assert s.reqs[k].at == Slabbed(l, token);
    }
    hide Inv, LoopOk;
  }

  lemma TearKeepsLoop(s: Sys, l: nat, k: nat)
    requires Inv(s) && MoveEnabled(s, l, Tear) && k < |s.loops|
    ensures LoopOk(TearDown(s, l), k)
  {
    var t := TearDown(s, l);
    assert LoopOk(s, k) && LoopOk(s, l);
    forall a | a in t.loops[k].tasks ensures TaskOk(t, k, a) {
      assert TaskOk(s, k, a);
      if !a.Shutdown? && a.r in s.loops[l].slab.Values {
        var token :| token in s.loops[l].slab && s.loops[l].slab[token] == a.r;
        assert s.reqs[a.r].at == Slabbed(l, token);
        assert ReqOk(s, a.r);
      }
    }
    assert SlabOk(t, k) by {
      forall token | token in t.loops[k].slab
        ensures t.loops[k].slab[token] < |t.reqs| && t.reqs[t.loops[k].slab[token]].at == Slabbed(k, token)
      {
        assert s.reqs[s.loops[k].slab[token]].at == Slabbed(k, token);
      }
    }
  }

  lemma TearKeeps(s: Sys, l: nat)
    requires Inv(s) && MoveEnabled(s, l, Tear)
    ensures Inv(TearDown(s, l))
  {
    hide ReqOk, LoopOk;
    var t := TearDown(s, l);
    forall k | 0 <= k < |t.reqs| ensures ReqOk(t, k) {
      TearKeepsReq(s, l, k);
    }
    forall k | 0 <= k < |t.loops| ensures LoopOk(t, k) {
      TearKeepsLoop(s, l, k);
    }
  }

  lemma ReferenceKeeps(s: Sys, l: nat, move: Move)
    requires Inv(s) && MoveEnabled(s, l, move) && (move.Grab? || move.Let? || move.Release?)
    ensures Inv(DoMove(s, l, move))
  {
    var loop := s.loops[l];
    assert LoopOk(s, l);
    match move {
      case Grab => StageKeeps(s, l, loop.(grips := loop.grips + 1));
      case Let =>
        var fewer := loop.(grips := loop.grips - 1);
        if fewer.Alive() {
          StageKeeps(s, l, fewer);
        } else {
          LastReferenceKeeps(s, l, fewer);
        }
      case Release =>
        var released := loop.(stage := Released);
        if released.Alive() {
          StageKeeps(s, l, released);
        } else {
          LastReferenceKeeps(s, l, released);
        }
      case _ =>
    }
  }

  /** A token that is looked up in the slab has its own request's result overwritten. */
  lemma ReportKeeps(s: Sys, l: nat, token: nat, result: Result, reported: bool)
    requires Inv(s) && l < |s.loops| && token in s.loops[l].slab
    requires result.Done? && result.id == token && (result.ok ==> reported)
    ensures var r := s.loops[l].slab[token];
      r < |s.reqs| &&
      var q := s.reqs[r]; Inv(SetReq(s, r, q.(result := result, reported := q.reported || reported)))
  {
    assert LoopOk(s, l);
    var r := s.loops[l].slab[token];
    assert s.reqs[r].at == Slabbed(l, token);
    assert ReqOk(s, r);
    ReqKeeps(s, r, s.reqs[r].(result := result, reported := s.reqs[r].reported || reported));
  }

  lemma FailOneKeeps(s: Sys, l: nat, token: nat)
    requires Inv(s) && MoveEnabled(s, l, FailOne(token))
    ensures Inv(DoMove(s, l, FailOne(token)))
  {
    var loop := s.loops[l];
    var r := loop.slab[token];
    ReportKeeps(s, l, token, Done(false, token), false);
    var u := if s.reqs[r].result.Done? then s else SetResult(s, r, Done(false, token));
    var next := loop.(stage := Failing(loop.stage.todo - {token}));
    assert LoopOk(s, l);
    forall k | 0 <= k < |u.reqs| && u.reqs[k].at.Slabbed? && u.reqs[k].at.l == l && !next.Busy(u.reqs[k].at.token)
      ensures u.loops[l].Busy(u.reqs[k].at.token) ==> !u.reqs[k].result.InProgress?
    {
      assert ReqOk(u, k);
    }
    StageKeeps(u, l, next);
    assert DoMove(s, l, FailOne(token)) == SetLoop(u, l, next);
  }

  lemma RoundKeeps(s: Sys, l: nat, move: Move)
    requires Inv(s) && MoveEnabled(s, l, move)
    requires move.Swap? || move.Perform? || move.Break? || move.EndRound?
    ensures Inv(DoMove(s, l, move))
  {
    var loop := s.loops[l];
    assert LoopOk(s, l);
    match move {
      case Swap => StageKeeps(s, l, loop.(stage := Draining, taken := |loop.tasks|));
      case Perform(ok) =>
        var next := loop.(stage := if ok then Reporting else Failing(loop.slab.Keys));
        forall k | 0 <= k < |s.reqs| && s.reqs[k].at.Slabbed? && s.reqs[k].at.l == l
            ensures next.Busy(s.reqs[k].at.token) {
          assert ReqOk(s, k);
        }
        StageKeeps(s, l, next);
      case Break => StageKeeps(s, l, loop.(stage := Leaving(true)));
      case EndRound =>
        if loop.slab == map[] && loop.lastCall {
          forall k | 0 <= k < |s.reqs| ensures !(s.reqs[k].at.Slabbed? && s.reqs[k].at.l == l) {
            assert ReqOk(s, k);
          }
          StageKeeps(s, l, loop.(stage := Leaving(false)));
        } else {
          StageKeeps(s, l, loop.(stage := Polling, lastCall := loop.lastCall || loop.slab == map[]));
        }
      case _ =>
    }
  }

  lemma TaskKeeps(s: Sys, l: nat, token: nat, ok: bool)
    requires Inv(s) && MoveEnabled(s, l, Move.Task(token, ok))
    ensures Inv(Work(s, l, token, ok))
  {
    var loop := s.loops[l];
    match loop.tasks[0] {
      case Construct(_) => ConstructKeeps(s, l, token, ok);
      case Query(_, _) =>
        if ok {
          AnswerKeeps(s, l, token);
        } else {
          FailedQueryKeeps(s, l, token);
        }
      case DropHandle(_, _) => DropHandleKeeps(s, l, token, ok);
      case Shutdown => PopKeeps(s, l, true);
      case _ => UnpauseKeeps(s, l, token, ok);
    }
  }

  lemma MoveKeeps(s: Sys, l: nat, move: Move)
    requires Inv(s) && MoveEnabled(s, l, move)
    ensures Inv(DoMove(s, l, move))
  {
    match move {
      case Task(token, ok) => TaskKeeps(s, l, token, ok);
      case FailOne(token) => FailOneKeeps(s, l, token);
      case Message(token, ok) => ReportKeeps(s, l, token, Done(ok, token), true);
      case Tear => TearKeeps(s, l);
      case Grab => ReferenceKeeps(s, l, move);
      case Let => ReferenceKeeps(s, l, move);
      case Release => ReferenceKeeps(s, l, move);
      case _ => RoundKeeps(s, l, move);
    }
  }

  lemma StepKeeps(s: Sys, e: Event)
    requires Inv(s) && Enabled(s, e)
    ensures Inv(Apply(s, e))
  {
    match e {
      case NewRequest => NewRequestKeeps(s);
      case Close => CloseKeeps(s);
      case Thread(l, move) => MoveKeeps(s, l, move);
      case Client(r, act) =>
        if act.Choose? || act.Submit? || act.Collect? || act.Renew? {
          StartKeeps(s, r, act);
        } else if act.BeginSend? || act.Send? || act.EndSend? {
          SendKeeps(s, r, act);
        } else if act.Return? || act.Abandon? {
          LeaveKeeps(s, r, act);
        } else {
          UseKeeps(s, r, act);
        }
    }
  }

  lemma {:induction false} RunKeeps(s: Sys, events: seq<Event>, t: Sys)
    requires Inv(s) && Run(s, events, t)
    ensures Inv(t)
    decreases |events|
  {
    if events != [] {
      StepKeeps(s, events[0]);
      RunKeeps(Apply(s, events[0]), events[1..], t);
    }
  }
}
