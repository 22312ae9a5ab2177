/** The shared state as clients and the loop thread change it: dispatch, and the loops over tasks, slab and queue. */
module CurlLoopThread {
  import opened Bytes
  import opened CurlLoop

  /** What stands outside the model for one task: where the slab starts to look for a vacant key, and curl's answer. */
  datatype Answer = Answer(hint: nat, ok: bool)

  function KeysFrom(slab: map<nat, nat>, n: nat): set<nat> {
    set k | k in slab && k >= n
  }

  /** A vacant key; with the right hint, any vacant key. */
  function Vacant(slab: map<nat, nat>, n: nat): (k: nat)
    ensures k !in slab && (n !in slab ==> k == n)
    decreases |KeysFrom(slab, n)|
  {
    if n !in slab then n
    else
      assert KeysFrom(slab, n) == KeysFrom(slab, n + 1) + {n};
      Vacant(slab, n + 1)
  }

  /** The loop over what the thread has swapped out: one `Task` step after the other. */
  function Drained(s: Sys, l: nat, answers: nat -> Answer, i: nat): Sys
    requires l < |s.loops| && s.loops[l].stage.Draining? && s.loops[l].taken <= |s.loops[l].tasks|
    decreases s.loops[l].taken
  {
    if s.loops[l].taken == 0 then s
    else Drained(Work(s, l, Vacant(s.loops[l].slab, answers(i).hint), answers(i).ok), l, answers, i + 1)
  }

  lemma WorkPops(s: Sys, l: nat, token: nat, ok: bool)
    requires MoveEnabled(s, l, Move.Task(token, ok))
    ensures var t := Work(s, l, token, ok);
      && |t.loops| == |s.loops| && t.loops[l].stage == s.loops[l].stage
      && t.loops[l].taken == s.loops[l].taken - 1 && t.loops[l].taken <= |t.loops[l].tasks|
  {
  }

  /** Draining is a run of the machine, and takes exactly the tasks that were swapped out. */
  lemma {:induction false} DrainedIsARun(s: Sys, l: nat, answers: nat -> Answer, i: nat)
    requires l < |s.loops| && s.loops[l].stage.Draining? && s.loops[l].taken <= |s.loops[l].tasks|
    ensures exists events :: Run(s, events, Drained(s, l, answers, i)) && |events| == s.loops[l].taken
    ensures var t := Drained(s, l, answers, i);
      |t.loops| == |s.loops| && t.loops[l].taken == 0 && t.loops[l].stage.Draining?
    decreases s.loops[l].taken
  {
    hide Work;
    if s.loops[l].taken == 0 {
      assert Run(s, [], s);
    } else {
      var move := Move.Task(Vacant(s.loops[l].slab, answers(i).hint), answers(i).ok);
      var next := Work(s, l, move.token, move.ok);
      WorkPops(s, l, move.token, move.ok);
      DrainedIsARun(next, l, answers, i + 1);
      var events :| Run(next, events, Drained(s, l, answers, i)) && |events| == next.loops[l].taken;
      var longer := [Thread(l, move)] + events;
      assert longer[1..] == events;
      assert Run(s, longer, Drained(s, l, answers, i));
    }
  }

  /** Each request in the slab that has no result is given the error. */
  function FailedAll(s: Sys, l: nat, tokens: seq<nat>): (t: Sys)
    requires l < |s.loops|
    ensures t.loops == s.loops
    decreases |tokens|
  {
    if tokens == [] then s else FailedAll(FailedOne(s, l, tokens[0]), l, tokens[1..])
  }

  /** One of these tokens is the request's in the slab. */
  predicate Named(s: Sys, l: nat, tokens: seq<nat>, token: nat, r: nat)
    requires l < |s.loops|
  {
    token in tokens && token in s.loops[l].slab && s.loops[l].slab[token] == r
  }

  /** Afterwards every request behind one of the tokens that had no result has the error under a token of its own, and
      nothing else is changed. */
  lemma {:induction false} FailedAllAnswers(s: Sys, l: nat, tokens: seq<nat>)
    requires l < |s.loops|
    ensures var t := FailedAll(s, l, tokens);
      && |t.reqs| == |s.reqs| && t == s.(reqs := t.reqs)
      && forall r | 0 <= r < |s.reqs| ::
           if !s.reqs[r].result.Done? && exists token :: Named(s, l, tokens, token, r) then
             exists token :: Named(s, l, tokens, token, r) && t.reqs[r] == s.reqs[r].(result := Done(false, token))
           else t.reqs[r] == s.reqs[r]
    decreases |tokens|
  {
    if tokens != [] {
      var first := tokens[0];
      var u := FailedOne(s, l, first);
      var t := FailedAll(s, l, tokens);
      FailedAllAnswers(u, l, tokens[1..]);
      assert tokens == [first] + tokens[1..];
      forall r | 0 <= r < |s.reqs|
        ensures
          if !s.reqs[r].result.Done? && exists token :: Named(s, l, tokens, token, r) then
            exists token :: Named(s, l, tokens, token, r) && t.reqs[r] == s.reqs[r].(result := Done(false, token))
          else t.reqs[r] == s.reqs[r]
      {
        assert forall token :: Named(s, l, tokens, token, r) <==>
          Named(u, l, tokens[1..], token, r) || (token == first && Named(s, l, [first], first, r));
        if Named(s, l, [first], first, r) && !s.reqs[r].result.Done? {
          assert Named(s, l, tokens, first, r);
          assert u.reqs[r] == s.reqs[r].(result := Done(false, first));
        } else {
          assert u.reqs[r] == s.reqs[r];
        }
      }
    }
  }

  function FailedOne(s: Sys, l: nat, token: nat): (t: Sys)
    requires l < |s.loops|
    ensures t.loops == s.loops
  {
    if token in s.loops[l].slab && s.loops[l].slab[token] < |s.reqs| && !s.reqs[s.loops[l].slab[token]].result.Done?
    then SetResult(s, s.loops[l].slab[token], Done(false, token)) else s
  }

  function InStage(s: Sys, l: nat, stage: Stage): Sys
    requires l < |s.loops|
  {
    SetLoop(s, l, s.loops[l].(stage := stage))
  }

  predicate OnlyFailOnes(events: seq<Event>, l: nat) {
    forall e | e in events :: e.Thread? && e.l == l && e.move.FailOne?
  }

  /** Handing out the error is a run of the machine, one `FailOne` for each token. */
  lemma {:induction false} FailingIsARun(s: Sys, l: nat, tokens: seq<nat>)
    requires l < |s.loops| && s.loops[l].stage.Failing? && s.loops[l].stage.todo == (set t | t in tokens)
    requires forall token | token in tokens :: token in s.loops[l].slab
    requires forall i, j | 0 <= i < j < |tokens| :: tokens[i] != tokens[j]
    ensures exists events ::
              Run(s, events, InStage(FailedAll(s, l, tokens), l, Failing({}))) && |events| == |tokens| &&
              OnlyFailOnes(events, l)
    decreases |tokens|
  {
    if tokens == [] {
      assert (set t | t in tokens) == {} && s.loops[l := s.loops[l]] == s.loops;
      assert InStage(s, l, Failing({})) == s;
      assert Run(s, [], s);
    } else {
      var first, rest, todo := tokens[0], tokens[1..], s.loops[l].stage.todo - {tokens[0]};
      var e := Thread(l, FailOne(first));
      var u := InStage(FailedOne(s, l, first), l, Failing(todo));
      OneIsFailed(s, l, first);
      RestIsToDo(tokens);
      FailingIsARun(u, l, rest);
      var v := InStage(FailedAll(s, l, tokens), l, Failing({}));
      StageIsNotRead(FailedOne(s, l, first), l, rest, Failing(todo));
      StageIsSet(FailedAll(s, l, tokens), l, Failing(todo), Failing({}));
      hide Apply, Enabled, FailedOne, InStage;
      var events :| Run(u, events, v) && |events| == |rest| && OnlyFailOnes(events, l);
      var longer := [e] + events;
      assert longer[1..] == events;
      assert Run(s, longer, v) && OnlyFailOnes(longer, l);
    }
  }

  lemma RestIsToDo(tokens: seq<nat>)
    requires tokens != [] && forall i, j | 0 <= i < j < |tokens| :: tokens[i] != tokens[j]
    ensures (set t | t in tokens) - {tokens[0]} == (set t | t in tokens[1..])
    ensures tokens[0] in (set t | t in tokens) && forall t | t in tokens[1..] :: t in tokens
  {
    assert tokens == [tokens[0]] + tokens[1..];
  }

  lemma OneIsFailed(s: Sys, l: nat, token: nat)
    requires l < |s.loops| && s.loops[l].stage.Failing? && token in s.loops[l].stage.todo && token in s.loops[l].slab
    ensures Enabled(s, Thread(l, FailOne(token)))
    ensures Apply(s, Thread(l, FailOne(token))) ==
            InStage(FailedOne(s, l, token), l, Failing(s.loops[l].stage.todo - {token}))
  {
  }

  lemma StageIsSet(s: Sys, l: nat, first: Stage, second: Stage)
    requires l < |s.loops|
    ensures InStage(InStage(s, l, first), l, second) == InStage(s, l, second)
  {
    assert s.loops[l := s.loops[l].(stage := first)][l := s.loops[l].(stage := second)] ==
           s.loops[l := s.loops[l].(stage := second)];
  }

  lemma {:induction false} StageIsNotRead(s: Sys, l: nat, tokens: seq<nat>, stage: Stage)
    requires l < |s.loops|
    ensures FailedAll(InStage(s, l, stage), l, tokens) == InStage(FailedAll(s, l, tokens), l, stage)
    decreases |tokens|
  {
    if tokens != [] {
      var u := FailedOne(s, l, tokens[0]);
      assert FailedOne(InStage(s, l, stage), l, tokens[0]) == InStage(u, l, stage);
      StageIsNotRead(u, l, tokens[1..], stage);
    }
  }

  /** So a round that fails is a run of the machine: its requests without a result are given the error, and the loop
      leaves. */
  lemma FailedRoundIsARun(s: Sys, l: nat, tokens: seq<nat>)
    requires MoveEnabled(s, l, Perform(false)) && s.loops[l].slab.Keys == (set t | t in tokens)
    requires forall i, j | 0 <= i < j < |tokens| :: tokens[i] != tokens[j]
    ensures exists events :: Run(s, events, InStage(FailedAll(s, l, tokens), l, Leaving(true)))
  {
    var keys := s.loops[l].slab.Keys;
    var u := InStage(s, l, Failing(keys));
    assert Apply(s, Thread(l, Perform(false))) == u;
    assert forall token | token in tokens :: token in keys;
    FailingIsARun(u, l, tokens);
    StageIsNotRead(s, l, tokens, Failing(keys));
    StageIsSet(FailedAll(s, l, tokens), l, Failing(keys), Failing({}));
    StageIsSet(FailedAll(s, l, tokens), l, Failing({}), Leaving(true));
    var v, w := InStage(FailedAll(s, l, tokens), l, Failing({})), InStage(FailedAll(s, l, tokens), l, Leaving(true));
    var events :| Run(u, events, v) && |events| == |tokens| && OnlyFailOnes(events, l);
    var leave := Thread(l, Break);
    assert Apply(v, leave) == w;
    hide Apply, Enabled, FailedAll, InStage;
    RunAppend(u, events, v, leave);
    var longer := [Thread(l, Perform(false))] + (events + [leave]);
    assert longer[1..] == events + [leave];
    assert Run(s, longer, w);
  }

  class SharedState {
    var loops: seq<Loop>
    var current: Option<nat>
    var reqs: seq<Req>
    var sender: Option<Sender>

    function View(): Sys
      reads this
    {
      Sys(loops, current, reqs, sender)
    }

    constructor ()
      ensures View() == START
    {
      loops, current, reqs, sender := [], None, [], None;
    }

    /** `dispatch_task`. */
    method DispatchTask(l: nat, task: Task) returns (sent: bool)
      modifies this`loops
      ensures sent <==> Alive(old(View()), l)
      ensures View() == if sent then Push(old(View()), l, task) else old(View())
    {
      sent := l < |loops| && loops[l].Alive();
      if sent {
        loops := loops[l := loops[l].Push(task)];
      }
    }

    /** One arm of the `match` in `run_loop`. */
    method RunTask(l: nat, token: nat, ok: bool)
      requires MoveEnabled(View(), l, Move.Task(token, ok))
      modifies this
      ensures View() == Work(old(View()), l, token, ok)
    {
      var task := loops[l].tasks[0];
      var loop := loops[l].(tasks := loops[l].tasks[1..], taken := loops[l].taken - 1);
      match task {
        case Construct(r) =>
          if r < |reqs| {
            loop := loop.(slab := loop.slab[token := r], lastCall := false);
            reqs := reqs[r := reqs[r].(result := InProgress(token), at := Slabbed(l, token))];
          }
        case Query(r, id) =>
          if r < |reqs| {
            if id in loop.slab && ok {
              reqs := reqs[r := reqs[r].(handle := InResponse)];
            } else {
              reqs := reqs[r := reqs[r].(result := Done(false, id), handle := Dropped)];
              loop := loop.Push(DropHandle(r, id));
            }
          }
        case UnpauseRecv(_, id) =>
          FailUnpause(loop.slab, id, ok);
        case UnpauseSend(_, id, _) =>
          FailUnpause(loop.slab, id, ok);
        case DropHandle(_, id) =>
          if id in loop.slab {
            var r := loop.slab[id];
            if r < |reqs| {
              reqs := reqs[r := reqs[r].(at := Destroyed)];
            }
          }
          loop := loop.(slab := loop.slab - {id});
        case Shutdown =>
          loop := loop.(lastCall := true);
      }
      loops := loops[l := loop];
    }

    method FailUnpause(slab: map<nat, nat>, id: nat, ok: bool)
      modifies this`reqs
      ensures View() == if id in slab && !ok then SetResult(old(View()), slab[id], Done(false, id)) else old(View())
    {
      if id in slab && !ok && slab[id] < |reqs| {
        reqs := reqs[slab[id] := reqs[slab[id]].(result := Done(false, id))];
      }
    }

    /** `for task in tasks.drain(..)`. */
    method DrainTasks(l: nat, answers: nat -> Answer)
      requires l < |loops| && loops[l].stage.Draining? && loops[l].taken <= |loops[l].tasks|
      modifies this
      ensures View() == Drained(old(View()), l, answers, 0)
      ensures l < |loops| && loops[l].taken == 0
    {
      hide Work;
      var i := 0;
      while loops[l].taken > 0
        invariant l < |loops| && loops[l].stage.Draining? && loops[l].taken <= |loops[l].tasks|
        invariant Drained(View(), l, answers, i) == Drained(old(View()), l, answers, 0)
        decreases loops[l].taken
      {
        WorkPops(View(), l, Vacant(loops[l].slab, answers(i).hint), answers(i).ok);
        RunTask(l, Vacant(loops[l].slab, answers(i).hint), answers(i).ok);
        i := i + 1;
      }
    }

    /** `for (id, ctx) in multi.iter_mut()`. */
    method FailAll(l: nat, tokens: seq<nat>)
      requires l < |loops|
      modifies this`reqs
      ensures View() == FailedAll(old(View()), l, tokens)
    {
      for i := 0 to |tokens|
        invariant FailedAll(View(), l, tokens[i..]) == FailedAll(old(View()), l, tokens)
      {
        assert tokens[i..][1..] == tokens[i + 1..];
        var token := tokens[i];
        if token in loops[l].slab {
          var r := loops[l].slab[token];
          if r < |reqs| && !reqs[r].result.Done? {
            reqs := reqs[r := reqs[r].(result := Done(false, token))];
          }
        }
      }
    }

    /** `LoopManagerInner::drop`: each queued easy goes back to its request; the other tasks are dropped, and with a
        queued query its handle. */
    method DropQueue(l: nat)
      requires l < |loops| && !loops[l].Alive()
      modifies this
      ensures View() == DropInner(old(View()), l)
    {
      var tasks := loops[l].tasks;
      for i := 0 to |tasks|
        invariant loops == old(loops) && current == old(current) && sender == old(sender) && |reqs| == |old(reqs)|
        invariant forall r | 0 <= r < |reqs| :: reqs[r] == Returned(old(reqs)[r], r, tasks[..i])
      {
        assert tasks[..i + 1] == tasks[..i] + [tasks[i]];
        match tasks[i] {
          case Construct(r) =>
            if r < |reqs| {
              reqs := reqs[r := reqs[r].(result := EasyLost, at := Lost)];
            }
          case Query(r, id) =>
            if r < |reqs| && reqs[r].id == id {
              reqs := reqs[r := reqs[r].(handle := Dropped)];
            }
          case _ =>
        }
      }
      assert tasks[..|tasks|] == tasks;
      assert reqs == DropInner(old(View()), l).reqs;
      loops := loops[l := loops[l].(tasks := [], taken := 0)];
    }
  }
}
