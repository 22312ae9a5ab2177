/** What single steps of the curl async loop do: where results come from, what is dispatched, when a loop leaves. */
module CurlLoopEffects {
  import opened Bytes
  import opened CurlLoop
  import opened CurlLoopSafety

  /** The request is the one behind the token in the loop's slab. */
  predicate Behind(s: Sys, l: nat, token: nat, r: nat) {
    l < |s.loops| && token in s.loops[l].slab && s.loops[l].slab[token] == r
  }

  /** The step reports to the request: its query or an unpause on its easy fails, its loop fails while it has no result,
      or curl reports the end of its transfer. */
  predicate Reports(s: Sys, e: Event, r: nat, ok: bool)
    requires Enabled(s, e) && r < |s.reqs|
  {
    match e
    case Thread(l, Task(_, answer)) =>
      var task := s.loops[l].tasks[0];
      !ok && !answer &&
      ((task.Query? && task.r == r) || ((task.UnpauseRecv? || task.UnpauseSend?) && Behind(s, l, task.id, r)))
    case Thread(l, FailOne(token)) => !ok && Behind(s, l, token, r) && !s.reqs[r].result.Done?
    case Thread(l, Message(token, answer)) => ok == answer && Behind(s, l, token, r)
    case _ => false
  }

  lemma ActReportsNothing(s: Sys, k: nat, act: Act, r: nat)
    requires Inv(s) && ActEnabled(s, k, act) && r < |s.reqs|
    ensures var t := DoAct(s, k, act);
      |t.reqs| == |s.reqs| && (t.reqs[r].result.Done? ==> t.reqs[r].result == s.reqs[r].result)
  {
    hide Inv;
    var t := DoAct(s, k, act);
    assert k != r ==> t.reqs[r] == s.reqs[r];
  }

  lemma TaskReports(s: Sys, l: nat, token: nat, answer: bool, r: nat)
    requires Inv(s) && MoveEnabled(s, l, Move.Task(token, answer)) && r < |s.reqs|
    ensures var e := Thread(l, Move.Task(token, answer));
      var t := Work(s, l, token, answer);
      && |t.reqs| == |s.reqs|
      && (Reports(s, e, r, false) ==> s.reqs[r].at.Slabbed? && t.reqs[r].result == Done(false, s.reqs[r].at.token))
      && (!Reports(s, e, r, false) ==> !t.reqs[r].result.Done? || t.reqs[r].result == s.reqs[r].result)
  {
    var task := s.loops[l].tasks[0];
    assert LoopOk(s, l) && TaskOk(s, l, task) && ReqOk(s, r);
    if !task.Construct? && !task.Shutdown? {
      HeadFindsItsEasy(s, l);
    }
    SlabbedUnder(s, l, if task.Construct? || task.Shutdown? then 0 else task.id, r);
    hide Inv, LoopOk;
  }

  lemma SlabbedUnder(s: Sys, l: nat, token: nat, r: nat)
    requires Inv(s) && r < |s.reqs|
    ensures Behind(s, l, token, r) ==> s.reqs[r].at == Slabbed(l, token)
  {
    if Behind(s, l, token, r) {
      assert LoopOk(s, l);
    }
  }

  lemma MoveReports(s: Sys, l: nat, move: Move, r: nat)
    requires Inv(s) && MoveEnabled(s, l, move) && r < |s.reqs| && !move.Task?
    ensures var e := Thread(l, move);
      var t := DoMove(s, l, move);
      && |t.reqs| == |s.reqs|
      && (forall ok | Reports(s, e, r, ok) ::
            s.reqs[r].at.Slabbed? && t.reqs[r].result == Done(ok, s.reqs[r].at.token))
      && (!Reports(s, e, r, true) && !Reports(s, e, r, false) ==>
            !t.reqs[r].result.Done? || t.reqs[r].result == s.reqs[r].result)
  {
    if move.FailOne? || move.Message? {
      SlabbedUnder(s, l, move.token, r);
    }
    hide Inv;
  }

  /** In every run, a step that reports leaves exactly what it reports, under the token of the request's easy; and no
      other step gives a request a result. */
  lemma ResultsAreReported(events: seq<Event>, s: Sys, e: Event, r: nat)
    requires Run(START, events, s) && Enabled(s, e) && r < |s.reqs|
    ensures var t := Apply(s, e);
      && r < |t.reqs|
      && (forall ok | Reports(s, e, r, ok) ::
            s.reqs[r].at.Slabbed? && t.reqs[r].result == Done(ok, s.reqs[r].at.token))
      && (!Reports(s, e, r, true) && !Reports(s, e, r, false) && t.reqs[r].result.Done? ==>
            t.reqs[r].result == s.reqs[r].result)
  {
    RunKeeps(START, events, s);
    match e {
      case Client(k, act) => ActReportsNothing(s, k, act, r);
      case Thread(l, Task(token, answer)) => TaskReports(s, l, token, answer, r);
      case Thread(l, move) => MoveReports(s, l, move, r);
      case _ =>
    }
    hide Inv, DoAct, DoMove;
  }

  /** The task that a client's step dispatches, and the loop whose queue takes it. */
  function Dispatched(s: Sys, e: Event): Option<(nat, Task)>
    requires Enabled(s, e) && !e.Thread?
  {
    match e
    case NewRequest => None
    case Close => Some((s.current.value, Shutdown))
    case Client(r, act) =>
      var q := s.reqs[r];
      match act
      case Submit =>
        if Alive(s, q.phase.l) && !s.loops[q.phase.l].stage.Torn? then Some((q.phase.l, Construct(r))) else None
      case Ask => if Alive(s, q.home) then Some((q.home, Query(r, q.id))) else None
      case ReadBody => if Alive(s, q.home) then Some((q.home, UnpauseRecv(r, q.id))) else None
      case Return => if q.handle.WithCaller? && Alive(s, q.home) then Some((q.home, DropHandle(r, q.id))) else None
      case Abandon => if q.handle.WithCaller? && Alive(s, q.home) then Some((q.home, DropHandle(r, q.id))) else None
      case Send => Some((s.sender.value.l, UnpauseSend(r, s.sender.value.id, q.handle.Dropped?)))
      case _ => None
  }

  /** A client's step puts that task behind the others and leaves every other queue as it was. */
  lemma ClientsDispatch(s: Sys, e: Event, l: nat)
    requires Enabled(s, e) && !e.Thread? && l < |s.loops|
    ensures var t := Apply(s, e);
      && l < |t.loops|
      && t.loops[l].tasks == s.loops[l].tasks +
         (if Dispatched(s, e).Some? && Dispatched(s, e).value.0 == l then [Dispatched(s, e).value.1] else [])
  {
    assert s.loops[l].tasks + [] == s.loops[l].tasks;
    if e.Client? {
      ActDispatches(s, e.r, e.act, l);
      hide DoAct, Dispatched;
    }
  }

  lemma ActDispatches(s: Sys, r: nat, act: Act, l: nat)
    requires ActEnabled(s, r, act) && l < |s.loops|
    ensures var t := DoAct(s, r, act);
      var task := Dispatched(s, Client(r, act));
      && l < |t.loops|
      && t.loops[l].tasks == s.loops[l].tasks + (if task.Some? && task.value.0 == l then [task.value.1] else [])
  {
    assert s.loops[l].tasks + [] == s.loops[l].tasks;
    if act.Abandon? || act.Return? {
      hide ActEnabled;
    }
  }

  /** Whether the loop has been told its last call: by a `Shutdown` or by a round that ended with an empty slab, with no
      easy added since. */
  predicate CalledLast(s: Sys, events: seq<Event>, l: nat, before: bool)
    decreases |events|
  {
    if events == [] || !Enabled(s, events[0]) then before
    else
      var now := match events[0]
        case Thread(k, Task(_, _)) =>
          if k == l && s.loops[l].tasks[0].Shutdown? then true
          else if k == l && s.loops[l].tasks[0].Construct? && s.loops[l].tasks[0].r < |s.reqs| then false
          else before
        case Thread(k, EndRound) => before || (k == l && s.loops[l].slab == map[])
        case _ => before;
      CalledLast(Apply(s, events[0]), events[1..], l, now)
  }

  predicate LastCall(s: Sys, l: nat) {
    l < |s.loops| && s.loops[l].lastCall
  }

  lemma {:induction false} LastCallIsHistory(s: Sys, events: seq<Event>, t: Sys, l: nat)
    requires Run(s, events, t)
    ensures LastCall(t, l) <==> CalledLast(s, events, l, LastCall(s, l))
    decreases |events|
  {
    if events != [] {
      StepCallsLast(s, events[0], l);
      LastCallIsHistory(Apply(s, events[0]), events[1..], t, l);
    }
  }

  lemma StepCallsLast(s: Sys, e: Event, l: nat)
    requires Enabled(s, e)
    ensures LastCall(Apply(s, e), l) <==>
      match e
      case Thread(k, Task(_, _)) =>
        if k == l && s.loops[l].tasks[0].Shutdown? then true
        else if k == l && s.loops[l].tasks[0].Construct? && s.loops[l].tasks[0].r < |s.reqs| then false
        else LastCall(s, l)
      case Thread(k, EndRound) => LastCall(s, l) || (k == l && s.loops[l].slab == map[])
      case _ => LastCall(s, l)
  {
    match e {
      case Client(r, act) => ActCallsNothing(s, r, act, l);
      case Thread(k, Task(token, ok)) => TaskCallsLast(s, k, token, ok, l);
      case Thread(_, _) => hide Work;
      case _ =>
    }
    hide DoAct;
  }

  lemma ActCallsNothing(s: Sys, r: nat, act: Act, l: nat)
    requires ActEnabled(s, r, act)
    ensures LastCall(DoAct(s, r, act), l) <==> LastCall(s, l)
  {
  }

  lemma TaskCallsLast(s: Sys, k: nat, token: nat, ok: bool, l: nat)
    requires MoveEnabled(s, k, Move.Task(token, ok))
    ensures var task := s.loops[k].tasks[0];
      LastCall(Work(s, k, token, ok), l) <==>
      if k == l && task.Shutdown? then true
      else if k == l && task.Construct? && task.r < |s.reqs| then false
      else LastCall(s, l)
  {
  }

  /** In every run, a loop whose round ends leaves exactly with an empty slab and behind its last call, and otherwise
      goes on. */
  lemma LoopLeavesIff(events: seq<Event>, s: Sys, l: nat)
    requires Run(START, events, s) && MoveEnabled(s, l, EndRound)
    ensures var t := DoMove(s, l, EndRound);
      t.loops[l].stage ==
      if s.loops[l].slab == map[] && CalledLast(START, events, l, false) then Leaving(false) else Polling
  {
    LastCallIsHistory(START, events, s, l);
  }
}
