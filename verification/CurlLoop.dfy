/** The curl async loop: client tasks, the queue they share with a loop thread, and the restart of the loop. */
module CurlLoop {
  import opened Bytes

  /** `RequestResult`; the easy that `EasyLost` holds is the request's own. */
  datatype Result = Init | InProgress(id: nat) | EasyLost | Done(ok: bool, id: nat)

  /** What the client's future has come to: in `start_request` (the first four), in `wait_for_response`,
      or behind it. */
  datatype Phase = Holding | Chosen(l: nat) | Waiting(l: nat) | Refused(l: nat) | Started | Answered | Gone

  datatype HandlePlace = NoHandle | WithCaller | InTask | InResponse | Dropped

  /** Where an easy handle is. */
  datatype Place = Caller | Queued(l: nat) | Slabbed(l: nat, token: nat) | Lost | Destroyed

  /** What `batch_unpause_send` has captured for request `r`: the loop of the current manager, and the token. */
  datatype Sender = Sender(r: nat, l: nat, id: nat)

  /** One request: its future, its shared state, its `RequestHandle` and its easy. */
  datatype Req = Req(
    phase: Phase,
    result: Result,
    handle: HandlePlace,
    home: nat,               // the loop of the handle's manager
    id: nat,                 // the handle's id
    reported: bool,          // whether curl has reported the end of its transfer
    at: Place                // bookkeeping that no step reads
  )

  const NEW_REQ := Req(Holding, Init, NoHandle, 0, 0, false, Caller)

  /** `LoopTask`; `r` is the request that issued it, which only `ConstructHandle` and `QueryHandleResponse` carry.
      `late` is bookkeeping: whether the handle had been dropped when the unpause was queued. */
  datatype Task =
    | Construct(r: nat)
    | Query(r: nat, id: nat)
    | UnpauseRecv(r: nat, id: nat)
    | UnpauseSend(r: nat, id: nat, late: bool)
    | DropHandle(r: nat, id: nat)
    | Shutdown

  /** Where the loop thread stands in `run_loop`. */
  datatype Stage =
    | Polling
    | Draining
    | Reporting
    | Failing(todo: set<nat>)
    | Leaving(failed: bool)
    | Released
    | Torn

  datatype Loop = Loop(
    tasks: seq<Task>,     // the queue; its first `taken` tasks have been swapped out by the loop thread
    taken: nat,
    slab: map<nat, nat>,  // the request behind each token
    stage: Stage,
    lastCall: bool,
    grips: nat            // strong references that clients have upgraded to
  ) {
    /** The loop thread still holds its own strong reference. */
    predicate Held() {
      !stage.Released? && !stage.Torn?
    }

    predicate Alive() {
      Held() || grips > 0
    }

    /** The loop thread has not yet given up on this token. */
    predicate Busy(token: nat) {
      stage.Polling? || stage.Draining? || stage.Reporting? || (stage.Failing? && token in stage.todo)
    }

    function Push(task: Task): Loop {
      this.(tasks := tasks + [task])
    }
  }

  const NEW_LOOP := Loop([], 0, map[], Polling, false, 0)

  /** All loops, the current manager's, and the requests. A sender holds the lock on the current manager from its
      capture to its end. */
  datatype Sys = Sys(loops: seq<Loop>, current: Option<nat>, reqs: seq<Req>, sender: Option<Sender>)

  const START := Sys([], None, [], None)

  predicate Sends(s: Sys, r: nat) {
    s.sender.Some? && s.sender.value.r == r
  }

  predicate Alive(s: Sys, l: nat) {
    l < |s.loops| && s.loops[l].Alive()
  }

  function SetReq(s: Sys, r: nat, q: Req): Sys {
    if r < |s.reqs| then s.(reqs := s.reqs[r := q]) else s
  }

  function SetLoop(s: Sys, l: nat, loop: Loop): Sys {
    if l < |s.loops| then s.(loops := s.loops[l := loop]) else s
  }

  function SetResult(s: Sys, r: nat, result: Result): Sys {
    if r < |s.reqs| then SetReq(s, r, s.reqs[r].(result := result)) else s
  }

  /** `dispatch_task` on a queue that is still there. */
  function Push(s: Sys, l: nat, task: Task): Sys {
    if l < |s.loops| then SetLoop(s, l, s.loops[l].Push(task)) else s
  }

  function StartLoop(s: Sys): Sys {
    s.(loops := s.loops + [NEW_LOOP], current := Some(|s.loops|))
  }

  /** What the end of a queue does to a request whose task is in it. */
  function Returned(q: Req, r: nat, tasks: seq<Task>): Req {
    var p := if Construct(r) in tasks then q.(result := EasyLost, at := Lost) else q;
    if Query(r, q.id) in tasks then p.(handle := Dropped) else p
  }

  /** `LoopManagerInner::drop`, once the last strong reference is gone. */
  function DropInner(s: Sys, l: nat): Sys
    requires l < |s.loops|
  {
    if s.loops[l].Alive() then s
    else
      var tasks := s.loops[l].tasks;
      SetLoop(s, l, s.loops[l].(tasks := [], taken := 0))
      .(reqs := seq(|s.reqs|, r requires 0 <= r < |s.reqs| => Returned(s.reqs[r], r, tasks)))
  }

  /** The end of a slab destroys the easies in it. */
  function TearDown(s: Sys, l: nat): Sys
    requires l < |s.loops|
  {
    var owners := s.loops[l].slab.Values;
    SetLoop(s, l, s.loops[l].(stage := Torn, slab := map[]))
    .(reqs := seq(|s.reqs|, r requires 0 <= r < |s.reqs| =>
        if r in owners then s.reqs[r].(at := Destroyed) else s.reqs[r]))
  }

  /** One task on the loop thread. `token` is the slab's choice for a new easy, `ok` curl's answer. */
  function Work(s: Sys, l: nat, token: nat, ok: bool): Sys
    requires l < |s.loops| && s.loops[l].tasks != []
  {
    var task := s.loops[l].tasks[0];
    var taken := s.loops[l].taken;
    var loop := s.loops[l].(tasks := s.loops[l].tasks[1..], taken := if taken > 0 then taken - 1 else 0);
    match task
    case Construct(r) =>
      if r < |s.reqs| then
        SetReq(SetLoop(s, l, loop.(slab := loop.slab[token := r], lastCall := false)), r,
               s.reqs[r].(result := InProgress(token), at := Slabbed(l, token)))
      else SetLoop(s, l, loop)
    case Query(r, id) =>
      if r >= |s.reqs| then SetLoop(s, l, loop)
      else if id in loop.slab && ok then SetReq(SetLoop(s, l, loop), r, s.reqs[r].(handle := InResponse))
      else
        SetReq(SetLoop(s, l, loop.Push(DropHandle(r, id))), r, s.reqs[r].(result := Done(false, id), handle := Dropped))
    case UnpauseRecv(_, id) =>
      var t := SetLoop(s, l, loop);
      if id in loop.slab && !ok then SetResult(t, loop.slab[id], Done(false, id)) else t
    case UnpauseSend(_, id, _) =>
      var t := SetLoop(s, l, loop);
      if id in loop.slab && !ok then SetResult(t, loop.slab[id], Done(false, id)) else t
    case DropHandle(_, id) =>
      var t := SetLoop(s, l, loop.(slab := loop.slab - {id}));
      if id in loop.slab && loop.slab[id] < |s.reqs| then
        SetReq(t, loop.slab[id], s.reqs[loop.slab[id]].(at := Destroyed))
      else t
    case Shutdown => SetLoop(s, l, loop.(lastCall := true))
  }

  /** A critical section of a client. */
  datatype Act =
    | Choose     // take the current manager, starting a loop if there is none
    | Submit     // dispatch `ConstructHandle`
    | Collect    // poll for the token
    | Renew      // replace the manager that refused
    | Ask        // dispatch `QueryHandleResponse`
    | Take       // take the response
    | ReadBody   // `poll_bytes` on an empty buffer
    | Return     // `wait_for_response` returns the error that is its result
    | Abandon    // drop the future, or the response
    | BeginSend  // `batch_unpause_send` captures the manager and the token
    | Send
    | EndSend

  /** A critical section on a loop: of its thread, or an upgrade and a release of its queue by any client. */
  datatype Move =
    | Grab
    | Let
    | Swap
    | Task(token: nat, ok: bool)
    | Perform(ok: bool)
    | FailOne(token: nat)
    | Break
    | Message(token: nat, ok: bool)
    | EndRound
    | Release
    | Tear

  datatype Event = NewRequest | Close | Client(r: nat, act: Act) | Thread(l: nat, move: Move)

  predicate ActEnabled(s: Sys, r: nat, act: Act) {
    r < |s.reqs| &&
    var q := s.reqs[r];
    match act
    case Choose => q.phase.Holding? && s.sender.None?
    case Submit => q.phase.Chosen?
    case Collect => q.phase.Waiting? && !q.result.Init?
    case Renew => q.phase.Refused? && s.sender.None?
    case Ask => q.phase.Started? && q.handle.WithCaller? && !Sends(s, r)
    case Take => q.phase.Started? && q.handle.InResponse? && !Sends(s, r)
    case ReadBody => q.phase.Answered?
    case Return => q.phase.Started? && q.result.Done? && !q.result.ok && !q.handle.InResponse? && !Sends(s, r)
    case Abandon => !q.phase.Gone? && !Sends(s, r)
    case BeginSend =>
      && q.phase.Started? && s.sender.None? && q.result.InProgress?
      && s.current.Some? && Alive(s, s.current.value)
    case Send => Sends(s, r) && Alive(s, s.sender.value.l)
    case EndSend => Sends(s, r)
  }

  predicate MoveEnabled(s: Sys, l: nat, move: Move) {
    l < |s.loops| &&
    var loop := s.loops[l];
    match move
    case Grab => loop.Alive()
    case Let => loop.grips > 0
    case Swap => loop.stage.Polling?
    case Task(token, _) =>
      && loop.stage.Draining? && 0 < loop.taken <= |loop.tasks|
      && (loop.tasks[0].Construct? ==> token !in loop.slab)
    case Perform(_) => loop.stage.Draining? && loop.taken == 0
    case FailOne(token) => loop.stage.Failing? && token in loop.stage.todo && token in loop.slab
    case Break => loop.stage == Failing({})
    case Message(token, _) =>
      loop.stage.Reporting? && token in loop.slab && loop.slab[token] < |s.reqs| && !s.reqs[loop.slab[token]].reported
    case EndRound => loop.stage.Reporting?
    case Release => loop.stage.Leaving?
    case Tear => loop.stage.Released?
  }

  predicate Enabled(s: Sys, e: Event) {
    match e
    case NewRequest => true
    case Close => s.current.Some? && Alive(s, s.current.value) && s.sender.None?
    case Client(r, act) => ActEnabled(s, r, act)
    case Thread(l, move) => MoveEnabled(s, l, move)
  }

  function DoAct(s: Sys, r: nat, act: Act): Sys
    requires ActEnabled(s, r, act)
  {
    var q := s.reqs[r];
    match act
    case Choose =>
      if s.current.None? then SetReq(StartLoop(s), r, q.(phase := Chosen(|s.loops|)))
      else SetReq(s, r, q.(phase := Chosen(s.current.value)))
    case Submit =>
      var l := q.phase.l;
      if Alive(s, l) && !s.loops[l].stage.Torn? then
        SetReq(Push(s, l, Construct(r)), r, q.(phase := Waiting(l), at := Queued(l)))
      else SetReq(s, r, q.(phase := Refused(l)))
    case Collect =>
      if q.result.EasyLost? then SetReq(s, r, q.(phase := Refused(q.phase.l), result := Init, at := Caller))
      else SetReq(s, r, q.(phase := Started, handle := WithCaller, home := q.phase.l, id := q.result.id))
    case Renew =>
      SetReq(if s.current == Some(q.phase.l) then StartLoop(s) else s, r, q.(phase := Holding))
    case Ask =>
      if Alive(s, q.home) then SetReq(Push(s, q.home, Query(r, q.id)), r, q.(handle := InTask))
      else SetReq(s, r, q.(handle := Dropped, phase := Gone))
    case Take => SetReq(s, r, q.(phase := Answered, handle := WithCaller))
    case ReadBody =>
      SetReq(if Alive(s, q.home) then Push(s, q.home, UnpauseRecv(r, q.id)) else s, r, q.(result := Init))
    case Return => Leave(s, r, q.(result := Init))
    case Abandon => Leave(s, r, q)
    case BeginSend => s.(sender := Some(Sender(r, s.current.value, q.result.id)))
    case Send => Push(s, s.sender.value.l, UnpauseSend(r, s.sender.value.id, q.handle.Dropped?))
    case EndSend => s.(sender := None)
  }

  /** The future or the response of a request goes, and with it the easy or the handle that it owns. */
  function Leave(s: Sys, r: nat, q: Req): Sys {
    if q.handle.WithCaller? then
      SetReq(if Alive(s, q.home) then Push(s, q.home, DropHandle(r, q.id)) else s, r,
             q.(phase := Gone, handle := Dropped))
    else if q.phase.Holding? || q.phase.Chosen? || q.phase.Refused? then
      SetReq(s, r, q.(phase := Gone, at := Destroyed))
    else SetReq(s, r, q.(phase := Gone))
  }

  function DoMove(s: Sys, l: nat, move: Move): Sys
    requires MoveEnabled(s, l, move)
  {
    var loop := s.loops[l];
    match move
    case Grab => SetLoop(s, l, loop.(grips := loop.grips + 1))
    case Let => DropInner(SetLoop(s, l, loop.(grips := loop.grips - 1)), l)
    case Swap => SetLoop(s, l, loop.(stage := Draining, taken := |loop.tasks|))
    case Task(token, ok) => Work(s, l, token, ok)
    case Perform(ok) => SetLoop(s, l, loop.(stage := if ok then Reporting else Failing(loop.slab.Keys)))
    case FailOne(token) =>
      var t := SetLoop(s, l, loop.(stage := Failing(loop.stage.todo - {token})));
      var r := loop.slab[token];
      if r < |s.reqs| && !s.reqs[r].result.Done? then SetResult(t, r, Done(false, token)) else t
    case Break => SetLoop(s, l, loop.(stage := Leaving(true)))
    case Message(token, ok) =>
      var r := loop.slab[token];
      SetReq(s, r, s.reqs[r].(result := Done(ok, token), reported := true))
    case EndRound =>
      if loop.slab == map[] && loop.lastCall then SetLoop(s, l, loop.(stage := Leaving(false)))
      else SetLoop(s, l, loop.(stage := Polling, lastCall := loop.lastCall || loop.slab == map[]))
    case Release => DropInner(SetLoop(s, l, loop.(stage := Released)), l)
    case Tear => TearDown(s, l)
  }

  function Apply(s: Sys, e: Event): Sys
    requires Enabled(s, e)
  {
    match e
    case NewRequest => s.(reqs := s.reqs + [NEW_REQ])
    case Close => Push(s, s.current.value, Shutdown)
    case Client(r, act) => DoAct(s, r, act)
    case Thread(l, move) => DoMove(s, l, move)
  }

  predicate Run(s: Sys, events: seq<Event>, t: Sys)
    decreases |events|
  {
    if events == [] then s == t
    else Enabled(s, events[0]) && Run(Apply(s, events[0]), events[1..], t)
  }

  lemma {:induction false} RunAppend(s: Sys, a: seq<Event>, t: Sys, e: Event)
    requires Run(s, a, t) && Enabled(t, e)
    ensures Run(s, a + [e], Apply(t, e))
    decreases |a|
  {
    if a == [] {
      assert [e][1..] == [];
    } else {
      RunAppend(Apply(s, a[0]), a[1..], t, e);
      assert (a + [e])[1..] == a[1..] + [e];
    }
  }
}
