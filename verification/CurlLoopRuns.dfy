/** Runs of the curl async loop that end badly: requests that wait for ever behind a success, easies that nobody can
    drop, and a late unpause that reaches another request. */
module CurlLoopRuns {
  import opened Bytes
  import opened CurlLoop
  import opened CurlLoopSafety
  import opened CurlLoopResults
  import opened CurlLoopFates

  ghost predicate Reachable(s: Sys) {
    exists events :: Run(START, events, s)
  }

  lemma Step(s: Sys, e: Event, t: Sys)
    requires Reachable(s) && Enabled(s, e) && Apply(s, e) == t
    ensures Reachable(t)
  {
    var events :| Run(START, events, s);
    RunAppend(START, events, s, e);
  }

  function One(loop: Loop, q: Req): Sys {
    Sys([loop], Some(0), [q], None)
  }

  const ADDED := Loop([], 0, map[0 := 0], Draining, false, 0)

  const ASKING := ADDED.(tasks := [Query(0, 0)])

  const DROPPING := ADDED.(tasks := [DropHandle(0, 0)])

  const EMPTIED := Loop([], 0, map[], Polling, true, 0)

  const PENDING := Req(Waiting(0), InProgress(0), NoHandle, 0, 0, false, Slabbed(0, 0))

  const BEGUN := Req(Started, InProgress(0), WithCaller, 0, 0, false, Slabbed(0, 0))

  lemma SlabIsNotEmpty()
    ensures ADDED.slab != map[] && ADDED.slab.Keys == {0} && map[0 := 0] - {0} == map[]
  {
    assert ADDED.slab[0] == 0;
  }

  /** One request whose easy the loop has just added. */
  lemma OneIsAdded()
    ensures Reachable(One(ADDED, PENDING))
  {
    assert Run(START, [], START);
    var s1 := Sys([], None, [NEW_REQ], None);
    Step(START, NewRequest, s1);
    var s2 := One(NEW_LOOP, NEW_REQ.(phase := Chosen(0)));
    Step(s1, Client(0, Choose), s2);
    OneIsSubmitted();
  }

  lemma OneIsSubmitted()
    requires Reachable(One(NEW_LOOP, NEW_REQ.(phase := Chosen(0))))
    ensures Reachable(One(ADDED, PENDING))
  {
    var submitted := NEW_REQ.(phase := Waiting(0), at := Queued(0));
    var queued := NEW_LOOP.(tasks := [Construct(0)]);
    assert [] + [Construct(0)] == [Construct(0)];
    Step(One(NEW_LOOP, NEW_REQ.(phase := Chosen(0))), Client(0, Submit), One(queued, submitted));
    var taken := queued.(stage := Draining, taken := 1);
    Step(One(queued, submitted), Thread(0, Swap), One(taken, submitted));
    assert [Construct(0)][1..] == [] && map[][0 := 0] == map[0 := 0];
    Step(One(taken, submitted), Thread(0, Move.Task(0, true)), One(ADDED, PENDING));
  }

  /** Its client holds the handle, and the loop drains an empty queue; the transfer has succeeded or goes on. */
  lemma OneIsStarted(done: bool)
    ensures Reachable(One(ADDED, if done then BEGUN.(result := Done(true, 0), reported := true) else BEGUN))
  {
    OneIsAdded();
    SlabIsNotEmpty();
    Step(One(ADDED, PENDING), Thread(0, Perform(true)), One(ADDED.(stage := Reporting), PENDING));
    var q := if done then PENDING.(result := Done(true, 0), reported := true) else PENDING;
    if done {
      Step(One(ADDED.(stage := Reporting), PENDING), Thread(0, Message(0, true)), One(ADDED.(stage := Reporting), q));
    }
    Step(One(ADDED.(stage := Reporting), q), Thread(0, EndRound), One(ADDED.(stage := Polling), q));
    var started := q.(phase := Started, handle := WithCaller);
    Step(One(ADDED.(stage := Polling), q), Client(0, Collect), One(ADDED.(stage := Polling), started));
    Step(One(ADDED.(stage := Polling), started), Thread(0, Swap), One(ADDED, started));
  }

  lemma OneAsks(q: Req)
    requires Reachable(One(ADDED, q)) && q.phase.Started? && q.handle.WithCaller? && q.home == q.id == 0
    ensures Reachable(One(ASKING, q.(handle := InTask)))
  {
    assert [] + [Query(0, 0)] == [Query(0, 0)];
    Step(One(ADDED, q), Client(0, Ask), One(ASKING, q.(handle := InTask)));
  }

  /** Round the loop, up to the next swap. */
  lemma Round(s: Sys, loop: Loop)
    requires Reachable(s) && |s.loops| == 1 && s.loops[0] == loop
    requires loop.stage == Draining && loop.taken == 0 && loop.slab != map[]
    ensures Reachable(s.(loops := [loop.(taken := |loop.tasks|)]))
  {
    var s1 := s.(loops := [loop.(stage := Reporting)]);
    Step(s, Thread(0, Perform(true)), s1);
    var s2 := s.(loops := [loop.(stage := Polling)]);
    Step(s1, Thread(0, EndRound), s2);
    Step(s2, Thread(0, Swap), s.(loops := [loop.(taken := |loop.tasks|)]));
  }

  lemma AskedLoopFails(q: Req)
    requires Reachable(One(ASKING, q)) && q.result == Done(true, 0)
    ensures Reachable(One(ASKING.(stage := Leaving(true)), q))
  {
    SlabIsNotEmpty();
    Step(One(ASKING, q), Thread(0, Perform(false)), One(ASKING.(stage := Failing({0})), q));
    assert {0} - {0} == {};
    Step(One(ASKING.(stage := Failing({0})), q), Thread(0, FailOne(0)), One(ASKING.(stage := Failing({})), q));
    Step(One(ASKING.(stage := Failing({})), q), Thread(0, Break), One(ASKING.(stage := Leaving(true)), q));
  }

  /** The transfer succeeds, the client asks for its response, and the loop fails before it answers: the client
      waits for ever. */
  lemma LostQueryWaitsForEver()
    ensures exists s :: Reachable(s) && |s.reqs| == 1 && Waits(s.reqs[0]) && WaitsForEver(s, 0)
  {
    var q := BEGUN.(result := Done(true, 0), reported := true);
    OneIsStarted(true);
    OneAsks(q);
    var asking := q.(handle := InTask);
    AskedLoopFails(asking);
    var s := One(ASKING.(stage := Leaving(true)), asking);
    var t := Apply(s, Thread(0, Release));
    Step(s, Thread(0, Release), t);
    assert Waits(t.reqs[0]) && !UnpauseAhead(t, 0);
    var events :| Run(START, events, t);
    WaitsForEverIff(events, t, 0);
  }

  /** The loop answers the query with an error, which drops the handle. */
  lemma QueryFails(s: Sys)
    requires Reachable(s) && s.loops == [ASKING] && s.reqs != [] && s.reqs[0].at == Slabbed(0, 0) && s.reqs[0].id == 0
    ensures Reachable(s.(loops := [DROPPING],
        reqs := s.reqs[0 := s.reqs[0].(result := Done(false, 0), handle := Dropped)]))
  {
    SlabIsNotEmpty();
    Round(s, ASKING);
    assert [Query(0, 0)][1..] + [DropHandle(0, 0)] == [DropHandle(0, 0)];
    Step(s.(loops := [ASKING.(taken := 1)]), Thread(0, Move.Task(0, false)),
         s.(loops := [DROPPING], reqs := s.reqs[0 := s.reqs[0].(result := Done(false, 0), handle := Dropped)]));
  }

  /** The query fails, and the transfer succeeds before the client has returned that error: it waits for ever while
      the loop goes on. */
  lemma OverwrittenErrorWaitsForEver()
    ensures exists s ::
              Reachable(s) && |s.reqs| == |s.loops| == 1 && Waits(s.reqs[0]) && s.loops[0].Held() && WaitsForEver(s, 0)
  {
    OneIsStarted(false);
    OneAsks(BEGUN);
    QueryFails(One(ASKING, BEGUN.(handle := InTask)));
    var q := BEGUN.(result := Done(false, 0), handle := Dropped);
    assert [BEGUN.(handle := InTask)][0 := q] == [q];
    Step(One(DROPPING, q), Thread(0, Perform(true)), One(DROPPING.(stage := Reporting), q));
    var t := One(DROPPING.(stage := Reporting), q.(result := Done(true, 0), reported := true));
    Step(One(DROPPING.(stage := Reporting), q), Thread(0, Message(0, true)), t);
    assert !UnpauseAhead(t, 0);
    var events :| Run(START, events, t);
    WaitsForEverIff(events, t, 0);
  }

  /** The client gives up while it waits for its token. */
  lemma AbandonedWaitOrphans()
    ensures exists s :: Reachable(s) && Orphan(s, 0, 0, 0) && !GivenUp(s.loops[0].stage)
  {
    OneIsAdded();
    var t := One(ADDED, PENDING.(phase := Gone));
    Step(One(ADDED, PENDING), Client(0, Abandon), t);
  }

  /** The client gives up after it has asked, and the loop answers. */
  lemma AbandonedResponseOrphans()
    ensures exists s :: Reachable(s) && Orphan(s, 0, 0, 0) && s.reqs[0].handle.InResponse? && !GivenUp(s.loops[0].stage)
  {
    OneIsStarted(false);
    OneAsks(BEGUN);
    var q := BEGUN.(handle := InTask, phase := Gone);
    Step(One(ASKING, BEGUN.(handle := InTask)), Client(0, Abandon), One(ASKING, q));
    SlabIsNotEmpty();
    Round(One(ASKING, q), ASKING);
    assert [Query(0, 0)][1..] == [];
    Step(One(ASKING.(taken := 1), q), Thread(0, Move.Task(0, true)), One(ADDED, q.(handle := InResponse)));
  }

  const CHOSEN := NEW_REQ.(phase := Chosen(0))

  /** Two requests, and the first one's sender. */
  function Two(loop: Loop, q: Req, other: Req): Sys {
    Sys([loop], Some(0), [q, other], Some(Sender(0, 0, 0)))
  }

  /** The second request takes the manager, then the first one's sender captures its token. */
  lemma SenderCaptures()
    ensures Reachable(Two(ASKING, BEGUN.(handle := InTask), CHOSEN))
  {
    OneIsStarted(false);
    OneAsks(BEGUN);
    var q := BEGUN.(handle := InTask);
    var s1 := One(ASKING, q).(reqs := [q, NEW_REQ]);
    Step(One(ASKING, q), NewRequest, s1);
    var s2 := One(ASKING, q).(reqs := [q, CHOSEN]);
    Step(s1, Client(1, Choose), s2);
    Step(s2, Client(0, BeginSend), Two(ASKING, q, CHOSEN));
  }

  lemma DropIsPerformed(q: Req)
    requires Reachable(Two(DROPPING, q, CHOSEN)) && q.at == Slabbed(0, 0)
    ensures Reachable(Two(EMPTIED, q.(at := Destroyed), CHOSEN))
  {
    SlabIsNotEmpty();
    Round(Two(DROPPING, q, CHOSEN), DROPPING);
    assert [DropHandle(0, 0)][1..] == [];
    var gone := q.(at := Destroyed);
    var drained := Loop([], 0, map[], Draining, false, 0);
    Step(Two(DROPPING.(taken := 1), q, CHOSEN), Thread(0, Move.Task(0, true)), Two(drained, gone, CHOSEN));
    Step(Two(drained, gone, CHOSEN), Thread(0, Perform(true)), Two(drained.(stage := Reporting), gone, CHOSEN));
    Step(Two(drained.(stage := Reporting), gone, CHOSEN), Thread(0, EndRound), Two(EMPTIED, gone, CHOSEN));
  }

  /** The slab gives the token to the second request before the sender uses it. */
  lemma TokenIsReused(q: Req)
    requires Reachable(Two(EMPTIED, q, CHOSEN))
    ensures exists other :: Reachable(Two(Loop([], 0, map[0 := 1], Draining, false, 0), q, other))
  {
    var submitted := NEW_REQ.(phase := Waiting(0), at := Queued(0));
    assert [] + [Construct(1)] == [Construct(1)];
    var queued := EMPTIED.(tasks := [Construct(1)]);
    Step(Two(EMPTIED, q, CHOSEN), Client(1, Submit), Two(queued, q, submitted));
    var taken := queued.(stage := Draining, taken := 1);
    Step(Two(queued, q, submitted), Thread(0, Swap), Two(taken, q, submitted));
    assert [Construct(1)][1..] == [] && map[][0 := 1] == map[0 := 1];
    var added := submitted.(result := InProgress(0), at := Slabbed(0, 0));
    Step(Two(taken, q, submitted), Thread(0, Move.Task(0, true)),
        Two(Loop([], 0, map[0 := 1], Draining, false, 0), q, added));
  }

  /** A late unpause: the loop answers the query with an error between the sender's capture and its use of the token,
      the slab gives the token to the second request, and the unpause names that one's easy. */
  lemma TokensCanBeConfused()
    ensures exists s :: Reachable(s) && |s.loops| == 1 && s.loops[0].Held() &&
              UnpauseSend(0, 0, true) in s.loops[0].tasks && NamesItsEasy(s, 0, 1, 0)
  {
    var q := BEGUN.(handle := InTask);
    SenderCaptures();
    QueryFails(Two(ASKING, q, CHOSEN));
    var failed := q.(result := Done(false, 0), handle := Dropped);
    assert [q, CHOSEN][0 := failed] == [failed, CHOSEN];
    DropIsPerformed(failed);
    var gone := failed.(at := Destroyed);
    TokenIsReused(gone);
    var reused := Loop([], 0, map[0 := 1], Draining, false, 0);
    var other :| Reachable(Two(reused, gone, other));
    assert [] + [UnpauseSend(0, 0, true)] == [UnpauseSend(0, 0, true)];
    var t := Two(reused.(tasks := [UnpauseSend(0, 0, true)]), gone, other);
    Step(Two(reused, gone, other), Client(0, Send), t);
    assert UnpauseSend(0, 0, true) in t.loops[0].tasks && t.loops[0].slab[0] == 1;
  }
}
