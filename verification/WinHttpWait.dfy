/** A future that waits for a state of the WinHTTP context, whose poll has two critical sections, among callbacks. */
module WinHttpWait {
  import opened Bytes
  import opened WinHttpContext

  /** Where the future stands: between polls, between the two sections of one, or behind its last. */
  datatype Pc = Fresh | Between | Waiting | Finished(r: StatePoll)

  /** `polls` is the number of the current poll, which names its waker. */
  datatype Wait = Wait(ctx: Ctx, pc: Pc, polls: nat)

  /** A callback sets a state, the range or the error, and wakes. */
  datatype Callback =
    | ToState(to: State)
    | SendDone
    | WriteDone(n: nat)
    | ReadDone(offset: nat, n: nat)
    | Fail(code: int)

  datatype Event = BeginPoll | Look | Called(c: Callback)

  predicate Enabled(s: Wait, e: Event) {
    match e
    case BeginPoll => s.pc.Fresh? || s.pc.Waiting?
    case Look => s.pc.Between?
    case Called(_) => true
  }

  function AfterCallback(c: Ctx, call: Callback): Ctx {
    match call
    case ToState(to) => Transitioned(c, to)
    case SendDone => c.(buffer := Borrowed([]), state := HeadersSent).Wake()
    case WriteDone(n) => c.(end := c.end + n, state := WriteComplete).Wake()
    case ReadDone(offset, n) => ReadCompleted(c, offset, n)
    case Fail(code) => Errored(c, code)
  }

  function Apply(expected: set<State>, s: Wait, e: Event): Wait
    requires Enabled(s, e)
  {
    match e
    case BeginPoll =>
      var (ctx, code) := ErrorTaken(s.ctx);
      Wait(ctx, if code.Some? then Finished(StateError(code.value)) else Between, s.polls + 1)
    case Look =>
      var (ctx, r) := Looked(s.ctx, expected, s.polls);
      s.(ctx := ctx, pc := if r.StatePending? then Waiting else Finished(r))
    case Called(c) => s.(ctx := AfterCallback(s.ctx, c))
  }

  /** What a run leads to, if every event of it is enabled in its turn. */
  function After(expected: set<State>, s: Wait, events: seq<Event>): Option<Wait>
    decreases |events|
  {
    if events == [] then Some(s)
    else
      var e := events[|events| - 1];
      match After(expected, s, events[..|events| - 1])
      case None => None
      case Some(u) => if Enabled(u, e) then Some(Apply(expected, u, e)) else None
  }

  /** No waker has the number of a poll to come. */
  predicate Numbered(s: Wait) {
    s.ctx.waker <= s.polls && forall w | w in s.ctx.woken :: w <= s.polls
  }

  /** A waiting future has been woken, or there is nothing to report to it. */
  predicate Attended(expected: set<State>, s: Wait) {
    s.polls in s.ctx.woken || (s.ctx.state !in expected && s.ctx.error.None?)
  }

  /** Whether an error was reported since the last poll began. */
  predicate FailedSince(events: seq<Event>)
    decreases |events|
  {
    events != [] &&
    match events[|events| - 1]
    case BeginPoll => false
    case Called(Fail(_)) => true
    case _ => FailedSince(events[..|events| - 1])
  }

  /** The last event is the second section of a poll, and an error was reported between its two sections. */
  predicate JustMissed(events: seq<Event>) {
    events != [] && events[|events| - 1].Look? && FailedSince(events[..|events| - 1])
  }

  predicate Inv(expected: set<State>, s: Wait, events: seq<Event>) {
    && Numbered(s)
    && (s.pc.Between? ==>
          && s.ctx.waker < s.polls && s.polls !in s.ctx.woken
          && (s.ctx.error.Some? <==> FailedSince(events)))
    && (s.pc.Waiting? ==>
          && s.ctx.waker == s.polls
          && (s.polls !in s.ctx.woken ==>
                s.ctx.state !in expected && events != [] && events[|events| - 1].Look? &&
                (s.ctx.error.Some? <==> FailedSince(events[..|events| - 1])))
          && (s.polls in s.ctx.woken ==> events != [] && !events[|events| - 1].Look?))
  }

  lemma StepKeeps(expected: set<State>, s: Wait, events: seq<Event>, e: Event)
    requires Inv(expected, s, events) && Enabled(s, e)
    ensures Inv(expected, Apply(expected, s, e), events + [e])
  {
    var longer := events + [e];
    assert longer[..|longer| - 1] == events && longer[|longer| - 1] == e;
  }

  lemma {:induction false} RunKeeps(expected: set<State>, s: Wait, events: seq<Event>)
    requires Numbered(s) && s.pc.Fresh?
    ensures var r := After(expected, s, events); r.Some? ==> Inv(expected, r.value, events)
    decreases |events|
  {
    if events != [] {
      var front, e := events[..|events| - 1], events[|events| - 1];
      RunKeeps(expected, s, front);
      var u := After(expected, s, front);
      if u.Some? && Enabled(u.value, e) {
        StepKeeps(expected, u.value, front, e);
        assert front + [e] == events;
      }
    }
  }

  /** In every run of polls and callbacks, a waiting future is attended exactly unless its last poll has just ended and
      an error was reported between that poll's two sections. An expected state is never missed. */
  lemma WaitIsAttendedIff(expected: set<State>, s: Wait, events: seq<Event>, t: Wait)
    requires Numbered(s) && s.pc.Fresh? && After(expected, s, events) == Some(t) && t.pc.Waiting?
    ensures Attended(expected, t) <==> !JustMissed(events)
    ensures t.polls !in t.ctx.woken ==> t.ctx.state !in expected
  {
    RunKeeps(expected, s, events);
  }

  /** Such a run: the error's wake comes before the waker is registered, and nothing tells the future of it. */
  lemma ErrorIsMissed(expected: set<State>, c: Ctx, code: int)
    requires c.state !in expected && c.error.None? && c.woken == {}
    ensures var r := After(expected, Wait(c, Fresh, c.waker), [BeginPoll, Called(Fail(code)), Look]);
      r.Some? && r.value.pc.Waiting? && !Attended(expected, r.value) && r.value.ctx.error == Some(code)
  {
    var s := Wait(c, Fresh, c.waker);
    var events := [BeginPoll, Called(Fail(code)), Look];
    assert events[..2] == [BeginPoll, Called(Fail(code))] && events[..2][..1] == [BeginPoll];
    assert [BeginPoll][..0] == [];
    assert After(expected, s, []) == Some(s);
    assert After(expected, s, [BeginPoll]) == Some(Apply(expected, s, BeginPoll));
    var failed := Apply(expected, Apply(expected, s, BeginPoll), Called(Fail(code)));
    assert After(expected, s, events[..2]) == Some(failed);
  }

  /** The context among its callbacks is the source's object: each callback method is the step of the machine. */
  method Call(ctx: RequestContext, c: Callback)
    modifies ctx
    ensures ctx.View() == AfterCallback(old(ctx.View()), c)
  {
    match c {
      case ToState(to) => ctx.TransitionState(to);
      case SendDone => ctx.SetSendComplete();
      case WriteDone(n) => ctx.SetWriteComplete(n);
      case ReadDone(offset, n) => ctx.SetReadComplete(offset, n);
      case Fail(code) => ctx.SetError(code);
    }
  }
}
