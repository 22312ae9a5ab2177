/** The WinHTTP async response: the reading future and the system's callbacks over one shared context. */
module WinHttpResponse {
  import opened Bytes
  import opened WinHttpContext

  /** What one poll gives its caller; `Crashed` is its `unreachable!` or a slice out of bounds. */
  datatype Outcome = Pending | Failed(code: int) | Ready(bytes: seq<byte>) | Crashed

  /** The operation a poll starts. */
  datatype Op = NoOp | Query | Read(len: nat)

  datatype Polled = Polled(ctx: Ctx, outcome: Outcome, op: Op)

  const START_FAILED: int := -1

  function Zeros(n: nat): (s: seq<byte>)
    ensures |s| == n
  {
    seq(n, _ => 0)
  }

  /** The buffer grown to `n` bytes. */
  function Grown(b: Cow, n: nat): (r: Cow)
    ensures |b.bytes| <= n ==> |r.bytes| >= n
  {
    if |b.bytes| >= n then b
    else match b {
      case Borrowed(_) => Owned(Zeros(n))
      case Owned(v) => Owned(v + Zeros(n - |v|))
    }
  }

  /** `poll_consume_data`: `want` is the length of the caller's buffer, `poll` names this poll's waker, and `startOk`
      says whether the system accepts the operation. */
  function PollEffect(c: Ctx, want: nat, poll: nat, startOk: bool): Polled {
    if c.error.Some? then Polled(c.(error := None), Failed(c.error.value), NoOp)
    else match c.state {
      case DataAvailable =>
        if c.end == 0 then Polled(c, Ready([]), NoOp)
        else if Grown(c.buffer, c.end).Borrowed? then Polled(c, Crashed, NoOp)
        else
          var c' := c.(buffer := Grown(c.buffer, c.end), state := Reading, start := 0, end := 0, waker := poll);
          if startOk then Polled(c', Pending, Read(c.end)) else Polled(c', Failed(START_FAILED), NoOp)
      case HeadersReceived => Consume(c, want, poll, startOk)
      case Completed => Consume(c, want, poll, startOk)
      case _ => Polled(c.(waker := poll), Pending, NoOp)
    }
  }

  function Consume(c: Ctx, want: nat, poll: nat, startOk: bool): Polled {
    if !(c.start <= c.end <= |c.buffer.bytes|) then Polled(c, Crashed, NoOp)
    else if c.state == HeadersReceived && c.start == c.end then
      var c' := c.(state := QueryingData, start := 0, end := 0, waker := poll);
      if startOk then Polled(c', Pending, Query) else Polled(c', Failed(START_FAILED), NoOp)
    else
      var n := Min(want, c.end - c.start);
      Polled(c.(start := c.start + n), Ready(c.buffer.bytes[c.start..c.start + n]), NoOp)
  }

  class WinHttpAsyncResponse {
    const ctx: RequestContext

    constructor (context: RequestContext)
      ensures ctx == context
    {
      ctx := context;
    }

    method PollConsumeData(want: nat, poll: nat, startOk: bool) returns (outcome: Outcome, op: Op)
      modifies ctx
      ensures Polled(ctx.View(), outcome, op) == PollEffect(old(ctx.View()), want, poll, startOk)
    {
      op := NoOp;
      if ctx.error.Some? {
        outcome := Failed(ctx.error.value);
        ctx.error := None;
        return;
      }
      if ctx.state == DataAvailable {
        var available := ctx.end;
        if available == 0 {
          return Ready([]), NoOp;
        }
        if |ctx.buffer.bytes| < available {
          match ctx.buffer {
            case Borrowed(_) => ctx.buffer := Owned(Zeros(available));
            case Owned(v) => ctx.buffer := Owned(v + Zeros(available - |v|));
          }
        }
        if ctx.buffer.Borrowed? {
          return Crashed, NoOp;
        }
        ctx.state := Reading;
        ctx.start, ctx.end := 0, 0;
        ctx.waker := poll;
        if startOk {
          return Pending, Read(available);
        }
        return Failed(START_FAILED), NoOp;
      }
      if ctx.state == HeadersReceived || ctx.state == Completed {
        if !(ctx.start <= ctx.end <= |ctx.buffer.bytes|) {
          return Crashed, NoOp;
        }
        var available := ctx.buffer.bytes[ctx.start..ctx.end];
        if ctx.state == HeadersReceived && available == [] {
          ctx.state := QueryingData;
          ctx.start, ctx.end := 0, 0;
          ctx.waker := poll;
          if startOk {
            return Pending, Query;
          }
          return Failed(START_FAILED), NoOp;
        }
        var consumed := Min(want, |available|);
        assert available[..consumed] == ctx.buffer.bytes[ctx.start..ctx.start + consumed];
        outcome := Ready(available[..consumed]);
        ctx.start := ctx.start + consumed;
        return;
      }
      ctx.waker := poll;
      outcome := Pending;
    }
  }

  /** What the system is doing: nothing, answering a query (in two critical sections), or filling the buffer. */
  datatype Os = Idle | Querying | Announcing(n: nat) | Filling(len: nat)

  datatype Sys = Sys(
    ctx: Ctx,
    os: Os,
    body: seq<byte>,      // what the server sends
    delivered: nat,       // how much of it the system has put into the buffer
    consumed: seq<byte>,  // what the polls have given to their callers
    polls: nat,           // the number of polls so far
    last: Outcome,        // the outcome of the last one
    reported: bool        // whether any poll has returned an error
  )

  /** A poll, or one critical section of a callback. */
  datatype Event =
    | Poll(want: nat, startOk: bool)
    | QueryAnswered(n: nat)
    | Announced
    | ReadDone(n: nat)
    | RequestFailed(code: int)

  /** The system answers a query with 1 up to all remaining bytes, and with 0 only at the end of the body;
      it fills at most the length it was given, and nothing only at the end. */
  predicate Enabled(s: Sys, e: Event) {
    match e
    case Poll(_, _) => true
    case QueryAnswered(n) => s.os == Querying && s.delivered + n <= |s.body| && (n == 0 <==> s.delivered == |s.body|)
    case Announced => s.os.Announcing?
    case ReadDone(n) =>
      && s.os.Filling? && n <= s.os.len && n <= |s.ctx.buffer.bytes|
      && s.delivered + n <= |s.body| && (n == 0 <==> s.delivered == |s.body|)
    case RequestFailed(_) => s.os == Querying || s.os.Filling?
  }

  function Apply(s: Sys, e: Event): Sys
    requires Enabled(s, e)
  {
    match e
    case Poll(want, startOk) =>
      var p := PollEffect(s.ctx, want, s.polls + 1, startOk);
      s.(ctx := p.ctx,
         os := (match p.op case NoOp => s.os case Query => Querying case Read(n) => Filling(n)),
         consumed := if p.outcome.Ready? then s.consumed + p.outcome.bytes else s.consumed,
         polls := s.polls + 1, last := p.outcome, reported := s.reported || p.outcome.Failed?)
    case QueryAnswered(n) => s.(ctx := BytesAvailable(s.ctx, n), os := Announcing(n))
    case Announced => s.(ctx := Transitioned(s.ctx, if s.os.n == 0 then Completed else DataAvailable), os := Idle)
    case ReadDone(n) =>
      var filled := s.body[s.delivered..s.delivered + n] + s.ctx.buffer.bytes[n..];
      s.(ctx := ReadCompleted(s.ctx.(buffer := s.ctx.buffer.(bytes := filled)), 0, n), os := Idle,
          delivered := s.delivered + n)
    case RequestFailed(code) => s.(ctx := Errored(s.ctx, code), os := Idle)
  }

  /** The response as the request hands it over: headers received, nothing buffered. */
  predicate Initial(s: Sys) {
    && s.ctx.state == HeadersReceived && s.ctx.buffer.bytes == [] && s.ctx.start == s.ctx.end == 0
    && s.ctx.error.None? && s.os == Idle && s.delivered == 0 && s.consumed == [] && s.last == Ready([]) && !s.reported
    && s.ctx.waker <= s.polls && (forall w | w in s.ctx.woken :: w <= s.polls)
  }

  /** The bytes in the buffer that no poll has taken yet. */
  function Available(s: Sys): seq<byte> {
    InBuffer(s.ctx)
  }

  function InBuffer(c: Ctx): seq<byte> {
    if (c.state == HeadersReceived || c.state == Completed) && c.start <= c.end <= |c.buffer.bytes|
    then c.buffer.bytes[c.start..c.end] else []
  }

  /** The context's state and the system's operation fit together. */
  predicate Matched(s: Sys) {
    && (s.ctx.buffer.Borrowed? ==> s.ctx.buffer.bytes == [])
    && (s.reported ==> s.os == Idle && s.ctx.error.None? && (s.ctx.state == QueryingData || s.ctx.state == Reading))
    && (s.ctx.error.Some? ==> s.os == Idle && (s.ctx.state == QueryingData || s.ctx.state == Reading))
    && match s.ctx.state {
      case HeadersReceived => s.os == Idle && s.ctx.start <= s.ctx.end <= |s.ctx.buffer.bytes|
      case QueryingData =>
        && s.ctx.start == 0
        && (s.os == Querying || (s.os.Announcing? && s.ctx.end == s.os.n && s.delivered + s.os.n <= |s.body| &&
                                 (s.os.n == 0 <==> s.delivered == |s.body|)) ||
            (s.os == Idle && (s.reported || s.ctx.error.Some?)))
      case DataAvailable => s.os == Idle && 0 < s.ctx.end <= |s.body| - s.delivered && s.ctx.start == 0
      case Reading =>
        && s.ctx.start == s.ctx.end == 0
        && ((s.os.Filling? && 0 < s.os.len <= |s.ctx.buffer.bytes| && s.ctx.buffer.Owned?) ||
            (s.os == Idle && (s.reported || s.ctx.error.Some?)))
      case Completed => s.os == Idle && s.ctx.start == s.ctx.end <= |s.ctx.buffer.bytes| && s.delivered == |s.body|
      case _ => false
    }
  }

  /** What has been consumed and what is still buffered is exactly what has been delivered. */
  predicate Conserved(s: Sys) {
    s.delivered <= |s.body| && s.consumed + Available(s) == s.body[..s.delivered]
  }

  /** A pending future has an operation under way or has been woken since, until an error was reported. */
  predicate Awaited(s: Sys) {
    && s.ctx.waker <= s.polls && (forall w | w in s.ctx.woken :: w <= s.polls)
    && (s.last.Pending? ==>
          && s.ctx.waker == s.polls
          && ((s.os != Idle || s.ctx.waker in s.ctx.woken) <==> !s.reported))
  }

  predicate Inv(s: Sys) {
    Matched(s) && Conserved(s) && Awaited(s) && s.last != Crashed
  }

  lemma InitialInv(s: Sys)
    requires Initial(s)
    ensures Inv(s)
  {
  }

  lemma PollKeepsMatched(s: Sys, want: nat, startOk: bool)
    requires Inv(s)
    ensures Matched(Apply(s, Poll(want, startOk))) && Apply(s, Poll(want, startOk)).last != Crashed
  {
    hide Conserved, Awaited;
  }

  lemma SplitSlice(b: seq<byte>, lo: nat, n: nat, hi: nat)
    requires lo + n <= hi <= |b|
    ensures b[lo..hi] == b[lo..lo + n] + b[lo + n..hi]
  {
  }

  lemma ConsumeGivesFront(c: Ctx, want: nat, poll: nat, startOk: bool)
    requires c.start <= c.end <= |c.buffer.bytes| && (c.state == HeadersReceived || c.state == Completed)
    ensures var p := Consume(c, want, poll, startOk);
      if p.outcome.Ready? then
        InBuffer(c) == p.outcome.bytes + InBuffer(p.ctx) && |p.outcome.bytes| == Min(want, |InBuffer(c)|)
      else InBuffer(c) == InBuffer(p.ctx) == []
  {
    SplitSlice(c.buffer.bytes, c.start, Min(want, c.end - c.start), c.end);
  }

  /** What a poll gives out is the front of what was available, as much of it as its caller has room for. */
  lemma PollGivesFront(s: Sys, want: nat, startOk: bool)
    requires Matched(s)
    ensures var t := Apply(s, Poll(want, startOk));
      if t.last.Ready? then
        Available(s) == t.last.bytes + Available(t) && |t.last.bytes| == Min(want, |Available(s)|)
      else Available(s) == Available(t) == []
  {
    if s.ctx.error.None? && (s.ctx.state == HeadersReceived || s.ctx.state == Completed) {
      ConsumeGivesFront(s.ctx, want, s.polls + 1, startOk);
      assert PollEffect(s.ctx, want, s.polls + 1, startOk) == Consume(s.ctx, want, s.polls + 1, startOk);
      hide Consume, InBuffer, PollEffect, Matched;
    } else {
      hide Grown, Consume;
      assert Available(s) == [];
    }
  }

  lemma PollKeepsConserved(s: Sys, want: nat, startOk: bool)
    requires Matched(s) && Conserved(s)
    ensures Conserved(Apply(s, Poll(want, startOk)))
  {
    hide Matched, Available, PollEffect;
    PollGivesFront(s, want, startOk);
    var t := Apply(s, Poll(want, startOk));
    if t.last.Ready? {
      Assoc(s.consumed, t.last.bytes, Available(t));
    }
  }

  lemma PollKeepsAwaited(s: Sys, want: nat, startOk: bool)
    requires Matched(s) && Awaited(s)
    ensures Awaited(Apply(s, Poll(want, startOk)))
  {
    hide Grown;
  }

  lemma PollKeepsInv(s: Sys, want: nat, startOk: bool)
    requires Inv(s)
    ensures Inv(Apply(s, Poll(want, startOk)))
  {
    PollKeepsMatched(s, want, startOk);
    PollKeepsConserved(s, want, startOk);
    PollKeepsAwaited(s, want, startOk);
  }

  lemma CallbackKeepsInv(s: Sys, e: Event)
    requires Inv(s) && Enabled(s, e) && !e.Poll?
    ensures Inv(Apply(s, e))
  {
    var t := Apply(s, e);
    if e.ReadDone? {
      assert Available(s) == [];
      assert t.delivered == s.delivered + e.n;
      if e.n > 0 {
        assert Available(t) == s.body[s.delivered..s.delivered + e.n];
      }
      assert s.body[..t.delivered] == s.body[..s.delivered] + s.body[s.delivered..t.delivered];
    }
  }

  /** `handle_data_available`, the answer to a query: both of its critical sections. */
  method HandleDataAvailable(ctx: RequestContext, n: nat)
    modifies ctx
    ensures forall s: Sys {:trigger Enabled(s, QueryAnswered(n))} | s.ctx == old(ctx.View()) &&
        Enabled(s, QueryAnswered(n)) ::
              ctx.View() == Apply(Apply(s, QueryAnswered(n)), Announced).ctx
  {
    ctx.SetBytesAvailable(n);
    ctx.TransitionState(if n == 0 then Completed else DataAvailable);
  }

  /** `handle_read_complete`, once the system has filled the front of the buffer. */
  method HandleReadComplete(ctx: RequestContext, filled: seq<byte>)
    requires |filled| <= |ctx.buffer.bytes|
    modifies ctx
    ensures forall s: Sys {:trigger Enabled(s, ReadDone(|filled|))} |
              s.ctx == old(ctx.View()) && Enabled(s, ReadDone(|filled|)) &&
              s.body[s.delivered..s.delivered + |filled|] == filled ::
              ctx.View() == Apply(s, ReadDone(|filled|)).ctx
  {
    ctx.buffer := ctx.buffer.(bytes := filled + ctx.buffer.bytes[|filled|..]);
    ctx.SetReadComplete(0, |filled|);
  }

  /** `handle_request_error`. */
  method HandleRequestError(ctx: RequestContext, code: int)
    modifies ctx
    ensures forall s: Sys {:trigger Enabled(s, RequestFailed(code))} | s.ctx == old(ctx.View()) &&
        Enabled(s, RequestFailed(code)) ::
              ctx.View() == Apply(s, RequestFailed(code)).ctx
  {
    ctx.SetError(code);
  }

  /** Any interleaving of polls and callbacks, one critical section at a time. */
  predicate Run(s: Sys, events: seq<Event>, t: Sys)
    decreases |events|
  {
    if events == [] then s == t
    else Enabled(s, events[0]) && Run(Apply(s, events[0]), events[1..], t)
  }

  lemma {:induction false} RunKeepsInv(s: Sys, events: seq<Event>, t: Sys)
    requires Inv(s) && Run(s, events, t)
    ensures Inv(t) && t.body == s.body
    decreases |events|
  {
    if events != [] {
      var e := events[0];
      StepKeepsInv(s, e);
      RunKeepsInv(Apply(s, e), events[1..], t);
    }
  }

  lemma EmptyReadIsTheEnd(s: Sys, want: nat, startOk: bool)
    requires Inv(s) && want > 0 && Apply(s, Poll(want, startOk)).last == Ready([])
    ensures Apply(s, Poll(want, startOk)).consumed == s.body
  {
    assert s.ctx.state == Completed;
    assert s.body[..s.delivered] == s.body;
    assert s.consumed + [] == s.consumed;
  }

  lemma ConsumedIsPrefix(s: Sys)
    requires Conserved(s)
    ensures s.consumed <= s.body
  {
  }

  /** Whatever the interleaving, the bytes given out are a prefix of the body, no poll crashes, and a poll that
      returns no bytes to a non-empty buffer has seen the whole body. */
  lemma ReadsAreFaithful(s: Sys, events: seq<Event>, t: Sys, want: nat, startOk: bool)
    requires Initial(s) && Run(s, events, t)
    ensures t.consumed <= t.body == s.body && t.last != Crashed
    ensures var u := Apply(t, Poll(want, startOk));
      u.last != Crashed && (want > 0 && u.last == Ready([]) ==> u.consumed == s.body)
  {
    InitialInv(s);
    RunKeepsInv(s, events, t);
    hide Matched, Conserved, Awaited, PollEffect;
    ConsumedIsPrefix(t);
    PollKeepsInv(t, want, startOk);
    if want > 0 && Apply(t, Poll(want, startOk)).last == Ready([]) {
      EmptyReadIsTheEnd(t, want, startOk);
    }
  }

  /** A pending future is never forgotten, exactly as long as no error has been reported: while none has, an
      operation is under way or the waker of the last poll has been woken; after one, neither is the case. */
  lemma PendingIsAwaitedIff(s: Sys, events: seq<Event>, t: Sys)
    requires Initial(s) && Run(s, events, t) && t.last.Pending?
    ensures (t.os != Idle || t.ctx.waker in t.ctx.woken) <==> !t.reported
  {
    InitialInv(s);
    RunKeepsInv(s, events, t);
  }

  /** After a reported error the future stays pending however often it is polled. */
  lemma {:induction false} ErrorIsFinal(s: Sys, events: seq<Event>, t: Sys)
    requires Inv(s) && s.reported && Run(s, events, t)
    ensures t.reported && t.consumed == s.consumed && (events != [] ==> t.last.Pending?)
    decreases |events|
  {
    if events != [] {
      var e := events[0];
      assert e.Poll?;
      PollKeepsInv(s, e.want, e.startOk);
      ErrorIsFinal(Apply(s, e), events[1..], t);
    }
  }

  /** Such a run: a query that fails is reported once, and the next poll waits for nothing. */
  lemma ErrorStrandsTheFuture(s: Sys)
    requires Initial(s)
    ensures var events := [Poll(1, true), RequestFailed(7), Poll(1, true), Poll(1, true)];
      exists t :: Run(s, events, t) && t.last == Pending && t.os == Idle && t.ctx.waker !in t.ctx.woken
  {
    var s1 := Apply(s, Poll(1, true));
    var s2 := Apply(s1, RequestFailed(7));
    var s3 := Apply(s2, Poll(1, true));
    var s4 := Apply(s3, Poll(1, true));
    var events := [Poll(1, true), RequestFailed(7), Poll(1, true), Poll(1, true)];
    assert events[1..][1..][1..][1..] == [];
    assert events[1..][1..][1..][0] == events[1..][1..][0] == events[0];
    assert Run(s4, events[1..][1..][1..][1..], s4);
    assert Run(s3, events[1..][1..][1..], s4);
    assert Run(s2, events[1..][1..], s4);
    assert Run(s1, events[1..], s4);
    assert Run(s, events, s4);
  }

  /** One poll, or one critical section of a callback, on the shared context. */
  method Perform(response: WinHttpAsyncResponse, e: Event, polls: nat, arriving: seq<byte>, ghost s: Sys)
    requires response.ctx.View() == s.ctx && Matched(s) && Enabled(s, e) && polls == s.polls
    requires e.ReadDone? ==> arriving == s.body[s.delivered..s.delivered + e.n]
    modifies response.ctx
    ensures response.ctx.View() == Apply(s, e).ctx
  {
    match e {
      case Poll(want, startOk) =>
        var _, _ := response.PollConsumeData(want, polls + 1, startOk);
      case QueryAnswered(n) =>
        response.ctx.SetBytesAvailable(n);
      case Announced =>
        response.ctx.TransitionState(if response.ctx.end == 0 then Completed else DataAvailable);
      case ReadDone(n) =>
        HandleReadComplete(response.ctx, arriving);
      case RequestFailed(code) =>
        HandleRequestError(response.ctx, code);
    }
  }

  /** Through any schedule of polls and callbacks the shared context goes as the machine does. */
  method Drive(response: WinHttpAsyncResponse, body: seq<byte>, events: seq<Event>, ghost s: Sys, ghost t: Sys)
    requires Initial(s) && response.ctx.View() == s.ctx && s.body == body && s.polls == 0
    requires Run(s, events, t)
    modifies response.ctx
    ensures response.ctx.View() == t.ctx
  {
    InitialInv(s);
    hide PollEffect, Conserved, Awaited;
    ghost var u := s;
    var polls, delivered := 0, 0;
    for i := 0 to |events|
      invariant Run(u, events[i..], t) && Inv(u) && u.body == body
      invariant response.ctx.View() == u.ctx && polls == u.polls && delivered == u.delivered <= |body|
    {
      var e := events[i];
      assert events[i..][1..] == events[i + 1..];
      Perform(response, e, polls, if e.ReadDone? then body[delivered..delivered + e.n] else [], u);
      StepKeepsInv(u, e);
      u := Apply(u, e);
      if e.Poll? {
        polls := polls + 1;
      } else if e.ReadDone? {
        delivered := delivered + e.n;
      }
    }
  }

  lemma StepKeepsInv(s: Sys, e: Event)
    requires Inv(s) && Enabled(s, e)
    ensures Inv(Apply(s, e)) && Apply(s, e).body == s.body
  {
    if e.Poll? {
      PollKeepsInv(s, e.want, e.startOk);
    } else {
      CallbackKeepsInv(s, e);
    }
  }

  /** What the system announces is asked for in full, with room for it. */
  lemma AnnouncedIsAskedFor(s: Sys, events: seq<Event>, t: Sys, want: nat)
    requires Initial(s) && Run(s, events, t) && t.os.Announcing? && t.os.n > 0
    ensures var u := Apply(Apply(t, Announced), Poll(want, true));
      u.last == Pending && u.os == Filling(t.os.n) && |u.ctx.buffer.bytes| >= t.os.n
  {
    InitialInv(s);
    RunKeepsInv(s, events, t);
  }

  /** An error that the system reports is what the next poll tells; an operation that it does not start fails at once;
      and no poll tells any other error. */
  lemma ErrorIsTold(s: Sys, events: seq<Event>, t: Sys, want: nat, startOk: bool)
    requires Initial(s) && Run(s, events, t)
    ensures forall code | Enabled(t, RequestFailed(code)) ::
              Apply(Apply(t, RequestFailed(code)), Poll(want, startOk)).last == Failed(code)
    ensures var u := Apply(t, Poll(want, startOk));
      u.last.Failed? <==> t.ctx.error.Some? || (!startOk && Apply(t, Poll(want, true)).os != t.os)
    ensures t.ctx.error.Some? ==> RequestFailed(t.ctx.error.value) in events
  {
    InitialInv(s);
    RunKeepsInv(s, events, t);
    ErrorsComeFromCallbacks(s, events, t);
  }

  lemma {:induction false} ErrorsComeFromCallbacks(s: Sys, events: seq<Event>, t: Sys)
    requires Run(s, events, t)
    ensures t.ctx.error.Some? ==> s.ctx.error == t.ctx.error || RequestFailed(t.ctx.error.value) in events
    decreases |events|
  {
    if events != [] {
      ErrorsComeFromCallbacks(Apply(s, events[0]), events[1..], t);
      assert events[0] in events && forall e | e in events[1..] :: e in events;
    }
  }

  /** Some run goes on to a poll with room that returns no bytes and has seen the whole body. */
  ghost predicate CanReachTheEnd(s: Sys) {
    exists events, t :: Run(s, events, t) && Ends(events, t)
  }

  predicate Ends(events: seq<Event>, t: Sys) {
    && events != [] && events[|events| - 1].Poll? && events[|events| - 1].want > 0
    && t.last == Ready([]) && t.consumed == t.body
  }

  lemma EndStepBack(s: Sys, e: Event)
    requires Enabled(s, e) && CanReachTheEnd(Apply(s, e))
    ensures CanReachTheEnd(s)
  {
    var events, t :| Run(Apply(s, e), events, t) && Ends(events, t);
    var longer := [e] + events;
    assert longer[1..] == events && longer[|longer| - 1] == events[|events| - 1];
    assert Run(s, longer, t) && Ends(longer, t);
  }

  /** How far a state is from the next read. */
  function Distance(s: Sys): nat {
    match s.ctx.state
    case HeadersReceived => 5
    case QueryingData => if s.os == Querying then 4 else 3
    case DataAvailable => 2
    case Reading => 1
    case _ => 0
  }

  /** The next step of a reader and a system that do all they can. */
  function NextStep(s: Sys): Event {
    match s.ctx.state
    case QueryingData => if s.os == Querying
        then QueryAnswered(if s.delivered <= |s.body| then |s.body| - s.delivered else 0) else Announced
    case Reading =>
      ReadDone(if s.os.Filling? && s.delivered <= |s.body| then Min(s.os.len, |s.body| - s.delivered) else 0)
    case _ => Poll(if Available(s) == [] then 1 else |Available(s)|, true)
  }

  lemma {:induction false} HealthyReachesTheEnd(s: Sys)
    requires Inv(s) && !s.reported && s.ctx.error.None?
    ensures CanReachTheEnd(s)
    decreases |s.body| - s.delivered, |Available(s)|, Distance(s)
  {
    var e := NextStep(s);
    NextStepComesNearer(s);
    StepKeepsInv(s, e);
    if s.ctx.state == Completed {
      CompletedEnds(s);
    } else {
      hide Inv, Apply, Enabled, NextStep, Distance, Available;
      HealthyReachesTheEnd(Apply(s, e));
      EndStepBack(s, e);
    }
  }

  lemma CompletedEnds(s: Sys)
    requires Inv(s) && !s.reported && s.ctx.error.None? && s.ctx.state == Completed
    ensures CanReachTheEnd(s)
  {
    var e := Poll(1, true);
    var t := Apply(s, e);
    assert t.last == Ready([]);
    EmptyReadIsTheEnd(s, 1, true);
    assert [e][1..] == [] && Run(t, [], t);
    assert Run(s, [e], t) && Ends([e], t);
  }

  lemma NextStepComesNearer(s: Sys)
    requires Inv(s) && !s.reported && s.ctx.error.None?
    ensures Enabled(s, NextStep(s))
    ensures s.ctx.state != Completed ==>
      var t := Apply(s, NextStep(s));
      && !t.reported && t.ctx.error.None? && t.body == s.body && s.delivered <= t.delivered <= |s.body|
      && (t.delivered == s.delivered ==>
            |Available(t)| < |Available(s)| || (|Available(t)| == |Available(s)| && Distance(t) < Distance(s)))
  {
  }

  /** In every run the body can still be read to its end exactly as long as no error was reported, by the system or
      by a poll. */
  lemma EndCanBeReachedIff(s: Sys, events: seq<Event>, t: Sys)
    requires Initial(s) && Run(s, events, t)
    ensures CanReachTheEnd(t) <==> !t.reported && t.ctx.error.None?
  {
    InitialInv(s);
    RunKeepsInv(s, events, t);
    if !t.reported && t.ctx.error.None? {
      HealthyReachesTheEnd(t);
    } else if CanReachTheEnd(t) {
      var later, u :| Run(t, later, u) && Ends(later, u);
      FailedNeverEnds(t, later, u);
    }
  }

  lemma FailedNeverEnds(s: Sys, events: seq<Event>, t: Sys)
    requires Inv(s) && (s.reported || s.ctx.error.Some?) && Run(s, events, t) && events != []
    ensures t.last != Ready([])
  {
    if s.reported {
      ErrorIsFinal(s, events, t);
    } else {
      var u := Apply(s, events[0]);
      StepKeepsInv(s, events[0]);
      ErrorIsFinal(u, events[1..], t);
    }
  }
}
