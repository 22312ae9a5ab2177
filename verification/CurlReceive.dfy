/** Receive back-pressure of the curl async backend: curl's callbacks, the reading handle and the queued unpauses. */
module CurlReceive {
  import opened Bytes
  import opened CurlHeaders

  /** One callback that curl has still to make. */
  datatype Item = Line(data: seq<byte>) | Chunk(data: seq<byte>)

  datatype Result = Unfinished | Done(ok: bool)

  datatype Outcome = NotPolled | Pending | Got(bytes: seq<byte>) | End | Failed

  datatype Link = Link(
    head: Head,           // the state shared by the callbacks and the handle
    paused: bool,         // whether receiving is paused
    items: seq<Item>,     // the callbacks to come; a paused chunk is still the first of them
    over: bool,           // whether curl has reported the end of the transfer or its failure
    result: Result,
    sent: bool,           // `is_recv_unpause_sent`
    queued: nat,          // the `UnpauseRecvHandle` tasks in the loop's queue
    consumed: seq<byte>,  // what the handle has given out
    last: Outcome         // the outcome of the last poll
  )

  /** `AsyncHandler::header`, `AsyncHandler::write`. */
  function HeaderCalled(s: Link, data: seq<byte>): Link {
    var (head, ended) := PushHeader(s.head, data);
    s.(head := head, paused := s.paused || ended)
  }

  function WriteCalled(s: Link, data: seq<byte>): (Link, bool) {
    if s.head.buffer != [] then (s.(paused := true), false)
    else (s.(head := WriteBody(s.head, data)), true)
  }

  /** `poll_bytes` with a callback that takes up to `want` bytes. */
  function PollCalled(s: Link, want: nat): Link {
    if s.head.buffer != [] then
      var n := Min(want, |s.head.buffer|);
      s.(head := s.head.(buffer := s.head.buffer[n..]), sent := false,
         consumed := s.consumed + s.head.buffer[..n], last := Got(s.head.buffer[..n]))
    else if s.result.Done? then
      s.(result := Unfinished, sent := false, last := if s.result.ok then End else Failed)
    else
      s.(sent := true, queued := if s.sent then s.queued else s.queued + 1, last := Pending)
  }

  /** The shared state of one request: each method is one critical section. */
  class SharedRequest {
    const state: RequestState
    var paused: bool
    var result: Result
    var isRecvUnpauseSent: bool
    var unpauses: nat

    constructor ()
      ensures fresh(state) && state.View() == NEW_HEAD
      ensures !paused && result == Unfinished && !isRecvUnpauseSent && unpauses == 0
    {
      state := new RequestState();
      paused, result, isRecvUnpauseSent, unpauses := false, Unfinished, false, 0;
    }

    ghost function View(items: seq<Item>, over: bool, consumed: seq<byte>, last: Outcome): Link
      reads this, state
    {
      Link(state.View(), paused, items, over, result, isRecvUnpauseSent, unpauses, consumed, last)
    }

    method Header(data: seq<byte>)
      modifies this, state
      ensures forall items, over, consumed, last ::
        View(items, over, consumed, last) == HeaderCalled(old(View(items, over, consumed, last)), data)
      ensures paused <==> old(paused) || PushHeader(old(state.View()), data).1
    {
      var ended := state.PushHeaderData(data);
      if ended {
        paused := true;
      }
    }

    /** Takes the whole chunk or asks curl to pause and come back with it. */
    method Write(data: seq<byte>) returns (taken: bool)
      modifies this, state
      ensures forall items, over, consumed, last ::
        (View(items, over, consumed, last), taken) == WriteCalled(old(View(items, over, consumed, last)), data)
      ensures taken <==> old(state.responseBuffer) == []
      ensures taken ==> paused == old(paused) && state.responseBuffer == data && state.headerFinished
      ensures !taken ==> paused && state.View() == old(state.View())
    {
      if state.DataAvailable() {
        paused := true;
        return false;
      }
      state.WriteData(data);
      return true;
    }

    method PollBytes(want: nat) returns (outcome: Outcome)
      modifies this, state
      ensures forall items, over, consumed, last ::
        View(items, over, if outcome.Got? then consumed + outcome.bytes else consumed, outcome) ==
        PollCalled(old(View(items, over, consumed, last)), want)
      ensures old(state.responseBuffer) != [] ==>
        && outcome == Got(old(state.responseBuffer)[..Min(want, |old(state.responseBuffer)|)])
        && outcome.bytes + state.responseBuffer == old(state.responseBuffer)
        && !isRecvUnpauseSent && unpauses == old(unpauses) && result == old(result)
      ensures old(state.responseBuffer) == [] && old(result).Done? ==>
        && outcome == (if old(result).ok then End else Failed)
        && result == Unfinished && !isRecvUnpauseSent && unpauses == old(unpauses)
      ensures old(state.responseBuffer) == [] && !old(result).Done? ==>
        && outcome == Pending && isRecvUnpauseSent && result == Unfinished
        && unpauses == old(unpauses) + if old(isRecvUnpauseSent) then 0 else 1
    {
      if state.DataAvailable() {
        var n := Min(want, |state.responseBuffer|);
        outcome := Got(state.responseBuffer[..n]);
        state.responseBuffer := state.responseBuffer[n..];
        isRecvUnpauseSent := false;
        return;
      }
      if result.Done? {
        outcome := if result.ok then End else Failed;
        result := Unfinished;
        isRecvUnpauseSent := false;
        return;
      }
      if !isRecvUnpauseSent {
        unpauses := unpauses + 1;
      }
      isRecvUnpauseSent := true;
      outcome := Pending;
    }
  }

  datatype Event =
    | Deliver          // curl makes its next callback
    | Complete         // curl reports the end of the transfer
    | Fail             // curl reports the failure of the transfer
    | Poll(want: nat)  // the reader polls
    | Unpause          // the loop performs the first queued unpause
    | UnpauseFails     // that unpause fails: its error becomes the result, and the transfer goes on
    | SendSide         // a pause or an unpause of the sending side, whose mask leaves receiving unpaused

  predicate Enabled(s: Link, e: Event) {
    match e
    case Deliver => !s.over && !s.paused && s.items != []
    case Complete => !s.over && s.items == []
    case Fail => !s.over
    case Poll(_) => s.last != End && s.last != Failed && (s.head.finished || s.result == Done(true))
    case Unpause => s.queued > 0
    case UnpauseFails => s.queued > 0
    case SendSide => true
  }

  function Apply(s: Link, e: Event): Link
    requires Enabled(s, e)
  {
    match e
    case Deliver =>
      (match s.items[0]
       case Line(d) => HeaderCalled(s, d).(items := s.items[1..])
       case Chunk(d) =>
         var (t, taken) := WriteCalled(s, d);
         if taken then t.(items := s.items[1..]) else t)
    case Complete => s.(over := true, result := Done(true))
    case Fail => s.(over := true, result := Done(false))
    case Poll(want) => PollCalled(s, want)
    case Unpause => s.(queued := s.queued - 1, paused := false)
    case UnpauseFails => s.(queued := s.queued - 1, result := Done(false))
    case SendSide => s.(paused := false)
  }

  predicate Run(s: Link, events: seq<Event>, t: Link)
    decreases |events|
  {
    if events == [] then s == t
    else Enabled(s, events[0]) && Run(Apply(s, events[0]), events[1..], t)
  }

  function Start(script: seq<Item>): Link {
    Link(NEW_HEAD, false, script, false, Unfinished, false, 0, [], NotPolled)
  }

  function Body(items: seq<Item>): seq<byte> {
    if items == [] then []
    else (if items[0].Chunk? then items[0].data else []) + Body(items[1..])
  }

  predicate IsSuffix(a: seq<byte>, b: seq<byte>) {
    |a| <= |b| && b[|b| - |a|..] == a
  }

  /** Everything is consumed, buffered or still to come, in this order; the buffer holds one write at most. */
  ghost predicate Conserved(s: Link, script: seq<Item>) {
    && s.consumed + (s.head.buffer + Body(s.items)) == Body(script)
    && (s.head.buffer == [] || exists c :: Chunk(c) in script && IsSuffix(s.head.buffer, c))
    && (forall i | i in s.items :: i in script)
    && (s.result == Done(true) ==> s.items == [])
    && (s.last == End ==> s.items == [] && s.head.buffer == [])
  }

  lemma DeliverConserves(s: Link, script: seq<Item>)
    requires Conserved(s, script) && Enabled(s, Deliver)
    ensures Conserved(Apply(s, Deliver), script)
  {
    hide PushHeader;
    var t := Apply(s, Deliver);
    var item := s.items[0];
    assert item in s.items;
    if item.Line? {
      FinishedStays(s.head, item.data);
    }
    if item.Chunk? && s.head.buffer == [] {
      assert t.head.buffer == item.data;
      assert IsSuffix(item.data, item.data);
    }
  }

  lemma PollConserves(s: Link, script: seq<Item>, want: nat)
    requires Conserved(s, script) && Enabled(s, Poll(want))
    ensures Conserved(Apply(s, Poll(want)), script)
  {
    if s.head.buffer != [] {
      var n := Min(want, |s.head.buffer|);
      var given, kept := s.head.buffer[..n], s.head.buffer[n..];
      Assoc(given, kept, Body(s.items));
      Assoc(s.consumed, given, kept + Body(s.items));
      assert s.head.buffer == given + kept;
      var c :| Chunk(c) in script && IsSuffix(s.head.buffer, c);
      assert IsSuffix(kept, c);
    }
  }

  lemma {:induction false} RunConserves(s: Link, events: seq<Event>, t: Link, script: seq<Item>)
    requires Conserved(s, script) && Run(s, events, t)
    ensures Conserved(t, script)
    decreases |events|
  {
    if events != [] {
      var e := events[0];
      match e {
        case Deliver => DeliverConserves(s, script);
        case Poll(want) => PollConserves(s, script, want);
        case _ =>
      }
      RunConserves(Apply(s, e), events[1..], t, script);
    }
  }

  /** In every run, what the reader has got is a prefix of the body, the buffer behind it is part of one write,
      and the end is reported only when the reader has all of it. */
  lemma ReaderGetsTheBody(script: seq<Item>, events: seq<Event>, t: Link)
    requires Run(Start(script), events, t)
    ensures t.consumed + t.head.buffer + Body(t.items) == Body(script)
    ensures t.head.buffer == [] || exists c :: Chunk(c) in script && IsSuffix(t.head.buffer, c)
    ensures t.last == End ==> t.consumed == Body(script)
  {
    assert [] + ([] + Body(script)) == Body(script);
    RunConserves(Start(script), events, t, script);
    Assoc(t.consumed, t.head.buffer, Body(t.items));
  }

  /** A reader that waits while receiving is paused and no unpause is on its way. */
  predicate Stranded(s: Link) {
    s.last == Pending && s.paused && s.head.buffer == [] && s.result == Unfinished && s.queued == 0
  }

  /** However long the run, nothing changes that but the end of the transfer, which does not come while callbacks are
      left, its failure, or the other direction's masks. */
  lemma {:induction false} StrandedForEver(s: Link, events: seq<Event>, t: Link)
    requires Stranded(s) && s.sent && Run(s, events, t) && Fail !in events && SendSide !in events
    requires s.items == [] ==> Complete !in events
    ensures Stranded(t) && t.items == s.items && t.consumed == s.consumed
    decreases |events|
  {
    if events != [] {
      assert events[0] in events;
      StrandedForEver(Apply(s, events[0]), events[1..], t);
    }
  }

  /** What of the header state decides which lines end a header. */
  function Key(h: Head): Head {
    h.(headers := [], buffer := [])
  }

  /** Whether some line ends a header although the header had already been finished. */
  predicate Reopens(k: Head, items: seq<Item>)
    decreases |items|
  {
    items != [] &&
    match items[0] {
      case Line(d) => (k.finished && PushHeader(k, d).1) || Reopens(Key(PushHeader(k, d).0), items[1..])
      case Chunk(_) => Reopens(k.(finished := true), items[1..])
    }
  }

  lemma KeyDecides(h: Head, d: seq<byte>)
    ensures PushHeader(h, d).1 == PushHeader(Key(h), d).1
    ensures Key(PushHeader(h, d).0) == Key(PushHeader(Key(h), d).0)
  {
  }

  /** While no header reopens, an unpause that was sent and performed is never undone by a pause. */
  predicate Flowing(s: Link) {
    && !Reopens(Key(s.head), s.items)
    && (s.sent ==> s.head.finished)
    && (s.last == Pending ==> s.sent)
    && !(s.sent && s.paused && s.queued == 0 && s.head.buffer == [] && s.result == Unfinished)
  }

  lemma StepFlows(s: Link, e: Event)
    requires Flowing(s) && Enabled(s, e)
    ensures Flowing(Apply(s, e))
  {
    hide PushHeader;
    if e.Deliver? && s.items[0].Line? {
      KeyDecides(s.head, s.items[0].data);
      FinishedStays(s.head, s.items[0].data);
    }
  }

  lemma FinishedStays(h: Head, d: seq<byte>)
    ensures h.finished ==> PushHeader(h, d).0.finished
    ensures PushHeader(h, d).0.buffer == h.buffer
    ensures PushHeader(h, d).1 ==> PushHeader(h, d).0.finished
  {
  }

  lemma {:induction false} RunFlows(s: Link, events: seq<Event>, t: Link)
    requires Flowing(s) && Run(s, events, t)
    ensures Flowing(t)
    decreases |events|
  {
    if events != [] {
      StepFlows(s, events[0]);
      RunFlows(Apply(s, events[0]), events[1..], t);
    }
  }

  predicate EndsInChunk(items: seq<Item>) {
    items != [] && items[|items| - 1].Chunk?
  }

  /** Some run without help from the sending side strands the reader; when the last callback is a chunk, with callbacks
      left. */
  ghost predicate CanStrand(s: Link) {
    exists events, t :: Strands(s, events, t)
  }

  predicate Strands(s: Link, events: seq<Event>, t: Link) {
    Run(s, events, t) && SendSide !in events && Stranded(t) && t.sent && (EndsInChunk(s.items) ==> t.items != [])
  }

  lemma StepBack(s: Link, e: Event)
    requires Enabled(s, e) && e != SendSide && CanStrand(Apply(s, e))
    requires EndsInChunk(s.items) ==> EndsInChunk(Apply(s, e).items)
    ensures CanStrand(s)
  {
    var events, t :| Strands(Apply(s, e), events, t);
    var longer := [e] + events;
    assert longer[1..] == events;
    assert Strands(s, longer, t);
  }

  /** The transfer runs, and the reader has not been told that it is over. */
  predicate Reading(s: Link) {
    !s.over && s.result == Unfinished && s.last != End && s.last != Failed
  }

  /** Nothing buffered, nothing queued, nothing paused. */
  predicate Drained(s: Link) {
    Reading(s) && !s.paused && s.head.buffer == [] && s.queued == 0 && (s.sent ==> s.head.finished)
  }

  /** Polling an empty buffer and letting the loop perform the unpause. */
  lemma PollAndUnpause(s: Link)
    requires Reading(s) && s.head.finished && s.head.buffer == [] && s.queued == 0 && (s.sent ==> !s.paused)
    ensures var u := s.(sent := true, paused := false, last := Pending);
      CanStrand(u) ==> CanStrand(s)
  {
    var u := s.(sent := true, paused := false, last := Pending);
    if CanStrand(u) {
      var p := Apply(s, Poll(1));
      if s.sent {
        assert p == u;
      } else {
        assert Apply(p, Unpause) == u;
        StepBack(p, Unpause);
      }
      StepBack(s, Poll(1));
    }
  }

  /** A header that reopens can strand its reader: deliver everything before it as fast as it is read. */
  lemma {:induction false} ReopenedCanStrand(s: Link)
    requires Drained(s) && Reopens(Key(s.head), s.items)
    ensures CanStrand(s)
    decreases |s.items|
  {
    hide PushHeader;
    var item := s.items[0];
    var t := Apply(s, Deliver);
    if item.Chunk? {
      var u := t;
      if item.data != [] {
        assert t.head.buffer == item.data;
        u := Apply(t, Poll(|item.data|));
        assert u.head.buffer == [];
        ReopenedCanStrand(u);
        StepBack(t, Poll(|item.data|));
      } else {
        ReopenedCanStrand(t);
      }
      StepBack(s, Deliver);
    } else {
      KeyDecides(s.head, item.data);
      FinishedStays(s.head, item.data);
      if !PushHeader(s.head, item.data).1 {
        ReopenedCanStrand(t);
        StepBack(s, Deliver);
      } else if s.head.finished {
        var w := s.(sent := true, last := Pending);
        var x := Apply(w, Deliver);
        assert Strands(x, [], x);
        StepBack(w, Deliver);
        PollAndUnpause(s);
      } else {
        ReopenedCanStrand(t.(sent := true, paused := false, last := Pending));
        PollAndUnpause(t);
        StepBack(s, Deliver);
      }
    }
  }

  lemma NeverStrands(script: seq<Item>, events: seq<Event>, t: Link)
    requires Run(Start(script), events, t) && !Reopens(NEW_HEAD, script)
    ensures !Stranded(t)
  {
    assert Key(NEW_HEAD) == NEW_HEAD;
    RunFlows(Start(script), events, t);
  }

  /** A response can strand its reader exactly when one of its lines ends a header that was already finished. Behind a
      header with a body, callbacks are then left, so that `StrandedForEver` needs no assumption about the end. */
  lemma StrandsIffReopened(script: seq<Item>)
    ensures CanStrand(Start(script)) <==> Reopens(NEW_HEAD, script)
  {
    var s := Start(script);
    assert Key(NEW_HEAD) == NEW_HEAD;
    if Reopens(NEW_HEAD, script) {
      ReopenedCanStrand(s);
    }
    if CanStrand(s) {
      var events, t :| Strands(s, events, t);
      if !Reopens(NEW_HEAD, script) {
        RunFlows(s, events, t);
      }
    }
  }

  /** The header lines, then the body. */
  function Script(lines: seq<seq<byte>>, body: seq<seq<byte>>): seq<Item> {
    if lines != [] then [Line(lines[0])] + Script(lines[1..], body)
    else if body != [] then [Chunk(body[0])] + Script([], body[1..])
    else []
  }

  lemma {:induction false} ChunksDoNotReopen(k: Head, body: seq<seq<byte>>)
    ensures !Reopens(k, Script([], body))
    decreases |body|
  {
    if body != [] {
      ChunksDoNotReopen(k.(finished := true), body[1..]);
    }
  }

  lemma {:induction false} ReopensIffEnds(h: Head, lines: seq<seq<byte>>, body: seq<seq<byte>>)
    ensures Reopens(Key(h), Script(lines, body)) <==> PushAll(h, lines).1 + (if h.finished then 1 else 0) >= 2
    decreases |lines|
  {
    hide PushHeader;
    if lines == [] {
      ChunksDoNotReopen(Key(h), body);
    } else {
      KeyDecides(h, lines[0]);
      FinishedStays(h, lines[0]);
      FinishedOnlyAtAnEnd(h, lines[0]);
      ReopensIffEnds(PushHeader(h, lines[0]).0, lines[1..], body);
      assert Script(lines, body)[1..] == Script(lines[1..], body);
    }
  }

  lemma FinishedOnlyAtAnEnd(h: Head, d: seq<byte>)
    ensures PushHeader(h, d).0.finished <==> h.finished || PushHeader(h, d).1
  {
  }

  /** A response can strand its reader exactly when two of its header blocks are final, that is, neither a redirect,
      nor 100 Continue, nor a proxy's answer to CONNECT. */
  lemma StrandsIffTwoFinalBlocks(blocks: seq<Block>, body: seq<seq<byte>>)
    requires forall b | b in blocks :: b.WellFormed()
    ensures CanStrand(Start(Script(BlockLines(blocks), body))) <==> FinalBlocks(blocks) >= 2
  {
    StrandsIffReopened(Script(BlockLines(blocks), body));
    ReopensIffEnds(NEW_HEAD, BlockLines(blocks), body);
    assert Key(NEW_HEAD) == NEW_HEAD;
    BlocksPushed(NEW_HEAD, blocks);
  }

  /** 103 Early Hints in front of 200 OK is such a response. */
  lemma EarlyHintsStrand(body: seq<seq<byte>>)
    ensures var hints := Block(Ascii("HTTP/1.1"), 103, Ascii("Early Hints"), []);
      var ok := Block(Ascii("HTTP/1.1"), 200, Ascii("OK"), []);
      CanStrand(Start(Script(BlockLines([hints, ok]), body)))
  {
    hide PushHeader, CanStrand, Script;
    var hints := Block(Ascii("HTTP/1.1"), 103, Ascii("Early Hints"), []);
    var ok := Block(Ascii("HTTP/1.1"), 200, Ascii("OK"), []);
    assert !EqIgnoreCase(hints.reason, ESTABLISHED) by {
      assert |hints.reason| == 11 && |ESTABLISHED| == 22;
    }
    assert !EqIgnoreCase(ok.reason, ESTABLISHED);
    var blocks := [hints, ok];
    assert blocks[1..] == [ok] && blocks[1..][1..] == [];
    assert FinalBlocks([ok]) == 1;
    StrandsIffTwoFinalBlocks(blocks, body);
  }

  /** The error of a failed unpause can be lost: the transfer's success overwrites it before the reader has looked. */
  lemma UnpauseErrorCanBeLost(b: Block)
    requires b.WellFormed() && b.IsFinal() && b.fields == []
    ensures exists events, t :: Run(Start(Script(b.Lines(), [])), events, t) && UnpauseFails in events && t.last == End
  {
    hide PushHeader, Block.StatusLine, Block.WellFormed;
    var line := b.StatusLine();
    assert b.Lines() == [line, CRLF];
    assert [line, CRLF][1..] == [CRLF] && [CRLF][1..] == [];
    var script := [Line(line), Line(CRLF)];
    assert Script([CRLF], []) == [Line(CRLF)] + Script([], []);
    assert Script([line, CRLF], []) == [Line(line)] + Script([CRLF], []) == script;
    StatusLinePushed(NEW_HEAD, b);
    var h := NEW_HEAD.(status := b.code, established := EqIgnoreCase(b.reason, ESTABLISHED));
    BlankLineEnds(h);
    var s := Start(script).(head := h.(finished := true), paused := true, items := []);
    assert script[1..] == [Line(CRLF)] && script[1..][1..] == [];
    var rest := [Poll(1), UnpauseFails, Complete, Poll(1)];
    var t := s.(over := true, last := End);
    PausedReaderIsNotTold(s);
    var events := [Deliver, Deliver] + rest;
    assert events[1..] == [Deliver] + rest && events[1..][1..] == rest;
    assert events[3] == UnpauseFails;
    assert Run(Start(script), events, t);
  }

  lemma PausedReaderIsNotTold(s: Link)
    requires !s.over && s.items == [] && s.head.finished && s.head.buffer == [] && s.result == Unfinished && !s.sent
    requires s.last == NotPolled && s.queued == 0
    ensures Run(s, [Poll(1), UnpauseFails, Complete, Poll(1)], s.(over := true, last := End))
  {
    var rest := [Poll(1), UnpauseFails, Complete, Poll(1)];
    assert rest[1..] == [UnpauseFails, Complete, Poll(1)] && rest[1..][1..] == [Complete, Poll(1)];
    assert rest[1..][1..][1..] == [Poll(1)] && rest[1..][1..][1..][1..] == [];
  }

  lemma BlankLineEnds(h: Head)
    requires h.status !in CONTINUED && !h.established
    ensures PushHeader(h, CRLF) == (h.(finished := true), true)
  {
  }

  /** What a run without failures has not told, and what a pause or a buffered byte says about the header. */
  predicate Sane(s: Link) {
    && s.result != Done(false) && s.last != Failed
    && (s.over ==> s.items == [] && (s.result == Done(true) || s.last == End))
    && (s.paused || s.head.buffer != [] ==> s.head.finished)
  }

  lemma StepStaysSane(s: Link, e: Event)
    requires Sane(s) && Enabled(s, e) && e != Fail && e != UnpauseFails
    ensures Sane(Apply(s, e))
  {
    if e.Deliver? && s.items[0].Line? {
      FinishedStays(s.head, s.items[0].data);
    }
    hide PushHeader;
  }

  /** Without a failure the reader is told of none. */
  lemma {:induction false} RunStaysSane(s: Link, events: seq<Event>, t: Link)
    requires Sane(s) && Run(s, events, t) && Fail !in events && UnpauseFails !in events
    ensures Sane(t)
    decreases |events|
  {
    if events != [] {
      assert events[0] in events;
      StepStaysSane(s, events[0]);
      RunStaysSane(Apply(s, events[0]), events[1..], t);
    }
  }

  /** A failure of the transfer, once the buffer is empty, is what the next poll tells. */
  lemma FailureIsTold(s: Link, want: nat)
    requires Enabled(s, Fail) && s.head.buffer == [] && s.head.finished && s.last != End && s.last != Failed
    ensures Enabled(Apply(s, Fail), Poll(want)) && Apply(Apply(s, Fail), Poll(want)).last == Failed
  {
  }

  /** A chunk that finds bytes buffered is refused, which pauses receiving and changes nothing else. */
  lemma RefusedChunkPauses(s: Link)
    requires Enabled(s, Deliver) && s.items[0].Chunk? && s.head.buffer != []
    ensures Apply(s, Deliver) == s.(paused := true)
  {
  }

  /** A poll with bytes buffered gives as many of them as its caller has room for. */
  lemma BufferedIsGiven(s: Link, want: nat)
    requires Enabled(s, Poll(want)) && s.head.buffer != []
    ensures var t := Apply(s, Poll(want));
      && t.last.Got? && |t.last.bytes| == Min(want, |s.head.buffer|)
      && t.last.bytes + t.head.buffer == s.head.buffer && t.consumed == s.consumed + t.last.bytes
  {
  }

  /** Some run without a failure and without help from the sending side tells the reader the end. */
  ghost predicate CanEnd(s: Link) {
    exists events, t :: Run(s, events, t) && Unaided(events) && t.last == End
  }

  predicate Unaided(events: seq<Event>) {
    Fail !in events && UnpauseFails !in events && SendSide !in events
  }

  lemma EndStepBack(s: Link, e: Event)
    requires Enabled(s, e) && e != Fail && e != UnpauseFails && e != SendSide && CanEnd(Apply(s, e))
    ensures CanEnd(s)
  {
    var events, t :| Run(Apply(s, e), events, t) && Unaided(events) && t.last == End;
    var longer := [e] + events;
    assert longer[1..] == events;
    assert Run(s, longer, t) && Unaided(longer);
  }

  /** How far receiving is from going on. */
  function Hold(s: Link): nat {
    if !s.paused then 0 else if s.queued > 0 then 1 else 2
  }

  lemma {:induction false} FlowingCanEnd(s: Link)
    requires Flowing(s) && Sane(s)
    ensures CanEnd(s)
    decreases |s.items|, !s.over, |s.head.buffer|, Hold(s)
  {
    if s.last == End {
      assert Run(s, [], s) && Unaided([]);
    } else {
      var e :=
        if s.head.buffer != [] then Poll(|s.head.buffer|)
        else if s.result == Done(true) then Poll(1)
        else if s.paused then if s.queued > 0 then Unpause else Poll(1)
        else if s.items != [] then Deliver
        else Complete;
      StepFlows(s, e);
      StepStaysSane(s, e);
      var t := Apply(s, e);
      if s.result == Done(true) && s.head.buffer == [] {
        assert Run(t, [], t) && Unaided([]);
      } else {
        StepShrinks(s, e);
        FlowingCanEnd(t);
      }
      EndStepBack(s, e);
    }
  }

  lemma StepShrinks(s: Link, e: Event)
    requires Enabled(s, e) && !(s.result == Done(true) && s.head.buffer == [])
    requires e == (if s.head.buffer != [] then Poll(|s.head.buffer|)
                   else if s.paused then if s.queued > 0 then Unpause else Poll(1)
                   else if s.items != [] then Deliver
                   else Complete)
    requires s.paused && s.queued == 0 && s.head.buffer == [] ==> !s.sent && s.result == Unfinished
    ensures var t := Apply(s, e);
      if s.head.buffer != [] then t.items == s.items && t.over == s.over && t.head.buffer == []
      else if s.paused then
        t.items == s.items && t.over == s.over && t.head.buffer == s.head.buffer && Hold(t) < Hold(s)
      else if s.items != [] then |t.items| < |s.items|
      else t.items == s.items && !s.over && t.over
  {
    if e.Deliver? && s.items[0].Line? {
      FinishedStays(s.head, s.items[0].data);
    }
    hide PushHeader;
  }

  /** In every run without a failure of a response that ends no header twice, the reader can still be told the end, and
      then has the whole body. */
  lemma BodyCanBeRead(script: seq<Item>, events: seq<Event>, t: Link)
    requires Run(Start(script), events, t) && Fail !in events && UnpauseFails !in events && !Reopens(NEW_HEAD, script)
    ensures t.last != Failed && CanEnd(t)
  {
    assert Key(NEW_HEAD) == NEW_HEAD;
    RunFlows(Start(script), events, t);
    RunStaysSane(Start(script), events, t);
    FlowingCanEnd(t);
  }

  /** The polls of a run that did not pend. */
  function Answered(s: Link, events: seq<Event>): nat
    decreases |events|
  {
    if events == [] || !Enabled(s, events[0]) then 0
    else
      var t := Apply(s, events[0]);
      (if events[0].Poll? && t.last != Pending then 1 else 0) + Answered(t, events[1..])
  }

  /** The unpauses that a run performs. */
  function Performed(events: seq<Event>): nat {
    if events == [] then 0
    else (if events[0] == Unpause || events[0] == UnpauseFails then 1 else 0) + Performed(events[1..])
  }

  /** A reader queues one unpause while it waits, however often it is polled: in every run there are at most as many
      as polls that were answered, and one. */
  lemma UnpausesAreFew(script: seq<Item>, events: seq<Event>, t: Link)
    requires Run(Start(script), events, t)
    ensures t.queued + Performed(events) <= Answered(Start(script), events) + 1
  {
    CountUnpauses(Start(script), events, t);
  }

  lemma {:induction false} CountUnpauses(s: Link, events: seq<Event>, t: Link)
    requires Run(s, events, t)
    ensures t.queued + Performed(events) + (if t.sent then 0 else 1) <=
            s.queued + (if s.sent then 0 else 1) + Answered(s, events)
    decreases |events|
  {
    hide PushHeader;
    if events != [] {
      CountUnpauses(Apply(s, events[0]), events[1..], t);
    }
  }
}
