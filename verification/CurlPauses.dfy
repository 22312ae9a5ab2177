/** Both directions of one curl transfer: a pause call sets an absolute mask, so each direction unpauses the other. */
module CurlPauses {
  import opened Bytes
  import opened Streams
  import opened CurlHeaders
  import Recv = CurlReceive
  import Send = CurlUpload

  /** `taken`: the client has the response. Then the future that polls the upload is gone. */
  datatype Transfer = Transfer(recv: Recv.Link, send: Send.Pump, taken: bool)

  datatype Event = Receiving(r: Recv.Event) | Sending(s: Send.Event) | Take

  /** The event ends a header, which pauses receiving, or performs its unpause: either mask leaves sending unpaused. */
  predicate UnpausesSending(recv: Recv.Link, e: Recv.Event)
    requires Recv.Enabled(recv, e)
  {
    e.Unpause? || (e.Deliver? && recv.items[0].Line? && PushHeader(recv.head, recv.items[0].data).1)
  }

  predicate Enabled(t: Transfer, e: Event) {
    match e
    case Receiving(r) => !r.SendSide? && Recv.Enabled(t.recv, r) && (r.Poll? ==> t.taken)
    case Sending(s) =>
      && !s.RecvSide? && Send.Enabled(t.send, s)
      && (s.CurlReads? || s.CurlSeeks? ==> !t.recv.over) && (s.CurlReads? ==> s.len > 0)
      && (s.ClientPolls? ==> !t.taken)
    case Take => !t.taken && !t.send.over && (t.recv.head.finished || t.recv.result == Recv.Done(true))
  }

  /** The unpause of sending pauses it first and then unpauses both. */
  function Apply(t: Transfer, e: Event): Option<Transfer>
    requires Enabled(t, e)
  {
    match e
    case Receiving(r) =>
      Some(t.(recv := Recv.Apply(t.recv, r),
              send := if UnpausesSending(t.recv, r) then t.send.(paused := false) else t.send))
    case Sending(s) =>
      match Send.Apply(t.send, s) {
        case None => None
        case Some(send) => Some(t.(recv := if s.Unpause? then t.recv.(paused := false) else t.recv, send := send))
      }
    case Take => Some(t.(taken := true))
  }

  /** A pause or an unpause of one direction says of both what they are then. */
  lemma MasksAreAbsolute(t: Transfer, e: Event)
    requires Enabled(t, e) && Apply(t, e).Some?
    ensures var u := Apply(t, e).value;
      && (e == Receiving(Recv.Unpause) ==> !u.recv.paused && !u.send.paused)
      && (e == Sending(Send.Unpause) ==> !u.recv.paused && !u.send.paused)
      && (e == Receiving(Recv.Deliver) && t.recv.items[0].Line? && u.recv.paused ==> !u.send.paused)
  {
  }

  predicate Run(t: Transfer, events: seq<Event>, u: Transfer)
    decreases |events|
  {
    if events == [] then t == u
    else Enabled(t, events[0]) && var next := Apply(t, events[0]); next.Some? && Run(next.value, events[1..], u)
  }

  function Start(script: seq<Recv.Item>, content: seq<byte>, canSeek: bool): Transfer {
    Transfer(Recv.Start(script), Send.Start(content, canSeek), false)
  }

  /** A run of both directions is a run of each, with the other's masks as events of their own. */
  lemma {:induction false} RunSplits(t: Transfer, events: seq<Event>, u: Transfer)
    requires Run(t, events, u)
    ensures exists rs :: Recv.Run(t.recv, rs, u.recv)
    ensures exists ss :: Send.Run(t.send, ss, u.send)
    decreases |events|
  {
    if events == [] {
      assert Recv.Run(t.recv, [], u.recv) && Send.Run(t.send, [], u.send);
    } else {
      var e := events[0];
      var next := Apply(t, e).value;
      RunSplits(next, events[1..], u);
      var rs :| Recv.Run(next.recv, rs, u.recv);
      var ss :| Send.Run(next.send, ss, u.send);
      RecvStep(t, e, rs, u.recv);
      SendStep(t, e, ss, u.send);
    }
  }

  lemma RecvStep(t: Transfer, e: Event, rs: seq<Recv.Event>, last: Recv.Link)
    requires Enabled(t, e) && Apply(t, e).Some? && Recv.Run(Apply(t, e).value.recv, rs, last)
    ensures exists longer :: Recv.Run(t.recv, longer, last)
  {
    var first := if e.Receiving? then [e.r] else if e.Sending? && e.s.Unpause? then [Recv.SendSide] else [];
    var longer := first + rs;
    assert longer[|first|..] == rs;
    assert Recv.Run(t.recv, longer, last);
  }

  lemma SendStep(t: Transfer, e: Event, ss: seq<Send.Event>, last: Send.Pump)
    requires Enabled(t, e) && Apply(t, e).Some? && Send.Run(Apply(t, e).value.send, ss, last)
    ensures exists longer :: Send.Run(t.send, longer, last)
  {
    var first :=
      if e.Sending? then [e.s]
      else if e.Receiving? && UnpausesSending(t.recv, e.r) then [Send.RecvSide]
      else [];
    var longer := first + ss;
    assert longer[|first|..] == ss;
    assert Send.Run(t.send, longer, last);
  }

  /** Whatever the two directions do to each other's pauses: the reader has a prefix of the body, and all of it at the
      end; curl has a prefix of what was stale and then the stream; a paused upload has a request of its own, which is
      attended to until the response is taken, or an unpause on its way. */
  lemma BothDirectionsConserve(script: seq<Recv.Item>, content: seq<byte>, canSeek: bool, events: seq<Event>,
      u: Transfer)
    requires Run(Start(script, content, canSeek), events, u)
    ensures u.recv.consumed + u.recv.head.buffer + Recv.Body(u.recv.items) == Recv.Body(script)
    ensures u.recv.last == Recv.End ==> u.recv.consumed == Recv.Body(script)
    ensures u.send.from <= |content| && u.send.given <= u.send.stale + content[u.send.from..]
    ensures u.send.ended ==> (u.send.given == content[u.send.from..] <==> u.send.stale == [])
    ensures u.send.paused ==> u.send.shared.request.Read? || u.send.shared.request.Seek? || u.send.queued > 0
  {
    RunSplits(Start(script, content, canSeek), events, u);
    var rs :| Recv.Run(Recv.Start(script), rs, u.recv);
    Recv.ReaderGetsTheBody(script, rs, u.recv);
    var ss :| Send.Run(Send.Start(content, canSeek), ss, u.send);
    Send.CurlGetsTheStream(content, canSeek, ss, u.send, NotReady);
  }

  ghost predicate CanStrand(t: Transfer) {
    exists events, u :: Run(t, events, u) && Recv.Stranded(u.recv)
  }

  lemma {:induction false} RecvRunLifts(t: Transfer, rs: seq<Recv.Event>, last: Recv.Link)
      returns (events: seq<Event>, u: Transfer)
    requires Recv.Run(t.recv, rs, last) && Recv.SendSide !in rs && !t.send.over
    ensures Run(t, events, u) && u.recv == last
    decreases |rs|
  {
    if rs == [] {
      events, u := [], t;
    } else {
      var e := Receiving(rs[0]);
      assert rs[0] in rs;
      var rest;
      if rs[0].Poll? && !t.taken {
        var taken := t.(taken := true);
        rest, u := RecvRunLifts(Apply(taken, e).value, rs[1..], last);
        assert ([e] + rest)[1..] == rest && Run(taken, [e] + rest, u);
        events := [Take] + ([e] + rest);
        assert events[1..] == [e] + rest;
      } else {
        rest, u := RecvRunLifts(Apply(t, e).value, rs[1..], last);
        events := [e] + rest;
        assert events[1..] == rest;
      }
    }
  }

  /** Sharing the mask neither saves nor adds a response that can strand its reader. */
  lemma StrandsIffReopened(script: seq<Recv.Item>, content: seq<byte>, canSeek: bool)
    ensures CanStrand(Start(script, content, canSeek)) <==> Recv.Reopens(NEW_HEAD, script)
  {
    var t := Start(script, content, canSeek);
    Recv.StrandsIffReopened(script);
    if Recv.Reopens(NEW_HEAD, script) {
      var rs, last :| Recv.Strands(t.recv, rs, last);
      var events, u := RecvRunLifts(t, rs, last);
    } else if CanStrand(t) {
      var events, u :| Run(t, events, u) && Recv.Stranded(u.recv);
      RunSplits(t, events, u);
      var rs :| Recv.Run(t.recv, rs, u.recv);
      Recv.NeverStrands(script, rs, u.recv);
    }
  }

  /** A waiting reader has the response and has sent its unpause. */
  predicate Waiting(t: Transfer) {
    t.recv.last == Recv.Pending ==> t.taken && t.recv.sent
  }

  lemma {:induction false} RunWaits(t: Transfer, events: seq<Event>, u: Transfer)
    requires Waiting(t) && Run(t, events, u)
    ensures Waiting(u)
    decreases |events|
  {
    if events != [] {
      RunWaits(Apply(t, events[0]).value, events[1..], u);
    }
  }

  /** Some run without a failure of the transfer ends the reader's being stranded. */
  ghost predicate CanBeSaved(t: Transfer) {
    exists events, u :: Run(t, events, u) && Receiving(Recv.Fail) !in events && !Recv.Stranded(u.recv)
  }

  lemma {:induction false} StrandedStays(t: Transfer, events: seq<Event>, u: Transfer)
    requires Recv.Stranded(t.recv) && Waiting(t) && t.recv.items != [] && t.send.queued == 0
    requires Run(t, events, u) && Receiving(Recv.Fail) !in events
    ensures Recv.Stranded(u.recv)
    decreases |events|
  {
    if events != [] {
      assert events[0] in events;
      StrandedStays(Apply(t, events[0]).value, events[1..], u);
    }
  }

  /** In every run: with callbacks left, a stranded reader can be saved exactly by an unpause of the upload that is
      already queued. No later one comes, since the client polls its upload no more. */
  lemma StrandedIsSavedIff(script: seq<Recv.Item>, content: seq<byte>, canSeek: bool, events: seq<Event>, t: Transfer)
    requires Run(Start(script, content, canSeek), events, t) && Recv.Stranded(t.recv) && t.recv.items != []
    ensures CanBeSaved(t) <==> t.send.queued > 0
  {
    RunWaits(Start(script, content, canSeek), events, t);
    if t.send.queued > 0 {
      var u := Apply(t, Sending(Send.Unpause)).value;
      assert Run(u, [], u);
      assert [Sending(Send.Unpause)][1..] == [];
      assert Run(t, [Sending(Send.Unpause)], u);
    } else if CanBeSaved(t) {
      var later, u :| Run(t, later, u) && Receiving(Recv.Fail) !in later && !Recv.Stranded(u.recv);
      StrandedStays(t, later, u);
    }
  }

  /** Once the client has the response, curl gets no byte that was not read from the stream before, and is told the end
      of the stream only if that had been read. */
  lemma {:induction false} ResponseStopsTheUpload(t: Transfer, events: seq<Event>, u: Transfer)
    requires t.taken && Run(t, events, u)
    ensures u.send.given <= t.send.given + t.send.shared.Held()
    ensures t.send.shared.request.Seek? ==> u.send.given <= t.send.given
    ensures !t.send.ended && t.send.shared.request != Send.Eof ==> !u.send.ended && u.send.shared.request != Send.Eof
    decreases |events|
  {
    if events != [] {
      StepBehindTheResponse(t, events[0]);
      ResponseStopsTheUpload(Apply(t, events[0]).value, events[1..], u);
      hide Apply, Enabled;
    }
  }

  lemma StepBehindTheResponse(t: Transfer, e: Event)
    requires t.taken && Enabled(t, e) && Apply(t, e).Some?
    ensures var u := Apply(t, e).value;
      && u.taken
      && (if u.send.shared.request.Seek? then u.send.given <= t.send.given
          else u.send.given + u.send.shared.Held() == t.send.given + t.send.shared.Held())
      && (t.send.shared.request.Seek? ==> u.send.shared.request.Seek?)
      && (!t.send.ended && t.send.shared.request != Send.Eof ==> !u.send.ended && u.send.shared.request != Send.Eof)
  {
    if e.Sending? && e.s.CurlReads? {
      var s, n := t.send.shared, Min(e.s.len, |t.send.shared.buf|);
      assert s.buf == s.buf[..n] + s.buf[n..];
      Assoc(t.send.given, s.buf[..n], s.buf[n..]);
    }
    hide UnpausesSending, Recv.Apply, Recv.Enabled;
  }

  /** Some run tells curl the end of the upload. */
  ghost predicate CanEnd(t: Transfer) {
    exists events, u :: Run(t, events, u) && u.send.ended
  }

  lemma EndStepBack(t: Transfer, e: Event)
    requires Enabled(t, e) && Apply(t, e).Some? && CanEnd(Apply(t, e).value)
    ensures CanEnd(t)
  {
    var events, u :| Run(Apply(t, e).value, events, u) && u.send.ended;
    var longer := [e] + events;
    assert longer[1..] == events;
    assert Run(t, longer, u);
  }

  /** An upload whose stream was read to its end is read to its end by curl. */
  lemma EofCanEnd(t: Transfer)
    requires t.send.shared.request == Send.Eof && !t.recv.over && !t.send.ended
    requires t.send.paused ==> t.send.queued > 0
    ensures CanEnd(t)
    decreases t.send.paused, |t.send.shared.buf|
  {
    if t.send.paused {
      EofCanEnd(Apply(t, Sending(Send.Unpause)).value);
      EndStepBack(t, Sending(Send.Unpause));
    } else if t.send.shared.buf != [] {
      var e := Sending(Send.CurlReads(|t.send.shared.buf|));
      EofCanEnd(Apply(t, e).value);
      EndStepBack(t, e);
    } else {
      var u := Apply(t, Sending(Send.CurlReads(1))).value;
      assert Run(u, [], u);
      EndStepBack(t, Sending(Send.CurlReads(1)));
    }
  }

  /** In every run: behind the response, an upload that has not ended can still end exactly when its stream had been
      read to the end before. */
  lemma UploadEndsBehindTheResponseIff(script: seq<Recv.Item>, content: seq<byte>, canSeek: bool, events: seq<Event>,
      t: Transfer)
    requires Run(Start(script, content, canSeek), events, t) && t.taken && !t.recv.over && !t.send.ended
    ensures CanEnd(t) <==> t.send.shared.request == Send.Eof
  {
    BothDirectionsConserve(script, content, canSeek, events, t);
    if t.send.shared.request == Send.Eof {
      EofCanEnd(t);
    } else if CanEnd(t) {
      var later, u :| Run(t, later, u) && u.send.ended;
      ResponseStopsTheUpload(t, later, u);
    }
  }
}
