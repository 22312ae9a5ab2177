/** All upload streams of one request: each has its own buffer and request, and all of them one pause. */
module CurlStreams {
  import opened Bytes
  import opened Streams
  import opened CurlUpload

  predicate Pollable(list: seq<Shared>) {
    forall s | s in list :: s.Valid() && s.request != Fail
  }

  /** One pass of the client's task: the streams are polled in order, up to the first failure. Also whether one failed,
      and how many unpauses were queued. */
  function ExecuteAll(list: seq<Shared>, turns: seq<Turn>): (r: (seq<Shared>, bool, nat))
    requires |turns| == |list| && Pollable(list)
    ensures |r.0| == |list|
  {
    if list == [] then ([], false, 0)
    else
      assert list[0] in list;
      var (s, failed, unpaused) := ExecuteEffect(list[0], turns[0]);
      var n := if unpaused then 1 else 0;
      if failed then ([s] + list[1..], true, n)
      else
        var (rest, restFailed, more) := ExecuteAll(list[1..], turns[1..]);
        ([s] + rest, restFailed, n + more)
  }

  /** The streams in front of the `k`-th did not fail: the pass goes on there. */
  lemma {:induction false} ExecuteFurther(list: seq<Shared>, turns: seq<Turn>, k: nat)
    requires k < |list| == |turns| && Pollable(list)
    requires !ExecuteAll(list[..k], turns[..k]).1
    ensures var (done, _, n) := ExecuteAll(list[..k], turns[..k]);
      var (s, failed, unpaused) := ExecuteEffect(list[k], turns[k]);
      && ExecuteAll(list[..k + 1], turns[..k + 1]) == (done + [s], failed, n + if unpaused then 1 else 0)
      && (failed ==> ExecuteAll(list, turns) == (done + [s] + list[k + 1..], true, n + if unpaused then 1 else 0))
    decreases k
  {
    hide ExecuteEffect;
    assert list[k] in list && list[0] in list;
    if k == 0 {
      assert list[..1][1..] == [] && turns[..1][1..] == [];
      var s := ExecuteEffect(list[0], turns[0]).0;
      assert [s] + [] == [s] == [] + [s];
      assert [s] + ExecuteAll([], []).0 == [s];
      assert [] + [s] + list[1..] == [s] + list[1..];
    } else {
      assert list[..k][0] == list[0] && turns[..k][0] == turns[0];
      assert list[..k][1..] == list[1..][..k - 1] && turns[..k][1..] == turns[1..][..k - 1];
      assert list[..k + 1][1..] == list[1..][..k] && turns[..k + 1][1..] == turns[1..][..k];
      assert list[1..][k - 1] == list[k] && list[1..][k..] == list[k + 1..];
      ExecuteFurther(list[1..], turns[1..], k - 1);
      var first := ExecuteEffect(list[0], turns[0]).0;
      var done := ExecuteAll(list[1..][..k - 1], turns[1..][..k - 1]).0;
      var s := ExecuteEffect(list[k], turns[k]).0;
      Assoc([first], done, [s]);
      Assoc([first], done + [s], list[k + 1..]);
    }
  }

  /** The pass has come to the `k`-th stream: `now` are the streams then, `n` the unpauses queued. */
  predicate PassAt(list: seq<Shared>, turns: seq<Turn>, k: nat, now: seq<Shared>, n: nat)
    requires k <= |list| == |turns| && Pollable(list)
  {
    var (done, failed, unpauses) := ExecuteAll(list[..k], turns[..k]);
    now == done + list[k..] && !failed && n == unpauses
  }

  lemma PassBegins(list: seq<Shared>, turns: seq<Turn>)
    requires |list| == |turns| && Pollable(list)
    ensures PassAt(list, turns, 0, list, 0)
  {
    assert list[..0] == [] && turns[..0] == [] && [] + list[0..] == list;
  }

  lemma PassGoesOn(list: seq<Shared>, turns: seq<Turn>, k: nat, now: seq<Shared>, n: nat)
    requires k < |list| == |turns| && Pollable(list)
    requires PassAt(list, turns, k, now, n)
    ensures |now| == |list| && now[k] == list[k] && list[k].Valid() && list[k].request != Fail
    ensures var (s, failed, unpaused) := ExecuteEffect(list[k], turns[k]);
      var more := n + if unpaused then 1 else 0;
      if failed then ExecuteAll(list, turns) == (now[k := s], true, more)
      else PassAt(list, turns, k + 1, now[k := s], more)
  {
    hide ExecuteAll, ExecuteEffect;
    ExecuteFurther(list, turns, k);
    Replaced(ExecuteAll(list[..k], turns[..k]).0, list, k, ExecuteEffect(list[k], turns[k]).0);
    assert list[k] in list;
  }

  /** A pass polls every stream up to the first one that fails, and leaves those behind it alone. */
  lemma {:induction false} PassStopsAtFailure(list: seq<Shared>, turns: seq<Turn>, k: nat)
    requires k < |list| == |turns| && Pollable(list)
    requires forall i | 0 <= i < k :: list[i].Valid() && list[i].request != Fail && !ExecuteEffect(list[i], turns[i]).1
    ensures list[k].Valid() && list[k].request != Fail
    ensures var (polled, failed, _) := ExecuteAll(list, turns);
      && (forall i | 0 <= i < k :: polled[i] == ExecuteEffect(list[i], turns[i]).0)
      && polled[k] == ExecuteEffect(list[k], turns[k]).0
      && (ExecuteEffect(list[k], turns[k]).1 ==> failed && polled[k + 1..] == list[k + 1..])
  {
    hide ExecuteEffect;
    assert list[0] in list && list[k] in list;
    if k > 0 {
      assert forall i | 0 <= i < k - 1 :: list[1..][i] == list[i + 1] && turns[1..][i] == turns[i + 1];
      PassStopsAtFailure(list[1..], turns[1..], k - 1);
    }
  }

  lemma Replaced<T>(done: seq<T>, list: seq<T>, k: nat, x: T)
    requires |done| == k < |list|
    ensures |done + list[k..]| == |list| && (done + list[k..])[k] == list[k]
    ensures (done + list[k..])[k := x] == done + [x] + list[k + 1..]
  {
  }

  lemma PassEnds(list: seq<Shared>, turns: seq<Turn>, now: seq<Shared>, n: nat)
    requires |list| == |turns| && Pollable(list)
    requires PassAt(list, turns, |list|, now, n)
    ensures ExecuteAll(list, turns) == (now, false, n)
  {
    hide ExecuteAll;
    assert list[..|list|] == list && turns[..|list|] == turns && now == ExecuteAll(list, turns).0;
  }

  function Views(states: seq<SharedStreamState>, streams: seq<BoxedStream>): (list: seq<Shared>)
    requires |states| == |streams|
    reads states, streams
    ensures |list| == |states|
  {
    seq(|states|, i requires 0 <= i < |states| reads states, streams => states[i].View(streams[i]))
  }

  lemma ViewAt(states: seq<SharedStreamState>, streams: seq<BoxedStream>, k: nat)
    requires k < |states| == |streams|
    ensures Views(states, streams)[k] == states[k].View(streams[k])
  {
  }

  ghost predicate Distinct(states: seq<SharedStreamState>, streams: seq<BoxedStream>)
    requires |states| == |streams|
  {
    forall i, k | 0 <= i < k < |states| :: states[i] != states[k] && streams[i] != streams[k]
  }

  /** One stream is polled, and the others are left alone. */
  method PollAt(states: seq<SharedStreamState>, streams: seq<BoxedStream>, k: nat, turn: Turn)
    returns (failed: bool, unpaused: bool)
    requires k < |states| == |streams|
    requires Distinct(states, streams)
    requires states[k].View(streams[k]).Valid() && states[k].request != Fail
    requires states[k].canSeek ==> streams[k].sized
    modifies states[k], streams[k]
    ensures var (s, f, u) := ExecuteEffect(old(states[k].View(streams[k])), turn);
      Views(states, streams) == old(Views(states, streams))[k := s] && failed == f && unpaused == u
  {
    hide ExecuteEffect;
    ghost var before := Views(states, streams);
    failed, unpaused := states[k].PollExecuteOne(streams[k], turn);
    ghost var now := Views(states, streams);
    assert forall i | 0 <= i < |states| && i != k :: now[i] == before[i];
  }

  /** The loop of `ReadTaskCollection::execute` over the request's streams. */
  method PollExecuteAll(states: seq<SharedStreamState>, streams: seq<BoxedStream>, turns: seq<Turn>)
    returns (failed: bool, unpauses: nat)
    requires |states| == |streams| == |turns|
    requires Distinct(states, streams)
    requires Pollable(Views(states, streams))
    requires forall i | 0 <= i < |states| :: states[i].canSeek ==> streams[i].sized
    modifies states, streams
    ensures var (list, stopped, n) := ExecuteAll(old(Views(states, streams)), turns);
      Views(states, streams) == list && failed == stopped && unpauses == n
  {
    hide ExecuteAll, ExecuteEffect, Views, Pollable, PassAt, Distinct;
    ghost var was := Views(states, streams);
    failed, unpauses := false, 0;
    PassBegins(was, turns);
    for k := 0 to |states|
      invariant !failed && PassAt(was, turns, k, Views(states, streams), unpauses)
    {
      PassGoesOn(was, turns, k, Views(states, streams), unpauses);
      ViewAt(states, streams, k);
      var unpaused;
      failed, unpaused := PollAt(states, streams, k, turns[k]);
      if unpaused {
        unpauses := unpauses + 1;
      }
      if failed {
        return;
      }
    }
    PassEnds(was, turns, Views(states, streams), unpauses);
  }

  /** What concerns one stream alone. */
  datatype Feed = Feed(shared: Shared, from: nat, stale: seq<byte>, given: seq<byte>, ended: bool)

  datatype Transfer = Transfer(feeds: seq<Feed>, paused: bool, queued: nat, over: bool)

  /** One stream of a running transfer as a transfer of its own. */
  function Solo(t: Transfer, i: nat): Pump
    requires i < |t.feeds|
  {
    var f := t.feeds[i];
    Pump(f.shared, false, 0, t.over, f.from, f.stale, f.given, f.ended)
  }

  function FeedOf(p: Pump): Feed {
    Feed(p.shared, p.from, p.stale, p.given, p.ended)
  }

  function SharedOf(feeds: seq<Feed>): (list: seq<Shared>)
    ensures |list| == |feeds| && forall i | 0 <= i < |feeds| :: list[i] == feeds[i].shared
  {
    seq(|feeds|, i requires 0 <= i < |feeds| => feeds[i].shared)
  }

  datatype Event =
    | CurlReads(i: nat, len: nat)
    | CurlSeeks(i: nat, whence: Whence)
    | ClientPass(turns: seq<Turn>)
    | Unpause
    | RecvSide

  /** Curl reads into room. */
  predicate Enabled(t: Transfer, e: Event) {
    match e
    case CurlReads(i, len) => i < |t.feeds| && !t.paused && !t.feeds[i].ended && len > 0
    case CurlSeeks(i, _) => i < |t.feeds|
    case ClientPass(turns) => !t.over && |turns| == |t.feeds|
    case Unpause => t.queued > 0
    case RecvSide => true
  }

  /** Polling a stream in state `Fail` is the source's `unreachable!`: there is no next state then. */
  function Apply(t: Transfer, e: Event): Option<Transfer>
    requires Enabled(t, e)
  {
    match e
    case CurlReads(i, len) =>
      var p := CurlUpload.Apply(Solo(t, i), CurlUpload.CurlReads(len)).value;
      Some(t.(feeds := t.feeds[i := FeedOf(p)], paused := p.paused))
    case CurlSeeks(i, whence) =>
      Some(t.(feeds := t.feeds[i := FeedOf(CurlUpload.Apply(Solo(t, i), CurlUpload.CurlSeeks(whence)).value)]))
    case ClientPass(turns) =>
      var list := SharedOf(t.feeds);
      if !Pollable(list) then None
      else
        var (polled, failed, unpauses) := ExecuteAll(list, turns);
        Some(t.(feeds := seq(|t.feeds|, i requires 0 <= i < |t.feeds| => t.feeds[i].(shared := polled[i])),
                queued := t.queued + unpauses, over := failed))
    case Unpause => Some(t.(queued := t.queued - 1, paused := false))
    case RecvSide => Some(t.(paused := false))
  }

  predicate Run(t: Transfer, events: seq<Event>, u: Transfer)
    decreases |events|
  {
    if events == [] then t == u
    else Enabled(t, events[0]) && var next := Apply(t, events[0]); next.Some? && Run(next.value, events[1..], u)
  }

  /** The contents of the streams, and whether each can seek. */
  function Start(contents: seq<(seq<byte>, bool)>): Transfer {
    Transfer(seq(|contents|, i requires 0 <= i < |contents| => FeedOf(CurlUpload.Start(contents[i].0, contents[i].1))),
             false, 0, false)
  }

  predicate Asks(f: Feed) {
    f.shared.request.Read? || f.shared.request.Seek?
  }

  /** Each stream keeps its account, and a paused transfer has some stream's request before the client, or an unpause
      on its way. */
  predicate Inv(t: Transfer) {
    && (forall i | 0 <= i < |t.feeds| :: Conserved(Solo(t, i)) && Attended(Solo(t, i)))
    && (t.paused ==> (exists i | 0 <= i < |t.feeds| :: Asks(t.feeds[i])) || t.queued > 0)
  }

  lemma OwnStepKeeps(t: Transfer, e: Event)
    requires Inv(t) && Enabled(t, e) && (e.CurlReads? || e.CurlSeeks?)
    ensures Inv(Apply(t, e).value)
  {
    var p := Solo(t, e.i);
    var u := Apply(t, e).value;
    assert Conserved(p) && Attended(p);
    if e.CurlReads? {
      ReadKeeps(p, e.len);
    } else {
      SeekKeeps(p, e.whence);
    }
    forall j | 0 <= j < |u.feeds| ensures Conserved(Solo(u, j)) && Attended(Solo(u, j)) {
      if j != e.i {
        assert Solo(u, j) == Solo(t, j);
      }
    }
    OwnStepAttends(t, e);
    hide Conserved, Attended, Asks;
  }

  lemma OwnStepAttends(t: Transfer, e: Event)
    requires Inv(t) && Enabled(t, e) && (e.CurlReads? || e.CurlSeeks?)
    ensures var u := Apply(t, e).value;
      u.paused ==> (exists i | 0 <= i < |u.feeds| :: Asks(u.feeds[i])) || u.queued > 0
  {
    var u := Apply(t, e).value;
    if u.paused && u.queued == 0 {
      if e.CurlSeeks? && !Asks(u.feeds[e.i]) {
        var i :| 0 <= i < |t.feeds| && Asks(t.feeds[i]);
        assert u.feeds[i] == t.feeds[i];
      } else {
        assert Asks(u.feeds[e.i]);
      }
    }
  }

  lemma OnePoll(s: Shared, turn: Turn)
    requires s.Valid() && s.request != Fail
    ensures var (t, failed, unpaused) := ExecuteEffect(s, turn);
      (failed ==> unpaused) && (!unpaused ==> t.request == s.request) && t.content == s.content
  {
  }

  /** What a pass does to the `i`-th stream: a poll, or nothing behind a failure; and a stream that asked still does,
      unless an unpause was queued. */
  lemma {:induction false} PassPollsEach(list: seq<Shared>, turns: seq<Turn>, i: nat)
    requires i < |list| == |turns| && Pollable(list)
    ensures var (polled, failed, unpauses) := ExecuteAll(list, turns);
      && list[i] in list
      && (polled[i] == list[i] || (polled[i] == ExecuteEffect(list[i], turns[i]).0 &&
                                   (ExecuteEffect(list[i], turns[i]).1 ==> failed)))
      && (failed ==> unpauses > 0)
      && (unpauses == 0 ==> polled[i].request == list[i].request)
      && polled[i].content == list[i].content
  {
    assert list[0] in list && list[i] in list;
    OnePoll(list[0], turns[0]);
    hide ExecuteEffect;
    if i > 0 {
      PassPollsEach(list[1..], turns[1..], i - 1);
    } else if |list| > 1 {
      PassPollsEach(list[1..], turns[1..], 0);
    }
  }

  lemma PassKeeps(t: Transfer, e: Event)
    requires Inv(t) && Enabled(t, e) && e.ClientPass?
    ensures Apply(t, e).Some? && Inv(Apply(t, e).value)
  {
    var list := SharedOf(t.feeds);
    forall s | s in list ensures s.Valid() && s.request != Fail {
      var i :| 0 <= i < |list| && list[i] == s;
      assert Conserved(Solo(t, i)) && Attended(Solo(t, i));
    }
    var u := Apply(t, e).value;
    forall i | 0 <= i < |u.feeds| ensures Conserved(Solo(u, i)) && Attended(Solo(u, i)) {
      PassPollsEach(list, e.turns, i);
      var p := Solo(t, i);
      assert Conserved(p) && Attended(p);
      PollKeeps(p, e.turns[i]);
    }
    if t.paused && t.queued == 0 && u.queued == 0 {
      var i :| 0 <= i < |t.feeds| && Asks(t.feeds[i]);
      PassPollsEach(list, e.turns, i);
      assert Asks(u.feeds[i]);
    }
  }

  lemma StepKeeps(t: Transfer, e: Event)
    requires Inv(t) && Enabled(t, e)
    ensures Apply(t, e).Some? && Inv(Apply(t, e).value)
  {
    match e {
      case CurlReads(_, _) => OwnStepKeeps(t, e);
      case CurlSeeks(_, _) => OwnStepKeeps(t, e);
      case ClientPass(_) => PassKeeps(t, e);
      case _ =>
        var u := Apply(t, e).value;
        assert forall i | 0 <= i < |u.feeds| :: Solo(u, i) == Solo(t, i);
    }
  }

  lemma {:induction false} RunKeeps(t: Transfer, events: seq<Event>, u: Transfer)
    requires Inv(t) && Run(t, events, u)
    ensures Inv(u)
    ensures |u.feeds| == |t.feeds|
    ensures forall i | 0 <= i < |t.feeds| :: u.feeds[i].shared.content == t.feeds[i].shared.content
    decreases |events|
  {
    if events != [] {
      StepKeeps(t, events[0]);
      ContentStays(t, events[0]);
      RunKeeps(Apply(t, events[0]).value, events[1..], u);
    }
  }

  lemma ContentStays(t: Transfer, e: Event)
    requires Enabled(t, e) && Apply(t, e).Some?
    ensures var u := Apply(t, e).value;
      |u.feeds| == |t.feeds| && forall i | 0 <= i < |t.feeds| :: u.feeds[i].shared.content == t.feeds[i].shared.content
  {
    if e.ClientPass? {
      hide ExecuteAll, ExecuteEffect;
      var list := SharedOf(t.feeds);
      forall i | 0 <= i < |list| ensures ExecuteAll(list, e.turns).0[i].content == list[i].content {
        PassPollsEach(list, e.turns, i);
      }
    }
  }

  lemma StartInv(contents: seq<(seq<byte>, bool)>)
    ensures Inv(Start(contents))
  {
    var t := Start(contents);
    forall i | 0 <= i < |t.feeds| ensures Conserved(Solo(t, i)) && Attended(Solo(t, i)) {
      var p := Solo(t, i);
      assert p.given + p.shared.Held() == p.stale + p.shared.content[0..0];
    }
  }

  /** For any number of streams and any interleaving: what curl has been given of each is a prefix of what was stale at
      its last seek and then its content from there, and all of the rest, when it is told the end, exactly when nothing
      was stale; a paused transfer has some stream's request before the client or an unpause on its way; and the
      client's next pass never meets a stream in state `Fail`. */
  lemma CurlGetsEachStream(contents: seq<(seq<byte>, bool)>, events: seq<Event>, t: Transfer, turns: seq<Turn>)
    requires Run(Start(contents), events, t)
    ensures |t.feeds| == |contents|
    ensures forall i | 0 <= i < |contents| ::
              var f, content := t.feeds[i], contents[i].0;
              && f.from <= |content| && f.given <= f.stale + content[f.from..]
              && (f.ended ==> (f.given == content[f.from..] <==> f.stale == []))
    ensures t.paused ==> (exists i | 0 <= i < |t.feeds| :: Asks(t.feeds[i])) || t.queued > 0
    ensures Enabled(t, ClientPass(turns)) ==> Apply(t, ClientPass(turns)).Some?
  {
    StartInv(contents);
    RunKeeps(Start(contents), events, t);
    forall i | 0 <= i < |contents|
      ensures var f, content := t.feeds[i], contents[i].0;
        && f.from <= |content| && f.given <= f.stale + content[f.from..]
        && (f.ended ==> (f.given == content[f.from..] <==> f.stale == []))
    {
      assert Conserved(Solo(t, i)) && Attended(Solo(t, i));
      GivenIsPrefix(Solo(t, i));
      EndedIff(Solo(t, i));
    }
    if Enabled(t, ClientPass(turns)) {
      StepKeeps(t, ClientPass(turns));
    }
  }

  lemma {:induction false} ReadyPassUnpauses(list: seq<Shared>, turns: seq<Turn>, i: nat)
    requires i < |list| == |turns| && Pollable(list)
    requires (forall turn | turn in turns :: turn != NotReady) && (list[i].request.Read? || list[i].request.Seek?)
    ensures ExecuteAll(list, turns).2 > 0
  {
    assert list[0] in list && turns[0] in turns;
    if i > 0 {
      assert list[1..][i - 1] == list[i];
      assert forall turn | turn in turns[1..] :: turn in turns;
      ReadyPassUnpauses(list[1..], turns[1..], i - 1);
    }
  }

  /** So no pause is final: a paused transfer without an unpause on its way gets one from the next pass in which every
      stream is ready. */
  lemma PausedGoesOn(contents: seq<(seq<byte>, bool)>, events: seq<Event>, t: Transfer, turns: seq<Turn>)
    requires Run(Start(contents), events, t) && t.paused && t.queued == 0 && !t.over
    requires |turns| == |contents| && forall turn | turn in turns :: turn != NotReady
    ensures Enabled(t, ClientPass(turns))
    ensures var u := Apply(t, ClientPass(turns));
      u.Some? && Enabled(u.value, Event.Unpause) && !Apply(u.value, Event.Unpause).value.paused
  {
    CurlGetsEachStream(contents, events, t, turns);
    StartInv(contents);
    RunKeeps(Start(contents), events, t);
    var i :| 0 <= i < |t.feeds| && Asks(t.feeds[i]);
    ReadyPassUnpauses(SharedOf(t.feeds), turns, i);
  }

  /** Some run tells curl the end of this stream. */
  ghost predicate CanEnd(t: Transfer, i: nat) {
    exists events, u :: Run(t, events, u) && i < |u.feeds| && u.feeds[i].ended
  }

  lemma EndStepBack(t: Transfer, e: Event, i: nat)
    requires Enabled(t, e) && Apply(t, e).Some? && CanEnd(Apply(t, e).value, i)
    ensures CanEnd(t, i)
  {
    var events, u :| Run(Apply(t, e).value, events, u) && i < |u.feeds| && u.feeds[i].ended;
    var longer := [e] + events;
    assert longer[1..] == events;
    assert Run(t, longer, u);
  }

  /** No stream has failed, and none seeks outside. */
  predicate Fit(t: Transfer) {
    Inv(t) && !t.over && forall i | 0 <= i < |t.feeds| :: SeeksInside(t.feeds[i].shared)
  }

  function Offers(n: nat): (turns: seq<Turn>)
    ensures |turns| == n && forall turn | turn in turns :: turn == Offer(0)
  {
    seq(n, _ => Offer(0))
  }

  /** A pass without a broken stream polls all of them. */
  lemma {:induction false} UnbrokenPass(list: seq<Shared>, turns: seq<Turn>)
    requires |turns| == |list| && Pollable(list) && Broken !in turns && forall s | s in list :: SeeksInside(s)
    ensures var (polled, failed, _) := ExecuteAll(list, turns);
      !failed && forall i | 0 <= i < |list| ::
        polled[i] == ExecuteEffect(list[i], turns[i]).0 && SeeksInside(polled[i])
  {
    if list != [] {
      assert list[0] in list && turns[0] in turns && forall turn | turn in turns[1..] :: turn in turns;
      PollSucceeds(list[0], turns[0]);
      UnbrokenPass(list[1..], turns[1..]);
      hide ExecuteEffect, SeeksInside;
    }
  }

  lemma PollSucceeds(s: Shared, turn: Turn)
    requires s.Valid() && s.request != Fail && SeeksInside(s) && turn != Broken
    ensures !ExecuteEffect(s, turn).1 && SeeksInside(ExecuteEffect(s, turn).0)
  {
  }

  /** A pass in which every stream is ready keeps the transfer fit, polls each of them, and queues an unpause if one
      asked. */
  lemma ReadyPass(t: Transfer)
    requires Fit(t)
    ensures var e := ClientPass(Offers(|t.feeds|));
      && Enabled(t, e) && Apply(t, e).Some?
      && var u := Apply(t, e).value;
         && Fit(u) && |u.feeds| == |t.feeds| && u.paused == t.paused
         && (forall i | 0 <= i < |t.feeds| ::
               u.feeds[i] == t.feeds[i].(shared := ExecuteEffect(t.feeds[i].shared, Offer(0)).0))
         && ((exists i | 0 <= i < |t.feeds| :: Asks(t.feeds[i])) ==> u.queued > t.queued)
  {
    var e := ClientPass(Offers(|t.feeds|));
    var list := SharedOf(t.feeds);
    PassKeeps(t, e);
    forall s | s in list ensures s.Valid() && s.request != Fail && SeeksInside(s) {
      var i :| 0 <= i < |list| && list[i] == s;
      assert Conserved(Solo(t, i)) && Attended(Solo(t, i));
    }
    UnbrokenPass(list, e.turns);
    if i :| 0 <= i < |t.feeds| && Asks(t.feeds[i]) {
      ReadyPassUnpauses(list, e.turns, i);
    }
    hide ExecuteAll, ExecuteEffect, Conserved, Attended, SeeksInside;
  }

  function StageOf(t: Transfer, i: nat): nat
    requires i < |t.feeds|
  {
    if t.feeds[i].shared.request.Read? then 0 else if !t.paused then 1 else if t.queued > 0 then 2 else 3
  }

  lemma {:induction false} StreamEnds(t: Transfer, i: nat)
    requires Fit(t) && i < |t.feeds|
    ensures CanEnd(t, i)
    decreases t.feeds[i].shared.request.Seek?, t.feeds[i].shared.request != Eof,
              |t.feeds[i].shared.content| - t.feeds[i].shared.pos, |t.feeds[i].shared.buf|, StageOf(t, i)
  {
    var s := t.feeds[i].shared;
    if t.feeds[i].ended {
      assert Run(t, [], t);
    } else {
      var p := Solo(t, i);
      assert Conserved(p) && Attended(p);
      StepGoesOn(p, NextStep(p));
      ReadyPass(t);
      var e :=
        if Asks(t.feeds[i]) || (t.paused && t.queued == 0) then ClientPass(Offers(|t.feeds|))
        else if t.paused then Event.Unpause
        else Event.CurlReads(i, if s.buf == [] then 1 else |s.buf|);
      StepKeeps(t, e);
      var u := Apply(t, e).value;
      ContentStays(t, e);
      hide Conserved, Attended, ExecuteAll;
      assert Fit(u);
      if u.feeds[i].ended {
        assert Run(u, [], u);
      } else {
        StreamEnds(u, i);
      }
      EndStepBack(t, e, i);
    }
  }

  /** In every run, as long as no stream has failed and each seeks only inside itself, curl can still be told the end of
      every stream. */
  lemma EveryStreamCanEnd(contents: seq<(seq<byte>, bool)>, events: seq<Event>, t: Transfer, i: nat)
    requires Run(Start(contents), events, t) && i < |contents| && !t.over
    requires forall j | 0 <= j < |t.feeds| :: SeeksInside(t.feeds[j].shared)
    ensures i < |t.feeds| && CanEnd(t, i)
  {
    StartInv(contents);
    RunKeeps(Start(contents), events, t);
    StreamEnds(t, i);
  }

  /** And no stream fails before one of them is broken or seeks outside. */
  lemma {:induction false} NothingFails(t: Transfer, events: seq<Event>, u: Transfer)
    requires Fit(t) && Run(t, events, u)
    requires forall e | e in events :: !e.CurlSeeks? && (e.ClientPass? ==> Broken !in e.turns)
    ensures Fit(u)
    decreases |events|
  {
    if events != [] {
      assert events[0] in events;
      StepStaysFit(t, events[0]);
      NothingFails(Apply(t, events[0]).value, events[1..], u);
    }
  }

  lemma StepStaysFit(t: Transfer, e: Event)
    requires Fit(t) && Enabled(t, e) && Apply(t, e).Some? && !e.CurlSeeks? && (e.ClientPass? ==> Broken !in e.turns)
    ensures Fit(Apply(t, e).value)
  {
    StepKeeps(t, e);
    if e.ClientPass? {
      var list := SharedOf(t.feeds);
      assert forall s | s in list :: SeeksInside(s);
      UnbrokenPass(list, e.turns);
      hide ExecuteAll, ExecuteEffect, SeeksInside;
    }
  }
}
