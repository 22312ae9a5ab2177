/** Upload pull of the curl async backend: curl's callbacks, the client's stream, and the state between them. */
module CurlUpload {
  import opened Bytes
  import opened Streams

  /** `SeekFrom`. */
  datatype Whence = FromStart(offset: nat) | FromEnd(delta: int) | FromHere(delta: int)

  /** Where a seek leads in a stream of `len` bytes that stands at `pos`; nowhere when that is outside. */
  function Target(whence: Whence, pos: nat, len: nat): (r: Option<nat>)
    ensures r.Some? ==> r.value <= len
  {
    var to := match whence
      case FromStart(offset) => offset
      case FromEnd(delta) => len + delta
      case FromHere(delta) => pos + delta;
    if 0 <= to <= len then Some(to) else None
  }

  /** `SharedStreamRequest`. */
  datatype Request = Idle | Read(len: nat) | Seek(whence: Whence) | Fail | Eof

  /** `SharedStreamState`, and the stream that the client's task reads. */
  datatype Shared = Shared(buf: seq<byte>, request: Request, canSeek: bool, content: seq<byte>, pos: nat) {
    predicate Valid() {
      pos <= |content|
    }

    /** The bytes read from the stream and not yet given to curl: a pending read uses the buffer as scratch. */
    function Held(): seq<byte> {
      if request.Read? then [] else buf
    }
  }

  datatype ReadAnswer = Abort | Pause | Bytes(bytes: seq<byte>)

  /** `SharedStreamState::read` into a buffer of `len` bytes. */
  function ReadEffect(s: Shared, len: nat): (Shared, ReadAnswer) {
    var n := Min(len, |s.buf|);
    match s.request
    case Fail => (s, Abort)
    case Read(_) => (s, Pause)
    case Seek(_) => (s, Pause)
    case Idle => if n == 0 then (s.(request := Read(len)), Pause) else (s.(buf := s.buf[n..]), Bytes(s.buf[..n]))
    case Eof => (s.(buf := s.buf[n..]), Bytes(s.buf[..n]))
  }

  datatype SeekAnswer = CantSeek | SeekFailed | SeekTaken

  /** `SharedStreamState::seek`. */
  function SeekEffect(s: Shared, whence: Whence): (Shared, SeekAnswer) {
    if !s.canSeek then (s, CantSeek)
    else if s.request == Fail then (s, SeekFailed)
    else (s.(request := Seek(whence)), SeekTaken)
  }

  /** `Vec::resize` with zeros. */
  function Resized(buf: seq<byte>, n: nat): (r: seq<byte>)
    ensures |r| == n
  {
    if n <= |buf| then buf[..n] else buf + seq(n - |buf|, _ => 0)
  }

  /** How many bytes a stream with `left` bytes gives to a buffer of `cap` when it offers `offer + 1`. */
  function Given(offer: nat, cap: nat, left: nat): nat {
    Min(offer + 1, Min(cap, left))
  }

  /** `poll_execute_one`: the state behind it, whether it failed, and whether it queued an unpause. */
  function ExecuteEffect(s: Shared, turn: Turn): (Shared, bool, bool)
    requires s.Valid() && s.request != Fail
  {
    match s.request
    case Read(len) =>
      var scratch := Resized(s.buf, len);
      (match turn
       case NotReady => (s.(buf := scratch), false, false)
       case Broken => (s.(buf := scratch, request := Fail), true, true)
       case Offer(n) =>
         var k := Given(n, len, |s.content| - s.pos);
         (s.(buf := s.content[s.pos..s.pos + k], pos := s.pos + k, request := if k == 0 then Eof else Idle),
          false, true))
    case Seek(whence) =>
      var to := Target(whence, s.pos, |s.content|);
      if !s.canSeek then (s.(request := Fail), true, true)
      else if turn == NotReady then (s, false, false)
      else if turn == Broken || to.None? then (s.(request := Fail), true, true)
      else (s.(pos := to.value, request := Idle), false, true)
    case Idle => (s, false, false)
    case Eof => (s, false, false)
  }

  /** The client's stream. */
  class BoxedStream {
    const content: seq<byte>
    const sized: bool
    var pos: nat

    constructor (bytes: seq<byte>, isSized: bool)
      ensures content == bytes && sized == isSized && pos == 0
    {
      content, sized, pos := bytes, isSized, 0;
    }

    /** One ready read: it fills the front of `buf`. */
    method ReadInto(buf: array<byte>, offer: nat) returns (n: nat)
      requires pos <= |content|
      modifies this, buf
      ensures n == Given(offer, buf.Length, |content| - old(pos)) && pos == old(pos) + n
      ensures buf[..n] == content[old(pos)..pos]
    {
      n := Given(offer, buf.Length, |content| - pos);
      forall i | 0 <= i < n {
        buf[i] := content[pos + i];
      }
      pos := pos + n;
    }
  }

  class SharedStreamState {
    var buf: seq<byte>
    var request: Request
    const canSeek: bool

    constructor (seekable: bool)
      ensures buf == [] && request == Idle && canSeek == seekable
    {
      buf, request, canSeek := [], Idle, seekable;
    }

    function View(stream: BoxedStream): Shared
      reads this, stream
    {
      Shared(buf, request, canSeek, stream.content, stream.pos)
    }

    /** Gives curl the front of the buffer, or asks for more and pauses. */
    method Read(data: array<byte>, stream: BoxedStream) returns (answer: ReadAnswer)
      modifies this, data
      ensures (View(stream), answer) == ReadEffect(old(View(stream)), data.Length)
      ensures answer.Bytes? ==> |answer.bytes| <= data.Length && data[..|answer.bytes|] == answer.bytes
      ensures !answer.Bytes? ==> data[..] == old(data[..])
    {
      var n := Min(data.Length, |buf|);
      if request == Fail {
        return Abort;
      }
      if request.Read? || request.Seek? {
        return Pause;
      }
      if request == Idle && n == 0 {
        request := Request.Read(data.Length);
        return Pause;
      }
      forall i | 0 <= i < n {
        data[i] := buf[i];
      }
      assert data[..n] == buf[..n];
      answer := Bytes(buf[..n]);
      buf := buf[n..];
    }

    method Seek(whence: Whence, stream: BoxedStream) returns (answer: SeekAnswer)
      modifies this
      ensures (View(stream), answer) == SeekEffect(old(View(stream)), whence)
    {
      if !canSeek {
        return CantSeek;
      }
      if request == Fail {
        return SeekFailed;
      }
      request := Request.Seek(whence);
      return SeekTaken;
    }

    method PollExecuteOne(stream: BoxedStream, turn: Turn) returns (failed: bool, unpaused: bool)
      requires View(stream).Valid() && request != Fail && (canSeek ==> stream.sized)
      modifies this, stream
      ensures (View(stream), failed, unpaused) == ExecuteEffect(old(View(stream)), turn)
    {
      failed, unpaused := false, false;
      match request {
        case Read(len) =>
          buf := Resized(buf, len);
          match turn {
            case NotReady =>
            case Broken =>
              request := Fail;
              failed, unpaused := true, true;
            case Offer(n) =>
              var scratch := new byte[len](i requires 0 <= i < len reads this => if i < |buf| then buf[i] else 0);
              var k := stream.ReadInto(scratch, n);
              buf := scratch[..k];
              request := if k == 0 then Eof else Idle;
              unpaused := true;
          }
        case Seek(whence) =>
          var to := Target(whence, stream.pos, |stream.content|);
          if !canSeek || turn == Broken || (turn.Offer? && to.None?) {
            request := Fail;
            failed, unpaused := true, true;
          } else if turn.Offer? {
            stream.pos := to.value;
            request := Idle;
            unpaused := true;
          }
        case Idle =>
        case Eof =>
      }
    }
  }

  datatype Pump = Pump(
    shared: Shared,
    paused: bool,       // whether sending is paused
    queued: nat,        // the `UnpauseSendHandle` tasks in the loop's queue
    over: bool,         // whether the client's task has returned an error
    from: nat,          // where the current pass over the stream starts: 0, or where the last seek leads
    stale: seq<byte>,   // what stood in the buffer at that seek
    given: seq<byte>,   // what curl has been given in this pass
    ended: bool         // whether curl has been told the end of the stream in this pass
  )

  datatype Event =
    | CurlReads(len: nat)
    | CurlSeeks(whence: Whence)
    | ClientPolls(turn: Turn)
    | Unpause
    | RecvSide  // a pause or an unpause of the receiving side, whose mask leaves sending unpaused

  predicate Enabled(s: Pump, e: Event) {
    match e
    case CurlReads(_) => !s.paused && !s.ended
    case CurlSeeks(_) => true
    case ClientPolls(_) => s.shared.Valid() && !s.over
    case Unpause => s.queued > 0
    case RecvSide => true
  }

  /** Polling in state `Fail` is the source's `unreachable!`: the machine then has no next state. */
  function Apply(s: Pump, e: Event): Option<Pump>
    requires Enabled(s, e)
  {
    match e
    case CurlReads(len) =>
      var (sh, answer) := ReadEffect(s.shared, len);
      Some(match answer
           case Abort => s.(shared := sh)
           case Pause => s.(shared := sh, paused := true)
           case Bytes(b) => s.(shared := sh, given := s.given + b, ended := len > 0 && b == []))
    case CurlSeeks(whence) =>
      var (sh, answer) := SeekEffect(s.shared, whence);
      var to := Target(whence, s.shared.pos, |s.shared.content|);
      var from := if to.Some? then to.value else |s.shared.content|;
      Some(if answer == SeekTaken then
             s.(shared := sh, from := from, stale := s.shared.buf, given := [], ended := false)
           else s)
    case ClientPolls(turn) =>
      if s.shared.request == Fail then None
      else
        var (sh, failed, unpaused) := ExecuteEffect(s.shared, turn);
        Some(s.(shared := sh, over := failed, queued := s.queued + if unpaused then 1 else 0))
    case Unpause => Some(s.(queued := s.queued - 1, paused := false))
    case RecvSide => Some(s.(paused := false))
  }

  function Start(content: seq<byte>, canSeek: bool): Pump {
    Pump(Shared([], Idle, canSeek, content, 0), false, 0, false, 0, [], [], false)
  }

  /** Any interleaving in which curl reads into non-empty buffers. */
  predicate Run(s: Pump, events: seq<Event>, t: Pump)
    decreases |events|
  {
    if events == [] then s == t
    else
      var e := events[0];
      && Enabled(s, e) && (e.CurlReads? ==> e.len > 0)
      && var next := Apply(s, e); next.Some? && Run(next.value, events[1..], t)
  }

  /** What curl has been given and what is held for it is what was stale at the last seek, then what has been read. */
  predicate Conserved(s: Pump) {
    && s.shared.Valid() && s.from <= |s.shared.content|
    && (if s.shared.request.Seek? then
          && s.shared.buf == s.stale && s.given == [] && !s.ended
          && Target(s.shared.request.whence, s.shared.pos, |s.shared.content|) in {None, Some(s.from)}
        else if s.shared.request == Fail then s.given <= s.stale + s.shared.content[s.from..]
        else s.from <= s.shared.pos && s.given + s.shared.Held() == s.stale + s.shared.content[s.from..s.shared.pos])
    && (s.shared.request == Eof ==> s.shared.pos == |s.shared.content|)
    && (s.shared.request.Read? ==> s.shared.request.len > 0)
  }

  /** A paused transfer has its request before the client, or an unpause on its way. */
  predicate Attended(s: Pump) {
    && (s.paused ==> s.shared.request.Read? || s.shared.request.Seek? || s.queued > 0)
    && (s.shared.request == Fail ==> s.over)
    && (s.ended ==> s.shared.request == Eof && s.shared.buf == [])
  }

  lemma GivenIsPrefix(s: Pump)
    requires Conserved(s)
    ensures s.given <= s.stale + s.shared.content[s.from..]
  {
    if !s.shared.request.Seek? && s.shared.request != Fail {
      var rest := s.shared.content[s.from..];
      var k := s.shared.pos - s.from;
      assert rest[..k] == s.shared.content[s.from..s.shared.pos];
      Assoc(s.stale, rest[..k], rest[k..]);
      assert rest == rest[..k] + rest[k..];
      assert s.given <= s.stale + rest[..k] <= s.stale + rest;
    }
  }

  lemma ReadKeeps(s: Pump, len: nat)
    requires Conserved(s) && Attended(s) && Enabled(s, CurlReads(len)) && len > 0
    ensures Conserved(Apply(s, CurlReads(len)).value) && Attended(Apply(s, CurlReads(len)).value)
  {
    var n := Min(len, |s.shared.buf|);
    if ReadEffect(s.shared, len).1.Bytes? {
      Assoc(s.given, s.shared.buf[..n], s.shared.buf[n..]);
      assert s.shared.buf == s.shared.buf[..n] + s.shared.buf[n..];
    }
  }

  lemma PollKeeps(s: Pump, turn: Turn)
    requires Conserved(s) && Attended(s) && Enabled(s, ClientPolls(turn))
    ensures var r := Apply(s, ClientPolls(turn)); r.Some? && Conserved(r.value) && Attended(r.value)
  {
    var t := Apply(s, ClientPolls(turn)).value;
    GivenIsPrefix(s);
    if s.shared.request.Read? && turn.Offer? {
      var content := s.shared.content;
      assert content[s.from..t.shared.pos] == content[s.from..s.shared.pos] + content[s.shared.pos..t.shared.pos];
      Assoc(s.stale, content[s.from..s.shared.pos], t.shared.buf);
      assert s.given + [] == s.given;
    }
  }

  lemma SeekKeeps(s: Pump, whence: Whence)
    requires Conserved(s) && Attended(s)
    ensures Conserved(Apply(s, CurlSeeks(whence)).value) && Attended(Apply(s, CurlSeeks(whence)).value)
  {
  }

  lemma StepKeeps(s: Pump, e: Event)
    requires Conserved(s) && Attended(s) && Enabled(s, e) && (e.CurlReads? ==> e.len > 0)
    ensures var r := Apply(s, e); r.Some? && Conserved(r.value) && Attended(r.value)
    ensures Apply(s, e).value.shared.content == s.shared.content
  {
    match e {
      case CurlReads(len) => ReadKeeps(s, len);
      case ClientPolls(turn) => PollKeeps(s, turn);
      case CurlSeeks(whence) => SeekKeeps(s, whence);
      case _ => assert Conserved(Apply(s, e).value) && Attended(Apply(s, e).value);
    }
    StepKeepsContent(s, e);
    hide Conserved, Attended, Apply;
  }

  lemma StepKeepsContent(s: Pump, e: Event)
    requires Enabled(s, e) && Apply(s, e).Some?
    ensures Apply(s, e).value.shared.content == s.shared.content
  {
  }

  lemma {:induction false} RunKeeps(s: Pump, events: seq<Event>, t: Pump)
    requires Conserved(s) && Attended(s) && Run(s, events, t)
    ensures Conserved(t) && Attended(t) && t.shared.content == s.shared.content
    decreases |events|
  {
    if events != [] {
      StepKeeps(s, events[0]);
      RunKeeps(Apply(s, events[0]).value, events[1..], t);
    }
  }

  /** In every run: while no seek is under way, what curl has been given in this pass, then the held bytes, are what
      was left in the buffer at the last seek, then what the stream has given since; once curl is told the end,
      the pass was the whole rest of the stream exactly when that buffer was empty; a paused transfer is always
      attended to, and the client never polls in state `Fail`. */
  lemma CurlGetsTheStream(content: seq<byte>, canSeek: bool, events: seq<Event>, t: Pump, turn: Turn)
    requires Run(Start(content, canSeek), events, t)
    ensures !t.shared.request.Seek? && !t.shared.request.Fail? ==>
              t.from <= t.shared.pos <= |content| &&
              t.given + t.shared.Held() == t.stale + content[t.from..t.shared.pos]
    ensures t.from <= |content| && t.given <= t.stale + content[t.from..]
    ensures t.ended ==> (t.given == content[t.from..] <==> t.stale == [])
    ensures t.paused ==> t.shared.request.Read? || t.shared.request.Seek? || t.queued > 0
    ensures Enabled(t, ClientPolls(turn)) ==> Apply(t, ClientPolls(turn)).Some?
  {
    var s := Start(content, canSeek);
    assert s.given + s.shared.Held() == s.stale + content[0..0];
    RunKeeps(s, events, t);
    GivenIsPrefix(t);
    if t.ended {
      EndedIff(t);
    }
  }

  lemma EndedIff(s: Pump)
    requires Conserved(s) && Attended(s)
    ensures s.ended ==> (s.given == s.shared.content[s.from..] <==> s.stale == [])
  {
    if s.ended {
      var rest := s.shared.content[s.from..];
      assert s.given == s.given + s.shared.Held();
      assert s.shared.content[s.from..s.shared.pos] == rest;
      assert s.stale == [] ==> s.stale + rest == rest;
      assert s.stale != [] ==> |s.given| > |rest|;
    }
  }

  /** A seek is taken exactly from a stream that can seek and has not failed, and told apart from one that cannot. */
  lemma SeekIsTakenIff(s: Shared, whence: Whence)
    ensures SeekEffect(s, whence).1 == SeekTaken <==> s.canSeek && s.request != Fail
    ensures SeekEffect(s, whence).1 == CantSeek <==> !s.canSeek
    ensures SeekEffect(s, whence).1 != SeekTaken ==> SeekEffect(s, whence).0 == s
  {
  }

  /** Where a seek leads: in every run, a taken seek and the next ready poll leave the stream at the offset that counts
      from its start, from its end or from where it stood, if that is inside, and otherwise fail. */
  lemma SeekLeads(content: seq<byte>, canSeek: bool, events: seq<Event>, s: Pump, whence: Whence, offer: nat)
    requires Run(Start(content, canSeek), events, s) && !s.over && s.shared.canSeek
    ensures var to: int := match whence
              case FromStart(k) => k
              case FromEnd(d) => |content| + d
              case FromHere(d) => s.shared.pos + d;
      var sought := Apply(s, CurlSeeks(whence)).value;
      && Enabled(sought, ClientPolls(Offer(offer)))
      && var polled := Apply(sought, ClientPolls(Offer(offer)));
         polled.Some? &&
         var t := polled.value;
         if 0 <= to <= |content| then
           && t.shared.request == Idle && t.shared.pos == to && !t.over && t.queued == s.queued + 1
           && t.shared.buf == s.shared.buf && t.given == [] && !t.ended
         else t.shared.request == Fail && t.over
  {
    var start := Start(content, canSeek);
    assert start.given + start.shared.Held() == start.stale + content[0..0];
    RunKeeps(start, events, s);
  }

  /** What curl is given behind a seek from the start, up to the next one: what stood in the buffer, and then the
      content from there. */
  lemma PassFromTheStart(content: seq<byte>, canSeek: bool, events: seq<Event>, s: Pump, k: nat, later: seq<Event>,
      t: Pump)
    requires Run(Start(content, canSeek), events, s) && s.shared.canSeek && s.shared.request != Fail && k <= |content|
    requires Run(Apply(s, CurlSeeks(FromStart(k))).value, later, t) && NoSeeks(later)
    ensures t.given <= s.shared.buf + content[k..]
    ensures t.ended ==> t.given == s.shared.buf + content[k..]
  {
    var start := Start(content, canSeek);
    assert start.given + start.shared.Held() == start.stale + content[0..0];
    RunKeeps(start, events, s);
    var sought := Apply(s, CurlSeeks(FromStart(k))).value;
    SeekKeeps(s, FromStart(k));
    RunKeeps(sought, later, t);
    FirstPass(sought, later, t);
    GivenIsPrefix(t);
    if t.ended {
      assert t.given == t.given + t.shared.Held();
      assert content[k..t.shared.pos] == content[k..];
    }
  }

  /** What curl asks for is what the client reads next: as much as the stream gives, up to the room that curl had. */
  lemma AskedForIsRead(s: Pump, len: nat, offer: nat)
    requires Enabled(s, CurlReads(len)) && s.shared.request == Idle && s.shared.buf == [] && !s.over && s.shared.Valid()
    ensures var asked := Apply(s, CurlReads(len)).value;
      && asked.paused && Enabled(asked, ClientPolls(Offer(offer)))
      && var t := Apply(asked, ClientPolls(Offer(offer))).value;
         && |t.shared.buf| == Min(offer + 1, Min(len, |s.shared.content| - s.shared.pos))
         && t.shared.buf <= s.shared.content[s.shared.pos..] && t.shared.pos == s.shared.pos + |t.shared.buf|
         && (t.shared.request == Eof <==> t.shared.buf == []) && t.queued == s.queued + 1
  {
  }

  predicate NoSeeks(events: seq<Event>) {
    forall e | e in events :: !e.CurlSeeks?
  }

  lemma {:induction false} FirstPass(s: Pump, events: seq<Event>, t: Pump)
    requires Run(s, events, t) && NoSeeks(events)
    ensures t.from == s.from && t.stale == s.stale
    decreases |events|
  {
    if events != [] {
      assert events[0] in events;
      assert forall e | e in events[1..] :: e in events;
      FirstPass(Apply(s, events[0]).value, events[1..], t);
    }
  }

  /** Without a seek, curl is told the end of the stream only when it has been given all of it. */
  lemma UploadIsComplete(content: seq<byte>, canSeek: bool, events: seq<Event>, t: Pump)
    requires Run(Start(content, canSeek), events, t) && NoSeeks(events)
    ensures t.given <= content
    ensures t.ended ==> t.given == content
  {
    var s := Start(content, canSeek);
    assert s.given + s.shared.Held() == s.stale + content[0..0];
    FirstPass(s, events, t);
    CurlGetsTheStream(content, canSeek, events, t, NotReady);
    assert [] + content[0..] == content;
  }

  lemma {:induction false} RunAppend(s: Pump, events: seq<Event>, t: Pump, e: Event)
    requires Run(s, events, t) && Enabled(t, e) && (e.CurlReads? ==> e.len > 0) && Apply(t, e).Some?
    ensures Run(s, events + [e], Apply(t, e).value)
    decreases |events|
  {
    if events == [] {
      assert [e][1..] == [];
    } else {
      RunAppend(Apply(s, events[0]).value, events[1..], t, e);
      assert (events + [e])[1..] == events[1..] + [e];
    }
  }

  ghost predicate Reachable(content: seq<byte>, s: Pump) {
    exists events :: Run(Start(content, true), events, s)
  }

  lemma Step(content: seq<byte>, s: Pump, e: Event, t: Pump)
    requires Reachable(content, s) && Enabled(s, e) && (e.CurlReads? ==> e.len > 0) && Apply(s, e) == Some(t)
    ensures Reachable(content, t)
  {
    var events :| Run(Start(content, true), events, s);
    RunAppend(Start(content, true), events, s, e);
  }

  /** A seek while a read is pending sends the read's zeroed scratch in front of the stream, whatever it holds. */
  lemma SeekSendsScratch(content: seq<byte>)
    ensures exists t :: Reachable(content, t) && t.from == 0 && t.given == [0, 0]
  {
    var s0 := Start(content, true);
    assert Run(s0, [], s0);
    var s1 := s0.(shared := s0.shared.(request := Read(2)), paused := true);
    Step(content, s0, CurlReads(2), s1);
    var s2 := s1.(shared := s1.shared.(buf := [0, 0]));
    assert Resized([], 2) == [0, 0];
    Step(content, s1, ClientPolls(NotReady), s2);
    var s3 := s2.(shared := s2.shared.(request := Seek(FromStart(0))), stale := [0, 0]);
    Step(content, s2, CurlSeeks(FromStart(0)), s3);
    var s4 := s3.(shared := s3.shared.(request := Idle), queued := 1);
    Step(content, s3, ClientPolls(Offer(0)), s4);
    var s5 := s4.(queued := 0, paused := false);
    Step(content, s4, Unpause, s5);
    var s6 := s5.(shared := s5.shared.(buf := []), given := [0, 0]);
    assert [0, 0][2..] == [] && [] + [0, 0][..2] == [0, 0];
    Step(content, s5, CurlReads(2), s6);
  }

  /** Why curl's reads must be into room. In every run up to then, without a seek: a read into no room, and the client's
      next ready poll, end the upload with what had been given; that is the content exactly when everything had been
      read and given. */
  lemma EmptyReadEndsTheUpload(content: seq<byte>, canSeek: bool, events: seq<Event>, s: Pump, offer: nat)
    requires Run(Start(content, canSeek), events, s) && NoSeeks(events)
    requires s.shared.request == Idle && !s.paused && !s.over
    ensures Enabled(s, CurlReads(0))
    ensures var s1 := Apply(s, CurlReads(0)).value;
      && Enabled(s1, ClientPolls(Offer(offer)))
      && var s2 := Apply(s1, ClientPolls(Offer(offer))).value;
         && s2.shared.request == Eof && s2.shared.buf == [] && s2.given == s.given
         && (s2.given == content <==> s.shared.buf == [] && s.shared.pos == |content|)
  {
    var start := Start(content, canSeek);
    assert start.given + start.shared.Held() == start.stale + content[0..0];
    RunKeeps(start, events, s);
    FirstPass(start, events, s);
    assert [] + content[0..s.shared.pos] == content[..s.shared.pos];
    assert s.given + s.shared.buf == content[..s.shared.pos];
    if s.given == content {
      assert |content| + |s.shared.buf| == s.shared.pos;
    }
  }

  /** Such a run, in which bytes are held for curl. */
  lemma EmptyReadLosesBytes(content: seq<byte>)
    requires content != []
    ensures exists events, s ::
      Run(Start(content, true), events, s) && NoSeeks(events) &&
      s.shared.request == Idle && !s.paused && !s.over && s.shared.buf == content[..1] && s.given == []
  {
    var s0 := Start(content, true);
    var s1 := s0.(shared := s0.shared.(request := Read(1)), paused := true);
    var s2 := s1.(shared := s1.shared.(buf := content[..1], pos := 1, request := Idle), queued := 1);
    var s3 := s2.(queued := 0, paused := false);
    var events := [CurlReads(1), ClientPolls(Offer(0)), Unpause];
    assert events[1..] == [ClientPolls(Offer(0)), Unpause] && events[1..][1..] == [Unpause] && [Unpause][1..] == [];
    assert Apply(s0, CurlReads(1)) == Some(s1);
    assert Apply(s1, ClientPolls(Offer(0))) == Some(s2) by {
      assert content[0..0 + 1] == content[..1];
    }
    assert Apply(s2, Unpause) == Some(s3);
    assert Run(s2, [Unpause], s3);
    assert Run(s1, events[1..], s3);
    assert Run(s0, events, s3);
  }

  /** Some run tells curl the end of the stream. */
  ghost predicate CanBeToldTheEnd(s: Pump) {
    exists events, t :: Run(s, events, t) && t.ended
  }

  lemma EndStepBack(s: Pump, e: Event)
    requires Enabled(s, e) && (e.CurlReads? ==> e.len > 0) && Apply(s, e).Some? && CanBeToldTheEnd(Apply(s, e).value)
    ensures CanBeToldTheEnd(s)
  {
    var events, t :| Run(Apply(s, e).value, events, t) && t.ended;
    var longer := [e] + events;
    assert longer[1..] == events;
    assert Run(s, longer, t);
  }

  /** The seek that is under way leads inside the stream. */
  predicate SeeksInside(s: Shared) {
    match s.request
    case Seek(FromStart(k)) => s.canSeek && k <= |s.content|
    case Seek(FromEnd(d)) => s.canSeek && 0 <= |s.content| + d <= |s.content|
    case Seek(FromHere(d)) => s.canSeek && 0 <= s.pos + d <= |s.content|
    case _ => true
  }

  function Stage(s: Pump): nat {
    if s.shared.request.Read? then 0 else if s.paused then 2 else 1
  }

  /** The next step of a client and a transfer that do all they can. */
  function NextStep(s: Pump): Event {
    if s.shared.request.Read? || s.shared.request.Seek? then ClientPolls(Offer(0))
    else if s.paused then Unpause
    else CurlReads(if s.shared.buf == [] then 1 else |s.shared.buf|)
  }

  lemma {:induction false} HealthyEnds(s: Pump)
    requires Conserved(s) && Attended(s) && !s.over && SeeksInside(s.shared)
    ensures CanBeToldTheEnd(s)
    decreases s.shared.request.Seek?, s.shared.request != Eof, |s.shared.content| - s.shared.pos, |s.shared.buf|,
        Stage(s)
  {
    if s.ended {
      assert Run(s, [], s);
    } else {
      var e := NextStep(s);
      StepKeeps(s, e);
      var t := Apply(s, e).value;
      StepGoesOn(s, e);
      hide Conserved, Attended;
      if t.ended {
        assert Run(t, [], t);
      } else {
        HealthyEnds(t);
      }
      EndStepBack(s, e);
    }
  }

  lemma StepGoesOn(s: Pump, e: Event)
    requires Conserved(s) && Attended(s) && !s.over && !s.ended && SeeksInside(s.shared) && e == NextStep(s)
    ensures Enabled(s, e) && Apply(s, e).Some?
    ensures var t := Apply(s, e).value;
      && !t.over && SeeksInside(t.shared) && |t.shared.content| == |s.shared.content|
      && (t.ended ||
          (if s.shared.request.Seek? then !t.shared.request.Seek?
           else
             && !t.shared.request.Seek? && (s.shared.request == Eof ==> t.shared.request == Eof)
             && (if s.shared.request.Read? then t.shared.pos > s.shared.pos || t.shared.request == Eof
                 else
                   && t.shared.pos == s.shared.pos
                   && (|t.shared.buf| < |s.shared.buf| || (t.shared.buf == s.shared.buf && Stage(t) < Stage(s))))))
  {
  }

  /** In every run, an upload that has not failed and seeks only inside its stream can still be told the end. */
  lemma UploadCanEnd(content: seq<byte>, canSeek: bool, events: seq<Event>, s: Pump)
    requires Run(Start(content, canSeek), events, s) && !s.over && SeeksInside(s.shared)
    ensures CanBeToldTheEnd(s)
  {
    var start := Start(content, canSeek);
    assert start.given + start.shared.Held() == start.stale + content[0..0];
    RunKeeps(start, events, s);
    HealthyEnds(s);
  }
}
