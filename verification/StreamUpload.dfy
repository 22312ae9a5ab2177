/** The WinHTTP upload loops: each range the writer yields is written out under partial writes. */
module StreamUpload {
  import opened Bytes
  import opened Streams
  import opened ChunkedCoding
  import opened StreamWriter
  import opened WinHttpContext

  const U32_LIMIT: nat := 0x1_0000_0000

  /** What the system does with one write: it refuses it, reports an error after up to `len` bytes, or takes up to
      `len + 1` bytes. */
  datatype WriteTurn = Refuse | Fault(len: nat) | Accept(len: nat)

  /** No write fails. */
  predicate Sound(turns: seq<WriteTurn>) {
    forall t | t in turns :: t.Accept?
  }

  /** The length that reaches `WinHttpWriteData`: the blocking client saturates it, the async client truncates it. */
  function Asked(n: nat, truncates: bool): (r: nat)
    ensures r <= n && r < U32_LIMIT
  {
    if truncates then n % U32_LIMIT else Min(n, U32_LIMIT - 1)
  }

  /** A range below 2^32 bytes is asked for whole; of a longer one, saturating asks for 2^32 - 1 bytes. */
  lemma AsksForAll(n: nat, truncates: bool)
    ensures n <= 0xFFFF_FFFF ==> Asked(n, truncates) == n
    ensures n > 0xFFFF_FFFF && !truncates ==> Asked(n, truncates) == 0xFFFF_FFFF
  {
  }

  /** The bytes one write takes. */
  function Written(turn: WriteTurn, n: nat, truncates: bool): nat
    requires turn.Accept?
  {
    Min(turn.len + 1, Asked(n, truncates))
  }

  /** The bytes of a range of length `n` still unwritten after these turns. */
  function Unwritten(n: nat, turns: seq<WriteTurn>, truncates: bool): (r: nat)
    ensures r <= n
    decreases |turns|
  {
    if n == 0 || turns == [] || !turns[0].Accept? then n
    else Unwritten(n - Written(turns[0], n, truncates), turns[1..], truncates)
  }

  /** Saturated writes finish every range within as many writes as it has bytes. */
  lemma {:induction false} SaturatedFinishes(n: nat, turns: seq<WriteTurn>)
    requires |turns| >= n && Sound(turns)
    ensures Unwritten(n, turns, false) == 0
    decreases |turns|
  {
    if n > 0 {
      assert turns[0] in turns;
      assert forall t | t in turns[1..] :: t in turns;
      SaturatedFinishes(n - Written(turns[0], n, false), turns[1..]);
    }
  }

  /** Truncated writes never finish a range of 2^32 bytes or more, however long they go on. */
  lemma {:induction false} TruncatedNeverFinishes(n: nat, turns: seq<WriteTurn>)
    ensures Unwritten(n, turns, true) >= n / U32_LIMIT * U32_LIMIT
    decreases |turns|
  {
    if n != 0 && turns != [] && turns[0].Accept? {
      var w := Written(turns[0], n, true);
      TruncatedNeverFinishes(n - w, turns[1..]);
      SameQuotient(n, w);
    }
  }

  lemma SameQuotient(n: nat, w: nat)
    requires w <= n % U32_LIMIT
    ensures (n - w) / U32_LIMIT == n / U32_LIMIT
  {
    assert n - w == n / U32_LIMIT * U32_LIMIT + (n % U32_LIMIT - w);
  }

  lemma {:induction false} TruncatedFinishesSmall(n: nat, turns: seq<WriteTurn>)
    requires n < U32_LIMIT && |turns| >= n && Sound(turns)
    ensures Unwritten(n, turns, true) == 0
    decreases |turns|
  {
    if n > 0 {
      assert turns[0] in turns;
      assert forall t | t in turns[1..] :: t in turns;
      TruncatedFinishesSmall(n - Written(turns[0], n, true), turns[1..]);
    }
  }

  /** The async write loop finishes a range exactly when the range is shorter than 2^32 bytes. */
  lemma AsyncWriteFinishesIff(n: nat, turns: seq<WriteTurn>)
    requires |turns| >= n && Sound(turns)
    ensures Unwritten(n, turns, true) == 0 <==> n < U32_LIMIT
  {
    if n < U32_LIMIT {
      TruncatedFinishesSmall(n, turns);
    } else {
      TruncatedNeverFinishes(n, turns);
    }
  }

  /** The bytes a whole upload puts on the wire. */
  function Wire(pieces: seq<seq<byte>>, chunked: bool): seq<byte> {
    if chunked then Chunks(pieces) + LAST_CHUNK else Concat(pieces)
  }

  /** The bytes of the pieces sent so far. */
  function Sent(pieces: seq<seq<byte>>, chunked: bool): seq<byte> {
    if chunked then Chunks(pieces) else Concat(pieces)
  }

  /** How far an upload of `parts` has come: `done` pieces make up `out`, the list `now` is left. */
  datatype Upload = Upload(parts: seq<Part>, chunked: bool, now: seq<Part>, finished: bool,
                           done: seq<seq<byte>>, out: seq<byte>)
  {
    function Cap(): (n: nat)
      ensures n > 0
    {
      MaxChunkSize(chunked)
    }

    /** The pieces of the whole upload, and the bytes they put on the wire. */
    function All(): seq<seq<byte>> {
      Pieces(parts, Cap())
    }

    function Total(): seq<byte> {
      Wire(All(), chunked)
    }

    ghost predicate Consistent() {
      if finished then Completes(parts, Cap()) && All() == done && out == Wire(done, chunked)
      else
        && All() == done + Pieces(now, Cap())
        && Completes(parts, Cap()) == Completes(now, Cap())
        && out == Sent(done, chunked)
    }

    predicate Matches(writer: StreamWriter)
      reads writer
    {
      writer.parts == now && writer.chunked == chunked && writer.finished == finished
    }

    /** One poll of the writer and the range it yields. */
    function Range(): seq<byte> {
      match TakeNext(now, Cap())
      case Exhausted => if chunked then LAST_CHUNK else []
      case Piece(b, _) => Framed(b, chunked)
      case _ => []
    }

    function Next(): Upload {
      match TakeNext(now, Cap())
      case Exhausted => this.(now := [], finished := true, out := out + Range())
      case Blocked(ps) => this.(now := ps)
      case Failure(ps) => this.(now := ps)
      case Piece(b, ps) => this.(now := ps, done := done + [b], out := out + Range())
    }
  }

  function NewUpload(parts: seq<Part>, chunked: bool): Upload {
    Upload(parts, chunked, parts, false, [], [])
  }

  lemma SentIsPrefix(done: seq<seq<byte>>, rest: seq<seq<byte>>, chunked: bool)
    ensures Sent(done, chunked) <= Wire(done + rest, chunked)
  {
    ChunksAppend(done, rest);
    ConcatAppend(done, rest);
  }

  lemma SentOne(done: seq<seq<byte>>, b: seq<byte>, chunked: bool)
    ensures Sent(done + [b], chunked) == Sent(done, chunked) + Framed(b, chunked)
  {
    ChunksAppend(done, [b]);
    ConcatAppend(done, [b]);
    assert Chunks([b]) == Chunk(b) && Concat([b]) == b;
  }

  lemma NewUploadConsistent(parts: seq<Part>, chunked: bool)
    ensures NewUpload(parts, chunked).Consistent()
  {
    var u := NewUpload(parts, chunked);
    assert [] + u.All() == u.All();
  }

  lemma NextStays(u: Upload)
    ensures u.Next().parts == u.parts && u.Next().chunked == u.chunked && u.Next().Total() == u.Total()
  {
    hide TakeNext, Wire;
  }

  /** A poll that does not fail keeps the account. */
  lemma StepConsistent(u: Upload)
    requires u.Consistent() && !u.finished && !TakeNext(u.now, u.Cap()).Failure?
    ensures u.Next().Consistent()
    ensures !u.Next().finished ==> Weight(u.Next().now) < Weight(u.now)
  {
    var next := TakeNext(u.now, u.Cap());
    TakeNextConserves(u.now, u.Cap());
    if next.Piece? {
      SentOne(u.done, next.bytes, u.chunked);
      Assoc(u.done, [next.bytes], Pieces(next.parts, u.Cap()));
    }
  }

  /** What is out is always the beginning of the whole, also with the next range. */
  lemma StepIsPrefix(u: Upload)
    requires u.Consistent()
    ensures u.out <= u.Total()
    ensures !u.finished ==> u.out + u.Range() <= u.Total()
  {
    if !u.finished {
      var next := TakeNext(u.now, u.Cap());
      TakeNextConserves(u.now, u.Cap());
      SentIsPrefix(u.done, Pieces(u.now, u.Cap()), u.chunked);
      if !next.Failure? {
        StepConsistent(u);
      }
      if next.Piece? {
        SentIsPrefix(u.Next().done, Pieces(next.parts, u.Cap()), u.chunked);
      } else if next.Failure? {
        assert u.out + u.Range() == u.out;
      }
    }
  }

  /** A finished upload has sent everything; a failed or oversized piece is part of it. */
  lemma StepOutcome(u: Upload)
    requires u.Consistent()
    ensures u.finished ==> Completes(u.parts, u.Cap()) && u.out == u.Total() && u.done == u.All()
    ensures !u.finished && TakeNext(u.now, u.Cap()).Failure? ==> !Completes(u.parts, u.Cap())
    ensures var next := TakeNext(u.now, u.Cap());
      !u.finished && next.Piece? ==>
        && |next.bytes| <= Longest(u.All(), false) && |Framed(next.bytes, u.chunked)| <= Longest(u.All(), u.chunked)
        && Longest(u.Next().done, false) == Max(Longest(u.done, false), |next.bytes|)
        && Longest(u.Next().done, u.chunked) == Max(Longest(u.done, u.chunked), |Framed(next.bytes, u.chunked)|)
  {
    if !u.finished {
      TakeNextConserves(u.now, u.Cap());
      var next := TakeNext(u.now, u.Cap());
      if next.Piece? {
        assert u.All()[|u.done|] == next.bytes;
        LongestBounds(u.All(), false, |u.done|);
        LongestBounds(u.All(), u.chunked, |u.done|);
        LongestAppend(u.done, next.bytes, false);
        LongestAppend(u.done, next.bytes, u.chunked);
      }
    }
  }

  /** The length of the longest range among the pieces. */
  function Longest(pieces: seq<seq<byte>>, chunked: bool): nat {
    if pieces == [] then 0
    else Max(Longest(pieces[..|pieces| - 1], chunked), |Framed(pieces[|pieces| - 1], chunked)|)
  }

  function Max(a: nat, b: nat): nat {
    if a <= b then b else a
  }

  lemma LongestAppend(pieces: seq<seq<byte>>, b: seq<byte>, chunked: bool)
    ensures Longest(pieces + [b], chunked) == Max(Longest(pieces, chunked), |Framed(b, chunked)|)
  {
    assert (pieces + [b])[..|pieces|] == pieces;
  }

  /** Every piece is within the longest. */
  lemma {:induction false} LongestBounds(pieces: seq<seq<byte>>, chunked: bool, i: nat)
    requires i < |pieces|
    ensures |Framed(pieces[i], chunked)| <= Longest(pieces, chunked)
  {
    hide Framed;
    var last := |pieces| - 1;
    if i < last {
      LongestBounds(pieces[..last], chunked, i);
    }
  }

  /** The longest is a piece. */
  lemma {:induction false} LongestIsOne(pieces: seq<seq<byte>>, chunked: bool)
    requires pieces != []
    ensures exists j | 0 <= j < |pieces| :: |Framed(pieces[j], chunked)| == Longest(pieces, chunked)
  {
    hide Framed;
    var last := |pieces| - 1;
    var front := pieces[..last];
    assert Longest([], chunked) == 0;
    if |Framed(pieces[last], chunked)| != Longest(pieces, chunked) {
      LongestIsOne(front, chunked);
      var j :| 0 <= j < |front| && |Framed(front[j], chunked)| == Longest(front, chunked);
      assert front[j] == pieces[j];
    }
  }

  /** No chunk is too long for the frame text, so the writer cannot panic. */
  predicate Fits(pieces: seq<seq<byte>>, chunked: bool) {
    chunked ==> Longest(pieces, false) <= MAX_FRAMED
  }

  /** No range is long enough to be truncated on its way to the system. */
  predicate Untruncated(pieces: seq<seq<byte>>, chunked: bool) {
    Longest(pieces, chunked) < U32_LIMIT
  }

  datatype UploadResult = Uploaded | ReadFailed | WriteFailed | Crashed | Waiting

  /** How a request was sent: with its body, or with the body to follow and the 32-bit length that the system was told;
      its largest value tells the system that there is none. */
  datatype SendMode = NotSent | WithBody | ToFollow(total: nat)

  /** The request handle with the system behind it. */
  class RequestHandle {
    var sent: seq<byte>
    var turns: seq<WriteTurn>
    var mode: SendMode

    constructor (plan: seq<WriteTurn>)
      ensures sent == [] && turns == plan && mode == NotSent
    {
      sent, turns, mode := [], plan, NotSent;
    }

    /** `send`, whose length is cast to 32 bits. */
    method Send(data: seq<byte>)
      modifies this`sent, this`mode
      ensures sent == old(sent) + data[..|data| % U32_LIMIT] && mode == WithBody
    {
      sent := sent + data[..|data| % U32_LIMIT];
      mode := WithBody;
    }

    /** `send_with_total_length`, whose length is saturated, or `send_chunked` when there is none. */
    method SendHeaders(length: Option<nat>)
      modifies this`mode
      ensures length.Some? && length.value < 0xFFFF_FFFF ==> mode == ToFollow(length.value)
      ensures length.None? || length.value >= 0xFFFF_FFFF ==> mode == ToFollow(0xFFFF_FFFF)
    {
      mode := ToFollow(if length.Some? then Min(length.value, 0xFFFF_FFFF) else 0xFFFF_FFFF);
    }

    /** One `WinHttpWriteData`; an empty plan accepts everything. A write that fails may have sent some bytes. */
    method WriteData(data: seq<byte>, truncates: bool) returns (written: Option<nat>, faulted: bool)
      modifies this`sent, this`turns
      ensures turns == if old(turns) == [] then [] else old(turns)[1..]
      ensures written.None? <==> old(turns) != [] && !old(turns)[0].Accept?
      ensures faulted <==> old(turns) != [] && old(turns)[0].Fault?
      ensures Sound(old(turns)) ==> written.Some? && Sound(turns)
      ensures old(sent) <= sent <= old(sent) + data
      ensures written.None? && !faulted ==> sent == old(sent)
      ensures written.Some? ==> written.value <= |data| && sent == old(sent) + data[..written.value]
      ensures written.Some? && old(turns) != [] ==> written.value == Written(old(turns)[0], |data|, truncates)
      ensures written.Some? && data != [] && !truncates ==> written.value > 0
    {
      var n := Asked(|data|, truncates);
      faulted := false;
      if turns != [] {
        var turn := turns[0];
        turns := turns[1..];
        if !turn.Accept? {
          faulted := turn.Fault?;
          if faulted {
            sent := sent + data[..Min(turn.len, n)];
          }
          return None, faulted;
        }
        n := Written(turn, |data|, truncates);
      }
      sent := sent + data[..n];
      written := Some(n);
    }
  }

  /** The blocking client's inner loop: every byte of the range once and in order. */
  method WriteRange(handle: RequestHandle, buf: array<byte>, from: nat, end: nat) returns (ok: bool)
    requires from <= end <= buf.Length
    modifies handle`sent, handle`turns
    ensures old(handle.sent) <= handle.sent <= old(handle.sent) + buf[from..end]
    ensures ok ==> handle.sent == old(handle.sent) + buf[from..end]
    ensures Sound(old(handle.turns)) ==> ok && Sound(handle.turns)
  {
    var start := from;
    ghost var range, base := buf[from..end], handle.sent;
    ghost var all := handle.turns;
    while start < end
      invariant from <= start <= end && buf[from..end] == range
      invariant handle.sent == base + range[..start - from]
      invariant Sound(all) ==> Sound(handle.turns)
      decreases end - start
    {
      ghost var before := start;
      SplitRange(base, buf[..], from, start, end);
      var written, _ := handle.WriteData(buf[start..end], false);
      if written.None? {
        return false;
      }
      start := start + written.value;
      ExtendRange(base, buf[..], from, before, start, end);
    }
    assert range[..end - from] == range;
    ok := true;
  }

  /** What is still to go completes what has gone out. */
  lemma SplitRange(base: seq<byte>, all: seq<byte>, from: nat, start: nat, end: nat)
    requires from <= start <= end <= |all|
    ensures base + all[from..end][..start - from] + all[start..end] == base + all[from..end]
  {
    Stretch(all, from, start - from, end - start, end);
    assert all[from..end][..end - from] == all[from..end];
    Assoc(base, all[from..end][..start - from], all[start..end]);
  }

  lemma ExtendRange(base: seq<byte>, all: seq<byte>, from: nat, start: nat, next: nat, end: nat)
    requires from <= start <= next <= end <= |all|
    ensures base + all[from..end][..start - from] + all[start..end][..next - start] ==
        base + all[from..end][..next - from]
  {
    Stretch(all, from, start - from, next - start, end);
    assert all[start..end][..next - start] == all[start..next];
    Assoc(base, all[from..end][..start - from], all[start..next]);
  }

  /** A poll of the writer, told as a step of the upload. */
  method TakeRange(writer: StreamWriter, ghost u: Upload) returns (r: TakeResult)
    requires u.Consistent() && u.Matches(writer) && !u.finished
    modifies writer, writer.buffer
    ensures writer.buffer == old(writer.buffer) || fresh(writer.buffer)
    ensures r.Taken? ==> (r.buf == old(writer.buffer) || fresh(r.buf)) && r.start <= r.end <= r.buf.Length
    ensures r == Broke ==> !Completes(u.parts, u.Cap())
    ensures r == Panicked ==> !Fits(u.All(), u.chunked)
    ensures r.Taken? ==>
              r.buf[r.start..r.end] == u.Range() && (Fits(u.done, u.chunked) ==> Fits(u.Next().done, u.chunked))
    ensures r.Taken? || r == NotYet ==> u.Next().Matches(writer) && u.Next().Consistent()
    ensures r == NotYet ==> u.Next() == u.(now := writer.parts) && !NeverPends(u.now)
    ensures r == NotYet ==> writer.buffer.Length == CHUNK_BUFFER_SIZE
    ensures r.Taken? || r == NotYet ==>
              !u.Next().finished ==>
                Weight(writer.parts) < Weight(u.now) && (NeverPends(u.now) ==> NeverPends(writer.parts))
  {
    ghost var next := TakeNext(u.now, u.Cap());
    StepOutcome(u);
    TakeNextKeepsPromises(u.now, u.Cap());
    if !next.Failure? {
      StepConsistent(u);
    }
    r := writer.PollTakeBuffer();
  }

  /** A truncated range shows in the pieces, and an untruncated one adds none. */
  lemma StepUntruncated(u: Upload)
    requires u.Consistent() && !u.finished
    ensures u.Next().Total() == u.Total() && |u.Next().out| == |u.out| + |u.Range()|
    ensures |u.Range()| >= U32_LIMIT ==> !Untruncated(u.All(), u.chunked)
    ensures |u.Range()| < U32_LIMIT && Untruncated(u.done, u.chunked) ==> Untruncated(u.Next().done, u.Next().chunked)
  {
    StepOutcome(u);
    if !TakeNext(u.now, u.Cap()).Piece? {
      assert |u.Range()| < U32_LIMIT;
    }
  }

  /** The upload `u` is where the writer and the wire are. */
  ghost predicate InStep(u: Upload, writer: StreamWriter, handle: RequestHandle)
    reads writer, handle
  {
    u.Consistent() && u.Matches(writer) && handle.sent == u.out
  }

  /** One pass of the blocking upload loop. */
  method PumpBlocking(handle: RequestHandle, writer: StreamWriter, ghost u: Upload) returns (r: UploadResult)
    requires InStep(u, writer, handle) && !u.finished && NeverPends(u.now)
    modifies handle`sent, handle`turns, writer, writer.buffer
    ensures writer.buffer == old(writer.buffer) || fresh(writer.buffer)
    ensures handle.sent <= u.Total() && r != Waiting
    ensures r == Uploaded ==>
              InStep(u.Next(), writer, handle) && (Fits(u.done, u.chunked) ==> Fits(u.Next().done, u.chunked))
    ensures r == Uploaded && !u.Next().finished ==> Weight(writer.parts) < Weight(u.now) && NeverPends(writer.parts)
    ensures r == Uploaded && writer.parts != [] && writer.parts[0].Stream? ==>
              writer.buffer.Length == CHUNK_BUFFER_SIZE
    ensures r == ReadFailed ==> !Completes(u.parts, u.Cap())
    ensures r == Crashed ==> !Fits(u.All(), u.chunked)
    ensures Sound(old(handle.turns)) ==> r != WriteFailed && Sound(handle.turns)
  {
    StepIsPrefix(u);
    var taken := TakeRange(writer, u);
    if taken == Broke {
      return ReadFailed;
    } else if taken == Panicked {
      return Crashed;
    }
    var ok := WriteRange(handle, taken.buf, taken.start, taken.end);
    if !ok {
      return WriteFailed;
    }
    writer.Advance(taken.buf);
    r := Uploaded;
  }

  /** `send_streaming_request` on a fresh request: a blocking stream never answers that it is not ready. Unless the
      system refuses a write, it succeeds exactly when no stream fails and every chunk size fits the frame text. */
  method SendStreamingRequest(handle: RequestHandle, parts: seq<Part>, chunked: bool) returns (r: UploadResult)
    requires NeverPends(parts) && handle.sent == []
    modifies handle`sent, handle`turns
    ensures r != Waiting
    ensures handle.sent <= NewUpload(parts, chunked).Total()
    ensures r == Uploaded ==>
              Completes(parts, MaxChunkSize(chunked)) && handle.sent == NewUpload(parts, chunked).Total()
    ensures Sound(old(handle.turns)) ==>
              (r == Uploaded <==>
               Completes(parts, MaxChunkSize(chunked)) && Fits(NewUpload(parts, chunked).All(), chunked))
    ensures r == ReadFailed ==> !Completes(parts, MaxChunkSize(chunked))
    ensures r == Crashed ==> !Fits(NewUpload(parts, chunked).All(), chunked)
    ensures r == WriteFailed ==> !Sound(old(handle.turns))
  {
    ghost var u := NewUpload(parts, chunked);
    NewUploadConsistent(parts, chunked);
    StepIsPrefix(u);
    hide Upload.Next, Upload.Consistent, Upload.Total;
    var writer := new StreamWriter(parts, chunked);
    while !writer.finished
      invariant fresh(writer) && fresh(writer.buffer)
      invariant u.parts == parts && u.chunked == chunked && InStep(u, writer, handle) &&
          u.Total() == NewUpload(parts, chunked).Total()
      invariant handle.sent <= u.Total() && (!u.finished ==> NeverPends(u.now))
      invariant Fits(u.done, chunked)
      invariant Sound(old(handle.turns)) ==> Sound(handle.turns)
      decreases !writer.finished, Weight(writer.parts)
    {
      r := PumpBlocking(handle, writer, u);
      if r != Uploaded {
        return;
      }
      NextStays(u);
      u := u.Next();
    }
    StepOutcome(u);
    r := Uploaded;
  }

  /** No bytes stand in the context. */
  predicate NothingParked(ctx: RequestContext)
    reads ctx
  {
    ctx.buffer.bytes == [] && ctx.start == ctx.end == 0
  }

  /** One write of `write_all_data_async`: started, completed or failed by the callback, then found by the poll. */
  method WriteOnceAsync(ctx: RequestContext, handle: RequestHandle, start: nat, end: nat) returns (written: Option<nat>)
    requires ctx.error.None? && start < end <= |ctx.buffer.bytes| && handle.turns != []
    modifies ctx, handle`sent, handle`turns
    ensures ctx.error.None? && ctx.buffer == old(ctx.buffer)
    ensures handle.turns == old(handle.turns)[1..]
    ensures written.None? <==> !old(handle.turns)[0].Accept?
    ensures Sound(old(handle.turns)) ==> Sound(handle.turns)
    ensures old(handle.sent) <= handle.sent <= old(handle.sent) + ctx.buffer.bytes[start..end]
    ensures written.Some? ==> written.value == Written(old(handle.turns)[0], end - start, true) <= end - start
    ensures written.Some? && end - start < U32_LIMIT ==> written.value > 0
    ensures written.Some? ==> handle.sent == old(handle.sent) + ctx.buffer.bytes[start..end][..written.value]
  {
    ctx.PrepareForWriting();
    var data := ctx.buffer.bytes[start..end];
    var faulted;
    written, faulted := handle.WriteData(data, true);
    if written.Some? {
      ctx.SetWriteComplete(written.value);
      var reached := ctx.PollForState({WriteComplete}, 0);
      written := Some(reached.transferred);
    } else if faulted {
      ctx.SetError(0);
      var failed := ctx.PollForState({WriteComplete}, 0);
      assert failed == StateError(0);
    }
  }

  /** What a run of writes leaves of the turns tells its result: only the last write can be one that fails, it is
      exactly when the run has failed, and a run that waits has used them up. */
  predicate Consumed(before: seq<WriteTurn>, after: seq<WriteTurn>, r: UploadResult) {
    && |after| <= |before| && before[|before| - |after|..] == after
    && (forall i | 0 <= i < |before| - |after| - 1 :: before[i].Accept?)
    && (r == WriteFailed <==> |after| < |before| && !before[|before| - |after| - 1].Accept?)
    && (r == Waiting ==> after == [])
  }

  lemma ConsumedOne(all: seq<WriteTurn>, now: seq<WriteTurn>)
    requires Consumed(all, now, Uploaded) && now != []
    ensures Consumed(all, now[1..], if now[0].Accept? then Uploaded else WriteFailed)
  {
    var n := |all| - |now|;
    assert all[n] == now[0] && all[n + 1..] == now[1..];
    assert n > 0 ==> all[n - 1].Accept?;
  }

  lemma ConsumedAtOnce(all: seq<WriteTurn>)
    ensures Consumed(all, all, Uploaded)
    ensures all == [] ==> Consumed(all, all, Waiting)
  {
    assert all[0..] == all;
  }

  lemma UsedUp(all: seq<WriteTurn>)
    requires Consumed(all, [], Uploaded)
    ensures Consumed(all, [], Waiting)
  {
  }

  lemma FailedIsUnsound(all: seq<WriteTurn>, now: seq<WriteTurn>, r: UploadResult)
    requires Consumed(all, now, r)
    ensures r == WriteFailed ==> !Sound(all)
    ensures r == Waiting ==> now == []
  {
  }

  /** `write_all_data_async`: the data is parked in the context, and each write is awaited through its callback.
      The run goes on for as many completions as the system delivers. */
  method WriteAllDataAsync(ctx: RequestContext, handle: RequestHandle, data: array<byte>, from: nat, end: nat)
    returns (r: UploadResult)
    requires from <= end <= data.Length && ctx.error.None?
    modifies ctx, handle`sent, handle`turns
    ensures ctx.error.None? && (r == Uploaded || r == WriteFailed || r == Waiting)
    ensures old(NothingParked(ctx)) && r == Uploaded ==> NothingParked(ctx)
    ensures handle.sent <= old(handle.sent) + data[from..end]
    ensures r == Uploaded ==> handle.sent == old(handle.sent) + data[from..end]
    ensures r == Uploaded <==> Unwritten(end - from, old(handle.turns), true) == 0
    ensures Sound(old(handle.turns)) ==> Sound(handle.turns)
    ensures Sound(old(handle.turns)) && end - from < U32_LIMIT ==>
              |handle.turns| >= |old(handle.turns)| - (end - from)
    ensures Consumed(old(handle.turns), handle.turns, r)
  {
    hide Written, Asked, Sound, Consumed;
    ConsumedAtOnce(handle.turns);
    if data.Length == 0 {
      return Uploaded;
    }
    ctx.SetWriteBuffer(Owned(data[..]));
    var start := from;
    ghost var all, base, n := handle.turns, handle.sent, |handle.turns|;
    assert data[..][from..end] == data[from..end];
    while start < end && handle.turns != []
      invariant from <= start <= end && ctx.error.None? && ctx.buffer == Owned(data[..])
      invariant handle.sent == base + data[..][from..end][..start - from]
      invariant Unwritten(end - start, handle.turns, true) == Unwritten(end - from, all, true)
      invariant Sound(all) ==> Sound(handle.turns)
      invariant end - from < U32_LIMIT ==> |handle.turns| >= n - (start - from)
      invariant Consumed(all, handle.turns, Uploaded)
      decreases |handle.turns|
    {
      SplitRange(base, data[..], from, start, end);
      ghost var before := start;
      ConsumedOne(all, handle.turns);
      var written := WriteOnceAsync(ctx, handle, start, end);
      if written.None? {
        return WriteFailed;
      }
      start := start + written.value;
      ExtendRange(base, data[..], from, before, start, end);
    }
    SplitRange(base, data[..], from, start, end);
    if start < end {
      UsedUp(all);
      return Waiting;
    }
    assert data[..][from..end][..end - from] == data[from..end];
    var back := ctx.TakeWriteBuffer();
    r := Uploaded;
  }

  /** Enough completions for the bytes that are still to go, and none of them a refusal. */
  ghost predicate Ample(u: Upload, turns: seq<WriteTurn>) {
    Sound(turns) && Untruncated(u.done, u.chunked) && |turns| >= |u.Total()| - |u.out|
  }

  lemma AmpleStep(u: Upload, before: seq<WriteTurn>, after: seq<WriteTurn>)
    requires u.Consistent() && !u.finished && Ample(u, before)
    requires Sound(after) && |u.Range()| < U32_LIMIT && |after| >= |before| - |u.Range()|
    ensures Ample(u.Next(), after)
  {
    StepUntruncated(u);
  }

  /** With ample completions only a truncated range is left waiting. */
  lemma AmpleFinishes(u: Upload, turns: seq<WriteTurn>)
    requires u.Consistent() && !u.finished && Ample(u, turns)
    ensures Sound(turns)
    ensures Unwritten(|u.Range()|, turns, true) == 0 <==> |u.Range()| < U32_LIMIT
    ensures |u.Range()| >= U32_LIMIT ==> !Untruncated(u.All(), u.chunked)
  {
    StepUntruncated(u);
    StepIsPrefix(u);
    assert |u.out| + |u.Range()| <= |u.Total()|;
    AsyncWriteFinishesIff(|u.Range()|, turns);
  }

  /** Writing out the range of one step. */
  method SendRangeAsync(ctx: RequestContext, handle: RequestHandle, buf: array<byte>, start: nat, end: nat,
      ghost u: Upload)
    returns (r: UploadResult)
    requires ctx.error.None? && start <= end <= buf.Length
    requires u.Consistent() && !u.finished && buf[start..end] == u.Range() && handle.sent == u.out
    modifies ctx, handle`sent, handle`turns
    ensures ctx.error.None? && handle.sent <= u.Total()
    ensures old(NothingParked(ctx)) && r == Uploaded ==> NothingParked(ctx)
    ensures r == Uploaded || r == WriteFailed || r == Waiting
    ensures r == Uploaded ==> handle.sent == u.out + u.Range()
    ensures Sound(old(handle.turns)) ==> Sound(handle.turns) && r != WriteFailed
    ensures r == Waiting ==> handle.turns == []
    ensures Ample(u, old(handle.turns)) && r == Uploaded ==> Ample(u.Next(), handle.turns)
    ensures Ample(u, old(handle.turns)) && r != Uploaded ==> !Untruncated(u.All(), u.chunked)
  {
    hide Upload.Consistent, Upload.Next, Upload.Range, Upload.Total, Upload.All, Ample, Untruncated, Unwritten, Sound,
      Consumed;
    StepIsPrefix(u);
    ghost var turns := handle.turns;
    if Ample(u, turns) {
      AmpleFinishes(u, turns);
    }
    assert |u.Range()| == end - start;
    r := WriteAllDataAsync(ctx, handle, buf, start, end);
    FailedIsUnsound(turns, handle.turns, r);
    if Ample(u, turns) && r == Uploaded {
      AmpleStep(u, turns, handle.turns);
    }
  }

  /** One pass of the async upload loop; a poll that is not ready is one too. */
  method PumpAsync(ctx: RequestContext, handle: RequestHandle, writer: StreamWriter, ghost u: Upload)
    returns (r: UploadResult)
    requires InStep(u, writer, handle) && !u.finished && ctx.error.None?
    modifies ctx, handle`sent, handle`turns, writer, writer.buffer
    ensures ctx.error.None? && (writer.buffer == old(writer.buffer) || fresh(writer.buffer))
    ensures old(NothingParked(ctx)) && r == Uploaded ==> NothingParked(ctx)
    ensures handle.sent <= u.Total()
    ensures r == Uploaded ==>
              InStep(u.Next(), writer, handle) && (Fits(u.done, u.chunked) ==> Fits(u.Next().done, u.chunked))
    ensures r == Uploaded && !u.Next().finished ==> Weight(writer.parts) < Weight(u.now)
    ensures r == Uploaded && writer.parts != [] && writer.parts[0].Stream? ==>
              writer.buffer.Length == CHUNK_BUFFER_SIZE
    ensures r == ReadFailed ==> !Completes(u.parts, u.Cap())
    ensures r == Crashed ==> !Fits(u.All(), u.chunked)
    ensures Sound(old(handle.turns)) ==> Sound(handle.turns) && r != WriteFailed
    ensures r == Waiting ==> handle.turns == []
    ensures Ample(u, old(handle.turns)) && r == Uploaded ==> Ample(u.Next(), handle.turns)
    ensures Ample(u, old(handle.turns)) && (r == Waiting || r == WriteFailed) ==> !Untruncated(u.All(), u.chunked)
  {
    StepIsPrefix(u);
    var taken := TakeRange(writer, u);
    if taken == NotYet {
      if Ample(u, handle.turns) {
        AmpleStep(u, handle.turns, handle.turns);
      }
      return Uploaded;
    } else if taken == Broke {
      return ReadFailed;
    } else if taken == Panicked {
      return Crashed;
    }
    r := SendRangeAsync(ctx, handle, taken.buf, taken.start, taken.end, u);
    if r == Uploaded {
      writer.Advance(taken.buf);
    }
  }

  /** `poll_stream_upload` on a fresh request. Given a completion for every byte and no refusal, it succeeds
      exactly when no stream fails, every chunk size fits the frame text and no range reaches 2^32 bytes. */
  method PollStreamUpload(ctx: RequestContext, handle: RequestHandle, parts: seq<Part>, chunked: bool)
    returns (r: UploadResult)
    requires ctx.error.None? && handle.sent == []
    modifies ctx, handle`sent, handle`turns
    ensures ctx.error.None? && (old(NothingParked(ctx)) && r == Uploaded ==> NothingParked(ctx))
    ensures handle.sent <= NewUpload(parts, chunked).Total()
    ensures r == Uploaded ==>
              Completes(parts, MaxChunkSize(chunked)) && handle.sent == NewUpload(parts, chunked).Total()
    ensures var all := NewUpload(parts, chunked);
              Sound(old(handle.turns)) && |old(handle.turns)| >= |all.Total()| ==>
              (r == Uploaded <==>
                 Completes(parts, MaxChunkSize(chunked)) && Fits(all.All(), chunked) && Untruncated(all.All(), chunked))
    ensures r == ReadFailed ==> !Completes(parts, MaxChunkSize(chunked))
    ensures r == Crashed ==> !Fits(NewUpload(parts, chunked).All(), chunked)
    ensures r == WriteFailed ==> !Sound(old(handle.turns))
    ensures r == Waiting ==> handle.turns == []
  {
    ghost var u := NewUpload(parts, chunked);
    NewUploadConsistent(parts, chunked);
    StepIsPrefix(u);
    ghost var ample := Ample(u, handle.turns);
    hide Upload.Next, Upload.Consistent, Upload.Total, Ample;
    var writer := new StreamWriter(parts, chunked);
    while !writer.finished
      invariant fresh(writer) && fresh(writer.buffer) && ctx.error.None?
      invariant old(NothingParked(ctx)) ==> NothingParked(ctx)
      invariant u.parts == parts && u.chunked == chunked && InStep(u, writer, handle)
      invariant handle.sent <= u.Total() == NewUpload(parts, chunked).Total()
      invariant Fits(u.done, chunked) && (ample ==> Ample(u, handle.turns))
      invariant Sound(old(handle.turns)) ==> Sound(handle.turns)
      decreases !writer.finished, Weight(writer.parts)
    {
      r := PumpAsync(ctx, handle, writer, u);
      if r != Uploaded {
        return;
      }
      NextStays(u);
      u := u.Next();
    }
    StepOutcome(u);
    r := Uploaded;
  }

  /** What reaches the server: a finished chunked upload decodes to the content of the parts, and a finished
      unchunked one is that content. */
  lemma UploadDelivers(parts: seq<Part>, chunked: bool)
    requires Completes(parts, MaxChunkSize(chunked))
    ensures var sent := Wire(Pieces(parts, MaxChunkSize(chunked)), chunked);
      if chunked then Decode(sent) == Some(Content(parts)) else sent == Content(parts)
  {
    var pieces := Pieces(parts, MaxChunkSize(chunked));
    PiecesConserve(parts, MaxChunkSize(chunked));
    DecodeChunks(pieces);
  }

  /** The last chunk goes out once and last: what has gone out before it is refused by the decoder. */
  lemma LastChunkIsLast(parts: seq<Part>, k: nat)
    ensures var pieces := Pieces(parts, MaxChunkSize(true));
      k <= |pieces| ==> Decode(Sent(pieces[..k], true)) == None
  {
    hide Decode;
    PiecesConserve(parts, MaxChunkSize(true));
    if k <= |Pieces(parts, MaxChunkSize(true))| {
      UnfinishedIsRejected(Pieces(parts, MaxChunkSize(true))[..k]);
    }
  }
}
