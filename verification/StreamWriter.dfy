/** The WinHTTP stream writer: it pulls parts through one reusable buffer and frames them in place. */
module StreamWriter {
  import opened Bytes
  import opened Streams
  import opened ChunkedCoding

  const CHUNK_BUFFER_SIZE: nat := 16 * 1024

  /** The next piece of a part list, before any framing. */
  datatype Next =
    | Exhausted
    | Blocked(parts: seq<Part>)
    | Failure(parts: seq<Part>)
    | Piece(bytes: seq<byte>, parts: seq<Part>)

  /** Empty data parts and drained streams are dropped; a data part is taken whole, a stream gives one read. */
  function TakeNext(parts: seq<Part>, cap: nat): Next {
    if parts == [] then Exhausted
    else match parts[0] {
      case Data(d) =>
        if d == [] then TakeNext(parts[1..], cap) else Piece(d, [Data([])] + parts[1..])
      case Stream(s) =>
        var (outcome, s') := s.Poll(cap);
        match outcome
        case Pending => Blocked([Stream(s')] + parts[1..])
        case Failed => Failure([Stream(s')] + parts[1..])
        case Ready(b) => if b == [] then TakeNext(parts[1..], cap) else Piece(b, [Stream(s')] + parts[1..])
    }
  }

  /** What a step makes of a list: no byte is lost, added or reordered, and there is progress. */
  predicate Conserves(parts: seq<Part>, r: Next) {
    match r
    case Exhausted => Content(parts) == []
    case Blocked(ps) => Content(ps) == Content(parts) && Weight(ps) < Weight(parts)
    case Failure(ps) => Content(ps) == Content(parts)
    case Piece(b, ps) => b != [] && b + Content(ps) == Content(parts) && Weight(ps) < Weight(parts)
  }

  lemma Reheaded(head: Part, tail: seq<Part>)
    ensures Content([head] + tail) == head.Content() + Content(tail)
    ensures Weight([head] + tail) == head.Weight() + Weight(tail)
  {
    assert ([head] + tail)[1..] == tail;
  }

  lemma DroppedHead(head: Part, tail: seq<Part>, r: Next)
    requires head.Content() == [] && Conserves(tail, r)
    ensures Conserves([head] + tail, r)
  {
    Reheaded(head, tail);
  }

  lemma StreamIsRead(s: Source, tail: seq<Part>, cap: nat)
    requires cap > 0
    ensures var (outcome, s') := s.Poll(cap);
      var left := [Stream(s')] + tail;
      match outcome
      case Pending => Conserves([Stream(s)] + tail, Blocked(left))
      case Failed => Conserves([Stream(s)] + tail, Failure(left))
      case Ready(b) => if b == [] then s.rest == [] else Conserves([Stream(s)] + tail, Piece(b, left))
  {
    var (outcome, s') := s.Poll(cap);
    Reheaded(Stream(s), tail);
    Reheaded(Stream(s'), tail);
    if outcome.Ready? {
      Assoc(outcome.bytes, s'.rest, Content(tail));
    }
    hide Content, Weight;
  }

  /** A step never loses, adds or reorders a byte, and always makes progress. */
  lemma {:induction false} TakeNextConserves(parts: seq<Part>, cap: nat)
    requires cap > 0
    ensures var r := TakeNext(parts, cap);
      match r
      case Exhausted => Content(parts) == []
      case Blocked(ps) => Content(ps) == Content(parts) && Weight(ps) < Weight(parts)
      case Failure(ps) => Content(ps) == Content(parts)
      case Piece(b, ps) => b != [] && b + Content(ps) == Content(parts) && Weight(ps) < Weight(parts)
  {
    if parts != [] {
      var tail, r := parts[1..], TakeNext(parts, cap);
      assert parts == [parts[0]] + tail;
      match parts[0] {
        case Data(d) =>
          if d == [] {
            TakeNextConserves(tail, cap);
            DroppedHead(parts[0], tail, r);
          } else {
            Reheaded(Data([]), tail);
            Reheaded(parts[0], tail);
          }
        case Stream(s) =>
          StreamIsRead(s, tail, cap);
          var outcome := s.Poll(cap).0;
          if outcome.Ready? && outcome.bytes == [] {
            TakeNextConserves(tail, cap);
            DroppedHead(parts[0], tail, r);
          }
      }
      hide Content, Weight, Source.Poll;
    }
  }

  /** Streams that never fail, or never pend, stay so. */
  lemma {:induction false} TakeNextKeepsPromises(parts: seq<Part>, cap: nat)
    ensures var r := TakeNext(parts, cap);
      NeverFails(parts) ==> !r.Failure? && (!r.Exhausted? ==> NeverFails(r.parts))
    ensures var r := TakeNext(parts, cap);
      NeverPends(parts) ==> !r.Blocked? && (r.Piece? ==> NeverPends(r.parts))
  {
    if parts != [] {
      var tail := parts[1..];
      TakeNextKeepsPromises(tail, cap);
      var r := TakeNext(parts, cap);
      if parts[0].Stream? {
        var s := parts[0].source;
        assert s.turns != [] ==> s.turns[0] in s.turns && forall t | t in s.turns[1..] :: t in s.turns;
      }
      if !r.Exhausted? && r.parts != [] && r.parts[1..] == tail {
        assert r.parts[1..] == tail;
      }
    }
  }

  /** A piece longer than the buffer share can only be a whole data part. */
  lemma {:induction false} TakeNextSize(parts: seq<Part>, cap: nat)
    ensures var r := TakeNext(parts, cap);
      r.Piece? ==> r.parts != [] && (|r.bytes| <= cap || (r.parts[0].Data? && Data(r.bytes) in parts))
    ensures var r := TakeNext(parts, cap); r.Piece? && r.parts[0].Stream? ==> |r.bytes| <= cap
  {
    if parts != [] {
      TakeNextSize(parts[1..], cap);
      assert parts[0] in parts;
      assert forall p | p in parts[1..] :: p in parts;
    }
  }

  /** The pieces a writer yields until the list is empty or a stream fails, whatever the polls that pend. */
  function Pieces(parts: seq<Part>, cap: nat): seq<seq<byte>>
    requires cap > 0
    decreases Weight(parts)
  {
    TakeNextConserves(parts, cap);
    match TakeNext(parts, cap)
    case Exhausted => []
    case Blocked(ps) => Pieces(ps, cap)
    case Failure(_) => []
    case Piece(b, ps) => [b] + Pieces(ps, cap)
  }

  /** Whether the list is written to its end. */
  predicate Completes(parts: seq<Part>, cap: nat)
    requires cap > 0
    decreases Weight(parts)
  {
    TakeNextConserves(parts, cap);
    match TakeNext(parts, cap)
    case Exhausted => true
    case Blocked(ps) => Completes(ps, cap)
    case Failure(_) => false
    case Piece(_, ps) => Completes(ps, cap)
  }

  lemma {:induction false} NeverFailsCompletes(parts: seq<Part>, cap: nat)
    requires cap > 0 && NeverFails(parts)
    ensures Completes(parts, cap)
    decreases Weight(parts)
  {
    TakeNextConserves(parts, cap);
    TakeNextKeepsPromises(parts, cap);
    var r := TakeNext(parts, cap);
    if r.Blocked? || r.Piece? {
      NeverFailsCompletes(r.parts, cap);
    }
  }

  /** The pieces are non-empty and join to a prefix of the content, the whole of it when the list completes. */
  lemma {:induction false} PiecesConserve(parts: seq<Part>, cap: nat)
    requires cap > 0
    ensures NoneEmpty(Pieces(parts, cap))
    ensures Concat(Pieces(parts, cap)) <= Content(parts)
    ensures Completes(parts, cap) ==> Concat(Pieces(parts, cap)) == Content(parts)
    decreases Weight(parts)
  {
    TakeNextConserves(parts, cap);
    hide TakeNext;
    var r := TakeNext(parts, cap);
    if r.Blocked? {
      PiecesConserve(r.parts, cap);
    } else if r.Piece? {
      PiecesConserve(r.parts, cap);
      var rest := Pieces(r.parts, cap);
      assert Pieces(parts, cap) == [r.bytes] + rest;
      hide Pieces;
      assert ([r.bytes] + rest)[1..] == rest;
      LongerPrefix(r.bytes, Concat(rest), Content(r.parts));
    }
  }

  lemma LongerPrefix(front: seq<byte>, a: seq<byte>, b: seq<byte>)
    requires a <= b
    ensures front + a <= front + b
  {
  }

  /** Data parts go out whole, one piece each. */
  lemma {:induction false} DataGoesWhole(parts: seq<Part>, data: seq<seq<byte>>, cap: nat)
    requires cap > 0 && |parts| == |data| && NoneEmpty(data)
    requires forall i | 0 <= i < |parts| :: parts[i] == Data(data[i])
    ensures Pieces(parts, cap) == data && Completes(parts, cap)
    decreases |parts|
  {
    TakeNextConserves(parts, cap);
    if parts != [] {
      var rest := [Data([])] + parts[1..];
      assert rest[1..] == parts[1..];
      DataGoesWhole(parts[1..], data[1..], cap);
      assert TakeNext(rest, cap) == TakeNext(parts[1..], cap);
      assert Pieces(rest, cap) == Pieces(parts[1..], cap) && Completes(rest, cap) == Completes(parts[1..], cap);
      assert data == [data[0]] + data[1..];
    }
  }

  lemma FirstOfStream(rest: seq<byte>, cap: nat)
    requires cap > 0 && rest != []
    ensures var k := Min(cap, |rest|);
      TakeNext([Stream(Source(rest, []))], cap) == Piece(rest[..k], [Stream(Source(rest[k..], []))])
  {
    var k := Min(cap, |rest|);
    var s, left := Source(rest, []), Stream(Source(rest[k..], []));
    assert s.Poll(cap) == (Ready(rest[..k]), Source(rest[k..], [])) by {
      assert Min(|rest|, k) == k;
    }
    assert [Stream(s)][1..] == [] && [left] + [] == [left];
  }

  lemma DrainedStream(cap: nat)
    ensures TakeNext([Stream(Source([], []))], cap) == Exhausted
  {
    assert [Stream(Source([], []))][1..] == [];
  }

  /** A stream that fills whatever room it is given is read in pieces of all the room, but for the last. */
  lemma {:induction false} StreamFillsTheRoom(rest: seq<byte>, cap: nat)
    requires cap > 0
    ensures var pieces := Pieces([Stream(Source(rest, []))], cap);
      && (pieces == [] <==> rest == [])
      && (forall i | 0 <= i < |pieces| :: |pieces[i]| <= cap)
      && (forall i | 0 <= i < |pieces| - 1 :: |pieces[i]| == cap)
    decreases |rest|
  {
    hide TakeNext;
    if rest == [] {
      DrainedStream(cap);
    } else {
      var k := Min(cap, |rest|);
      FirstOfStream(rest, cap);
      StreamFillsTheRoom(rest[k..], cap);
      var tail := Pieces([Stream(Source(rest[k..], []))], cap);
      assert Pieces([Stream(Source(rest, []))], cap) == [rest[..k]] + tail;
      hide Pieces;
    }
  }

  datatype Status = Got | Wait | Error

  /** What `poll_take_buffer` gives back; `Panicked` is its failed `expect`. */
  datatype TakeResult = NotYet | Broke | Panicked | Taken(buf: array<byte>, start: nat, end: nat)

  /** `Vec::resize`: the same storage when the length is already right. */
  method Resize(a: array<byte>, n: nat) returns (b: array<byte>)
    ensures b.Length == n && (b == a || fresh(b))
    ensures a.Length == n ==> b == a
    ensures forall i | 0 <= i < n :: b[i] == if i < a.Length then old(a[i]) else 0
  {
    if a.Length == n {
      b := a;
    } else {
      b := new byte[n](i reads a => if 0 <= i < a.Length then a[i] else 0);
    }
  }

  function RotatedRight(s: seq<byte>, k: nat): seq<byte>
    requires k <= |s|
  {
    s[|s| - k..] + s[..|s| - k]
  }

  /** `<[u8]>::rotate_right` on `a[lo..hi]`. */
  method RotateRight(a: array<byte>, lo: nat, hi: nat, k: nat)
    requires lo <= hi <= a.Length && k <= hi - lo
    modifies a
    ensures a[..] == old(a[..])[..lo] + RotatedRight(old(a[..])[lo..hi], k) + old(a[..])[hi..]
  {
    ghost var was := a[..];
    assert a[lo..hi] == was[lo..hi];
    var moved := RotatedRight(a[lo..hi], k);
    forall i | lo <= i < hi {
      a[i] := moved[i - lo];
    }
    assert a[..] == was[..lo] + moved + was[hi..];
  }

  /** Rotating the size text in front of the data it stands behind gives one chunk. */
  lemma RotationFrames(before: seq<byte>, data: seq<byte>, after: seq<byte>, s: seq<byte>, hi: nat)
    requires s == before + data + (HexSize(|data|) + CRLF + CRLF) + after
    requires hi == |before| + |data| + |HexSize(|data|)| + 2
    ensures s[..|before|] + RotatedRight(s[|before|..hi], |HexSize(|data|)| + 2) + s[hi..] ==
            before + Chunk(data) + after
  {
    hide HexSize;
    var head := HexSize(|data|) + CRLF;
    RegroupPieces(before, data, head, CRLF, after);
    Window(before, data + head, CRLF + after);
    RotatesToFront(data, head);
    RegroupPieces(before, head, data, CRLF, after);
  }

  lemma RotatesToFront(data: seq<byte>, head: seq<byte>)
    ensures RotatedRight(data + head, |head|) == head + data
  {
    Window([], data, head);
    assert [] + data + head == data + head;
  }

  lemma RegroupPieces(a: seq<byte>, b: seq<byte>, c: seq<byte>, d: seq<byte>, e: seq<byte>)
    ensures a + b + (c + d) + e == a + (b + c) + (d + e) == a + (b + c + d) + e
  {
    Assoc(a, b, c + d);
    Assoc(b, c, d);
    Assoc(a, b + c, d);
    Assoc(a + (b + c), d, e);
  }

  function Tail(s: seq<byte>, from: nat): seq<byte> {
    if from <= |s| then s[from..] else []
  }

  /** Writes `text` at `end`: over the bytes that stand there when they suffice, else in longer storage. */
  method OverwriteOrExtend(buffer: array<byte>, end: nat, text: seq<byte>) returns (out: array<byte>)
    requires end <= buffer.Length
    modifies buffer
    ensures end + |text| <= buffer.Length ==> out == buffer
    ensures end + |text| > buffer.Length ==> fresh(out)
    ensures out[..] == old(buffer[..end]) + text + Tail(old(buffer[..]), end + |text|)
  {
    ghost var was := buffer[..];
    if buffer.Length < end + |text| {
      var data := buffer[..end] + text;
      out := new byte[|data|](i requires 0 <= i < |data| => data[i]);
      assert out[..] == data;
    } else {
      out := buffer;
      forall i | 0 <= i < |text| {
        out[end + i] := text[i];
      }
      assert out[..] == was[..end] + text + was[end + |text|..];
    }
  }

  /** Brings the size text that stands behind `data` to its front. */
  method RotateFrame(buffer: array<byte>, start: nat, end: nat,
                     ghost before: seq<byte>, ghost data: seq<byte>, ghost after: seq<byte>)
    requires buffer[..] == before + data + (HexSize(|data|) + CRLF + CRLF) + after
    requires start == |before| && end == start + |data|
    modifies buffer
    ensures buffer[..] == before + Chunk(data) + after
  {
    var front := |HexSize(end - start)| + 2;
    RotationFrames(before, data, after, buffer[..], end + front);
    RotateRight(buffer, start, end + front, front);
  }

  /** Frames `buffer[start..end]` in place: the size text is written behind the data and rotated to its front.
      The storage is replaced only when the text does not fit behind the data. */
  method DecorateForChunkedEncoding(buffer: array<byte>, start: nat, end: nat)
    returns (ok: bool, out: array<byte>, newEnd: nat)
    requires start <= end <= buffer.Length
    modifies buffer
    ensures ok <==> end - start <= MAX_FRAMED
    ensures out == buffer || fresh(out)
    ensures ok ==> newEnd == end + |HexSize(end - start)| + 4
    ensures ok && newEnd <= buffer.Length ==> out == buffer
    ensures ok ==> out[..] == old(buffer[..start]) + Chunk(old(buffer[start..end])) + Tail(old(buffer[..]), newEnd)
  {
    var text := HexSize(end - start) + CRLF + CRLF;
    FrameTextFits(end - start);
    out, newEnd := buffer, end;
    ok := |text| <= 12;
    if ok {
      newEnd := end + |text|;
      ghost var before, data, after := buffer[..start], buffer[start..end], Tail(buffer[..], newEnd);
      assert buffer[..end] == before + data;
      out := OverwriteOrExtend(buffer, end, text);
      RotateFrame(out, start, end, before, data, after);
    }
  }

  /** A range taken from the writer carries one framed or plain piece. */
  function Framed(piece: seq<byte>, chunked: bool): seq<byte> {
    if chunked then Chunk(piece) else piece
  }

  function MaxChunkSize(chunked: bool): (n: nat)
    ensures n > 0
  {
    if chunked then CHUNK_BUFFER_SIZE - 12 else CHUNK_BUFFER_SIZE
  }

  /** The piece in `buf[..len]` as one chunk. */
  method FramePiece(buf: array<byte>, len: nat) returns (r: TakeResult)
    requires len <= buf.Length
    modifies buf
    ensures r == Panicked <==> len > MAX_FRAMED
    ensures r != Panicked ==> r.Taken? && r.start <= r.end <= r.buf.Length && (r.buf == buf || fresh(r.buf))
    ensures r != Panicked ==> r.buf[r.start..r.end] == Chunk(old(buf[..len]))
    ensures r != Panicked && len + |HexSize(len)| + 4 <= buf.Length ==> r.buf == buf
  {
    ghost var piece, was := buf[..len], buf[..];
    assert buf[0..len] == piece;
    var ok, out, end := DecorateForChunkedEncoding(buf, 0, len);
    if !ok {
      return Panicked;
    }
    assert out[..] == Chunk(piece) + Tail(was, end);
    assert out[0..end] == Chunk(piece);
    r := Taken(out, 0, end);
  }

  class StreamWriter {
    var parts: seq<Part>
    var buffer: array<byte>
    const chunked: bool
    var finished: bool

    constructor (dataParts: seq<Part>, isChunked: bool)
      ensures parts == dataParts && chunked == isChunked && !finished
      ensures fresh(buffer) && buffer.Length == CHUNK_BUFFER_SIZE
    {
      parts, chunked, finished := dataParts, isChunked, false;
      buffer := new byte[CHUNK_BUFFER_SIZE];
    }

    /** The loop over the part list: one unframed piece in `buf[..len]`, or nothing once the list is empty. */
    method TakePiece(max: nat) returns (ready: Status, buf: array<byte>, len: nat)
      requires 0 < max <= CHUNK_BUFFER_SIZE && !finished
      modifies this, buffer
      ensures buffer == old(buffer) || fresh(buffer)
      ensures buf == old(buffer) || fresh(buf)
      ensures len <= buf.Length
      ensures match TakeNext(old(parts), max)
        case Exhausted => ready == Got && parts == [] && finished && len == 0
        case Blocked(ps) => ready == Wait && parts == ps && !finished && buffer.Length == CHUNK_BUFFER_SIZE
        case Failure(ps) => ready == Error && parts == ps && !finished
        case Piece(b, ps) =>
          && ready == Got && parts == ps && !finished && buf[..len] == b && buf != buffer
          && (ps != [] && ps[0].Stream? ==> buf.Length == CHUNK_BUFFER_SIZE)
    {
      ghost var was := parts;
      buf, len := buffer, 0;
      while true
        invariant TakeNext(parts, max) == TakeNext(was, max)
        invariant !finished && len == 0 && buf == old(buffer) && (buffer == old(buffer) || fresh(buffer))
        decreases |parts|
      {
        if parts == [] {
          finished := true;
          return Got, buf, 0;
        }
        match parts[0] {
          case Data(d) =>
            if d == [] {
              parts := parts[1..];
              continue;
            }
            buf := new byte[|d|](i requires 0 <= i < |d| => d[i]);
            assert buf[..] == d;
            parts := [Data([])] + parts[1..];
            return Got, buf, |d|;
          case Stream(s) =>
            buffer := Resize(buffer, CHUNK_BUFFER_SIZE);
            var (outcome, s') := s.Poll(max);
            if !outcome.Ready? {
              parts := [Stream(s')] + parts[1..];
              return if outcome.Pending? then Wait else Error, buf, 0;
            }
            var b := outcome.bytes;
            if b == [] {
              parts := parts[1..];
              continue;
            }
            forall i | 0 <= i < |b| {
              buffer[i] := b[i];
            }
            assert buffer[..|b|] == b;
            buf := buffer;
            buffer := new byte[0];
            parts := [Stream(s')] + parts[1..];
            return Got, buf, |b|;
        }
      }
    }

    /** One poll. It takes exactly the piece that `TakeNext` names, framed when the coding is chunked;
        a stream piece is always framed inside the reusable buffer. */
    method PollTakeBuffer() returns (r: TakeResult)
      modifies this, buffer
      ensures buffer == old(buffer) || fresh(buffer)
      ensures r.Taken? ==> (r.buf == old(buffer) || fresh(r.buf)) && r.start <= r.end <= r.buf.Length
      ensures old(finished) ==> r.Taken? && r.start == r.end && finished && parts == old(parts)
      ensures !old(finished) ==>
        match TakeNext(old(parts), MaxChunkSize(chunked)) {
          case Exhausted =>
            && parts == [] && finished
            && r.Taken? && r.buf[r.start..r.end] == if chunked then LAST_CHUNK else []
          case Blocked(ps) => r == NotYet && parts == ps && !finished && buffer.Length == CHUNK_BUFFER_SIZE
          case Failure(ps) => r == Broke && parts == ps && !finished
          case Piece(b, ps) =>
            && parts == ps && !finished
            && (r == Panicked <==> chunked && |b| > MAX_FRAMED)
            && (r != Panicked ==>
                  && r.Taken? && r.buf[r.start..r.end] == Framed(b, chunked)
                  && (ps != [] && ps[0].Stream? ==> r.buf.Length == CHUNK_BUFFER_SIZE))
        }
    {
      if finished {
        var none := new byte[0];
        return Taken(none, 0, 0);
      }
      var max := MaxChunkSize(chunked);
      ghost var next := TakeNext(parts, max);
      TakeNextConserves(parts, max);
      TakeNextSize(parts, max);
      var ready, buf, len := TakePiece(max);
      if ready == Wait {
        return NotYet;
      } else if ready == Error {
        return Broke;
      }
      if !chunked {
        assert buf[0..len] == buf[..len];
        return Taken(buf, 0, len);
      }
      if len == 0 {
        r := LastChunk();
      } else {
        SmallSizes(len);
        r := FramePiece(buf, len);
      }
    }

    method LastChunk() returns (r: TakeResult)
      modifies this`buffer, buffer
      ensures fresh(buffer)
      ensures r.Taken? && r.start <= r.end <= r.buf.Length && (r.buf == old(buffer) || fresh(r.buf))
      ensures r.buf[r.start..r.end] == LAST_CHUNK
    {
      var buf := Resize(buffer, |LAST_CHUNK|);
      forall i | 0 <= i < |LAST_CHUNK| {
        buf[i] := LAST_CHUNK[i];
      }
      buffer := new byte[0];
      r := Taken(buf, 0, |LAST_CHUNK|);
      assert buf[0..|LAST_CHUNK|] == LAST_CHUNK;
    }

    /** Takes a sent buffer back for the next read, or drops it. */
    method Advance(bufferToReturn: array<byte>)
      modifies this`buffer
      ensures buffer == old(buffer) || buffer == bufferToReturn || fresh(buffer)
      ensures parts != [] && parts[0].Stream? ==> buffer.Length == CHUNK_BUFFER_SIZE
      ensures parts == [] || parts[0].Data? ==> buffer == old(buffer)
      ensures parts != [] && parts[0].Stream? && bufferToReturn.Length == CHUNK_BUFFER_SIZE ==> buffer == bufferToReturn
    {
      if parts != [] && parts[0].Stream? {
        buffer := Resize(bufferToReturn, CHUNK_BUFFER_SIZE);
      }
    }
  }

  /** A read asks for all of a buffer of 16 KiB, or for what leaves 12 bytes of it to the frame. */
  lemma ReadSizes()
    ensures MaxChunkSize(false) == CHUNK_BUFFER_SIZE == 16384 && MaxChunkSize(true) == 16372
  {
  }

  /** A read of at most `CHUNK_BUFFER_SIZE - 12` bytes leaves room for its whole frame. */
  lemma SmallSizes(n: nat)
    ensures n <= CHUNK_BUFFER_SIZE - 12 ==> n + |HexSize(n)| + 4 <= CHUNK_BUFFER_SIZE
  {
    if n <= MAX_FRAMED {
      FrameTextFits(n);
    }
  }
}
