/** NSURLSession uploads: the writer that stages the parts, and the whole upload over any interleaving. */
module QueueWriter {
  import opened Bytes
  import opened Streams
  import opened InputQueue

  /** What is staged when a part comes to the front: all of a data part, nothing of a stream. */
  function FirstStaged(parts: seq<Part>): seq<byte> {
    if parts != [] && parts[0].Data? then parts[0].bytes else []
  }

  /** The bytes that have not been written: the staged ones and everything behind them. */
  function Remaining(parts: seq<Part>, staged: seq<byte>): seq<byte> {
    if parts == [] then []
    else staged + ((if parts[0].Stream? then parts[0].source.rest else []) + Content(parts[1..]))
  }

  /** What one turn of the writer has to write. */
  datatype Staging =
    | Blocked(parts: seq<Part>)
    | Failure(parts: seq<Part>)
    | ToWrite(parts: seq<Part>, staged: seq<byte>)

  function Stage(parts: seq<Part>, staged: seq<byte>, size: nat): Staging
    decreases |parts|
  {
    if parts == [] then ToWrite([], [])
    else if staged != [] then ToWrite(parts, staged)
    else match parts[0] {
      case Data(_) => Stage(parts[1..], FirstStaged(parts[1..]), size)
      case Stream(s) =>
        var (outcome, s') := s.Poll(size);
        match outcome {
          case Pending => Blocked([Stream(s')] + parts[1..])
          case Failed => Failure([Stream(s')] + parts[1..])
          case Ready(b) =>
            if b == [] then Stage(parts[1..], FirstStaged(parts[1..]), size)
            else ToWrite([Stream(s')] + parts[1..], b)
        }
    }
  }

  /** A fresh part list holds its whole content. */
  lemma FreshRemaining(parts: seq<Part>)
    ensures Remaining(parts, FirstStaged(parts)) == Content(parts)
  {
    if parts != [] {
      assert [] + (parts[0].Content() + Content(parts[1..])) == Content(parts);
      assert [] + Content(parts[1..]) == Content(parts[1..]);
    }
  }

  /** Staging keeps what remains, and stages nothing only when nothing remains. */
  lemma {:induction false} StageConserves(parts: seq<Part>, staged: seq<byte>, size: nat)
    requires size > 0
    ensures match Stage(parts, staged, size)
      case Blocked(ps) => staged == [] && Remaining(ps, []) == Remaining(parts, staged)
      case Failure(ps) => staged == [] && Remaining(ps, []) == Remaining(parts, staged)
      case ToWrite(ps, b) => Remaining(ps, b) == Remaining(parts, staged) && (b == [] <==> ps == [])
    decreases |parts|
  {
    if parts != [] && staged == [] {
      var rest := parts[1..];
      FreshRemaining(rest);
      StageConserves(rest, FirstStaged(rest), size);
      assert [] + ([] + Content(rest)) == Content(rest);
      if parts[0].Stream? {
        var (outcome, s') := parts[0].source.Poll(size);
        var ps := [Stream(s')] + rest;
        assert ps[1..] == rest;
        if outcome.Ready? {
          Assoc(outcome.bytes, s'.rest, Content(rest));
          assert [] + (parts[0].source.rest + Content(rest)) == outcome.bytes + (s'.rest + Content(rest));
        }
      }
    }
  }

  /** The turns that the streams of the list have still to take. */
  function Turns(parts: seq<Part>): nat {
    if parts == [] then 0 else (if parts[0].Stream? then |parts[0].source.turns| else 0) + Turns(parts[1..])
  }

  /** Staging is held up only by a stream that is not ready, and fails only with a stream that does. */
  lemma {:induction false} StageKeepsPromises(parts: seq<Part>, staged: seq<byte>, size: nat)
    ensures var next := Stage(parts, staged, size);
      && (NeverPends(parts) ==> !next.Blocked? && (next.ToWrite? ==> NeverPends(next.parts)))
      && (NeverFails(parts) ==> !next.Failure? && NeverFails(next.parts))
      && (if next.Blocked? then Turns(next.parts) < Turns(parts) else Turns(next.parts) <= Turns(parts))
    decreases |parts|
  {
    if parts != [] && staged == [] {
      var rest := parts[1..];
      StageKeepsPromises(rest, FirstStaged(rest), size);
      if parts[0].Stream? {
        var s := parts[0].source;
        var (outcome, s') := s.Poll(size);
        var ps := [Stream(s')] + rest;
        assert ps[1..] == rest;
        assert s.turns != [] ==> s.turns[0] in s.turns && forall t | t in s.turns[1..] :: t in s.turns;
      }
    }
  }

  datatype Turned = Waiting | ReadFailed | Wrote(n: nat)

  class StreamWriter {
    const stream: InputStream
    const size: nat
    var dataParts: seq<Part>
    var buffer: array<byte>
    var start: nat
    var end: nat

    ghost predicate Valid()
      reads this, buffer, stream, stream.ring
    {
      && stream.Valid() && size > 0
      && buffer != stream.ring.storage
      && start <= end
      && (dataParts == [] ==> start == end)
      && (dataParts != [] && dataParts[0].Data? ==> end == |dataParts[0].bytes|)
      && (dataParts != [] && dataParts[0].Stream? ==> end <= buffer.Length)
      && (forall p | p in dataParts :: p.Stream? ==> buffer.Length == size)
    }

    ghost function Staged(): seq<byte>
      reads this, buffer, stream, stream.ring
      requires Valid()
    {
      if dataParts == [] then []
      else if dataParts[0].Data? then dataParts[0].bytes[start..end]
      else buffer[start..end]
    }

    constructor (target: InputStream, parts: seq<Part>, macos: bool)
      requires target.Valid()
      ensures Valid() && stream == target && size == StreamBufferSize(macos) && dataParts == parts
      ensures Staged() == FirstStaged(parts) && fresh(buffer)
    {
      stream, size, dataParts := target, StreamBufferSize(macos), parts;
      var streams := false;
      for i := 0 to |parts|
        invariant streams <==> exists j | 0 <= j < i :: parts[j].Stream?
      {
        streams := streams || parts[i].Stream?;
      }
      buffer := new byte[if streams then StreamBufferSize(macos) else 0];
      start := 0;
      end := if parts != [] && parts[0].Data? then |parts[0].bytes| else 0;
    }

    method ShiftPart()
      requires Valid() && dataParts != []
      modifies this`dataParts, this`start, this`end
      ensures Valid() && dataParts == old(dataParts)[1..] && Staged() == FirstStaged(dataParts)
    {
      dataParts := dataParts[1..];
      start, end := 0, if dataParts != [] && dataParts[0].Data? then |dataParts[0].bytes| else 0;
      assert forall p | p in dataParts :: p in old(dataParts);
    }

    /** One read of the stream at the front, into the buffer. */
    method ReadFront() returns (r: Turned, n: nat)
      requires Valid() && dataParts != [] && dataParts[0].Stream? && start == end
      modifies this`dataParts, this`start, this`end, buffer
      ensures Valid() && n == end - start
      ensures var (outcome, s') := old(dataParts)[0].source.Poll(size);
        && dataParts == [Stream(s')] + old(dataParts)[1..]
        && (match outcome
            case Pending => r == Waiting && Staged() == []
            case Failed => r == ReadFailed && Staged() == []
            case Ready(b) => r == Wrote(0) && Staged() == b)
    {
      ghost var was := dataParts;
      assert dataParts[0] in was;
      var (outcome, s') := dataParts[0].source.Poll(size);
      dataParts := [Stream(s')] + dataParts[1..];
      assert forall p | p in dataParts :: p in was || p == Stream(s');
      match outcome {
        case Pending => return Waiting, 0;
        case Failed => return ReadFailed, 0;
        case Ready(b) =>
          forall i | 0 <= i < |b| {
            buffer[i] := b[i];
          }
          start, end := 0, |b|;
          assert buffer[0..|b|] == b;
          return Wrote(0), |b|;
      }
    }

    /** The loop over the parts: stages what the next write will take. */
    method StageNext() returns (r: Turned, data: seq<byte>)
      requires Valid()
      modifies this`dataParts, this`start, this`end, buffer
      ensures Valid()
      ensures match Stage(old(dataParts), old(Staged()), size)
        case Blocked(ps) => r == Waiting && dataParts == ps && Staged() == []
        case Failure(ps) => r == ReadFailed && dataParts == ps && Staged() == []
        case ToWrite(ps, b) => r == Wrote(0) && dataParts == ps && Staged() == b == data
    {
      ghost var next := Stage(dataParts, Staged(), size);
      while true
        invariant Valid() && Stage(dataParts, Staged(), size) == next
        decreases |dataParts|
      {
        if dataParts == [] {
          return Wrote(0), [];
        }
        if start == end && dataParts[0].Data? {
          ShiftPart();
          continue;
        }
        if start < end {
          return Wrote(0), if dataParts[0].Data? then dataParts[0].bytes[start..end] else buffer[start..end];
        }
        ghost var rest := dataParts[1..];
        var read, n := ReadFront();
        assert dataParts[1..] == rest;
        if read != Wrote(0) {
          return read, [];
        }
        if n > 0 {
          return Wrote(0), buffer[start..end];
        }
        ShiftPart();
      }
    }

    /** Writes the front of what is staged. */
    method WriteStaged(data: seq<byte>) returns (n: nat)
      requires Valid() && data == Staged()
      modifies this`start, stream`eof, stream.ring, stream.ring.storage
      ensures Valid() && stream.ring == old(stream.ring) && stream.ring.storage == old(stream.ring.storage)
      ensures (stream.View(), n) == WriteEffect(old(stream.View()), data)
      ensures n <= |data| && Staged() == data[n..]
    {
      hide Slices;
      assert |data| == end - start;
      n := stream.Write(data);
      start := start + n;
      if dataParts != [] && dataParts[0].Stream? {
        assert buffer[start..end] == old(buffer[start..end])[n..];
      }
    }

    /** `poll_progress_once`: one piece is staged and as much of it written as the queue takes. */
    method PollProgressOnce() returns (r: Turned)
      requires Valid()
      modifies this`dataParts, this`start, this`end, buffer, stream`eof, stream`broken, stream.ring, stream.ring.storage
      ensures Valid() && stream.ring == old(stream.ring) && stream.ring.storage == old(stream.ring.storage)
      ensures match Stage(old(dataParts), old(Staged()), size)
        case Blocked(ps) => r == Waiting && dataParts == ps && Staged() == [] && stream.View() == old(stream.View())
        case Failure(ps) =>
          r == ReadFailed && dataParts == ps && Staged() == [] && stream.View() == old(stream.View()).(inner := None)
        case ToWrite(ps, b) =>
          var (q, n) := WriteEffect(old(stream.View()), b);
          r == Wrote(n) && dataParts == ps && Staged() == b[n..] && stream.View() == q
    {
      hide Stage, Slices;
      ghost var view := stream.View();
      var turned, data := StageNext();
      if turned == Waiting {
        return Waiting;
      }
      if turned == ReadFailed {
        stream.WriteError();
        return ReadFailed;
      }
      assert stream.View() == view;
      var n := WriteStaged(data);
      return Wrote(n);
    }

    /** What one turn keeps: the queue and what remains, joined, unless the read fails. */
    method Turn() returns (r: Turned)
      requires Valid()
      modifies this`dataParts, this`start, this`end, buffer, stream`eof, stream`broken, stream.ring, stream.ring.storage
      ensures Valid() && stream.ring == old(stream.ring) && stream.ring.storage == old(stream.ring.storage)
      ensures stream.isOpen == old(stream.isOpen) && (stream.broken <==> old(stream.broken) || r == ReadFailed)
      ensures r == Waiting ==> Staged() == []
      ensures !stream.broken ==>
        Total(stream.View(), dataParts, Staged()) == old(Total(stream.View(), dataParts, Staged()))
      ensures r.Wrote? ==> |Remaining(dataParts, Staged())| == |old(Remaining(dataParts, Staged()))| - r.n
      ensures r == Wrote(0) ==> stream.broken || Idle(stream.View(), dataParts)
      ensures old(NeverPends(dataParts)) ==> r != Waiting && (r.Wrote? ==> NeverPends(dataParts))
      ensures old(NeverFails(dataParts)) ==> r != ReadFailed && NeverFails(dataParts)
    {
      hide Stage, WriteEffect, Remaining, Slices, Idle, NeverPends, NeverFails;
      StageConserves(dataParts, Staged(), size);
      StageKeepsPromises(dataParts, Staged(), size);
      ghost var view, next := stream.View(), Stage(dataParts, Staged(), size);
      r := PollProgressOnce();
      if next.ToWrite? {
        WriteConserves(view, next.parts, next.staged);
      }
    }

    /** `poll_progress` on a live stream: turns until one writes nothing, cannot read yet or fails. `None` is an error;
        `Some(more)` says whether parts are left. */
    method PollProgress() returns (r: Option<bool>)
      requires Valid()
      modifies this`dataParts, this`start, this`end, buffer, stream`eof, stream`broken, stream.ring, stream.ring.storage
      ensures Valid() && stream.ring == old(stream.ring) && stream.ring.storage == old(stream.ring.storage)
      ensures !old(stream.isOpen) ==>
          r == Some(true) && dataParts == old(dataParts) && stream.View() == old(stream.View())
      ensures stream.broken <==> old(stream.broken) || r == None
      ensures !stream.broken ==>
        Total(stream.View(), dataParts, Staged()) == old(Total(stream.View(), dataParts, Staged()))
      ensures old(stream.isOpen) && !stream.broken ==>
        (r == Some(true) ==> Staged() == [] || Idle(stream.View(), dataParts)) &&
        (r == Some(false) ==> dataParts == [] && stream.eof)
      ensures old(stream.isOpen) && !stream.broken && old(NeverPends(dataParts)) && r == Some(true) ==>
        dataParts != [] && Idle(stream.View(), dataParts)
      ensures old(NeverFails(dataParts)) ==> r != None
    {
      if !stream.isOpen {
        return Some(true);
      }
      ghost var total := Total(stream.View(), dataParts, Staged());
      while true
        invariant Valid() && stream.ring == old(stream.ring) && stream.ring.storage == old(stream.ring.storage)
        invariant stream.isOpen && stream.broken == old(stream.broken)
        invariant !stream.broken ==> Total(stream.View(), dataParts, Staged()) == total
        invariant old(NeverPends(dataParts)) ==> NeverPends(dataParts)
        invariant old(NeverFails(dataParts)) ==> NeverFails(dataParts)
        decreases |Remaining(dataParts, Staged())|
      {
        var turned := Turn();
        match turned {
          case Waiting => return Some(true);
          case ReadFailed => return None;
          case Wrote(n) =>
            if n == 0 {
              return Some(dataParts != []);
            }
        }
      }
    }
  }

  /** What has reached the queue and has not been read, and what has yet to reach it. */
  function Total(q: Queue, parts: seq<Part>, staged: seq<byte>): seq<byte> {
    (if q.inner.Some? then q.inner.value else []) + Remaining(parts, staged)
  }

  /** Nothing can be written now: the queue is full, or the parts are all written and the end is marked. */
  predicate Idle(q: Queue, parts: seq<Part>) {
    if parts == [] then q.eof else q.inner.Some? && |q.inner.value| >= q.capacity
  }

  lemma WriteConserves(q: Queue, parts: seq<Part>, b: seq<byte>)
    requires b == [] <==> parts == []
    ensures var (q', n) := WriteEffect(q, b);
      && n <= |b| && q'.inner.Some? == q.inner.Some?
      && |Remaining(parts, b[n..])| == |Remaining(parts, b)| - n
      && (q.inner.Some? ==> Total(q', parts, b[n..]) == Total(q, parts, b))
      && (q.inner.Some? && n == 0 ==> Idle(q', parts))
      && (q.inner.None? ==> q' == q && n == 0)
  {
    var (q', n) := WriteEffect(q, b);
    assert b[..n] + b[n..] == b;
    if parts != [] {
      var rest := (if parts[0].Stream? then parts[0].source.rest else []) + Content(parts[1..]);
      Assoc(b[..n], b[n..], rest);
      if q.inner.Some? {
        Assoc(q.inner.value, b[..n], b[n..] + rest);
        assert n == 0 ==> q.inner.value + b[..n] == q.inner.value;
      }
    }
  }

  /** The upload: the writer, the queue, and what the system has read from it. */
  datatype Upload = Upload(
    parts: seq<Part>,
    staged: seq<byte>,
    size: nat,
    queue: Queue,
    taken: seq<byte>,  // what the system has read
    lost: seq<byte>    // what was queued when the stream was closed
  )

  /** A turn of the writer, or one call of the system; `locked` is a read that finds the queue locked. */
  datatype Event = Progress | ReadSome(len: nat, locked: bool) | OpenStream | CloseStream

  function Progressed(u: Upload): Upload {
    match Stage(u.parts, u.staged, u.size)
    case Blocked(ps) => u.(parts := ps, staged := [])
    case Failure(ps) => u.(parts := ps, staged := [], queue := u.queue.(inner := None))
    case ToWrite(ps, b) =>
      var (q, n) := WriteEffect(u.queue, b);
      u.(parts := ps, staged := b[n..], queue := q)
  }

  function Apply(u: Upload, e: Event): Upload {
    match e
    case Progress => if u.queue.open then Progressed(u) else u
    case ReadSome(len, locked) =>
      var (q, answer) := ReadEffect(u.queue, len, locked);
      u.(queue := q, taken := if answer.Got? then u.taken + answer.bytes else u.taken)
    case OpenStream => u.(queue := u.queue.(open := true))
    case CloseStream =>
      u.(queue := CloseEffect(u.queue), lost := if u.queue.inner.Some? then u.lost + u.queue.inner.value else u.lost)
  }

  function Run(u: Upload, events: seq<Event>): Upload
    decreases |events|
  {
    if events == [] then u else Run(Apply(u, events[0]), events[1..])
  }

  function Start(parts: seq<Part>, macos: bool): Upload {
    Upload(parts, FirstStaged(parts), StreamBufferSize(macos),
           Queue(Some([]), StreamBufferSize(macos), false, false), [], [])
  }

  /** Until a read fails, what was read, what was lost to a close, the queue and what remains are the content. */
  predicate Conserved(u: Upload, content: seq<byte>) {
    && u.size > 0
    && u.taken <= content
    && (u.queue.inner.Some? ==>
          && u.taken + (u.lost + Total(u.queue, u.parts, u.staged)) == content
          && |u.queue.inner.value| <= u.queue.capacity
          && (u.lost != [] ==> u.queue.capacity == 0)
          && (u.queue.eof ==> u.parts == []))
  }

  lemma ProgressConserves(u: Upload, content: seq<byte>)
    requires Conserved(u, content)
    ensures Conserved(Progressed(u), content)
  {
    StageConserves(u.parts, u.staged, u.size);
    var next := Stage(u.parts, u.staged, u.size);
    if next.ToWrite? {
      WriteConserves(u.queue, next.parts, next.staged);
    }
  }

  lemma ReadConserves(u: Upload, content: seq<byte>, len: nat, locked: bool)
    requires Conserved(u, content)
    ensures Conserved(Apply(u, ReadSome(len, locked)), content)
  {
    hide Remaining;
    if !locked && u.queue.inner.Some? {
      var bytes := u.queue.inner.value;
      TakeFront(u.taken, u.lost, bytes, Min(len, |bytes|), Remaining(u.parts, u.staged));
    }
  }

  /** Reading the front of the queue moves it behind what was read before; what was lost stands in between only when
      the queue is empty. */
  lemma TakeFront(taken: seq<byte>, lost: seq<byte>, bytes: seq<byte>, n: nat, rest: seq<byte>)
    requires n <= |bytes| && (lost == [] || bytes == [])
    ensures taken + bytes[..n] + (lost + (bytes[n..] + rest)) == taken + (lost + (bytes + rest))
    ensures taken + bytes[..n] <= taken + (lost + (bytes + rest))
  {
    if bytes == [] {
      assert taken + bytes[..n] == taken && bytes[n..] == bytes;
    } else {
      assert bytes == bytes[..n] + bytes[n..];
      Assoc(bytes[..n], bytes[n..], rest);
      assert lost + (bytes + rest) == bytes + rest && lost + (bytes[n..] + rest) == bytes[n..] + rest;
      Assoc(taken, bytes[..n], bytes[n..] + rest);
    }
  }

  lemma CloseConserves(u: Upload, content: seq<byte>)
    requires Conserved(u, content)
    ensures Conserved(Apply(u, CloseStream), content)
  {
    if u.queue.inner.Some? {
      Assoc(u.lost, u.queue.inner.value, Remaining(u.parts, u.staged));
      assert [] + Remaining(u.parts, u.staged) == Remaining(u.parts, u.staged);
    }
  }

  lemma {:induction false} RunConserves(u: Upload, events: seq<Event>, content: seq<byte>)
    requires Conserved(u, content)
    ensures Conserved(Run(u, events), content)
    decreases |events|
  {
    if events != [] {
      match events[0] {
        case Progress => ProgressConserves(u, content);
        case ReadSome(len, locked) => ReadConserves(u, content, len, locked);
        case CloseStream => CloseConserves(u, content);
        case OpenStream =>
      }
      RunConserves(Apply(u, events[0]), events[1..], content);
    }
  }

  /** In every interleaving of turns and calls: the system reads a prefix of the content, the queue keeps within its
      capacity, and while no read has failed what was read, what was lost to a close, the queue and what remains are
      the content; `AtEnd` means that everything was read exactly when no close discarded queued bytes. */
  lemma SystemReadsTheContent(parts: seq<Part>, macos: bool, events: seq<Event>)
    ensures var u := Run(Start(parts, macos), events);
      && u.taken <= Content(parts)
      && (u.queue.inner.Some? ==>
            u.taken + (u.lost + (u.queue.inner.value + Remaining(u.parts, u.staged))) == Content(parts) &&
            |u.queue.inner.value| <= u.queue.capacity)
      && (StatusOf(u.queue) == AtEnd ==> (u.taken == Content(parts) <==> u.lost == []))
  {
    FreshRemaining(parts);
    assert [] + ([] + ([] + Content(parts))) == Content(parts);
    RunConserves(Start(parts, macos), events, Content(parts));
    var u := Run(Start(parts, macos), events);
    if StatusOf(u.queue) == AtEnd {
      assert u.taken + (u.lost + ([] + [])) == Content(parts);
      assert |u.taken| + |u.lost| == |Content(parts)|;
    }
  }

  /** What a read into room that answers 0 means. In every interleaving, everything has been read exactly when nothing
      is queued, nothing remains to be written and no close discarded bytes; an unlocked read of an undiscarded stream
      whose end is marked is enough for that. */
  lemma ZeroIsTheEndIff(parts: seq<Part>, macos: bool, events: seq<Event>, len: nat, locked: bool)
    requires var q := Run(Start(parts, macos), events).queue;
      len > 0 && q.inner.Some? && ReadEffect(q, len, locked).1 == Got([])
    ensures var u := Run(Start(parts, macos), events);
      && (u.taken == Content(parts) <==>
          u.queue.inner.value == [] && Remaining(u.parts, u.staged) == [] && u.lost == [])
      && (!locked && u.queue.eof ==> (u.taken == Content(parts) <==> u.lost == []))
  {
    SystemReadsTheContent(parts, macos, events);
    FreshRemaining(parts);
    assert [] + ([] + ([] + Content(parts))) == Content(parts);
    RunConserves(Start(parts, macos), events, Content(parts));
    var u := Run(Start(parts, macos), events);
    var rest := u.lost + (u.queue.inner.value + Remaining(u.parts, u.staged));
    assert |u.taken + rest| == |u.taken| + |rest|;
    assert |rest| == |u.lost| + |u.queue.inner.value| + |Remaining(u.parts, u.staged)|;
    assert u.taken == Content(parts) <==> |rest| == 0;
    if !locked {
      assert u.queue.inner.value == u.queue.inner.value[..0];
    }
  }

  /** A system that reads only what is announced, bytes or the end, and never finds the queue locked, gets 0 only for
      the end of what was not discarded. */
  lemma AnnouncedZeroIsTheEnd(parts: seq<Part>, macos: bool, events: seq<Event>, len: nat)
    requires var q := Run(Start(parts, macos), events).queue;
      len > 0 && q.inner.Some? && (q.inner.value != [] || StatusOf(q) == AtEnd)
    ensures var u := Run(Start(parts, macos), events);
      ReadEffect(u.queue, len, false).1 == Got([]) ==> (u.taken == Content(parts) <==> u.lost == [])
  {
    var u := Run(Start(parts, macos), events);
    if ReadEffect(u.queue, len, false).1 == Got([]) {
      assert |u.queue.inner.value[..Min(len, |u.queue.inner.value|)]| == 0;
      ZeroIsTheEndIff(parts, macos, events, len, false);
    }
  }

  /** Other reads get 0 too soon: one before the writer's first turn, and one that finds a filled queue locked. */
  lemma ZeroTooSoon(bytes: seq<byte>, macos: bool, len: nat)
    requires bytes != []
    ensures var parts := [Part.Data(bytes)];
      var u0, u1 := Run(Start(parts, macos), []), Run(Start(parts, macos), [OpenStream, Progress]);
      && ReadEffect(u0.queue, len, false).1 == Got([]) && u0.taken != Content(parts)
      && u1.queue.inner.Some? && u1.queue.inner.value != []
      && ReadEffect(u1.queue, len, true).1 == Got([]) && u1.taken != Content(parts)
  {
    var parts := [Part.Data(bytes)];
    assert Content(parts) == bytes + Content(parts[1..]);
    var s := Start(parts, macos);
    assert [OpenStream, Progress][1..] == [Progress] && [Progress][1..] == [];
    var begun := Apply(s, OpenStream);
    assert Run(s, [OpenStream, Progress]) == Run(begun, [Progress]) == Run(Progressed(begun), []);
    assert Stage(parts, bytes, s.size) == ToWrite(parts, bytes);
    var n := Min(|bytes|, s.size);
    assert ([] + bytes[..n])[0] == bytes[0];
  }

  /** Some turn of the writer in this run met a stream that failed. */
  predicate ReadHasFailed(u: Upload, events: seq<Event>)
    decreases |events|
  {
    events != [] &&
    ((events[0] == Progress && u.queue.open && Stage(u.parts, u.staged, u.size).Failure?) ||
     ReadHasFailed(Apply(u, events[0]), events[1..]))
  }

  lemma {:induction false} BrokenIff(u: Upload, events: seq<Event>)
    ensures Run(u, events).queue.inner.None? <==> u.queue.inner.None? || ReadHasFailed(u, events)
    decreases |events|
  {
    hide Stage;
    if events != [] {
      BrokenIff(Apply(u, events[0]), events[1..]);
    }
  }

  /** In every interleaving, the system is told of an error exactly when a read of the writer has failed and the queue
      is not locked; so a read that answers 0 behind such a failure found the queue locked. */
  lemma ErrorIsToldIff(parts: seq<Part>, macos: bool, events: seq<Event>, len: nat, locked: bool)
    ensures var u := Run(Start(parts, macos), events);
      var answer := ReadEffect(u.queue, len, locked).1;
      && (answer == ReadError <==> ReadHasFailed(Start(parts, macos), events) && !locked)
      && (ReadHasFailed(Start(parts, macos), events) && answer == Got([]) ==> locked)
      && (StatusOf(u.queue) == Error <==> u.queue.open && ReadHasFailed(Start(parts, macos), events))
  {
    BrokenIff(Start(parts, macos), events);
  }

  /** A write takes everything or leaves the queue full. */
  lemma WriteFills(q: Queue, data: seq<byte>)
    requires q.inner.Some? && |q.inner.value| <= q.capacity
    ensures var (t, n) := WriteEffect(q, data);
      n == |data| || (t.inner.Some? && |t.inner.value| == q.capacity)
  {
  }

  /** Some run in which the stream is not closed brings the system to the end. */
  ghost predicate CanReachTheEnd(u: Upload) {
    exists events :: CloseStream !in events && StatusOf(Run(u, events).queue) == AtEnd
  }

  lemma EndStepBack(u: Upload, e: Event)
    requires e != CloseStream && CanReachTheEnd(Apply(u, e))
    ensures CanReachTheEnd(u)
  {
    var events :| CloseStream !in events && StatusOf(Run(Apply(u, e), events).queue) == AtEnd;
    var longer := [e] + events;
    assert longer[1..] == events;
    assert StatusOf(Run(u, longer).queue) == AtEnd;
  }

  /** Nothing has been lost or has failed, and nothing will fail. */
  predicate Healthy(u: Upload) {
    && u.size > 0 && u.queue.inner.Some? && |u.queue.inner.value| <= u.queue.capacity && u.queue.capacity > 0
    && NeverFails(u.parts) && (u.queue.eof ==> u.parts == []) && (u.parts == [] ==> u.staged == [])
  }

  lemma HealthyProgress(u: Upload)
    requires Healthy(u) && u.queue.open
    ensures var t := Progressed(u);
      && Healthy(t) && t.queue.open
      && Turns(t.parts) + |Remaining(t.parts, t.staged)| <= Turns(u.parts) + |Remaining(u.parts, u.staged)|
      && (u.queue.inner.value == [] && !u.queue.eof ==>
            Turns(t.parts) + |Remaining(t.parts, t.staged)| < Turns(u.parts) + |Remaining(u.parts, u.staged)| ||
            (t.queue.inner.value == [] && t.queue.eof))
  {
    StageConserves(u.parts, u.staged, u.size);
    StageKeepsPromises(u.parts, u.staged, u.size);
    var next := Stage(u.parts, u.staged, u.size);
    hide Stage, Remaining, NeverFails, Turns;
    if next.ToWrite? {
      WriteConserves(u.queue, next.parts, next.staged);
    }
  }

  lemma {:induction false} HealthyReachesTheEnd(u: Upload)
    requires Healthy(u)
    ensures CanReachTheEnd(u)
    decreases !u.queue.open, !u.queue.eof, Turns(u.parts) + |Remaining(u.parts, u.staged)|, |u.queue.inner.value|
  {
    hide Remaining, NeverFails, Turns;
    if StatusOf(u.queue) == AtEnd {
      assert Run(u, []) == u;
    } else {
      var e := if !u.queue.open then OpenStream
               else if u.queue.inner.value != [] then ReadSome(|u.queue.inner.value|, false)
               else Progress;
      if e == Progress {
        HealthyProgress(u);
      }
      hide Progressed;
      HealthyReachesTheEnd(Apply(u, e));
      EndStepBack(u, e);
    }
  }

  lemma {:induction false} RunStaysHealthy(u: Upload, events: seq<Event>)
    requires Healthy(u) && CloseStream !in events
    ensures Healthy(Run(u, events))
    decreases |events|
  {
    if events != [] {
      assert events[0] in events;
      if events[0] == Progress && u.queue.open {
        HealthyProgress(u);
      }
      hide Progressed;
      RunStaysHealthy(Apply(u, events[0]), events[1..]);
    }
  }

  /** In every interleaving without a close, as long as no stream of the body fails, the system can still read on to the
      end, and has all of the content there. */
  lemma EverythingCanBeRead(parts: seq<Part>, macos: bool, events: seq<Event>)
    requires NeverFails(parts) && CloseStream !in events
    ensures CanReachTheEnd(Run(Start(parts, macos), events))
  {
    RunStaysHealthy(Start(parts, macos), events);
    HealthyReachesTheEnd(Run(Start(parts, macos), events));
  }
}
