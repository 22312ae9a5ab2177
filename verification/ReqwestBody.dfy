/** The reqwest backend's response: body frames, collected or read through a buffer. */
module ReqwestBody {
  import opened Bytes
  import opened BodyCollect

  /** What `poll_frame` gives; `NotReady` is a poll that pends. */
  datatype Frame = Data(bytes: seq<byte>) | Trailers | Broken | NotReady

  /** All the body bytes in the frames. */
  function Body(frames: seq<Frame>): seq<byte> {
    if frames == [] then [] else (if frames[0].Data? then frames[0].bytes else []) + Body(frames[1..])
  }

  predicate Stops(f: Frame) {
    f == Data([]) || f.Trailers? || f.Broken?
  }

  /** The frames up to the first that stops a reader, and those behind it. */
  function Front(frames: seq<Frame>): seq<Frame> {
    if frames == [] || Stops(frames[0]) then [] else [frames[0]] + Front(frames[1..])
  }

  function Behind(frames: seq<Frame>): (rest: seq<Frame>)
    ensures |rest| <= |frames|
  {
    if frames == [] then [] else if Stops(frames[0]) then frames[1..] else Behind(frames[1..])
  }

  /** Whether the frame that stops a reader is an error. */
  predicate StopsBroken(frames: seq<Frame>) {
    frames != [] && (if Stops(frames[0]) then frames[0].Broken? else StopsBroken(frames[1..]))
  }

  function Readable(frames: seq<Frame>): seq<byte> {
    Body(Front(frames))
  }

  lemma {:induction false} BodySplits(frames: seq<Frame>)
    ensures Body(frames) == Readable(frames) + Body(Behind(frames))
  {
    if frames != [] && !Stops(frames[0]) {
      BodySplits(frames[1..]);
      var bytes := if frames[0].Data? then frames[0].bytes else [];
      assert Front(frames)[1..] == Front(frames[1..]);
      Assoc(bytes, Readable(frames[1..]), Body(Behind(frames[1..])));
    } else {
      assert [] + Body(Behind(frames)) == Body(Behind(frames));
    }
  }

  lemma NoFrames()
    ensures Readable([]) == [] && Behind([]) == [] && !StopsBroken([])
  {
  }

  /** What one frame does to a reader. */
  lemma FrontStep(frames: seq<Frame>)
    requires frames != []
    ensures if Stops(frames[0]) then
              Readable(frames) == [] && Behind(frames) == frames[1..] && StopsBroken(frames) == frames[0].Broken?
            else
              && Readable(frames) == (if frames[0].Data? then frames[0].bytes else []) + Readable(frames[1..])
              && Behind(frames) == Behind(frames[1..]) && StopsBroken(frames) == StopsBroken(frames[1..])
  {
    if !Stops(frames[0]) {
      assert Front(frames)[1..] == Front(frames[1..]);
    }
  }

  function CollectedFrom(frames: seq<Frame>, max: Option<nat>): Collected {
    if max.Some? && |Readable(frames)| > max.value then TooLarge
    else if StopsBroken(frames) then ReadError
    else Complete(Readable(frames))
  }

  datatype Reading = Pending | Failed | Got(n: nat)

  class ReqwestResponse {
    var frames: seq<Frame>
    var buffer: seq<byte>
    const max: Option<nat>

    constructor (body: seq<Frame>, limit: Option<nat>)
      ensures frames == body && buffer == [] && max == limit
    {
      frames, buffer, max := body, [], limit;
    }

    /** `poll_receive_data_frame`: an empty frame, trailers and the end all give nothing. */
    method PollReceiveDataFrame() returns (r: Reading, data: seq<byte>)
      modifies this`frames
      ensures old(frames) == [] ==> r == Got(0) && data == [] && frames == []
      ensures old(frames) != [] ==> frames == old(frames)[1..]
      ensures old(frames) != [] ==>
        match old(frames)[0] {
          case Data(bytes) => r == Got(|bytes|) && data == bytes
          case Trailers => r == Got(0) && data == []
          case Broken => r == Failed && data == []
          case NotReady => r == Pending && data == []
        }
    {
      if frames == [] {
        return Got(0), [];
      }
      var frame := frames[0];
      frames := frames[1..];
      match frame {
        case Data(bytes) => return Got(|bytes|), bytes;
        case Trailers => return Got(0), [];
        case Broken => return Failed, [];
        case NotReady => return Pending, [];
      }
    }

    /** `collect_all_bytes`. */
    method CollectAllBytes() returns (r: Collected)
      modifies this`frames
      ensures r == CollectedFrom(old(frames), max)
    {
      hide Readable, StopsBroken;
      ghost var all := frames;
      var collected: seq<byte> := [];
      while true
        invariant collected + Readable(frames) == Readable(all)
        invariant StopsBroken(frames) == StopsBroken(all)
        invariant max.Some? && collected != [] ==> |collected| <= max.value
        decreases |frames|
      {
        NoFrames();
        if frames != [] {
          FrontStep(frames);
        }
        var r, data := PollReceiveDataFrame();
        if r == Failed {
          return ReadError;
        }
        if r == Pending {
          assert [] + Readable(frames) == Readable(frames);
          continue;
        }
        if data == [] {
          break;
        }
        Assoc(collected, data, Readable(frames));
        if max.Some? && |collected| + |data| > max.value {
          return TooLarge;
        }
        collected := collected + data;
      }
      assert collected + [] == collected;
      r := Complete(collected);
    }

    /** `write_to`. */
    method WriteTo(buf: array<byte>) returns (n: nat)
      modifies this`buffer, buf
      ensures n == Min(buf.Length, |old(buffer)|)
      ensures buf[..n] == old(buffer)[..n] && buffer == old(buffer)[n..]
    {
      n := Min(buf.Length, |buffer|);
      forall i | 0 <= i < n {
        buf[i] := buffer[i];
      }
      assert buf[..n] == buffer[..n];
      buffer := buffer[n..];
    }

    /** `poll_read`. */
    method PollRead(buf: array<byte>) returns (r: Reading)
      modifies this, buf
      ensures r.Got? ==> r.n <= buf.Length
      ensures Read(r, if r.Got? then buf[..r.n] else [], buffer, frames) ==
          ReadEffect(old(buffer), old(frames), buf.Length)
    {
      hide Readable;
      ghost var all := ReadEffect(buffer, frames, buf.Length);
      while true
        invariant ReadEffect(buffer, frames, buf.Length) == all
        decreases |frames|
      {
        var written := WriteTo(buf);
        if written > 0 {
          return Got(written);
        }
        var received, data := PollReceiveDataFrame();
        if received == Failed || received == Pending {
          return received;
        }
        buffer := data;
        if data == [] {
          assert buf[..0] == [];
          return Got(0);
        }
      }
    }
  }

  /** One `poll_read`: the answer, the bytes given, and what is left in the buffer and of the frames. */
  datatype Read = Read(reading: Reading, given: seq<byte>, buffer: seq<byte>, frames: seq<Frame>)

  function ReadEffect(buffer: seq<byte>, frames: seq<Frame>, len: nat): Read
    decreases |frames|
  {
    var n := Min(len, |buffer|);
    if n > 0 then Read(Got(n), buffer[..n], buffer[n..], frames)
    else if frames == [] then Read(Got(0), [], [], [])
    else match frames[0] {
      case Data(bytes) => if bytes == [] then Read(Got(0), [], [], frames[1..]) else ReadEffect(bytes, frames[1..], len)
      case Trailers => Read(Got(0), [], [], frames[1..])
      case Broken => Read(Failed, [], buffer, frames[1..])
      case NotReady => Read(Pending, [], buffer, frames[1..])
    }
  }

  /** The readable bytes behind a read: none once it has given 0, since a stopping frame is then taken. */
  function LeftBehind(r: Read): seq<byte> {
    if r.reading == Got(0) || r.reading == Failed then r.buffer else r.buffer + Readable(r.frames)
  }

  /** The read gives a front of what was readable and leaves the rest. */
  predicate KeepsAll(buffer: seq<byte>, frames: seq<Frame>, len: nat) {
    var r := ReadEffect(buffer, frames, len);
    r.given + LeftBehind(r) == buffer + Readable(frames)
  }

  /** With a non-empty buffer no read loses or repeats a byte, and one that gives nothing found nothing readable. */
  lemma {:induction false} ReadKeepsAll(buffer: seq<byte>, frames: seq<Frame>, len: nat)
    requires len > 0
    ensures KeepsAll(buffer, frames, len)
    ensures ReadEffect(buffer, frames, len).reading == Got(0) <==> buffer + Readable(frames) == [] && !AsksFirst(frames)
    decreases |frames|
  {
    NoFrames();
    var n := Min(len, |buffer|);
    if n > 0 {
      Assoc(buffer[..n], buffer[n..], Readable(frames));
    } else if frames != [] {
      FrontStep(frames);
      assert [] + (buffer + Readable(frames[1..])) == buffer + Readable(frames[1..]);
      assert [] + Readable(frames) == Readable(frames);
      if frames[0].Data? && frames[0].bytes != [] {
        ReadKeepsAll(frames[0].bytes, frames[1..], len);
      }
    }
  }

  /** A poll that pends, or an error, comes before anything that is readable or ends the body. */
  predicate AsksFirst(frames: seq<Frame>) {
    frames != [] && (frames[0].NotReady? || frames[0].Broken?)
  }

  /** The frames stop a reader at once. */
  predicate StopsAtOnce(frames: seq<Frame>) {
    frames == [] || frames[0] == Data([]) || frames[0].Trailers?
  }

  /** With an empty buffer a read keeps all exactly when it is held up before it takes a frame, or, with nothing
      buffered, behind the first one, or when nothing at all was readable. */
  lemma EmptyReadKeepsAllIff(buffer: seq<byte>, frames: seq<Frame>)
    ensures KeepsAll(buffer, frames, 0) <==>
            AsksFirst(frames) || (buffer == [] && (StopsAtOnce(frames) || AsksFirst(frames[1..])))
  {
    hide Readable;
    NoFrames();
    if frames != [] {
      FrontStep(frames);
      if frames[0].Data? && frames[0].bytes != [] {
        EmptyReadOverData(buffer, frames[0].bytes, frames[1..]);
      }
    }
  }

  lemma EmptyReadOverData(buffer: seq<byte>, bytes: seq<byte>, rest: seq<Frame>)
    requires bytes != []
    ensures var r := ReadEffect(bytes, rest, 0);
      r.given + LeftBehind(r) == buffer + (bytes + Readable(rest)) <==> buffer == [] && AsksFirst(rest)
  {
    EmptyReadShrinks(bytes, rest);
    hide Readable;
    NoFrames();
    if AsksFirst(rest) {
      FrontStep(rest);
      assert [] + (bytes + Readable(rest)) == bytes + Readable(rest);
      assert Readable(rest) == Readable(rest[1..]) || Readable(rest) == [];
    } else {
      var r := ReadEffect(bytes, rest, 0);
      assert |r.given + LeftBehind(r)| < |buffer + (bytes + Readable(rest))|;
    }
  }

  /** Whatever an empty read leaves is no more than was behind the frames it took. */
  lemma {:induction false} EmptyReadShrinks(buffer: seq<byte>, frames: seq<Frame>)
    ensures var r := ReadEffect(buffer, frames, 0);
      && r.given == []
      && (if AsksFirst(frames) then r == Read(if frames[0].Broken? then Failed else Pending, [], buffer, frames[1..])
          else |LeftBehind(r)| <= |Readable(frames)|)
    decreases |frames|
  {
    NoFrames();
    if frames != [] {
      FrontStep(frames);
      if frames[0].Data? && frames[0].bytes != [] {
        EmptyReadShrinks(frames[0].bytes, frames[1..]);
        if frames[1..] != [] {
          FrontStep(frames[1..]);
        }
      }
    }
  }

  /** Such a read: the buffered byte is lost although the poll only pends. */
  lemma EmptyReadLosesAByte()
    ensures ReadEffect([1], [Data([2]), NotReady], 0) == Read(Pending, [], [2], []) &&
        !KeepsAll([1], [Data([2]), NotReady], 0)
  {
    var frames := [Data([2]), NotReady];
    assert frames[1..] == [NotReady] && [NotReady][1..] == [];
    EmptyReadKeepsAllIff([1], frames);
  }

  /** The collection is the whole body, within the limit, exactly when no data stands behind the first empty or
      non-data frame. */
  lemma CollectsTheBodyIff(frames: seq<Frame>, max: Option<nat>)
    requires !StopsBroken(frames)
    ensures CollectedFrom(frames, max) == Limited(Body(frames), max) <==>
            Body(Behind(frames)) == [] || (max.Some? && |Readable(frames)| > max.value)
  {
    BodySplits(frames);
    if Body(Behind(frames)) == [] {
      assert Readable(frames) + [] == Readable(frames);
    }
  }

  /** What is collected of the frames in front of one that stops a reader, or of all if none does: their data, unless
      that exceeds the limit; and behind a broken frame, its error. */
  lemma CollectsUpToTheStop(front: seq<Frame>, stop: Option<Frame>, behind: seq<Frame>, max: Option<nat>)
    requires forall f | f in front :: f.NotReady? || (f.Data? && f.bytes != [])
    requires if stop.Some? then stop.value == Data([]) || stop.value.Trailers? || stop.value.Broken? else behind == []
    ensures var frames := front + (if stop.Some? then [stop.value] else []) + behind;
      Collects(CollectedFrom(frames, max), Body(front), stop.Some? && stop.value.Broken?, max)
  {
    StopsBehind(front, stop, behind);
  }

  lemma {:induction false} StopsBehind(front: seq<Frame>, stop: Option<Frame>, behind: seq<Frame>)
    requires forall f | f in front :: f.NotReady? || (f.Data? && f.bytes != [])
    requires if stop.Some? then stop.value == Data([]) || stop.value.Trailers? || stop.value.Broken? else behind == []
    ensures var frames := front + (if stop.Some? then [stop.value] else []) + behind;
      Readable(frames) == Body(front) && (StopsBroken(frames) <==> stop.Some? && stop.value.Broken?)
  {
    var end := if stop.Some? then [stop.value] else [];
    var frames := front + end + behind;
    NoFrames();
    if front != [] {
      assert front[0] in front && forall f | f in front[1..] :: f in front;
      StopsBehind(front[1..], stop, behind);
      assert frames[0] == front[0] && frames[1..] == front[1..] + end + behind;
      FrontStep(frames);
    } else if stop.Some? {
      assert frames[0] == stop.value;
      FrontStep(frames);
    } else {
      assert frames == [];
    }
  }

  /** A read with room gives what is buffered, as much as there is room for, and takes a frame only when nothing is: it
      pends, fails or ends exactly when that frame says so, and otherwise gives from its data. */
  lemma ReadTakesInTurn(buffer: seq<byte>, frames: seq<Frame>, len: nat)
    requires len > 0
    ensures var r := ReadEffect(buffer, frames, len);
      if buffer != [] then
        r.reading == Got(Min(len, |buffer|)) && r.given == buffer[..Min(len, |buffer|)] && r.frames == frames
      else if frames == [] then r.reading == Got(0)
      else
        && r.frames == frames[1..]
        && (r.reading == Pending <==> frames[0].NotReady?)
        && (r.reading == Failed <==> frames[0].Broken?)
        && (frames[0].Trailers? ==> r.reading == Got(0))
        && (frames[0].Data? ==> r.reading == Got(Min(len, |frames[0].bytes|)) &&
                                r.given == frames[0].bytes[..Min(len, |frames[0].bytes|)])
  {
  }

  /** Data behind an empty frame is lost. */
  lemma EmptyFrameTruncates(data: seq<byte>)
    requires data != []
    ensures CollectedFrom([Data([]), Data(data)], None) == Complete([]) && Body([Data([]), Data(data)]) == data
  {
    assert [Data([]), Data(data)][1..] == [Data(data)] && [Data(data)][1..] == [];
    assert Body([Data(data)]) == data + [];
  }
}
