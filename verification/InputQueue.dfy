/** NSURLSession uploads: the bounded queue behind the input stream, and the writer that stages parts into it. */
module InputQueue {
  import opened Bytes
  import opened Streams

  /** `STREAM_BUFFER_SIZE`. */
  function StreamBufferSize(macos: bool): (n: nat)
    ensures n > 0
  {
    if macos then 1024 * 32 else 1024 * 8
  }

  /** 32 KiB on macOS, 8 KiB elsewhere. */
  lemma BufferSizes()
    ensures StreamBufferSize(true) == 32768 && StreamBufferSize(false) == 8192
  {
  }

  /** The two slices of a ring, the front one first. */
  function Slices(stored: seq<byte>, head: nat, len: nat): (r: (seq<byte>, seq<byte>))
    requires len <= |stored| && (head < |stored| || head == 0)
    ensures |r.0| + |r.1| == len
  {
    if head + len <= |stored| then (stored[head..head + len], [])
    else (stored[head..], stored[..head + len - |stored|])
  }

  /** The elements of the ring, by their place in the storage. */
  lemma SliceAt(stored: seq<byte>, head: nat, len: nat, i: nat)
    requires len <= |stored| && (head < |stored| || head == 0) && i < len
    ensures var (a, b) := Slices(stored, head, len);
      (a + b)[i] == stored[if head + i < |stored| then head + i else head + i - |stored|]
  {
  }

  lemma DrainedRing(stored: seq<byte>, head: nat, len: nat, n: nat)
    requires len <= |stored| && (head < |stored| || head == 0) && n <= len
    ensures var to := if head + n < |stored| then head + n else head + n - |stored|;
      && (to < |stored| || to == 0)
      && var (a, b) := Slices(stored, head, len);
         var (c, d) := Slices(stored, to, len - n);
         c + d == (a + b)[n..]
  {
    hide Slices;
    var to := if head + n < |stored| then head + n else head + n - |stored|;
    var (a, b) := Slices(stored, head, len);
    var (c, d) := Slices(stored, to, len - n);
    forall i | 0 <= i < len - n ensures (c + d)[i] == (a + b)[n..][i] {
      SliceAt(stored, head, len, n + i);
      SliceAt(stored, to, len - n, i);
    }
  }

  lemma PushedRing(stored: seq<byte>, head: nat, len: nat, b: byte)
    requires len < |stored| && (head < |stored| || head == 0)
    ensures var at := if head + len < |stored| then head + len else head + len - |stored|;
      && at < |stored|
      && var (c, d) := Slices(stored, head, len);
         var (e, f) := Slices(stored[at := b], head, len + 1);
         e + f == c + d + [b]
  {
    hide Slices;
    var at := if head + len < |stored| then head + len else head + len - |stored|;
    var (c, d) := Slices(stored, head, len);
    var (e, f) := Slices(stored[at := b], head, len + 1);
    forall i | 0 <= i < len + 1 ensures (e + f)[i] == (c + d + [b])[i] {
      SliceAt(stored[at := b], head, len + 1, i);
      if i < len {
        SliceAt(stored, head, len, i);
      }
    }
  }

  /** `VecDeque<u8>`: a ring over fixed storage. */
  class ByteRing {
    var storage: array<byte>
    var head: nat
    var len: nat

    ghost predicate Valid()
      reads this
    {
      len <= storage.Length && (head < storage.Length || head == 0)
    }

    function Capacity(): nat
      reads this
    {
      storage.Length
    }

    /** `as_slices`. */
    function AsSlices(): (r: (seq<byte>, seq<byte>))
      reads this, storage
      requires Valid()
      ensures |r.0| + |r.1| == len
    {
      Slices(storage[..], head, len)
    }

    function Contents(): (s: seq<byte>)
      reads this, storage
      requires Valid()
      ensures |s| == len
    {
      AsSlices().0 + AsSlices().1
    }

    constructor (capacity: nat)
      ensures Valid() && fresh(storage) && Contents() == [] && Capacity() == capacity
    {
      storage := new byte[capacity];
      head, len := 0, 0;
    }

    method PushBack(b: byte)
      requires Valid() && len < Capacity()
      modifies this, storage
      ensures Valid() && storage == old(storage)
      ensures Contents() == old(Contents()) + [b]
    {
      hide Slices;
      ghost var was := storage[..];
      PushedRing(was, head, len, b);
      var at := if head + len < storage.Length then head + len else head + len - storage.Length;
      storage[at] := b;
      assert storage[..] == was[at := b];
      len := len + 1;
    }

    /** `extend`. */
    method Extend(data: seq<byte>)
      requires Valid() && len + |data| <= Capacity()
      modifies this, storage
      ensures Valid() && storage == old(storage)
      ensures Contents() == old(Contents()) + data
    {
      ghost var before := Contents();
      for i := 0 to |data|
        invariant Valid() && storage == old(storage) && len == |before| + i
        invariant Contents() == before + data[..i]
      {
        PushBack(data[i]);
        assert data[..i + 1] == data[..i] + [data[i]];
        Assoc(before, data[..i], [data[i]]);
      }
      assert data[..|data|] == data;
    }

    /** `drain(..n)`. */
    method Drain(n: nat)
      requires Valid() && n <= len
      modifies this`head, this`len
      ensures Valid() && storage == old(storage)
      ensures Contents() == old(Contents())[n..]
    {
      hide Slices;
      ghost var stored, h, l := storage[..], head, len;
      DrainedRing(stored, h, l, n);
      if head + n < storage.Length {
        head := head + n;
      } else {
        head := head + n - storage.Length;
      }
      len := len - n;
      assert storage[..] == stored;
    }
  }

  /** What the mutex of the input stream guards, and its two flags. */
  datatype Queue = Queue(inner: Option<seq<byte>>, capacity: nat, eof: bool, open: bool)

  /** `InputStream::write` of data. */
  function WriteEffect(q: Queue, data: seq<byte>): (Queue, nat) {
    match q.inner
    case None => (q, 0)
    case Some(bytes) =>
      if data == [] then (q.(eof := true), 0)
      else
        var n := Min(|data|, if |bytes| <= q.capacity then q.capacity - |bytes| else 0);
        (q.(inner := Some(bytes + data[..n])), n)
  }

  datatype ReadAnswer = Got(bytes: seq<byte>) | ReadError

  /** `read:maxLength:`; a queue that is locked gives nothing. */
  function ReadEffect(q: Queue, len: nat, locked: bool): (Queue, ReadAnswer) {
    if locked then (q, Got([]))
    else match q.inner {
      case None => (q, ReadError)
      case Some(bytes) =>
        var n := Min(len, |bytes|);
        (q.(inner := Some(bytes[n..])), Got(bytes[..n]))
    }
  }

  /** `close`: a new queue, of capacity 0. */
  function CloseEffect(q: Queue): Queue {
    if q.inner.None? then q else q.(inner := Some([]), capacity := 0)
  }

  datatype Status = NotOpen | AtEnd | Open | Error

  function StatusOf(q: Queue): Status {
    if !q.open then NotOpen
    else match q.inner {
      case None => Error
      case Some(bytes) => if bytes == [] && q.eof then AtEnd else Open
    }
  }

  /** Fills the front of `buffer` from one slice and then from the other. */
  method CopySlices(buffer: array<byte>, slice1: seq<byte>, slice2: seq<byte>) returns (n: nat)
    modifies buffer
    ensures n == Min(buffer.Length, |slice1| + |slice2|)
    ensures buffer[..n] == (slice1 + slice2)[..n]
  {
    n := Min(|slice1|, buffer.Length);
    forall i | 0 <= i < n {
      buffer[i] := slice1[i];
    }
    assert buffer[..n] == slice1[..n];
    if n < buffer.Length {
      var len2 := Min(|slice2|, buffer.Length - n);
      forall i | 0 <= i < len2 {
        buffer[n + i] := slice2[i];
      }
      n := n + len2;
      assert buffer[..n] == slice1 + slice2[..len2];
    }
  }

  class InputStream {
    var ring: ByteRing
    var broken: bool
    var isOpen: bool
    var eof: bool

    ghost predicate Valid()
      reads this, ring
    {
      ring.Valid()
    }

    ghost function View(): Queue
      reads this, ring, ring.storage
      requires Valid()
    {
      Queue(if broken then None else Some(ring.Contents()), ring.Capacity(), eof, isOpen)
    }

    constructor (macos: bool)
      ensures Valid() && fresh(ring) && fresh(ring.storage)
      ensures View() == Queue(Some([]), StreamBufferSize(macos), false, false)
    {
      ring := new ByteRing(StreamBufferSize(macos));
      broken, isOpen, eof := false, false, false;
    }

    method Write(data: seq<byte>) returns (n: nat)
      requires Valid()
      modifies this`eof, ring, ring.storage
      ensures Valid() && ring == old(ring) && ring.storage == old(ring.storage)
      ensures (View(), n) == WriteEffect(old(View()), data)
    {
      if broken {
        return 0;
      }
      if data == [] {
        eof := true;
        return 0;
      }
      n := Min(|data|, ring.Capacity() - ring.len);
      ring.Extend(data[..n]);
    }

    method WriteError()
      requires Valid()
      modifies this`broken
      ensures Valid() && View() == old(View()).(inner := None)
    {
      broken := true;
    }

    /** Reads the two slices of the ring, one behind the other. */
    method ReadMaxLength(buffer: array<byte>, locked: bool) returns (n: int)
      requires Valid() && buffer != ring.storage
      modifies buffer, ring
      ensures Valid() && ring == old(ring) && ring.storage == old(ring.storage)
      ensures var (q, answer) := ReadEffect(old(View()), buffer.Length, locked);
        && View() == q
        && (n == -1 <==> answer == ReadError)
        && (n >= 0 ==> n <= buffer.Length && answer == Got(buffer[..n]))
        && n >= -1
      ensures n == -1 <==> !locked && old(broken)
      ensures locked ==> n == 0 && ring.Contents() == old(ring.Contents())
      ensures !locked && !old(broken) ==>
        && n == Min(buffer.Length, |old(ring.Contents())|)
        && buffer[..n] == old(ring.Contents())[..n] && ring.Contents() == old(ring.Contents())[n..]
    {
      if locked {
        return 0;
      }
      if broken {
        return -1;
      }
      var (slice1, slice2) := ring.AsSlices();
      n := CopySlices(buffer, slice1, slice2);
      ring.Drain(n);
    }

    method OpenStream()
      requires Valid()
      modifies this`isOpen
      ensures Valid() && View() == old(View()).(open := true)
    {
      isOpen := true;
    }

    method CloseStream()
      requires Valid()
      modifies this`ring
      ensures Valid() && View() == CloseEffect(old(View()))
      ensures broken == old(broken) && (!broken ==> ring.Contents() == [] && ring.Capacity() == 0)
      ensures old(broken) ==> ring == old(ring)
      ensures !old(broken) ==> fresh(ring) && fresh(ring.storage)
    {
      if !broken {
        ring := new ByteRing(0);
      }
    }

    method StreamStatus() returns (status: Status)
      requires Valid()
      ensures status == StatusOf(View())
      ensures status == NotOpen <==> !isOpen
      ensures status == Error <==> isOpen && broken
      ensures status == AtEnd <==> isOpen && !broken && ring.Contents() == [] && eof
    {
      if !isOpen {
        return NotOpen;
      }
      if broken {
        return Error;
      }
      return if ring.len == 0 && eof then AtEnd else Open;
    }
  }
}
