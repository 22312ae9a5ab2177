/** Request-body streams and the part lists built from them. */
module Streams {
  import opened Bytes

  /** What one read of a stream does: it is not ready, it fails, or it offers up to `len` bytes. */
  datatype Turn = NotReady | Broken | Offer(len: nat)

  datatype ReadOutcome = Pending | Failed | Ready(bytes: seq<byte>)

  /** A stream: the bytes it still holds and the turns its next reads will take.
      A read returns no bytes only when none are left, as `Read` and `AsyncRead` promise. */
  datatype Source = Source(rest: seq<byte>, turns: seq<Turn>) {

    function Give(n: nat, cap: nat): (r: (ReadOutcome, Source))
      ensures r.0.Ready? && r.0.bytes + r.1.rest == rest
      ensures |r.0.bytes| <= cap
      ensures cap > 0 && n > 0 && rest != [] ==> r.0.bytes != []
    {
      var k := Min(n, Min(cap, |rest|));
      (Ready(rest[..k]), Source(rest[k..], if turns == [] then [] else turns[1..]))
    }

    /** One read into a buffer of `cap` bytes. */
    function Poll(cap: nat): (r: (ReadOutcome, Source))
      ensures r.0.Ready? ==> r.0.bytes + r.1.rest == rest && |r.0.bytes| <= cap
      ensures r.0.Ready? && r.0.bytes == [] && cap > 0 ==> rest == []
      ensures !r.0.Ready? ==> r.1.rest == rest && |r.1.turns| < |turns|
      ensures |r.1.turns| <= |turns|
    {
      if turns == [] then Give(|rest|, cap)
      else match turns[0] {
        case NotReady => (Pending, Source(rest, turns[1..]))
        case Broken => (Failed, Source(rest, turns[1..]))
        case Offer(n) => Give(n + 1, cap)
      }
    }

    predicate NeverFails() {
      Broken !in turns
    }

    predicate NeverPends() {
      NotReady !in turns
    }
  }

  /** `DataOrStream`: bytes to send, or a stream to read from. */
  datatype Part = Data(bytes: seq<byte>) | Stream(source: Source) {
    function Content(): seq<byte> {
      match this
      case Data(b) => b
      case Stream(s) => s.rest
    }

    /** An upper bound on the polls this part can still take. */
    function Weight(): nat {
      match this
      case Data(b) => |b| + 1
      case Stream(s) => |s.rest| + |s.turns| + 1
    }
  }

  /** Everything the part list holds, in order. */
  function Content(parts: seq<Part>): seq<byte> {
    if parts == [] then [] else parts[0].Content() + Content(parts[1..])
  }

  function Weight(parts: seq<Part>): nat {
    if parts == [] then 0 else parts[0].Weight() + Weight(parts[1..])
  }

  predicate NeverFails(parts: seq<Part>) {
    parts == [] || ((parts[0].Stream? ==> parts[0].source.NeverFails()) && NeverFails(parts[1..]))
  }

  predicate NeverPends(parts: seq<Part>) {
    parts == [] || ((parts[0].Stream? ==> parts[0].source.NeverPends()) && NeverPends(parts[1..]))
  }

  lemma {:induction false} ContentAppend(a: seq<Part>, b: seq<Part>)
    ensures Content(a + b) == Content(a) + Content(b)
  {
    if a == [] {
      assert a + b == b;
    } else {
      ContentAppend(a[1..], b);
      assert (a + b)[1..] == a[1..] + b;
      Assoc(a[0].Content(), Content(a[1..]), Content(b));
    }
  }
}
