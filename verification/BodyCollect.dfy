/** Collecting a response body under a size limit, in the WinHTTP, curl and reqwest backends. */
module BodyCollect {
  import opened Bytes

  const USIZE_LIMIT: nat := 0x1_0000_0000_0000_0000

  datatype Collected = Complete(bytes: seq<byte>) | TooLarge | ReadError

  /** One blocking read: the query or the read fails, or these are how many bytes the system reports, how much room the
      buffer has beyond what was reserved, and how many bytes the system offers to fill it with. */
  datatype Turn = QueryFails | ReadFails | Turn(available: nat, spare: nat, offer: nat)

  /** `max_to_read` at the start; a release build wraps. */
  function InitialMaxToRead(max: Option<nat>): nat
    requires max.Some? ==> max.value < USIZE_LIMIT
  {
    match max
    case Some(m) => (m + 1) % USIZE_LIMIT
    case None => USIZE_LIMIT - 1
  }

  /** What the blocking loop gives when nothing fails, whatever its reads. */
  function BlockingResult(max: Option<nat>, body: seq<byte>): Collected
    requires max.Some? ==> max.value < USIZE_LIMIT
  {
    if InitialMaxToRead(max) == 0 then Complete([])
    else if |body| < InitialMaxToRead(max) then Complete(body)
    else TooLarge
  }

  /** The blocking `bytes` of the WinHTTP response: each read may fill the whole spare capacity, which `reserve` makes
      at least the requested length; an empty vector that reserves nothing has none. */
  method WinHttpBlockingBytes(max: Option<nat>, body: seq<byte>, turns: nat -> Turn) returns (r: Collected)
    requires max.Some? ==> max.value < USIZE_LIMIT
    ensures r != ReadError ==> r == BlockingResult(max, body)
    ensures (forall i: nat :: turns(i).Turn?) ==> r != ReadError
  {
    var result, maxToRead := [], InitialMaxToRead(max);
    var turn := 0;
    while true
      invariant result <= body
      invariant |result| + maxToRead == InitialMaxToRead(max)
      invariant result != [] ==> maxToRead > 0
      decreases |body| - |result|
    {
      var left := |body| - |result|;
      var t := turns(turn);
      turn := turn + 1;
      if t.QueryFails? {
        return ReadError;
      }
      if left == 0 {
        break;
      }
      if t.ReadFails? {
        return ReadError;
      }
      var available := Min(t.available + 1, left);
      var toRead := Min(available, maxToRead);
      var capacity := if toRead == 0 then 0 else toRead + t.spare;
      var bytesRead := Min(capacity, Min(t.offer + 1, left));
      if bytesRead == 0 {
        break;
      }
      result := result + body[|result|..|result| + bytesRead];
      if bytesRead >= maxToRead {
        return TooLarge;
      }
      maxToRead := maxToRead - bytesRead;
    }
    r := Complete(result);
  }

  /** What a collection under a limit promises: all of a body within the limit, an error for a longer one. */
  function Limited(body: seq<byte>, max: Option<nat>): (r: Collected)
    ensures r == TooLarge <==> max.Some? && |body| > max.value
    ensures r != TooLarge ==> r == Complete(body)
  {
    if max.Some? && |body| > max.value then TooLarge else Complete(body)
  }

  /** The blocking limit is kept for every limit but the largest `usize`, which collects nothing at all, and without a
      limit for every body shorter than that. */
  lemma WinHttpBlockingKeepsTheLimitIff(max: Option<nat>, body: seq<byte>)
    requires max.Some? ==> max.value < USIZE_LIMIT
    ensures BlockingResult(max, body) == Limited(body, max) <==>
      (if max.None? then |body| < USIZE_LIMIT - 1 else max.value != USIZE_LIMIT - 1 || body == [])
  {
    if max.Some? && max.value == USIZE_LIMIT - 1 {
      assert InitialMaxToRead(max) == 0;
    }
  }

  lemma {:induction false} ConcatSnoc(pieces: seq<seq<byte>>, i: nat)
    requires i < |pieces|
    ensures Concat(pieces[..i + 1]) == Concat(pieces[..i]) + pieces[i]
    ensures |Concat(pieces[..i + 1])| <= |Concat(pieces)|
  {
    ConcatAppend(pieces[..i], [pieces[i]]);
    assert pieces[..i + 1] == pieces[..i] + [pieces[i]];
    assert Concat([pieces[i]]) == pieces[i] + [];
    ConcatAppend(pieces[..i + 1], pieces[i + 1..]);
    assert pieces == pieces[..i + 1] + pieces[i + 1..];
  }

  /** A collection of what is read up to the end or an error: too large once the limit is exceeded, and otherwise it
      ends with the error, if there is one. */
  predicate Collects(r: Collected, body: seq<byte>, fails: bool, max: Option<nat>) {
    && (r == TooLarge <==> max.Some? && |body| > max.value)
    && (r == ReadError <==> fails && (max.Some? ==> |body| <= max.value))
    && (r.Complete? ==> r.bytes == body)
  }

  /** `bytes` of the curl async response: the pieces are what each wait finds in the response buffer, and `fails` says
      whether the wait behind them reports an error or the end. */
  method CurlBytes(pieces: seq<seq<byte>>, fails: bool, max: Option<nat>) returns (r: Collected)
    ensures Collects(r, Concat(pieces), fails, max)
  {
    var buf: seq<byte> := [];
    for i := 0 to |pieces|
      invariant buf == Concat(pieces[..i])
      invariant max.Some? ==> |buf| <= max.value
    {
      ConcatSnoc(pieces, i);
      if max.Some? && |buf| + |pieces[i]| > max.value {
        return TooLarge;
      }
      buf := buf + pieces[i];
    }
    assert pieces[..|pieces|] == pieces;
    r := if fails then ReadError else Complete(buf);
  }

  /** `bytes` of the WinHTTP async response: polls give the pieces, and then nothing or an error. */
  method WinHttpAsyncBytes(pieces: seq<seq<byte>>, fails: bool, max: Option<nat>) returns (r: Collected)
    requires forall p | p in pieces :: p != []
    requires max.None? ==> |Concat(pieces)| < USIZE_LIMIT
    ensures Collects(r, Concat(pieces), fails, max)
  {
    var maxSize := if max.Some? then max.value else USIZE_LIMIT - 1;
    var result: seq<byte> := [];
    var i := 0;
    var readLen: nat := 1;
    while readLen > 0
      invariant 0 <= i <= |pieces| && (readLen == 0 ==> i == |pieces| && !fails)
      invariant result == Concat(pieces[..i]) && |result| <= maxSize
      decreases |pieces| - i, readLen
    {
      if i == |pieces| && fails {
        assert pieces[..i] == pieces;
        return ReadError;
      }
      var data := if i == |pieces| then [] else pieces[i];
      if i < |pieces| {
        ConcatSnoc(pieces, i);
        assert data in pieces;
      }
      if |data| + |result| > maxSize {
        return TooLarge;
      }
      result := result + data;
      readLen := |data|;
      i := if i == |pieces| then i else i + 1;
    }
    assert pieces[..|pieces|] == pieces;
    r := Complete(result);
  }
}
