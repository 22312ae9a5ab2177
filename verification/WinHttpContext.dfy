/** The state that a WinHTTP request shares between its future and the system's callbacks. */
module WinHttpContext {
  import opened Bytes

  datatype State =
    | Initial
    | HeadersSent
    | WriteComplete
    | HeadersReceived
    | QueryingData
    | DataAvailable
    | Reading
    | Completed

  /** `Cow<'static, [u8]>`. */
  datatype Cow = Borrowed(bytes: seq<byte>) | Owned(bytes: seq<byte>)

  /** The fields behind the mutex. A waker is the number of the poll that left it here; `woken` holds
      the wakers that were woken. */
  datatype Ctx = Ctx(
    state: State,
    waker: nat,
    woken: set<nat>,
    error: Option<int>,
    buffer: Cow,
    start: nat,
    end: nat
  ) {
    function Wake(): Ctx {
      this.(woken := woken + {waker})
    }
  }

  function Transitioned(c: Ctx, to: State): Ctx {
    c.(state := to).Wake()
  }

  function Errored(c: Ctx, code: int): Ctx {
    c.(error := Some(code)).Wake()
  }

  function BytesAvailable(c: Ctx, n: nat): Ctx {
    c.(start := 0, end := n)
  }

  function ReadCompleted(c: Ctx, offset: nat, bytesRead: nat): Ctx {
    if bytesRead == 0 then Transitioned(c, Completed)
    else Transitioned(c.(start := offset, end := offset + bytesRead), HeadersReceived)
  }

  const NEW_CTX := Ctx(Initial, 0, {}, None, Owned([]), 0, 0)

  /** The outcome of `poll_for_state`. */
  datatype StatePoll = StatePending | StateError(code: int) | StateReached(state: State, transferred: nat)

  function ErrorTaken(c: Ctx): (Ctx, Option<int>) {
    (c.(error := None), c.error)
  }

  function Looked(c: Ctx, expected: set<State>, poll: nat): (Ctx, StatePoll) {
    if c.state in expected then (c, StateReached(c.state, c.end)) else (c.(waker := poll), StatePending)
  }

  /** `RequestContext`: each method is one critical section, but for `PollForState`, which has two. */
  class RequestContext {
    var state: State
    var waker: nat
    var woken: set<nat>
    var error: Option<int>
    var buffer: Cow
    var start: nat
    var end: nat

    function View(): Ctx
      reads this
    {
      Ctx(state, waker, woken, error, buffer, start, end)
    }

    constructor ()
      ensures View() == NEW_CTX
    {
      state, waker, woken, error := Initial, 0, {}, None;
      buffer, start, end := Owned([]), 0, 0;
    }

    method TransitionState(to: State)
      modifies this
      ensures View() == Transitioned(old(View()), to)
      ensures state == to && woken == old(woken) + {old(waker)}
    {
      state := to;
      woken := woken + {waker};
    }

    method SetSendComplete()
      modifies this
      ensures View() == old(View()).(buffer := Borrowed([]), state := HeadersSent).Wake()
    {
      buffer := Borrowed([]);
      state := HeadersSent;
      woken := woken + {waker};
    }

    method SetWriteComplete(written: nat)
      modifies this
      ensures View() == old(View()).(end := old(end) + written, state := WriteComplete).Wake()
    {
      end := end + written;
      state := WriteComplete;
      woken := woken + {waker};
    }

    /** `offset` is where the system's pointer stands in the buffer. */
    method SetReadComplete(offset: nat, bytesRead: nat)
      modifies this
      ensures View() == ReadCompleted(old(View()), offset, bytesRead)
      ensures woken == old(woken) + {old(waker)}
      ensures bytesRead == 0 ==> state == Completed && start == old(start) && end == old(end)
      ensures bytesRead > 0 ==> state == HeadersReceived && start == offset && end == offset + bytesRead
    {
      if bytesRead == 0 {
        state := Completed;
      } else {
        start, end := offset, offset + bytesRead;
        state := HeadersReceived;
      }
      woken := woken + {waker};
    }

    method SetError(code: int)
      modifies this
      ensures View() == Errored(old(View()), code)
      ensures error == Some(code) && state == old(state) && woken == old(woken) + {old(waker)}
    {
      error := Some(code);
      woken := woken + {waker};
    }

    method SetBody(body: Cow)
      modifies this
      ensures View() == old(View()).(buffer := body)
    {
      buffer := body;
    }

    method SetWriteBuffer(data: Cow)
      modifies this
      ensures View() == old(View()).(buffer := data, start := 0, end := 0)
    {
      buffer := data;
      start, end := 0, 0;
    }

    method PrepareForWriting()
      modifies this
      ensures View() == old(View()).(state := HeadersSent, start := 0, end := 0)
    {
      state := HeadersSent;
      start, end := 0, 0;
    }

    method TakeWriteBuffer() returns (data: seq<byte>)
      modifies this
      ensures data == old(buffer).bytes
      ensures View() == old(View()).(buffer := Owned([]), start := 0, end := 0)
    {
      data := buffer.bytes;
      buffer, start, end := Owned([]), 0, 0;
    }

    method SetBytesAvailable(n: nat)
      modifies this
      ensures View() == BytesAvailable(old(View()), n)
      ensures start == 0 && end == n && state == old(state) && woken == old(woken)
    {
      start, end := 0, n;
    }

    method TakeError() returns (code: Option<int>)
      modifies this
      ensures (View(), code) == ErrorTaken(old(View()))
    {
      code := error;
      error := None;
    }

    /** The second critical section of `poll_for_state`: it looks at the state, and registers the waker if that is not
        an expected one. */
    method LookAtState(expected: set<State>, poll: nat) returns (r: StatePoll)
      modifies this
      ensures (View(), r) == Looked(old(View()), expected, poll)
    {
      if state in expected {
        r := StateReached(state, end);
      } else {
        waker := poll;
        r := StatePending;
      }
    }

    /** `poll_for_state`, both of its critical sections with nothing between them: the error is taken first, then the
        state is looked at. */
    method PollForState(expected: set<State>, poll: nat) returns (r: StatePoll)
      modifies this
      ensures View() ==
        if old(error).Some? then old(View()).(error := None)
        else if old(state) in expected then old(View())
        else old(View()).(waker := poll)
      ensures r ==
        if old(error).Some? then StateError(old(error).value)
        else if old(state) in expected then StateReached(old(state), old(end))
        else StatePending
    {
      var code := TakeError();
      if code.Some? {
        return StateError(code.value);
      }
      r := LookAtState(expected, poll);
    }
  }
}
