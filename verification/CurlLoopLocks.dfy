/** The mutexes of the curl async loop: one around the queue, and one around the state of each request. */
module CurlLoopLocks {
  import opened Bytes

  datatype Mutex = Queue | State(r: nat)

  /** Where a thread stands. Request `r` is the client's own, or the one of the loop's task or callback. */
  datatype Pc =
    | Away
    | WantsQueue             // `dispatch_task`, `start_request`, the loop's swap
    | InQueue
    | WantsState(r: nat)     // a poll of the client, a task or a callback of the loop
    | InState(r: nat)
    | WantsQueueToo(r: nat)  // `poll_bytes` dispatches an unpause, a failed query drops its handle
    | SendWantsQueue(r: nat) // `batch_unpause_send`
    | SendWantsState(r: nat) // holds the queue's mutex
    | InBoth(r: nat)

  /** Thread 0 is the loop's, thread `r + 1` runs the client's task of request `r`. Each mutex knows its owner. */
  datatype Sys = Sys(pcs: seq<Pc>, queue: Option<nat>, states: seq<Option<nat>>)

  const LOOP: nat := 0

  datatype Event =
    | Begin(t: nat, pc: Pc)
    | Lock(t: nat)  // the thread gets the mutex that it wants
    | More(t: nat)  // a thread with a state locked goes on to the queue
    | End(t: nat)   // the thread releases what it holds

  predicate Shaped(s: Sys) {
    |s.pcs| == |s.states| + 1
  }

  /** The mutex that a thread in this place waits for. */
  function Wanted(pc: Pc): Option<Mutex> {
    match pc
    case WantsQueue => Some(Queue)
    case WantsState(r) => Some(State(r))
    case WantsQueueToo(_) => Some(Queue)
    case SendWantsQueue(_) => Some(Queue)
    case SendWantsState(r) => Some(State(r))
    case _ => None
  }

  predicate Holds(pc: Pc, m: Mutex) {
    match m
    case Queue => pc.InQueue? || pc.SendWantsState? || pc.InBoth?
    case State(r) => pc == InState(r) || pc == WantsQueueToo(r) || pc == InBoth(r)
  }

  predicate Exists(s: Sys, m: Mutex) {
    m.State? ==> m.r < |s.states|
  }

  function Owner(s: Sys, m: Mutex): Option<nat>
    requires Exists(s, m)
  {
    match m
    case Queue => s.queue
    case State(r) => s.states[r]
  }

  function SetOwner(s: Sys, m: Mutex, owner: Option<nat>): Sys
    requires Exists(s, m)
  {
    match m
    case Queue => s.(queue := owner)
    case State(r) => s.(states := s.states[r := owner])
  }

  /** A client works on its own request, and only clients send. */
  predicate MayBegin(s: Sys, t: nat, pc: Pc) {
    match pc
    case WantsQueue => true
    case WantsState(r) => r < |s.states| && (t == LOOP || t == r + 1)
    case SendWantsQueue(r) => t == r + 1
    case _ => false
  }

  predicate Enabled(s: Sys, e: Event)
    requires Shaped(s)
  {
    e.t < |s.pcs| &&
    match e
    case Begin(t, pc) => s.pcs[t].Away? && MayBegin(s, t, pc)
    case Lock(t) =>
      var m := Wanted(s.pcs[t]);
      m.Some? && Exists(s, m.value) && Owner(s, m.value).None?
    case More(t) => s.pcs[t].InState?
    case End(t) => s.pcs[t].InQueue? || ((s.pcs[t].InState? || s.pcs[t].InBoth?) && s.pcs[t].r < |s.states|)
  }

  /** Where a thread stands behind the mutex that it waited for. */
  function Locked(pc: Pc): Pc {
    match pc
    case WantsQueue => InQueue
    case WantsState(r) => InState(r)
    case WantsQueueToo(r) => InBoth(r)
    case SendWantsQueue(r) => SendWantsState(r)
    case SendWantsState(r) => InBoth(r)
    case _ => pc
  }

  function Apply(s: Sys, e: Event): (u: Sys)
    requires Shaped(s) && Enabled(s, e)
    ensures Shaped(u) && |u.pcs| == |s.pcs|
  {
    match e
    case Begin(t, pc) => s.(pcs := s.pcs[t := pc])
    case Lock(t) => SetOwner(s, Wanted(s.pcs[t]).value, Some(t)).(pcs := s.pcs[t := Locked(s.pcs[t])])
    case More(t) => s.(pcs := s.pcs[t := WantsQueueToo(s.pcs[t].r)])
    case End(t) =>
      var u := if s.pcs[t].InState? || s.pcs[t].InBoth? then SetOwner(s, State(s.pcs[t].r), None) else s;
      (if s.pcs[t].InState? then u else SetOwner(u, Queue, None)).(pcs := s.pcs[t := Away])
  }

  predicate Run(s: Sys, events: seq<Event>, u: Sys)
    requires Shaped(s)
    decreases |events|
  {
    if events == [] then s == u else Enabled(s, events[0]) && Run(Apply(s, events[0]), events[1..], u)
  }

  function Start(requests: nat): Sys {
    Sys(seq(requests + 1, _ => Away), None, seq(requests, _ => None))
  }

  /** The request that a thread works on exists, and is a client's own; only clients send. */
  predicate PcOk(s: Sys, t: nat)
    requires t < |s.pcs|
  {
    match s.pcs[t]
    case WantsState(r) => r < |s.states| && (t == LOOP || t == r + 1)
    case InState(r) => r < |s.states| && (t == LOOP || t == r + 1)
    case WantsQueueToo(r) => r < |s.states| && (t == LOOP || t == r + 1)
    case InBoth(r) => r < |s.states| && (t == LOOP || t == r + 1)
    case SendWantsQueue(r) => t == r + 1
    case SendWantsState(r) => t == r + 1
    case _ => true
  }

  /** Each mutex is owned exactly by the thread that stands between its lock and its release. */
  predicate Inv(s: Sys) {
    && Shaped(s)
    && (forall t | 0 <= t < |s.pcs| :: PcOk(s, t))
    && OwnerOk(s, Queue)
    && (forall r | 0 <= r < |s.states| :: OwnerOk(s, State(r)))
  }

  predicate OwnerOk(s: Sys, m: Mutex)
    requires Exists(s, m)
  {
    && (Owner(s, m).Some? ==> Owner(s, m).value < |s.pcs|)
    && (forall t | 0 <= t < |s.pcs| :: Owner(s, m) == Some(t) <==> Holds(s.pcs[t], m))
  }

  lemma StepKeeps(s: Sys, e: Event)
    requires Inv(s) && Enabled(s, e)
    ensures Inv(Apply(s, e))
  {
    var u := Apply(s, e);
    forall t | 0 <= t < |u.pcs| ensures PcOk(u, t) {
      assert PcOk(s, t) && PcOk(s, e.t);
      assert |u.states| == |s.states|;
    }
    StepKeepsOwner(s, e, Queue);
    forall r | 0 <= r < |u.states| ensures OwnerOk(u, State(r)) {
      StepKeepsOwner(s, e, State(r));
    }
    hide Apply, Enabled, PcOk, OwnerOk;
  }

  lemma StepKeepsOwner(s: Sys, e: Event, m: Mutex)
    requires Inv(s) && Enabled(s, e) && Exists(s, m)
    ensures OwnerOk(Apply(s, e), m)
  {
    assert PcOk(s, e.t) && OwnerOk(s, m) && Shaped(s);
    hide Inv, PcOk;
    var u := Apply(s, e);
    assert forall t | 0 <= t < |s.pcs| && t != e.t :: u.pcs[t] == s.pcs[t];
    match e {
      case Begin(_, _) =>
      case Lock(_) =>
      case More(_) =>
      case End(_) =>
    }
  }

  lemma {:induction false} RunKeeps(s: Sys, events: seq<Event>, u: Sys)
    requires Inv(s) && Run(s, events, u)
    ensures Inv(u) && |u.pcs| == |s.pcs|
    decreases |events|
  {
    if events != [] {
      StepKeeps(s, events[0]);
      RunKeeps(Apply(s, events[0]), events[1..], u);
    }
  }

  /** The loop's thread, with the state of a request locked, waits for the queue, while the request's sender, with the
      queue locked, waits for the state. */
  predicate BlockEachOther(s: Sys, r: nat) {
    r + 1 < |s.pcs| && s.pcs[LOOP] == WantsQueueToo(r) && s.pcs[r + 1] == SendWantsState(r)
  }

  lemma {:induction false} BlockedForEver(s: Sys, events: seq<Event>, u: Sys, r: nat)
    requires Inv(s) && Run(s, events, u) && BlockEachOther(s, r)
    ensures BlockEachOther(u, r)
    decreases |events|
  {
    if events != [] {
      StepKeeps(s, events[0]);
      assert OwnerOk(s, Queue) && OwnerOk(s, State(r));
      assert s.queue == Some(r + 1) && s.states[r] == Some(LOOP);
      assert PcOk(s, LOOP) && PcOk(s, r + 1);
      BlockedForEver(Apply(s, events[0]), events[1..], u, r);
    }
  }

  /** Some run lets thread `t` go on from `pc`. */
  ghost predicate CanGoOn(s: Sys, t: nat, pc: Pc)
    requires Shaped(s)
  {
    exists events, u :: Run(s, events, u) && t < |u.pcs| && u.pcs[t] != pc
  }

  lemma StepBack(s: Sys, e: Event, t: nat, pc: Pc)
    requires Shaped(s) && Enabled(s, e) && CanGoOn(Apply(s, e), t, pc)
    ensures CanGoOn(s, t, pc)
  {
    var events, u :| Run(Apply(s, e), events, u) && t < |u.pcs| && u.pcs[t] != pc;
    var longer := [e] + events;
    assert longer[1..] == events;
    assert Run(s, longer, u);
  }

  /** Threads of which each waits for the next; the last does not wait, or for a mutex that is free. */
  predicate Chain(s: Sys, c: seq<nat>) {
    && c != [] && (forall i | 0 <= i < |c| :: c[i] < |s.pcs|)
    && (forall i | 0 <= i < |c| :: Wanted(s.pcs[c[i]]).Some? ==> Exists(s, Wanted(s.pcs[c[i]]).value))
    && (forall i | 0 <= i < |c| - 1 ::
          Wanted(s.pcs[c[i]]).Some? && Owner(s, Wanted(s.pcs[c[i]]).value) == Some(c[i + 1]))
    && (Wanted(s.pcs[c[|c| - 1]]).Some? ==> Owner(s, Wanted(s.pcs[c[|c| - 1]]).value).None?)
  }

  predicate EndsWaiting(s: Sys, c: seq<nat>)
    requires Chain(s, c)
  {
    Wanted(s.pcs[c[|c| - 1]]).Some?
  }

  lemma LockTakes(s: Sys, t: nat)
    requires Inv(s) && Enabled(s, Lock(t))
    ensures var u := Apply(s, Lock(t));
      && u.pcs == s.pcs[t := Locked(s.pcs[t])]
      && forall m: Mutex | Exists(s, m) ::
           Exists(u, m) && Owner(u, m) == if Wanted(s.pcs[t]) == Some(m) then Some(t) else Owner(s, m)
  {
  }

  lemma EndFrees(s: Sys, t: nat)
    requires Inv(s) && Enabled(s, End(t))
    ensures var u := Apply(s, End(t));
      && u.pcs == s.pcs[t := Away]
      && forall m: Mutex | Exists(s, m) ::
           Exists(u, m) && Owner(u, m) == if Owner(s, m) == Some(t) then None else Owner(s, m)
  {
    var u := Apply(s, End(t));
    assert PcOk(s, t);
    forall m: Mutex | Exists(s, m)
      ensures Exists(u, m) && Owner(u, m) == if Owner(s, m) == Some(t) then None else Owner(s, m)
    {
      assert OwnerOk(s, m);
    }
    hide Inv;
  }

  /** The last thread of a chain gets its mutex: then it does not wait any more. */
  lemma LastLocks(s: Sys, c: seq<nat>)
    requires Inv(s) && Chain(s, c) && EndsWaiting(s, c) && |c| > 1
    ensures var z := c[|c| - 1];
      && z != c[0] && Enabled(s, Lock(z))
      && Chain(Apply(s, Lock(z)), c) && !EndsWaiting(Apply(s, Lock(z)), c)
  {
    var z := c[|c| - 1];
    LockTakes(s, z);
    HolderStands(s, z, Wanted(s.pcs[c[|c| - 2]]).value);
    hide Inv, Apply, Owner, PcOk;
    var u := Apply(s, Lock(z));
    forall i | 0 <= i < |c| - 1 ensures c[i] != z && u.pcs[c[i]] == s.pcs[c[i]] {
      assert Owner(s, Wanted(s.pcs[c[i]]).value) == Some(c[i + 1]);
    }
  }

  /** A mutex's owner waits only between two locks. */
  lemma HolderStands(s: Sys, t: nat, m: Mutex)
    requires Inv(s) && Exists(s, m) && Owner(s, m) == Some(t)
    ensures t < |s.pcs|
    ensures Wanted(s.pcs[t]).Some? ==> Wanted(Locked(s.pcs[t])).None?
    ensures Wanted(s.pcs[t]).None? ==> Enabled(s, End(t))
  {
    assert OwnerOk(s, m);
    assert PcOk(s, t);
  }

  /** The last thread of a chain does not wait: it releases what it holds. */
  lemma LastEnds(s: Sys, c: seq<nat>)
    requires Inv(s) && Chain(s, c) && !EndsWaiting(s, c) && |c| > 1
    ensures var z := c[|c| - 1];
      && z != c[0] && Enabled(s, End(z))
      && Chain(Apply(s, End(z)), c[..|c| - 1]) && EndsWaiting(Apply(s, End(z)), c[..|c| - 1])
  {
    var z := c[|c| - 1];
    HolderStands(s, z, Wanted(s.pcs[c[|c| - 2]]).value);
    EndFrees(s, z);
    hide Inv, Apply, Owner, PcOk, Enabled;
    var u := Apply(s, End(z));
    assert forall i | 0 <= i < |c| - 1 :: c[i] != z && u.pcs[c[i]] == s.pcs[c[i]];
  }

  /** The first thread of a chain can go on: the others do, from the last to the first. */
  lemma {:induction false} ChainGoesOn(s: Sys, c: seq<nat>)
    requires Inv(s) && Chain(s, c) && Wanted(s.pcs[c[0]]).Some?
    ensures CanGoOn(s, c[0], s.pcs[c[0]])
    decreases |c|, EndsWaiting(s, c)
  {
    var z := c[|c| - 1];
    if |c| == 1 {
      var u := Apply(s, Lock(z));
      assert Run(u, [], u);
      StepBack(s, Lock(z), z, s.pcs[z]);
    } else if EndsWaiting(s, c) {
      LastLocks(s, c);
      StepKeeps(s, Lock(z));
      ChainGoesOn(Apply(s, Lock(z)), c);
      StepBack(s, Lock(z), c[0], s.pcs[c[0]]);
    } else {
      LastEnds(s, c);
      StepKeeps(s, End(z));
      ChainGoesOn(Apply(s, End(z)), c[..|c| - 1]);
      StepBack(s, End(z), c[0], s.pcs[c[0]]);
    }
  }

  /** The owner of the mutex that a thread waits for, if that owner waits itself: it stands between two locks. */
  lemma OwnerWaits(s: Sys, t: nat)
    requires Inv(s) && t < |s.pcs| && Wanted(s.pcs[t]).Some?
    ensures var m := Wanted(s.pcs[t]).value;
      && Exists(s, m)
      && var owner := Owner(s, m);
         owner.Some? ==>
           && owner.value < |s.pcs| && owner.value != t && PcOk(s, owner.value)
           && var pc := s.pcs[owner.value];
              Wanted(pc).Some? ==> if m.Queue? then pc.SendWantsState? else pc == WantsQueueToo(m.r)
  {
    assert PcOk(s, t);
    var m := Wanted(s.pcs[t]).value;
    var owner := Owner(s, m);
    if owner.Some? {
      assert PcOk(s, owner.value) && Holds(s.pcs[owner.value], m);
      assert !Holds(s.pcs[t], m);
    }
  }

  /** The owner of the state that a sender waits for does not wait, unless the two block each other. */
  lemma SenderIsLetOn(s: Sys, t: nat)
    requires Inv(s) && t < |s.pcs| && s.pcs[t].SendWantsState?
    requires forall r | 0 <= r < |s.states| :: !BlockEachOther(s, r)
    ensures Exists(s, State(s.pcs[t].r))
    ensures var owner := Owner(s, State(s.pcs[t].r));
      owner.Some? ==> owner.value < |s.pcs| && Wanted(s.pcs[owner.value]).None?
  {
    assert PcOk(s, t);
    OwnerWaits(s, t);
    assert !BlockEachOther(s, s.pcs[t].r);
  }

  /** Unless the loop's thread and a sender block each other, every waiting thread heads a chain. */
  lemma ChainOf(s: Sys, t: nat) returns (c: seq<nat>)
    requires Inv(s) && t < |s.pcs| && Wanted(s.pcs[t]).Some?
    requires forall r | 0 <= r < |s.states| :: !BlockEachOther(s, r)
    ensures Chain(s, c) && c[0] == t
  {
    OwnerWaits(s, t);
    var w := Owner(s, Wanted(s.pcs[t]).value);
    if w.None? {
      return [t];
    }
    if Wanted(s.pcs[w.value]).None? {
      return [t, w.value];
    }
    OwnerWaits(s, w.value);
    var x := Owner(s, Wanted(s.pcs[w.value]).value);
    if x.None? {
      return [t, w.value];
    }
    if Wanted(s.pcs[x.value]).None? {
      return [t, w.value, x.value];
    }
    if s.pcs[w.value].SendWantsState? {
      SenderIsLetOn(s, w.value);
      assert false;
    }
    SenderIsLetOn(s, x.value);
    var y := Owner(s, State(s.pcs[x.value].r));
    return if y.None? then [t, w.value, x.value] else [t, w.value, x.value, y.value];
  }

  /** In every run of any number of clients with the loop: every waiting thread can go on, exactly unless the loop's
      thread and a sender block each other. */
  lemma WaitersGoOnIff(requests: nat, events: seq<Event>, s: Sys)
    requires Run(Start(requests), events, s)
    ensures Shaped(s)
    ensures (forall t | 0 <= t < |s.pcs| && Wanted(s.pcs[t]).Some? :: CanGoOn(s, t, s.pcs[t])) <==>
            (forall r | 0 <= r < |s.states| :: !BlockEachOther(s, r))
  {
    assert Inv(Start(requests));
    RunKeeps(Start(requests), events, s);
    if forall r | 0 <= r < |s.states| :: !BlockEachOther(s, r) {
      forall t | 0 <= t < |s.pcs| && Wanted(s.pcs[t]).Some? ensures CanGoOn(s, t, s.pcs[t]) {
        var c := ChainOf(s, t);
        ChainGoesOn(s, c);
      }
    } else {
      var r :| 0 <= r < |s.states| && BlockEachOther(s, r);
      if CanGoOn(s, LOOP, s.pcs[LOOP]) {
        var later, u :| Run(s, later, u) && LOOP < |u.pcs| && u.pcs[LOOP] != s.pcs[LOOP];
        BlockedForEver(s, later, u, r);
      }
    }
  }

  /** They come to block each other exactly when the loop's query of a request fails while the request's sender stands
      between its two locks, or when the sender locks the queue while the loop stands between its own. */
  lemma BlockBeginsIff(requests: nat, events: seq<Event>, s: Sys, e: Event, r: nat)
    requires Run(Start(requests), events, s) && Shaped(s) && Enabled(s, e) && r < |s.states| && !BlockEachOther(s, r)
    ensures BlockEachOther(Apply(s, e), r) <==>
            (e == More(LOOP) && s.pcs[LOOP] == InState(r) && s.pcs[r + 1] == SendWantsState(r)) ||
            (e == Lock(r + 1) && s.pcs[LOOP] == WantsQueueToo(r) && s.pcs[r + 1] == SendWantsQueue(r))
  {
    assert Inv(Start(requests));
    RunKeeps(Start(requests), events, s);
    assert PcOk(s, LOOP) && PcOk(s, r + 1);
    hide Inv;
    var u := Apply(s, e);
    assert e.t != LOOP ==> u.pcs[LOOP] == s.pcs[LOOP];
    assert e.t != r + 1 ==> u.pcs[r + 1] == s.pcs[r + 1];
    hide SetOwner, Owner;
    if e.t != LOOP && e.t != r + 1 {
      hide Apply;
    }
  }

  /** Some run makes the loop's thread and the request's sender block each other. */
  ghost predicate CanBlock(s: Sys, r: nat)
    requires Shaped(s)
  {
    exists events, u :: Run(s, events, u) && BlockEachOther(u, r)
  }

  lemma BlockStepBack(s: Sys, e: Event, r: nat)
    requires Shaped(s) && Enabled(s, e) && CanBlock(Apply(s, e), r)
    ensures CanBlock(s, r)
  {
    var events, u :| Run(Apply(s, e), events, u) && BlockEachOther(u, r);
    var longer := [e] + events;
    assert longer[1..] == events;
    assert Run(s, longer, u);
  }

  lemma BetweenCanBlock(s: Sys, r: nat)
    requires Shaped(s) && r < |s.states| && s.pcs[LOOP] == InState(r) && s.pcs[r + 1] == SendWantsState(r)
    ensures CanBlock(s, r)
  {
    var u := Apply(s, More(LOOP));
    assert Run(u, [], u) && BlockEachOther(u, r);
    BlockStepBack(s, More(LOOP), r);
  }

  lemma QueryCanBlock(s: Sys, r: nat)
    requires Shaped(s) && r < |s.states| && s.queue.None? && s.pcs[LOOP] == InState(r) && s.pcs[r + 1] == Away
    ensures CanBlock(s, r)
  {
    hide CanBlock, Run;
    var e := Begin(r + 1, SendWantsQueue(r));
    var sending := Apply(s, e);
    BetweenCanBlock(Apply(sending, Lock(r + 1)), r);
    BlockStepBack(sending, Lock(r + 1), r);
    BlockStepBack(s, e, r);
  }

  /** Such runs: with any number of requests, any of them can. */
  lemma FailedQueryBlocks(requests: nat, r: nat)
    requires r < requests
    ensures CanBlock(Start(requests), r)
  {
    hide CanBlock, Run;
    var s, e := Start(requests), Begin(LOOP, WantsState(r));
    var asked := Apply(s, e);
    QueryCanBlock(Apply(asked, Lock(LOOP)), r);
    BlockStepBack(asked, Lock(LOOP), r);
    BlockStepBack(s, e, r);
  }
}
