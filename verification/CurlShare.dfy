/** The locks of curl's share handle: seven mutexes, and for each a second one around the slot that stores its guard. */
module CurlShare {
  import opened Bytes

  const SLOTS: nat := 7

  /** The slot of a lock datum: 6 (public suffixes) and 7 (HSTS) share the last. */
  function SlotOf(data: nat): (k: nat)
    ensures k < SLOTS
  {
    Min(data, SLOTS - 1)
  }

  /** Where a thread stands in `lock_function` or `unlock_function`. */
  datatype Pc =
    | Outside
    | WantsMain(data: nat)
    | WantsSlot(data: nat)    // holds the main mutex
    | Checking(data: nat)     // holds the main mutex and the slot's
    | Storing(data: nat)      // has put the main guard into the slot, and holds the slot's mutex
    | WantsToTake(data: nat)  // in `unlock_function`
    | Taking(data: nat)       // holds the slot's mutex
    | Dropping(data: nat)     // has dropped the main guard, and holds the slot's mutex
    | Panicked

  /** One pair of mutexes: the thread whose `lock_function` locked the main one, the holder of the slot's mutex,
      and whether the main guard is stored. */
  datatype Pair = Pair(main: Option<nat>, slot: Option<nat>, stored: bool)

  /** The share, the threads, and the data each thread has locked and not yet begun to unlock. */
  datatype Share = Share(pairs: seq<Pair>, pcs: seq<Pc>, held: seq<set<nat>>)

  datatype Event =
    | CallLock(t: nat, data: nat)
    | CallUnlock(t: nat, data: nat)
    | LockMain(t: nat)
    | LockSlot(t: nat)
    | Store(t: nat)
    | Take(t: nat)
    | UnlockSlot(t: nat)

  predicate Shaped(s: Share) {
    |s.pairs| == SLOTS && |s.held| == |s.pcs|
  }

  /** A thread may lock any datum, one that it holds included; it unlocks only what it has locked. */
  predicate Enabled(s: Share, e: Event)
    requires Shaped(s)
  {
    e.t < |s.pcs| &&
    var pc := s.pcs[e.t];
    match e
    case CallLock(_, data) => pc.Outside?
    case CallUnlock(_, data) => pc.Outside? && data in s.held[e.t]
    case LockMain(_) => pc.WantsMain? && s.pairs[SlotOf(pc.data)].main.None?
    case LockSlot(_) => (pc.WantsSlot? || pc.WantsToTake?) && s.pairs[SlotOf(pc.data)].slot.None?
    case Store(_) => pc.Checking?
    case Take(_) => pc.Taking?
    case UnlockSlot(_) => pc.Storing? || pc.Dropping?
  }

  function Apply(s: Share, e: Event): (t: Share)
    requires Shaped(s) && Enabled(s, e)
    ensures Shaped(t) && |t.pcs| == |s.pcs|
  {
    var pc := s.pcs[e.t];
    match e
    case CallLock(t, data) => s.(pcs := s.pcs[t := WantsMain(data)])
    case CallUnlock(t, data) => s.(pcs := s.pcs[t := WantsToTake(data)], held := s.held[t := s.held[t] - {data}])
    case LockMain(t) =>
      var k := SlotOf(pc.data);
      s.(pairs := s.pairs[k := s.pairs[k].(main := Some(t))], pcs := s.pcs[t := WantsSlot(pc.data)])
    case LockSlot(t) =>
      var k := SlotOf(pc.data);
      s.(pairs := s.pairs[k := s.pairs[k].(slot := Some(t))],
         pcs := s.pcs[t := if pc.WantsSlot? then Checking(pc.data) else Taking(pc.data)])
    case Store(t) =>
      var k := SlotOf(pc.data);
      if s.pairs[k].stored then s.(pcs := s.pcs[t := Panicked])
      else s.(pairs := s.pairs[k := s.pairs[k].(stored := true)], pcs := s.pcs[t := Storing(pc.data)])
    case Take(t) =>
      var k := SlotOf(pc.data);
      var p := s.pairs[k];
      s.(pairs := s.pairs[k := if p.stored then p.(stored := false, main := None) else p],
          pcs := s.pcs[t := Dropping(pc.data)])
    case UnlockSlot(t) =>
      var k := SlotOf(pc.data);
      s.(pairs := s.pairs[k := s.pairs[k].(slot := None)], pcs := s.pcs[t := Outside],
         held := if pc.Storing? then s.held[t := s.held[t] + {pc.data}] else s.held)
  }

  function Start(threads: nat): Share {
    Share(seq(SLOTS, _ => Pair(None, None, false)), seq(threads, _ => Outside), seq(threads, _ => {}))
  }

  /** The thread is behind `main_mutex.lock()` and has not stored its guard. */
  predicate Carries(pc: Pc, k: nat) {
    (pc.WantsSlot? || pc.Checking?) && SlotOf(pc.data) == k
  }

  /** The thread's guard is stored, and it is still in `lock_function` or already in `unlock_function`. */
  predicate Leaves(pc: Pc, k: nat) {
    (pc.Storing? || pc.WantsToTake? || pc.Taking?) && SlotOf(pc.data) == k
  }

  predicate InSlot(pc: Pc, k: nat) {
    (pc.Checking? || pc.Storing? || pc.Taking? || pc.Dropping?) && SlotOf(pc.data) == k
  }

  predicate Holds(s: Share, t: nat, k: nat)
    requires Shaped(s) && t < |s.pcs|
  {
    exists data | data in s.held[t] :: SlotOf(data) == k
  }

  /** The main mutex of slot `k` has an owner exactly when one thread carries its guard, or has stored it and holds a
      datum of the slot or is on its way in or out. */
  predicate ThreadOk(s: Share, t: nat, k: nat)
    requires Shaped(s) && t < |s.pcs| && k < SLOTS
  {
    var p, pc := s.pairs[k], s.pcs[t];
    && !pc.Panicked?
    && (p.main == Some(t) <==> Carries(pc, k) || Leaves(pc, k) || Holds(s, t, k))
    && (Carries(pc, k) ==> !p.stored)
    && (Leaves(pc, k) || Holds(s, t, k) ==> p.stored)
    && (p.slot == Some(t) <==> InSlot(pc, k))
    && (Leaves(pc, k) ==> !Holds(s, t, k))
    && (forall a, b | a in s.held[t] && b in s.held[t] && SlotOf(a) == k == SlotOf(b) :: a == b)
  }

  predicate Inv(s: Share) {
    && Shaped(s)
    && (forall t, k | 0 <= t < |s.pcs| && 0 <= k < SLOTS :: ThreadOk(s, t, k))
    && (forall k | 0 <= k < SLOTS ::
          (s.pairs[k].stored ==> s.pairs[k].main.Some?) && (s.pairs[k].main.Some? ==> s.pairs[k].main.value < |s.pcs|))
  }

  /** The slot that a step touches. */
  function Touched(s: Share, e: Event): (k: nat)
    requires Shaped(s) && Enabled(s, e)
    ensures k < SLOTS
  {
    match e
    case CallLock(_, data) => SlotOf(data)
    case CallUnlock(_, data) => SlotOf(data)
    case _ => SlotOf(s.pcs[e.t].data)
  }

  lemma StepKeepsOthers(s: Share, e: Event, u: nat, k: nat)
    requires Inv(s) && Enabled(s, e) && u < |s.pcs| && u != e.t && k < SLOTS
    ensures ThreadOk(Apply(s, e), u, k)
  {
    assert ThreadOk(s, u, k);
    assert ThreadOk(s, e.t, k);
    assert Shaped(s) && Enabled(s, e) && (s.pairs[k].stored ==> s.pairs[k].main.Some?);
    hide Inv;
    var t := Apply(s, e);
    assert t.held[u] == s.held[u] && t.pcs[u] == s.pcs[u];
    assert Holds(t, u, k) <==> Holds(s, u, k);
    hide Holds;
  }

  lemma MutexStepKeepsItself(s: Share, e: Event, k: nat)
    requires Inv(s) && Enabled(s, e) && k < SLOTS && !e.CallUnlock? && !e.UnlockSlot?
    ensures ThreadOk(Apply(s, e), e.t, k)
  {
    assert ThreadOk(s, e.t, k);
    assert ThreadOk(s, e.t, Touched(s, e));
    assert Shaped(s) && Enabled(s, e) && (s.pairs[k].stored ==> s.pairs[k].main.Some?);
    hide Inv;
    var t := Apply(s, e);
    assert t.held == s.held;
    assert Holds(t, e.t, k) <==> Holds(s, e.t, k);
    hide Holds;
  }

  lemma CallUnlockKeepsItself(s: Share, e: Event, k: nat)
    requires Inv(s) && Enabled(s, e) && k < SLOTS && e.CallUnlock?
    ensures ThreadOk(Apply(s, e), e.t, k)
  {
    assert ThreadOk(s, e.t, k);
    assert Shaped(s) && Enabled(s, e);
    hide Inv;
    var t := Apply(s, e);
    assert Holds(s, e.t, SlotOf(e.data));
    assert k != SlotOf(e.data) ==> (Holds(t, e.t, k) <==> Holds(s, e.t, k));
    assert k == SlotOf(e.data) ==> !Holds(t, e.t, k);
    hide Holds;
  }

  lemma UnlockSlotKeepsItself(s: Share, e: Event, k: nat)
    requires Inv(s) && Enabled(s, e) && k < SLOTS && e.UnlockSlot?
    ensures ThreadOk(Apply(s, e), e.t, k)
  {
    assert ThreadOk(s, e.t, k);
    assert Shaped(s) && Enabled(s, e);
    hide Inv;
    var t, data := Apply(s, e), s.pcs[e.t].data;
    assert s.pcs[e.t].Storing? ==> data in t.held[e.t];
    assert Holds(t, e.t, k) <==> Holds(s, e.t, k) || (s.pcs[e.t].Storing? && SlotOf(data) == k);
  }

  lemma StepKeeps(s: Share, e: Event)
    requires Inv(s) && Enabled(s, e)
    ensures Inv(Apply(s, e))
  {
    var t := Apply(s, e);
    forall u, k | 0 <= u < |t.pcs| && 0 <= k < SLOTS ensures ThreadOk(t, u, k) {
      if u == e.t {
        if e.CallUnlock? {
          CallUnlockKeepsItself(s, e, k);
        } else if e.UnlockSlot? {
          UnlockSlotKeepsItself(s, e, k);
        } else {
          MutexStepKeepsItself(s, e, k);
        }
      } else {
        StepKeepsOthers(s, e, u, k);
      }
    }
    assert ThreadOk(s, e.t, Touched(s, e));
    hide ThreadOk;
  }

  predicate Run(s: Share, events: seq<Event>, t: Share)
    requires Shaped(s)
    decreases |events|
  {
    if events == [] then s == t
    else Enabled(s, events[0]) && Run(Apply(s, events[0]), events[1..], t)
  }

  lemma {:induction false} RunKeeps(s: Share, events: seq<Event>, t: Share)
    requires Inv(s) && Run(s, events, t)
    ensures Inv(t)
    decreases |events|
  {
    if events != [] {
      StepKeeps(s, events[0]);
      RunKeeps(Apply(s, events[0]), events[1..], t);
    }
  }

  lemma StartInv(threads: nat)
    ensures Inv(Start(threads))
  {
    var s := Start(threads);
    forall t, k | 0 <= t < threads && 0 <= k < SLOTS ensures ThreadOk(s, t, k) {
    }
  }

  lemma HoldersDiffer(s: Share, t: nat, u: nat, a: nat, b: nat)
    requires Inv(s) && t < |s.pcs| && u < |s.pcs| && a in s.held[t] && b in s.held[u] && SlotOf(a) == SlotOf(b)
    ensures t == u && a == b
  {
    assert ThreadOk(s, t, SlotOf(a)) && ThreadOk(s, u, SlotOf(a));
    assert Holds(s, t, SlotOf(a)) && Holds(s, u, SlotOf(a));
  }

  lemma NobodyHoldsNothingStored(s: Share, k: nat)
    requires Inv(s) && k < SLOTS && forall t | 0 <= t < |s.pcs| :: s.pcs[t].Outside? && s.held[t] == {}
    ensures !s.pairs[k].stored && s.pairs[k].main.None?
  {
    forall t | 0 <= t < |s.pcs| ensures s.pairs[k].main != Some(t) {
      assert ThreadOk(s, t, k);
      assert s.pcs[t].Outside? && s.held[t] == {};
    }
  }

  /** For any number of threads and any interleaving: no thread panics, two threads never hold data of one slot, and
      when no thread holds a datum or is inside a call, no slot holds a guard, as the share's drop demands. */
  lemma LocksExclude(threads: nat, events: seq<Event>, s: Share)
    requires Run(Start(threads), events, s)
    ensures Shaped(s)
    ensures forall t | 0 <= t < |s.pcs| :: !s.pcs[t].Panicked?
    ensures forall t, u, a, b | 0 <= t < |s.pcs| && 0 <= u < |s.pcs| && a in s.held[t] && b in s.held[u] ::
              SlotOf(a) == SlotOf(b) ==> t == u && a == b
    ensures (forall t | 0 <= t < |s.pcs| :: s.pcs[t].Outside? && s.held[t] == {}) ==>
              forall k | 0 <= k < SLOTS :: !s.pairs[k].stored && s.pairs[k].main.None?
  {
    StartInv(threads);
    RunKeeps(Start(threads), events, s);
    forall t | 0 <= t < |s.pcs| ensures !s.pcs[t].Panicked? {
      assert ThreadOk(s, t, 0);
    }
    forall t, u, a, b | 0 <= t < |s.pcs| && 0 <= u < |s.pcs| && a in s.held[t] && b in s.held[u] &&
        SlotOf(a) == SlotOf(b)
      ensures t == u && a == b
    {
      HoldersDiffer(s, t, u, a, b);
    }
    if forall t | 0 <= t < |s.pcs| :: s.pcs[t].Outside? && s.held[t] == {} {
      forall k | 0 <= k < SLOTS ensures !s.pairs[k].stored && s.pairs[k].main.None? {
        NobodyHoldsNothingStored(s, k);
      }
    }
  }

  /** A thread that waits for the main mutex of a slot of which it holds a datum waits for itself. */
  predicate WaitsForItself(s: Share, t: nat) {
    && Shaped(s) && t < |s.pcs| && s.pcs[t].WantsMain?
    && s.pairs[SlotOf(s.pcs[t].data)].main == Some(t) && Holds(s, t, SlotOf(s.pcs[t].data))
  }

  /** In every state that threads reach, a step makes a thread wait for itself exactly when the thread calls
      `lock_function` for a datum whose slot it holds a datum of: the same datum, or, as only data from 6 upwards
      share a slot, two of those. */
  lemma WaitsForItselfIff(threads: nat, events: seq<Event>, s: Share, e: Event, t: nat)
    requires Run(Start(threads), events, s) && Shaped(s) && Enabled(s, e) && t < |s.pcs| && !WaitsForItself(s, t)
    ensures WaitsForItself(Apply(s, e), t) <==>
            e.CallLock? && e.t == t && exists held | held in s.held[t] :: SlotOf(held) == SlotOf(e.data)
    ensures forall a: nat, b: nat :: SlotOf(a) == SlotOf(b) <==> a == b || (a >= 6 && b >= 6)
  {
    StartInv(threads);
    RunKeeps(Start(threads), events, s);
    StepSelfWaitIff(s, e, t);
  }

  lemma StepSelfWaitIff(s: Share, e: Event, t: nat)
    requires Inv(s) && Enabled(s, e) && t < |s.pcs| && !WaitsForItself(s, t)
    ensures WaitsForItself(Apply(s, e), t) <==>
            e.CallLock? && e.t == t && exists held | held in s.held[t] :: SlotOf(held) == SlotOf(e.data)
  {
    var u := Apply(s, e);
    if e.t == t && e.CallLock? {
      assert ThreadOk(s, t, SlotOf(e.data));
      assert u.held[t] == s.held[t];
    } else if s.pcs[t].WantsMain? && e.t != t {
      var k := SlotOf(s.pcs[t].data);
      assert u.pcs[t] == s.pcs[t] && u.held[t] == s.held[t];
      assert Holds(u, t, k) <==> Holds(s, t, k);
      assert ThreadOk(s, t, k);
    }
  }

  lemma {:induction false} RunAppend(s: Share, events: seq<Event>, t: Share, e: Event)
    requires Shaped(s) && Run(s, events, t) && Shaped(t) && Enabled(t, e)
    ensures Run(s, events + [e], Apply(t, e))
    decreases |events|
  {
    if events == [] {
      assert [e][1..] == [];
    } else {
      RunAppend(Apply(s, events[0]), events[1..], t, e);
      assert (events + [e])[1..] == events[1..] + [e];
    }
  }

  ghost predicate Reachable(threads: nat, s: Share) {
    exists events :: Run(Start(threads), events, s)
  }

  lemma Step(threads: nat, s: Share, e: Event, t: Share)
    requires Reachable(threads, s) && Shaped(s) && Enabled(s, e) && Apply(s, e) == t
    ensures Reachable(threads, t)
  {
    var events :| Run(Start(threads), events, s);
    RunAppend(Start(threads), events, s, e);
  }

  /** One thread, and its slot's pair of mutexes. */
  function One(data: nat, pair: Pair, pc: Pc, held: set<nat>): Share {
    Share(Start(1).pairs[SlotOf(data) := pair], [pc], [held])
  }

  const FREE := Pair(None, None, false)

  /** A thread alone calls for a datum and locks the main mutex. */
  lemma OneEnters(data: nat)
    ensures Reachable(1, One(data, Pair(Some(0), None, false), WantsSlot(data), {}))
  {
    assert Run(Start(1), [], Start(1));
    assert One(data, FREE, Outside, {}) == Start(1);
    Step(1, One(data, FREE, Outside, {}), CallLock(0, data), One(data, FREE, WantsMain(data), {}));
    Step(1, One(data, FREE, WantsMain(data), {}), LockMain(0),
        One(data, Pair(Some(0), None, false), WantsSlot(data), {}));
  }

  lemma OneLocks(data: nat)
    ensures Reachable(1, One(data, Pair(Some(0), None, true), Outside, {data}))
  {
    OneEnters(data);
    var checking := One(data, Pair(Some(0), Some(0), false), Checking(data), {});
    Step(1, One(data, Pair(Some(0), None, false), WantsSlot(data), {}), LockSlot(0), checking);
    var storing := One(data, Pair(Some(0), Some(0), true), Storing(data), {});
    Step(1, checking, Store(0), storing);
    assert {} + {data} == {data};
    Step(1, storing, UnlockSlot(0), One(data, Pair(Some(0), None, true), Outside, {data}));
  }

  /** Such a run: one thread locks a datum twice. */
  lemma SameLockWaitsForItself(data: nat)
    ensures exists s :: Reachable(1, s) && WaitsForItself(s, 0) && s.pcs[0] == WantsMain(data) && data in s.held[0]
  {
    OneLocks(data);
    var s := One(data, Pair(Some(0), None, true), Outside, {data});
    var t := s.(pcs := [WantsMain(data)]);
    Step(1, s, CallLock(0, data), t);
    assert data in t.held[0] && WaitsForItself(t, 0);
  }

  /** Another one: it locks 6 and then 7. */
  lemma AliasedLockWaitsForItself()
    ensures exists s :: Reachable(1, s) && WaitsForItself(s, 0)
  {
    OneLocks(6);
    var s := One(6, Pair(Some(0), None, true), Outside, {6});
    var t := s.(pcs := [WantsMain(7)]);
    Step(1, s, CallLock(0, 7), t);
    assert 6 in t.held[0] && SlotOf(6) == SlotOf(7) && WaitsForItself(t, 0);
  }

  /** A thread that waits for itself does so for ever, whatever the other threads do. */
  lemma {:induction false} WaitsForEver(s: Share, events: seq<Event>, u: Share, t: nat)
    requires Inv(s) && WaitsForItself(s, t) && Run(s, events, u)
    ensures WaitsForItself(u, t)
    decreases |events|
  {
    if events != [] {
      var e := events[0];
      var next := Apply(s, e);
      assert e.t != t;
      assert ThreadOk(s, e.t, SlotOf(s.pcs[t].data));
      assert Holds(next, t, SlotOf(s.pcs[t].data)) by {
        assert next.held[t] == s.held[t];
      }
      StepKeeps(s, e);
      WaitsForEver(next, events[1..], u, t);
    }
  }
}
