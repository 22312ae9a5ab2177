/** Waking a multi handle from other threads while its owner cleans it up.

    The pointer is cleared under the write lock before the handle is cleaned up, and a wakeup holds the read lock while
    it uses the pointer. */
module CurlWaker {
  /** Where a thread stands in `wakeup`. */
  datatype Caller =
    | Outside
    | Upgraded                    // holds a strong reference to the core
    | Reading                     // holds the read lock
    | Calling                     // has found the pointer, and is in `curl_multi_wakeup`
    | Answered(ok: bool, locked: bool)

  /** Where the owner stands in dropping the `WakeableMulti`. */
  datatype Owner = Using | Invalidating | Invalidated | CleanedUp | Finished

  datatype Waker = Waker(
    pointer: bool,         // whether the core still has the pointer
    readers: set<nat>,     // the threads that hold the read lock
    writing: bool,         // whether the owner holds the write lock
    callers: seq<Caller>,
    owner: Owner,
    calledDead: bool       // whether `curl_multi_wakeup` ever ran on a handle that was cleaned up
  )

  datatype Event =
    | Upgrade(t: nat)
    | LockRead(t: nat)
    | Look(t: nat)
    | Wakeup(t: nat, ok: bool)
    | UnlockRead(t: nat)
    | Release(t: nat)
    | LockWrite
    | Clear
    | Cleanup
    | DropCore

  /** The core lives while the owner or a caller holds it. */
  predicate CoreLives(s: Waker) {
    s.owner != Finished || exists t | 0 <= t < |s.callers| :: s.callers[t] != Outside
  }

  predicate Enabled(s: Waker, e: Event) {
    match e
    case Upgrade(t) => t < |s.callers| && s.callers[t].Outside?
    case LockRead(t) => t < |s.callers| && s.callers[t].Upgraded? && !s.writing
    case Look(t) => t < |s.callers| && s.callers[t].Reading?
    case Wakeup(t, _) => t < |s.callers| && s.callers[t].Calling?
    case UnlockRead(t) => t < |s.callers| && s.callers[t].Answered? && s.callers[t].locked
    case Release(t) => t < |s.callers| && s.callers[t].Answered? && !s.callers[t].locked
    case LockWrite => s.owner == Using && s.readers == {} && !s.writing
    case Clear => s.owner == Invalidating
    case Cleanup => s.owner == Invalidated
    case DropCore => s.owner == CleanedUp
  }

  function Set(s: Waker, t: nat, c: Caller): Waker
    requires t < |s.callers|
  {
    s.(callers := s.callers[t := c])
  }

  /** `upgrade` answers an error at once when the core is gone. */
  function Apply(s: Waker, e: Event): Waker
    requires Enabled(s, e)
  {
    match e
    case Upgrade(t) => Set(s, t, if CoreLives(s) then Upgraded else Answered(false, false))
    case LockRead(t) => Set(s, t, Reading).(readers := s.readers + {t})
    case Look(t) => Set(s, t, if s.pointer then Calling else Answered(false, true))
    case Wakeup(t, ok) =>
      Set(s, t, Answered(ok, true)).(calledDead := s.calledDead || s.owner == CleanedUp || s.owner == Finished)
    case UnlockRead(t) => Set(s, t, Answered(s.callers[t].ok, false)).(readers := s.readers - {t})
    case Release(t) => Set(s, t, Outside)
    case LockWrite => s.(writing := true, owner := Invalidating)
    case Clear => s.(pointer := false, writing := false, owner := Invalidated)
    case Cleanup => s.(owner := CleanedUp)
    case DropCore => s.(owner := Finished)
  }

  function Start(threads: nat): Waker {
    Waker(true, {}, false, seq(threads, _ => Outside), Using, false)
  }

  predicate Inv(s: Waker) {
    && !s.calledDead && (forall t | t in s.readers :: t < |s.callers|)
    && (s.owner == Using ==> s.pointer && !s.writing)
    && (s.owner == Invalidating <==> s.writing)
    && (s.writing ==> s.readers == {})
    && (s.owner == Invalidated || s.owner == CleanedUp || s.owner == Finished ==> !s.pointer)
    && (forall t | 0 <= t < |s.callers| ::
          (t in s.readers <==>
           s.callers[t].Reading? || s.callers[t].Calling? || (s.callers[t].Answered? && s.callers[t].locked))
          && (s.callers[t].Calling? ==> s.owner == Using))
  }

  lemma StepKeeps(s: Waker, e: Event)
    requires Inv(s) && Enabled(s, e)
    ensures Inv(Apply(s, e))
  {
    if e == LockWrite {
      forall t | 0 <= t < |s.callers| ensures !s.callers[t].Calling? {
        assert t !in s.readers;
      }
    }
  }

  predicate Run(s: Waker, events: seq<Event>, t: Waker)
    decreases |events|
  {
    if events == [] then s == t
    else Enabled(s, events[0]) && Run(Apply(s, events[0]), events[1..], t)
  }

  lemma {:induction false} RunKeeps(s: Waker, events: seq<Event>, t: Waker)
    requires Inv(s) && Run(s, events, t)
    ensures Inv(t)
    decreases |events|
  {
    if events != [] {
      StepKeeps(s, events[0]);
      RunKeeps(Apply(s, events[0]), events[1..], t);
    }
  }

  /** For any number of threads and any interleaving with the drop: `curl_multi_wakeup` never ran on a handle that
      was cleaned up, while the handle is in use every look finds it; none is inside
      when the clean-up begins, and from then on every wakeup answers an error. */
  lemma WakeupsAreSafe(threads: nat, events: seq<Event>, s: Waker)
    requires Run(Start(threads), events, s)
    ensures !s.calledDead
    ensures s.owner == Using ==>
              && (forall t: nat | Enabled(s, Upgrade(t)) :: Apply(s, Upgrade(t)).callers[t] == Upgraded)
              && forall t: nat | Enabled(s, Look(t)) :: Apply(s, Look(t)).callers[t] == Calling
    ensures forall t: nat | Enabled(s, Upgrade(t)) ::
              Apply(s, Upgrade(t)).callers[t] ==
              if s.owner == Finished && forall u | 0 <= u < |s.callers| :: s.callers[u] == Outside
              then Answered(false, false) else Upgraded
    ensures s.owner == Invalidated || s.owner == CleanedUp || s.owner == Finished ==>
              && (forall t: nat, ok: bool :: !Enabled(s, Wakeup(t, ok)))
              && forall t: nat | Enabled(s, Look(t)) :: Apply(s, Look(t)).callers[t] == Answered(false, true)
  {
    RunKeeps(Start(threads), events, s);
  }

  /** Some run finishes the drop. */
  ghost predicate CanFinish(s: Waker) {
    exists events, t :: Run(s, events, t) && t.owner == Finished
  }

  lemma FinishStepBack(s: Waker, e: Event)
    requires Enabled(s, e) && CanFinish(Apply(s, e))
    ensures CanFinish(s)
  {
    var events, t :| Run(Apply(s, e), events, t) && t.owner == Finished;
    var longer := [e] + events;
    assert longer[1..] == events;
    assert Run(s, longer, t);
  }

  /** How far the owner is from the end of its drop. */
  function Left(owner: Owner): nat {
    match owner
    case Using => 4
    case Invalidating => 3
    case Invalidated => 2
    case CleanedUp => 1
    case Finished => 0
  }

  /** How far a thread is from releasing the read lock. */
  function Busy(c: Caller): nat {
    match c
    case Reading => 2
    case Calling => 1
    case _ => 0
  }

  lemma {:induction false} OwnerFinishes(s: Waker, t: nat)
    requires Inv(s) && (s.owner == Using && s.readers != {} ==> t in s.readers)
    ensures CanFinish(s)
    decreases Left(s.owner), |s.readers|, if t < |s.callers| then Busy(s.callers[t]) else 0
  {
    if s.owner == Finished {
      assert Run(s, [], s);
    } else if s.owner == Using && s.readers != {} {
      var e := if s.callers[t].Reading? then Look(t)
               else if s.callers[t].Calling? then Wakeup(t, true)
               else UnlockRead(t);
      StepKeeps(s, e);
      var u := Apply(s, e);
      if t in u.readers {
        OwnerFinishes(u, t);
      } else {
        var other: nat := if u.readers == {} then 0 else var o :| o in u.readers; o;
        OwnerFinishes(u, other);
      }
      FinishStepBack(s, e);
    } else {
      var e :=
        match s.owner
        case Using => LockWrite
        case Invalidating => Clear
        case Invalidated => Cleanup
        case _ => DropCore;
      StepKeeps(s, e);
      OwnerFinishes(Apply(s, e), t);
      FinishStepBack(s, e);
    }
  }

  /** In every run the owner can finish its drop: the callers inside let it. */
  lemma DropCanFinish(threads: nat, events: seq<Event>, s: Waker)
    requires Run(Start(threads), events, s)
    ensures CanFinish(s)
  {
    RunKeeps(Start(threads), events, s);
    var t: nat := if s.readers == {} then 0 else var o :| o in s.readers; o;
    OwnerFinishes(s, t);
  }
}
