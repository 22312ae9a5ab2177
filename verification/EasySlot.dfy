/** The blocking curl client's reusable handle.

    One slot holds it between requests, and the guards of the requests under way own the others. A handle whose easy
    curl has lost cannot be reset any more. */
module EasySlot {
  import opened Bytes
  import opened CurlHeaders

  /** An easy handle: its options (`None` until a request sets some), its body stream and its request state. */
  datatype Easy = Easy(options: Option<nat>, streaming: bool, state: Head)

  const FRESH := Easy(None, false, NEW_HEAD)

  /** A `MultiEasy`: its multi handle with the one easy in its set. The easy is gone once adding it has failed. */
  datatype MultiEasy = MultiEasy(easy: Option<Easy>)

  /** How curl answers the three calls of `with_detached_easy`: taking the easy out, the work, and putting it back. */
  datatype Answers = Answers(removed: bool, done: bool, added: bool)

  datatype Detached = Detached(multi: MultiEasy, ok: bool, panicked: bool)

  /** `with_detached_easy` with work that leaves `after` behind. */
  function WithDetachedEasy(m: MultiEasy, after: Easy, a: Answers): Detached {
    if m.easy.None? then Detached(m, false, true)
    else if !a.removed then Detached(MultiEasy(None), false, false)
    else Detached(MultiEasy(if a.added then Some(after) else None), a.added && a.done, false)
  }

  /** `reset_state`: the callback state is replaced first, the options only if curl resets them. */
  function ResetState(m: MultiEasy, a: Answers): Detached {
    var options := if a.done || m.easy.None? then None else m.easy.value.options;
    WithDetachedEasy(m, Easy(options, false, NEW_HEAD), a)
  }

  /** A reset that succeeds makes the handle the same as a new one, whatever was done with it; it does exactly when the
      easy is there and curl refuses nothing. */
  lemma ResetMakesFresh(m: MultiEasy, a: Answers)
    ensures ResetState(m, a).ok ==> ResetState(m, a).multi == MultiEasy(Some(Easy(None, false, NEW_HEAD)))
    ensures ResetState(m, a).ok <==> m.easy.Some? && a.removed && a.done && a.added
    ensures ResetState(m, a).panicked <==> m.easy.None?
  {
  }

  /** A `MultiEasy` as its guard changes it in place. */
  class Handle {
    var easy: Option<Easy>

    function View(): MultiEasy
      reads this
    {
      MultiEasy(easy)
    }

    constructor ()
      ensures View() == MultiEasy(Some(FRESH))
    {
      easy := Some(FRESH);
    }

    /** The easy leaves the set, is worked on, and is put back. */
    method WorkOnDetached(after: Easy, a: Answers) returns (ok: bool, panicked: bool)
      modifies this
      ensures Detached(View(), ok, panicked) == WithDetachedEasy(old(View()), after, a)
      ensures panicked <==> old(easy).None?
      ensures ok <==> old(easy).Some? && a.removed && a.done && a.added
      ensures easy == if old(easy).Some? && a.removed && a.added then Some(after) else None
    {
      if easy.None? {
        return false, true;
      }
      easy := None;
      if !a.removed {
        return false, false;
      }
      if a.added {
        easy := Some(after);
      }
      return a.added && a.done, false;
    }

    method Reset(a: Answers) returns (ok: bool, panicked: bool)
      modifies this
      ensures Detached(View(), ok, panicked) == ResetState(old(View()), a)
      ensures ok ==> View() == MultiEasy(Some(FRESH))
    {
      ResetMakesFresh(View(), a);
      var options := if a.done || easy.None? then None else easy.value.options;
      ok, panicked := WorkOnDetached(Easy(options, false, NEW_HEAD), a);
    }
  }

  /** The slot, as the thread that holds its lock sees it. */
  class MultiEasySlot {
    var slot: Option<Handle>

    ghost predicate Valid()
      reads this, if slot.Some? then {slot.value} else {}
    {
      slot.Some? ==> slot.value.View() == MultiEasy(Some(FRESH))
    }

    constructor ()
      ensures Valid() && slot == None
    {
      slot := None;
    }

    /** `get_or_create_handle`: whichever way, the handle is as good as new and no longer in the slot. */
    method GetOrCreateHandle(created: bool) returns (h: Option<Handle>)
      requires Valid()
      modifies this
      ensures Valid() && slot == None
      ensures old(slot).Some? ==> h == old(slot)
      ensures old(slot).None? ==> (h.Some? <==> created) && (h.Some? ==> fresh(h.value))
      ensures h.Some? ==> h.value.View() == MultiEasy(Some(FRESH))
    {
      h, slot := slot, None;
      if h.None? && created {
        var new_handle := new Handle();
        h := Some(new_handle);
      }
    }

    /** The guard's drop: the handle goes back only into an empty slot that nobody holds locked, and only after a
        successful reset; a handle already in the slot is left alone. */
    method PutBack(h: Handle, locked: bool, a: Answers) returns (panicked: bool)
      requires Valid() && slot != Some(h)
      modifies this, h
      ensures Valid()
      ensures var back := !locked && old(slot).None? && ResetState(old(h.View()), a).ok;
        slot == if back then Some(h) else old(slot)
      ensures slot == Some(h) <==>
        !locked && old(slot).None? && old(h.easy).Some? && a.removed && a.done && a.added
      ensures panicked <==> !locked && old(slot).None? && old(h.easy).None?
    {
      if locked || slot.Some? {
        return false;
      }
      ghost var view := h.View();
      ResetMakesFresh(view, a);
      var ok;
      ok, panicked := h.Reset(a);
      if ok {
        slot := Some(h);
      }
    }
  }

  /** Where a request thread stands. */
  datatype Pc =
    | Outside
    | Choosing             // in `get_or_create_handle`, holding the slot's lock
    | Creating             // found the slot empty
    | Guarding(h: nat)     // its guard owns the handle
    | Returning(h: nat)    // in the guard's drop, holding the slot's lock
    | Panicked

  datatype Pool = Pool(
    slot: Option<nat>,
    lock: Option<nat>,
    poisoned: bool,  // whether a thread panicked while it held the lock
    handles: seq<MultiEasy>,
    pcs: seq<Pc>
  )

  datatype Event =
    | Lock(t: nat)
    | TakeOut(t: nat)
    | Create(t: nat, ok: bool)
    | Use(t: nat, after: Easy, a: Answers)  // any work on the detached easy
    | Receive(t: nat, head: Head)           // any callback on the attached one
    | DropGuard(t: nat)
    | PutBack(t: nat, a: Answers)

  predicate Enabled(p: Pool, e: Event) {
    e.t < |p.pcs| &&
    var pc := p.pcs[e.t];
    match e
    case Lock(_) => pc.Outside? && p.lock.None?
    case TakeOut(_) => pc.Choosing?
    case Create(_, _) => pc.Creating?
    case Use(_, _, _) => pc.Guarding? && pc.h < |p.handles|
    case Receive(_, _) => pc.Guarding? && pc.h < |p.handles|
    case DropGuard(_) => pc.Guarding?
    case PutBack(_, _) => pc.Returning? && pc.h < |p.handles|
  }

  function At(p: Pool, t: nat, pc: Pc): Pool
    requires t < |p.pcs|
  {
    p.(pcs := p.pcs[t := pc])
  }

  function Apply(p: Pool, e: Event): Pool
    requires Enabled(p, e)
  {
    var pc := p.pcs[e.t];
    match e
    case Lock(t) => if p.poisoned then At(p, t, Panicked) else At(p, t, Choosing).(lock := Some(t))
    case TakeOut(t) => At(p, t, if p.slot.Some? then Guarding(p.slot.value) else Creating).(slot := None, lock := None)
    case Create(t, ok) =>
      if ok then At(p, t, Guarding(|p.handles|)).(handles := p.handles + [MultiEasy(Some(FRESH))])
      else At(p, t, Outside)
    case Use(t, after, a) =>
      var d := WithDetachedEasy(p.handles[pc.h], after, a);
      if d.panicked then At(p, t, Panicked) else p.(handles := p.handles[pc.h := d.multi])
    case Receive(_, head) =>
      var m := p.handles[pc.h];
      p.(handles := p.handles[pc.h := if m.easy.Some? then MultiEasy(Some(m.easy.value.(state := head))) else m])
    case DropGuard(t) =>
      if p.lock.Some? || p.poisoned || p.slot.Some? then At(p, t, Outside)
      else At(p, t, Returning(pc.h)).(lock := Some(t))
    case PutBack(t, a) =>
      var d := ResetState(p.handles[pc.h], a);
      if d.panicked then At(p, t, Panicked).(lock := None, poisoned := true)
      else
        At(p, t, Outside)
        .(handles := p.handles[pc.h := d.multi], slot := if d.ok then Some(pc.h) else None, lock := None)
  }

  function Start(threads: nat): Pool {
    Pool(None, None, false, [], seq(threads, _ => Outside))
  }

  predicate Run(p: Pool, events: seq<Event>, q: Pool)
    decreases |events|
  {
    if events == [] then p == q
    else Enabled(p, events[0]) && Run(Apply(p, events[0]), events[1..], q)
  }

  predicate Owns(pc: Pc, h: nat) {
    (pc.Guarding? || pc.Returning?) && pc.h == h
  }

  /** Every handle has one owner at most, and the one in the slot is as good as new. */
  predicate Inv(p: Pool) {
    && (p.slot.Some? ==> p.slot.value < |p.handles| && p.handles[p.slot.value] == MultiEasy(Some(FRESH)))
    && (p.slot.Some? ==> forall t | 0 <= t < |p.pcs| :: !Owns(p.pcs[t], p.slot.value) && !p.pcs[t].Returning?)
    && (forall t | 0 <= t < |p.pcs| :: p.pcs[t].Guarding? || p.pcs[t].Returning? ==> p.pcs[t].h < |p.handles|)
    && (forall t | 0 <= t < |p.pcs| :: p.pcs[t].Choosing? || p.pcs[t].Returning? ==> p.lock == Some(t))
    && (forall t, u | 0 <= t < |p.pcs| && 0 <= u < |p.pcs| ::
          p.pcs[t].Guarding? || p.pcs[t].Returning? ==> Owns(p.pcs[u], p.pcs[t].h) ==> t == u)
  }

  lemma PutBackKeeps(p: Pool, t: nat, a: Answers)
    requires Inv(p) && Enabled(p, PutBack(t, a))
    ensures Inv(Apply(p, PutBack(t, a)))
  {
    ResetMakesFresh(p.handles[p.pcs[t].h], a);
    hide ResetState;
    assert forall u | 0 <= u < |p.pcs| && u != t :: !Owns(p.pcs[u], p.pcs[t].h) && !p.pcs[u].Returning?;
  }

  lemma WorkKeeps(p: Pool, e: Event)
    requires Inv(p) && Enabled(p, e) && (e.Use? || e.Receive?)
    ensures Inv(Apply(p, e))
  {
    hide WithDetachedEasy;
    var q := Apply(p, e);
    assert p.slot.Some? ==> q.handles[p.slot.value] == p.handles[p.slot.value];
    assert forall u | 0 <= u < |p.pcs| :: q.pcs[u] == p.pcs[u] || q.pcs[u].Panicked?;
  }

  lemma TakeKeeps(p: Pool, e: Event)
    requires Inv(p) && Enabled(p, e) && (e.TakeOut? || e.Create?)
    ensures Inv(Apply(p, e))
  {
    var q := Apply(p, e);
    assert forall u | 0 <= u < |p.pcs| && u != e.t :: q.pcs[u] == p.pcs[u];
  }

  lemma StepKeeps(p: Pool, e: Event)
    requires Inv(p) && Enabled(p, e)
    ensures Inv(Apply(p, e))
  {
    match e {
      case PutBack(t, a) => PutBackKeeps(p, t, a);
      case Use(_, _, _) => WorkKeeps(p, e);
      case Receive(_, _) => WorkKeeps(p, e);
      case TakeOut(_) => TakeKeeps(p, e);
      case Create(_, _) => TakeKeeps(p, e);
      case _ =>
        var q := Apply(p, e);
        assert forall u | 0 <= u < |p.pcs| && u != e.t :: q.pcs[u] == p.pcs[u];
        assert Inv(q);
    }
    hide Inv, Apply;
  }

  lemma {:induction false} RunKeeps(p: Pool, events: seq<Event>, q: Pool)
    requires Inv(p) && Run(p, events, q)
    ensures Inv(q)
    decreases |events|
  {
    if events != [] {
      StepKeeps(p, events[0]);
      RunKeeps(Apply(p, events[0]), events[1..], q);
    }
  }

  /** For any number of threads and any run: no two guards own one handle, the slot's handle is owned by no guard,
      and what a request takes out of the slot is the same as a new handle. */
  lemma HandlesAreOwnedOnce(threads: nat, events: seq<Event>, p: Pool, t: nat, u: nat)
    requires Run(Start(threads), events, p) && t < |p.pcs| && u < |p.pcs|
    ensures p.pcs[t].Guarding? && p.pcs[u].Guarding? && p.pcs[t].h == p.pcs[u].h ==> t == u
    ensures p.slot.Some? ==> !Owns(p.pcs[t], p.slot.value)
    ensures p.pcs[t].Choosing? ==>
      var q := Apply(p, TakeOut(t));
      q.pcs[t].Creating? || (q.pcs[t].Guarding? && q.pcs[t].h < |q.handles| &&
          q.handles[q.pcs[t].h] == MultiEasy(Some(FRESH)))
  {
    RunKeeps(Start(threads), events, p);
  }

  /** A guard that returns such a handle panics with the slot locked, and from then on every request panics. */
  lemma {:induction false} MissingEasyEndsTheClient(p: Pool, t: nat, a: Answers, events: seq<Event>, q: Pool, u: nat)
    requires Enabled(p, PutBack(t, a)) && p.handles[p.pcs[t].h].easy.None?
    requires Run(Apply(p, PutBack(t, a)), events, q) && Enabled(q, Lock(u))
    ensures Apply(q, Lock(u)).pcs[u] == Panicked
  {
    RunPoisonsIff(Apply(p, PutBack(t, a)), events, q);
  }

  /** Some step of the run works on handle `h`, and curl fails to take its easy out or to put it back. */
  predicate EasyIsLost(p: Pool, events: seq<Event>, h: nat)
    decreases |events|
  {
    events != [] && Enabled(p, events[0]) &&
    var e := events[0];
    (((e.Use? || e.PutBack?) && p.pcs[e.t].h == h && !(e.a.removed && e.a.added)) ||
     EasyIsLost(Apply(p, e), events[1..], h))
  }

  /** Some step of the run brings a handle without its easy back to the empty slot. */
  predicate Poisons(p: Pool, events: seq<Event>)
    decreases |events|
  {
    events != [] && Enabled(p, events[0]) &&
    var e := events[0];
    ((e.PutBack? && p.handles[p.pcs[e.t].h].easy.None?) || Poisons(Apply(p, e), events[1..]))
  }

  lemma {:induction false} RunLosesIff(p: Pool, events: seq<Event>, q: Pool, h: nat)
    requires Inv(p) && Run(p, events, q)
    ensures |q.handles| >= |p.handles|
    ensures h < |q.handles| ==>
              (q.handles[h].easy.None? <==> (h < |p.handles| && p.handles[h].easy.None?) || EasyIsLost(p, events, h))
    ensures h >= |q.handles| ==> !EasyIsLost(p, events, h)
    decreases |events|
  {
    if events != [] {
      var e := events[0];
      StepKeeps(p, e);
      RunLosesIff(Apply(p, e), events[1..], q, h);
    }
  }

  lemma {:induction false} RunPoisonsIff(p: Pool, events: seq<Event>, q: Pool)
    requires Run(p, events, q)
    ensures q.poisoned <==> p.poisoned || Poisons(p, events)
    decreases |events|
  {
    if events != [] {
      RunPoisonsIff(Apply(p, events[0]), events[1..], q);
    }
  }

  /** In every run, a handle has lost its easy exactly when curl has failed to take it out or to put it back, and the
      slot's lock is poisoned exactly when such a handle has been brought back to the empty slot. */
  lemma PoisonedIff(threads: nat, events: seq<Event>, p: Pool, h: nat)
    requires Run(Start(threads), events, p) && h < |p.handles|
    ensures p.handles[h].easy.None? <==> EasyIsLost(Start(threads), events, h)
    ensures p.poisoned <==> Poisons(Start(threads), events)
  {
    RunLosesIff(Start(threads), events, p, h);
    RunPoisonsIff(Start(threads), events, p);
  }

  lemma {:induction false} RunAppend(s: Pool, events: seq<Event>, t: Pool, e: Event)
    requires Run(s, events, t) && Enabled(t, e)
    ensures Run(s, events + [e], Apply(t, e))
    decreases |events|
  {
    if events == [] {
      assert [e][1..] == [];
    } else {
      RunAppend(Apply(s, events[0]), events[1..], t, e);
      assert (events + [e])[1..] == events[1..] + [e];
    }
  }

  ghost predicate Reachable(threads: nat, p: Pool) {
    exists events :: Run(Start(threads), events, p)
  }

  lemma Step(threads: nat, p: Pool, e: Event, q: Pool)
    requires Reachable(threads, p) && Enabled(p, e) && Apply(p, e) == q
    ensures Reachable(threads, q)
  {
    var events :| Run(Start(threads), events, p);
    RunAppend(Start(threads), events, p, e);
  }

  const EMPTY := Pool(None, None, false, [], [Outside])

  /** One request holds a new handle. */
  lemma OneGuards()
    ensures Reachable(1, EMPTY.(handles := [MultiEasy(Some(FRESH))], pcs := [Guarding(0)]))
  {
    assert Run(Start(1), [], EMPTY);
    Step(1, EMPTY, Lock(0), EMPTY.(lock := Some(0), pcs := [Choosing]));
    Step(1, EMPTY.(lock := Some(0), pcs := [Choosing]), TakeOut(0), EMPTY.(pcs := [Creating]));
    assert [] + [MultiEasy(Some(FRESH))] == [MultiEasy(Some(FRESH))];
    Step(1, EMPTY.(pcs := [Creating]), Create(0, true),
        EMPTY.(handles := [MultiEasy(Some(FRESH))], pcs := [Guarding(0)]));
  }

  /** Such a run: the first request's handle cannot be taken out for its options, and its guard brings it back. */
  lemma FailedDetachPoisons()
    ensures exists p :: Reachable(1, p) && p.poisoned
  {
    hide Reachable;
    OneGuards();
    var failed := Answers(false, false, false);
    var lost := EMPTY.(handles := [MultiEasy(None)], pcs := [Guarding(0)]);
    Step(1, EMPTY.(handles := [MultiEasy(Some(FRESH))], pcs := [Guarding(0)]), Use(0, FRESH, failed), lost);
    var returning := lost.(lock := Some(0), pcs := [Returning(0)]);
    Step(1, lost, DropGuard(0), returning);
    Step(1, returning, PutBack(0, failed), lost.(poisoned := true, pcs := [Panicked]));
  }
}
