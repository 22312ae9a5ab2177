/** The main results about the curl async loop, over every interleaving. */
module CurlLoopResults {
  import opened Bytes
  import opened CurlLoop
  import opened CurlLoopSafety

  lemma StartInv()
    ensures Inv(START)
  {
  }

  /** Where an easy is found: with the caller's future, in a queue, in a slab or in its own `EasyLost` slot. */
  predicate FoundIn(s: Sys, r: nat, p: Place)
    requires r < |s.reqs|
  {
    match p
    case Caller => HasEasy(s.reqs[r])
    case Queued(l) => l < |s.loops| && Construct(r) in s.loops[l].tasks
    case Slabbed(l, token) => l < |s.loops| && token in s.loops[l].slab && s.loops[l].slab[token] == r
    case Lost => s.reqs[r].result == EasyLost
    case Destroyed => false
  }

  /** In every interleaving each easy is in exactly one place until it is destroyed, and then in none; it stands in
      its queue only once. */
  lemma EachEasyInOnePlace(events: seq<Event>, s: Sys, r: nat)
    requires Run(START, events, s) && r < |s.reqs|
    ensures forall p :: FoundIn(s, r, p) <==> p == s.reqs[r].at && p != Destroyed
    ensures forall l, i, j | 0 <= l < |s.loops| && 0 <= i < j < |s.loops[l].tasks| ::
              !(s.loops[l].tasks[i] == Construct(r) == s.loops[l].tasks[j])
  {
    RunKeeps(START, events, s);
    assert ReqOk(s, r);
    forall p | FoundIn(s, r, p) ensures p == s.reqs[r].at {
      if p.Queued? || p.Slabbed? {
        assert LoopOk(s, p.l);
        assert p.Queued? ==> TaskOk(s, p.l, Construct(r));
      }
    }
    forall l | 0 <= l < |s.loops| ensures Ordered(s.loops[l].tasks) {
      assert LoopOk(s, l);
    }
  }

  predicate NamesItsEasy(s: Sys, l: nat, r: nat, token: nat)
    requires l < |s.loops|
  {
    token in s.loops[l].slab && s.loops[l].slab[token] == r
  }

  /** While a loop runs, the id of every live handle and of every task in its queue but an `UnpauseSendHandle` is the
      token of the easy of its own request: tokens are not confused however often the slab reuses them, and no query
      finds its handle missing. An `UnpauseSendHandle` names its own easy exactly while that is in the slab, always
      while its request's handle lives, and always when the handle lived as it was queued. */
  lemma TokensNameTheirOwnEasy(events: seq<Event>, s: Sys, l: nat)
    requires Run(START, events, s) && l < |s.loops| && s.loops[l].Held()
    ensures forall r | 0 <= r < |s.reqs| && HandleLives(s.reqs[r]) && s.reqs[r].home == l ::
        NamesItsEasy(s, l, r, s.reqs[r].id)
    ensures forall task | task in s.loops[l].tasks && !task.Construct? && !task.Shutdown? && !task.UnpauseSend? ::
              NamesItsEasy(s, l, task.r, task.id)
    ensures forall task | task in s.loops[l].tasks && task.UnpauseSend? ::
              && task.r < |s.reqs|
              && (NamesItsEasy(s, l, task.r, task.id) <==> s.reqs[task.r].at == Slabbed(l, task.id))
              && (HandleLives(s.reqs[task.r]) || !task.late ==> NamesItsEasy(s, l, task.r, task.id))
  {
    RunKeeps(START, events, s);
    forall r | 0 <= r < |s.reqs| && HandleLives(s.reqs[r]) && s.reqs[r].home == l
        ensures NamesItsEasy(s, l, r, s.reqs[r].id) {
      assert ReqOk(s, r);
    }
    assert LoopOk(s, l);
    forall task | task in s.loops[l].tasks && !task.Construct? && !task.Shutdown?
      ensures task.r < |s.reqs|
      ensures NamesItsEasy(s, l, task.r, task.id) <==> s.reqs[task.r].at == Slabbed(l, task.id)
      ensures !task.UnpauseSend? || !task.late || HandleLives(s.reqs[task.r]) ==> NamesItsEasy(s, l, task.r, task.id)
    {
      assert TaskOk(s, l, task);
      assert ReqOk(s, task.r);
    }
  }

  /** An `UnpauseSendHandle` that is performed reaches the easy of its own request exactly when it is not late, that is,
      when the handle had not been dropped as it was queued. */
  lemma UnpauseReachesItsOwnIff(events: seq<Event>, s: Sys, l: nat)
    requires Run(START, events, s) && l < |s.loops| && s.loops[l].Held()
    requires s.loops[l].tasks != [] && s.loops[l].tasks[0].UnpauseSend?
    ensures var task := s.loops[l].tasks[0]; NamesItsEasy(s, l, task.r, task.id) <==> !task.late
  {
    RunKeeps(START, events, s);
    HeadFindsItsEasy(s, l);
  }

  /** A sender captures its token while the handle lives, and queues an unpause that is late exactly when the handle
      has been dropped since. */
  lemma LateMeansDroppedSinceCapture(events: seq<Event>, s: Sys, r: nat)
    requires Run(START, events, s)
    ensures ActEnabled(s, r, BeginSend) ==> HandleLives(s.reqs[r])
    ensures ActEnabled(s, r, Send) ==>
              var t := DoAct(s, r, Send);
              var l := s.sender.value.l;
              t.loops[l].tasks == s.loops[l].tasks + [UnpauseSend(r, s.reqs[r].id, !HandleLives(s.reqs[r]))]
  {
    RunKeeps(START, events, s);
    if r < |s.reqs| {
      assert ReqOk(s, r);
    }
  }

  /** At most one loop runs at a time, and it is the one that new requests are given. */
  lemma OneLoopRuns(events: seq<Event>, s: Sys, l: nat)
    requires Run(START, events, s) && l < |s.loops| && s.loops[l].Held()
    ensures s.current == Some(l)
  {
    RunKeeps(START, events, s);
    assert LoopOk(s, l);
  }

  /** A loop that leaves without an error leaves no easy and no live handle behind; one that leaves with an error
      has given every request in its slab a result. */
  lemma LeavingLoopsAreSettled(events: seq<Event>, s: Sys, l: nat)
    requires Run(START, events, s) && l < |s.loops|
    ensures s.loops[l].stage == Leaving(false) ==>
              s.loops[l].slab == map[] && forall r | 0 <= r < |s.reqs| && HandleLives(s.reqs[r]) :: s.reqs[r].home != l
    ensures s.loops[l].stage == Leaving(true) ==>
              forall r | 0 <= r < |s.reqs| && s.reqs[r].phase.Started? && s.reqs[r].home == l :: s.reqs[r].result.Done?
  {
    RunKeeps(START, events, s);
    assert LoopOk(s, l);
    forall r | 0 <= r < |s.reqs| && s.reqs[r].home == l
      ensures s.loops[l].stage == Leaving(false) ==> !HandleLives(s.reqs[r])
      ensures s.loops[l].stage == Leaving(true) && s.reqs[r].phase.Started? ==> s.reqs[r].result.Done?
    {
      assert ReqOk(s, r);
    }
  }
}
