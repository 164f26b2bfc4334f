/**
 What holds in every reachable state of `GraphOpening`: one graph, every pool accounted for, and
 exactly when an unready service can still become ready.
 */
module GraphClaims {
  import opened Options
  import opened GraphOpening

  // ---- one graph ----------------------------------------------------------------------------------

  /** At most one graph is ever published, its closer is the whole exit stack, and every caller that returns gets it. */
  lemma OneGraph(s: State)
    requires Reachable(s)
    ensures s.stack == if s.graph.Some? then [s.graph.value] else []
    ensures forall c :: c in s.callers && s.callers[c].Returned? ==> Some(s.callers[c].graph) == s.graph
  {
    ReachableInv(s);
  }

  /** Once published, the graph is never replaced. */
  lemma GraphNeverChanges(s: State, l: Label)
    requires Reachable(s) && Enabled(s, l) && s.graph.Some?
    ensures Apply(s, l).graph == s.graph && Apply(s, l).stack == s.stack
  {
    ReachableInv(s);
  }

  /**
   Pools entered less closers pushed is the number of attempts that entered a pool and then failed
   or were cancelled in `setup`, plus the one still in it; none of those pools is on the exit stack.
   */
  lemma PoolsAccounted(s: State)
    requires Reachable(s)
    ensures s.pools - |s.stack| == |s.lost| + |InHand(s)|
    ensures forall p :: p in s.lost ==> p !in s.stack
    ensures s.lock.None? ==> s.pools == |s.stack| + |s.lost|
  {
    ReachableInv(s);
    var all := s.lost + s.stack + InHand(s);
    forall p | p in s.lost ensures p !in s.stack {
      var j :| 0 <= j < |s.lost| && s.lost[j] == p;
      assert all[j] == p;
      assert forall i :: 0 <= i < |s.stack| ==> all[|s.lost| + i] == s.stack[i];
    }
  }

  lemma Bound(xs: set<nat>) returns (b: nat)
    ensures forall x :: x in xs ==> x < b
  {
    b := 0;
    if xs != {} {
      var x :| x in xs;
      var rest := Bound(xs - {x});
      b := if x < rest then rest else x + 1;
      assert forall y :: y in xs ==> y == x || y in xs - {x};
    }
  }

  /** A caller that holds the lock publishes the graph when its next attempt goes through. */
  lemma BuildsGraph(s0: State, s: State, c: CallerId) returns (s': State)
    requires CanReach(s0, s) && c in s.callers && Building(s.callers[c])
    ensures CanReach(s0, s') && Ready(s')
  {
    s' := s;
    if s'.callers[c].BackingOff? {
      s' := Do(s0, s', ByCaller(c, Retry));
    }
    if s'.callers[c].Entering? {
      s' := Do(s0, s', ByCaller(c, Succeed));
    }
    s' := Do(s0, s', ByCaller(c, Succeed));
  }

  lemma QueuedBuildsGraph(s0: State, s: State, c: CallerId) returns (s': State)
    requires CanReach(s0, s) && c in s.callers && s.callers[c].Queued? && s.lock.None?
    ensures CanReach(s0, s') && Ready(s')
  {
    s' := Do(s0, s, ByCaller(c, Acquire));
    if !Ready(s') {
      s' := BuildsGraph(s0, s', c);
    }
  }

  /** From the top of its loop the reconnect task finds its way to a published graph. */
  lemma LoopBuildsGraph(s0: State, s: State) returns (s': State)
    requires CanReach(s0, s) && s.loop.Checking? && s.lock.None? && s.graph.None?
    ensures CanReach(s0, s') && Ready(s')
  {
    var c := Bound(s.callers.Keys);
    s' := Do(s0, s, ByLoop(Check(c)));
    s' := QueuedBuildsGraph(s0, s', c);
  }

  /** The loop is neither cancelled nor about to notice that it was. */
  predicate LoopAlive(s: State) {
    && s.setting.reconnects
    && !s.loop.Stopped?
    && (s.loop.Calling? && s.loop.c in s.callers ==> !s.callers[s.loop.c].Cancelled?)
  }

  predicate SomebodyQueued(s: State) {
    exists c :: c in s.callers && s.callers[c].Queued?
  }

  /** Somebody is building or will; or, with warmup over, new callers can come: traffic if let in, else the loop. */
  predicate Hope(s: State) {
    s.lock.Some? || SomebodyQueued(s) || (WarmupDone(s) && (!s.setting.gated || LoopAlive(s)))
  }

  lemma HopeBuildsGraph(s: State) returns (s': State)
    requires Inv(s) && !Ready(s) && Hope(s)
    ensures CanReach(s, s') && Ready(s')
  {
    s' := s;
    if s.lock.Some? {
      s' := BuildsGraph(s, s, s.lock.value);
    } else if SomebodyQueued(s) {
      var c :| c in s.callers && s.callers[c].Queued?;
      s' := QueuedBuildsGraph(s, s, c);
    } else if !s.setting.gated {
      var c := Bound(s.callers.Keys);
      s' := Do(s, s, Arrive(c));
      s' := QueuedBuildsGraph(s, s', c);
    } else {
      if s'.loop.NotStarted? { s' := Do(s, s', ByLoop(Start)); }
      if s'.loop.Calling? { s' := Do(s, s', ByLoop(Resume)); }
      if s'.loop.Sleeping? { s' := Do(s, s', ByLoop(Wake)); }
      s' := LoopBuildsGraph(s, s');
    }
  }

  lemma HopelessStaysSo(s: State, l: Label)
    requires Inv(s) && !Ready(s) && !Hope(s) && Enabled(s, l)
    ensures !Ready(Apply(s, l)) && !Hope(Apply(s, l))
  {
  }

  /** Exactly when an unready state can still become ready. */
  lemma ReadinessIff(s: State)
    requires Reachable(s) && !Ready(s)
    ensures (exists s' :: CanReach(s, s') && Ready(s')) <==> Hope(s)
  {
    ReachableInv(s);
    if Hope(s) {
      var s' := HopeBuildsGraph(s);
    } else {
      var p := iset x: State | Inv(x) && !Ready(x) && !Hope(x);
      forall x: State, l | x in p && Enabled(x, l) ensures Apply(x, l) in p {
        InvStep(x, l);
        HopelessStaysSo(x, l);
      }
      assert Invariant(p);
    }
  }

  /** In particular the reconnect loop is enough, once warmup was not itself cancelled. */
  lemma LoopGivesHope(s: State)
    requires Reachable(s) && !Ready(s) && LoopAlive(s)
    requires WARMUP in s.callers && !s.callers[WARMUP].Cancelled?
    ensures Hope(s)
  {
    ReachableInv(s);
  }

  /**
   Without the loop, a failed warmup behind the readiness gate is a state no step leaves: traffic
   waits on readiness and readiness waits on traffic.
   */
  lemma Deadlock(s: State, l: Label)
    requires Reachable(s) && s.setting == Setting(false, true)
    requires WARMUP in s.callers && s.callers[WARMUP].Raised?
    ensures !Ready(s) ==> !Enabled(s, l)
  {
    ReachableInv(s);
  }

  /** One attempt of warmup that enters a pool and fails in `setup`. */
  lemma SetupFails(s: State, n: nat) returns (s': State)
    requires Reachable(s) && s.callers == map[WARMUP := Entering(n)] && s.lock == Some(WARMUP)
    ensures Reachable(s')
    ensures s' == s.(pools := s.pools + 1, lost := s.lost + [s.pools],
                     lock := if n < OPEN_ATTEMPTS then s.lock else None,
                     callers := map[WARMUP := if n < OPEN_ATTEMPTS then BackingOff(n) else Raised])
  {
    s' := Step(s, ByCaller(WARMUP, Succeed));
    s' := Step(s', ByCaller(WARMUP, Fail));
    assert s'.callers == map[WARMUP := if n < OPEN_ATTEMPTS then BackingOff(n) else Raised];
  }

  lemma TriesAgain(s: State, n: nat) returns (s': State)
    requires Reachable(s) && s.callers == map[WARMUP := BackingOff(n)] && s.lock == Some(WARMUP)
    ensures Reachable(s') && s' == s.(callers := map[WARMUP := Entering(n + 1)])
  {
    s' := Step(s, ByCaller(WARMUP, Retry));
    assert s'.callers == map[WARMUP := Entering(n + 1)];
  }

  /** The deadlock is real, and its pools are gone: three attempts enter a pool and fail in `setup`. */
  lemma DeadlockRun() returns (s: State)
    ensures Reachable(s) && s.setting == Setting(false, true) && s.callers == map[WARMUP := Raised] && !Ready(s)
    ensures s.pools == 3 && s.lost == [0, 1, 2] && s.stack == []
  {
    s := Step(Initial(Setting(false, true)), ByCaller(WARMUP, Acquire));
    s := SetupFails(s, 1);
    s := TriesAgain(s, 1);
    s := SetupFails(s, 2);
    s := TriesAgain(s, 2);
    s := SetupFails(s, 3);
  }
}
