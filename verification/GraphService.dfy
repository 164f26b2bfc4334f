/**
 What callers of `Dependencies.graph` are given, and what each await of a build and each turn of the
 reconnect loop comes to.
 */
module GraphService {
  import opened Options
  import opened GraphClaims
  import opened GraphOpening

  /** A published graph is returned at once, without the lock and under it; without one an arrival queues. */
  lemma ReadyServes(s: State, l: Label, c: CallerId)
    requires Enabled(s, l) && (l == Arrive(c) || l == ByCaller(c, Acquire))
    ensures Ready(s) ==>
              s.graph.Some? && Apply(s, l).callers[c] == Returned(s.graph.value) && Apply(s, l).pools == s.pools
    ensures !Ready(s) && l == Arrive(c) ==> Apply(s, l).callers[c] == Queued && Apply(s, l).lock == s.lock
  {
  }

  /** A caller is refused by its own third failure and by nothing else. */
  lemma RaisedIff(s: State, l: Label, c: CallerId)
    requires Reachable(s) && Enabled(s, l) && c in Apply(s, l).callers
    requires c in s.callers ==> !s.callers[c].Raised?
    ensures Apply(s, l).callers[c].Raised? <==> l == ByCaller(c, Fail) && s.callers[c].attempt == 3
  {
    ReachableInv(s);
  }

  /** Only a cancellation cancels. */
  lemma CancelledIff(s: State, l: Label, c: CallerId)
    requires Enabled(s, l) && c in Apply(s, l).callers
    requires c in s.callers ==> !s.callers[c].Cancelled?
    ensures Apply(s, l).callers[c].Cancelled? <==> l == ByCaller(c, Cancel)
  {
  }

  /**
   Without one a caller starts the first attempt once it has the lock. Two awaits
   build the graph: the pool, and its `setup`, after which closer and graph are in place. A failed one is
   retried under the lock until the third attempt; a pool it had entered is lost.
   */
  lemma BuildingMeans(s: State, c: CallerId, m: CallerMove)
    requires CallerEnabled(s, c, m)
    ensures var k, t := s.callers[c], CallerApply(s, c, m);
            && (m.Acquire? && s.graph.None? ==> t.callers[c] == Entering(1) && t.lock == Some(c))
            && (m.Succeed? && k.Entering? ==>
                  t.callers[c] == SettingUp(k.attempt, s.pools) && t.pools == s.pools + 1
                  && t.graph == s.graph && t.lock == Some(c))
            && (m.Succeed? && k.SettingUp? ==>
                  t.callers[c] == Returned(k.pool) && t.graph == Some(k.pool)
                  && t.stack == s.stack + [k.pool] && t.lock.None? && t.lost == s.lost)
            && (m.Fail? ==>
                  && t.callers[c] == (if k.attempt < 3 then BackingOff(k.attempt) else Raised)
                  && t.lock == (if k.attempt < 3 then Some(c) else None)
                  && t.lost == (if k.SettingUp? then s.lost + [k.pool] else s.lost)
                  && t.graph == s.graph && t.stack == s.stack && t.pools == s.pools)
            && (m.Retry? ==>
                  t.callers[c] == Entering(k.attempt + 1) && t.lock == Some(c) && t.pools == s.pools)
  {
  }

  /** The loop settles on a graph, calls `graph()` without one, sleeps on a refusal and then looks again. */
  lemma LoopMeans(s: State, m: LoopMove)
    requires LoopEnabled(s, m)
    ensures var t := LoopApply(s, m);
            && (m.Check? && s.graph.Some? ==> t.loop == Settled && t.callers == s.callers)
            && (m.Check? && s.graph.None? ==> t.loop == Calling(m.c) && t.callers == s.callers[m.c := Queued])
            && (m.Resume? && s.callers[s.loop.c].Returned? ==> t.loop == Checking)
            && (m.Resume? && s.callers[s.loop.c].Raised? ==> t.loop == Sleeping)
            && (m.Resume? && s.callers[s.loop.c].Cancelled? ==> t.loop == Stopped)
            && (m.Start? || m.Wake? ==> t.loop == Checking)
  {
  }

  /**
   What may come next. Any await may succeed or raise, and be cancelled; the loop waits for its own call,
   and may be stopped between two.
   */
  lemma MovesIff(s: State, c: CallerId)
    ensures LoopEnabled(s, Start) <==> s.setting.reconnects && s.loop == NotStarted && WarmupDone(s)
    ensures LoopEnabled(s, Check(c)) <==> s.loop == Checking && c !in s.callers
    ensures LoopEnabled(s, Resume) <==>
              exists d :: s.loop == Calling(d) && d in s.callers && !s.callers[d].Queued? && !Building(s.callers[d])
    ensures LoopEnabled(s, Wake) <==> s.loop == Sleeping
    ensures LoopEnabled(s, Halt) <==> s.loop in {Checking, Sleeping}
    ensures CallerEnabled(s, c, Acquire) <==> c in s.callers && s.callers[c] == Queued && s.lock.None?
    ensures CallerEnabled(s, c, Succeed) <==> c in s.callers && (s.callers[c].Entering? || s.callers[c].SettingUp?)
    ensures CallerEnabled(s, c, Fail) <==> CallerEnabled(s, c, Succeed)
    ensures CallerEnabled(s, c, Retry) <==> c in s.callers && s.callers[c].BackingOff?
    ensures CallerEnabled(s, c, Cancel) <==>
              c in s.callers && !s.callers[c].Returned? && !s.callers[c].Raised? && !s.callers[c].Cancelled?
    ensures WarmupDone(s) <==> WARMUP in s.callers && (s.callers[WARMUP].Returned? || s.callers[WARMUP].Raised?)
  {
  }

  /** Nothing but shutdown stops it: neither refusals nor what other callers do. */
  lemma LoopKeepsTrying(s: State, l: Label)
    requires Reachable(s) && LoopAlive(s) && Enabled(s, l)
    requires l != ByLoop(Halt) && !(s.loop.Calling? && l == ByCaller(s.loop.c, Cancel))
    ensures LoopAlive(Apply(s, l))
  {
    ReachableInv(s);
  }
}
