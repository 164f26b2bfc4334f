/**
 The graph half of `Dependencies` as the object it is, together with the reconnect task and the
 readiness probe that read it. Each method is the code between two awaits and is proved to be the
 `GraphOpening` transition of the same name. `Valid` says that the fields are a reachable state and
 every method keeps it, so what `GraphClaims` proves of those holds of the object.
 */
module GraphHolder {
  import opened Options
  import opened GraphClaims
  import opened GraphOpening

  class Dependencies {
    const setting: Setting
    var graph: Option<PoolId>
    var graphLock: Option<CallerId>
    var stack: seq<PoolId>
    // The event loop's and the database's view.
    var pools: nat
    var lost: seq<PoolId>
    var callers: map<CallerId, Caller>
    var reconnect: Loop

    function View(): State
      reads this
    {
      State(setting, graph, graphLock, stack, pools, lost, callers, reconnect)
    }

    /** Some run of the methods leads here. */
    ghost predicate Valid()
      reads this
    {
      Reachable(View())
    }

    constructor (setting: Setting)
      ensures View() == Initial(setting) && Valid()
    {
      this.setting := setting;
      graph, graphLock, stack, pools, lost := None, None, [], 0, [];
      callers, reconnect := map[WARMUP := Queued], NotStarted;
    }

    /** `/readyz`: reads cached state, opens nothing. */
    method Readyz() returns (status: nat)
      ensures status == if graph.Some? then 200 else 503
    {
      status := if graph.Some? then 200 else 503;
    }

    /** A request reaches `graph()`. */
    method ArriveCaller(c: CallerId)
      requires Valid() && Enabled(View(), Arrive(c))
      modifies this
      ensures Valid() && View() == Apply(old(View()), Arrive(c))
      ensures callers[c].Returned? ==> graph == Some(callers[c].graph)
      ensures callers[c] == if old(graph).Some? then Returned(old(graph).value) else Queued
    {
      ghost var next := Step(View(), Arrive(c));
      ReachableInv(View());
      ReachableInv(next);
      LookUnlocked(c);
    }

    method LookUnlocked(c: CallerId)
      requires c !in callers
      modifies this`callers
      ensures View() == Enter(old(View()), c)
      ensures callers[c] == if old(graph).Some? then Returned(old(graph).value) else Queued
    {
      if graph.Some? {
        callers := callers[c := Returned(graph.value)];
      } else {
        callers := callers[c := Queued];
      }
    }

    /** The re-check inside the lock, and the start of the first attempt. */
    method EnterLock(c: CallerId)
      requires Valid() && CallerEnabled(View(), c, Acquire)
      modifies this
      ensures Valid() && View() == CallerApply(old(View()), c, Acquire)
      ensures callers[c].Returned? ==> graph == Some(callers[c].graph)
      ensures callers[c] == if old(graph).Some? then Returned(old(graph).value) else Entering(1)
      ensures graphLock == if old(graph).Some? then old(graphLock) else Some(c)
    {
      ghost var next := Step(View(), ByCaller(c, Acquire));
      ReachableInv(View());
      ReachableInv(next);
      if graph.Some? {
        callers := callers[c := Returned(graph.value)];
      } else {
        graphLock := Some(c);
        callers := callers[c := Entering(1)];
      }
    }

    /** The pool is entered, or `setup` has returned: push the closer, publish the graph, leave the lock. */
    method BuildStepDone(c: CallerId)
      requires Valid() && CallerEnabled(View(), c, Succeed)
      modifies this
      ensures Valid() && View() == CallerApply(old(View()), c, Succeed)
      ensures graph.Some? ==> stack == [graph.value] && callers[c] == Returned(graph.value)
      ensures pools - |stack| == |lost| + |InHand(View())|
      ensures old(callers)[c].Entering? ==> callers[c] == SettingUp(old(callers)[c].attempt, old(pools))
      ensures old(callers)[c].SettingUp? ==> graph == Some(old(callers)[c].pool) && graphLock.None?
    {
      ghost var next := Step(View(), ByCaller(c, Succeed));
      ReachableInv(View());
      ReachableInv(next);
      PoolsAccounted(next);
      if callers[c].Entering? {
        callers := callers[c := SettingUp(callers[c].attempt, pools)];
        pools := pools + 1;
      } else {
        var pool := callers[c].pool;
        stack := stack + [pool];
        graph := Some(pool);
        graphLock := None;
        callers := callers[c := Returned(pool)];
      }
    }

    /** An attempt raised. A pool it had entered is held by nobody from here on. */
    method BuildStepFailed(c: CallerId)
      requires Valid() && CallerEnabled(View(), c, Fail)
      modifies this
      ensures Valid() && View() == CallerApply(old(View()), c, Fail)
      ensures pools - |stack| == |lost| + |InHand(View())|
      ensures callers[c] == if old(callers)[c].attempt < 3 then BackingOff(old(callers)[c].attempt) else Raised
      ensures graphLock == (if old(callers)[c].attempt < 3 then Some(c) else None) && graph == old(graph)
    {
      ghost var next := Step(View(), ByCaller(c, Fail));
      ReachableInv(View());
      ReachableInv(next);
      PoolsAccounted(next);
      if callers[c].SettingUp? {
        lost := lost + [callers[c].pool];
      }
      if callers[c].attempt < OPEN_ATTEMPTS {
        callers := callers[c := BackingOff(callers[c].attempt)];
      } else {
        graphLock := None;
        callers := callers[c := Raised];
      }
    }

    method NextAttempt(c: CallerId)
      requires Valid() && CallerEnabled(View(), c, Retry)
      modifies this
      ensures Valid() && View() == CallerApply(old(View()), c, Retry)
      ensures callers[c].attempt <= OPEN_ATTEMPTS
      ensures callers[c] == Entering(old(callers)[c].attempt + 1)
    {
      ghost var next := Step(View(), ByCaller(c, Retry));
      ReachableInv(View());
      ReachableInv(next);
      callers := callers[c := Entering(callers[c].attempt + 1)];
    }

    method CancelCaller(c: CallerId)
      requires Valid() && CallerEnabled(View(), c, Cancel)
      modifies this
      ensures Valid() && View() == CallerApply(old(View()), c, Cancel)
      ensures pools - |stack| == |lost| + |InHand(View())|
      ensures callers[c].Cancelled? && graph == old(graph)
      ensures graphLock == if old(callers)[c].Queued? then old(graphLock) else None
    {
      ghost var next := Step(View(), ByCaller(c, Cancel));
      ReachableInv(View());
      ReachableInv(next);
      PoolsAccounted(next);
      if callers[c].SettingUp? {
        lost := lost + [callers[c].pool];
      }
      if !callers[c].Queued? {
        graphLock := None;
      }
      callers := callers[c := Cancelled];
    }

    /** One turn of `reconnect_forever`, from wherever it is suspended to its next suspension. */
    method TurnLoop(m: LoopMove)
      requires Valid() && LoopEnabled(View(), m)
      modifies this
      ensures Valid() && View() == LoopApply(old(View()), m)
      ensures reconnect.Settled? ==> graph.Some?
      ensures m.Check? ==> reconnect == if old(graph).Some? then Settled else Calling(m.c)
      ensures m.Resume? && old(callers)[old(reconnect).c].Raised? ==> reconnect == Sleeping
      ensures m.Resume? && old(callers)[old(reconnect).c].Returned? ==> reconnect == Checking
    {
      ghost var next := Step(View(), ByLoop(m));
      ReachableInv(View());
      ReachableInv(next);
      match m
      case Start => reconnect := Checking;
      case Check(c) =>
        if graph.Some? {
          reconnect := Settled;
        } else {
          LookUnlocked(c);
          reconnect := Calling(c);
        }
      case Resume =>
        if callers[reconnect.c].Returned? {
          reconnect := Checking;
        } else if callers[reconnect.c].Raised? {
          reconnect := Sleeping;
        } else {
          reconnect := Stopped;
        }
      case Wake => reconnect := Checking;
      case Halt => reconnect := Stopped;
    }
  }
}
