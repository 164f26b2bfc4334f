/**
 What holds in every reachable state of `McpSession`: how often a session is opened, who gets what,
 what is entered and exited, and that no caller waits for ever.
 */
module McpSessionClaims {
  import opened Options
  import opened McpSession

  // ---- safety -------------------------------------------------------------------------------------

  /**
   In every run, each serve task after the first is paid for by a caller of its own that raised,
   tripped the assertion or was cancelled under the lock. While there is no such caller there is
   at most one task, and every session handed out is the one that task published.
   */
  lemma OpenedOnce(s: State)
    requires Reachable(s)
    ensures |s.tasks| <= 1 + |DisappointedCallers(s)|
    ensures DisappointedCallers(s) == {} ==> |s.tasks| <= 1
    ensures DisappointedCallers(s) == {} ==> forall c :: c in s.callers && s.callers[c].Returned? ==>
              |s.tasks| == 1 && s.tasks[0].published == Some(s.callers[c].session)
  {
    ReachableInv(s);
    if DisappointedCallers(s) == {} {
      forall c | c in s.callers && s.callers[c].Returned?
        ensures |s.tasks| == 1 && s.tasks[0].published == Some(s.callers[c].session)
      {
        assert Published(s.tasks, s.callers[c].session);
      }
    }
  }

  /** Before shutdown, with no failed task and no caller cancelled under the lock, nobody is disappointed. */
  lemma NobodyDisappointedWithoutCause(s: State)
    requires Reachable(s) && !s.closing
    requires forall t: nat :: t < |s.tasks| ==> s.tasks[t].phase != Ended(true)
    requires forall c :: c in s.callers ==> !s.callers[c].Abandoned?
    ensures DisappointedCallers(s) == {} && |s.tasks| <= 1
  {
    ReachableInv(s);
    OpenedOnce(s);
    assert forall c :: c in s.callers ==> !Disappointed(s.callers[c]);
  }

  /** However a call ends, there is a reason: a published session, a failed task, or shutdown. */
  lemma OutcomesJustified(s: State, c: CallerId)
    requires Reachable(s) && c in s.callers
    ensures s.callers[c].Returned? ==> Published(s.tasks, s.callers[c].session)
    ensures s.callers[c].Raised? ==> EndedInFailure(s, s.callers[c].error)
    ensures s.callers[c].AssertionFailed? ==> s.closing
  {
    ReachableInv(s);
  }

  /** A caller parked on an unset event holds the lock, and the newest task, still running, is its own. */
  lemma NoLostWaiter(s: State, c: CallerId)
    requires Reachable(s) && c in s.callers && s.callers[c].Waiting?
    ensures s.lock == Some(c) && s.callers[c].task == |s.tasks| - 1
    ensures !s.up ==> !s.tasks[s.callers[c].task].phase.Ended? && !s.tasks[s.callers[c].task].phase.Parked?
  {
    ReachableInv(s);
  }

  /** Every transport is exited by the task that entered it, newest first, and a task enters at most three. */
  lemma ExitDiscipline(s: State, t: TaskId)
    requires Reachable(s)
    ensures Transports(EnteredBy(s.log, t)) <= OPEN_ATTEMPTS
    ensures t < |s.tasks| ==> EnteredBy(s.log, t) == s.tasks[t].stack + Reverse(ExitedBy(s.log, t))
    ensures t < |s.tasks| && s.tasks[t].phase.Ended? ==> EnteredBy(s.log, t) == Reverse(ExitedBy(s.log, t))
  {
    ReachableInv(s);
    if t < |s.tasks| {
      assert TaskOk(s.log, t, s.tasks[t]);
    } else {
      assert EnteredBy(s.log, t) == [];
    }
  }

  lemma BalancedCloses(log: seq<Event>, t: TaskId, stack: seq<Context>)
    requires Balanced(log, t, stack)
    ensures EnteredBy(log, t) == Reverse(ExitedBy(log, t)) <==> stack == []
  {
    var out := Reverse(ExitedBy(log, t));
    assert |stack + out| == |stack| + |out|;
    assert stack == [] ==> stack + out == out;
  }

  /** Everything entered has been exited exactly when every task's stack is empty, however many tasks there were. */
  lemma NothingOpenIff(s: State)
    requires Reachable(s)
    ensures NothingOpen(s) <==> forall t: nat :: t < |s.tasks| ==> s.tasks[t].stack == []
  {
    ReachableInv(s);
    forall t: nat
      ensures EnteredBy(s.log, t) == Reverse(ExitedBy(s.log, t)) <==> (t < |s.tasks| ==> s.tasks[t].stack == [])
    {
      if t < |s.tasks| {
        assert TaskOk(s.log, t, s.tasks[t]);
        BalancedCloses(s.log, t, s.tasks[t].stack);
      } else {
        assert EnteredBy(s.log, t) == [] && ExitedBy(s.log, t) == [];
      }
    }
  }

  /**
   When `aclose` has waited, its task has ended and what is still open is exactly what other tasks
   hold: nothing, if there was only one, as there was if nobody was disappointed.
   */
  lemma CloseReleasesEverything(s: State)
    requires Reachable(s) && s.closer.Closed? && s.closer.awaited.Some?
    ensures s.closer.awaited.value < |s.tasks| && s.tasks[s.closer.awaited.value].phase.Ended?
    ensures NothingOpen(s) <==>
            forall t: nat :: t < |s.tasks| && t != s.closer.awaited.value ==> s.tasks[t].stack == []
    ensures |s.tasks| == 1 ==> NothingOpen(s)
    ensures DisappointedCallers(s) == {} ==> NothingOpen(s)
  {
    ReachableInv(s);
    OpenedOnce(s);
    NothingOpenIff(s);
    var last := s.closer.awaited.value;
    assert TaskOk(s.log, last, s.tasks[last]);
  }

  /**
   `_session_up` is never cleared. So once it is set, a caller that has to open a session neither
   waits for the task it creates nor gets its session: it raises the recorded error of an older
   task, or trips the assertion when there is none.
   */
  lemma LateOpenNeverServes(s: State, c: CallerId)
    requires Reachable(s) && CallerEnabled(s, c, Acquire) && s.up && s.session.None?
    ensures var s' := CallerApply(s, c, Acquire);
            && |s'.tasks| == |s.tasks| + 1
            && match s'.callers[c]
               case Raised(e) => e < |s.tasks| && s.tasks[e].phase == Ended(true)
               case AssertionFailed => s.closing
               case _ => false
  {
    ReachableInv(s);
    if s.error.Some? {
      assert EndedInFailure(s, s.error.value);
    }
  }

  // ---- bounded release --------------------------------------------------------------------------

  function OwnSteps(labels: seq<Label>, t: TaskId): nat {
    if labels == [] then 0
    else
      var l := labels[|labels| - 1];
      OwnSteps(labels[..|labels| - 1], t) + if l.ByTask? && l.t == t then 1 else 0
  }

  /** A task that has neither ended nor parked can always take a step, and no step of it is wasted. */
  lemma TaskProgress(s: State, t: TaskId) returns (m: TaskMove)
    requires Inv(s) && t < |s.tasks| && !s.tasks[t].phase.Ended? && !s.tasks[t].phase.Parked?
    ensures TaskEnabled(s.tasks[t], m, s.closing)
    ensures Work(TaskApply(s, t, m).tasks[t]) < Work(s.tasks[t]) <= Work(FRESH)
  {
    var p := s.tasks[t].phase;
    m := if Opening(p) then Advance else if p.BackingOff? then Retry
         else if s.tasks[t].stack != [] then Exit(false) else Finish;
    assert TaskOk(s.log, t, s.tasks[t]);
    StepUsesWork(s.tasks[t], m, s.closing, |s.log|);
  }

  lemma WorkStep(s: State, l: Label, t: TaskId)
    requires TasksInv(s) && t < |s.tasks| && Enabled(s, l)
    ensures t < |Apply(s, l).tasks|
    ensures Work(Apply(s, l).tasks[t]) <= Work(s.tasks[t]) - if l.ByTask? && l.t == t then 1 else 0
  {
    if l.ByTask? && l.t == t {
      assert TaskOk(s.log, t, s.tasks[t]);
      StepUsesWork(s.tasks[t], l.task, s.closing, |s.log|);
    }
  }

  lemma {:induction false} WorkAlong(s: State, labels: seq<Label>, s': State, t: TaskId)
    requires Inv(s) && t < |s.tasks| && Leads(s, labels, s')
    ensures Inv(s') && t < |s'.tasks| && Work(s'.tasks[t]) <= Work(s.tasks[t]) - OwnSteps(labels, t)
    decreases |labels|
  {
    if labels != [] {
      var n := |labels| - 1;
      var mid :| Leads(s, labels[..n], mid) && Enabled(mid, labels[n]) && s' == Apply(mid, labels[n]);
      WorkAlong(s, labels[..n], mid, t);
      WorkStep(mid, labels[n], t);
      InvStep(mid, labels[n]);
    }
  }

  lemma NoWorkLeftMeansUp(s: State, t: TaskId)
    requires Inv(s) && t < |s.tasks| && Work(s.tasks[t]) <= 0
    ensures s.up
  {
    assert TaskOk(s.log, t, s.tasks[t]);
    assert s.tasks[t].phase.Ended?;
  }

  /**
   Nineteen steps of the task it created release a waiting caller, whatever those steps are and
   whatever everybody else does in between.
   */
  lemma WaiterReleased(s: State, c: CallerId, t: TaskId, labels: seq<Label>, s': State)
    requires Reachable(s) && c in s.callers && s.callers[c] == Waiting(t) && Leads(s, labels, s')
    ensures t < |s.tasks| && Work(s.tasks[t]) <= Work(FRESH) == 19
    ensures OwnSteps(labels, t) >= Work(s.tasks[t]) ==> s'.up
  {
    ReachableInv(s);
    assert TaskOk(s.log, t, s.tasks[t]);
    WorkAlong(s, labels, s', t);
    if OwnSteps(labels, t) >= Work(s.tasks[t]) {
      NoWorkLeftMeansUp(s', t);
    }
  }
}
