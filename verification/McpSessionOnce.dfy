/**
 Exactly when `Dependencies.session` opens a second time, step by step and over whole runs.
 */
module McpSessionOnce {
  import opened Options
  import opened McpSession
  import opened McpSessionClaims

  /** No task, nothing set; one task, and the session and the event are that task's doing. */
  ghost predicate Solo(s: State) {
    && (s.tasks == [] ==> !s.up && s.session.None?)
    && (|s.tasks| == 1 ==>
          var task := s.tasks[0];
          && (s.session.Some? <==> task.published.Some? && !task.phase.Ended?)
          && (s.up <==> task.published.Some? || task.phase.Ended?))
  }

  /** The caller a task was created for. */
  predicate Creator(k: Caller, t: TaskId) {
    k == Waiting(t) || k == Abandoned(t)
  }

  ghost predicate HasCreator(s: State) {
    |s.tasks| == 1 && !s.up ==> exists c :: c in s.callers && Creator(s.callers[c], 0)
  }

  lemma SoloTask(s: State, t: TaskId, m: TaskMove)
    requires Solo(s) && t < |s.tasks| && TaskEnabled(s.tasks[t], m, s.closing) && TaskOk(s.log, t, s.tasks[t])
    ensures Solo(TaskApply(s, t, m))
  {
  }

  lemma SoloCaller(s: State, c: CallerId, m: CallerMove)
    requires Solo(s) && CallerEnabled(s, c, m)
    ensures Solo(CallerApply(s, c, m))
  {
  }

  lemma SoloStep(s: State, l: Label)
    requires TasksInv(s) && Solo(s) && Enabled(s, l)
    ensures Solo(Apply(s, l))
  {
    if l.ByCaller? {
      SoloCaller(s, l.c, l.call);
    } else if l.ByTask? {
      assert TaskOk(s.log, l.t, s.tasks[l.t]);
      SoloTask(s, l.t, l.task);
    }
  }

  lemma CreatorStep(s: State, l: Label)
    requires Solo(s) && HasCreator(s) && Enabled(s, l)
    ensures HasCreator(Apply(s, l))
  {
    var s' := Apply(s, l);
    if |s'.tasks| == 1 && !s'.up {
      if l.ByCaller? && Creates(s, l.call) {
        assert l.c in s'.callers && Creator(s'.callers[l.c], 0);
      } else {
        var c :| c in s.callers && Creator(s.callers[c], 0);
        assert c in s'.callers && Creator(s'.callers[c], 0);
      }
    }
  }

  lemma ReachableSolo(s: State)
    requires Reachable(s)
    ensures Inv(s) && Solo(s) && HasCreator(s)
  {
    var p := iset x: State | Inv(x) && Solo(x) && HasCreator(x);
    forall x: State, l | x in p && Enabled(x, l) ensures Apply(x, l) in p {
      InvStep(x, l);
      SoloStep(x, l);
      CreatorStep(x, l);
    }
    InvInitial();
    assert INITIAL in p;
    assert Invariant(p);
  }

  /** The guard on which a second task is created: the first one ended, or has not published. */
  predicate Reopens(task: ServeTask) {
    task.phase.Ended? || task.published.None?
  }

  /** A caller that gets the lock opens a second time exactly when the one task ended or has not published. */
  lemma SecondOpenIff(s: State, c: CallerId)
    requires Reachable(s) && |s.tasks| == 1 && CallerEnabled(s, c, Acquire)
    ensures |CallerApply(s, c, Acquire).tasks| == 2 <==> Reopens(s.tasks[0])
  {
    ReachableSolo(s);
  }

  /** And that takes one of three causes: a failed open, shutdown, or a caller cancelled under the lock. */
  lemma ReopensIffCause(s: State, c: CallerId)
    requires Reachable(s) && |s.tasks| == 1 && CallerEnabled(s, c, Acquire)
    ensures Reopens(s.tasks[0]) <==>
            || s.tasks[0].phase == Ended(true)
            || (s.tasks[0].phase == Ended(false) && s.closing)
            || (s.tasks[0].published.None? && exists d :: d in s.callers && s.callers[d] == Abandoned(0))
  {
    ReachableSolo(s);
    if s.tasks[0].published.None? && !s.tasks[0].phase.Ended? {
      var d :| d in s.callers && Creator(s.callers[d], 0);
      assert s.callers[d] == Abandoned(0);
    }
  }

  // ---- whole runs ---------------------------------------------------------------------------------

  /** A run with the states it goes through. */
  ghost predicate Run(states: seq<State>, labels: seq<Label>) {
    && |states| == |labels| + 1 && states[0] == INITIAL
    && forall k :: 0 <= k < |labels| ==> Enabled(states[k], labels[k]) && states[k + 1] == Apply(states[k], labels[k])
  }

  lemma {:induction false} RunReachable(states: seq<State>, labels: seq<Label>, k: nat)
    requires Run(states, labels) && k < |states|
    ensures Reachable(states[k])
  {
    if k > 0 {
      RunReachable(states, labels, k - 1);
      var _ := Do(states[k - 1], labels[k - 1]);
    }
  }

  /** Step `k` of the run hands the lock to a caller while the only task has ended or not published. */
  ghost predicate ReopensAt(states: seq<State>, labels: seq<Label>, k: nat) {
    && k < |labels| && k < |states| && |states[k].tasks| == 1 && Reopens(states[k].tasks[0])
    && labels[k].ByCaller? && labels[k].call.Acquire?
  }

  lemma TasksGrow(s: State, l: Label)
    requires Enabled(s, l)
    ensures |s.tasks| <= |Apply(s, l).tasks| <= |s.tasks| + 1
    ensures |Apply(s, l).tasks| > |s.tasks| ==> l.ByCaller? && l.call.Acquire?
  {
  }

  lemma SecondTaskAt(states: seq<State>, labels: seq<Label>, k: nat)
    requires Run(states, labels) && k < |labels| && |states[k].tasks| <= 1
    ensures |states[k + 1].tasks| >= 2 <==> ReopensAt(states, labels, k)
  {
    RunReachable(states, labels, k);
    TasksGrow(states[k], labels[k]);
    if |states[k].tasks| == 1 && labels[k].ByCaller? && labels[k].call.Acquire? {
      SecondOpenIff(states[k], labels[k].c);
    }
  }

  /** Over every run: at most one task is ever created exactly when the lock is never handed over on that guard. */
  lemma {:induction false} OpenedAtMostOnceIff(states: seq<State>, labels: seq<Label>, n: nat)
    requires Run(states, labels) && n < |states|
    ensures |states[n].tasks| <= 1 <==> forall k: nat :: k < n ==> !ReopensAt(states, labels, k)
  {
    if n > 0 {
      OpenedAtMostOnceIff(states, labels, n - 1);
      TasksGrow(states[n - 1], labels[n - 1]);
      if |states[n - 1].tasks| <= 1 {
        SecondTaskAt(states, labels, n - 1);
      }
    }
  }

  /** And then every caller that returns has the one session there ever was. */
  lemma OneSession(s: State, c: CallerId)
    requires Reachable(s) && |s.tasks| <= 1 && c in s.callers && s.callers[c].Returned?
    ensures |s.tasks| == 1 && s.tasks[0].published == Some(s.callers[c].session)
  {
    ReachableInv(s);
    assert Published(s.tasks, s.callers[c].session);
  }
}
