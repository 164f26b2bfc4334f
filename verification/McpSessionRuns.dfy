/**
 Runs on which the promises of `Dependencies.session` fail once their conditions do: after a failed
 open, after a caller cancelled under the lock, and after shutdown.
 */
module McpSessionRuns {
  import opened Options
  import opened McpSession
  import opened McpSessionClaims

  lemma TaskDo(s: State, t: TaskId, m: TaskMove) returns (s': State)
    requires Reachable(s) && t < |s.tasks| && TaskEnabled(s.tasks[t], m, s.closing)
    ensures Reachable(s') && s' == TaskApply(s, t, m)
  {
    s' := Do(s, ByTask(t, m));
  }

  lemma CallerDo(s: State, c: CallerId, m: CallerMove) returns (s': State)
    requires Reachable(s) && CallerEnabled(s, c, m)
    ensures Reachable(s') && s' == CallerApply(s, c, m)
  {
    s' := Do(s, ByCaller(c, m));
  }

  lemma CloserDo(s: State, m: CloserMove) returns (s': State)
    requires Reachable(s) && CloserEnabled(s, m)
    ensures Reachable(s') && s' == CloserApply(s, m)
  {
    s' := Do(s, ByCloser(m));
  }

  lemma Overwrite<T>(xs: seq<T>, i: nat, x: T, y: T)
    requires i < |xs|
    ensures xs[i := x][i := y] == xs[i := y]
  {
  }

  /** A refused connection and the back-off after it. */
  lemma Refused(s: State, t: TaskId, n: nat) returns (s': State)
    requires Reachable(s) && t < |s.tasks| && s.tasks[t] == ServeTask(Connecting, n, [], None) && n < OPEN_ATTEMPTS
    ensures Reachable(s') && s' == s.(tasks := s.tasks[t := ServeTask(Connecting, n + 1, [], None)])
  {
    s' := TaskDo(s, t, Fail);
    s' := TaskDo(s', t, Retry);
    Overwrite(s.tasks, t, ServeTask(BackingOff, n, [], None), ServeTask(Connecting, n + 1, [], None));
  }

  /** Three refused connections. */
  lemma OpenFails(s: State, t: TaskId) returns (s': State)
    requires Reachable(s) && t < |s.tasks| && s.tasks[t] == FRESH
    ensures Reachable(s')
    ensures s' == s.(tasks := s.tasks[t := ServeTask(Ended(true), 3, [], None)],
                     error := Some(t), session := None, up := true)
  {
    s' := Refused(s, t, 1);
    s' := Refused(s', t, 2);
    s' := TaskDo(s', t, Fail);
    s' := TaskDo(s', t, Finish);
    assert s'.tasks == s.tasks[t := ServeTask(Ended(true), 3, [], None)];
  }

  function Serving(n: nat): ServeTask {
    ServeTask(Parked, 1, [Transport(n), Client(n + 1)], Some(n + 1))
  }

  lemma Enters(s: State, t: TaskId) returns (s': State)
    requires Reachable(s) && t < |s.tasks| && s.tasks[t] == FRESH
    ensures Reachable(s')
    ensures var n := |s.log|;
            s' == s.(tasks := s.tasks[t := ServeTask(Initializing(n + 1), 1, [Transport(n), Client(n + 1)], None)],
                     log := s.log + [Entered(t, Transport(n)), Entered(t, Client(n + 1))])
  {
    var n := |s.log|;
    s' := TaskDo(s, t, Advance);
    assert s'.tasks[t].stack == [Transport(n)];
    assert s' == s.(tasks := s.tasks[t := ServeTask(Handshaking, 1, [Transport(n)], None)],
                    log := s.log + [Entered(t, Transport(n))]);
    s' := TaskDo(s', t, Advance);
    assert s'.tasks[t].stack == [Transport(n), Client(n + 1)];
    Overwrite(s.tasks, t, ServeTask(Handshaking, 1, [Transport(n)], None), s'.tasks[t]);
  }

  /** The first attempt goes through. */
  lemma OpenSucceeds(s: State, t: TaskId) returns (s': State)
    requires Reachable(s) && t < |s.tasks| && s.tasks[t] == FRESH && !s.closing
    ensures Reachable(s')
    ensures var n := |s.log|;
            s' == s.(tasks := s.tasks[t := Serving(n)], session := Some(n + 1), up := true,
                     log := s.log + [Entered(t, Transport(n)), Entered(t, Client(n + 1))])
  {
    var mid := Enters(s, t);
    s' := TaskDo(mid, t, Advance);
    Overwrite(s.tasks, t, mid.tasks[t], Serving(|s.log|));
  }

  /** A parked task notices the closing event and unwinds. */
  lemma ServingEnds(s: State, t: TaskId, n: nat) returns (s': State)
    requires Reachable(s) && t < |s.tasks| && s.tasks[t] == Serving(n) && s.closing
    ensures Reachable(s')
    ensures s' == s.(tasks := s.tasks[t := ServeTask(Ended(false), 1, [], Some(n + 1))], session := None, up := true,
                     log := s.log + [Exited(t, Client(n + 1)), Exited(t, Transport(n))])
  {
    s' := TaskDo(s, t, NoticeClosing);
    s' := TaskDo(s', t, Exit(false));
    s' := TaskDo(s', t, Exit(false));
    s' := TaskDo(s', t, Finish);
  }

  /** A new caller finds no session and goes through the lock, creating a task. */
  lemma Opens(s: State, c: CallerId) returns (s': State)
    requires Reachable(s) && c !in s.callers && s.session.None? && s.lock.None?
    ensures Reachable(s')
    ensures s' == s.(tasks := s.tasks + [FRESH], current := Some(|s.tasks|), lock := if s.up then None else Some(c),
                     callers := s.callers[c := if s.up then Outcome(None, s.error) else Waiting(|s.tasks|)])
  {
    s' := CallerDo(s, c, Call);
    s' := CallerDo(s', c, Acquire);
    assert s.callers[c := Queued][c := s'.callers[c]] == s.callers[c := s'.callers[c]];
  }

  /** The first caller's open fails and it raises. */
  lemma FirstOpenFails() returns (s: State)
    ensures Reachable(s) && s == State(None, Some(0), true, false, Some(0), None,
                                       [ServeTask(Ended(true), 3, [], None)], map[0 := Raised(0)], NotClosing, [])
  {
    s := Opens(INITIAL, 0);
    s := OpenFails(s, 0);
    s := CallerDo(s, 0, Wake);
  }

  /** Callers 1 and 2 each start another task and raise caller 0's error. */
  lemma TwoMoreTasks() returns (s: State)
    ensures Reachable(s) && !s.closing && s.log == [] && s.closer.NotClosing? && s.up && s.session.None?
    ensures s.tasks == [ServeTask(Ended(true), 3, [], None), FRESH, FRESH] && s.current == Some(2)
    ensures s.callers == map[0 := Raised(0)][1 := Raised(0)][2 := Raised(0)]
  {
    s := FirstOpenFails();
    s := Opens(s, 1);
    s := Opens(s, 2);
  }

  /**
   One failed open is enough: later callers raise its error although their own tasks open fine, two
   sessions are handed out, `aclose` awaits only the last task and returns with the other's transport open.
   */
  lemma StaleErrorRun() returns (s: State)
    ensures Reachable(s)
    ensures {1, 2, 3, 4} <= s.callers.Keys
    ensures s.callers[1] == Raised(0) && s.callers[2] == Raised(0)
    ensures s.callers[3].Returned? && s.callers[4].Returned? && s.callers[3] != s.callers[4]
    ensures |s.tasks| == 3 && s.tasks[1].phase.Parked? && s.tasks[2].phase == Ended(false)
    ensures s.closer == Closed(Some(2)) && !NothingOpen(s)
  {
    s := TwoMoreTasks();
    s := OpenSucceeds(s, 1);
    s := CallerDo(s, 3, Call);
    s := OpenSucceeds(s, 2);
    s := CallerDo(s, 4, Call);
    s := CloserDo(s, BeginClose);
    s := ServingEnds(s, 2, 2);
    s := CloserDo(s, FinishClose);
    ReachableInv(s);
    assert TaskOk(s.log, 1, s.tasks[1]);
  }

  /** A failing task's `finally` wipes the session a healthy task is serving. */
  lemma ClobberRun() returns (s: State)
    ensures Reachable(s) && |s.tasks| == 3 && s.tasks[1].phase.Parked? && s.tasks[1].published.Some?
    ensures s.tasks[2].phase == Ended(true) && s.session.None?
  {
    s := TwoMoreTasks();
    s := OpenSucceeds(s, 1);
    s := OpenFails(s, 2);
  }

  /** Without any failure: a caller cancelled under the lock leaves its task behind, and the next opens a second. */
  lemma AbandonedRun() returns (s: State)
    ensures Reachable(s) && !s.closing && s.error.None?
    ensures |s.tasks| == 2 && s.tasks[0].phase.Parked? && s.tasks[1].phase.Parked?
    ensures |DisappointedCallers(s)| == 1
  {
    s := Opens(INITIAL, 0);
    s := CallerDo(s, 0, Cancel);
    s := Opens(s, 1);
    s := OpenSucceeds(s, 0);
    s := OpenSucceeds(s, 1);
    assert DisappointedCallers(s) == {0};
  }

  /** Without any failure or cancellation: a caller after `aclose` trips the assertion and opens a second task. */
  lemma AfterCloseRun() returns (s: State)
    ensures Reachable(s) && s.error.None? && s.closer == Closed(Some(0))
    ensures |s.tasks| == 2 && s.tasks[0].phase == Ended(false) && s.tasks[1] == FRESH
    ensures 1 in s.callers && s.callers[1].AssertionFailed?
  {
    s := Opens(INITIAL, 0);
    s := OpenSucceeds(s, 0);
    s := CallerDo(s, 0, Wake);
    s := CloserDo(s, BeginClose);
    s := ServingEnds(s, 0, 0);
    s := CloserDo(s, FinishClose);
    s := Opens(s, 1);
  }
}
