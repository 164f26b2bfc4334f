/**
 `Dependencies` as the object it is: fields written in place by the coroutines that share it. Each
 method is the code one coroutine runs between two awaits, and is proved to be the transition of
 the same name. `Valid` says that the fields are a reachable state: every method keeps it, so what
 `McpSessionClaims` proves of reachable states holds of the object after any sequence of its methods.
 */
module McpSessionHolder {
  import opened Options
  import opened McpSession
  import opened McpSessionClaims
  import opened McpSessionOnce

  class Dependencies {
    var session: Option<nat>
    var sessionTask: Option<TaskId>
    var sessionUp: bool
    var sessionClosing: bool
    var sessionError: Option<TaskId>
    var sessionLock: Option<CallerId>
    // The event loop's view: where every coroutine is suspended, and what was entered and exited.
    var tasks: seq<ServeTask>
    var callers: map<CallerId, Caller>
    var closer: Closer
    var log: seq<Event>

    function View(): State
      reads this
    {
      State(session, sessionTask, sessionUp, sessionClosing, sessionError, sessionLock, tasks, callers, closer, log)
    }

    /** Some run of the methods leads here. */
    ghost predicate Valid()
      reads this
    {
      Reachable(View())
    }

    constructor ()
      ensures View() == INITIAL && Valid()
    {
      session, sessionTask, sessionError, sessionLock := None, None, None, None;
      sessionUp, sessionClosing := false, false;
      tasks, callers, closer, log := [], map[], NotClosing, [];
    }

    /** `session()` up to the lock. */
    method CallSession(c: CallerId)
      requires Valid() && CallerEnabled(View(), c, Call)
      modifies this
      ensures Valid() && View() == CallerApply(old(View()), c, Call)
      ensures callers[c].Returned? ==> Published(tasks, callers[c].session)
      ensures callers[c] == if old(session).Some? then Returned(old(session).value) else Queued
    {
      ghost var next := Do(View(), ByCaller(c, Call));
      OutcomesJustified(next, c);
      if session.Some? {
        callers := callers[c := Returned(session.value)];
      } else {
        callers := callers[c := Queued];
      }
    }

    /** From the lock to the wait on `_session_up`, or straight through it when it is set. */
    method EnterLock(c: CallerId)
      requires Valid() && CallerEnabled(View(), c, Acquire)
      modifies this
      ensures Valid() && View() == CallerApply(old(View()), c, Acquire)
      ensures old(|tasks|) == 1 ==> (|tasks| == 2 <==> Reopens(old(tasks)[0]))
      ensures old(session).Some? ==> callers[c] == Returned(old(session).value) && tasks == old(tasks)
      ensures old(session).None? ==>
                && tasks == old(tasks) + [ServeTask(Connecting, 1, [], None)] && sessionTask == Some(old(|tasks|))
                && if !old(sessionUp) then callers[c] == Waiting(old(|tasks|)) && sessionLock == Some(c)
                   else if old(sessionError).Some? then callers[c] == Raised(old(sessionError).value)
                   else callers[c].AssertionFailed?
    {
      ghost var next := Do(View(), ByCaller(c, Acquire));
      if |tasks| == 1 {
        SecondOpenIff(View(), c);
      }
      if session.Some? {
        callers := callers[c := Returned(session.value)];
        return;
      }
      var t := |tasks|;
      tasks := tasks + [FRESH];
      sessionTask := Some(t);
      if !sessionUp {
        sessionLock := Some(c);
        callers := callers[c := Waiting(t)];
      } else if sessionError.Some? {
        callers := callers[c := Raised(sessionError.value)];
      } else {
        callers := callers[c := AssertionFailed];
      }
    }

    /** After the wait on `_session_up`. */
    method Wake(c: CallerId)
      requires Valid() && CallerEnabled(View(), c, McpSession.Wake)
      modifies this
      ensures Valid() && View() == CallerApply(old(View()), c, McpSession.Wake)
      ensures callers[c].Returned? ==> Published(tasks, callers[c].session)
      ensures callers[c].Raised? ==> EndedInFailure(View(), callers[c].error)
      ensures callers[c].AssertionFailed? ==> sessionClosing
      ensures sessionLock.None?
      ensures old(sessionError).Some? ==> callers[c] == Raised(old(sessionError).value)
      ensures old(sessionError).None? && old(session).Some? ==> callers[c] == Returned(old(session).value)
      ensures old(sessionError).None? && old(session).None? ==> callers[c].AssertionFailed?
    {
      ghost var next := Do(View(), ByCaller(c, McpSession.Wake));
      OutcomesJustified(next, c);
      sessionLock := None;
      if sessionError.Some? {
        callers := callers[c := Raised(sessionError.value)];
      } else if session.Some? {
        callers := callers[c := Returned(session.value)];
      } else {
        callers := callers[c := AssertionFailed];
      }
    }

    /** A node deadline cancels the caller; leaving the `async with` releases the lock it holds. */
    method CancelCaller(c: CallerId)
      requires Valid() && CallerEnabled(View(), c, Cancel)
      modifies this
      ensures Valid() && View() == CallerApply(old(View()), c, Cancel)
      ensures tasks == old(tasks)
      ensures old(callers)[c].Queued? ==> callers[c].Cancelled? && sessionLock == old(sessionLock)
      ensures old(callers)[c].Waiting? ==> callers[c] == Abandoned(old(callers)[c].task) && sessionLock.None?
    {
      ghost var next := Do(View(), ByCaller(c, Cancel));
      if callers[c].Waiting? {
        sessionLock := None;
        callers := callers[c := Abandoned(callers[c].task)];
      } else {
        callers := callers[c := Cancelled];
      }
    }

    predicate TaskCan(t: TaskId, m: TaskMove)
      reads this
    {
      t < |tasks| && TaskEnabled(tasks[t], m, sessionClosing)
    }

    /** `_serve_session` after an open step that succeeded. */
    method OpenStepDone(t: TaskId)
      requires Valid() && TaskCan(t, Advance)
      modifies this
      ensures Valid() && View() == TaskApply(old(View()), t, Advance)
      ensures old(tasks)[t].phase.Initializing? ==>
                session == Some(old(tasks)[t].phase.client) && sessionUp && log == old(log)
      ensures old(tasks)[t].phase.Connecting? ==>
                log == old(log) + [Entered(t, Transport(|old(log)|))] && session == old(session)
      ensures old(tasks)[t].phase.Handshaking? ==>
                log == old(log) + [Entered(t, Client(|old(log)|))] && session == old(session)
    {
      ghost var next := Do(View(), ByTask(t, Advance));
      var task, id := tasks[t], |log|;
      match task.phase
      case Connecting =>
        log := log + [Entered(t, Transport(id))];
        tasks := tasks[t := task.(phase := Handshaking, stack := task.stack + [Transport(id)])];
      case Handshaking =>
        log := log + [Entered(t, Client(id))];
        tasks := tasks[t := task.(phase := Initializing(id), stack := task.stack + [Client(id)])];
      case Initializing(x) =>
        session := Some(x);
        sessionUp := true;
        tasks := tasks[t := task.(phase := if sessionClosing then Unwinding(false) else Parked, published := Some(x))];
      case _ =>
    }

    /** An open step raised: back off, or unwind once the attempts are spent. */
    method OpenStepFailed(t: TaskId)
      requires Valid() && TaskCan(t, Fail)
      modifies this
      ensures Valid() && View() == TaskApply(old(View()), t, Fail)
      ensures tasks[t].phase == if old(tasks)[t].attempt < 3 then BackingOff else Unwinding(true)
      ensures tasks[t].attempt == old(tasks)[t].attempt && sessionUp == old(sessionUp) && session == old(session)
    {
      ghost var next := Do(View(), ByTask(t, Fail));
      if tasks[t].attempt < OPEN_ATTEMPTS {
        tasks := tasks[t := tasks[t].(phase := BackingOff)];
      } else {
        tasks := tasks[t := tasks[t].(phase := Unwinding(true))];
      }
    }

    method NextAttempt(t: TaskId)
      requires Valid() && TaskCan(t, Retry)
      modifies this
      ensures Valid() && View() == TaskApply(old(View()), t, Retry)
      ensures tasks[t].phase.Connecting? && tasks[t].attempt == old(tasks)[t].attempt + 1
      ensures tasks[t].stack == old(tasks)[t].stack
    {
      ghost var next := Do(View(), ByTask(t, Retry));
      tasks := tasks[t := tasks[t].(phase := Connecting, attempt := tasks[t].attempt + 1)];
    }

    /** The parked task is resumed, by an error from its transport or by the closing event. */
    method LeavePark(t: TaskId, dropped: bool)
      requires Valid() && TaskCan(t, if dropped then Drop else NoticeClosing)
      modifies this
      ensures Valid() && View() == TaskApply(old(View()), t, if dropped then Drop else NoticeClosing)
      ensures tasks[t] == old(tasks)[t].(phase := Unwinding(dropped)) && session == old(session)
    {
      ghost var next := Do(View(), ByTask(t, if dropped then Drop else NoticeClosing));
      tasks := tasks[t := tasks[t].(phase := Unwinding(dropped))];
    }

    /** One context of the task's exit stack is exited, by that task. */
    method PopContext(t: TaskId, raises: bool)
      requires Valid() && TaskCan(t, Exit(raises))
      modifies this
      ensures Valid() && View() == TaskApply(old(View()), t, Exit(raises))
      ensures EnteredBy(log, t) == tasks[t].stack + Reverse(ExitedBy(log, t))
      ensures Transports(EnteredBy(log, t)) <= OPEN_ATTEMPTS
      ensures tasks[t].phase == Unwinding(old(tasks)[t].phase == Unwinding(true) || raises)
      ensures |tasks[t].stack| == |old(tasks)[t].stack| - 1
    {
      ghost var next := Do(View(), ByTask(t, Exit(raises)));
      ExitDiscipline(next, t);
      var task := tasks[t];
      var top := |task.stack| - 1;
      log := log + [Exited(t, task.stack[top])];
      tasks := tasks[t := task.(phase := Unwinding(task.phase.failed || raises), stack := task.stack[..top])];
    }

    /** The `except` and `finally` of `_serve_session`. */
    method ServeFinally(t: TaskId)
      requires Valid() && TaskCan(t, Finish)
      modifies this
      ensures Valid() && View() == TaskApply(old(View()), t, Finish)
      ensures sessionUp && EnteredBy(log, t) == Reverse(ExitedBy(log, t))
      ensures session.None?
      ensures sessionError == if old(tasks)[t].phase == Unwinding(true) then Some(t) else old(sessionError)
    {
      ghost var next := Do(View(), ByTask(t, Finish));
      ExitDiscipline(next, t);
      if tasks[t].phase.failed {
        sessionError := Some(t);
      }
      session := None;
      sessionUp := true;
      tasks := tasks[t := tasks[t].(phase := Ended(tasks[t].phase.failed))];
    }

    /** `aclose` up to its await. */
    method StartClose()
      requires Valid() && CloserEnabled(View(), BeginClose)
      modifies this
      ensures Valid() && View() == CloserApply(old(View()), BeginClose)
      ensures old(sessionTask).Some? ==> sessionClosing && closer == Awaiting(old(sessionTask).value)
      ensures old(sessionTask).None? ==> sessionClosing == old(sessionClosing) && closer == Closed(None)
    {
      ghost var next := Do(View(), ByCloser(BeginClose));
      if sessionTask.Some? {
        sessionClosing := true;
        closer := Awaiting(sessionTask.value);
      } else {
        closer := Closed(None);
      }
    }

    /** `aclose` after its await, whether the task ended or the await was itself cancelled. */
    method EndClose(interrupted: bool)
      requires Valid() && CloserEnabled(View(), if interrupted then InterruptClose else FinishClose)
      modifies this
      ensures Valid() && View() == CloserApply(old(View()), if interrupted then InterruptClose else FinishClose)
      ensures closer.Closed? ==>
                && tasks[old(closer.task)].phase.Ended?
                && (NothingOpen(View()) <==>
                    forall t: nat :: t < |tasks| && t != old(closer.task) ==> tasks[t].stack == [])
      ensures sessionTask.None? && (closer.Closed? <==> !interrupted)
    {
      ghost var next := Do(View(), ByCloser(if interrupted then InterruptClose else FinishClose));
      if !interrupted {
        ReachableInv(next);
        CloseReleasesEverything(next);
      }
      sessionTask := None;
      closer := if interrupted then CutShort(closer.task) else Closed(Some(closer.task));
    }
  }
}
