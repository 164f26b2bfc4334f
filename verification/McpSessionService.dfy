/**
 What callers of `Dependencies.session` are given, and what a serve task makes of each await: the
 answers themselves, where `McpSessionClaims` says under which state they may occur.
 */
module McpSessionService {
  import opened Options
  import opened McpSession
  import opened McpSessionClaims
  import opened McpSessionOnce

  // ---- answers ------------------------------------------------------------------------------------

  /** A published session is returned at once, without the lock and under it. */
  lemma PublishedIsReturned(s: State, c: CallerId, m: CallerMove)
    requires CallerEnabled(s, c, m) && (m.Call? || m.Acquire?) && s.session.Some?
    ensures var t := CallerApply(s, c, m);
            t.callers[c] == Returned(s.session.value) && t.tasks == s.tasks && t.lock == s.lock
  {
  }

  /**
   Without one the caller queues; with the lock it starts a task and waits for it, or, when the event was
   set before, raises the recorded error, or trips the assertion if there is none.
   */
  lemma UnpublishedIsOpened(s: State, c: CallerId, m: CallerMove)
    requires CallerEnabled(s, c, m) && s.session.None?
    ensures m.Call? ==> CallerApply(s, c, m).callers[c] == Queued && CallerApply(s, c, m).tasks == s.tasks
    ensures m.Acquire? ==>
              var t := CallerApply(s, c, m);
              && t.tasks == s.tasks + [ServeTask(Connecting, 1, [], None)] && t.current == Some(|s.tasks|)
              && (!s.up ==> t.callers[c] == Waiting(|s.tasks|) && t.lock == Some(c))
              && (s.up && s.error.Some? ==> t.callers[c] == Raised(s.error.value))
              && (s.up && s.error.None? ==> t.callers[c].AssertionFailed?)
  {
  }

  /** Released, a caller raises the recorded error if there is one, and else returns the session if there is one. */
  lemma WakeAnswers(s: State, c: CallerId)
    requires CallerEnabled(s, c, Wake)
    ensures s.error.Some? ==> CallerApply(s, c, Wake).callers[c] == Raised(s.error.value)
    ensures s.error.None? && s.session.Some? ==> CallerApply(s, c, Wake).callers[c] == Returned(s.session.value)
    ensures s.error.None? && s.session.None? ==> CallerApply(s, c, Wake).callers[c].AssertionFailed?
    ensures CallerApply(s, c, Wake).lock.None?
  {
  }

  /** Only a cancellation cancels: in the queue it ends the call, under the lock it also leaves the task behind. */
  lemma CancelledIff(s: State, c: CallerId, m: CallerMove)
    requires CallerEnabled(s, c, m)
    ensures CallerApply(s, c, m).callers[c].Cancelled? <==> m.Cancel? && s.callers[c].Queued?
    ensures CallerApply(s, c, m).callers[c].Abandoned? <==> m.Cancel? && s.callers[c].Waiting?
    ensures m.Cancel? && s.callers[c].Waiting? ==>
              CallerApply(s, c, m).callers[c] == Abandoned(s.callers[c].task) && CallerApply(s, c, m).lock.None?
  {
  }

  /** A caller that has not been answered can always be cancelled, and goes on when what it awaits has come. */
  lemma NotStuck(s: State, c: CallerId)
    requires c in s.callers && (s.callers[c].Queued? || s.callers[c].Waiting?)
    ensures CallerEnabled(s, c, Cancel)
    ensures CallerEnabled(s, c, Acquire) <==> s.callers[c].Queued? && s.lock.None?
    ensures CallerEnabled(s, c, Wake) <==> s.callers[c].Waiting? && s.up
  {
  }

  /** A step of one caller leaves every other where it was. */
  lemma OthersStand(s: State, l: Label, d: CallerId)
    requires Enabled(s, l) && d in s.callers && !(l.ByCaller? && l.c == d)
    ensures d in Apply(s, l).callers && Apply(s, l).callers[d] == s.callers[d]
  {
  }

  // ---- the serve task and shutdown ----------------------------------------------------------------

  /**
   Three awaits open a session: the transport, the client around it, and `initialize`, which publishes. A
   failed one is retried on the same stack until the third attempt, which gives up. A parked task leaves by
   a dropped transport, which is a failure, or by shutdown, which is not. Exits pop the newest context, and
   one that raises makes the end a failure, whose error is recorded.
   */
  lemma ServingMeans(s: State, t: TaskId, m: TaskMove)
    requires t < |s.tasks| && TaskEnabled(s.tasks[t], m, s.closing)
    ensures var task, u := s.tasks[t], TaskApply(s, t, m);
            var next := u.tasks[t];
            && (m.Advance? && task.phase.Connecting? ==>
                  next.phase.Handshaking? && u.log == s.log + [Entered(t, Transport(|s.log|))]
                  && next.stack == task.stack + [Transport(|s.log|)] && u.session == s.session && u.up == s.up)
            && (m.Advance? && task.phase.Handshaking? ==>
                  next.phase == Initializing(|s.log|) && u.log == s.log + [Entered(t, Client(|s.log|))]
                  && next.stack == task.stack + [Client(|s.log|)] && u.session == s.session && u.up == s.up)
            && (m.Advance? && task.phase.Initializing? ==>
                  u.session == Some(task.phase.client) && u.up && u.error == s.error && u.log == s.log
                  && next.phase == if s.closing then Unwinding(false) else Parked)
            && (m.Fail? ==>
                  next == task.(phase := if task.attempt < 3 then BackingOff else Unwinding(true))
                  && u == s.(tasks := u.tasks))
            && (m.Retry? ==>
                  next == task.(phase := Connecting, attempt := task.attempt + 1) && u == s.(tasks := u.tasks))
            && (m.Drop? || m.NoticeClosing? ==>
                  next == task.(phase := Unwinding(m.Drop?)) && u == s.(tasks := u.tasks))
            && (m.Exit? ==>
                  next.stack + [task.stack[|task.stack| - 1]] == task.stack
                  && u.log == s.log + [Exited(t, task.stack[|task.stack| - 1])]
                  && next.phase == Unwinding(task.phase == Unwinding(true) || m.raises)
                  && u.session == s.session && u.error == s.error)
            && (m.Finish? ==>
                  u.error == (if task.phase == Unwinding(true) then Some(t) else s.error)
                  && u.session.None? && u.up && next.phase == Ended(task.phase == Unwinding(true)))
  {
  }

  /**
   Shutdown signals the closing event to the last task, if there was any, and ends when that has ended or
   when it is cancelled itself; either way it forgets the task.
   */
  lemma ClosingMeans(s: State, m: CloserMove)
    requires CloserEnabled(s, m)
    ensures var u := CloserApply(s, m);
            && u.tasks == s.tasks && u.callers == s.callers
            && (m.BeginClose? && s.current.Some? ==> u.closing && u.closer == Awaiting(s.current.value))
            && (m.BeginClose? && s.current.None? ==> u.closing == s.closing && u.closer == Closed(None))
            && (!m.BeginClose? ==> s.closer.Awaiting? && u.current.None? && u.closing == s.closing)
            && (m.FinishClose? ==>
                  var t := s.closer.task;
                  t < |s.tasks| && s.tasks[t].phase.Ended? && u.closer == Closed(Some(t)))
            && (m.InterruptClose? ==> u.closer == CutShort(s.closer.task))
  {
  }

  /**
   What may come next. Every open await may succeed or fail, a parked task may lose its transport, and
   nothing follows the end; `aclose` begins once, and may be interrupted while it waits.
   */
  lemma MovesIff(s: State, task: ServeTask, closing: bool, raises: bool)
    ensures TaskEnabled(task, Advance, closing) <==>
              task.phase.Connecting? || task.phase.Handshaking? || task.phase.Initializing?
    ensures TaskEnabled(task, Fail, closing) <==> TaskEnabled(task, Advance, closing)
    ensures TaskEnabled(task, Retry, closing) <==> task.phase == BackingOff
    ensures TaskEnabled(task, Drop, closing) <==> task.phase == Parked
    ensures TaskEnabled(task, NoticeClosing, closing) <==> task.phase == Parked && closing
    ensures TaskEnabled(task, Exit(raises), closing) || TaskEnabled(task, Finish, closing) <==> task.phase.Unwinding?
    ensures TaskEnabled(task, Finish, closing) ==> task.stack == []
    ensures TaskEnabled(task, Exit(raises), closing) ==> |task.stack| > 0
    ensures CloserEnabled(s, BeginClose) <==> s.closer == NotClosing
    ensures CloserEnabled(s, InterruptClose) <==> s.closer.Awaiting?
    ensures CloserEnabled(s, FinishClose) <==>
              exists t: nat :: t < |s.tasks| && s.closer == Awaiting(t) && s.tasks[t].phase.Ended?
  {
  }

  // ---- whole runs ---------------------------------------------------------------------------------

  predicate NoCancel(labels: seq<Label>) {
    forall k :: 0 <= k < |labels| && labels[k].ByCaller? ==> !labels[k].call.Cancel?
  }

  lemma {:induction false} NobodyCancelled(states: seq<State>, labels: seq<Label>, k: nat, c: CallerId)
    requires Run(states, labels) && NoCancel(labels) && k < |states| && c in states[k].callers
    ensures !states[k].callers[c].Cancelled? && !states[k].callers[c].Abandoned?
  {
    if k > 0 {
      var s, l := states[k - 1], labels[k - 1];
      if l.ByCaller? && l.c == c {
        CancelledIff(s, c, l.call);
      } else {
        assert c in s.callers;
        OthersStand(s, l, c);
        NobodyCancelled(states, labels, k - 1, c);
      }
    }
  }

  /**
   Service: in a run without cancellations, before shutdown and while no task has failed, every
   caller is queued, waiting for the one task, or has been returned its session.
   */
  lemma EveryCallerServed(states: seq<State>, labels: seq<Label>, k: nat, c: CallerId)
    requires Run(states, labels) && NoCancel(labels) && k < |states| && c in states[k].callers
    requires !states[k].closing && forall t: nat :: t < |states[k].tasks| ==> states[k].tasks[t].phase != Ended(true)
    ensures var s := states[k];
            || s.callers[c].Queued?
            || (|s.tasks| == 1 && s.callers[c] == Waiting(0))
            || (|s.tasks| == 1 && s.tasks[0].published.Some? && s.callers[c] == Returned(s.tasks[0].published.value))
  {
    var s := states[k];
    RunReachable(states, labels, k);
    forall d | d in s.callers ensures !s.callers[d].Abandoned? {
      NobodyCancelled(states, labels, k, d);
    }
    NobodyCancelled(states, labels, k, c);
    NobodyDisappointedWithoutCause(s);
    if s.callers[c].Waiting? {
      NoLostWaiter(s, c);
    } else if s.callers[c].Returned? {
      OneSession(s, c);
    } else {
      OutcomesJustified(s, c);
    }
  }

  /** And the waiting ones are returned that session by the step that releases them. */
  lemma ReleasedIsServed(states: seq<State>, labels: seq<Label>, k: nat, c: CallerId)
    requires Run(states, labels) && NoCancel(labels) && k < |states|
    requires !states[k].closing && forall t: nat :: t < |states[k].tasks| ==> states[k].tasks[t].phase != Ended(true)
    requires CallerEnabled(states[k], c, Wake)
    ensures |states[k].tasks| == 1 && states[k].tasks[0].published.Some?
    ensures CallerApply(states[k], c, Wake).callers[c] == Returned(states[k].tasks[0].published.value)
  {
    var s := states[k];
    RunReachable(states, labels, k);
    ReachableSolo(s);
    EveryCallerServed(states, labels, k, c);
    assert s.error.Some? ==> EndedInFailure(s, s.error.value);
    assert s.tasks[0].phase == Ended(false) ==> s.closing;
    assert Published(s.tasks, s.session.value);
  }
}
