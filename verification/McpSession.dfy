/**
 The MCP half of `Dependencies`: one session, opened on first use by a task of its own and
 shared by every caller (taxcalc-agent-svc/src/taxcalc_agent_svc/runtime.py).

 asyncio runs one coroutine at a time and switches only at an `await`, so the protocol is a
 labelled transition system whose steps are the stretches of code between two awaits. Any number
 of callers, any number of serve tasks, every open attempt free to succeed or fail, any caller
 free to be cancelled at an await (the node deadlines do that).
 */
module McpSession {
  import opened Options

  /** Attempts one serve task makes before it gives up. */
  const OPEN_ATTEMPTS: nat := 3

  type CallerId = nat
  type TaskId = nat

  /** The two context managers one attempt enters; the number makes every entry distinct. */
  datatype Context = Transport(id: nat) | Client(id: nat)

  /** Entries and exits in the order they happened, each with the task that performed it. */
  datatype Event = Entered(actor: TaskId, ctx: Context) | Exited(actor: TaskId, ctx: Context)

  /** Where a serve task is suspended. */
  datatype Phase =
    | Connecting                 // awaiting the transport
    | Handshaking                // awaiting the client session's entry
    | Initializing(client: nat)  // awaiting `initialize` on that client
    | BackingOff                 // asleep between two attempts
    | Parked                     // published, awaiting `_session_closing`
    | Unwinding(failed: bool)    // its exit stack is being popped
    | Ended(failed: bool)

  datatype ServeTask = ServeTask(phase: Phase, attempt: nat, stack: seq<Context>, published: Option<nat>)

  /** Where one invocation of `session()` is, or how it ended. */
  datatype Caller =
    | Queued                     // at the lock
    | Waiting(task: TaskId)      // holding the lock, awaiting `_session_up`
    | Returned(session: nat)
    | Raised(error: TaskId)      // DependencyUnavailable, caused by that task's exception
    | AssertionFailed            // `_session_up` set, no error, no session
    | Cancelled                  // cancelled while queued
    | Abandoned(task: TaskId)    // cancelled while holding the lock

  datatype Closer = NotClosing | Awaiting(task: TaskId) | Closed(awaited: Option<TaskId>) | CutShort(task: TaskId)

  datatype State = State(
    session: Option<nat>,        // `_session`, named by its client context
    current: Option<TaskId>,     // `_session_task`
    up: bool,                    // `_session_up`
    closing: bool,               // `_session_closing`
    error: Option<TaskId>,       // `_session_error`, named by the task that failed
    lock: Option<CallerId>,      // `_session_lock`
    tasks: seq<ServeTask>,
    callers: map<CallerId, Caller>,
    closer: Closer,
    log: seq<Event>)

  /** The steps of one `session()` call. */
  datatype CallerMove = Call | Acquire | Wake | Cancel

  /** The steps of one serve task: what it awaited succeeded, raised, or the task resumed by itself. */
  datatype TaskMove =
    | Advance                // an open step succeeded
    | Fail                   // an open step raised
    | Retry
    | Drop                   // the transport died under a parked task
    | NoticeClosing
    | Exit(raises: bool)     // one context popped
    | Finish

  /** The steps of `aclose`; it may itself be cancelled while it awaits the task. */
  datatype CloserMove = BeginClose | FinishClose | InterruptClose

  datatype Label =
    | ByCaller(c: CallerId, call: CallerMove)
    | ByTask(t: TaskId, task: TaskMove)
    | ByCloser(close: CloserMove)

  const INITIAL: State :=
    State(None, None, false, false, None, None, [], map[], NotClosing, [])

  const FRESH: ServeTask := ServeTask(Connecting, 1, [], None)

  predicate Opening(p: Phase) {
    p.Connecting? || p.Handshaking? || p.Initializing?
  }

  // ---- callers ----------------------------------------------------------------------------------

  predicate CallerEnabled(s: State, c: CallerId, m: CallerMove) {
    match m
    case Call => c !in s.callers
    case Acquire => c in s.callers && s.callers[c].Queued? && s.lock.None?
    case Wake => c in s.callers && s.callers[c].Waiting? && s.up
    case Cancel => c in s.callers && (s.callers[c].Queued? || s.callers[c].Waiting?)
  }

  /** What a caller finds once `_session_up` is set: the error first, then the session. */
  function Outcome(session: Option<nat>, error: Option<TaskId>): Caller {
    match error
    case Some(e) => Raised(e)
    case None =>
      match session
      case Some(x) => Returned(x)
      case None => AssertionFailed
  }

  predicate Creates(s: State, m: CallerMove) {
    m.Acquire? && s.session.None?
  }

  function NextCaller(s: State, c: CallerId, m: CallerMove): Caller
    requires CallerEnabled(s, c, m)
  {
    match m
    case Call => if s.session.Some? then Returned(s.session.value) else Queued
    case Acquire =>
      if s.session.Some? then Returned(s.session.value)
      // An event that is already set does not suspend: the new task has not run yet.
      else if s.up then Outcome(None, s.error)
      else Waiting(|s.tasks|)
    case Wake => Outcome(s.session, s.error)
    case Cancel => if s.callers[c].Queued? then Cancelled else Abandoned(s.callers[c].task)
  }

  function CallerApply(s: State, c: CallerId, m: CallerMove): State
    requires CallerEnabled(s, c, m)
  {
    var k := NextCaller(s, c, m);
    s.(callers := s.callers[c := k],
       lock := if k.Waiting? then Some(c) else if c in s.callers && s.callers[c].Waiting? then None else s.lock,
       tasks := if Creates(s, m) then s.tasks + [FRESH] else s.tasks,
       current := if Creates(s, m) then Some(|s.tasks|) else s.current)
  }

  // ---- serve tasks ------------------------------------------------------------------------------

  predicate TaskEnabled(task: ServeTask, m: TaskMove, closing: bool) {
    match m
    case Advance => Opening(task.phase)
    case Fail => Opening(task.phase)
    case Retry => task.phase.BackingOff?
    case Drop => task.phase.Parked?
    case NoticeClosing => task.phase.Parked? && closing
    case Exit(_) => task.phase.Unwinding? && task.stack != []
    case Finish => task.phase.Unwinding? && task.stack == []
  }

  /** The step from `initialize` to parking, or past it when the closing event is already set. */
  predicate Publishes(task: ServeTask, m: TaskMove) {
    m.Advance? && task.phase.Initializing?
  }

  function NextTask(task: ServeTask, m: TaskMove, closing: bool, id: nat): ServeTask
    requires TaskEnabled(task, m, closing)
  {
    match m
    case Advance => (
      match task.phase
      case Connecting => task.(phase := Handshaking, stack := task.stack + [Transport(id)])
      case Handshaking => task.(phase := Initializing(id), stack := task.stack + [Client(id)])
      case Initializing(x) => task.(phase := if closing then Unwinding(false) else Parked, published := Some(x)))
    case Fail => task.(phase := if task.attempt < OPEN_ATTEMPTS then BackingOff else Unwinding(true))
    case Retry => task.(phase := Connecting, attempt := task.attempt + 1)
    case Drop => task.(phase := Unwinding(true))
    case NoticeClosing => task.(phase := Unwinding(false))
    case Exit(raises) => task.(phase := Unwinding(task.phase.failed || raises), stack := task.stack[..|task.stack| - 1])
    case Finish => task.(phase := Ended(task.phase.failed))
  }

  function LogAfter(log: seq<Event>, t: TaskId, task: ServeTask, m: TaskMove): seq<Event> {
    if m.Advance? && task.phase.Connecting? then log + [Entered(t, Transport(|log|))]
    else if m.Advance? && task.phase.Handshaking? then log + [Entered(t, Client(|log|))]
    else if m.Exit? && task.stack != [] then log + [Exited(t, task.stack[|task.stack| - 1])]
    else log
  }

  /** `_session` and `_session_up` are written together, and so are the three writes of `finally`. */
  function TaskApply(s: State, t: TaskId, m: TaskMove): State
    requires t < |s.tasks| && TaskEnabled(s.tasks[t], m, s.closing)
  {
    var task := s.tasks[t];
    var next := NextTask(task, m, s.closing, |s.log|);
    s.(tasks := s.tasks[t := next],
       log := LogAfter(s.log, t, task, m),
       session := if m.Finish? then None else if Publishes(task, m) then next.published else s.session,
       up := s.up || m.Finish? || Publishes(task, m),
       error := if m.Finish? && task.phase.failed then Some(t) else s.error)
  }

  // ---- aclose -----------------------------------------------------------------------------------

  predicate CloserEnabled(s: State, m: CloserMove) {
    match m
    case BeginClose => s.closer.NotClosing?
    case FinishClose => s.closer.Awaiting? && s.closer.task < |s.tasks| && s.tasks[s.closer.task].phase.Ended?
    case InterruptClose => s.closer.Awaiting?
  }

  function CloserApply(s: State, m: CloserMove): State
    requires CloserEnabled(s, m)
  {
    match m
    case BeginClose =>
      if s.current.Some? then s.(closing := true, closer := Awaiting(s.current.value))
      else s.(closer := Closed(None))
    case FinishClose => s.(current := None, closer := Closed(Some(s.closer.task)))
    case InterruptClose => s.(current := None, closer := CutShort(s.closer.task))
  }

  predicate Enabled(s: State, l: Label) {
    match l
    case ByCaller(c, m) => CallerEnabled(s, c, m)
    case ByTask(t, m) => t < |s.tasks| && TaskEnabled(s.tasks[t], m, s.closing)
    case ByCloser(m) => CloserEnabled(s, m)
  }

  function Apply(s: State, l: Label): State
    requires Enabled(s, l)
  {
    match l
    case ByCaller(c, m) => CallerApply(s, c, m)
    case ByTask(t, m) => TaskApply(s, t, m)
    case ByCloser(m) => CloserApply(s, m)
  }

  // ---- runs -----------------------------------------------------------------------------------

  /** `s` is where the run `labels` ends when it starts in `from`. */
  ghost predicate Leads(from: State, labels: seq<Label>, s: State)
    decreases |labels|
  {
    if labels == [] then s == from
    else
      var n := |labels| - 1;
      exists mid :: Leads(from, labels[..n], mid) && Enabled(mid, labels[n]) && s == Apply(mid, labels[n])
  }

  /** A set of states that no step leaves. */
  ghost predicate Invariant(p: iset<State>) {
    forall s, l :: s in p && Enabled(s, l) ==> Apply(s, l) in p
  }

  /** The states of all runs: the least set that holds the initial state and is closed under steps. */
  ghost predicate Reachable(s: State) {
    forall p: iset<State> :: INITIAL in p && Invariant(p) ==> s in p
  }

  /** Extends a run by one step. */
  lemma Do(s: State, l: Label) returns (s': State)
    requires Reachable(s) && Enabled(s, l)
    ensures s' == Apply(s, l) && Reachable(s')
  {
    s' := Apply(s, l);
  }

  lemma LeadsOn(from: State, labels: seq<Label>, mid: State, l: Label)
    requires Leads(from, labels, mid) && Enabled(mid, l)
    ensures Leads(from, labels + [l], Apply(mid, l))
  {
    assert (labels + [l])[..|labels|] == labels;
  }

  lemma {:induction false} LeadsStaysIn(labels: seq<Label>, s: State, p: iset<State>)
    requires Leads(INITIAL, labels, s) && INITIAL in p && Invariant(p)
    ensures s in p
    decreases |labels|
  {
    if labels != [] {
      var n := |labels| - 1;
      var mid :| Leads(INITIAL, labels[..n], mid) && Enabled(mid, labels[n]) && s == Apply(mid, labels[n]);
      LeadsStaysIn(labels[..n], mid, p);
    }
  }

  ghost predicate EndsSomeRun(s: State) {
    exists labels :: Leads(INITIAL, labels, s)
  }

  lemma RunsAreReachable(labels: seq<Label>, s: State)
    requires Leads(INITIAL, labels, s)
    ensures Reachable(s)
  {
    if !Reachable(s) {
      var p: iset<State> :| INITIAL in p && Invariant(p) && s !in p;
      LeadsStaysIn(labels, s, p);
    }
  }

  lemma RunsGoOn(s: State, l: Label)
    requires EndsSomeRun(s) && Enabled(s, l)
    ensures EndsSomeRun(Apply(s, l))
  {
    var labels :| Leads(INITIAL, labels, s);
    LeadsOn(INITIAL, labels, s, l);
  }

  /** The reachable states are those some run of steps ends in. */
  lemma ReachableIffSomeRun(s: State)
    ensures Reachable(s) <==> EndsSomeRun(s)
  {
    if EndsSomeRun(s) {
      var labels :| Leads(INITIAL, labels, s);
      RunsAreReachable(labels, s);
    }
    if Reachable(s) {
      var p := iset x: State | EndsSomeRun(x);
      assert Leads(INITIAL, [], INITIAL);
      forall x: State, l | x in p && Enabled(x, l) ensures Apply(x, l) in p {
        RunsGoOn(x, l);
      }
      assert INITIAL in p;
      assert Invariant(p);
    }
  }

  // ---- who entered and exited what --------------------------------------------------------------

  function EnteredBy(log: seq<Event>, t: TaskId): seq<Context> {
    if log == [] then []
    else
      var e := log[|log| - 1];
      var before := EnteredBy(log[..|log| - 1], t);
      if e.Entered? && e.actor == t then before + [e.ctx] else before
  }

  function ExitedBy(log: seq<Event>, t: TaskId): seq<Context> {
    if log == [] then []
    else
      var e := log[|log| - 1];
      var before := ExitedBy(log[..|log| - 1], t);
      if e.Exited? && e.actor == t then before + [e.ctx] else before
  }

  function Reverse<T>(xs: seq<T>): seq<T> {
    if xs == [] then [] else [xs[|xs| - 1]] + Reverse(xs[..|xs| - 1])
  }

  function Transports(xs: seq<Context>): nat {
    if xs == [] then 0
    else Transports(xs[..|xs| - 1]) + if xs[|xs| - 1].Transport? then 1 else 0
  }

  lemma ReverseStep<T>(xs: seq<T>, x: T)
    ensures Reverse(xs + [x]) == [x] + Reverse(xs)
  {
    assert (xs + [x])[..|xs|] == xs;
  }

  lemma TransportsStep(xs: seq<Context>, x: Context)
    ensures Transports(xs + [x]) == Transports(xs) + if x.Transport? then 1 else 0
  {
    assert (xs + [x])[..|xs|] == xs;
  }

  /** Contexts entered and not yet exited, over all tasks. */
  ghost predicate NothingOpen(s: State) {
    forall t: nat :: EnteredBy(s.log, t) == Reverse(ExitedBy(s.log, t))
  }

  lemma LogStep(log: seq<Event>, e: Event, t: TaskId)
    ensures EnteredBy(log + [e], t) ==
            if e.Entered? && e.actor == t then EnteredBy(log, t) + [e.ctx] else EnteredBy(log, t)
    ensures ExitedBy(log + [e], t) == if e.Exited? && e.actor == t then ExitedBy(log, t) + [e.ctx] else ExitedBy(log, t)
  {
    assert (log + [e])[..|log|] == log;
  }

  // ---- the inductive invariant ------------------------------------------------------------------

  /** A caller that did not get a session although it reached the lock. */
  predicate Disappointed(k: Caller) {
    k.Raised? || k.AssertionFailed? || k.Abandoned?
  }

  function DisappointedCallers(s: State): set<CallerId> {
    set c | c in s.callers && Disappointed(s.callers[c])
  }

  /** The lock's holder is the one caller waiting, and it waits for the newest task. */
  ghost predicate LockInv(s: State) {
    && (forall c :: c in s.callers && s.callers[c].Waiting? ==>
          s.lock == Some(c) && s.callers[c].task + 1 == |s.tasks|)
    && (s.lock.Some? ==> s.lock.value in s.callers && s.callers[s.lock.value].Waiting?)
  }

  ghost predicate CloserInv(s: State) {
    && (s.current.Some? ==> s.current.value < |s.tasks|)
    && (s.closer.Awaiting? ==> s.closer.task < |s.tasks|)
    && (s.closer.Closed? && s.closer.awaited.Some? ==>
          s.closer.awaited.value < |s.tasks| && s.tasks[s.closer.awaited.value].phase.Ended?)
  }

  ghost predicate EndedInFailure(s: State, t: TaskId) {
    t < |s.tasks| && s.tasks[t].phase == Ended(true)
  }

  /** Until `_session_up` is set no task has published, parked, ended or left an error. */
  ghost predicate UpInv(s: State) {
    && (!s.up ==> s.session.None? && s.error.None?)
    && (!s.up ==> forall t: nat :: t < |s.tasks| ==>
          var p := s.tasks[t].phase; Opening(p) || p.BackingOff? || p == Unwinding(true))
    && (forall e :: s.error == Some(e) ==> EndedInFailure(s, e))
    && (forall c :: c in s.callers && s.callers[c].Raised? ==> EndedInFailure(s, s.callers[c].error))
  }

  /** A task leaves without an error only because it was asked to. */
  ghost predicate ClosingInv(s: State) {
    && (forall t: nat :: t < |s.tasks| && (s.tasks[t].phase == Unwinding(false) || s.tasks[t].phase == Ended(false)) ==>
          s.closing)
    && (s.up && s.session.None? && s.error.None? ==> s.closing)
    && (forall c :: c in s.callers && s.callers[c].AssertionFailed? ==> s.closing)
  }

  ghost predicate Published(tasks: seq<ServeTask>, x: nat) {
    exists t: nat :: t < |tasks| && tasks[t].published == Some(x)
  }

  ghost predicate PublishedInv(s: State) {
    && (s.session.Some? ==> Published(s.tasks, s.session.value))
    && (forall c :: c in s.callers && s.callers[c].Returned? ==> Published(s.tasks, s.callers[c].session))
  }

  ghost predicate CountInv(s: State) {
    |s.tasks| <= |DisappointedCallers(s)| + if s.up || s.lock.Some? then 1 else 0
  }

  /** An upper bound on the steps a serve task still takes; six pay for one more attempt. */
  function Work(task: ServeTask): int {
    var left := 6 * (OPEN_ATTEMPTS - task.attempt);
    match task.phase
    case Connecting => 7 + |task.stack| + left
    case Handshaking => 5 + |task.stack| + left
    case Initializing(_) => 3 + |task.stack| + left
    case BackingOff => 8 + |task.stack| + left - 6
    case Parked => 2 + |task.stack|
    case Unwinding(_) => 1 + |task.stack|
    case Ended(_) => 0
  }

  /** A task's stack is what it entered and has not exited, in order. */
  ghost predicate Balanced(log: seq<Event>, t: TaskId, stack: seq<Context>) {
    EnteredBy(log, t) == stack + Reverse(ExitedBy(log, t))
  }

  ghost predicate TaskOk(log: seq<Event>, t: TaskId, task: ServeTask) {
    && 1 <= task.attempt <= OPEN_ATTEMPTS
    && Balanced(log, t, task.stack)
    && Work(task) <= Work(FRESH)
    && Transports(EnteredBy(log, t)) <= task.attempt - (if task.phase.Connecting? then 1 else 0)
    && (task.phase.BackingOff? ==> task.attempt < OPEN_ATTEMPTS)
    && (Opening(task.phase) || task.phase.BackingOff? ==> task.published.None?)
    && (task.phase.Unwinding? || task.phase.Ended? || ExitedBy(log, t) == [])
    && (task.phase.Ended? ==> task.stack == [])
  }

  ghost predicate TasksInv(s: State) {
    && (forall t: nat :: t < |s.tasks| ==> TaskOk(s.log, t, s.tasks[t]))
    && (forall t: nat :: |s.tasks| <= t ==> EnteredBy(s.log, t) == [] && ExitedBy(s.log, t) == [])
  }

  ghost predicate Inv(s: State) {
    && LockInv(s) && CloserInv(s) && UpInv(s) && ClosingInv(s) && PublishedInv(s) && CountInv(s) && TasksInv(s)
  }

  lemma InvInitial()
    ensures Inv(INITIAL)
  {
    assert DisappointedCallers(INITIAL) == {};
  }

  /** Changing caller `c` changes the disappointed callers by `c` at most. */
  lemma DisappointedStep(s: State, s': State, c: CallerId, k: Caller)
    requires s'.callers == s.callers[c := k]
    requires c in s.callers ==> !Disappointed(s.callers[c])
    ensures |DisappointedCallers(s')| == |DisappointedCallers(s)| + if Disappointed(k) then 1 else 0
  {
    var before, after := DisappointedCallers(s), DisappointedCallers(s');
    assert c !in before;
    if Disappointed(k) {
      assert after == before + {c};
    } else {
      assert after == before;
    }
  }

  // Caller steps.

  lemma CallerCount(s: State, c: CallerId, m: CallerMove)
    requires LockInv(s) && CountInv(s) && CallerEnabled(s, c, m)
    ensures CountInv(CallerApply(s, c, m))
  {
    var s' := CallerApply(s, c, m);
    DisappointedStep(s, s', c, NextCaller(s, c, m));
  }

  lemma CallerLock(s: State, c: CallerId, m: CallerMove)
    requires LockInv(s) && CloserInv(s) && CallerEnabled(s, c, m)
    ensures LockInv(CallerApply(s, c, m)) && CloserInv(CallerApply(s, c, m))
  {
  }

  lemma CallerUp(s: State, c: CallerId, m: CallerMove)
    requires UpInv(s) && ClosingInv(s) && CallerEnabled(s, c, m)
    ensures UpInv(CallerApply(s, c, m)) && ClosingInv(CallerApply(s, c, m))
  {
  }

  lemma CallerPublished(s: State, c: CallerId, m: CallerMove)
    requires PublishedInv(s) && CallerEnabled(s, c, m)
    ensures PublishedInv(CallerApply(s, c, m))
  {
    var s' := CallerApply(s, c, m);
    forall x: nat | Published(s.tasks, x) ensures Published(s'.tasks, x) {
      var t: nat :| t < |s.tasks| && s.tasks[t].published == Some(x);
      assert s'.tasks[t] == s.tasks[t];
    }
  }

  lemma CallerInv(s: State, c: CallerId, m: CallerMove)
    requires Inv(s) && CallerEnabled(s, c, m)
    ensures Inv(CallerApply(s, c, m))
  {
    CallerCount(s, c, m);
    CallerLock(s, c, m);
    CallerUp(s, c, m);
    CallerPublished(s, c, m);
    assert TasksInv(CallerApply(s, c, m));
  }

  // Task steps.

  /** Every step of a task uses up some of its work. */
  lemma StepUsesWork(task: ServeTask, m: TaskMove, closing: bool, id: nat)
    requires TaskEnabled(task, m, closing) && task.attempt <= OPEN_ATTEMPTS
    requires task.phase.BackingOff? ==> task.attempt < OPEN_ATTEMPTS
    ensures Work(NextTask(task, m, closing, id)) < Work(task)
  {
  }

  lemma EnterStep(log: seq<Event>, t: TaskId, stack: seq<Context>, ctx: Context)
    requires Balanced(log, t, stack) && ExitedBy(log, t) == []
    ensures Balanced(log + [Entered(t, ctx)], t, stack + [ctx])
    ensures ExitedBy(log + [Entered(t, ctx)], t) == []
    ensures Transports(EnteredBy(log + [Entered(t, ctx)], t)) ==
            Transports(EnteredBy(log, t)) + if ctx.Transport? then 1 else 0
  {
    LogStep(log, Entered(t, ctx), t);
    TransportsStep(EnteredBy(log, t), ctx);
  }

  lemma ExitStep(log: seq<Event>, t: TaskId, stack: seq<Context>)
    requires Balanced(log, t, stack) && stack != []
    ensures Balanced(log + [Exited(t, stack[|stack| - 1])], t, stack[..|stack| - 1])
    ensures EnteredBy(log + [Exited(t, stack[|stack| - 1])], t) == EnteredBy(log, t)
  {
    var ctx := stack[|stack| - 1];
    LogStep(log, Exited(t, ctx), t);
    ReverseStep(ExitedBy(log, t), ctx);
    MoveAcross(stack, Reverse(ExitedBy(log, t)));
  }

  lemma MoveAcross<T>(xs: seq<T>, ys: seq<T>)
    requires xs != []
    ensures xs[..|xs| - 1] + ([xs[|xs| - 1]] + ys) == xs + ys
  {
  }

  lemma EnterOk(log: seq<Event>, t: TaskId, task: ServeTask, closing: bool)
    requires TaskOk(log, t, task) && TaskEnabled(task, Advance, closing)
    requires task.phase.Connecting? || task.phase.Handshaking?
    ensures TaskOk(LogAfter(log, t, task, Advance), t, NextTask(task, Advance, closing, |log|))
  {
    EnterStep(log, t, task.stack, if task.phase.Connecting? then Transport(|log|) else Client(|log|));
  }

  lemma ExitOk(log: seq<Event>, t: TaskId, task: ServeTask, raises: bool, closing: bool)
    requires TaskOk(log, t, task) && TaskEnabled(task, Exit(raises), closing)
    ensures TaskOk(LogAfter(log, t, task, Exit(raises)), t, NextTask(task, Exit(raises), closing, |log|))
  {
    ExitStep(log, t, task.stack);
  }

  /** A task's own step keeps its books. */
  lemma TaskOkStep(log: seq<Event>, t: TaskId, task: ServeTask, m: TaskMove, closing: bool)
    requires TaskOk(log, t, task) && TaskEnabled(task, m, closing)
    ensures TaskOk(LogAfter(log, t, task, m), t, NextTask(task, m, closing, |log|))
  {
    if m.Exit? {
      ExitOk(log, t, task, m.raises, closing);
    } else if m.Advance? && !task.phase.Initializing? {
      EnterOk(log, t, task, closing);
    } else {
      StepUsesWork(task, m, closing, |log|);
      assert LogAfter(log, t, task, m) == log;
    }
  }

  /** The log speaks of a task only where that task acted. */
  lemma OthersUntouched(log: seq<Event>, t: TaskId, task: ServeTask, m: TaskMove, u: TaskId)
    requires u != t
    ensures EnteredBy(LogAfter(log, t, task, m), u) == EnteredBy(log, u)
    ensures ExitedBy(LogAfter(log, t, task, m), u) == ExitedBy(log, u)
  {
    var after := LogAfter(log, t, task, m);
    if |log| < |after| {
      LogStep(log, after[|log|], u);
    }
  }

  lemma TaskBooks(s: State, t: TaskId, m: TaskMove)
    requires TasksInv(s) && t < |s.tasks| && TaskEnabled(s.tasks[t], m, s.closing)
    ensures TasksInv(TaskApply(s, t, m))
  {
    var s' := TaskApply(s, t, m);
    forall u: nat | u < |s'.tasks| ensures TaskOk(s'.log, u, s'.tasks[u]) {
      assert TaskOk(s.log, u, s.tasks[u]);
      if u == t {
        TaskOkStep(s.log, t, s.tasks[t], m, s.closing);
      } else {
        OthersUntouched(s.log, t, s.tasks[t], m, u);
      }
    }
    forall u: nat | |s'.tasks| <= u ensures EnteredBy(s'.log, u) == [] && ExitedBy(s'.log, u) == [] {
      OthersUntouched(s.log, t, s.tasks[t], m, u);
    }
  }

  lemma TaskUp(s: State, t: TaskId, m: TaskMove)
    requires UpInv(s) && t < |s.tasks| && TaskEnabled(s.tasks[t], m, s.closing)
    ensures UpInv(TaskApply(s, t, m))
  {
    var s' := TaskApply(s, t, m);
    assert forall e :: EndedInFailure(s, e) ==> EndedInFailure(s', e);
  }

  lemma TaskClosing(s: State, t: TaskId, m: TaskMove)
    requires UpInv(s) && ClosingInv(s) && t < |s.tasks| && TaskEnabled(s.tasks[t], m, s.closing)
    ensures ClosingInv(TaskApply(s, t, m))
  {
  }

  lemma TaskPublished(s: State, t: TaskId, m: TaskMove)
    requires PublishedInv(s) && TasksInv(s) && t < |s.tasks| && TaskEnabled(s.tasks[t], m, s.closing)
    ensures PublishedInv(TaskApply(s, t, m))
  {
    var s' := TaskApply(s, t, m);
    assert TaskOk(s.log, t, s.tasks[t]);
    forall x: nat | Published(s.tasks, x) ensures Published(s'.tasks, x) {
      var u: nat :| u < |s.tasks| && s.tasks[u].published == Some(x);
      assert s'.tasks[u].published == Some(x);
    }
    if Publishes(s.tasks[t], m) {
      assert s'.tasks[t].published == s'.session;
    }
  }

  lemma TaskMoveInv(s: State, t: TaskId, m: TaskMove)
    requires Inv(s) && t < |s.tasks| && TaskEnabled(s.tasks[t], m, s.closing)
    ensures Inv(TaskApply(s, t, m))
  {
    var s' := TaskApply(s, t, m);
    TaskBooks(s, t, m);
    TaskUp(s, t, m);
    TaskClosing(s, t, m);
    TaskPublished(s, t, m);
    assert DisappointedCallers(s') == DisappointedCallers(s);
  }

  lemma CloserMoveInv(s: State, m: CloserMove)
    requires Inv(s) && CloserEnabled(s, m)
    ensures Inv(CloserApply(s, m))
  {
    assert DisappointedCallers(CloserApply(s, m)) == DisappointedCallers(s);
    assert TasksInv(CloserApply(s, m));
  }

  lemma InvStep(s: State, l: Label)
    requires Inv(s) && Enabled(s, l)
    ensures Inv(Apply(s, l))
  {
    match l
    case ByCaller(c, m) => CallerInv(s, c, m);
    case ByTask(t, m) => TaskMoveInv(s, t, m);
    case ByCloser(m) => CloserMoveInv(s, m);
  }

  lemma ReachableInv(s: State)
    requires Reachable(s)
    ensures Inv(s)
  {
    var p := iset x: State | Inv(x);
    forall x: State, l | x in p && Enabled(x, l) ensures Apply(x, l) in p { InvStep(x, l); }
    InvInitial();
    assert s in p;
  }
}
