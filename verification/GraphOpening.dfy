/**
 The graph half of `Dependencies`: one compiled graph over one checkpointer pool, built under a
 lock by whichever caller arrives first (runtime.py), with the warmup, the background reconnect
 loop and the readiness gate that surround it (app.py) and the pool that `build_taxcalc_agent_graph`
 enters before it runs `setup` (graph.py).

 As in `McpSession`, a step is the code between two awaits. A pool is named by a number and a graph
 by the pool it was compiled over.
 */
module GraphOpening {
  import opened Options

  const OPEN_ATTEMPTS: nat := 3

  type CallerId = nat
  type PoolId = nat

  /** The caller that is the lifespan's warmup. */
  const WARMUP: CallerId := 0

  /** One invocation of `graph()`. */
  datatype Caller =
    | Queued                                 // at the lock
    | Entering(attempt: nat)                 // awaiting the pool
    | SettingUp(attempt: nat, pool: PoolId)  // pool entered, awaiting `setup`
    | BackingOff(attempt: nat)
    | Returned(graph: PoolId)
    | Raised
    | Cancelled

  /** `reconnect_forever`. */
  datatype Loop = NotStarted | Checking | Calling(c: CallerId) | Sleeping | Settled | Stopped

  /** Whether the lifespan starts the loop, and whether traffic is withheld until `/readyz` is 200. */
  datatype Setting = Setting(reconnects: bool, gated: bool)

  datatype State = State(
    setting: Setting,
    graph: Option<PoolId>,       // `_graph`
    lock: Option<CallerId>,      // `_graph_lock`
    stack: seq<PoolId>,          // closers pushed on `_stack`
    pools: nat,                  // pools entered so far
    lost: seq<PoolId>,           // pools entered by attempts that did not reach the push
    callers: map<CallerId, Caller>,
    loop: Loop)

  datatype CallerMove = Acquire | Succeed | Fail | Retry | Cancel

  datatype LoopMove = Start | Check(c: CallerId) | Resume | Wake | Halt

  datatype Label = ByCaller(c: CallerId, move: CallerMove) | Arrive(c: CallerId) | ByLoop(step: LoopMove)

  function Initial(setting: Setting): State {
    State(setting, None, None, [], 0, [], map[WARMUP := Queued], NotStarted)
  }

  predicate Building(k: Caller) {
    k.Entering? || k.SettingUp? || k.BackingOff?
  }

  predicate WarmupDone(s: State) {
    WARMUP in s.callers && (s.callers[WARMUP].Returned? || s.callers[WARMUP].Raised?)
  }

  predicate Ready(s: State) {
    s.graph.Some?
  }

  // ---- graph() ----------------------------------------------------------------------------------

  predicate CallerEnabled(s: State, c: CallerId, m: CallerMove) {
    c in s.callers &&
    match m
    case Acquire => s.callers[c].Queued? && s.lock.None?
    case Succeed => s.callers[c].Entering? || s.callers[c].SettingUp?
    case Fail => s.callers[c].Entering? || s.callers[c].SettingUp?
    case Retry => s.callers[c].BackingOff?
    case Cancel => s.callers[c].Queued? || Building(s.callers[c])
  }

  function NextCaller(s: State, c: CallerId, m: CallerMove): Caller
    requires CallerEnabled(s, c, m)
  {
    var k := s.callers[c];
    match m
    case Acquire => if s.graph.Some? then Returned(s.graph.value) else Entering(1)
    case Succeed => if k.Entering? then SettingUp(k.attempt, s.pools) else Returned(k.pool)
    case Fail => if k.attempt < OPEN_ATTEMPTS then BackingOff(k.attempt) else Raised
    case Retry => Entering(k.attempt + 1)
    case Cancel => Cancelled
  }

  /** The push on `_stack` and the write of `_graph` follow the await of `setup` without another. */
  function CallerApply(s: State, c: CallerId, m: CallerMove): State
    requires CallerEnabled(s, c, m)
  {
    var k, next := s.callers[c], NextCaller(s, c, m);
    var published := m.Succeed? && k.SettingUp?;
    s.(callers := s.callers[c := next],
       lock := if Building(next) then Some(c) else if Building(k) then None else s.lock,
       graph := if published then Some(k.pool) else s.graph,
       stack := if published then s.stack + [k.pool] else s.stack,
       pools := if m.Succeed? && k.Entering? then s.pools + 1 else s.pools,
       lost := if k.SettingUp? && (m.Fail? || m.Cancel?) then s.lost + [k.pool] else s.lost)
  }

  /** The unlocked first look at `_graph`. */
  function Enter(s: State, c: CallerId): State {
    s.(callers := s.callers[c := if s.graph.Some? then Returned(s.graph.value) else Queued])
  }

  // ---- the reconnect loop -----------------------------------------------------------------------

  predicate LoopEnabled(s: State, m: LoopMove) {
    match m
    case Start => s.setting.reconnects && s.loop.NotStarted? && WarmupDone(s)
    case Check(c) => s.loop.Checking? && c !in s.callers
    case Resume =>
      s.loop.Calling? && s.loop.c in s.callers &&
      var k := s.callers[s.loop.c]; k.Returned? || k.Raised? || k.Cancelled?
    case Wake => s.loop.Sleeping?
    case Halt => s.loop.Checking? || s.loop.Sleeping?
  }

  function LoopApply(s: State, m: LoopMove): State
    requires LoopEnabled(s, m)
  {
    match m
    case Start => s.(loop := Checking)
    case Check(c) => if s.graph.Some? then s.(loop := Settled) else Enter(s, c).(loop := Calling(c))
    case Resume =>
      var k := s.callers[s.loop.c];
      s.(loop := if k.Returned? then Checking else if k.Raised? then Sleeping else Stopped)
    case Wake => s.(loop := Checking)
    case Halt => s.(loop := Stopped)
  }

  /** A request reaches the pod once warmup is over and, when gated, once the pod is ready. */
  predicate Admitted(s: State) {
    WarmupDone(s) && (s.setting.gated ==> Ready(s))
  }

  predicate Enabled(s: State, l: Label) {
    match l
    case ByCaller(c, m) => CallerEnabled(s, c, m)
    case Arrive(c) => c !in s.callers && Admitted(s)
    case ByLoop(m) => LoopEnabled(s, m)
  }

  function Apply(s: State, l: Label): State
    requires Enabled(s, l)
  {
    match l
    case ByCaller(c, m) => CallerApply(s, c, m)
    case Arrive(c) => Enter(s, c)
    case ByLoop(m) => LoopApply(s, m)
  }

  // ---- runs -------------------------------------------------------------------------------------

  /** A set of states that no step leaves. */
  ghost predicate Invariant(p: iset<State>) {
    forall s, l :: s in p && Enabled(s, l) ==> Apply(s, l) in p
  }

  /** Some run leads from `s` to `s'`: `s'` is in every set that holds `s` and is closed under steps. */
  ghost predicate CanReach(s: State, s': State) {
    forall p: iset<State> :: s in p && Invariant(p) ==> s' in p
  }

  ghost predicate Reachable(s: State) {
    CanReach(Initial(s.setting), s)
  }

  /** One more step from a reachable state. */
  lemma Step(s: State, l: Label) returns (s': State)
    requires Reachable(s) && Enabled(s, l)
    ensures s' == Apply(s, l) && Reachable(s')
  {
    s' := Do(Initial(s.setting), s, l);
    assert s'.setting == s.setting;
  }

  lemma Do(s0: State, s: State, l: Label) returns (s': State)
    requires CanReach(s0, s) && Enabled(s, l)
    ensures s' == Apply(s, l) && CanReach(s0, s')
  {
    s' := Apply(s, l);
  }

  // ---- the inductive invariant ------------------------------------------------------------------

  predicate Distinct(xs: seq<PoolId>) {
    forall i, j :: 0 <= i < j < |xs| ==> xs[i] != xs[j]
  }

  /** The pool the lock holder has entered and not yet pushed. */
  function InHand(s: State): seq<PoolId> {
    if s.lock.Some? && s.lock.value in s.callers && s.callers[s.lock.value].SettingUp?
    then [s.callers[s.lock.value].pool] else []
  }

  ghost predicate GraphInv(s: State) {
    && s.stack == (if s.graph.Some? then [s.graph.value] else [])
    && (s.lock.Some? ==> s.graph.None? && s.lock.value in s.callers && Building(s.callers[s.lock.value]))
    && (forall c :: c in s.callers && Building(s.callers[c]) ==> s.lock == Some(c))
    && (forall c :: c in s.callers && Building(s.callers[c]) ==>
          1 <= s.callers[c].attempt <= OPEN_ATTEMPTS - if s.callers[c].BackingOff? then 1 else 0)
    && (forall c :: c in s.callers && s.callers[c].Returned? ==> s.graph == Some(s.callers[c].graph))
  }

  /** Every pool entered is on the exit stack, lost, or in the lock holder's hand, and in one place only. */
  ghost predicate PoolInv(s: State) {
    var all := s.lost + s.stack + InHand(s);
    && s.pools == |all|
    && Distinct(all)
    && (forall p :: p in all ==> p < s.pools)
  }

  ghost predicate LoopInv(s: State) {
    && WARMUP in s.callers
    && (!s.loop.NotStarted? ==> s.setting.reconnects && WarmupDone(s))
    && (s.loop.Calling? ==> s.loop.c in s.callers)
    && (s.loop.Settled? ==> s.graph.Some?)
    && (s.setting == Setting(false, true) && s.graph.None? ==> s.callers.Keys == {WARMUP})
  }

  ghost predicate Inv(s: State) {
    GraphInv(s) && PoolInv(s) && LoopInv(s)
  }

  lemma CallerGraph(s: State, c: CallerId, m: CallerMove)
    requires GraphInv(s) && CallerEnabled(s, c, m)
    ensures GraphInv(CallerApply(s, c, m))
  {
  }

  lemma CallerPools(s: State, c: CallerId, m: CallerMove)
    requires GraphInv(s) && PoolInv(s) && CallerEnabled(s, c, m)
    ensures PoolInv(CallerApply(s, c, m))
  {
    var s' := CallerApply(s, c, m);
    var all, all' := s.lost + s.stack + InHand(s), s'.lost + s'.stack + InHand(s');
    if m.Succeed? && s.callers[c].Entering? {
      assert all' == all + [s.pools];
      assert forall i :: 0 <= i < |all| ==> all[i] in all;
    } else {
      assert all' == all;
    }
  }

  lemma CallerLoop(s: State, c: CallerId, m: CallerMove)
    requires LoopInv(s) && CallerEnabled(s, c, m)
    ensures LoopInv(CallerApply(s, c, m))
  {
  }

  lemma InvStep(s: State, l: Label)
    requires Inv(s) && Enabled(s, l)
    ensures Inv(Apply(s, l))
  {
    match l
    case ByCaller(c, m) =>
      CallerGraph(s, c, m);
      CallerPools(s, c, m);
      CallerLoop(s, c, m);
    case Arrive(c) => assert InHand(Enter(s, c)) == InHand(s);
    case ByLoop(m) => assert InHand(LoopApply(s, m)) == InHand(s);
  }

  lemma ReachableInv(s: State)
    requires Reachable(s)
    ensures Inv(s)
  {
    var p := iset x: State | x.setting == s.setting && Inv(x);
    forall x: State, l | x in p && Enabled(x, l) ensures Apply(x, l) in p { InvStep(x, l); }
    assert Inv(Initial(s.setting));
    assert s in p;
  }
}
