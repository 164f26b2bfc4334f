/**
 The per-request budget (taxcalc-agent-svc/src/taxcalc_agent_svc/budgets.py): one integer tally that
 parallel nodes check before a paid call and charge after it.
 */
module Budgets {
  import opened Options

  const PRICE_IN_E5_PER_KTOK: nat := 300
  const PRICE_OUT_E5_PER_KTOK: nat := 1500

  datatype Error = ValueError | BudgetExceeded

  /** What a call costs in thousandths of a minor unit, before the division. */
  function Exact(input: nat, output: nat): nat {
    input * PRICE_IN_E5_PER_KTOK + output * PRICE_OUT_E5_PER_KTOK
  }

  function Cost(input: nat, output: nat): nat {
    Exact(input, output) / 1000
  }

  /** 300 minor units for a thousand tokens read, 1500 for a thousand answered, and what is left over is dropped. */
  lemma CostMeans(input: nat, output: nat)
    ensures Cost(1000 * input, 1000 * output) == 300 * input + 1500 * output
    ensures 1000 * Cost(input, output) <= 300 * input + 1500 * output < 1000 * Cost(input, output) + 1000
  {
    assert Exact(1000 * input, 1000 * output) == 1000 * (300 * input + 1500 * output);
  }

  class BudgetGuard {
    const ceiling: int
    var spent: nat

    constructor (ceiling: int)
      requires ceiling > 0
      ensures this.ceiling == ceiling && spent == 0
    {
      this.ceiling := ceiling;
      spent := 0;
    }

    /** `BudgetGuard(...)`, with the ceiling it refuses. */
    static method Make(ceiling: int) returns (r: Result<BudgetGuard, Error>)
      ensures r.Ok? <==> ceiling > 0
      ensures r.Err? ==> r.error == ValueError
      ensures r.Ok? ==> fresh(r.value) && r.value.ceiling == ceiling && r.value.spent == 0
    {
      if ceiling <= 0 {
        return Err(ValueError);
      }
      var guard := new BudgetGuard(ceiling);
      r := Ok(guard);
    }

    method CheckOrRaise() returns (r: Result<(), Error>)
      ensures r.Err? <==> spent >= ceiling
      ensures r.Err? ==> r.error == BudgetExceeded
    {
      if spent >= ceiling {
        return Err(BudgetExceeded);
      }
      return Ok(());
    }

    method RecordUsage(input: nat, output: nat)
      modifies this`spent
      ensures spent == old(spent) + Cost(input, output)
      ensures 1000 * (spent - old(spent)) <= 300 * input + 1500 * output < 1000 * (spent - old(spent)) + 1000
    {
      CostMeans(input, output);
      spent := spent + (input * PRICE_IN_E5_PER_KTOK + output * PRICE_OUT_E5_PER_KTOK) / 1000;
    }

    /** A response without a usage block costs nothing. */
    method RecordCall(usage: Option<(nat, nat)>)
      modifies this`spent
      ensures spent == old(spent) + match usage { case Some(u) => Cost(u.0, u.1) case None => 0 }
      ensures usage.None? ==> spent == old(spent)
      ensures usage.Some? ==>
                var exact := 300 * usage.value.0 + 1500 * usage.value.1;
                1000 * (spent - old(spent)) <= exact < 1000 * (spent - old(spent)) + 1000
    {
      if usage.None? {
        return;
      }
      RecordUsage(usage.value.0, usage.value.1);
    }
  }

  // ---- interleaved calls --------------------------------------------------------------------------

  /** The guard and its users: calls under way, admitted so far, charged, and ended without a charge. */
  datatype Tally = Tally(spent: nat, inFlight: nat, admitted: nat, charged: nat, failed: nat)

  datatype Label = Check | Charge(input: nat, output: nat) | Fail

  /** At most `m` calls are ever under way; a check that finds the ceiling reached admits nothing. */
  function Apply(t: Tally, l: Label, ceiling: nat, m: nat): Tally {
    match l
    case Check =>
      if t.spent < ceiling && t.inFlight < m then t.(inFlight := t.inFlight + 1, admitted := t.admitted + 1) else t
    case Charge(i, o) =>
      if t.inFlight == 0 then t
      else t.(spent := t.spent + Cost(i, o), inFlight := t.inFlight - 1, charged := t.charged + 1)
    case Fail =>
      if t.inFlight > 0 then t.(inFlight := t.inFlight - 1, failed := t.failed + 1) else t
  }

  /**
   A check that finds room admits one call exactly below the ceiling, and no label but an ending call takes
   one out or charges.
   */
  lemma AdmittedIff(t: Tally, l: Label, ceiling: nat, m: nat)
    ensures Apply(t, l, ceiling, m).admitted == t.admitted + 1 <==> l.Check? && t.inFlight < m && !(t.spent >= ceiling)
    ensures Apply(t, l, ceiling, m).admitted in {t.admitted, t.admitted + 1}
    ensures Apply(t, l, ceiling, m).spent != t.spent ==> l.Charge? && t.inFlight > 0
    ensures var u := Apply(t, l, ceiling, m);
            u.inFlight + u.charged + u.failed + t.admitted == t.inFlight + t.charged + t.failed + u.admitted
    ensures l.Charge? && t.inFlight > 0 ==>
              var u := Apply(t, l, ceiling, m);
              && u.charged == t.charged + 1
              && 1000 * (u.spent - t.spent) <= 300 * l.input + 1500 * l.output < 1000 * (u.spent - t.spent) + 1000
    ensures l.Fail? && t.inFlight > 0 ==> Apply(t, l, ceiling, m).failed == t.failed + 1
  {
    if l.Charge? {
      CostMeans(l.input, l.output);
    }
  }

  function After(run: seq<Label>, ceiling: nat, m: nat): Tally {
    if run == [] then Tally(0, 0, 0, 0, 0)
    else Apply(After(run[..|run| - 1], ceiling, m), run[|run| - 1], ceiling, m)
  }

  predicate CostsAtMost(run: seq<Label>, c: nat) {
    forall i :: 0 <= i < |run| && run[i].Charge? ==> Cost(run[i].input, run[i].output) <= c
  }

  predicate CostsAtLeastOne(run: seq<Label>) {
    forall i :: 0 <= i < |run| && run[i].Charge? ==> Cost(run[i].input, run[i].output) >= 1
  }

  /** What is spent, plus all that is still coming, exceeds the ceiling by less than `m` whole calls. */
  lemma {:induction false} Reserved(run: seq<Label>, ceiling: nat, m: nat, c: nat)
    requires ceiling > 0 && CostsAtMost(run, c)
    ensures var t := After(run, ceiling, m);
            t.inFlight <= m && t.spent + t.inFlight * c <= ceiling - 1 + m * c
  {
    if run != [] {
      var front := run[..|run| - 1];
      Reserved(front, ceiling, m, c);
      var t := After(front, ceiling, m);
      if run[|run| - 1].Check? && t.spent < ceiling && t.inFlight < m {
        Distribute(t.inFlight + 1, m, c);
      } else if !run[|run| - 1].Check? && t.inFlight > 0 {
        assert (t.inFlight - 1) * c == t.inFlight * c - c;
      }
    } else {
      Distribute(0, m, c);
    }
  }

  lemma Distribute(a: nat, m: nat, c: nat)
    requires a <= m
    ensures a * c <= m * c
  {
  }

  /** The overshoot under concurrency. */
  lemma OvershootBounded(run: seq<Label>, ceiling: nat, m: nat, c: nat)
    requires ceiling > 0 && CostsAtMost(run, c)
    ensures After(run, ceiling, m).spent <= ceiling - 1 + m * c
  {
    Reserved(run, ceiling, m, c);
    assert After(run, ceiling, m).inFlight * c >= 0;
  }

  function Repeat(l: Label, n: nat): (r: seq<Label>)
    ensures |r| == n
  {
    seq(n, i => l)
  }

  lemma RepeatLast(run: seq<Label>, l: Label, n: nat)
    requires n > 0
    ensures (run + Repeat(l, n))[..|run| + n - 1] == run + Repeat(l, n - 1)
    ensures (run + Repeat(l, n))[|run| + n - 1] == l
  {
  }

  lemma {:induction false} ManyChecks(run: seq<Label>, ceiling: nat, m: nat, n: nat)
    requires var t := After(run, ceiling, m); t.spent < ceiling && t.inFlight + n <= m
    ensures var t := After(run, ceiling, m);
            After(run + Repeat(Check, n), ceiling, m) == t.(inFlight := t.inFlight + n, admitted := t.admitted + n)
  {
    if n == 0 {
      assert run + Repeat(Check, 0) == run;
    } else {
      ManyChecks(run, ceiling, m, n - 1);
      RepeatLast(run, Check, n);
    }
  }

  lemma {:induction false} ManyCharges(run: seq<Label>, ceiling: nat, m: nat, n: nat, input: nat, output: nat)
    requires After(run, ceiling, m).inFlight >= n
    ensures var t := After(run, ceiling, m);
            After(run + Repeat(Charge(input, output), n), ceiling, m) ==
              t.(spent := t.spent + n * Cost(input, output), inFlight := t.inFlight - n, charged := t.charged + n)
  {
    if n == 0 {
      assert run + Repeat(Charge(input, output), 0) == run;
    } else {
      ManyCharges(run, ceiling, m, n - 1, input, output);
      RepeatLast(run, Charge(input, output), n);
      assert n * Cost(input, output) == (n - 1) * Cost(input, output) + Cost(input, output);
    }
  }

  /** A call of exactly `c` minor units. */
  function InputFor(c: nat): nat {
    (10 * c + 2) / 3
  }

  lemma InputCosts(c: nat)
    ensures Cost(InputFor(c), 0) == c
  {
  }

  /** `n` calls of one minor unit, one after the other. */
  function Units(n: nat): seq<Label> {
    if n == 0 then [] else Units(n - 1) + [Check] + [Charge(InputFor(1), 0)]
  }

  lemma {:induction false} UnitsSpend(n: nat, ceiling: nat, m: nat)
    requires n < ceiling && m > 0
    ensures var t := After(Units(n), ceiling, m); t.spent == n && t.inFlight == 0
    ensures CostsAtMost(Units(n), 1)
  {
    if n > 0 {
      UnitsSpend(n - 1, ceiling, m);
      InputCosts(1);
      var run := Units(n - 1);
      assert (run + [Check])[..|run|] == run;
      assert (run + [Check] + [Charge(InputFor(1), 0)])[..|run| + 1] == run + [Check];
    }
  }

  /** Just below the ceiling, then `m` calls at once. */
  function WorstRun(ceiling: nat, m: nat, c: nat): seq<Label>
    requires ceiling > 0
  {
    Units(ceiling - 1) + Repeat(Check, m) + Repeat(Charge(InputFor(c), 0), m)
  }

  lemma CostsOfBoth(a: seq<Label>, b: seq<Label>, c: nat)
    requires CostsAtMost(a, c) && CostsAtMost(b, c)
    ensures CostsAtMost(a + b, c)
  {
  }

  lemma WorstCosts(ceiling: nat, m: nat, c: nat)
    requires ceiling > 0 && m > 0 && c > 0
    ensures CostsAtMost(WorstRun(ceiling, m, c), c)
  {
    InputCosts(c);
    UnitsSpend(ceiling - 1, ceiling, m);
    CostsOfBoth(Units(ceiling - 1), Repeat(Check, m), c);
    CostsOfBoth(Units(ceiling - 1) + Repeat(Check, m), Repeat(Charge(InputFor(c), 0), m), c);
  }

  /** The bound is attained, for every price of at least one unit. */
  lemma OvershootTight(ceiling: nat, m: nat, c: nat)
    requires ceiling > 0 && m > 0 && c > 0
    ensures CostsAtMost(WorstRun(ceiling, m, c), c)
    ensures After(WorstRun(ceiling, m, c), ceiling, m).spent == ceiling - 1 + m * c
  {
    WorstCosts(ceiling, m, c);
    var brink := Units(ceiling - 1);
    UnitsSpend(ceiling - 1, ceiling, m);
    ManyChecks(brink, ceiling, m, m);
    ManyCharges(brink + Repeat(Check, m), ceiling, m, m, InputFor(c), 0);
    InputCosts(c);
  }

  // ---- how many calls -----------------------------------------------------------------------------

  /** If every charge bills at least one unit, the guard admits at most `ceiling + m - 1` calls that do not fail. */
  lemma {:induction false} AdmissionsBounded(run: seq<Label>, ceiling: nat, m: nat)
    requires ceiling > 0 && m > 0 && CostsAtLeastOne(run)
    ensures var t := After(run, ceiling, m);
            && t.admitted <= ceiling + m - 1 + t.failed
            && t.admitted == t.inFlight + t.charged + t.failed && t.charged <= t.spent && t.inFlight <= m
  {
    if run != [] {
      AdmissionsBounded(run[..|run| - 1], ceiling, m);
    }
  }

  predicate FreeOnly(run: seq<Label>) {
    forall i :: 0 <= i < |run| && run[i].Charge? ==> Cost(run[i].input, run[i].output) == 0
  }

  /** A call is billed nothing exactly when it answers nothing and reads at most three tokens. */
  lemma FreeIff(input: nat, output: nat)
    ensures Cost(input, output) == 0 <==> output == 0 && input <= 3
  {
  }

  /** Calls that truncate to zero never trip the guard, however many there are. */
  lemma {:induction false} FreeCallsNeverTrip(run: seq<Label>, ceiling: nat, m: nat)
    requires ceiling > 0 && FreeOnly(run)
    ensures After(run, ceiling, m).spent == 0
    ensures var t := After(run, ceiling, m);
            t.inFlight < m ==> Apply(t, Check, ceiling, m).admitted == t.admitted + 1
  {
    if run != [] {
      FreeCallsNeverTrip(run[..|run| - 1], ceiling, m);
    }
  }

  // ---- truncation ---------------------------------------------------------------------------------

  /** The exact price of what a run charged, in thousandths. */
  function ExactOf(run: seq<Label>, ceiling: nat, m: nat): nat {
    if run == [] then 0
    else
      var front, last := run[..|run| - 1], run[|run| - 1];
      ExactOf(front, ceiling, m)
      + if last.Charge? && After(front, ceiling, m).inFlight > 0 then Exact(last.input, last.output) else 0
  }

  /** The tally never exceeds the exact price and lags it by less than one unit a charge. */
  lemma {:induction false} TruncationDrift(run: seq<Label>, ceiling: nat, m: nat)
    ensures var t := After(run, ceiling, m);
            1000 * t.spent <= ExactOf(run, ceiling, m) <= 1000 * t.spent + 999 * t.charged
  {
    if run != [] {
      TruncationDrift(run[..|run| - 1], ceiling, m);
    }
  }
}
