/**
 The agent graph's plan and fan-in (taxcalc-agent-svc/src/taxcalc_agent_svc/graph.py, state.py): who
 runs, how the slots they write are reduced, and what a thread accumulates over its runs.
 */
module FanIn {
  import opened Options
  import opened Trajectories

  const RETRIEVAL_AGENT: string := "retrieval_agent"
  const API_AGENT: string := "api_agent"
  const SYNTHESIS_AGENT: string := "synthesis_agent"

  const DOCS_KEYWORDS: seq<string> := ["policy", "docs", "how do i", "rule", "deduction"]
  const API_KEYWORDS: seq<string> := ["order", "refund", "status", "ord-"]

  // ---- the supervisor -----------------------------------------------------------------------------

  predicate OccursAt(t: string, q: string, i: nat) {
    i + |t| <= |q| && q[i..i + |t|] == t
  }

  predicate OccursIn(t: string, q: string) {
    exists i: nat :: i <= |q| && OccursAt(t, q, i)
  }

  predicate AnyOccursIn(ts: seq<string>, q: string) {
    exists k :: 0 <= k < |ts| && OccursIn(ts[k], q)
  }

  /** `t in q`. */
  ghost predicate Within(t: string, q: string) {
    exists a, b :: q == a + t + b
  }

  lemma OccursIff(t: string, q: string)
    ensures OccursIn(t, q) <==> Within(t, q)
  {
    if OccursIn(t, q) {
      var i: nat :| i <= |q| && OccursAt(t, q, i);
      assert q == q[..i] + t + q[i + |t|..];
    }
    if a, b :| q == a + t + b {
      assert q[|a|..|a| + |t|] == t;
      assert OccursAt(t, q, |a|);
    }
  }

  /** Words that route to the tools, and words that route to the corpus. */
  ghost predicate AsksApi(q: string) {
    Within("order", q) || Within("refund", q) || Within("status", q) || Within("ord-", q)
  }

  ghost predicate AsksDocs(q: string) {
    || Within("policy", q) || Within("docs", q) || Within("how do i", q) || Within("rule", q)
    || Within("deduction", q)
  }

  lemma ApiKeywords(q: string)
    ensures AnyOccursIn(API_KEYWORDS, q) <==> AsksApi(q)
  {
    forall k | 0 <= k < |API_KEYWORDS| ensures OccursIn(API_KEYWORDS[k], q) <==> Within(API_KEYWORDS[k], q) {
      OccursIff(API_KEYWORDS[k], q);
    }
    assert API_KEYWORDS[0] == "order" && API_KEYWORDS[1] == "refund";
    assert API_KEYWORDS[2] == "status" && API_KEYWORDS[3] == "ord-";
  }

  lemma DocsKeywords(q: string)
    ensures AnyOccursIn(DOCS_KEYWORDS, q) <==> AsksDocs(q)
  {
    forall k | 0 <= k < |DOCS_KEYWORDS| ensures OccursIn(DOCS_KEYWORDS[k], q) <==> Within(DOCS_KEYWORDS[k], q) {
      OccursIff(DOCS_KEYWORDS[k], q);
    }
    assert DOCS_KEYWORDS[0] == "policy" && DOCS_KEYWORDS[1] == "docs" && DOCS_KEYWORDS[2] == "how do i";
    assert DOCS_KEYWORDS[3] == "rule" && DOCS_KEYWORDS[4] == "deduction";
  }

  /** Routing, by the words themselves. */
  lemma PlanRoutes(q: string)
    ensures AsksDocs(q) && AsksApi(q) ==> Plan(q) == ["retrieval_agent", "api_agent"]
    ensures !AsksDocs(q) && AsksApi(q) ==> Plan(q) == ["api_agent"]
    ensures !AsksApi(q) ==> Plan(q) == ["retrieval_agent"]
  {
    ApiKeywords(q);
    DocsKeywords(q);
  }

  /** The fan-out for a lower-cased question. */
  method Supervisor(q: string) returns (targets: seq<string>)
    ensures targets == Plan(q)
  {
    var needsDocs := AnyOccursIn(DOCS_KEYWORDS, q);
    var needsApi := AnyOccursIn(API_KEYWORDS, q);
    targets := [];
    if needsDocs {
      targets := targets + [RETRIEVAL_AGENT];
    }
    if needsApi {
      targets := targets + [API_AGENT];
    }
    if targets == [] {
      targets := targets + [RETRIEVAL_AGENT];
    }
  }

  /** The api worker runs for an api question; retrieval for all but a pure api question, and first. */
  function Plan(q: string): (plan: seq<string>)
    ensures plan != []
    ensures API_AGENT in plan <==> AnyOccursIn(API_KEYWORDS, q)
    ensures RETRIEVAL_AGENT in plan <==> AnyOccursIn(DOCS_KEYWORDS, q) || !AnyOccursIn(API_KEYWORDS, q)
    ensures |plan| == 2 ==> plan == [RETRIEVAL_AGENT, API_AGENT]
    ensures |plan| <= 2 && SYNTHESIS_AGENT !in plan
  {
    assert RETRIEVAL_AGENT[0] == 'r' && API_AGENT[0] == 'a' && SYNTHESIS_AGENT[0] == 's';
    match (AnyOccursIn(DOCS_KEYWORDS, q), AnyOccursIn(API_KEYWORDS, q))
    case (true, true) => [RETRIEVAL_AGENT, API_AGENT]
    case (false, true) => [API_AGENT]
    case (_, false) => [RETRIEVAL_AGENT]
  }

  // ---- the reducers -------------------------------------------------------------------------------

  type Results = map<string, string>

  function Or(m: Option<Results>): Results {
    match m
    case Some(r) => r
    case None => map[]
  }

  /** `_merge_tool_results`. */
  function MergeToolResults(prior: Option<Results>, incoming: Option<Results>): Results {
    Or(prior) + Or(incoming)
  }

  lemma MergeAssociates(a: Option<Results>, b: Option<Results>, c: Option<Results>)
    ensures MergeToolResults(Some(MergeToolResults(a, b)), c) == MergeToolResults(a, Some(MergeToolResults(b, c)))
  {
    assert (Or(a) + Or(b)) + Or(c) == Or(a) + (Or(b) + Or(c));
  }

  /** None is the empty mapping, and that is the unit. */
  lemma NoneIsUnit(a: Option<Results>)
    ensures MergeToolResults(None, a) == MergeToolResults(a, None) == Or(a)
    ensures MergeToolResults(Some(map[]), a) == MergeToolResults(a, Some(map[])) == Or(a)
  {
    assert map[] + Or(a) == Or(a) && Or(a) + map[] == Or(a);
  }

  /** Both sides' keys survive, and the new value wins. */
  lemma MergeIsRightBiased(a: Option<Results>, b: Option<Results>, key: string)
    ensures key in MergeToolResults(a, b) <==> key in Or(a) || key in Or(b)
    ensures key in Or(b) ==> MergeToolResults(a, b)[key] == Or(b)[key]
    ensures key in Or(a) && key !in Or(b) ==> MergeToolResults(a, b)[key] == Or(a)[key]
  {
  }

  predicate AgreeOnShared(a: Results, b: Results) {
    forall key :: key in a && key in b ==> a[key] == b[key]
  }

  lemma MergeCommutesIff(a: Results, b: Results)
    ensures MergeToolResults(Some(a), Some(b)) == MergeToolResults(Some(b), Some(a)) <==> AgreeOnShared(a, b)
  {
    var ab, ba := MergeToolResults(Some(a), Some(b)), MergeToolResults(Some(b), Some(a));
    if ab == ba {
      forall key | key in a && key in b ensures a[key] == b[key] {
        assert ab[key] == ba[key];
      }
    }
    if AgreeOnShared(a, b) {
      assert ab == ba;
    }
  }

  /** The reduced slots of `AgentState`. */
  datatype State = State(docs: seq<string>, tools: Results, cost: nat, visited: seq<string>, answer: Option<string>)

  const EMPTY: State := State([], map[], 0, [], None)

  /** A node's partial contribution; an answer only from the node that writes one. */
  datatype Write = Write(
    docs: seq<string>,
    tools: Option<Results>,
    cost: nat,
    visited: seq<string>,
    answer: Option<string>)

  function Reduce(s: State, w: Write): State {
    State(s.docs + w.docs, MergeToolResults(Some(s.tools), w.tools), s.cost + w.cost, s.visited + w.visited,
          if w.answer.Some? then w.answer else s.answer)
  }

  /** One contribution, slot by slot: appended, merged, added; the answer replaced only by an answer. */
  lemma ReduceMeans(s: State, w: Write)
    ensures var t := Reduce(s, w);
            && t.docs == s.docs + w.docs && t.visited == s.visited + w.visited && t.cost == s.cost + w.cost
            && (w.tools.None? ==> t.tools == s.tools) && (w.tools.Some? ==> t.tools == s.tools + w.tools.value)
            && t.answer == if w.answer.Some? then w.answer else s.answer
  {
  }

  /** The writes of a super-step, applied in the order of its tasks. */
  function Folded(s: State, writes: seq<Write>): State {
    if writes == [] then s
    else Reduce(Folded(s, writes[..|writes| - 1]), writes[|writes| - 1])
  }

  /** What the last write to name a tool recorded for it. */
  function LastResult(writes: seq<Write>, tool: string): Option<string> {
    if writes == [] then None
    else
      var results := Or(writes[|writes| - 1].tools);
      if tool in results then Some(results[tool]) else LastResult(writes[..|writes| - 1], tool)
  }

  /** A tool's result is that of its last writer; a write that does not name it leaves it alone. */
  lemma {:induction false} LastWriterWins(s: State, writes: seq<Write>, tool: string)
    ensures var tools, last := Folded(s, writes).tools, LastResult(writes, tool);
            && (last.Some? ==> tool in tools && tools[tool] == last.value)
            && (last.None? ==> (tool in tools <==> tool in s.tools) && (tool in tools ==> tools[tool] == s.tools[tool]))
  {
    if writes != [] {
      LastWriterWins(s, writes[..|writes| - 1], tool);
    }
  }

  // ---- completion order ---------------------------------------------------------------------------

  /** Every task finishes once, in some order. */
  predicate Completes(order: seq<nat>, n: nat) {
    && (forall k :: 0 <= k < |order| ==> order[k] < n)
    && (forall i: nat :: i < n ==> i in order)
  }

  /** The buffer of finished tasks. */
  function Gathered(writes: seq<Write>, order: seq<nat>): (done: map<nat, Write>)
    requires forall k :: 0 <= k < |order| ==> order[k] < |writes|
    ensures forall i: nat :: i in done <==> i in order
    ensures forall i :: i in done ==> i < |writes| && done[i] == writes[i]
  {
    if order == [] then map[]
    else
      var n := |order| - 1;
      assert order == order[..n] + [order[n]];
      Gathered(writes, order[..n])[order[n] := writes[order[n]]]
  }

  /** The fan-in: once all are in, task by task. */
  function Applied(s: State, done: map<nat, Write>, n: nat): State
    requires forall i: nat :: i < n ==> i in done
  {
    if n == 0 then s else Reduce(Applied(s, done, n - 1), done[n - 1])
  }

  lemma {:induction false} AppliedIsFolded(s: State, writes: seq<Write>, done: map<nat, Write>, n: nat)
    requires n <= |writes| && forall i: nat :: i < n ==> i in done && done[i] == writes[i]
    ensures Applied(s, done, n) == Folded(s, writes[..n])
  {
    if n > 0 {
      AppliedIsFolded(s, writes, done, n - 1);
      assert writes[..n][..n - 1] == writes[..n - 1];
    }
  }

  /** Whoever finishes first, the merged state is the plan's. */
  lemma CompletionOrderIrrelevant(s: State, writes: seq<Write>, order: seq<nat>)
    requires Completes(order, |writes|)
    ensures Applied(s, Gathered(writes, order), |writes|) == Folded(s, writes)
  {
    AppliedIsFolded(s, writes, Gathered(writes, order), |writes|);
    assert writes[..|writes|] == writes;
  }

  /** A worker signs the trajectory with its own name. */
  predicate Signs(w: Write, node: string) {
    w.visited == [node]
  }

  lemma AppendEither<T>(s: seq<T>, a: seq<T>, b: seq<T>)
    ensures (s + a) + b == (s + b) + a <==> a + b == b + a
  {
    assert ((s + a) + b)[|s|..] == a + b && ((s + b) + a)[|s|..] == b + a;
    assert a + b == b + a ==> (s + a) + b == s + (a + b) == s + (b + a) == (s + b) + a;
  }

  lemma MergeEither(t: Results, a: Results, b: Results)
    ensures (t + a) + b == (t + b) + a <==> AgreeOnShared(a, b)
  {
    var ab, ba := (t + a) + b, (t + b) + a;
    if ab == ba {
      forall key | key in a && key in b ensures a[key] == b[key] {
        assert ab[key] == ba[key];
      }
    }
    if AgreeOnShared(a, b) {
      assert ab == ba;
    }
  }

  /** Exactly when two workers may be merged in either order. */
  lemma EitherOrderIff(s: State, a: Write, b: Write)
    ensures Reduce(Reduce(s, a), b) == Reduce(Reduce(s, b), a) <==>
            && a.docs + b.docs == b.docs + a.docs && a.visited + b.visited == b.visited + a.visited
            && AgreeOnShared(Or(a.tools), Or(b.tools))
            && (a.answer.Some? && b.answer.Some? ==> a.answer == b.answer)
  {
    AppendEither(s.docs, a.docs, b.docs);
    AppendEither(s.visited, a.visited, b.visited);
    MergeEither(s.tools, Or(a.tools), Or(b.tools));
  }

  /** Merging as they finish would not do: two workers would leave two different states. */
  lemma CompletionOrderWouldMatter(s: State, a: Write, b: Write)
    requires Signs(a, RETRIEVAL_AGENT) && Signs(b, API_AGENT)
    ensures Reduce(Reduce(s, a), b) != Reduce(Reduce(s, b), a)
    ensures Reduce(Reduce(s, a), b).cost == Reduce(Reduce(s, b), a).cost
  {
    var x, y := Reduce(Reduce(s, a), b), Reduce(Reduce(s, b), a);
    assert x.visited[|s.visited|] == RETRIEVAL_AGENT && y.visited[|s.visited|] == API_AGENT;
    assert RETRIEVAL_AGENT[0] == 'r' && API_AGENT[0] == 'a';
  }

  // ---- runs of the graph --------------------------------------------------------------------------

  /** One invocation: the question, what the planned workers wrote, what synthesis wrote. */
  datatype Run = Run(question: string, workers: seq<Write>, synthesis: Write)

  predicate Signed(r: Run) {
    && |r.workers| == |Plan(r.question)|
    && (forall i :: 0 <= i < |r.workers| ==> Signs(r.workers[i], Plan(r.question)[i]))
    && Signs(r.synthesis, SYNTHESIS_AGENT) && r.synthesis.answer.Some?
  }

  /** The workers' super-step, then synthesis. */
  function Invoked(s: State, r: Run): State {
    Reduce(Folded(s, r.workers), r.synthesis)
  }

  lemma {:induction false} FoldedVisits(s: State, writes: seq<Write>, names: seq<string>)
    requires |writes| == |names| && forall i :: 0 <= i < |writes| ==> Signs(writes[i], names[i])
    ensures Folded(s, writes).visited == s.visited + names
  {
    if writes != [] {
      var n := |writes| - 1;
      FoldedVisits(s, writes[..n], names[..n]);
      assert names == names[..n] + [names[n]];
    }
  }

  /** Every run visits its plan, retrieval before api, and then synthesis once. */
  lemma RunVisits(s: State, r: Run)
    requires Signed(r)
    ensures Invoked(s, r).visited == s.visited + Plan(r.question) + [SYNTHESIS_AGENT]
    ensures Invoked(s, r).answer == r.synthesis.answer
  {
    FoldedVisits(s, r.workers, Plan(r.question));
  }

  /** So the trajectory metric scores 1 against the plan, whatever the thread did before. */
  lemma RunMatchesItsPlan(s: State, r: Run)
    requires Signed(r)
    ensures Embeds(Invoked(s, r).visited, Plan(r.question) + [SYNTHESIS_AGENT])
  {
    RunVisits(s, r);
    var golden := Plan(r.question) + [SYNTHESIS_AGENT];
    var actual := Invoked(s, r).visited;
    var at := seq(|golden|, (i: nat) => |s.visited| + i);
    assert actual == s.visited + golden;
    assert Embedding(actual, 0, golden, 0, at);
  }

  /** And 0 for every other sequence of as many nodes, synthesis before its evidence among them. */
  lemma OnlyThePlanMatches(q: string, visited: seq<string>)
    requires |visited| == |Plan(q)| + 1
    ensures Embeds(visited, Plan(q) + [SYNTHESIS_AGENT]) <==> visited == Plan(q) + [SYNTHESIS_AGENT]
  {
    SameLengthMatchesIff(visited, Plan(q) + [SYNTHESIS_AGENT]);
  }

  lemma SynthesisFirstFails(node: string)
    requires node != SYNTHESIS_AGENT
    ensures !Embeds([SYNTHESIS_AGENT, node], [node, SYNTHESIS_AGENT])
  {
    SameLengthMatchesIff([SYNTHESIS_AGENT, node], [node, SYNTHESIS_AGENT]);
    assert [SYNTHESIS_AGENT, node][0] != [node, SYNTHESIS_AGENT][0];
  }

  // ---- a thread -----------------------------------------------------------------------------------

  /** The checkpointed state after the runs of one thread. */
  function Thread(runs: seq<Run>): State {
    if runs == [] then EMPTY
    else Invoked(Thread(runs[..|runs| - 1]), runs[|runs| - 1])
  }

  function WritesOf(r: Run): seq<Write> {
    r.workers + [r.synthesis]
  }

  function CostOf(writes: seq<Write>): nat {
    if writes == [] then 0 else CostOf(writes[..|writes| - 1]) + writes[|writes| - 1].cost
  }

  function DocsOf(writes: seq<Write>): seq<string> {
    if writes == [] then [] else DocsOf(writes[..|writes| - 1]) + writes[|writes| - 1].docs
  }

  function ThreadCost(runs: seq<Run>): nat {
    if runs == [] then 0 else ThreadCost(runs[..|runs| - 1]) + CostOf(WritesOf(runs[|runs| - 1]))
  }

  function ThreadDocs(runs: seq<Run>): seq<string> {
    if runs == [] then [] else ThreadDocs(runs[..|runs| - 1]) + DocsOf(WritesOf(runs[|runs| - 1]))
  }

  function ThreadVisits(runs: seq<Run>): seq<string> {
    if runs == [] then []
    else ThreadVisits(runs[..|runs| - 1]) + Plan(runs[|runs| - 1].question) + [SYNTHESIS_AGENT]
  }

  lemma {:induction false} FoldedSums(s: State, writes: seq<Write>)
    ensures Folded(s, writes).cost == s.cost + CostOf(writes)
    ensures Folded(s, writes).docs == s.docs + DocsOf(writes)
  {
    if writes != [] {
      FoldedSums(s, writes[..|writes| - 1]);
    }
  }

  lemma InvokedAdds(s: State, r: Run)
    requires Signed(r)
    ensures var t := Invoked(s, r);
            && t.cost == s.cost + CostOf(WritesOf(r)) && t.docs == s.docs + DocsOf(WritesOf(r))
            && t.visited == s.visited + Plan(r.question) + [SYNTHESIS_AGENT] && t.answer == r.synthesis.answer
  {
    RunVisits(s, r);
    FoldedSums(s, r.workers);
    assert WritesOf(r)[..|r.workers|] == r.workers;
  }

  /** n runs on one thread add up: cost, documents and visits of all of them, the answer of the last. */
  lemma {:induction false} ThreadAccumulates(runs: seq<Run>)
    requires forall i :: 0 <= i < |runs| ==> Signed(runs[i])
    ensures var s := Thread(runs);
            && s.cost == ThreadCost(runs) && s.docs == ThreadDocs(runs) && s.visited == ThreadVisits(runs)
            && s.answer == if runs == [] then None else runs[|runs| - 1].synthesis.answer
  {
    if runs != [] {
      ThreadAccumulates(runs[..|runs| - 1]);
      InvokedAdds(Thread(runs[..|runs| - 1]), runs[|runs| - 1]);
    }
  }
}
