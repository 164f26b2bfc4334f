/**
 The trajectory metric (taxcalc-agent-svc/evals/trajectory.py, `trajectory_match`): one iterator over
 the nodes that ran, consumed by each expected node in turn.
 */
module Trajectories {

  /** Positions of `actual`, from `from` on, that spell the rest of `expected` in order. */
  predicate Embedding(actual: seq<string>, from: nat, expected: seq<string>, k: nat, at: seq<nat>) {
    && k + |at| == |expected|
    && (forall i :: 0 <= i < |at| ==> from <= at[i] < |actual| && actual[at[i]] == expected[k + i])
    && (forall i, j :: 0 <= i < j < |at| ==> at[i] < at[j])
  }

  ghost predicate Embeds(actual: seq<string>, expected: seq<string>) {
    exists at :: Embedding(actual, 0, expected, 0, at)
  }

  /** Where `x` next occurs, or the end. */
  function NextAt(actual: seq<string>, from: nat, x: string): (next: nat)
    requires from <= |actual|
    ensures from <= next <= |actual| && (next < |actual| ==> actual[next] == x)
    ensures forall j :: from <= j < next ==> actual[j] != x
    decreases |actual| - from
  {
    if from == |actual| || actual[from] == x then from else NextAt(actual, from + 1, x)
  }

  /** What a shared iterator at `from` computes: each node is looked for after the previous one. */
  predicate Consumes(actual: seq<string>, from: nat, expected: seq<string>, k: nat)
    requires from <= |actual| && k <= |expected|
    decreases |expected| - k
  {
    k == |expected| ||
    var next := NextAt(actual, from, expected[k]);
    next < |actual| && Consumes(actual, next + 1, expected, k + 1)
  }

  lemma {:induction false} ConsumesEmbeds(actual: seq<string>, from: nat, expected: seq<string>, k: nat)
    returns (at: seq<nat>)
    requires from <= |actual| && k <= |expected| && Consumes(actual, from, expected, k)
    ensures Embedding(actual, from, expected, k, at)
    decreases |expected| - k
  {
    if k == |expected| {
      at := [];
    } else {
      var next := NextAt(actual, from, expected[k]);
      var rest := ConsumesEmbeds(actual, next + 1, expected, k + 1);
      at := Prepend(actual, from, expected, k, next, rest);
    }
  }

  lemma Prepend(actual: seq<string>, from: nat, expected: seq<string>, k: nat, next: nat, rest: seq<nat>)
    returns (at: seq<nat>)
    requires k < |expected| && from <= next < |actual| && actual[next] == expected[k]
    requires Embedding(actual, next + 1, expected, k + 1, rest)
    ensures Embedding(actual, from, expected, k, at)
  {
    at := [next] + rest;
    forall i | 0 <= i < |at| ensures from <= at[i] < |actual| && actual[at[i]] == expected[k + i] {
      if i > 0 {
        assert at[i] == rest[i - 1];
      }
    }
  }

  /** Taking the first occurrence leaves room for whatever any embedding used. */
  lemma {:induction false} EmbedsConsumes(actual: seq<string>, from: nat, expected: seq<string>, k: nat, at: seq<nat>)
    requires from <= |actual| && k <= |expected| && Embedding(actual, from, expected, k, at)
    ensures Consumes(actual, from, expected, k)
    decreases |expected| - k
  {
    if k < |expected| {
      assert actual[at[0]] == expected[k];
      var next := NextAt(actual, from, expected[k]);
      assert next <= at[0];
      DropFirst(actual, from, expected, k, at, next);
      EmbedsConsumes(actual, next + 1, expected, k + 1, at[1..]);
    }
  }

  lemma DropFirst(actual: seq<string>, from: nat, expected: seq<string>, k: nat, at: seq<nat>, next: nat)
    requires k < |expected| && Embedding(actual, from, expected, k, at) && next <= at[0]
    ensures Embedding(actual, next + 1, expected, k + 1, at[1..])
  {
    forall i | 0 <= i < |at[1..]|
      ensures next + 1 <= at[1..][i] < |actual| && actual[at[1..][i]] == expected[k + 1 + i]
    {
      assert at[1..][i] == at[i + 1];
    }
  }

  lemma ConsumesIffEmbeds(actual: seq<string>, expected: seq<string>)
    ensures Consumes(actual, 0, expected, 0) <==> Embeds(actual, expected)
  {
    if Consumes(actual, 0, expected, 0) {
      var at := ConsumesEmbeds(actual, 0, expected, 0);
    }
    if at :| Embedding(actual, 0, expected, 0, at) {
      EmbedsConsumes(actual, 0, expected, 0, at);
    }
  }

  /** What remains of the iterator after looking for `x`. */
  method Advance(actual: seq<string>, from: nat, x: string) returns (next: nat)
    requires from <= |actual|
    ensures next == NextAt(actual, from, x)
  {
    next := from;
    while next < |actual| && actual[next] != x
      invariant from <= next <= |actual|
      invariant NextAt(actual, from, x) == NextAt(actual, next, x)
    {
      next := next + 1;
    }
  }

  /** `all(node in remaining for node in expected)`. */
  method AllFound(actual: seq<string>, expected: seq<string>) returns (all: bool)
    ensures all <==> Consumes(actual, 0, expected, 0)
  {
    var at: nat, k: nat := 0, 0;
    while k < |expected|
      invariant at <= |actual| && k <= |expected|
      invariant Consumes(actual, 0, expected, 0) == Consumes(actual, at, expected, k)
    {
      var next := Advance(actual, at, expected[k]);
      if next == |actual| {
        return false;
      }
      at, k := next + 1, k + 1;
    }
    return true;
  }

  /** 1 exactly when an order-preserving embedding exists. */
  method TrajectoryMatch(actual: seq<string>, expected: seq<string>) returns (score: real)
    ensures score == if Embeds(actual, expected) then 1.0 else 0.0
  {
    ConsumesIffEmbeds(actual, expected);
    var all := AllFound(actual, expected);
    score := if all then 1.0 else 0.0;
  }

  lemma {:induction false} NoneEarly(actual: seq<string>, expected: seq<string>, at: seq<nat>, i: nat)
    requires Embedding(actual, 0, expected, 0, at) && i < |at|
    ensures at[i] >= i
  {
    if i > 0 {
      NoneEarly(actual, expected, at, i - 1);
    }
  }

  lemma {:induction false} NoneLate(actual: seq<string>, expected: seq<string>, at: seq<nat>, i: nat)
    requires |actual| == |expected| && Embedding(actual, 0, expected, 0, at) && i < |at|
    ensures at[i] <= i
    decreases |at| - i
  {
    if i + 1 < |at| {
      NoneLate(actual, expected, at, i + 1);
    }
  }

  /** A trajectory as long as the golden one matches only if it is the golden one: every reordering scores 0. */
  lemma SameLengthMatchesIff(actual: seq<string>, expected: seq<string>)
    requires |actual| == |expected|
    ensures Embeds(actual, expected) <==> actual == expected
  {
    if at :| Embedding(actual, 0, expected, 0, at) {
      forall i: nat | i < |at| ensures actual[i] == expected[i] {
        NoneEarly(actual, expected, at, i);
        NoneLate(actual, expected, at, i);
      }
    }
    if actual == expected {
      var at := seq(|expected|, (i: nat) => i);
      assert Embedding(actual, 0, expected, 0, at);
    }
  }
}
