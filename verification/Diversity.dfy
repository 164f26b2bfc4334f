/**
 Maximal Marginal Relevance (taxcalc-ai/src/taxcalc_ai/rerank.py, `mmr_pick`), with similarities as
 exact reals.
 */
module Diversity {
  import opened StableOrder
  import opened Fusion

  const MMR_LAMBDA: real := 0.7
  const DEFAULT_MMR_K: int := 20

  type Vec = seq<real>

  function Dot(u: Vec, v: Vec): real
    requires |u| == |v|
  {
    if u == [] then 0.0
    else
      var n := |u| - 1;
      Dot(u[..n], v[..n]) + u[n] * v[n]
  }

  /** One dimension multiplies, and dimensions add up, wherever a vector is cut. */
  lemma DotOfOne(x: real, y: real)
    ensures Dot([x], [y]) == x * y
  {
    assert Dot([x][..0], [y][..0]) == 0.0;
  }

  lemma {:induction false} DotOfConcat(a: Vec, b: Vec, c: Vec, d: Vec)
    requires |a| == |b| && |c| == |d|
    ensures Dot(a + c, b + d) == Dot(a, b) + Dot(c, d)
  {
    if c == [] {
      assert a + c == a && b + d == b;
    } else {
      var n := |c| - 1;
      DotOfConcat(a, b, c[..n], d[..n]);
      assert (a + c)[..|a| + n] == a + c[..n] && (b + d)[..|b| + n] == b + d[..n];
    }
  }

  /** Embeddings of one query and its candidates: one dimension for all. */
  predicate SameDim(query: Vec, vecs: seq<Vec>) {
    forall i :: 0 <= i < |vecs| ==> |vecs[i]| == |query|
  }

  /** The largest similarity to anything already picked. */
  function MaxSim(vecs: seq<Vec>, picked: seq<nat>, i: nat): (m: real)
    requires picked != [] && i < |vecs|
    requires forall a :: 0 <= a < |picked| ==> picked[a] < |vecs|
    requires forall a, b :: 0 <= a < b < |vecs| ==> |vecs[a]| == |vecs[b]|
    ensures forall a :: 0 <= a < |picked| ==> Dot(vecs[picked[a]], vecs[i]) <= m
    ensures exists a :: 0 <= a < |picked| && Dot(vecs[picked[a]], vecs[i]) == m
  {
    var n := |picked| - 1;
    var last := Dot(vecs[picked[n]], vecs[i]);
    if n == 0 then last
    else
      var rest := MaxSim(vecs, picked[..n], i);
      assert forall a :: 0 <= a < n ==> picked[..n][a] == picked[a];
      if rest >= last then rest else last
  }

  /** Relevance less redundancy; the first pick has nothing to be redundant with. */
  function Objective(query: Vec, vecs: seq<Vec>, trade: real, picked: seq<nat>, i: nat): real
    requires SameDim(query, vecs) && i < |vecs|
    requires forall a :: 0 <= a < |picked| ==> picked[a] < |vecs|
  {
    if picked == [] then Dot(vecs[i], query)
    else trade * Dot(vecs[i], query) - (1.0 - trade) * MaxSim(vecs, picked, i)
  }

  /** The shipped trade-off: plain similarity first, then 0.7 of it less 0.3 of the worst redundancy. */
  lemma ObjectiveMeans(query: Vec, vecs: seq<Vec>, picked: seq<nat>, i: nat)
    requires SameDim(query, vecs) && i < |vecs|
    requires forall a :: 0 <= a < |picked| ==> picked[a] < |vecs|
    ensures picked == [] ==> Objective(query, vecs, MMR_LAMBDA, picked, i) == Dot(vecs[i], query)
    ensures forall a :: 0 <= a < |picked| ==>
              Objective(query, vecs, MMR_LAMBDA, picked, i) <=
              0.7 * Dot(vecs[i], query) - 0.3 * Dot(vecs[picked[a]], vecs[i])
    ensures picked != [] ==>
              exists a :: 0 <= a < |picked|
                          && Objective(query, vecs, MMR_LAMBDA, picked, i) ==
                             0.7 * Dot(vecs[i], query) - 0.3 * Dot(vecs[picked[a]], vecs[i])
  {
    if picked != [] {
      var a :| 0 <= a < |picked| && Dot(vecs[picked[a]], vecs[i]) == MaxSim(vecs, picked, i);
    }
  }

  /** `b` is the lowest-numbered best of what is left. */
  ghost predicate BestLeft(query: Vec, vecs: seq<Vec>, trade: real, picked: seq<nat>, b: nat)
    requires SameDim(query, vecs)
    requires forall a :: 0 <= a < |picked| ==> picked[a] < |vecs|
  {
    && b < |vecs| && b !in picked
    && (forall i: nat :: i < |vecs| && i !in picked ==>
          Objective(query, vecs, trade, picked, i) <= Objective(query, vecs, trade, picked, b))
    && (forall i: nat :: i < b && i !in picked ==>
          Objective(query, vecs, trade, picked, i) < Objective(query, vecs, trade, picked, b))
  }

  /** Every pick was the best left when it was made. */
  ghost predicate Greedy(query: Vec, vecs: seq<Vec>, trade: real, picks: seq<nat>)
    requires SameDim(query, vecs)
  {
    && (forall a :: 0 <= a < |picks| ==> picks[a] < |vecs|)
    && (forall a :: 0 <= a < |picks| ==> BestLeft(query, vecs, trade, picks[..a], picks[a]))
  }

  function PickCount(k: int, n: nat): nat {
    if k <= 0 then 0 else if k < n then k else n
  }

  /** `remaining` of the loop: what is not picked, ascending. */
  ghost predicate IsRest(n: nat, picked: seq<nat>, remaining: seq<nat>) {
    && (forall i: nat :: i in remaining <==> i < n && i !in picked)
    && Ascending(remaining)
    && |remaining| + |picked| == n
  }

  /** `list.remove`: the first occurrence goes. */
  function Without(xs: seq<nat>, x: nat): (r: seq<nat>)
    requires x in xs
    ensures |r| == |xs| - 1
  {
    if xs[0] == x then xs[1..] else [xs[0]] + Without(xs[1..], x)
  }

  predicate Ascending(xs: seq<nat>) {
    forall a, b :: 0 <= a < b < |xs| ==> xs[a] < xs[b]
  }

  lemma InTail(xs: seq<nat>, y: nat)
    requires xs != []
    ensures y in xs <==> y == xs[0] || y in xs[1..]
  {
    assert xs == [xs[0]] + xs[1..];
  }

  lemma {:induction false} WithoutMembers(xs: seq<nat>, x: nat, y: nat)
    requires x in xs && Ascending(xs)
    ensures y in Without(xs, x) <==> y in xs && y != x
  {
    InTail(xs, y);
    InTail(xs, x);
    if xs[0] == x {
      assert x !in xs[1..];
    } else {
      WithoutMembers(xs[1..], x, y);
      InTail([xs[0]] + Without(xs[1..], x), y);
    }
  }

  lemma {:induction false} WithoutAscends(xs: seq<nat>, x: nat)
    requires x in xs && Ascending(xs)
    ensures Ascending(Without(xs, x))
  {
    if xs[0] != x {
      InTail(xs, x);
      WithoutAscends(xs[1..], x);
      var r := Without(xs[1..], x);
      forall a | 0 <= a < |r| ensures xs[0] < r[a] {
        WithoutMembers(xs[1..], x, r[a]);
      }
    }
  }

  /** The objective of each index still left. */
  ghost function ScoresOf(query: Vec, vecs: seq<Vec>, trade: real, picked: seq<nat>, remaining: seq<nat>)
    : (r: seq<real>)
    requires SameDim(query, vecs)
    requires forall a :: 0 <= a < |picked| ==> picked[a] < |vecs|
    requires forall a :: 0 <= a < |remaining| ==> remaining[a] < |vecs|
    ensures |r| == |remaining|
    ensures forall a :: 0 <= a < |r| ==> r[a] == Objective(query, vecs, trade, picked, remaining[a])
  {
    seq(|remaining|, a requires 0 <= a < |remaining| => Objective(query, vecs, trade, picked, remaining[a]))
  }

  /** The first of the largest among the first `j`. */
  ghost predicate FirstMax(scores: seq<real>, at: nat, j: nat) {
    && at < j <= |scores|
    && (forall a :: 0 <= a < j ==> scores[a] <= scores[at])
    && (forall a :: 0 <= a < at ==> scores[a] < scores[at])
  }

  /** The inner loop. Its first index beats the minus infinity it is compared with, whatever its score. */
  method BestOf(query: Vec, vecs: seq<Vec>, trade: real, picked: seq<nat>, remaining: seq<nat>) returns (best: nat)
    requires SameDim(query, vecs) && remaining != [] && IsRest(|vecs|, picked, remaining)
    requires forall a :: 0 <= a < |picked| ==> picked[a] < |vecs|
    ensures best in remaining && BestLeft(query, vecs, trade, picked, best)
  {
    assert forall a :: 0 <= a < |remaining| ==> remaining[a] in remaining;
    ghost var scores, at := ScoresOf(query, vecs, trade, picked, remaining), 0;
    best := remaining[0];
    var bestScore := Objective(query, vecs, trade, picked, best);
    for j := 1 to |remaining|
      invariant FirstMax(scores, at, j) && best == remaining[at] && bestScore == scores[at]
    {
      var score := Objective(query, vecs, trade, picked, remaining[j]);
      assert score == scores[j];
      if score > bestScore {
        at, best, bestScore := j, remaining[j], score;
      }
    }
    ScanIsBest(query, vecs, trade, picked, remaining, at);
  }

  lemma ScanIsBest(query: Vec, vecs: seq<Vec>, trade: real, picked: seq<nat>, remaining: seq<nat>, at: nat)
    requires SameDim(query, vecs) && IsRest(|vecs|, picked, remaining)
    requires forall a :: 0 <= a < |picked| ==> picked[a] < |vecs|
    requires forall a :: 0 <= a < |remaining| ==> remaining[a] < |vecs|
    requires FirstMax(ScoresOf(query, vecs, trade, picked, remaining), at, |remaining|)
    ensures BestLeft(query, vecs, trade, picked, remaining[at])
  {
    var scores := ScoresOf(query, vecs, trade, picked, remaining);
    assert remaining[at] in remaining;
    forall i: nat | i < |vecs| && i !in picked
      ensures Objective(query, vecs, trade, picked, i) <= scores[at]
      ensures i < remaining[at] ==> Objective(query, vecs, trade, picked, i) < scores[at]
    {
      assert i in remaining;
      var a := IndexOf(remaining, i);
      assert scores[a] == Objective(query, vecs, trade, picked, i);
      assert at < a ==> remaining[at] < remaining[a];
    }
  }

  function Upto(n: nat): (r: seq<nat>)
    ensures IsRest(n, [], r)
  {
    if n == 0 then []
    else
      var r := Upto(n - 1);
      assert forall a :: 0 <= a < |r| ==> r[a] in r;
      r + [n - 1]
  }

  lemma RestShrinks(n: nat, picked: seq<nat>, remaining: seq<nat>, best: nat)
    requires IsRest(n, picked, remaining) && best in remaining
    ensures IsRest(n, picked + [best], Without(remaining, best))
  {
    WithoutAscends(remaining, best);
    forall i: nat ensures i in Without(remaining, best) <==> i < n && i !in picked + [best] {
      WithoutMembers(remaining, best, i);
    }
  }

  /** `mmr_pick` over the encoded candidates: two lists, an outer loop of picks, an inner scan. */
  method MmrIndices(query: Vec, vecs: seq<Vec>, k: int, trade: real) returns (picked: seq<nat>)
    requires SameDim(query, vecs)
    ensures Greedy(query, vecs, trade, picked)
    ensures |picked| == PickCount(k, |vecs|)
  {
    picked := [];
    var remaining := Upto(|vecs|);
    while remaining != [] && |picked| < k
      invariant Greedy(query, vecs, trade, picked)
      invariant IsRest(|vecs|, picked, remaining)
      invariant |picked| <= PickCount(k, |vecs|)
      decreases |remaining|
    {
      var best := BestOf(query, vecs, trade, picked, remaining);
      GreedyGrows(query, vecs, trade, picked, best);
      RestShrinks(|vecs|, picked, remaining, best);
      picked := picked + [best];
      remaining := Without(remaining, best);
    }
  }

  lemma GreedyGrows(query: Vec, vecs: seq<Vec>, trade: real, picked: seq<nat>, best: nat)
    requires SameDim(query, vecs) && Greedy(query, vecs, trade, picked)
    requires BestLeft(query, vecs, trade, picked, best)
    ensures Greedy(query, vecs, trade, picked + [best])
  {
    var more := picked + [best];
    forall a | 0 <= a < |more| ensures more[a] < |vecs| && more[..a] == if a < |picked| then picked[..a] else picked {}
  }

  // ---- what greedy picking determines -----------------------------------------------------------

  lemma GreedyDistinct(query: Vec, vecs: seq<Vec>, trade: real, picks: seq<nat>)
    requires SameDim(query, vecs) && Greedy(query, vecs, trade, picks)
    ensures forall a, b :: 0 <= a < b < |picks| ==> picks[a] != picks[b]
  {
    forall a, b | 0 <= a < b < |picks| ensures picks[a] != picks[b] {
      assert picks[..b][a] == picks[a];
    }
  }

  lemma OneBest(query: Vec, vecs: seq<Vec>, trade: real, picked: seq<nat>, b: nat, b': nat)
    requires SameDim(query, vecs) && forall a :: 0 <= a < |picked| ==> picked[a] < |vecs|
    requires BestLeft(query, vecs, trade, picked, b) && BestLeft(query, vecs, trade, picked, b')
    ensures b == b'
  {
  }

  lemma NextAgrees(query: Vec, vecs: seq<Vec>, trade: real, xs: seq<nat>, ys: seq<nat>, j: nat)
    requires SameDim(query, vecs) && Greedy(query, vecs, trade, xs) && Greedy(query, vecs, trade, ys)
    requires j < |xs| && j < |ys| && xs[..j] == ys[..j]
    ensures xs[j] == ys[j]
  {
    OneBest(query, vecs, trade, xs[..j], xs[j], ys[j]);
  }

  /** There is one greedy answer: a shorter one is a prefix of a longer one. */
  lemma GreedyPrefix(query: Vec, vecs: seq<Vec>, trade: real, xs: seq<nat>, ys: seq<nat>)
    requires SameDim(query, vecs) && Greedy(query, vecs, trade, xs) && Greedy(query, vecs, trade, ys)
    requires |xs| <= |ys|
    ensures xs == ys[..|xs|]
  {
    GreedyPrefixUpTo(query, vecs, trade, xs, ys, |xs|);
    assert xs[..|xs|] == xs;
  }

  lemma {:induction false} GreedyPrefixUpTo(query: Vec, vecs: seq<Vec>, trade: real,
                                            xs: seq<nat>, ys: seq<nat>, j: nat)
    requires SameDim(query, vecs) && Greedy(query, vecs, trade, xs) && Greedy(query, vecs, trade, ys)
    requires j <= |xs| <= |ys|
    ensures xs[..j] == ys[..j]
  {
    if j > 0 {
      GreedyPrefixUpTo(query, vecs, trade, xs, ys, j - 1);
      NextAgrees(query, vecs, trade, xs, ys, j - 1);
      Snoc(xs, ys, j);
    }
  }

  lemma Snoc(xs: seq<nat>, ys: seq<nat>, j: nat)
    requires 0 < j <= |xs| && j <= |ys| && xs[..j - 1] == ys[..j - 1] && xs[j - 1] == ys[j - 1]
    ensures xs[..j] == ys[..j]
  {
    assert xs[..j] == xs[..j - 1] + [xs[j - 1]] && ys[..j] == ys[..j - 1] + [ys[j - 1]];
  }

  lemma BestKey(keys: seq<real>, picked: seq<nat>, n: nat) returns (b: nat)
    requires n <= |keys| && exists i: nat :: i < n && i !in picked
    ensures b < n && b !in picked
    ensures forall i: nat :: i < n && i !in picked ==> keys[i] <= keys[b]
    ensures forall i: nat :: i < b && i !in picked ==> keys[i] < keys[b]
  {
    if exists i: nat :: i < n - 1 && i !in picked {
      b := BestKey(keys, picked, n - 1);
      if n - 1 !in picked && keys[n - 1] > keys[b] {
        b := n - 1;
      }
    } else {
      b := n - 1;
    }
  }

  lemma BestExists(query: Vec, vecs: seq<Vec>, trade: real, picked: seq<nat>) returns (b: nat)
    requires SameDim(query, vecs) && forall a :: 0 <= a < |picked| ==> picked[a] < |vecs|
    requires exists i: nat :: i < |vecs| && i !in picked
    ensures BestLeft(query, vecs, trade, picked, b)
  {
    var keys := seq(|vecs|, i requires 0 <= i < |vecs| => Objective(query, vecs, trade, picked, i));
    b := BestKey(keys, picked, |vecs|);
    forall i: nat | i < |vecs| ensures keys[i] == Objective(query, vecs, trade, picked, i) {}
  }

  lemma OthersStay(xs: seq<nat>, a: nat, x: nat)
    requires a < |xs| && x in xs && x != xs[a]
    ensures x in xs[..a] + xs[a + 1..]
  {
    var c := IndexOf(xs, x);
    assert (xs[..a] + xs[a + 1..])[if c < a then c else c - 1] == x;
  }

  lemma SomeLeft(picked: seq<nat>, n: nat)
    requires |picked| < n
    ensures exists i: nat :: i < n && i !in picked
    decreases n
  {
    if n - 1 in picked {
      var a := IndexOf(picked, n - 1);
      var rest := picked[..a] + picked[a + 1..];
      SomeLeft(rest, n - 1);
      var i: nat :| i < n - 1 && i !in rest;
      if i in picked {
        OthersStay(picked, a, i);
      }
    }
  }

  lemma {:induction false} PicksExist(query: Vec, vecs: seq<Vec>, trade: real, n: nat) returns (picks: seq<nat>)
    requires SameDim(query, vecs) && n <= |vecs|
    ensures Greedy(query, vecs, trade, picks) && |picks| == n
  {
    picks := [];
    if n > 0 {
      picks := PicksExist(query, vecs, trade, n - 1);
      SomeLeft(picks, |vecs|);
      var b := BestExists(query, vecs, trade, picks);
      GreedyGrows(query, vecs, trade, picks, b);
      picks := picks + [b];
    }
  }

  lemma SomePicks(query: Vec, vecs: seq<Vec>, trade: real, n: nat)
    requires SameDim(query, vecs) && n <= |vecs|
    ensures exists picks :: Greedy(query, vecs, trade, picks) && |picks| == n
  {
    var picks := PicksExist(query, vecs, trade, n);
  }

  /** The one greedy answer of each length. */
  ghost function Picks(query: Vec, vecs: seq<Vec>, k: int, trade: real): (picks: seq<nat>)
    requires SameDim(query, vecs)
    ensures Greedy(query, vecs, trade, picks) && |picks| == PickCount(k, |vecs|)
  {
    SomePicks(query, vecs, trade, PickCount(k, |vecs|));
    var picks :| Greedy(query, vecs, trade, picks) && |picks| == PickCount(k, |vecs|);
    picks
  }

  /** The picks for a smaller k are a prefix of the picks for a larger one. */
  lemma PicksNest(query: Vec, vecs: seq<Vec>, k: int, more: int, trade: real)
    requires SameDim(query, vecs) && k <= more
    ensures Picks(query, vecs, k, trade) == Picks(query, vecs, more, trade)[..PickCount(k, |vecs|)]
  {
    GreedyPrefix(query, vecs, trade, Picks(query, vecs, k, trade), Picks(query, vecs, more, trade));
  }

  // ---- over candidates --------------------------------------------------------------------------

  ghost predicate SameLength(query: Vec, encode: string -> Vec) {
    forall text :: |encode(text)| == |query|
  }

  function Encoded(hits: seq<Hit>, encode: string -> Vec): (vecs: seq<Vec>)
    ensures |vecs| == |hits| && forall i :: 0 <= i < |hits| ==> vecs[i] == encode(hits[i].text)
  {
    seq(|hits|, i requires 0 <= i < |hits| => encode(hits[i].text))
  }

  function Chosen(hits: seq<Hit>, picks: seq<nat>): (r: seq<Hit>)
    requires forall a :: 0 <= a < |picks| ==> picks[a] < |hits|
    ensures |r| == |picks| && forall a :: 0 <= a < |picks| ==> r[a] == hits[picks[a]]
  {
    seq(|picks|, a requires 0 <= a < |picks| => hits[picks[a]])
  }

  ghost function Diversified(query: Vec, hits: seq<Hit>, encode: string -> Vec, k: int): (r: seq<Hit>)
    requires SameLength(query, encode)
    ensures |r| == PickCount(k, |hits|)
  {
    Chosen(hits, Picks(query, Encoded(hits, encode), k, MMR_LAMBDA))
  }

  /** `mmr_pick`: encode, pick, look the picks up; the incoming scores are carried through. */
  method MmrPick(query: Vec, hits: seq<Hit>, encode: string -> Vec, k: int) returns (r: seq<Hit>)
    requires SameLength(query, encode)
    ensures r == Diversified(query, hits, encode, k)
    ensures |r| == if k <= 0 then 0 else if k < |hits| then k else |hits|
    ensures exists vecs, picks ::
              && |vecs| == |hits| && (forall i :: 0 <= i < |hits| ==> vecs[i] == encode(hits[i].text))
              && SameDim(query, vecs) && |picks| == |r| && Greedy(query, vecs, 0.7, picks)
              && forall a :: 0 <= a < |r| ==> picks[a] < |hits| && r[a] == hits[picks[a]]
  {
    if hits == [] {
      assert Greedy(query, Encoded(hits, encode), 0.7, []);
      return [];
    }
    var vecs := Encoded(hits, encode);
    var picked := MmrIndices(query, vecs, k, MMR_LAMBDA);
    GreedyPrefix(query, vecs, MMR_LAMBDA, picked, Picks(query, vecs, k, MMR_LAMBDA));
    r := Chosen(hits, picked);
  }

  lemma DiversifiedNests(query: Vec, hits: seq<Hit>, encode: string -> Vec, k: int, more: int)
    requires SameLength(query, encode) && k <= more
    ensures Diversified(query, hits, encode, k) == Diversified(query, hits, encode, more)[..PickCount(k, |hits|)]
  {
    PicksNest(query, Encoded(hits, encode), k, more, MMR_LAMBDA);
  }

  lemma DiversifiedDistinct(query: Vec, hits: seq<Hit>, encode: string -> Vec, k: int)
    requires SameLength(query, encode) && DistinctIds(hits)
    ensures DistinctIds(Diversified(query, hits, encode, k))
  {
    var picks := Picks(query, Encoded(hits, encode), k, MMR_LAMBDA);
    GreedyDistinct(query, Encoded(hits, encode), MMR_LAMBDA, picks);
    var r := Diversified(query, hits, encode, k);
    forall a, b | 0 <= a < b < |r| ensures r[a].id != r[b].id {
      assert picks[a] < picks[b] || picks[b] < picks[a];
    }
  }

  function Similarities(query: Vec, vecs: seq<Vec>): (r: seq<real>)
    requires SameDim(query, vecs)
    ensures |r| == |vecs|
  {
    seq(|vecs|, i requires 0 <= i < |vecs| => Dot(vecs[i], query))
  }

  /** At lambda 1 the picks are the stable descending top of the similarities: no diversification at all. */
  lemma LambdaOneIsTopK(query: Vec, vecs: seq<Vec>, picks: seq<nat>)
    requires SameDim(query, vecs) && Greedy(query, vecs, 1.0, picks)
    ensures |picks| <= |vecs| && picks == Order(Similarities(query, vecs))[..|picks|]
  {
    var keys := Similarities(query, vecs);
    GreedyDistinct(query, vecs, 1.0, picks);
    forall a, i: nat | 0 <= a < |picks| && i < |vecs| && i !in picks[..a] && i != picks[a]
      ensures Before(keys, picks[a], i)
    {
      assert BestLeft(query, vecs, 1.0, picks[..a], picks[a]);
      assert Objective(query, vecs, 1.0, picks[..a], i) == keys[i];
      assert Objective(query, vecs, 1.0, picks[..a], picks[a]) == keys[picks[a]];
    }
    forall a, b | 0 <= a < b < |picks| ensures Before(keys, picks[a], picks[b]) {
      assert forall c :: 0 <= c < a ==> picks[..a][c] == picks[c];
    }
    forall a, i | 0 <= a < |picks| && 0 <= i < |keys| && i !in picks ensures Before(keys, picks[a], i) {
      assert forall c :: 0 <= c < a ==> picks[..a][c] == picks[c];
    }
    LeadingIsPrefix(keys, picks);
  }

  // ---- copies -----------------------------------------------------------------------------------

  predicate Unit(u: Vec) {
    Dot(u, u) == 1.0
  }

  function Minus(u: Vec, v: Vec): (w: Vec)
    requires |u| == |v|
    ensures |w| == |u|
  {
    seq(|u|, i requires 0 <= i < |u| => u[i] - v[i])
  }

  lemma {:induction false} DotOfDifference(u: Vec, v: Vec)
    requires |u| == |v|
    ensures Dot(Minus(u, v), Minus(u, v)) == Dot(u, u) + Dot(v, v) - 2.0 * Dot(u, v)
    ensures Dot(Minus(u, v), Minus(u, v)) >= 0.0
  {
    if u != [] {
      var n := |u| - 1;
      DotOfDifference(u[..n], v[..n]);
      assert Minus(u, v)[..n] == Minus(u[..n], v[..n]);
      SquareOfDifference(u[n], v[n]);
    }
  }

  lemma SquareOfDifference(x: real, y: real)
    ensures (x - y) * (x - y) == x * x + y * y - 2.0 * (x * y)
    ensures (x - y) * (x - y) >= 0.0
  {
  }

  /** Unit vectors are never more alike than a vector and itself. */
  lemma UnitBound(u: Vec, v: Vec)
    requires |u| == |v| && Unit(u) && Unit(v)
    ensures Dot(u, v) <= 1.0
  {
    DotOfDifference(u, v);
  }

  /** The penalty of an exact copy of something picked is the largest there is. */
  lemma CopyPenalty(vecs: seq<Vec>, picked: seq<nat>, p: nat, copy: nat)
    requires forall a, b :: 0 <= a < b < |vecs| ==> |vecs[a]| == |vecs[b]|
    requires forall a :: 0 <= a < |picked| ==> picked[a] < |vecs|
    requires forall a :: 0 <= a < |vecs| ==> Unit(vecs[a])
    requires p in picked && copy < |vecs| && vecs[copy] == vecs[p]
    ensures MaxSim(vecs, picked, copy) == 1.0
  {
    var a :| 0 <= a < |picked| && picked[a] == p;
    assert Dot(vecs[picked[a]], vecs[copy]) == 1.0;
    var b :| 0 <= b < |picked| && Dot(vecs[picked[b]], vecs[copy]) == MaxSim(vecs, picked, copy);
    if picked[b] != copy {
      UnitBound(vecs[picked[b]], vecs[copy]);
    }
  }

  /**
   At lambda 0.7 a fresh candidate `c` beats an exact copy of an earlier pick exactly when the
   copy's lead in similarity to the query is below (3/7)(1 - maxsim(c)).
   */
  lemma CopyLosesIff(query: Vec, vecs: seq<Vec>, picked: seq<nat>, p: nat, copy: nat, c: nat)
    requires SameDim(query, vecs) && c < |vecs|
    requires forall a :: 0 <= a < |picked| ==> picked[a] < |vecs|
    requires forall a :: 0 <= a < |vecs| ==> Unit(vecs[a])
    requires p in picked && copy < |vecs| && vecs[copy] == vecs[p]
    ensures Objective(query, vecs, MMR_LAMBDA, picked, c) > Objective(query, vecs, MMR_LAMBDA, picked, copy) <==>
            Dot(vecs[copy], query) - Dot(vecs[c], query) < 3.0 / 7.0 * (1.0 - MaxSim(vecs, picked, c))
  {
    CopyPenalty(vecs, picked, p, copy);
  }

  /** So such a copy is never taken while `c` is left. */
  lemma CopyNotTakenAheadOf(query: Vec, vecs: seq<Vec>, picks: seq<nat>, a: nat, p: nat, c: nat)
    requires SameDim(query, vecs) && Greedy(query, vecs, MMR_LAMBDA, picks) && a < |picks|
    requires forall i :: 0 <= i < |vecs| ==> Unit(vecs[i])
    requires p in picks[..a] && c < |vecs| && c !in picks[..a]
    requires Dot(vecs[p], query) - Dot(vecs[c], query) < 3.0 / 7.0 * (1.0 - MaxSim(vecs, picks[..a], c))
    ensures vecs[picks[a]] != vecs[p]
  {
    assert BestLeft(query, vecs, MMR_LAMBDA, picks[..a], picks[a]);
  }
}
