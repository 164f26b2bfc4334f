/**
 What Reciprocal Rank Fusion promises: agreement wins, the order respects both lists, nothing of
 either list's weight is lost before the cut.
 */
module FusionClaims {
  import opened StableOrder
  import opened Decimals
  import opened Fusion

  // ---- shares of distinct lists -----------------------------------------------------------------

  lemma {:induction false} ShareAt(hits: seq<Hit>, at: nat -> real, i: nat)
    requires DistinctIds(hits) && i < |hits|
    ensures Share(hits, at, hits[i].id) == at(i)
  {
    var n := |hits| - 1;
    if i < n {
      ShareAt(hits[..n], at, i);
    } else {
      forall j | 0 <= j < n ensures hits[..n][j].id != hits[n].id {}
      ShareOfUnlisted(hits[..n], at, hits[n].id);
    }
  }

  lemma Scale(u: real, v: real, c: real)
    requires c > 0.0
    ensures u > v <==> u * c > v * c
    ensures u >= v <==> u * c >= v * c
  {
  }

  lemma DivideByMore(w: real, a: real, b: real)
    requires w > 0.0 && 0.0 < a <= b
    ensures 0.0 < w / b <= w / a
    ensures a < b ==> w / b < w / a
  {
    var x, y := w / a, w / b;
    Divided(w, a);
    Divided(w, b);
    Scale(x, 0.0, a);
    Scale(b, a, x);
    Scale(x, y, b);
  }

  /** A listed document gets at least what the last rank gives and at most what the first gives. */
  lemma ShareBounds(hits: seq<Hit>, w: real, k: nat, id: string, n: nat)
    requires DistinctIds(hits) && |hits| <= n && w > 0.0
    ensures Listed(hits, id) ==> w / (k + n) as real <= Share(hits, Reciprocal(w, k), id) <= w / (k + 1) as real
    ensures !Listed(hits, id) ==> Share(hits, Reciprocal(w, k), id) == 0.0
  {
    if Listed(hits, id) {
      var i :| 0 <= i < |hits| && hits[i].id == id;
      ShareAt(hits, Reciprocal(w, k), i);
      DivideByMore(w, (k + 1) as real, (k + i + 1) as real);
      DivideByMore(w, (k + i + 1) as real, (k + n) as real);
    } else {
      ShareOfUnlisted(hits, Reciprocal(w, k), id);
    }
  }

  lemma Divided(w: real, a: real)
    requires a > 0.0
    ensures w / a * a == w
  {
  }

  lemma DividedTwice(w: real, a: real)
    requires a > 0.0
    ensures (2.0 * (w / a)) * a == 2.0 * w
  {
    Divided(w, a);
    Reassociate(2.0, w / a, a);
  }

  lemma Reassociate(x: real, y: real, z: real)
    ensures (x * y) * z == x * (y * z)
  {
  }

  /** Twice one quotient against another of the same weight. */
  lemma TwiceAgainstOnce(w: real, a: real, b: real)
    requires w > 0.0 && a > 0.0 && b > 0.0
    ensures 2.0 * (w / a) > w / b <==> 2.0 * b > a
  {
    var twice, once := 2.0 * (w / a), w / b;
    DivideByMore(w, b, b);
    DividedTwice(w, a);
    Divided(w, b);
    Reassociate(2.0, b, once);
    var left, right, doubled := twice * a, once * a, (2.0 * b) * once;
    assert left == 2.0 * w == doubled;
    Scale(twice, once, a);
    Scale(2.0 * b, a, once);
  }

  /** Two last ranks outweigh one first rank exactly when the lists are no longer than k + 1. */
  lemma TwoLastBeatOneFirst(w: real, k: nat, n: nat)
    requires w > 0.0 && 1 <= n
    ensures 2.0 * (w / (k + n) as real) > w / (k + 1) as real <==> n <= k + 1
  {
    TwiceAgainstOnce(w, (k + n) as real, (k + 1) as real);
  }

  predicate Agreed(dense: seq<Hit>, sparse: seq<Hit>, id: string) {
    Listed(dense, id) && Listed(sparse, id)
  }

  /** Lists the agreement theorem speaks of. */
  predicate Fair(dense: seq<Hit>, sparse: seq<Hit>, p: Tuning, n: nat) {
    && DistinctIds(dense) && DistinctIds(sparse) && |dense| <= n && |sparse| <= n
    && p.wDense == p.wSparse && p.wDense > 0.0
  }

  /** A document in both lists scores strictly above every document that is not. */
  lemma AgreementWins(dense: seq<Hit>, sparse: seq<Hit>, p: Tuning, n: nat, x: string, y: string)
    requires Fair(dense, sparse, p, n) && n <= p.k + 1
    requires Agreed(dense, sparse, x) && !Agreed(dense, sparse, y)
    ensures RrfScore(dense, sparse, p, x) > RrfScore(dense, sparse, p, y)
  {
    var w := p.wDense;
    ShareBounds(dense, w, p.k, x, n);
    ShareBounds(sparse, w, p.k, x, n);
    ShareBounds(dense, w, p.k, y, n);
    ShareBounds(sparse, w, p.k, y, n);
    TwoLastBeatOneFirst(w, p.k, n);
    DivideByMore(w, (p.k + 1) as real, (p.k + 1) as real);
  }

  /** Documents nobody else lists, and one at the tail. */
  function Tailed(tag: string, n: nat, last: string): (hits: seq<Hit>)
    ensures |hits| == n + 1 && hits[n].id == last
    ensures forall i :: 0 <= i < n ==> hits[i].id == tag + Decimal(i)
  {
    seq(n, i requires 0 <= i < n => Hit(tag + Decimal(i), "", 0.0)) + [Hit(last, "", 0.0)]
  }

  lemma TailedDistinct(tag: string, n: nat, last: string)
    requires |tag| == 1 && |last| > 0 && last[0] != tag[0]
    ensures DistinctIds(Tailed(tag, n, last))
  {
    var hits := Tailed(tag, n, last);
    forall i, j | 0 <= i < j < |hits| ensures hits[i].id != hits[j].id {
      assert hits[i].id[0] == tag[0];
      if j < n && hits[i].id == hits[j].id {
        assert hits[i].id[1..] == Decimal(i) && hits[j].id[1..] == Decimal(j);
        DecimalInjective(i, j);
      }
    }
  }

  /** No document of one tag is in a list of another. */
  lemma TailedLacks(tag: string, n: nat, last: string, id: string)
    requires |tag| == 1 && |id| > 0 && id[0] != tag[0] && id != last
    ensures !Listed(Tailed(tag, n, last), id)
  {
    var hits := Tailed(tag, n, last);
    forall i | 0 <= i < |hits| ensures hits[i].id != id {
      assert i < n ==> hits[i].id[0] == tag[0];
    }
  }

  /** The tail of both lists scores two last ranks; the head of the dense one a single first rank. */
  lemma TailAndHead(n: nat, at: nat -> real)
    requires n > 0
    ensures var dense, sparse := Tailed("d", n, "x"), Tailed("s", n, "x");
            && Score(dense, sparse, at, at, "x") == at(n) + at(n)
            && Score(dense, sparse, at, at, dense[0].id) == at(0)
            && !Listed(sparse, dense[0].id)
  {
    var dense, sparse := Tailed("d", n, "x"), Tailed("s", n, "x");
    TailedDistinct("d", n, "x");
    TailedDistinct("s", n, "x");
    ShareAt(dense, at, n);
    ShareAt(sparse, at, n);
    ShareAt(dense, at, 0);
    assert dense[0].id[0] == 'd';
    TailedLacks("s", n, "x", dense[0].id);
    ShareOfUnlisted(sparse, at, dense[0].id);
  }

  /** At k + 2 the bound breaks: the document agreed on at both tails ties with the first of one list. */
  lemma TieRun(p: Tuning) returns (dense: seq<Hit>, sparse: seq<Hit>, x: string, y: string)
    requires p.wDense == p.wSparse && p.wDense > 0.0
    ensures Fair(dense, sparse, p, p.k + 2) && Agreed(dense, sparse, x) && !Agreed(dense, sparse, y) && Listed(dense, y)
    ensures RrfScore(dense, sparse, p, x) == RrfScore(dense, sparse, p, y)
  {
    var n := p.k + 1;
    dense, sparse := Tailed("d", n, "x"), Tailed("s", n, "x");
    x, y := "x", dense[0].id;
    TailedDistinct("d", n, "x");
    TailedDistinct("s", n, "x");
    TailAndHead(n, Reciprocal(p.wDense, p.k));
    HalfOfDouble(p.wDense, (p.k + 1) as real);
    assert (p.k + n + 1) as real == 2.0 * (p.k + 1) as real;
  }

  lemma HalfOfDouble(w: real, b: real)
    requires b > 0.0
    ensures w / (2.0 * b) + w / (2.0 * b) == w / b
  {
    var x := w / (2.0 * b);
    Divided(w, 2.0 * b);
    Divided(w, b);
    Reassociate(x, 2.0, b);
    Scale(2.0 * x, w / b, b);
  }

  /** The agreement theorem with its exact range: lists of up to k + 1 documents, and no longer. */
  lemma AgreementIff(p: Tuning, n: nat)
    requires p.wDense == p.wSparse && p.wDense > 0.0
    ensures (forall dense, sparse, x, y ::
               Fair(dense, sparse, p, n) && Agreed(dense, sparse, x) && !Agreed(dense, sparse, y) ==>
                 RrfScore(dense, sparse, p, x) > RrfScore(dense, sparse, p, y))
            <==> n <= p.k + 1
  {
    if n <= p.k + 1 {
      forall dense, sparse, x, y | Fair(dense, sparse, p, n) && Agreed(dense, sparse, x) && !Agreed(dense, sparse, y)
        ensures RrfScore(dense, sparse, p, x) > RrfScore(dense, sparse, p, y)
      {
        AgreementWins(dense, sparse, p, n, x, y);
      }
    } else {
      var dense, sparse, x, y := TieRun(p);
      assert Fair(dense, sparse, p, n);
    }
  }
}
