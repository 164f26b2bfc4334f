/**
 The fused list as an order: what precedes what, what the cut can drop, and what is conserved
 before the cut (hybrid.py, `rrf_fuse` and `coverage`).
 */
module FusionOrder {
  import opened StableOrder
  import opened Fusion
  import opened FusionClaims

  /** `x` stands before position `b` of a list. */
  predicate StandsBefore(hits: seq<Hit>, x: string, b: nat) {
    exists a :: 0 <= a < b && a < |hits| && hits[a].id == x
  }

  lemma FusedAt(dense: seq<Hit>, sparse: seq<Hit>, p: Tuning, b: nat)
    requires b < |Fused(dense, sparse, p)|
    ensures var o := Order(Scores(dense, sparse, p));
            b < |o| && o[b] < |Candidates(dense, sparse)|
            && Fused(dense, sparse, p)[b].id == Candidates(dense, sparse)[o[b]]
            && Fused(dense, sparse, p)[b].score == RrfScore(dense, sparse, p, Candidates(dense, sparse)[o[b]])
  {
  }

  /** The sort key of the fusion: score, then first appearance with the dense list first. */
  predicate Outranks(dense: seq<Hit>, sparse: seq<Hit>, p: Tuning, i: nat, j: nat)
    requires i < |Candidates(dense, sparse)| && j < |Candidates(dense, sparse)|
  {
    Before(Scores(dense, sparse, p), i, j)
  }

  /** Whatever outranks a document in the result is in the result before it; the cut takes from the tail only. */
  lemma OutranksPrecedes(dense: seq<Hit>, sparse: seq<Hit>, p: Tuning, i: nat, j: nat, b: nat)
    requires i < |Candidates(dense, sparse)| && j < |Candidates(dense, sparse)| && Outranks(dense, sparse, p, i, j)
    requires b < |Fused(dense, sparse, p)| && Fused(dense, sparse, p)[b].id == Candidates(dense, sparse)[j]
    ensures StandsBefore(Fused(dense, sparse, p), Candidates(dense, sparse)[i], b)
  {
    var keys := Scores(dense, sparse, p);
    var o := Order(keys);
    FusedAt(dense, sparse, p, b);
    assert i in o;
    var a := IndexOf(o, i);
    FusedAt(dense, sparse, p, if a < b then a else b);
    assert a < b ==> Fused(dense, sparse, p)[a].id == Candidates(dense, sparse)[i];
  }

  lemma PositionOf(dense: seq<Hit>, sparse: seq<Hit>, x: string) returns (i: nat)
    requires Listed(dense, x) || Listed(sparse, x)
    ensures i < |Candidates(dense, sparse)| && Candidates(dense, sparse)[i] == x
  {
    KnownListed(dense, sparse, x);
    i :| i < |Candidates(dense, sparse)| && Candidates(dense, sparse)[i] == x;
  }

  /** A strictly better score is enough to come first. */
  lemma BetterScorePrecedes(dense: seq<Hit>, sparse: seq<Hit>, p: Tuning, x: string, b: nat)
    requires b < |Fused(dense, sparse, p)| && (Listed(dense, x) || Listed(sparse, x))
    requires RrfScore(dense, sparse, p, x) > RrfScore(dense, sparse, p, Fused(dense, sparse, p)[b].id)
    ensures StandsBefore(Fused(dense, sparse, p), x, b)
  {
    FusedAt(dense, sparse, p, b);
    var i := PositionOf(dense, sparse, x);
    OutranksPrecedes(dense, sparse, p, i, Order(Scores(dense, sparse, p))[b], b);
  }

  lemma FusedIdsDistinct(dense: seq<Hit>, sparse: seq<Hit>, p: Tuning)
    ensures DistinctIds(Fused(dense, sparse, p))
  {
    var f := Fused(dense, sparse, p);
    forall a, b | 0 <= a < b < |f| ensures f[a].id != f[b].id {
      FusedAt(dense, sparse, p, a);
      FusedAt(dense, sparse, p, b);
    }
  }

  /** Every fused document comes from one of the lists. */
  lemma FusedIdsListed(dense: seq<Hit>, sparse: seq<Hit>, p: Tuning, b: nat)
    requires b < |Fused(dense, sparse, p)|
    ensures var h := Fused(dense, sparse, p)[b];
            && (Listed(dense, h.id) || Listed(sparse, h.id))
            && h.text == Text(dense, sparse, h.id)
            && h.score == RrfScore(dense, sparse, p, h.id)
  {
    FusedAt(dense, sparse, p, b);
    KnownListed(dense, sparse, Fused(dense, sparse, p)[b].id);
  }

  lemma {:induction false} LastTextAt(hits: seq<Hit>, i: nat)
    requires DistinctIds(hits) && i < |hits|
    ensures LastText(hits, hits[i].id) == hits[i].text
  {
    if i < |hits| - 1 {
      LastTextAt(hits[..|hits| - 1], i);
    }
  }

  lemma {:induction false} FirstTextAt(hits: seq<Hit>, i: nat)
    requires DistinctIds(hits) && i < |hits|
    ensures FirstText(hits, hits[i].id) == hits[i].text
  {
    var n := |hits| - 1;
    if i < n {
      FirstTextAt(hits[..n], i);
      assert hits[..n][i].id == hits[i].id;
    } else {
      assert !Listed(hits[..n], hits[n].id);
    }
  }

  /** A fused hit carries the dense text of its id if the dense list has it, and else the sparse one. */
  lemma FusedTexts(dense: seq<Hit>, sparse: seq<Hit>, p: Tuning, b: nat, i: nat)
    requires DistinctIds(dense) && DistinctIds(sparse) && b < |Fused(dense, sparse, p)|
    ensures var h := Fused(dense, sparse, p)[b];
            && (i < |dense| && dense[i].id == h.id ==> h.text == dense[i].text)
            && (i < |sparse| && sparse[i].id == h.id && !Listed(dense, h.id) ==> h.text == sparse[i].text)
  {
    FusedIdsListed(dense, sparse, p, b);
    if i < |dense| {
      LastTextAt(dense, i);
    }
    if i < |sparse| {
      FirstTextAt(sparse, i);
    }
  }

  /** A fused score at the shipped constants: 1/61 for the first rank of a list, 1/62 for the next, summed over both. */
  lemma ScoreMeans(dense: seq<Hit>, sparse: seq<Hit>, x: string, i: nat, j: nat)
    requires DistinctIds(dense) && DistinctIds(sparse)
    ensures i < |dense| && dense[i].id == x && !Listed(sparse, x) ==>
              RrfScore(dense, sparse, DEFAULT, x) == 1.0 / (61 + i) as real
    ensures j < |sparse| && sparse[j].id == x && !Listed(dense, x) ==>
              RrfScore(dense, sparse, DEFAULT, x) == 1.0 / (61 + j) as real
    ensures i < |dense| && dense[i].id == x && j < |sparse| && sparse[j].id == x ==>
              RrfScore(dense, sparse, DEFAULT, x) == 1.0 / (61 + i) as real + 1.0 / (61 + j) as real
  {
    var at := Reciprocal(1.0, 60);
    if i < |dense| {
      ShareAt(dense, at, i);
    }
    if j < |sparse| {
      ShareAt(sparse, at, j);
    }
    if !Listed(dense, x) {
      ShareOfUnlisted(dense, at, x);
    }
    if !Listed(sparse, x) {
      ShareOfUnlisted(sparse, at, x);
    }
  }

  // ---- agreement and the cut --------------------------------------------------------------------

  function IdSet(hits: seq<Hit>): set<string> {
    set i | 0 <= i < |hits| :: hits[i].id
  }

  lemma IdSetSize(hits: seq<Hit>)
    requires DistinctIds(hits)
    ensures |IdSet(hits)| == |hits|
  {
    if hits != [] {
      var n := |hits| - 1;
      IdSetSize(hits[..n]);
      assert IdSet(hits) == IdSet(hits[..n]) + {hits[n].id};
      assert hits[n].id !in IdSet(hits[..n]);
    }
  }

  function Both(dense: seq<Hit>, sparse: seq<Hit>): set<string> {
    IdSet(dense) * IdSet(sparse)
  }

  lemma SmallerSet(a: set<string>, b: set<string>)
    requires a <= b
    ensures |a| <= |b| && (|a| == |b| ==> a == b)
  {
    assert b == a + (b - a);
  }

  /** No document one list alone found stands before one both found. */
  lemma AgreedComeFirst(dense: seq<Hit>, sparse: seq<Hit>, p: Tuning, n: nat, x: string, b: nat)
    requires Fair(dense, sparse, p, n) && n <= p.k + 1 && Agreed(dense, sparse, x)
    requires b < |Fused(dense, sparse, p)| && !Agreed(dense, sparse, Fused(dense, sparse, p)[b].id)
    ensures StandsBefore(Fused(dense, sparse, p), x, b)
  {
    AgreementWins(dense, sparse, p, n, x, Fused(dense, sparse, p)[b].id);
    BetterScorePrecedes(dense, sparse, p, x, b);
  }

  lemma IdsOfPrefix(hits: seq<Hit>, b: nat, x: string)
    requires b <= |hits| && StandsBefore(hits, x, b)
    ensures x in IdSet(hits[..b])
  {
    var a :| 0 <= a < b && a < |hits| && hits[a].id == x;
    assert hits[..b][a].id == x;
  }

  /** With a cut no smaller than the intersection, the fused list starts with exactly the intersection. */
  lemma StartsWithIntersection(dense: seq<Hit>, sparse: seq<Hit>, p: Tuning, n: nat)
    requires Fair(dense, sparse, p, n) && n <= p.k + 1 && |Both(dense, sparse)| <= p.top
    ensures var m := |Both(dense, sparse)|;
            m <= |Fused(dense, sparse, p)| && IdSet(Fused(dense, sparse, p)[..m]) == Both(dense, sparse)
  {
    var f, both := Fused(dense, sparse, p), Both(dense, sparse);
    var m := |both|;
    BothFit(dense, sparse, p);
    FusedIdsDistinct(dense, sparse, p);
    IdSetSize(f[..m]);
    if m > 0 {
      forall a | 0 <= a < m ensures f[a].id in both {
        if !Agreed(dense, sparse, f[a].id) {
          forall x | x in both ensures x in IdSet(f[..a]) {
            AgreedComeFirst(dense, sparse, p, n, x, a);
            IdsOfPrefix(f, a, x);
          }
          IdSetSize(f[..a]);
          SmallerSet(both, IdSet(f[..a]));
        }
      }
      assert IdSet(f[..m]) <= both;
      SmallerSet(IdSet(f[..m]), both);
    }
  }

  /** There are at least as many candidates as agreed documents. */
  lemma BothFit(dense: seq<Hit>, sparse: seq<Hit>, p: Tuning)
    requires |Both(dense, sparse)| <= p.top
    ensures |Both(dense, sparse)| <= |Fused(dense, sparse, p)|
  {
    var ids := Candidates(dense, sparse);
    var all := set i | 0 <= i < |ids| :: ids[i];
    forall x | x in Both(dense, sparse) ensures x in all {
      var i := PositionOf(dense, sparse, x);
    }
    SmallerSet(Both(dense, sparse), all);
    SetOfSeq(ids);
  }

  lemma SetOfSeq(ids: seq<string>)
    ensures |set i | 0 <= i < |ids| :: ids[i]| <= |ids|
  {
    if ids != [] {
      var n := |ids| - 1;
      SetOfSeq(ids[..n]);
      assert (set i | 0 <= i < |ids| :: ids[i]) == (set i | 0 <= i < n :: ids[..n][i]) + {ids[n]};
    }
  }

  /** At the shipped constants no agreed document is ever dropped, and they all lead. */
  lemma ShippedConstantsKeepAgreement(dense: seq<Hit>, sparse: seq<Hit>)
    requires DistinctIds(dense) && DistinctIds(sparse)
    requires |dense| <= DEFAULT_RETRIEVER_K && |sparse| <= DEFAULT_RETRIEVER_K
    ensures var m := |Both(dense, sparse)|;
            m <= |Fused(dense, sparse, DEFAULT)| && IdSet(Fused(dense, sparse, DEFAULT)[..m]) == Both(dense, sparse)
  {
    IdSetSize(dense);
    SmallerSet(Both(dense, sparse), IdSet(dense));
    StartsWithIntersection(dense, sparse, DEFAULT, DEFAULT_RETRIEVER_K);
  }

  // ---- both lists respected ---------------------------------------------------------------------

  /** Ahead in both lists means ahead in the fused one. */
  lemma AheadInBothPrecedes(dense: seq<Hit>, sparse: seq<Hit>, p: Tuning, i: nat, i': nat, j: nat, j': nat, b: nat)
    requires DistinctIds(dense) && DistinctIds(sparse) && p.wDense > 0.0 && p.wSparse > 0.0
    requires i < i' < |dense| && j < j' < |sparse| && dense[i].id == sparse[j].id && dense[i'].id == sparse[j'].id
    requires b < |Fused(dense, sparse, p)| && Fused(dense, sparse, p)[b].id == dense[i'].id
    ensures StandsBefore(Fused(dense, sparse, p), dense[i].id, b)
  {
    ShareAt(dense, Reciprocal(p.wDense, p.k), i);
    ShareAt(dense, Reciprocal(p.wDense, p.k), i');
    ShareAt(sparse, Reciprocal(p.wSparse, p.k), j);
    ShareAt(sparse, Reciprocal(p.wSparse, p.k), j');
    DivideByMore(p.wDense, (p.k + i + 1) as real, (p.k + i' + 1) as real);
    DivideByMore(p.wSparse, (p.k + j + 1) as real, (p.k + j' + 1) as real);
    assert Listed(dense, dense[i].id);
    BetterScorePrecedes(dense, sparse, p, dense[i].id, b);
  }

  lemma {:induction false} SeenPrefix(xs: seq<string>, ys: seq<string>)
    ensures |FirstSeen(xs)| <= |FirstSeen(xs + ys)| && FirstSeen(xs + ys)[..|FirstSeen(xs)|] == FirstSeen(xs)
  {
    if ys == [] {
      assert xs + ys == xs;
    } else {
      var n := |ys| - 1;
      SeenPrefix(xs, ys[..n]);
      assert (xs + ys)[..|xs + ys| - 1] == xs + ys[..n];
    }
  }

  /** Among equal scores, what the dense list found comes before what only the sparse list found. */
  lemma TiesGoDenseFirst(dense: seq<Hit>, sparse: seq<Hit>, p: Tuning, x: string, b: nat)
    requires b < |Fused(dense, sparse, p)| && Listed(dense, x) && !Listed(dense, Fused(dense, sparse, p)[b].id)
    requires RrfScore(dense, sparse, p, x) == RrfScore(dense, sparse, p, Fused(dense, sparse, p)[b].id)
    ensures StandsBefore(Fused(dense, sparse, p), x, b)
  {
    FusedAt(dense, sparse, p, b);
    var j := Order(Scores(dense, sparse, p))[b];
    var head := FirstSeen(Ids(dense));
    SeenPrefix(Ids(dense), Ids(sparse));
    InIds(dense, x);
    var i :| 0 <= i < |head| && head[i] == x;
    assert Candidates(dense, sparse)[..|head|] == head;
    assert Candidates(dense, sparse)[i] == x;
    if j < |head| {
      assert Candidates(dense, sparse)[j] == head[j] && head[j] in head;
      InIds(dense, head[j]);
    }
    OutranksPrecedes(dense, sparse, p, i, j, b);
  }

  lemma {:induction false} SeenOfDistinct(hits: seq<Hit>)
    requires DistinctIds(hits)
    ensures FirstSeen(Ids(hits)) == Ids(hits)
  {
    if hits != [] {
      var n := |hits| - 1;
      SeenOfDistinct(hits[..n]);
      assert Ids(hits)[..n] == Ids(hits[..n]);
      assert Ids(hits)[n] !in Ids(hits[..n]);
    }
  }

  lemma AloneScores(dense: seq<Hit>, p: Tuning)
    requires DistinctIds(dense)
    ensures Candidates(dense, []) == Ids(dense)
    ensures forall i :: 0 <= i < |dense| ==> Scores(dense, [], p)[i] == Reciprocal(p.wDense, p.k)(i)
  {
    assert Ids(dense) + Ids([]) == Ids(dense);
    SeenOfDistinct(dense);
    forall i | 0 <= i < |dense| ensures Scores(dense, [], p)[i] == Reciprocal(p.wDense, p.k)(i) {
      ShareAt(dense, Reciprocal(p.wDense, p.k), i);
    }
  }

  /** Fusing with an empty list keeps the dense order, up to the cut. */
  lemma EmptySparseKeepsOrder(dense: seq<Hit>, p: Tuning)
    requires DistinctIds(dense) && p.wDense > 0.0
    ensures Ids(Fused(dense, [], p)) == Ids(dense)[..Min(p.top, |dense|)]
  {
    var keys := Scores(dense, [], p);
    AloneScores(dense, p);
    forall i, j | 0 <= i < j < |keys| ensures keys[i] >= keys[j] {
      DivideByMore(p.wDense, (p.k + i + 1) as real, (p.k + j + 1) as real);
    }
    SortedStays(keys);
  }

  // ---- conservation before the cut --------------------------------------------------------------

  function Total(ids: seq<string>, f: string -> real): real {
    if ids == [] then 0.0 else Total(ids[..|ids| - 1], f) + f(ids[|ids| - 1])
  }

  /** What a list of `n` documents hands out in all. */
  function Handed(n: nat, at: nat -> real): real {
    if n == 0 then 0.0 else Handed(n - 1, at) + at(n - 1)
  }

  lemma {:induction false} TotalOfZero(ids: seq<string>, f: string -> real)
    requires forall i :: 0 <= i < |ids| ==> f(ids[i]) == 0.0
    ensures Total(ids, f) == 0.0
  {
    if ids != [] {
      TotalOfZero(ids[..|ids| - 1], f);
    }
  }

  lemma {:induction false} TotalOfSum(ids: seq<string>, f: string -> real, g: string -> real, h: string -> real)
    requires forall x :: f(x) == g(x) + h(x)
    ensures Total(ids, f) == Total(ids, g) + Total(ids, h)
  {
    if ids != [] {
      TotalOfSum(ids[..|ids| - 1], f, g, h);
    }
  }

  lemma {:induction false} TotalOfPoint(ids: seq<string>, x: string, amount: real)
    requires forall i, j :: 0 <= i < j < |ids| ==> ids[i] != ids[j]
    ensures Total(ids, y => if y == x then amount else 0.0) == if x in ids then amount else 0.0
  {
    var f := (y: string) => if y == x then amount else 0.0;
    if ids != [] {
      var n := |ids| - 1;
      TotalOfPoint(ids[..n], x, amount);
      assert ids == ids[..n] + [ids[n]];
      assert forall i :: 0 <= i < n ==> ids[..n][i] != ids[n];
    }
  }

  /** Summed over distinct documents that include its own, a list's shares are all it hands out. */
  lemma {:induction false} SharesAddUp(ids: seq<string>, hits: seq<Hit>, at: nat -> real)
    requires forall i, j :: 0 <= i < j < |ids| ==> ids[i] != ids[j]
    requires forall i :: 0 <= i < |hits| ==> hits[i].id in ids
    ensures Total(ids, x => Share(hits, at, x)) == Handed(|hits|, at)
  {
    var f := (x: string) => Share(hits, at, x);
    if hits == [] {
      TotalOfZero(ids, f);
    } else {
      var n := |hits| - 1;
      var g := (x: string) => Share(hits[..n], at, x);
      var h := (y: string) => if y == hits[n].id then at(n) else 0.0;
      SharesAddUp(ids, hits[..n], at);
      TotalOfSum(ids, f, g, h);
      TotalOfPoint(ids, hits[n].id, at(n));
    }
  }

  /** Before the cut the scores sum to the two harmonic-style sums, however the lists overlap. */
  lemma ScoresConserved(dense: seq<Hit>, sparse: seq<Hit>, p: Tuning)
    ensures Total(Candidates(dense, sparse), x => RrfScore(dense, sparse, p, x)) ==
            Handed(|dense|, Reciprocal(p.wDense, p.k)) + Handed(|sparse|, Reciprocal(p.wSparse, p.k))
  {
    var ids := Candidates(dense, sparse);
    var atD, atS := Reciprocal(p.wDense, p.k), Reciprocal(p.wSparse, p.k);
    forall i | 0 <= i < |dense| ensures dense[i].id in ids { KnownListed(dense, sparse, dense[i].id); }
    forall i | 0 <= i < |sparse| ensures sparse[i].id in ids { KnownListed(dense, sparse, sparse[i].id); }
    SharesAddUp(ids, dense, atD);
    SharesAddUp(ids, sparse, atS);
    TotalOfSum(ids, x => RrfScore(dense, sparse, p, x), x => Share(dense, atD, x), x => Share(sparse, atS, x));
  }

  /** The counts `coverage` logs; the ratio is 0 when both lists are empty. */
  datatype Coverage = Coverage(denseOnly: nat, sparseOnly: nat, both: nat, jaccard: real)

  function CoverageOf(dense: seq<Hit>, sparse: seq<Hit>): Coverage {
    var d, s := IdSet(dense), IdSet(sparse);
    Coverage(|d - s|, |s - d|, |d * s|, |d * s| as real / (if |d + s| == 0 then 1 else |d + s|) as real)
  }

  lemma RatioInUnit(part: nat, whole: nat)
    requires part <= whole && 0 < whole
    ensures 0.0 <= part as real / whole as real <= 1.0
  {
    var r := part as real / whole as real;
    assert r * whole as real == part as real;
    Scale(1.0, r, whole as real);
    Scale(r, 0.0, whole as real);
  }

  /** The three counts partition the candidates, and the ratio lies in [0, 1]. */
  lemma CoveragePartitions(dense: seq<Hit>, sparse: seq<Hit>)
    ensures var c := CoverageOf(dense, sparse);
            && c.denseOnly + c.sparseOnly + c.both == |Candidates(dense, sparse)|
            && 0.0 <= c.jaccard <= 1.0
  {
    var d, s, ids := IdSet(dense), IdSet(sparse), Candidates(dense, sparse);
    CandidateSet(dense, sparse);
    DistinctSeqSize(ids);
    assert |d + s| == |d - s| + |s - d| + |d * s| by {
      assert d + s == (d - s) + (s - d) + d * s;
    }
    RatioInUnit(|d * s|, if |d + s| == 0 then 1 else |d + s|);
  }

  /** Each count by its name, and the ratio as what agreement makes of the union. */
  lemma CoverageMeans(dense: seq<Hit>, sparse: seq<Hit>)
    ensures var c, d, s := CoverageOf(dense, sparse), (set i | 0 <= i < |dense| :: dense[i].id),
                           (set i | 0 <= i < |sparse| :: sparse[i].id);
            && c.denseOnly == |set x | x in d && x !in s| && c.sparseOnly == |set x | x in s && x !in d|
            && c.both == |set x | x in d && x in s|
            && c.jaccard * |d + s| as real == c.both as real
            && (d + s == {} ==> c.jaccard == 0.0)
  {
    var d, s := IdSet(dense), IdSet(sparse);
    assert (set x | x in d && x !in s) == d - s && (set x | x in s && x !in d) == s - d;
    assert (set x | x in d && x in s) == d * s;
    if d + s == {} {
      assert d * s == {};
    } else {
      Divided(|d * s| as real, |d + s| as real);
    }
  }

  lemma CandidateSet(dense: seq<Hit>, sparse: seq<Hit>)
    ensures var ids := Candidates(dense, sparse);
            (set i | 0 <= i < |ids| :: ids[i]) == IdSet(dense) + IdSet(sparse)
  {
    var ids := Candidates(dense, sparse);
    forall x ensures x in (set i | 0 <= i < |ids| :: ids[i]) <==> x in IdSet(dense) + IdSet(sparse) {
      KnownListed(dense, sparse, x);
    }
  }

  lemma DistinctSeqSize(ids: seq<string>)
    requires forall i, j :: 0 <= i < j < |ids| ==> ids[i] != ids[j]
    ensures |set i | 0 <= i < |ids| :: ids[i]| == |ids|
  {
    if ids != [] {
      var n := |ids| - 1;
      DistinctSeqSize(ids[..n]);
      assert (set i | 0 <= i < |ids| :: ids[i]) == (set i | 0 <= i < n :: ids[..n][i]) + {ids[n]};
    }
  }
}
