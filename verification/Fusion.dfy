/**
 Reciprocal Rank Fusion (taxcalc-ai/src/taxcalc_ai/hybrid.py, `rrf_fuse` and `coverage`), with
 scores as exact reals.
 */
module Fusion {
  import opened StableOrder

  const K_CONST: nat := 60
  const DEFAULT_RETRIEVER_K: nat := 50
  const DEFAULT_FUSED_K: nat := 60

  datatype Hit = Hit(id: string, text: string, score: real)

  /** The knobs of one fusion: damping constant, the two weights and the cut. */
  datatype Tuning = Tuning(k: nat, wDense: real, wSparse: real, top: nat)

  const DEFAULT: Tuning := Tuning(K_CONST, 1.0, 1.0, DEFAULT_FUSED_K)

  function Ids(hits: seq<Hit>): (r: seq<string>)
    ensures |r| == |hits|
  {
    seq(|hits|, i requires 0 <= i < |hits| => hits[i].id)
  }

  predicate DistinctIds(hits: seq<Hit>) {
    forall i, j :: 0 <= i < j < |hits| ==> hits[i].id != hits[j].id
  }

  predicate Listed(hits: seq<Hit>, id: string) {
    exists i :: 0 <= i < |hits| && hits[i].id == id
  }

  /** What each position of a list contributes: `weight / (k_const + rank)` with ranks from 1. */
  function Reciprocal(w: real, k: nat): nat -> real {
    (i: nat) => w / (k + i + 1) as real
  }

  /** What one list contributes to one document, over all the positions that hold it. */
  function Share(hits: seq<Hit>, at: nat -> real, id: string): real {
    if hits == [] then 0.0
    else
      var n := |hits| - 1;
      Share(hits[..n], at, id) + if hits[n].id == id then at(n) else 0.0
  }

  function Score(dense: seq<Hit>, sparse: seq<Hit>, atD: nat -> real, atS: nat -> real, id: string): real {
    Share(dense, atD, id) + Share(sparse, atS, id)
  }

  /** Ids in the order of their first appearance, which is the order a Python dict keeps them in. */
  function FirstSeen(xs: seq<string>): (r: seq<string>)
    ensures forall x :: x in r <==> x in xs
    ensures forall i, j :: 0 <= i < j < |r| ==> r[i] != r[j]
  {
    if xs == [] then []
    else
      var n := |xs| - 1;
      var r := FirstSeen(xs[..n]);
      assert xs == xs[..n] + [xs[n]];
      if xs[n] in r then r else r + [xs[n]]
  }

  /** The last text a list gives a document. */
  function LastText(hits: seq<Hit>, id: string): string {
    if hits == [] then ""
    else
      var n := |hits| - 1;
      if hits[n].id == id then hits[n].text else LastText(hits[..n], id)
  }

  /** The first text a list gives a document. */
  function FirstText(hits: seq<Hit>, id: string): string {
    if hits == [] then ""
    else
      var n := |hits| - 1;
      if Listed(hits[..n], id) then FirstText(hits[..n], id)
      else if hits[n].id == id then hits[n].text
      else ""
  }

  /** The dense text wins; the sparse one only fills a gap. */
  function Text(dense: seq<Hit>, sparse: seq<Hit>, id: string): string {
    if Listed(dense, id) then LastText(dense, id) else FirstText(sparse, id)
  }

  function Candidates(dense: seq<Hit>, sparse: seq<Hit>): seq<string> {
    FirstSeen(Ids(dense) + Ids(sparse))
  }

  function RrfScore(dense: seq<Hit>, sparse: seq<Hit>, p: Tuning, id: string): real {
    Score(dense, sparse, Reciprocal(p.wDense, p.k), Reciprocal(p.wSparse, p.k), id)
  }

  function Scores(dense: seq<Hit>, sparse: seq<Hit>, p: Tuning): (r: seq<real>)
    ensures |r| == |Candidates(dense, sparse)|
  {
    var ids := Candidates(dense, sparse);
    seq(|ids|, i requires 0 <= i < |ids| => RrfScore(dense, sparse, p, ids[i]))
  }

  function Min(a: nat, b: nat): nat {
    if a < b then a else b
  }

  function Fused(dense: seq<Hit>, sparse: seq<Hit>, p: Tuning): (r: seq<Hit>)
    ensures |r| == Min(p.top, |Candidates(dense, sparse)|)
  {
    var ids := Candidates(dense, sparse);
    var keys := Scores(dense, sparse, p);
    var order := Order(keys);
    seq(Min(p.top, |ids|), i requires 0 <= i < |order| =>
      Hit(ids[order[i]], Text(dense, sparse, ids[order[i]]), keys[order[i]]))
  }

  // ---- the loops --------------------------------------------------------------------------------

  lemma IdsStep(hits: seq<Hit>, i: nat)
    requires i < |hits|
    ensures Ids(hits[..i + 1]) == Ids(hits[..i]) + [hits[i].id]
  {
  }

  /** One more rank: the only share that changes is the one of the document at that rank. */
  lemma ShareStep(hits: seq<Hit>, at: nat -> real, i: nat, id: string)
    requires i < |hits|
    ensures Share(hits[..i + 1], at, id) == Share(hits[..i], at, id) + if hits[i].id == id then at(i) else 0.0
  {
    assert hits[..i + 1][..i] == hits[..i];
  }

  lemma SeenStep(xs: seq<string>, x: string)
    ensures FirstSeen(xs + [x]) == if x in FirstSeen(xs) then FirstSeen(xs) else FirstSeen(xs) + [x]
  {
    assert (xs + [x])[..|xs|] == xs;
  }

  lemma ListedStep(hits: seq<Hit>, i: nat, id: string)
    requires i < |hits|
    ensures Listed(hits[..i + 1], id) <==> Listed(hits[..i], id) || hits[i].id == id
  {
    if Listed(hits[..i], id) {
      var j :| 0 <= j < i && hits[..i][j].id == id;
      assert hits[..i + 1][j].id == id;
    }
    if hits[i].id == id {
      assert hits[..i + 1][i].id == id;
    }
  }

  lemma InIds(hits: seq<Hit>, id: string)
    ensures id in Ids(hits) <==> Listed(hits, id)
  {
    if Listed(hits, id) {
      var i :| 0 <= i < |hits| && hits[i].id == id;
      assert Ids(hits)[i] == id;
    }
  }

  /** The documents some list names. */
  ghost function Known(dense: seq<Hit>, sparse: seq<Hit>): set<string> {
    (set i | 0 <= i < |dense| :: dense[i].id) + (set i | 0 <= i < |sparse| :: sparse[i].id)
  }

  /** What the dicts `scores` (as ids in insertion order and a map) and `texts` hold after some of each list. */
  ghost predicate Tally(ids: seq<string>, scores: map<string, real>, texts: map<string, string>,
                        dense: seq<Hit>, sparse: seq<Hit>, atD: nat -> real, atS: nat -> real)
  {
    && ids == Candidates(dense, sparse)
    && scores.Keys == texts.Keys == Known(dense, sparse)
    && (forall x :: x in scores ==> scores[x] == Score(dense, sparse, atD, atS, x))
    && (forall x :: x in texts ==> texts[x] == Text(dense, sparse, x))
  }

  /** `scores[id] += amount` on a defaultdict. */
  function Add(scores: map<string, real>, id: string, amount: real): map<string, real> {
    scores[id := (if id in scores then scores[id] else 0.0) + amount]
  }

  function SetDefault(texts: map<string, string>, id: string, text: string): (r: map<string, string>)
    ensures r.Keys == texts.Keys + {id}
    ensures forall x :: x in texts ==> r[x] == texts[x]
    ensures id !in texts ==> r[id] == text
  {
    if id in texts then texts else texts[id := text]
  }

  /** A new key goes last. */
  function Touch(ids: seq<string>, known: bool, id: string): seq<string> {
    if known then ids else ids + [id]
  }

  lemma KnownListed(dense: seq<Hit>, sparse: seq<Hit>, id: string)
    ensures id in Known(dense, sparse) <==> Listed(dense, id) || Listed(sparse, id)
    ensures id in Known(dense, sparse) <==> id in Candidates(dense, sparse)
  {
    InIds(dense, id);
    InIds(sparse, id);
  }

  lemma ShareOfUnlisted(hits: seq<Hit>, at: nat -> real, id: string)
    requires !Listed(hits, id)
    ensures Share(hits, at, id) == 0.0
  {
    if hits != [] {
      var n := |hits| - 1;
      ListedStep(hits, n, id);
      assert hits[..n + 1] == hits;
      ShareOfUnlisted(hits[..n], at, id);
    }
  }

  lemma TextStep(dense: seq<Hit>, i: nat, id: string)
    requires i < |dense|
    ensures LastText(dense[..i + 1], id) == if dense[i].id == id then dense[i].text else LastText(dense[..i], id)
    ensures FirstText(dense[..i + 1], id) ==
            if Listed(dense[..i], id) then FirstText(dense[..i], id)
            else if dense[i].id == id then dense[i].text else ""
  {
    assert dense[..i + 1][..i] == dense[..i];
  }

  lemma ScoreOfUnknown(dense: seq<Hit>, sparse: seq<Hit>, atD: nat -> real, atS: nat -> real, id: string)
    requires id !in Known(dense, sparse)
    ensures Score(dense, sparse, atD, atS, id) == 0.0
  {
    KnownListed(dense, sparse, id);
    ShareOfUnlisted(dense, atD, id);
    ShareOfUnlisted(sparse, atS, id);
  }

  /** One more dense rank touches the document there, in the order and in the set of keys. */
  lemma DenseKeys(dense: seq<Hit>, i: nat)
    requires i < |dense|
    ensures Candidates(dense[..i + 1], []) ==
            Touch(Candidates(dense[..i], []), dense[i].id in Known(dense[..i], []), dense[i].id)
    ensures Known(dense[..i + 1], []) == Known(dense[..i], []) + {dense[i].id}
  {
    IdsStep(dense, i);
    SeenStep(Ids(dense[..i]) + [], dense[i].id);
    assert Ids(dense[..i + 1]) + [] == Ids(dense[..i]) + [] + [dense[i].id];
    KnownListed(dense[..i], [], dense[i].id);
    forall x ensures x in Known(dense[..i + 1], []) <==> x in Known(dense[..i], []) + {dense[i].id} {
      KnownListed(dense[..i], [], x);
      KnownListed(dense[..i + 1], [], x);
      ListedStep(dense, i, x);
    }
  }

  lemma SparseKeys(dense: seq<Hit>, sparse: seq<Hit>, i: nat)
    requires i < |sparse|
    ensures Candidates(dense, sparse[..i + 1]) ==
            Touch(Candidates(dense, sparse[..i]), sparse[i].id in Known(dense, sparse[..i]), sparse[i].id)
    ensures Known(dense, sparse[..i + 1]) == Known(dense, sparse[..i]) + {sparse[i].id}
  {
    IdsStep(sparse, i);
    SeenStep(Ids(dense) + Ids(sparse[..i]), sparse[i].id);
    assert Ids(dense) + Ids(sparse[..i + 1]) == Ids(dense) + Ids(sparse[..i]) + [sparse[i].id];
    KnownListed(dense, sparse[..i], sparse[i].id);
    forall x ensures x in Known(dense, sparse[..i + 1]) <==> x in Known(dense, sparse[..i]) + {sparse[i].id} {
      KnownListed(dense, sparse[..i], x);
      KnownListed(dense, sparse[..i + 1], x);
      ListedStep(sparse, i, x);
    }
  }

  /** ... scores it, and gives it this text. */
  lemma DenseStep(dense: seq<Hit>, atD: nat -> real, atS: nat -> real, i: nat, x: string)
    requires i < |dense|
    ensures Score(dense[..i + 1], [], atD, atS, x) ==
            (if x in Known(dense[..i], []) then Score(dense[..i], [], atD, atS, x) else 0.0)
            + if dense[i].id == x then atD(i) else 0.0
    ensures x in Known(dense[..i], []) + {dense[i].id} ==>
              Text(dense[..i + 1], [], x) == if dense[i].id == x then dense[i].text else Text(dense[..i], [], x)
  {
    ShareStep(dense, atD, i, x);
    ListedStep(dense, i, x);
    TextStep(dense, i, x);
    KnownListed(dense[..i], [], x);
    if x !in Known(dense[..i], []) {
      ScoreOfUnknown(dense[..i], [], atD, atS, x);
    }
  }

  /** One more sparse rank: the same, but a text that is already there stays. */
  lemma SparseStep(dense: seq<Hit>, sparse: seq<Hit>, atD: nat -> real, atS: nat -> real, i: nat, x: string)
    requires i < |sparse|
    ensures Score(dense, sparse[..i + 1], atD, atS, x) ==
            (if x in Known(dense, sparse[..i]) then Score(dense, sparse[..i], atD, atS, x) else 0.0)
            + if sparse[i].id == x then atS(i) else 0.0
    ensures x in Known(dense, sparse[..i]) + {sparse[i].id} ==>
              Text(dense, sparse[..i + 1], x) ==
              if x in Known(dense, sparse[..i]) then Text(dense, sparse[..i], x) else sparse[i].text
  {
    ShareStep(sparse, atS, i, x);
    TextStep(sparse, i, x);
    KnownListed(dense, sparse[..i], x);
    if x !in Known(dense, sparse[..i]) {
      ScoreOfUnknown(dense, sparse[..i], atD, atS, x);
    }
  }

  lemma DenseScores(scores: map<string, real>, dense: seq<Hit>, atD: nat -> real, atS: nat -> real, i: nat)
    requires i < |dense| && scores.Keys == Known(dense[..i], [])
    requires forall x :: x in scores ==> scores[x] == Score(dense[..i], [], atD, atS, x)
    ensures var more := Add(scores, dense[i].id, atD(i));
            && more.Keys == Known(dense[..i], []) + {dense[i].id}
            && forall x :: x in more ==> more[x] == Score(dense[..i + 1], [], atD, atS, x)
  {
    var more := Add(scores, dense[i].id, atD(i));
    forall x | x in more ensures more[x] == Score(dense[..i + 1], [], atD, atS, x) {
      DenseStep(dense, atD, atS, i, x);
    }
  }

  lemma DenseTexts(texts: map<string, string>, dense: seq<Hit>, i: nat)
    requires i < |dense| && texts.Keys == Known(dense[..i], [])
    requires forall x :: x in texts ==> texts[x] == Text(dense[..i], [], x)
    ensures var more := texts[dense[i].id := dense[i].text];
            && more.Keys == Known(dense[..i], []) + {dense[i].id}
            && forall x :: x in more ==> more[x] == Text(dense[..i + 1], [], x)
  {
    var more := texts[dense[i].id := dense[i].text];
    forall x | x in more ensures more[x] == Text(dense[..i + 1], [], x) {
      DenseStep(dense, (j: nat) => 0.0, (j: nat) => 0.0, i, x);
    }
  }

  lemma DenseTally(ids: seq<string>, scores: map<string, real>, texts: map<string, string>,
                   dense: seq<Hit>, atD: nat -> real, atS: nat -> real, i: nat)
    requires i < |dense| && Tally(ids, scores, texts, dense[..i], [], atD, atS)
    ensures var id := dense[i].id;
            Tally(Touch(ids, id in scores, id), Add(scores, id, atD(i)), texts[id := dense[i].text],
                  dense[..i + 1], [], atD, atS)
  {
    DenseKeys(dense, i);
    DenseScores(scores, dense, atD, atS, i);
    DenseTexts(texts, dense, i);
  }

  lemma SparseScores(scores: map<string, real>, dense: seq<Hit>, sparse: seq<Hit>,
                     atD: nat -> real, atS: nat -> real, i: nat)
    requires i < |sparse| && scores.Keys == Known(dense, sparse[..i])
    requires forall x :: x in scores ==> scores[x] == Score(dense, sparse[..i], atD, atS, x)
    ensures var r := Add(scores, sparse[i].id, atS(i));
            && r.Keys == scores.Keys + {sparse[i].id}
            && forall x :: x in r ==> r[x] == Score(dense, sparse[..i + 1], atD, atS, x)
  {
    var r := Add(scores, sparse[i].id, atS(i));
    forall x | x in r ensures r[x] == Score(dense, sparse[..i + 1], atD, atS, x) {
      SparseStep(dense, sparse, atD, atS, i, x);
    }
  }

  lemma SparseTexts(texts: map<string, string>, dense: seq<Hit>, sparse: seq<Hit>, i: nat)
    requires i < |sparse| && texts.Keys == Known(dense, sparse[..i])
    requires forall x :: x in texts ==> texts[x] == Text(dense, sparse[..i], x)
    ensures var r := SetDefault(texts, sparse[i].id, sparse[i].text);
            forall x :: x in r ==> r[x] == Text(dense, sparse[..i + 1], x)
  {
    var r := SetDefault(texts, sparse[i].id, sparse[i].text);
    forall x | x in r ensures r[x] == Text(dense, sparse[..i + 1], x) {
      SparseStep(dense, sparse, _ => 0.0, _ => 0.0, i, x);
    }
  }

  lemma SparseTally(ids: seq<string>, scores: map<string, real>, texts: map<string, string>,
                    dense: seq<Hit>, sparse: seq<Hit>, atD: nat -> real, atS: nat -> real, i: nat)
    requires i < |sparse| && Tally(ids, scores, texts, dense, sparse[..i], atD, atS)
    ensures var id := sparse[i].id;
            Tally(Touch(ids, id in scores, id), Add(scores, id, atS(i)), SetDefault(texts, id, sparse[i].text),
                  dense, sparse[..i + 1], atD, atS)
  {
    SparseKeys(dense, sparse, i);
    SparseScores(scores, dense, sparse, atD, atS, i);
    SparseTexts(texts, dense, sparse, i);
  }

  /** The sort of the dict's items and the cut. */
  method SortAndCut(ids: seq<string>, scores: map<string, real>, texts: map<string, string>,
                    ghost dense: seq<Hit>, ghost sparse: seq<Hit>, p: Tuning) returns (fused: seq<Hit>)
    requires Tally(ids, scores, texts, dense, sparse, Reciprocal(p.wDense, p.k), Reciprocal(p.wSparse, p.k))
    ensures fused == Fused(dense, sparse, p)
  {
    forall i | 0 <= i < |ids| ensures ids[i] in scores { KnownListed(dense, sparse, ids[i]); }
    var keys := seq(|ids|, i requires 0 <= i < |ids| => scores[ids[i]]);
    assert keys == Scores(dense, sparse, p);
    var order := Order(keys);
    fused := seq(Min(p.top, |ids|), j requires 0 <= j < |ids| =>
      Hit(ids[order[j]], texts[ids[order[j]]], keys[order[j]]));
  }

  /** `rrf_fuse`: one pass over each list, then the stable sort. */
  method RrfFuse(dense: seq<Hit>, sparse: seq<Hit>, p: Tuning) returns (fused: seq<Hit>)
    ensures fused == Fused(dense, sparse, p)
  {
    var atD, atS := Reciprocal(p.wDense, p.k), Reciprocal(p.wSparse, p.k);
    var ids: seq<string>, scores: map<string, real>, texts: map<string, string> := [], map[], map[];
    for i := 0 to |dense|
      invariant Tally(ids, scores, texts, dense[..i], [], atD, atS)
    {
      DenseTally(ids, scores, texts, dense, atD, atS, i);
      var id := dense[i].id;
      ids, scores, texts := Touch(ids, id in scores, id), Add(scores, id, atD(i)), texts[id := dense[i].text];
    }
    assert dense[..|dense|] == dense && sparse[..0] == [];
    for i := 0 to |sparse|
      invariant Tally(ids, scores, texts, dense, sparse[..i], atD, atS)
    {
      SparseTally(ids, scores, texts, dense, sparse, atD, atS, i);
      var id := sparse[i].id;
      ids, scores := Touch(ids, id in scores, id), Add(scores, id, atS(i));
      texts := SetDefault(texts, id, sparse[i].text);
    }
    assert sparse[..|sparse|] == sparse;
    fused := SortAndCut(ids, scores, texts, dense, sparse, p);
  }
}
