/**
 A corpus on which agreement loses: the lexical search has no model filter, so one chunk stored
 under two other models takes two ranks (taxcalc-ai/src/taxcalc_ai/hybrid.py, `sparse_topk_fts`).
 */
module RepeatedChunks {
  import opened Options
  import opened Chunking
  import opened Corpus
  import opened Fusion
  import opened FusionClaims

  function ShownUnder(id: string): Hit {
    Hit(id, "", 0.0)
  }

  function DenseList(a: string, y: string): seq<Hit> {
    [ShownUnder(a), ShownUnder(y)]
  }

  function SparseList(x: string, y: string): seq<Hit> {
    [ShownUnder(x), ShownUnder(x), ShownUnder(y)]
  }

  /** The repeated document collects the first two sparse ranks. */
  lemma RepeatedShare(x: string, y: string, at: nat -> real)
    requires x != y
    ensures Share(SparseList(x, y), at, x) == at(0) + at(1)
    ensures Share(SparseList(x, y), at, y) == at(2)
  {
    var hits := SparseList(x, y);
    assert hits[..0] == [] && hits[..3] == hits;
    ShareStep(hits, at, 0, x);
    ShareStep(hits, at, 1, x);
    ShareStep(hits, at, 2, x);
    ShareStep(hits, at, 0, y);
    ShareStep(hits, at, 1, y);
    ShareStep(hits, at, 2, y);
  }

  lemma SecondShare(a: string, y: string, at: nat -> real)
    requires a != y
    ensures Share(DenseList(a, y), at, y) == at(1)
  {
    var hits := DenseList(a, y);
    assert hits[..0] == [] && hits[..2] == hits;
    ShareStep(hits, at, 0, y);
    ShareStep(hits, at, 1, y);
  }

  /** Two early ranks of one list outscore a second and a third. */
  lemma RepeatOutscores(a: string, x: string, y: string)
    requires a != x && a != y && x != y
    ensures var dense, sparse := DenseList(a, y), SparseList(x, y);
            && Agreed(dense, sparse, y) && !Listed(dense, x)
            && RrfScore(dense, sparse, DEFAULT, x) > RrfScore(dense, sparse, DEFAULT, y)
  {
    var dense, sparse := DenseList(a, y), SparseList(x, y);
    var at := Reciprocal(1.0, K_CONST);
    assert dense[1].id == y && sparse[2].id == y;
    assert forall i :: 0 <= i < |dense| ==> dense[i].id != x;
    ShareOfUnlisted(dense, at, x);
    RepeatedShare(x, y, at);
    SecondShare(a, y, at);
    DivideByMore(1.0, 61.0, 63.0);
  }

  function RowFor(tenant: string): Row {
    Row("", [], tenant, map[], None, 0)
  }

  /** Two documents under the served model, and a third under two others. */
  function Stored(tenant: string, model: string, v1: string, v2: string): Table {
    map[Key("a", 0, model) := RowFor(tenant), Key("y", 0, model) := RowFor(tenant),
        Key("x", 0, v1) := RowFor(tenant), Key("x", 0, v2) := RowFor(tenant)]
  }

  lemma ThreeIds()
    ensures ChunkIdFor("a", 0) != ChunkIdFor("x", 0) && ChunkIdFor("a", 0) != ChunkIdFor("y", 0)
    ensures ChunkIdFor("x", 0) != ChunkIdFor("y", 0)
  {
    assert "a"[0] != "x"[0] && "x"[0] != "y"[0] && "a"[0] != "y"[0];
    if ChunkIdFor("a", 0) == ChunkIdFor("x", 0) { ChunkIdInjective("a", 0, "x", 0); }
    if ChunkIdFor("x", 0) == ChunkIdFor("y", 0) { ChunkIdInjective("x", 0, "y", 0); }
    if ChunkIdFor("y", 0) == ChunkIdFor("a", 0) { ChunkIdInjective("y", 0, "a", 0); }
  }

  /** The two lists are answers the searches may give of that corpus. */
  ghost predicate MayAnswer(dense: seq<Hit>, sparse: seq<Hit>, tenant: string, model: string, v1: string, v2: string) {
    var table := Stored(tenant, model, v1, v2);
    var dk, sk := [Key("a", 0, model), Key("y", 0, model)], [Key("x", 0, v1), Key("x", 0, v2), Key("y", 0, model)];
    && DenseAnswer(dense, dk, table, tenant, model, None, DEFAULT_RETRIEVER_K)
    && SparseAnswer(sparse, sk, table, tenant, text => true, DEFAULT_RETRIEVER_K)
  }

  lemma ListsMayAnswer(tenant: string, model: string, v1: string, v2: string)
    requires v1 != v2
    ensures var a, x, y := ChunkIdFor("a", 0), ChunkIdFor("x", 0), ChunkIdFor("y", 0);
            MayAnswer(DenseList(a, y), SparseList(x, y), tenant, model, v1, v2)
  {
    assert "a"[0] != "x"[0] && "x"[0] != "y"[0] && "a"[0] != "y"[0];
  }

  /** And on them a document in one list beats a document in both. */
  lemma RepeatedIdBreaksAgreement(tenant: string, model: string, v1: string, v2: string)
    returns (dense: seq<Hit>, sparse: seq<Hit>)
    requires v1 != v2
    ensures var x, y := ChunkIdFor("x", 0), ChunkIdFor("y", 0);
            && MayAnswer(dense, sparse, tenant, model, v1, v2)
            && Agreed(dense, sparse, y) && !Agreed(dense, sparse, x)
            && RrfScore(dense, sparse, DEFAULT, x) > RrfScore(dense, sparse, DEFAULT, y)
  {
    var a, x, y := ChunkIdFor("a", 0), ChunkIdFor("x", 0), ChunkIdFor("y", 0);
    dense, sparse := DenseList(a, y), SparseList(x, y);
    ThreeIds();
    RepeatOutscores(a, x, y);
    ListsMayAnswer(tenant, model, v1, v2);
  }
}
