/**
 The retrieval half of `retrieve_and_generate` (taxcalc-ai/src/taxcalc_ai/rag.py): retrieve, fuse,
 diversify, rerank, under the four stage flags.
 */
module Pipeline {
  import opened Options
  import opened Chunking
  import opened Corpus
  import opened Fusion
  import opened FusionOrder
  import opened Diversity
  import opened StableOrder
  import opened Reranking

  datatype Flags = Flags(hybrid: bool, mmr: bool, rerank: bool, filter: bool)

  /** What the request brings, and the bi-encoder and reranker it meets. */
  datatype Request = Request(
    text: string,
    tenant: string,
    filter: Option<Meta>,
    flags: Flags,
    encode: string -> Diversity.Vec,
    world: World)

  function QueryVec(q: Request): Diversity.Vec {
    q.encode(q.text)
  }

  /** The filter the dense search is given. */
  function Asked(q: Request): Option<Meta> {
    if q.flags.filter then q.filter else None
  }

  ghost predicate Encodes(q: Request) {
    SameLength(QueryVec(q), q.encode)
  }

  /** The two searches, as the corpus stands: by vector, tenant and filter, and by text and tenant. */
  datatype Searches = Searches(
    dense: (Diversity.Vec, string, Option<Meta>) -> seq<Hit>,
    sparse: (string, string) -> seq<Hit>)

  function DenseOf(q: Request, searches: Searches): seq<Hit> {
    searches.dense(QueryVec(q), q.tenant, Asked(q))
  }

  function SparseOf(q: Request, searches: Searches): seq<Hit> {
    if q.flags.hybrid then searches.sparse(q.text, q.tenant) else []
  }

  function Merged(dense: seq<Hit>, sparse: seq<Hit>, hybrid: bool): seq<Hit> {
    if hybrid then Fused(dense, sparse, DEFAULT) else Prefix(dense, DEFAULT_FUSED_K)
  }

  ghost function Narrowed(q: Request, merged: seq<Hit>): seq<Hit>
    requires Encodes(q)
  {
    if q.flags.mmr then Diversified(QueryVec(q), merged, q.encode, DEFAULT_MMR_K)
    else Prefix(merged, DEFAULT_MMR_K as nat)
  }

  function Final(q: Request, narrowed: seq<Hit>): Result<Reranked, Error> {
    if q.flags.rerank then RerankCandidates(narrowed, DEFAULT_RERANK_TOP_K, q.world)
    else Ok(Reranked(Prefix(narrowed, DEFAULT_RERANK_TOP_K), false))
  }

  /** The context handed to the generator. */
  ghost function Context(q: Request, dense: seq<Hit>, sparse: seq<Hit>): Result<Reranked, Error>
    requires Encodes(q)
  {
    Final(q, Narrowed(q, Merged(dense, sparse, q.flags.hybrid)))
  }

  /** The searches and the stages in order. With hybrid off nothing is searched lexically and nothing fused. */
  method BuildContext(q: Request, searches: Searches)
    returns (dense: seq<Hit>, sparse: seq<Hit>, r: Result<Reranked, Error>)
    requires Encodes(q)
    ensures dense == DenseOf(q, searches) && sparse == SparseOf(q, searches)
    ensures dense == searches.dense(q.encode(q.text), q.tenant, if q.flags.filter then q.filter else None)
    ensures sparse == if q.flags.hybrid then searches.sparse(q.text, q.tenant) else []
    ensures r == Context(q, dense, sparse)
    ensures var narrowed := Narrowed(q, Merged(dense, sparse, q.flags.hybrid));
            r == if q.flags.rerank then RerankCandidates(narrowed, 6, q.world)
                 else Ok(Reranked(Prefix(narrowed, 6), false))
  {
    var filter := if q.flags.filter then q.filter else None;
    dense := searches.dense(QueryVec(q), q.tenant, filter);
    sparse := [];
    var merged: seq<Hit>, narrowed: seq<Hit>;
    if q.flags.hybrid {
      sparse := searches.sparse(q.text, q.tenant);
      merged := RrfFuse(dense, sparse, DEFAULT);
    } else {
      merged := Prefix(dense, DEFAULT_FUSED_K);
    }
    if q.flags.mmr {
      narrowed := MmrPick(QueryVec(q), merged, q.encode, DEFAULT_MMR_K);
    } else {
      narrowed := Prefix(merged, DEFAULT_MMR_K as nat);
    }
    if q.flags.rerank {
      r := RerankCandidates(narrowed, DEFAULT_RERANK_TOP_K, q.world);
    } else {
      r := Ok(Reranked(Prefix(narrowed, DEFAULT_RERANK_TOP_K), false));
    }
  }

  // ---- how much goes through ---------------------------------------------------------------------

  /** Sixty fused documents, of which twenty reach the reranker; with hybrid off all dense hits are carried on. */
  lemma StageSizes(q: Request, dense: seq<Hit>, sparse: seq<Hit>)
    requires Encodes(q)
    ensures var merged := Merged(dense, sparse, q.flags.hybrid);
            && (q.flags.hybrid ==> |merged| == Min(60, |Candidates(dense, sparse)|))
            && (!q.flags.hybrid && |dense| <= 60 ==> merged == dense)
            && |Narrowed(q, merged)| == Min(20, |merged|)
            && (!q.flags.mmr && |merged| <= 20 ==> Narrowed(q, merged) == merged)
            && DEFAULT_RETRIEVER_K == 50
  {
  }

  /** At the retrievers' fifty rows the merged list starts with exactly what both found. */
  lemma AgreedReachMmr(dense: seq<Hit>, sparse: seq<Hit>)
    requires DistinctIds(dense) && DistinctIds(sparse) && |dense| <= 50 && |sparse| <= 50
    ensures var merged, both := Merged(dense, sparse, true), Both(dense, sparse);
            && |both| <= |merged| && IdSet(merged[..|both|]) == both
            && forall id :: id in both <==> Listed(dense, id) && Listed(sparse, id)
  {
    ShippedConstantsKeepAgreement(dense, sparse);
  }

  // ---- provenance -------------------------------------------------------------------------------

  lemma {:induction false} LastTextIsShown(hits: seq<Hit>, id: string)
    requires Listed(hits, id)
    ensures exists i :: 0 <= i < |hits| && hits[i].id == id && hits[i].text == LastText(hits, id)
  {
    var n := |hits| - 1;
    if hits[n].id != id {
      var i :| 0 <= i < |hits| && hits[i].id == id;
      assert hits[..n][i].id == id;
      LastTextIsShown(hits[..n], id);
    }
  }

  lemma {:induction false} FirstTextIsShown(hits: seq<Hit>, id: string)
    requires Listed(hits, id)
    ensures exists i :: 0 <= i < |hits| && hits[i].id == id && hits[i].text == FirstText(hits, id)
  {
    var n := |hits| - 1;
    if Listed(hits[..n], id) {
      FirstTextIsShown(hits[..n], id);
    } else {
      ListedStep(hits, n, id);
      assert hits[..n + 1] == hits;
    }
  }

  /** A fused document shows a text one of the lists gave it. */
  lemma FusedOneOf(dense: seq<Hit>, sparse: seq<Hit>, p: Tuning, b: nat)
    requires b < |Fused(dense, sparse, p)|
    ensures OneOf(Fused(dense, sparse, p)[b], dense + sparse)
  {
    var h := Fused(dense, sparse, p)[b];
    FusedIdsListed(dense, sparse, p, b);
    if Listed(dense, h.id) {
      LastTextIsShown(dense, h.id);
      var i :| 0 <= i < |dense| && dense[i].id == h.id && dense[i].text == LastText(dense, h.id);
      assert SameChunk(h, (dense + sparse)[i]);
    } else {
      FirstTextIsShown(sparse, h.id);
      var i :| 0 <= i < |sparse| && sparse[i].id == h.id && sparse[i].text == FirstText(sparse, h.id);
      assert SameChunk(h, (dense + sparse)[|dense| + i]);
    }
  }

  lemma MergedWithin(dense: seq<Hit>, sparse: seq<Hit>, hybrid: bool)
    ensures Within(Merged(dense, sparse, hybrid), if hybrid then dense + sparse else dense)
  {
    if hybrid {
      forall b | 0 <= b < |Fused(dense, sparse, DEFAULT)|
        ensures OneOf(Fused(dense, sparse, DEFAULT)[b], dense + sparse)
      {
        FusedOneOf(dense, sparse, DEFAULT, b);
      }
    } else {
      PrefixWithin(dense, DEFAULT_FUSED_K);
    }
  }

  lemma DiversifiedWithin(query: Diversity.Vec, hits: seq<Hit>, encode: string -> Diversity.Vec, k: int)
    requires SameLength(query, encode)
    ensures Within(Diversified(query, hits, encode, k), hits)
  {
    var picks, r := Picks(query, Encoded(hits, encode), k, MMR_LAMBDA), Diversified(query, hits, encode, k);
    forall a | 0 <= a < |r| ensures OneOf(r[a], hits) {
      assert SameChunk(r[a], hits[picks[a]]);
    }
  }

  lemma NarrowedWithin(q: Request, merged: seq<Hit>)
    requires Encodes(q)
    ensures Within(Narrowed(q, merged), merged)
  {
    PrefixWithin(merged, DEFAULT_MMR_K as nat);
    DiversifiedWithin(QueryVec(q), merged, q.encode, DEFAULT_MMR_K);
  }

  /** Under every setting: at most six citations, each a chunk some retriever returned. */
  lemma SixFromTheRetrievers(q: Request, dense: seq<Hit>, sparse: seq<Hit>)
    requires Encodes(q) && Context(q, dense, sparse).Ok?
    ensures var hits := Context(q, dense, sparse).value.hits;
            && |hits| <= 6
            && Within(hits, if q.flags.hybrid then dense + sparse else dense)
  {
    var merged := Merged(dense, sparse, q.flags.hybrid);
    var narrowed := Narrowed(q, merged);
    var source := if q.flags.hybrid then dense + sparse else dense;
    MergedWithin(dense, sparse, q.flags.hybrid);
    NarrowedWithin(q, merged);
    WithinTrans(narrowed, merged, source);
    if q.flags.rerank {
      RerankWithin(narrowed, DEFAULT_RERANK_TOP_K, q.world);
    } else {
      PrefixWithin(narrowed, DEFAULT_RERANK_TOP_K);
    }
    WithinTrans(Context(q, dense, sparse).value.hits, narrowed, source);
  }

  lemma NarrowedDistinct(q: Request, dense: seq<Hit>, sparse: seq<Hit>)
    requires Encodes(q) && DistinctIds(dense)
    ensures DistinctIds(Narrowed(q, Merged(dense, sparse, q.flags.hybrid)))
  {
    var merged := Merged(dense, sparse, q.flags.hybrid);
    FusedIdsDistinct(dense, sparse, DEFAULT);
    PrefixDistinct(dense, DEFAULT_FUSED_K);
    DiversifiedDistinct(QueryVec(q), merged, q.encode, DEFAULT_MMR_K);
    PrefixDistinct(merged, DEFAULT_MMR_K as nat);
  }

  /** No citation twice, whatever the sparse list repeats, unless the hosted reranker repeats one. */
  lemma CitationsDistinct(q: Request, dense: seq<Hit>, sparse: seq<Hit>)
    requires Encodes(q) && DistinctIds(dense) && Context(q, dense, sparse).Ok?
    requires q.flags.rerank ==> RepliesOnce(Narrowed(q, Merged(dense, sparse, q.flags.hybrid)), q.world)
    ensures DistinctIds(Context(q, dense, sparse).value.hits)
  {
    var narrowed := Narrowed(q, Merged(dense, sparse, q.flags.hybrid));
    NarrowedDistinct(q, dense, sparse);
    PrefixDistinct(narrowed, DEFAULT_RERANK_TOP_K);
    if q.flags.rerank {
      RerankDistinct(narrowed, DEFAULT_RERANK_TOP_K, q.world);
    }
  }

  /** A rerank that had no say after MMR leaves what MMR alone would have picked with k = 6. */
  lemma TimedOutIsMmrSix(q: Request, dense: seq<Hit>, sparse: seq<Hit>)
    requires Encodes(q) && q.flags.mmr && Context(q, dense, sparse).Ok?
    requires Context(q, dense, sparse).value.timedOut
    ensures Context(q, dense, sparse).value.hits ==
            Diversified(QueryVec(q), Merged(dense, sparse, q.flags.hybrid), q.encode, DEFAULT_RERANK_TOP_K)
  {
    var merged := Merged(dense, sparse, q.flags.hybrid);
    FlagMeansFallback(Narrowed(q, merged), DEFAULT_RERANK_TOP_K, q.world);
    DiversifiedNests(QueryVec(q), merged, q.encode, DEFAULT_RERANK_TOP_K, DEFAULT_MMR_K);
  }

  /** Without MMR, and with the reranker off or without a say, the head of the merged list stands. */
  lemma HeadOfMerged(q: Request, dense: seq<Hit>, sparse: seq<Hit>)
    requires Encodes(q) && !q.flags.mmr && Context(q, dense, sparse).Ok?
    requires !q.flags.rerank || Context(q, dense, sparse).value.timedOut
    ensures Context(q, dense, sparse).value.hits == Prefix(Merged(dense, sparse, q.flags.hybrid), 6)
    ensures !q.flags.hybrid ==> Context(q, dense, sparse).value.hits == Prefix(dense, 6)
  {
    var merged := Merged(dense, sparse, q.flags.hybrid);
    if q.flags.rerank {
      FlagMeansFallback(Narrowed(q, merged), DEFAULT_RERANK_TOP_K, q.world);
    }
    PrefixOfPrefix(merged, DEFAULT_MMR_K as nat, DEFAULT_RERANK_TOP_K);
    PrefixOfPrefix(dense, DEFAULT_FUSED_K, DEFAULT_RERANK_TOP_K);
  }

  lemma PrefixOfPrefix(hits: seq<Hit>, more: nat, n: nat)
    requires n <= more
    ensures Prefix(Prefix(hits, more), n) == Prefix(hits, n)
  {
  }

  // ---- what the rows behind the citations satisfy -------------------------------------------------


  ghost predicate CitesDenseRow(h: Hit, table: Table, tenant: string, model: string, filter: Option<Meta>) {
    exists key :: Shows(h, table, key) && DenseRow(table, key, tenant, model, filter)
  }

  ghost predicate CitesTenantRow(h: Hit, table: Table, tenant: string) {
    exists key :: Shows(h, table, key) && table[key].tenant == tenant
  }

  lemma DenseHitCites(h: Hit, dense: seq<Hit>, i: nat, keys: seq<Key>, table: Table,
                      tenant: string, model: string, filter: Option<Meta>, k: nat)
    requires DenseAnswer(dense, keys, table, tenant, model, filter, k)
    requires i < |dense| && SameChunk(h, dense[i])
    ensures CitesDenseRow(h, table, tenant, model, filter)
  {
    assert Shows(h, table, keys[i]);
  }

  /** With hybrid off every citation is a row of the tenant, of the model, and passing the filter if there is one. */
  lemma FilterHonouredWithoutHybrid(q: Request, dense: seq<Hit>, keys: seq<Key>, table: Table, model: string, b: nat)
    requires Encodes(q) && !q.flags.hybrid && Context(q, dense, []).Ok?
    requires DenseAnswer(dense, keys, table, q.tenant, model, Asked(q), DEFAULT_RETRIEVER_K)
    requires b < |Context(q, dense, []).value.hits|
    ensures CitesDenseRow(Context(q, dense, []).value.hits[b], table, q.tenant, model, Asked(q))
  {
    SixFromTheRetrievers(q, dense, []);
    var h := Context(q, dense, []).value.hits[b];
    assert OneOf(h, dense);
    var i :| 0 <= i < |dense| && SameChunk(h, dense[i]);
    DenseHitCites(h, dense, i, keys, table, q.tenant, model, Asked(q), DEFAULT_RETRIEVER_K);
  }

  /** Under every setting every citation is a row of the requesting tenant. */
  lemma TenantAlwaysHonoured(q: Request, dense: seq<Hit>, sparse: seq<Hit>, dk: seq<Key>, sk: seq<Key>, table: Table,
                             model: string, matches: string -> bool, b: nat)
    requires Encodes(q) && Context(q, dense, sparse).Ok?
    requires DenseAnswer(dense, dk, table, q.tenant, model, Asked(q), DEFAULT_RETRIEVER_K)
    requires SparseAnswer(sparse, sk, table, q.tenant, matches, DEFAULT_RETRIEVER_K)
    requires b < |Context(q, dense, sparse).value.hits|
    ensures CitesTenantRow(Context(q, dense, sparse).value.hits[b], table, q.tenant)
  {
    SixFromTheRetrievers(q, dense, sparse);
    var h := Context(q, dense, sparse).value.hits[b];
    var source := if q.flags.hybrid then dense + sparse else dense;
    assert OneOf(h, source);
    var i :| 0 <= i < |source| && SameChunk(h, source[i]);
    if i < |dense| {
      assert Shows(h, table, dk[i]);
    } else {
      assert Shows(h, table, sk[i - |dense|]);
    }
  }

  // ---- the filter and the model under hybrid ------------------------------------------------------

  /** A citation carries the dense text if the dense list has its id, else a text the sparse list gave it. */
  lemma CitationIsFused(q: Request, dense: seq<Hit>, sparse: seq<Hit>, b: nat)
    requires Encodes(q) && q.flags.hybrid && Context(q, dense, sparse).Ok?
    requires b < |Context(q, dense, sparse).value.hits|
    ensures var h := Context(q, dense, sparse).value.hits[b];
            (Listed(dense, h.id) || Listed(sparse, h.id)) && h.text == Text(dense, sparse, h.id)
  {
    var fused := Fused(dense, sparse, DEFAULT);
    var narrowed, hits := Narrowed(q, fused), Context(q, dense, sparse).value.hits;
    NarrowedWithin(q, fused);
    if q.flags.rerank {
      RerankWithin(narrowed, DEFAULT_RERANK_TOP_K, q.world);
    } else {
      PrefixWithin(narrowed, DEFAULT_RERANK_TOP_K);
    }
    WithinTrans(hits, narrowed, fused);
    assert OneOf(hits[b], fused);
    var i :| 0 <= i < |fused| && SameChunk(hits[b], fused[i]);
    FusedIdsListed(dense, sparse, DEFAULT, i);
  }

  lemma CitedFromEither(q: Request, dense: seq<Hit>, sparse: seq<Hit>, b: nat) returns (i: nat)
    requires Encodes(q) && q.flags.hybrid && Context(q, dense, sparse).Ok?
    requires b < |Context(q, dense, sparse).value.hits|
    ensures var h := Context(q, dense, sparse).value.hits[b];
            if Listed(dense, h.id) then i < |dense| && SameChunk(h, dense[i])
            else i < |sparse| && SameChunk(h, sparse[i])
  {
    var h := Context(q, dense, sparse).value.hits[b];
    CitationIsFused(q, dense, sparse, b);
    if Listed(dense, h.id) {
      LastTextIsShown(dense, h.id);
      i :| i < |dense| && dense[i].id == h.id && dense[i].text == LastText(dense, h.id);
    } else {
      FirstTextIsShown(sparse, h.id);
      i :| i < |sparse| && sparse[i].id == h.id && sparse[i].text == FirstText(sparse, h.id);
    }
  }

  /** With hybrid on the filter and the model still hold of a citation the dense search found too. */
  lemma FilterHonouredForDense(q: Request, dense: seq<Hit>, sparse: seq<Hit>, keys: seq<Key>, table: Table,
                               model: string, b: nat)
    requires Encodes(q) && q.flags.hybrid && Context(q, dense, sparse).Ok?
    requires DenseAnswer(dense, keys, table, q.tenant, model, Asked(q), DEFAULT_RETRIEVER_K)
    requires b < |Context(q, dense, sparse).value.hits| && Listed(dense, Context(q, dense, sparse).value.hits[b].id)
    ensures CitesDenseRow(Context(q, dense, sparse).value.hits[b], table, q.tenant, model, Asked(q))
  {
    var i := CitedFromEither(q, dense, sparse, b);
    var h := Context(q, dense, sparse).value.hits[b];
    DenseHitCites(h, dense, i, keys, table, q.tenant, model, Asked(q), DEFAULT_RETRIEVER_K);
  }

  ghost predicate CitesMatchingRow(h: Hit, table: Table, tenant: string, matches: string -> bool) {
    exists key :: Shows(h, table, key) && table[key].tenant == tenant && matches(table[key].text)
  }

  /** And of a citation only the lexical search found, that its text matches the question. */
  lemma MatchHonouredForSparse(q: Request, dense: seq<Hit>, sparse: seq<Hit>, keys: seq<Key>, table: Table,
                               matches: string -> bool, b: nat)
    requires Encodes(q) && q.flags.hybrid && Context(q, dense, sparse).Ok?
    requires SparseAnswer(sparse, keys, table, q.tenant, matches, DEFAULT_RETRIEVER_K)
    requires b < |Context(q, dense, sparse).value.hits| && !Listed(dense, Context(q, dense, sparse).value.hits[b].id)
    ensures CitesMatchingRow(Context(q, dense, sparse).value.hits[b], table, q.tenant, matches)
  {
    var i := CitedFromEither(q, dense, sparse, b);
    assert Shows(sparse[i], table, keys[i]);
    assert Shows(Context(q, dense, sparse).value.hits[b], table, keys[i]);
  }

  /** Before the call: every hit only the lexical search found is a row the dense search could have returned. */
  ghost predicate SparseConforms(dense: seq<Hit>, sparse: seq<Hit>, table: Table,
                                 tenant: string, model: string, filter: Option<Meta>)
  {
    forall i :: 0 <= i < |sparse| && !Listed(dense, sparse[i].id) ==>
      CitesDenseRow(sparse[i], table, tenant, model, filter)
  }

  /** Then every citation is such a row, under every setting and whatever the reranker answers. */
  lemma FilterHonouredIfSparseConforms(q: Request, dense: seq<Hit>, sparse: seq<Hit>, keys: seq<Key>, table: Table,
                                       model: string, b: nat)
    requires Encodes(q) && (!q.flags.hybrid ==> sparse == []) && Context(q, dense, sparse).Ok?
    requires DenseAnswer(dense, keys, table, q.tenant, model, Asked(q), DEFAULT_RETRIEVER_K)
    requires SparseConforms(dense, sparse, table, q.tenant, model, Asked(q))
    requires b < |Context(q, dense, sparse).value.hits|
    ensures CitesDenseRow(Context(q, dense, sparse).value.hits[b], table, q.tenant, model, Asked(q))
  {
    if q.flags.hybrid {
      if Listed(dense, Context(q, dense, sparse).value.hits[b].id) {
        FilterHonouredForDense(q, dense, sparse, keys, table, model, b);
      } else {
        var i := CitedFromEither(q, dense, sparse, b);
        assert CitesDenseRow(sparse[i], table, q.tenant, model, Asked(q));
      }
    } else {
      FilterHonouredWithoutHybrid(q, dense, keys, table, model, b);
    }
  }

  /**
   A citation that is the chunk of `sparse[i]` is a row of tenant, model and filter exactly when
   that document and index are stored under the model, with that text, and pass the filter.
   */
  lemma SparseCitationIff(h: Hit, sparse: seq<Hit>, i: nat, sk: seq<Key>, table: Table, tenant: string,
                          model: string, filter: Option<Meta>, matches: string -> bool, k: nat)
    requires SparseAnswer(sparse, sk, table, tenant, matches, k) && i < |sparse| && SameChunk(h, sparse[i])
    ensures CitesDenseRow(h, table, tenant, model, filter) <==>
            var key := sk[i].(model := model);
            key in table && table[key].text == sparse[i].text && DenseRow(table, key, tenant, model, filter)
  {
    var twin := sk[i].(model := model);
    if CitesDenseRow(h, table, tenant, model, filter) {
      var key :| Shows(h, table, key) && DenseRow(table, key, tenant, model, filter);
      assert Shows(sparse[i], table, sk[i]);
      ChunkIdInjective(key.doc, key.idx, sk[i].doc, sk[i].idx);
      assert key == twin;
    }
    if twin in table && table[twin].text == sparse[i].text && DenseRow(table, twin, tenant, model, filter) {
      assert Shows(h, table, twin);
    }
  }

  /** What the vendor would have to answer for candidate `i` alone to be cited. */
  function Naming(i: nat): World {
    World(Cohere, [], 0.0, true, Rows([Scored(i, 1.0)]))
  }

  lemma KeptAlone(row: Scored, n: nat)
    requires Names(row, n)
    ensures Kept([row], n) == [row]
  {
    assert [row][..0] == [];
  }

  lemma NamedIsCited(hits: seq<Hit>, i: nat)
    requires i < |hits|
    ensures var r := RerankCandidates(hits, DEFAULT_RERANK_TOP_K, Naming(i));
            r.Ok? && |r.value.hits| == 1 && SameChunk(r.value.hits[0], hits[i])
  {
    KeptAlone(Scored(i, 1.0), |hits|);
    AloneInOrder(hits, Scored(i, 1.0));
  }

  lemma AloneInOrder(hits: seq<Hit>, row: Scored)
    requires Names(row, |hits|)
    ensures InOrder(hits, DEFAULT_RERANK_TOP_K, [row]) == [Rescored(hits[row.index], row.score)]
  {
    assert Order(KeysOf([row]))[0] < 1;
  }

  ghost predicate AllCite(hits: seq<Hit>, table: Table, tenant: string, model: string, filter: Option<Meta>) {
    forall b :: 0 <= b < |hits| ==> CitesDenseRow(hits[b], table, tenant, model, filter)
  }

  /** Whatever the reranker answers, only rows of tenant, model and filter are cited. */
  ghost predicate AlwaysCites(q: Request, dense: seq<Hit>, sparse: seq<Hit>, table: Table, model: string)
    requires Encodes(q)
  {
    forall w: World :: Context(q.(world := w), dense, sparse).Ok? ==>
      AllCite(Context(q.(world := w), dense, sparse).value.hits, table, q.tenant, model, Asked(q))
  }

  lemma WithinCites(out: seq<Hit>, source: seq<Hit>, table: Table, tenant: string, model: string, filter: Option<Meta>)
    requires Within(out, source) && AllCite(source, table, tenant, model, filter)
    ensures AllCite(out, table, tenant, model, filter)
  {
    forall b | 0 <= b < |out| ensures CitesDenseRow(out[b], table, tenant, model, filter) {
      assert OneOf(out[b], source);
      var i :| 0 <= i < |source| && SameChunk(out[b], source[i]);
      assert CitesDenseRow(source[i], table, tenant, model, filter);
    }
  }

  /** With reranking on that holds exactly when it holds of the candidates the reranker is given. */
  lemma AlwaysCitesIff(q: Request, dense: seq<Hit>, sparse: seq<Hit>, table: Table, model: string)
    requires Encodes(q) && q.flags.rerank
    ensures AlwaysCites(q, dense, sparse, table, model) <==>
            AllCite(Narrowed(q, Merged(dense, sparse, q.flags.hybrid)), table, q.tenant, model, Asked(q))
  {
    var narrowed := Narrowed(q, Merged(dense, sparse, q.flags.hybrid));
    if AllCite(narrowed, table, q.tenant, model, Asked(q)) {
      forall w: World | Context(q.(world := w), dense, sparse).Ok?
        ensures AllCite(Context(q.(world := w), dense, sparse).value.hits, table, q.tenant, model, Asked(q))
      {
        RerankWithin(narrowed, DEFAULT_RERANK_TOP_K, w);
        var hits := RerankCandidates(narrowed, DEFAULT_RERANK_TOP_K, w).value.hits;
        WithinCites(hits, narrowed, table, q.tenant, model, Asked(q));
      }
    }
    if AlwaysCites(q, dense, sparse, table, model) {
      forall i | 0 <= i < |narrowed| ensures CitesDenseRow(narrowed[i], table, q.tenant, model, Asked(q)) {
        NamedIsCited(narrowed, i);
        var hits := Context(q.(world := Naming(i)), dense, sparse).value.hits;
        assert CitesDenseRow(hits[0], table, q.tenant, model, Asked(q));
      }
    }
  }

  lemma OneSparseHit(q: Request, h: Hit)
    requires Encodes(q) && q.flags.hybrid && !q.flags.mmr && !q.flags.rerank
    ensures var r := Context(q, [], [h]);
            r.Ok? && |r.value.hits| == 1 && SameChunk(r.value.hits[0], h)
  {
    assert Ids([]) + Ids([h]) == [h.id];
    SeenOfDistinct([h]);
    var hits := Context(q, [], [h]).value.hits;
    SixFromTheRetrievers(q, [], [h]);
    assert [] + [h] == [h];
    assert OneOf(hits[0], [h]);
  }

  lemma NotADenseRow(h: Hit, g: Hit, table: Table, key: Key, tenant: string, model: string, filter: Option<Meta>)
    requires table.Keys == {key} && key.model != model && SameChunk(g, h)
    ensures !CitesDenseRow(g, table, tenant, model, filter)
  {
  }

  /** A corpus of one row, of another model and without metadata. */
  lemma StrayCorpus(tenant: string, key: Key, h: Hit)
    requires key == Key("d", 0, "other") && h == Hit(ChunkIdFor("d", 0), "t", 1.0)
    ensures var table: Table := map[key := Row("t", [], tenant, map[], None, 0)];
            && SparseAnswer([h], [key], table, tenant, text => true, DEFAULT_RETRIEVER_K)
            && !Passes(table[key], Some(map["jurisdiction" := "federal"]))
            && key.model != "m"
  {
    assert "jurisdiction" in map["jurisdiction" := "federal"];
    assert key.model[0] == 'o';
  }

  /** The condition is needed: a citation only the lexical search found, of another model and failing the filter. */
  lemma SparseOnlyEscapesFilter(q: Request)
    returns (sparse: seq<Hit>, keys: seq<Key>, table: Table)
    requires Encodes(q) && q.flags == Flags(true, false, false, true)
    requires q.filter == Some(map["jurisdiction" := "federal"])
    ensures DenseAnswer([], [], table, q.tenant, "m", Asked(q), DEFAULT_RETRIEVER_K)
    ensures SparseAnswer(sparse, keys, table, q.tenant, text => true, DEFAULT_RETRIEVER_K)
    ensures var r := Context(q, [], sparse);
            r.Ok? && |r.value.hits| == 1 && !CitesDenseRow(r.value.hits[0], table, q.tenant, "m", Asked(q))
    ensures forall key :: key in table ==> !Passes(table[key], Asked(q))
  {
    var key := Key("d", 0, "other");
    var h := Hit(ChunkIdFor("d", 0), "t", 1.0);
    sparse, keys, table := [h], [key], map[key := Row("t", [], q.tenant, map[], None, 0)];
    StrayCorpus(q.tenant, key, h);
    OneSparseHit(q, h);
    NotADenseRow(h, Context(q, [], sparse).value.hits[0], table, key, q.tenant, "m", Asked(q));
  }
}
