/**
 `retrieve_and_generate` (taxcalc-ai/src/taxcalc_ai/rag.py) on the shared store: lookup, context,
 generation, store, and only then the usage block on the dictionary it returns.
 */
module RetrieveAndGenerate {
  import opened Options
  import opened CacheKeys
  import opened Decimals
  import opened SemanticCache
  import opened Answers
  import opened Fusion
  import opened FusionOrder
  import opened Reranking
  import opened Pipeline

  /** The completion: its first text block, if that is what comes first, and its usage, if it has one. */
  datatype Message = Message(first: Option<string>, usage: Option<Usage>)

  /** A mutable Python dict. */
  class Dict {
    var fields: Fields

    constructor (init: Fields)
      ensures fields == init
    {
      fields := init;
    }
  }

  const INTRO: string := "Answer the question using only the numbered context below.\n\n"
  const GAP: string := "\n\n"

  function Passage(number: nat, text: string): string {
    "[" + Decimal(number) + "] " + text
  }

  function Numbered(hits: seq<Hit>): string
    decreases |hits|, 0
  {
    if hits == [] then ""
    else
      var n := |hits| - 1;
      Upto(hits, n) + Passage(n + 1, hits[n].text)
  }

  /** What stands before passage `i`: the ones before it and a gap. */
  function Upto(hits: seq<Hit>, i: nat): string
    requires i < |hits|
    decreases i, 1
  {
    if i == 0 then "" else Numbered(hits[..i]) + GAP
  }

  function BuildPrompt(query: string, hits: seq<Hit>): string {
    INTRO + Numbered(hits) + "\n\nQuestion: " + query
  }

  /** The numbered context around its i-th passage. */
  lemma {:induction false} NumberedAround(hits: seq<Hit>, i: nat) returns (after: string)
    requires i < |hits|
    ensures Numbered(hits) == Upto(hits, i) + Passage(i + 1, hits[i].text) + after
    ensures i + 1 == |hits| ==> after == ""
    ensures i + 1 < |hits| ==> GAP + Passage(i + 2, hits[i + 1].text) <= after
  {
    var n := |hits| - 1;
    if i == n {
      after := "";
    } else {
      var rest := NumberedAround(hits[..n], i);
      SamePrefix(hits, n, i);
      var before, here, last := Upto(hits, i), Passage(i + 1, hits[i].text), GAP + Passage(n + 1, hits[n].text);
      after := rest + last;
      Onwards(before + here, rest, GAP, Passage(n + 1, hits[n].text));
    }
  }

  lemma SamePrefix(hits: seq<Hit>, n: nat, i: nat)
    requires i < n <= |hits|
    ensures Upto(hits[..n], i) == Upto(hits, i)
  {
    assert hits[..n][..i] == hits[..i];
  }

  lemma Onwards(a: string, rest: string, gap: string, last: string)
    ensures ((a + rest) + gap) + last == a + (rest + (gap + last))
  {
  }

  /**
   The prompt around its i-th passage: the first follows the instruction, each next one follows the
   one before it under the next number, and the question follows the last.
   */
  lemma PromptAround(query: string, hits: seq<Hit>, i: nat) returns (before: string, after: string)
    requires i < |hits|
    ensures BuildPrompt(query, hits) == before + ("[" + Decimal(i + 1) + "] " + hits[i].text) + after
    ensures i == 0 ==> before == "Answer the question using only the numbered context below.\n\n"
    ensures i + 1 < |hits| ==> "\n\n" + ("[" + Decimal(i + 2) + "] " + hits[i + 1].text) <= after
    ensures i + 1 == |hits| ==> after == "\n\nQuestion: " + query
  {
    var rest := NumberedAround(hits, i);
    var tail := "\n\nQuestion: " + query;
    before, after := INTRO + Upto(hits, i), rest + tail;
    Around(INTRO, Upto(hits, i), Passage(i + 1, hits[i].text), rest, "\n\nQuestion: ", query);
  }

  lemma Around(intro: string, before: string, here: string, rest: string, mark: string, query: string)
    ensures intro + (before + here + rest) + mark + query == (intro + before) + here + (rest + (mark + query))
  {
  }

  lemma PromptOfNothing(query: string)
    ensures BuildPrompt(query, []) ==
            "Answer the question using only the numbered context below.\n\n" + "" + "\n\nQuestion: " + query
  {
  }

  function WorkOf(text: string, context: Reranked, dense: seq<Hit>, sparse: seq<Hit>,
                  generate: string -> Message): Work
  {
    var message := generate(BuildPrompt(text, context.hits));
    Work(match message.first case Some(t) => t case None => "",
         context.hits, context.timedOut, CoverageOf(dense, sparse), message.usage)
  }

  /** One citation for each hit, in order, under the tenant. */
  ghost predicate Cites(citations: Json, hits: seq<Hit>, tenant: string) {
    && citations.Arr? && |citations.items| == |hits|
    && forall i :: 0 <= i < |hits| ==>
         citations.items[i] == Obj(map["chunk_id" := Str(hits[i].id), "chunk_text" := Str(hits[i].text),
                                       "score" := Num(hits[i].score), "tenant_id" := Str(tenant)])
  }

  lemma BodyCites(w: Work, tenant: string)
    ensures Cites(Body(w, tenant)["citations"], w.hits, tenant)
  {
    forall i | 0 <= i < |w.hits|
      ensures Citations(w.hits, tenant)[i] ==
              Obj(map["chunk_id" := Str(w.hits[i].id), "chunk_text" := Str(w.hits[i].text),
                      "score" := Num(w.hits[i].score), "tenant_id" := Str(tenant)])
    {
      assert Citations(w.hits, tenant)[i] == CitationOf(w.hits[i], tenant);
    }
  }

  lemma WithoutUsage(w: Work, tenant: string)
    ensures Returned(w, tenant) - {"usage"} == Body(w, tenant)
  {
    assert Body(w, tenant) - {"usage"} == Body(w, tenant);
    assert w.usage.Some? ==> Returned(w, tenant) - {"usage"} == Body(w, tenant) - {"usage"};
  }

  /** Nothing usable in the cache and a reranker that does not raise. */
  ghost predicate Misses(before: Cache, q: Request, searches: Searches, sha: seq<int> -> Digest)
    requires Encodes(q)
  {
    && Lookup(before, QueryVec(q), q.tenant, sha).None?
    && Context(q, DenseOf(q, searches), SparseOf(q, searches)).Ok?
  }

  method RetrieveAndGenerate(redis: Redis, q: Request, searches: Searches,
                             generate: string -> Message, sha: seq<int> -> Digest) returns (r: Result<Dict, Error>)
    requires WellKept(redis.View()) && Encodes(q)
    modifies redis
    ensures WellKept(redis.View())
    ensures r.Ok? ==> fresh(r.value)
    ensures var before := old(redis.View());
            var found := Lookup(before, QueryVec(q), q.tenant, sha);
            var dense, sparse := DenseOf(q, searches), SparseOf(q, searches);
            var context := Context(q, dense, sparse);
            if found.Some? then
              redis.View() == before && r.Ok? && r.value.fields == found.value
            else if context.Err? then
              redis.View() == before && r == Err(context.error)
            else
              var w := WorkOf(q.text, context.value, dense, sparse, generate);
              && redis.View() == Stored(before, QueryVec(q), q.tenant, Body(w, q.tenant), DEFAULT_TTL_SECONDS, sha)
              && r.Ok? && r.value.fields == Returned(w, q.tenant)
    // What the caller of a miss reads: the first text block, the flag, the counts, the tokens, the context.
    ensures Misses(old(redis.View()), q, searches, sha) ==>
              var dense, sparse := DenseOf(q, searches), SparseOf(q, searches);
              var context := Context(q, dense, sparse).value;
              var message, coverage := generate(BuildPrompt(q.text, context.hits)), CoverageOf(dense, sparse);
              r.Ok? && var d := r.value.fields;
              && d.Keys == {"text", "citations", "rerank_timed_out", "coverage"}
                           + (if message.usage.Some? then {"usage"} else {})
              && (message.first.Some? ==> d["text"] == Str(message.first.value))
              && (message.first.None? ==> d["text"] == Str(""))
              && d["rerank_timed_out"] == Bool(context.timedOut)
              && d["coverage"] == Obj(map["dense_only" := Num(coverage.denseOnly as real),
                                          "sparse_only" := Num(coverage.sparseOnly as real),
                                          "both" := Num(coverage.both as real), "jaccard" := Num(coverage.jaccard)])
              && (message.usage.Some? ==>
                    d["usage"] == Obj(map["input_tokens" := Num(message.usage.value.input as real),
                                          "output_tokens" := Num(message.usage.value.output as real)]))
              && Cites(d["citations"], context.hits, q.tenant)
    // And what the next request with that vector finds is the same object without the tokens.
    ensures Misses(old(redis.View()), q, searches, sha) ==>
              r.Ok? && Lookup(redis.View(), QueryVec(q), q.tenant, sha) == Some(r.value.fields - {"usage"})
  {
    var vec := QueryVec(q);
    var cached := redis.CacheLookup(vec, q.tenant, sha);
    if cached.Some? {
      var hit := new Dict(cached.value);
      return Ok(hit);
    }
    var dense, sparse, context := BuildContext(q, searches);
    if context.Err? {
      return Err(context.error);
    }
    var w := WorkOf(q.text, context.value, dense, sparse, generate);
    ReturnedMeans(w, q.tenant);
    BodyCites(w, q.tenant);
    StoreThenLookup(redis.View(), vec, vec, q.tenant, Body(w, q.tenant), DEFAULT_TTL_SECONDS, sha, redis.View().now);
    WithoutUsage(w, q.tenant);
    var answer := new Dict(Body(w, q.tenant));
    redis.CacheStore(vec, q.tenant, answer.fields, DEFAULT_TTL_SECONDS, sha);
    if w.usage.Some? {
      answer.fields := answer.fields[USAGE_FIELD := UsageJson(w.usage.value)];
    }
    return Ok(answer);
  }
}
