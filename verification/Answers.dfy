/**
 The answer dictionary of `retrieve_and_generate` (taxcalc-ai/src/taxcalc_ai/rag.py): what is stored,
 what is returned, and the function that does both.
 */
module Answers {
  import opened Options
  import opened CacheKeys
  import opened Decimals
  import opened SemanticCache
  import opened Fusion
  import opened FusionOrder
  import opened Corpus
  import opened Reranking
  import opened Pipeline

  const USAGE_FIELD: string := "usage"

  datatype Usage = Usage(input: nat, output: nat)

  /** What a miss works out: the generated text, the context it rests on, and the tokens if reported. */
  datatype Work = Work(text: string, hits: seq<Hit>, timedOut: bool, coverage: Coverage, usage: Option<Usage>)

  /** The inputs of an answer that the cache key does not carry. */
  datatype Settings = Settings(flags: Flags, filter: Option<Meta>, model: string)

  function Tokens(w: Work): nat {
    match w.usage
    case Some(u) => u.input + u.output
    case None => 0
  }

  function CitationOf(h: Hit, tenant: string): Json {
    Obj(map["chunk_id" := Str(h.id), "chunk_text" := Str(h.text), "score" := Num(h.score),
            CITATION_TENANT_FIELD := Str(tenant)])
  }

  function CoverageJson(c: Coverage): Json {
    Obj(map["dense_only" := Num(c.denseOnly as real), "sparse_only" := Num(c.sparseOnly as real),
            "both" := Num(c.both as real), "jaccard" := Num(c.jaccard)])
  }

  function Citations(hits: seq<Hit>, tenant: string): (r: seq<Json>)
    ensures |r| == |hits|
  {
    seq(|hits|, i requires 0 <= i < |hits| => CitationOf(hits[i], tenant))
  }

  /** The stored object: four fields, none of them the usage. */
  function Body(w: Work, tenant: string): (body: Fields)
    ensures USAGE_FIELD !in body && OwnCitations(body, tenant)
  {
    map["text" := Str(w.text), CITATIONS_FIELD := Arr(Citations(w.hits, tenant)),
        "rerank_timed_out" := Bool(w.timedOut), "coverage" := CoverageJson(w.coverage)]
  }

  // ---- what the caller gets -------------------------------------------------------------------------

  function UsageJson(u: Usage): Json {
    Obj(map["input_tokens" := Num(u.input as real), "output_tokens" := Num(u.output as real)])
  }

  /** What the caller of a miss gets: the stored object, and the usage if there was one. */
  function Returned(w: Work, tenant: string): Fields {
    match w.usage
    case Some(u) => Body(w, tenant)[USAGE_FIELD := UsageJson(u)]
    case None => Body(w, tenant)
  }

  function Count(fields: Fields, name: string): nat {
    if name in fields && fields[name].Num? && fields[name].x >= 0.0 then fields[name].x.Floor else 0
  }

  /** What a caller metering spend reads off any returned object: no usage block means nothing was spent. */
  function Reported(d: Fields): nat {
    if USAGE_FIELD in d && d[USAGE_FIELD].Obj?
    then Count(d[USAGE_FIELD].fields, "input_tokens") + Count(d[USAGE_FIELD].fields, "output_tokens")
    else 0
  }

  /** A miss reports the tokens of its own generation; the object it stored reports none. */
  lemma MissReportsItsTokens(w: Work, tenant: string)
    ensures Reported(Returned(w, tenant)) == Tokens(w) && Reported(Body(w, tenant)) == 0
    ensures Tokens(w) == if w.usage.Some? then w.usage.value.input + w.usage.value.output else 0
  {
  }

  /** What a miss returns, field by field. */
  lemma ReturnedMeans(w: Work, tenant: string)
    ensures var d := Returned(w, tenant);
            && d.Keys == {"text", "citations", "rerank_timed_out", "coverage"}
                         + (if w.usage.Some? then {"usage"} else {})
            && d["text"] == Str(w.text) && d["rerank_timed_out"] == Bool(w.timedOut)
            && d["coverage"] == Obj(map["dense_only" := Num(w.coverage.denseOnly as real),
                                        "sparse_only" := Num(w.coverage.sparseOnly as real),
                                        "both" := Num(w.coverage.both as real), "jaccard" := Num(w.coverage.jaccard)])
            && (w.usage.Some? ==>
                  d["usage"] == Obj(map["input_tokens" := Num(w.usage.value.input as real),
                                        "output_tokens" := Num(w.usage.value.output as real)]))
            && d["citations"] == Body(w, tenant)["citations"]
  {
  }

  /** A stored object gives back everything it was made of but the usage. */
  lemma BodyDetermines(v: Work, w: Work, tenant: string)
    requires Body(v, tenant) == Body(w, tenant)
    ensures v == w.(usage := v.usage)
  {
    var a, b := Body(v, tenant), Body(w, tenant);
    assert a["text"] == b["text"] && a["rerank_timed_out"] == b["rerank_timed_out"];
    assert a["coverage"].fields["dense_only"] == b["coverage"].fields["dense_only"];
    assert a["coverage"].fields["sparse_only"] == b["coverage"].fields["sparse_only"];
    assert a["coverage"].fields["both"] == b["coverage"].fields["both"];
    assert a["coverage"].fields["jaccard"] == b["coverage"].fields["jaccard"];
    CitationsDetermine(v.hits, w.hits, tenant);
  }

  lemma CitationsDetermine(v: seq<Hit>, w: seq<Hit>, tenant: string)
    requires Citations(v, tenant) == Citations(w, tenant)
    ensures v == w
  {
    assert |Citations(v, tenant)| == |v| && |Citations(w, tenant)| == |w|;
    forall i | 0 <= i < |v| ensures v[i] == w[i] {
      var a, b := Citations(v, tenant)[i], Citations(w, tenant)[i];
      assert a == CitationOf(v[i], tenant) && b == CitationOf(w[i], tenant);
      assert a.fields["chunk_id"] == b.fields["chunk_id"] && a.fields["chunk_text"] == b.fields["chunk_text"];
      assert a.fields["score"] == b.fields["score"];
    }
  }

  /** The citations are the context, chunk by chunk. */
  lemma CitationsAreTheContext(w: Work, tenant: string, i: nat)
    requires i < |w.hits|
    ensures var body := Body(w, tenant);
            && body[CITATIONS_FIELD].Arr? && |body[CITATIONS_FIELD].items| == |w.hits|
            && var c := body[CITATIONS_FIELD].items[i];
            && c.Obj? && c.fields.Keys == {"chunk_id", "chunk_text", "score", CITATION_TENANT_FIELD}
            && c.fields["chunk_id"] == Str(w.hits[i].id) && c.fields["chunk_text"] == Str(w.hits[i].text)
            && c.fields["score"] == Num(w.hits[i].score) && c.fields[CITATION_TENANT_FIELD] == Str(tenant)
  {
    assert Citations(w.hits, tenant)[i] == CitationOf(w.hits[i], tenant);
  }
}
