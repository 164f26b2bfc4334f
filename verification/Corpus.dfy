/**
 The `doc_chunks` table (taxcalc-ai/sql/V001__doc_chunks.sql, V002), keyed by its UNIQUE constraint,
 and what the two retrievers may return from it (taxcalc-ai/src/taxcalc_ai/hybrid.py). Ranking is
 left open: a retriever answers with any list its WHERE clause and LIMIT allow.
 */
module Corpus {
  import opened Options
  import opened Chunking
  import opened Fusion

  type Vec = seq<real>

  /** `chunk_metadata`, and what a containment filter asks of it. */
  type Meta = map<string, string>

  datatype Key = Key(doc: string, idx: nat, model: string)

  datatype Row = Row(text: string, vec: Vec, tenant: string, meta: Meta, hash: Option<string>, created: nat)

  type Table = map<Key, Row>

  /** `chunk_metadata @> filter`, for flat string metadata. */
  predicate Contains(meta: Meta, filter: Meta) {
    forall k :: k in filter ==> k in meta && meta[k] == filter[k]
  }

  predicate Passes(row: Row, filter: Option<Meta>) {
    filter.Some? ==> Contains(row.meta, filter.value)
  }

  /** A row passes a filter when merging the filter into its metadata changes nothing; no filter lets all pass. */
  lemma PassesIff(row: Row, filter: Meta)
    ensures Passes(row, None)
    ensures Passes(row, Some(filter)) <==> row.meta + filter == row.meta
  {
    if row.meta + filter == row.meta {
      forall k | k in filter ensures k in row.meta && row.meta[k] == filter[k] {
        assert k in row.meta + filter && (row.meta + filter)[k] == filter[k];
      }
    }
  }

  /** The hit is that row, under the id rebuilt in SQL. */
  predicate Shows(h: Hit, table: Table, key: Key) {
    key in table && h.id == ChunkIdFor(key.doc, key.idx) && h.text == table[key].text
  }

  predicate DistinctKeys(keys: seq<Key>) {
    forall i, j :: 0 <= i < j < |keys| ==> keys[i] != keys[j]
  }

  /** `dense_topk_filtered`: rows of the tenant and the model that pass the filter, each once. */
  predicate DenseAnswer(hits: seq<Hit>, keys: seq<Key>, table: Table,
                        tenant: string, model: string, filter: Option<Meta>, k: nat)
  {
    && |hits| == |keys| <= k && DistinctKeys(keys)
    && forall i :: 0 <= i < |hits| ==>
         Shows(hits[i], table, keys[i]) && DenseRow(table, keys[i], tenant, model, filter)
  }

  predicate DenseRow(table: Table, key: Key, tenant: string, model: string, filter: Option<Meta>)
    requires key in table
  {
    table[key].tenant == tenant && key.model == model && Passes(table[key], filter)
  }

  /** `sparse_topk_fts`: rows of the tenant that match the text query, each once; no model, no filter. */
  predicate SparseAnswer(hits: seq<Hit>, keys: seq<Key>, table: Table,
                         tenant: string, matches: string -> bool, k: nat)
  {
    && |hits| == |keys| <= k && DistinctKeys(keys)
    && forall i :: 0 <= i < |hits| ==>
         Shows(hits[i], table, keys[i]) && table[keys[i]].tenant == tenant && matches(table[keys[i]].text)
  }

  /** One model at a time, a chunk id is a row: dense answers never repeat an id. */
  lemma DenseIdsDistinct(hits: seq<Hit>, keys: seq<Key>, table: Table,
                         tenant: string, model: string, filter: Option<Meta>, k: nat)
    requires DenseAnswer(hits, keys, table, tenant, model, filter, k)
    ensures DistinctIds(hits)
  {
    forall i, j | 0 <= i < j < |hits| ensures hits[i].id != hits[j].id {
      if hits[i].id == hits[j].id {
        ChunkIdInjective(keys[i].doc, keys[i].idx, keys[j].doc, keys[j].idx);
      }
    }
  }

  /** Sparse answers repeat an id exactly when they hold one chunk twice, which takes two models. */
  lemma SparseRepeatsIff(hits: seq<Hit>, keys: seq<Key>, table: Table, tenant: string, matches: string -> bool, k: nat)
    requires SparseAnswer(hits, keys, table, tenant, matches, k)
    ensures !DistinctIds(hits) <==>
            exists i, j :: 0 <= i < j < |keys| && keys[j] == keys[i].(model := keys[j].model)
                           && keys[i].model != keys[j].model
  {
    if !DistinctIds(hits) {
      var i, j :| 0 <= i < j < |hits| && hits[i].id == hits[j].id;
      ChunkIdInjective(keys[i].doc, keys[i].idx, keys[j].doc, keys[j].idx);
      assert keys[i] != keys[j];
    }
    if i, j :| 0 <= i < j < |keys| && keys[j] == keys[i].(model := keys[j].model) {
      assert hits[i].id == hits[j].id;
    }
  }
}
