/**
 Ingesting again: from chunks to candidates to the gate and back.
 */
module Reingest {
  import opened Options
  import opened Decimals
  import opened Chunking
  import opened Corpus
  import opened Loading
  import opened Embedding

  /** Every offered key comes with one text. */
  predicate OneTextPerKey(cs: seq<Candidate>, m: Model) {
    forall c, d :: c in cs && d in cs && KeyOf(c, m) == KeyOf(d, m) ==> c.text == d.text
  }

  /** What a successful ingest leaves under a key something was pending for. */
  lemma StoredAfter(t: Table, cs: seq<Candidate>, m: Model, now: nat, key: Key)
    requires Written(t, cs, m, now).Ok?
    ensures var p := LastCandidate(Pending(t, cs, m), m, key);
            At(Gated(t, cs, m, now), key) ==
              if p.Some? then Some(RowOf(ToLoad(p.value, m), if key in t then t[key].created else now)) else At(t, key)
  {
    LoadedAt(t, Loads(Pending(t, cs, m), m), now, key);
    LastLoad(Pending(t, cs, m), m, key);
  }

  lemma CurrentAfter(t: Table, cs: seq<Candidate>, m: Model, now: nat, c: Candidate)
    requires Written(t, cs, m, now).Ok? && OneTextPerKey(cs, m) && c in cs
    ensures Current(Gated(t, cs, m, now), c, m)
  {
    StoredAfter(t, cs, m, now, KeyOf(c, m));
    if !Current(t, c, m) {
      SomeCandidate(Pending(t, cs, m), m, c);
    }
    assert At(Gated(t, cs, m, now), KeyOf(c, m)).Some?;
  }

  lemma {:induction false} NonePending(t: Table, cs: seq<Candidate>, m: Model)
    requires forall c :: c in cs ==> Current(t, c, m)
    ensures Pending(t, cs, m) == []
  {
    if cs != [] {
      NonePending(t, cs[..|cs| - 1], m);
    }
  }

  /** After a successful ingest the same gate is empty exactly when every offered key comes with one text. */
  lemma SecondGateEmptyIff(t: Table, cs: seq<Candidate>, m: Model, now: nat)
    requires Written(t, cs, m, now).Ok? && Injective(m)
    ensures Pending(Gated(t, cs, m, now), cs, m) == [] <==> OneTextPerKey(cs, m)
  {
    var u := Gated(t, cs, m, now);
    if OneTextPerKey(cs, m) {
      forall c | c in cs ensures Current(u, c, m) {
        CurrentAfter(t, cs, m, now, c);
      }
      NonePending(u, cs, m);
    } else {
      var c, d :| c in cs && d in cs && KeyOf(c, m) == KeyOf(d, m) && c.text != d.text;
      assert c in Pending(u, cs, m) || d in Pending(u, cs, m);
    }
  }

  // ---- the whole ingest ---------------------------------------------------------------------------

  function Present(name: string, value: Option<string>): Meta {
    match value
    case Some(v) => map[name := v]
    case None => map[]
  }

  /** Every metadata key of the chunk survives into `chunk_metadata`. */
  function MetaOf(c: Chunk): Meta {
    c.extra + Present("doc_id", c.docId) + Present("tenant_id", c.tenantId) + Present("chunk_id", c.chunkId)
    + Present("chunk_ordinal", match c.ordinal case Some(n) => Some(Decimal(n)) case None => None)
  }

  /** `candidates_from_chunks`, one by one. */
  function CandidateOf(c: Chunk): Candidate {
    Candidate(
      DocOf(c),
      match c.ordinal case Some(n) => n case None => 0,
      c.text,
      match c.tenantId case Some(t) => t case None => DEFAULT_TENANT_ID,
      MetaOf(c))
  }

  function CandidatesFromChunks(chunks: seq<Chunk>): (r: seq<Candidate>)
    ensures |r| == |chunks|
  {
    seq(|chunks|, i requires 0 <= i < |chunks| => CandidateOf(chunks[i]))
  }

  /** The candidate of a chunk, field by field, with the fallbacks. */
  lemma CandidateMeans(chunks: seq<Chunk>, i: nat)
    requires i < |chunks|
    ensures var c, d := chunks[i], CandidatesFromChunks(chunks)[i];
            && d.text == c.text && d.meta == MetaOf(c)
            && d.doc == (if c.docId.Some? then c.docId.value else "doc-synth-unknown")
            && d.idx == (if c.ordinal.Some? then c.ordinal.value else 0)
            && d.tenant == (if c.tenantId.Some? then c.tenantId.value else "shared")
  {
  }

  /** The four names a chunk's own metadata is stored under. */
  lemma OwnNamesDiffer()
    ensures "doc_id" != "tenant_id" && "doc_id" != "chunk_id" && "doc_id" != "chunk_ordinal"
    ensures "tenant_id" != "chunk_id" && "tenant_id" != "chunk_ordinal" && "chunk_id" != "chunk_ordinal"
  {
    assert "doc_id"[0] == 'd' && "tenant_id"[0] == 't' && "chunk_id"[0] == 'c' && "chunk_ordinal"[0] == 'c';
    assert |"chunk_id"| == 8 && |"chunk_ordinal"| == 13;
  }

  /** The pair is in the mapping. */
  predicate Carries(meta: Meta, name: string, value: string) {
    name in meta && meta[name] == value
  }

  lemma PresentCarries(meta: Meta, name: string, value: Option<string>, k: string)
    ensures value.Some? ==> Carries(meta + Present(name, value), name, value.value)
    ensures k != name ==> (k in meta + Present(name, value) <==> k in meta)
    ensures k != name && k in meta ==> (meta + Present(name, value))[k] == meta[k]
  {
  }

  /** Every metadata key of the chunk survives: its own four, and whatever else it carries. */
  lemma MetadataSurvives(c: Chunk, k: string)
    ensures c.docId.Some? ==> Carries(MetaOf(c), "doc_id", c.docId.value)
    ensures c.tenantId.Some? ==> Carries(MetaOf(c), "tenant_id", c.tenantId.value)
    ensures c.chunkId.Some? ==> Carries(MetaOf(c), "chunk_id", c.chunkId.value)
    ensures c.ordinal.Some? ==> Carries(MetaOf(c), "chunk_ordinal", Decimal(c.ordinal.value))
    ensures k in c.extra && k != "doc_id" && k != "tenant_id" && k != "chunk_id" && k != "chunk_ordinal" ==>
              Carries(MetaOf(c), k, c.extra[k])
  {
    OwnNamesDiffer();
    var ordinal := match c.ordinal case Some(n) => Some(Decimal(n)) case None => None;
    var a := c.extra + Present("doc_id", c.docId);
    var b := a + Present("tenant_id", c.tenantId);
    var d := b + Present("chunk_id", c.chunkId);
    forall name ensures name != "tenant_id" && name in a ==> name in b && b[name] == a[name]
      ensures name != "chunk_id" && name in b ==> name in d && d[name] == b[name]
      ensures name != "chunk_ordinal" && name in d ==> name in MetaOf(c) && MetaOf(c)[name] == d[name]
    {
      PresentCarries(a, "tenant_id", c.tenantId, name);
      PresentCarries(b, "chunk_id", c.chunkId, name);
      PresentCarries(d, "chunk_ordinal", ordinal, name);
    }
    PresentCarries(c.extra, "doc_id", c.docId, k);
    PresentCarries(a, "tenant_id", c.tenantId, k);
    PresentCarries(b, "chunk_id", c.chunkId, k);
    PresentCarries(d, "chunk_ordinal", ordinal, k);
  }

  /** After a successful ingest of one text per key every candidate is in the corpus, as itself. */
  lemma IngestStores(t: Table, cs: seq<Candidate>, m: Model, now: nat, c: Candidate)
    requires Injective(m) && Kept(t, m) && Owned(t, Loads(cs, m)) && OneTextPerKey(cs, m) && c in cs
    ensures var u, key := Gated(t, cs, m, now), Key(c.doc, c.idx, m.name);
            && key in u && u[key].text == c.text && u[key].vec == m.encode(c.text) && u[key].tenant == c.tenant
            && u[key].hash == Some(m.sha(c.text))
  {
    PendingOwned(t, cs, m);
    CurrentAfter(t, cs, m, now, c);
    EmbedKeeps(t, cs, m, now);
    StoredAfter(t, cs, m, now, KeyOf(c, m));
    var p := LastCandidate(Pending(t, cs, m), m, KeyOf(c, m));
    if p.Some? {
      OneTenant(t, cs, m, c, p.value);
    } else {
      var i :| 0 <= i < |cs| && cs[i] == c;
      assert Admits(t, Loads(cs, m)[i]);
    }
  }

  lemma ChunkedKeysDistinct(chunks: seq<Chunk>, m: Model)
    ensures DistinctKeysOf(CandidatesFromChunks(Numbered(chunks)), m)
  {
    forall i, j | 0 <= i < j < |chunks|
      ensures KeyOf(CandidatesFromChunks(Numbered(chunks))[i], m) != KeyOf(CandidatesFromChunks(Numbered(chunks))[j], m)
    {
      KeysDistinct(chunks, i, j);
    }
  }

  lemma DistinctKeysOneText(cs: seq<Candidate>, m: Model)
    requires DistinctKeysOf(cs, m)
    ensures OneTextPerKey(cs, m)
  {
    forall c, d | c in cs && d in cs && KeyOf(c, m) == KeyOf(d, m) ensures c.text == d.text {
      var i :| 0 <= i < |cs| && cs[i] == c;
      var j :| 0 <= j < |cs| && cs[j] == d;
    }
  }

  /** Chunk, gate, embed, load; then all of it again at any later time: nothing is written. */
  lemma ReingestWritesNothing(t: Table, chunks: seq<Chunk>, m: Model, now: nat, later: nat)
    requires Injective(m)
    requires Written(t, CandidatesFromChunks(Numbered(chunks)), m, now).Ok?
    ensures var cs := CandidatesFromChunks(Numbered(chunks));
            var u := Gated(t, cs, m, now);
            Written(u, cs, m, later) == Ok(0) && Gated(u, cs, m, later) == u
  {
    var cs := CandidatesFromChunks(Numbered(chunks));
    ChunkedKeysDistinct(chunks, m);
    DistinctKeysOneText(cs, m);
    SecondGateEmptyIff(t, cs, m, now);
    assert Loads([], m) == [];
  }

  // ---- two texts under one key --------------------------------------------------------------------

  /** The tables after one ingest of the same candidates after another. */
  predicate Repeats(tables: seq<Table>, cs: seq<Candidate>, m: Model) {
    forall k :: 0 < k < |tables| ==> tables[k] == Gated(tables[k - 1], cs, m, k)
  }

  lemma PendingOfTwo(t: Table, a: Candidate, b: Candidate, m: Model)
    ensures Pending(t, [a, b], m) ==
            (if Current(t, a, m) then [] else [a]) + (if Current(t, b, m) then [] else [b])
  {
    assert [a, b][..1] == [a] && [a][..0] == [];
    assert Pending(t, [], m) == [];
    assert Pending(t, [a], m) == if Current(t, a, m) then [] else [a];
  }

  lemma LoadOne(t: Table, r: Load, now: nat)
    ensures Owned(t, [r]) <==> Admits(t, r)
    ensures Loaded(t, [r], now) == Upsert(t, r, now)
  {
    assert [r][0] == r && [r][..0] == [];
  }

  /** One key, one tenant, two texts of different hashes. */
  predicate Rivals(a: Candidate, b: Candidate, m: Model) {
    KeyOf(a, m) == KeyOf(b, m) && a.tenant == b.tenant && m.sha(a.text) != m.sha(b.text)
  }

  /** The row is of the candidates' tenant and current for `c`. */
  predicate Holds(t: Table, c: Candidate, m: Model) {
    KeyOf(c, m) in t && t[KeyOf(c, m)].tenant == c.tenant && Current(t, c, m)
  }

  /** Two candidates for one key: if one is stored, the ingest writes the other. */
  lemma OneFlip(t: Table, a: Candidate, b: Candidate, m: Model, now: nat, x: Candidate, y: Candidate)
    requires Rivals(a, b, m)
    requires (x == a && y == b) || (x == b && y == a)
    requires Holds(t, x, m)
    ensures Written(t, [a, b], m, now) == Ok(1) && Holds(Gated(t, [a, b], m, now), y, m)
    ensures Gated(t, [a, b], m, now)[KeyOf(y, m)].text == y.text
  {
    PendingOfTwo(t, a, b, m);
    assert Pending(t, [a, b], m) == [y];
    assert Loads([y], m) == [ToLoad(y, m)];
    LoadOne(t, ToLoad(y, m), now);
  }

  function Turn(a: Candidate, b: Candidate, n: nat): Candidate {
    if n % 2 == 0 then a else b
  }

  lemma NextTurn(t: Table, a: Candidate, b: Candidate, m: Model, n: nat, now: nat)
    requires Rivals(a, b, m) && Holds(t, Turn(a, b, n), m)
    ensures Written(t, [a, b], m, now) == Ok(1) && Holds(Gated(t, [a, b], m, now), Turn(a, b, n + 1), m)
    ensures Gated(t, [a, b], m, now)[KeyOf(a, m)].text == Turn(a, b, n + 1).text
  {
    OneFlip(t, a, b, m, now, Turn(a, b, n), Turn(a, b, n + 1));
  }

  /** The claim fails without distinct keys: the stored text alternates for ever, one row written every time. */
  lemma {:induction false} AlternatesForEver(tables: seq<Table>, a: Candidate, b: Candidate, m: Model, n: nat)
    requires Rivals(a, b, m) && Repeats(tables, [a, b], m) && n < |tables|
    requires Holds(tables[0], a, m)
    ensures Holds(tables[n], Turn(a, b, n), m) && Written(tables[n], [a, b], m, n + 1) == Ok(1)
    ensures n > 0 ==> tables[n][KeyOf(a, m)].text == Turn(a, b, n).text
  {
    if n > 0 {
      AlternatesForEver(tables, a, b, m, n - 1);
      NextTurn(tables[n - 1], a, b, m, n - 1, n);
    }
    NextTurn(tables[n], a, b, m, n, n + 1);
  }

  // ---- what the gate does not compare -------------------------------------------------------------

  /** Another tenant offering the text already stored is skipped without a word, where the ungated load raises. */
  lemma ForeignCopySkipped(t: Table, c: Candidate, m: Model, now: nat)
    requires KeyOf(c, m) in t && Current(t, c, m) && t[KeyOf(c, m)].tenant != c.tenant
    ensures Written(t, [c], m, now) == Ok(0) && Gated(t, [c], m, now) == t
    ensures Outcome(t, Loads([c], m), now) == Err(CrossTenant(1, 1))
  {
    assert [c][..0] == [];
    assert Pending(t, [c], m) == [];
    assert Loads([], m) == [];
    assert Loads([c], m) == [ToLoad(c, m)] && !Admits(t, Loads([c], m)[0]);
    assert [ToLoad(c, m)][..0] == [];
  }

  /** The candidate's key is another tenant's. */
  predicate Claimed(t: Table, c: Candidate, m: Model) {
    KeyOf(c, m) in t && t[KeyOf(c, m)].tenant != c.tenant
  }

  /** With distinct keys a batch is owned exactly when no candidate's key is another tenant's. */
  lemma OwnedIffUnclaimed(t: Table, cs: seq<Candidate>, ds: seq<Candidate>, m: Model)
    requires DistinctKeysOf(cs, m) && forall d :: d in ds ==> d in cs
    ensures Owned(t, Loads(ds, m)) <==> forall d :: d in ds ==> !Claimed(t, d, m)
  {
    forall i, j | 0 <= i < j < |ds| && KeyOf(ds[i], m) == KeyOf(ds[j], m) ensures ds[i].tenant == ds[j].tenant {
      assert ds[i] in cs && ds[j] in cs;
      SameCandidate(cs, m, ds[i], ds[j]);
    }
    if forall d :: d in ds ==> !Claimed(t, d, m) {
      forall i | 0 <= i < |ds| ensures Admits(t, Loads(ds, m)[i]) {
        assert !Claimed(t, ds[i], m);
      }
    }
    if Owned(t, Loads(ds, m)) {
      forall d | d in ds ensures !Claimed(t, d, m) {
        var i :| 0 <= i < |ds| && ds[i] == d;
        assert Admits(t, Loads(ds, m)[i]);
      }
    }
  }

  lemma SameCandidate(cs: seq<Candidate>, m: Model, c: Candidate, d: Candidate)
    requires DistinctKeysOf(cs, m) && c in cs && d in cs && KeyOf(c, m) == KeyOf(d, m)
    ensures c == d
  {
    var i :| 0 <= i < |cs| && cs[i] == c;
    var j :| 0 <= j < |cs| && cs[j] == d;
  }

  /** So the gate hides a claim exactly when some key is another tenant's and all of those hold the offered text. */
  lemma ForeignSkippedIff(t: Table, cs: seq<Candidate>, m: Model, now: nat)
    requires DistinctKeysOf(cs, m)
    ensures Written(t, cs, m, now).Ok? && Outcome(t, Loads(cs, m), now).Err? <==>
            && (exists c :: c in cs && Claimed(t, c, m))
            && (forall c :: c in cs && Claimed(t, c, m) ==> Current(t, c, m))
  {
    OwnedIffUnclaimed(t, cs, cs, m);
    OwnedIffUnclaimed(t, cs, Pending(t, cs, m), m);
  }

  /** A candidate that brings new metadata for the same text is skipped: the stored metadata stays. */
  lemma MetadataNotRefreshed(t: Table, c: Candidate, m: Model, now: nat)
    requires KeyOf(c, m) in t && Current(t, c, m) && t[KeyOf(c, m)].tenant == c.tenant
    ensures Gated(t, [c], m, now) == t
    ensures Ungated(t, [c], m, now)[KeyOf(c, m)].meta == c.meta
  {
    assert [c][..0] == [];
    assert Pending(t, [c], m) == [];
    assert Loads([], m) == [];
    assert Loads([c], m) == [ToLoad(c, m)];
    assert [ToLoad(c, m)][..0] == [];
  }

  /** The last candidate for a key brings new metadata for the text that is stored. */
  predicate BringsMetaOnly(t: Table, cs: seq<Candidate>, m: Model, c: Candidate) {
    && LastCandidate(cs, m, KeyOf(c, m)) == Some(c)
    && KeyOf(c, m) in t && Current(t, c, m) && t[KeyOf(c, m)].meta != c.meta
  }

  /** The rows under one key where the last candidate is stored already. */
  lemma ExactAtCurrent(t: Table, cs: seq<Candidate>, m: Model, now: nat, last: Candidate)
    requires Injective(m) && Kept(t, m) && Owned(t, Loads(cs, m)) && Current(t, last, m)
    requires LastCandidate(cs, m, KeyOf(last, m)) == Some(last)
    requires LastCandidate(Pending(t, cs, m), m, KeyOf(last, m)).None?
    ensures At(Gated(t, cs, m, now), KeyOf(last, m)) == At(Ungated(t, cs, m, now), KeyOf(last, m)) <==>
            !BringsMetaOnly(t, cs, m, last)
  {
    var key := KeyOf(last, m);
    BothAt(t, cs, m, now, key);
    LastLoad(cs, m, key);
    LastLoad(Pending(t, cs, m), m, key);
    var i :| 0 <= i < |cs| && cs[i] == last;
    assert Admits(t, Loads(cs, m)[i]);
    assert t[key].text == last.text;
  }

  predicate Untouched(t: Table, cs: seq<Candidate>, m: Model, c: Candidate) {
    !FlipsBack(t, cs, m, c) && !BringsMetaOnly(t, cs, m, c)
  }

  lemma ExactAt(t: Table, cs: seq<Candidate>, m: Model, now: nat, key: Key)
    requires Injective(m) && Kept(t, m) && Owned(t, Loads(cs, m))
    ensures At(Gated(t, cs, m, now), key) == At(Ungated(t, cs, m, now), key) <==>
            forall c :: c in cs && KeyOf(c, m) == key ==> Untouched(t, cs, m, c)
  {
    AgreeAt(t, cs, m, now, key);
    var last := LastCandidate(cs, m, key);
    if last.Some? && Current(t, last.value, m) {
      var p := LastCandidate(Pending(t, cs, m), m, key);
      if p.Some? {
        PendingFlipsBack(t, cs, m, last.value, p.value);
      } else {
        ExactAtCurrent(t, cs, m, now, last.value);
      }
    } else {
      SameLastLoad(t, cs, m, now, key);
    }
  }

  lemma PendingFlipsBack(t: Table, cs: seq<Candidate>, m: Model, last: Candidate, p: Candidate)
    requires LastCandidate(cs, m, KeyOf(p, m)) == Some(last) && Current(t, last, m)
    requires p in Pending(t, cs, m)
    ensures FlipsBack(t, cs, m, p)
  {
  }

  /** Where the last candidate is pending, or there is none, both ingests leave the same row. */
  lemma SameLastLoad(t: Table, cs: seq<Candidate>, m: Model, now: nat, key: Key)
    requires Owned(t, Loads(cs, m))
    requires var last := LastCandidate(cs, m, key); last.Some? ==> !Current(t, last.value, m)
    ensures At(Gated(t, cs, m, now), key) == At(Ungated(t, cs, m, now), key)
    ensures forall c :: c in cs && KeyOf(c, m) == key ==> Untouched(t, cs, m, c)
  {
    BothAt(t, cs, m, now, key);
    LastLoad(cs, m, key);
    LastLoad(Pending(t, cs, m), m, key);
    LastPending(t, cs, m, key);
    NonePendingFor(t, cs, m, key);
  }

  lemma NonePendingFor(t: Table, cs: seq<Candidate>, m: Model, key: Key)
    ensures LastCandidate(cs, m, key).None? ==> LastCandidate(Pending(t, cs, m), m, key).None?
  {
    var p := LastCandidate(Pending(t, cs, m), m, key);
    if p.Some? {
      SomeCandidate(cs, m, p.value);
    }
  }

  /**
   All columns: the gated ingest leaves exactly the table of the ungated one if and only if no key
   flips back to a stored text and none brings new metadata for one.
   */
  lemma GateExactIff(t: Table, cs: seq<Candidate>, m: Model, now: nat)
    requires Injective(m) && Kept(t, m) && Owned(t, Loads(cs, m))
    ensures Gated(t, cs, m, now) == Ungated(t, cs, m, now) <==>
            forall c :: c in cs ==> !FlipsBack(t, cs, m, c) && !BringsMetaOnly(t, cs, m, c)
  {
    var g, u := Gated(t, cs, m, now), Ungated(t, cs, m, now);
    forall key
      ensures At(g, key) == At(u, key) <==> forall c :: c in cs && KeyOf(c, m) == key ==> Untouched(t, cs, m, c)
    {
      ExactAt(t, cs, m, now, key);
    }
    if forall c :: c in cs ==> Untouched(t, cs, m, c) {
      SameEverywhere(g, u);
    }
    if c :| c in cs && !Untouched(t, cs, m, c) {
      assert At(g, KeyOf(c, m)) != At(u, KeyOf(c, m));
    }
  }

  /** Gated or not, an ingest fails exactly when what it sends meets another tenant's key; the gate only sends less. */
  lemma GateFailsIff(t: Table, cs: seq<Candidate>, m: Model, now: nat)
    ensures Written(t, cs, m, now).Err? <==> !Owned(t, Loads(Pending(t, cs, m), m))
    ensures Written(t, cs, m, now).Err? ==> Outcome(t, Loads(cs, m), now).Err? && Gated(t, cs, m, now) == t
  {
    if Owned(t, Loads(cs, m)) {
      PendingOwned(t, cs, m);
    }
  }
}
