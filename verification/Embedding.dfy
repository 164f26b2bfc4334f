/**
 The re-embed gate (taxcalc-ai/src/taxcalc_ai/embedder.py): candidates whose stored hash is current
 are neither embedded nor written. Content hash and encoder are any functions of the text.
 */
module Embedding {
  import opened Options
  import opened Chunking
  import opened Corpus
  import opened Loading

  datatype Candidate = Candidate(doc: string, idx: nat, text: string, tenant: string, meta: Meta)

  /** The model of one ingest: its name, its content hash and its encoder. */
  datatype Model = Model(name: string, sha: string -> string, encode: string -> Vec)

  function KeyOf(c: Candidate, m: Model): Key {
    Key(c.doc, c.idx, m.name)
  }

  /** What the gate's one query finds under the candidate's key; the tenant is not asked for. */
  function StoredHash(t: Table, c: Candidate, m: Model): Option<string> {
    if KeyOf(c, m) in t then t[KeyOf(c, m)].hash else None
  }

  predicate Current(t: Table, c: Candidate, m: Model) {
    StoredHash(t, c, m) == Some(m.sha(c.text))
  }

  /** `pending_candidates`: the candidates that are not current, in order. */
  function Pending(t: Table, cs: seq<Candidate>, m: Model): (r: seq<Candidate>)
    ensures forall c :: c in r <==> c in cs && !Current(t, c, m)
  {
    if cs == [] then []
    else
      var n := |cs| - 1;
      assert cs == cs[..n] + [cs[n]];
      var front := Pending(t, cs[..n], m);
      if Current(t, cs[n], m) then front else front + [cs[n]]
  }

  function ToLoad(c: Candidate, m: Model): Load {
    Load(KeyOf(c, m), c.text, m.encode(c.text), c.tenant, c.meta, Some(m.sha(c.text)))
  }

  function Loads(cs: seq<Candidate>, m: Model): (r: seq<Load>)
    ensures |r| == |cs| && forall i :: 0 <= i < |cs| ==> r[i] == ToLoad(cs[i], m)
  {
    seq(|cs|, i requires 0 <= i < |cs| => ToLoad(cs[i], m))
  }

  /** `embed_pending`, and the ingest without the gate it stands for. */
  function Gated(t: Table, cs: seq<Candidate>, m: Model, now: nat): Table {
    Committed(t, Loads(Pending(t, cs, m), m), now)
  }

  function Ungated(t: Table, cs: seq<Candidate>, m: Model, now: nat): Table {
    Committed(t, Loads(cs, m), now)
  }

  function Written(t: Table, cs: seq<Candidate>, m: Model, now: nat): Result<nat, Loading.Error> {
    Outcome(t, Loads(Pending(t, cs, m), m), now)
  }

  /** Gate, encode, load. With nothing pending no model is built and nothing is sent. */
  method EmbedPending(db: Database, cs: seq<Candidate>, m: Model) returns (r: Result<nat, Loading.Error>)
    modifies db`table
    ensures r == Written(old(db.table), cs, m, db.now) && db.table == Gated(old(db.table), cs, m, db.now)
    ensures r.Ok? ==> r.value == |Pending(old(db.table), cs, m)|
    ensures r.Err? ==> db.table == old(db.table)
  {
    var pending := Pending(db.table, cs, m);
    if pending == [] {
      return Ok(0);
    }
    r := db.LoadRows(Loads(pending, m));
  }

  // ---- the gate against re-embedding everything ---------------------------------------------------

  ghost predicate Injective(m: Model) {
    forall a, b :: m.sha(a) == m.sha(b) ==> a == b
  }

  /** A stored hash is that of the stored text, and then the vector is that text's. */
  predicate Kept(t: Table, m: Model) {
    forall key :: key in t && key.model == m.name && t[key].hash.Some? ==>
      t[key].hash.value == m.sha(t[key].text) && t[key].vec == m.encode(t[key].text)
  }

  /** The columns the gate answers for: not the metadata, which it never compares. */
  predicate SameRow(a: Option<Row>, b: Option<Row>) {
    match (a, b)
    case (Some(x), Some(y)) => x.(meta := y.meta) == y
    case (None, None) => true
    case _ => false
  }

  ghost predicate SameTables(t: Table, u: Table) {
    forall key :: SameRow(At(t, key), At(u, key))
  }

  /** The last candidate for a key. */
  function LastCandidate(cs: seq<Candidate>, m: Model, key: Key): (r: Option<Candidate>)
    ensures r.Some? ==> r.value in cs && KeyOf(r.value, m) == key
    ensures r.None? ==> forall i :: 0 <= i < |cs| ==> KeyOf(cs[i], m) != key
  {
    if cs == [] then None
    else if KeyOf(cs[|cs| - 1], m) == key then Some(cs[|cs| - 1])
    else LastCandidate(cs[..|cs| - 1], m, key)
  }

  lemma {:induction false} LastLoad(cs: seq<Candidate>, m: Model, key: Key)
    ensures LastFor(Loads(cs, m), key) ==
            match LastCandidate(cs, m, key) { case Some(c) => Some(ToLoad(c, m)) case None => None }
  {
    if cs != [] {
      var n := |cs| - 1;
      assert Loads(cs, m)[..n] == Loads(cs[..n], m);
      LastLoad(cs[..n], m, key);
    }
  }

  /** The last pending candidate for a key is the last candidate unless that one is current. */
  lemma {:induction false} LastPending(t: Table, cs: seq<Candidate>, m: Model, key: Key)
    ensures var last := LastCandidate(cs, m, key);
            last.Some? && !Current(t, last.value, m) ==> LastCandidate(Pending(t, cs, m), m, key) == last
  {
    if cs != [] {
      var n := |cs| - 1;
      LastPending(t, cs[..n], m, key);
      if !Current(t, cs[n], m) {
        LastOfMore(Pending(t, cs[..n], m), cs[n], m, key);
      }
    }
  }

  lemma LastOfMore(cs: seq<Candidate>, c: Candidate, m: Model, key: Key)
    ensures LastCandidate(cs + [c], m, key) == if KeyOf(c, m) == key then Some(c) else LastCandidate(cs, m, key)
  {
    assert (cs + [c])[..|cs|] == cs;
  }

  lemma SomeCandidate(cs: seq<Candidate>, m: Model, c: Candidate)
    requires c in cs
    ensures LastCandidate(cs, m, KeyOf(c, m)).Some?
  {
    var i :| 0 <= i < |cs| && cs[i] == c;
  }

  /** Some earlier candidate of a key has another text than the last one, which is stored already. */
  predicate FlipsBack(t: Table, cs: seq<Candidate>, m: Model, c: Candidate) {
    c in cs && var last := LastCandidate(cs, m, KeyOf(c, m));
    last.Some? && Current(t, last.value, m) && c.text != last.value.text
  }

  lemma PendingOwned(t: Table, cs: seq<Candidate>, m: Model)
    requires Owned(t, Loads(cs, m))
    ensures Owned(t, Loads(Pending(t, cs, m), m))
  {
    var p := Pending(t, cs, m);
    forall i | 0 <= i < |p| ensures Admits(t, Loads(p, m)[i]) {
      assert p[i] in cs;
      var j :| 0 <= j < |cs| && cs[j] == p[i];
      assert Admits(t, Loads(cs, m)[j]);
    }
    forall i, j | 0 <= i < j < |p| && KeyOf(p[i], m) == KeyOf(p[j], m) ensures p[i].tenant == p[j].tenant {
      assert p[i] in cs && p[j] in cs;
      OneTenant(t, cs, m, p[i], p[j]);
    }
  }

  lemma OneTenant(t: Table, cs: seq<Candidate>, m: Model, c: Candidate, d: Candidate)
    requires Owned(t, Loads(cs, m)) && c in cs && d in cs && KeyOf(c, m) == KeyOf(d, m)
    ensures c.tenant == d.tenant
  {
    var i :| 0 <= i < |cs| && cs[i] == c;
    var j :| 0 <= j < |cs| && cs[j] == d;
    assert Loads(cs, m)[i].key == Loads(cs, m)[j].key;
  }

  /** What the two ingests leave under one key. */
  lemma BothAt(t: Table, cs: seq<Candidate>, m: Model, now: nat, key: Key)
    requires Owned(t, Loads(cs, m))
    ensures At(Ungated(t, cs, m, now), key) == Settled(t, Loads(cs, m), now, key)
    ensures At(Gated(t, cs, m, now), key) == Settled(t, Loads(Pending(t, cs, m), m), now, key)
  {
    PendingOwned(t, cs, m);
    LoadedAt(t, Loads(cs, m), now, key);
    LoadedAt(t, Loads(Pending(t, cs, m), m), now, key);
    assert Loads([], m) == [];
  }

  lemma AgreeAt(t: Table, cs: seq<Candidate>, m: Model, now: nat, key: Key)
    requires Injective(m) && Kept(t, m) && Owned(t, Loads(cs, m))
    ensures SameRow(At(Gated(t, cs, m, now), key), At(Ungated(t, cs, m, now), key)) <==>
            forall c :: c in cs && KeyOf(c, m) == key ==> !FlipsBack(t, cs, m, c)
  {
    BothAt(t, cs, m, now, key);
    LastLoad(cs, m, key);
    LastLoad(Pending(t, cs, m), m, key);
    LastPending(t, cs, m, key);
    var last := LastCandidate(cs, m, key);
    if last.Some? {
      AgreeAtOffered(t, cs, m, now, key, last.value);
    }
  }

  lemma AgreeAtOffered(t: Table, cs: seq<Candidate>, m: Model, now: nat, key: Key, last: Candidate)
    requires Injective(m) && Kept(t, m) && Owned(t, Loads(cs, m))
    requires LastCandidate(cs, m, key) == Some(last)
    requires !Current(t, last, m) ==> LastCandidate(Pending(t, cs, m), m, key) == Some(last)
    ensures SameRow(Settled(t, Loads(Pending(t, cs, m), m), now, key), Settled(t, Loads(cs, m), now, key)) <==>
            forall c :: c in cs && KeyOf(c, m) == key ==> !FlipsBack(t, cs, m, c)
  {
    LastLoad(cs, m, key);
    LastLoad(Pending(t, cs, m), m, key);
    if Current(t, last, m) {
      var i :| 0 <= i < |cs| && cs[i] == last;
      assert Admits(t, Loads(cs, m)[i]);
      assert t[key].text == last.text;
      var p := LastCandidate(Pending(t, cs, m), m, key);
      if p.Some? {
        assert FlipsBack(t, cs, m, p.value);
      }
      if c :| c in cs && KeyOf(c, m) == key && FlipsBack(t, cs, m, c) {
        SomeCandidate(Pending(t, cs, m), m, c);
      }
    }
  }

  /**
   The gate refines the ungated load, metadata aside, exactly when no key is offered whose last text
   is stored already and whose earlier texts differ.
   */
  lemma GateRefinesIff(t: Table, cs: seq<Candidate>, m: Model, now: nat)
    requires Injective(m) && Kept(t, m) && Owned(t, Loads(cs, m))
    ensures SameTables(Gated(t, cs, m, now), Ungated(t, cs, m, now)) <==>
            forall c :: c in cs ==> !FlipsBack(t, cs, m, c)
  {
    forall key
      ensures SameRow(At(Gated(t, cs, m, now), key), At(Ungated(t, cs, m, now), key)) <==>
              forall c :: c in cs && KeyOf(c, m) == key ==> !FlipsBack(t, cs, m, c)
    {
      AgreeAt(t, cs, m, now, key);
    }
    if c :| c in cs && FlipsBack(t, cs, m, c) {
      var key := KeyOf(c, m);
      assert !SameRow(At(Gated(t, cs, m, now), key), At(Ungated(t, cs, m, now), key));
    }
  }

  predicate DistinctKeysOf(cs: seq<Candidate>, m: Model) {
    forall i, j :: 0 <= i < j < |cs| ==> KeyOf(cs[i], m) != KeyOf(cs[j], m)
  }

  /** So with distinct keys it always does. */
  lemma GateRefines(t: Table, cs: seq<Candidate>, m: Model, now: nat)
    requires Injective(m) && Kept(t, m) && Owned(t, Loads(cs, m)) && DistinctKeysOf(cs, m)
    ensures SameTables(Gated(t, cs, m, now), Ungated(t, cs, m, now))
  {
    forall c | c in cs ensures !FlipsBack(t, cs, m, c) {
      var last := LastCandidate(cs, m, KeyOf(c, m));
      if last.Some? {
        var i :| 0 <= i < |cs| && cs[i] == c;
        var j :| 0 <= j < |cs| && cs[j] == last.value;
      }
    }
    GateRefinesIff(t, cs, m, now);
  }

  /** Gated or not, failed or not, an ingest keeps hashes and vectors true to the texts. */
  lemma {:induction false} LoadKeeps(t: Table, rows: seq<Load>, m: Model, now: nat)
    requires Kept(t, m)
    requires forall i :: 0 <= i < |rows| ==>
               rows[i].hash == Some(m.sha(rows[i].text)) && rows[i].vec == m.encode(rows[i].text)
    ensures Kept(Loaded(t, rows, now), m)
  {
    if rows != [] {
      LoadKeeps(t, rows[..|rows| - 1], m, now);
    }
  }

  lemma EmbedKeeps(t: Table, cs: seq<Candidate>, m: Model, now: nat)
    requires Kept(t, m)
    ensures Kept(Gated(t, cs, m, now), m) && Kept(Ungated(t, cs, m, now), m)
  {
    LoadKeeps(t, Loads(cs, m), m, now);
    LoadKeeps(t, Loads(Pending(t, cs, m), m), m, now);
  }
}
