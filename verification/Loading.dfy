/**
 `load_rows` (taxcalc-ai/src/taxcalc_ai/pgvector_loader.py): a batch of upserts guarded by the
 tenant, counted, and committed or rolled back as a whole.
 */
module Loading {
  import opened Options
  import opened Corpus

  /** A `CorpusRow`: what is sent, without what the database adds. */
  datatype Load = Load(key: Key, text: string, vec: Vec, tenant: string, meta: Meta, hash: Option<string>)

  /** `CrossTenantDocIdError`: how many of how many rows the guard suppressed. */
  datatype Error = CrossTenant(suppressed: nat, sent: nat)

  function RowOf(r: Load, created: nat): Row {
    Row(r.text, r.vec, r.tenant, r.meta, r.hash, created)
  }

  /** The guard: the key is free, or the same tenant's. */
  predicate Admits(t: Table, r: Load) {
    r.key in t ==> t[r.key].tenant == r.tenant
  }

  /** INSERT, or DO UPDATE of everything but the tenant and the time of arrival, or nothing. */
  function Upsert(t: Table, r: Load, now: nat): Table {
    if r.key !in t then t[r.key := RowOf(r, now)]
    else if t[r.key].tenant == r.tenant then
      t[r.key := t[r.key].(text := r.text, vec := r.vec, meta := r.meta, hash := r.hash)]
    else t
  }

  /** The left-to-right fold of the batch. */
  function Loaded(t: Table, rows: seq<Load>, now: nat): Table {
    if rows == [] then t
    else Upsert(Loaded(t, rows[..|rows| - 1], now), rows[|rows| - 1], now)
  }

  /** How many rows inserted or updated. */
  function Affected(t: Table, rows: seq<Load>, now: nat): (n: nat)
    ensures n <= |rows|
  {
    if rows == [] then 0
    else
      var front, last := rows[..|rows| - 1], rows[|rows| - 1];
      Affected(t, front, now) + if Admits(Loaded(t, front, now), last) then 1 else 0
  }

  /** No key of the batch belongs to another tenant, in the table or within the batch. */
  predicate Owned(t: Table, rows: seq<Load>) {
    && (forall i :: 0 <= i < |rows| ==> Admits(t, rows[i]))
    && (forall i, j :: 0 <= i < j < |rows| && rows[i].key == rows[j].key ==> rows[i].tenant == rows[j].tenant)
  }

  /** The last row of the batch for a key. */
  function LastFor(rows: seq<Load>, key: Key): (r: Option<Load>)
    ensures r.Some? ==> r.value in rows && r.value.key == key
    ensures r.None? ==> forall i :: 0 <= i < |rows| ==> rows[i].key != key
  {
    if rows == [] then None
    else if rows[|rows| - 1].key == key then Some(rows[|rows| - 1])
    else LastFor(rows[..|rows| - 1], key)
  }

  lemma OwnedFront(t: Table, rows: seq<Load>)
    requires rows != [] && Owned(t, rows)
    ensures Owned(t, rows[..|rows| - 1])
  {
    var front := rows[..|rows| - 1];
    assert forall i :: 0 <= i < |front| ==> front[i] == rows[i];
  }

  /** Nobody's tenant or time of arrival changes, and nothing is deleted. */
  predicate Extends(t: Table, u: Table) {
    forall key :: key in t ==> key in u && u[key].tenant == t[key].tenant && u[key].created == t[key].created
  }

  lemma {:induction false} LoadedExtends(t: Table, rows: seq<Load>, now: nat)
    ensures Extends(t, Loaded(t, rows, now))
  {
    if rows != [] {
      LoadedExtends(t, rows[..|rows| - 1], now);
    }
  }

  /** What an owned batch leaves under each key: the last row sent for it, or what was there. */
  function Settled(t: Table, rows: seq<Load>, now: nat, key: Key): Option<Row> {
    match LastFor(rows, key)
    case Some(r) => Some(RowOf(r, if key in t then t[key].created else now))
    case None => if key in t then Some(t[key]) else None
  }

  function At(t: Table, key: Key): Option<Row> {
    if key in t then Some(t[key]) else None
  }

  lemma {:induction false} LoadedAt(t: Table, rows: seq<Load>, now: nat, key: Key)
    requires Owned(t, rows)
    ensures At(Loaded(t, rows, now), key) == Settled(t, rows, now, key)
  {
    if rows != [] {
      var front, last := rows[..|rows| - 1], rows[|rows| - 1];
      OwnedFront(t, rows);
      LoadedAt(t, front, now, key);
      LoadedAt(t, front, now, last.key);
      SameTenantAsLast(t, rows, now);
    }
  }

  lemma SameTenantAsLast(t: Table, rows: seq<Load>, now: nat)
    requires rows != [] && Owned(t, rows)
    requires var front, last := rows[..|rows| - 1], rows[|rows| - 1];
             At(Loaded(t, front, now), last.key) == Settled(t, front, now, last.key)
    ensures Admits(Loaded(t, rows[..|rows| - 1], now), rows[|rows| - 1])
  {
    var front, last := rows[..|rows| - 1], rows[|rows| - 1];
    var before := LastFor(front, last.key);
    if before.Some? {
      var i :| 0 <= i < |front| && front[i] == before.value;
      assert rows[i] == front[i];
    } else {
      assert Admits(t, last);
    }
  }

  /** What an owned batch leaves under a key it sends, column by column; keys it does not send stay as they were. */
  lemma LoadedColumns(t: Table, rows: seq<Load>, now: nat, key: Key)
    requires Owned(t, rows)
    ensures LastFor(rows, key).None? ==> At(Loaded(t, rows, now), key) == At(t, key)
    ensures LastFor(rows, key).Some? ==>
              var r, u := LastFor(rows, key).value, Loaded(t, rows, now);
              && key in u && u[key].text == r.text && u[key].vec == r.vec && u[key].meta == r.meta
              && u[key].hash == r.hash && u[key].tenant == r.tenant
              && u[key].created == if key in t then t[key].created else now
  {
    LoadedAt(t, rows, now, key);
  }

  /** The last row sent for a key is one after which none is. */
  lemma {:induction false} LastForIs(rows: seq<Load>, i: nat)
    requires i < |rows| && forall j :: i < j < |rows| ==> rows[j].key != rows[i].key
    ensures LastFor(rows, rows[i].key) == Some(rows[i])
  {
    var n := |rows| - 1;
    if i < n {
      assert forall j :: i < j < n ==> rows[..n][j] == rows[j];
      LastForIs(rows[..n], i);
    }
  }

  /** Every row counts exactly when the batch is owned. */
  lemma {:induction false} AllCountIff(t: Table, rows: seq<Load>, now: nat)
    ensures Affected(t, rows, now) == |rows| <==> Owned(t, rows)
  {
    if rows != [] {
      var front, last := rows[..|rows| - 1], rows[|rows| - 1];
      AllCountIff(t, front, now);
      if Owned(t, rows) {
        OwnedFront(t, rows);
        LoadedAt(t, front, now, last.key);
        SameTenantAsLast(t, rows, now);
      } else if Affected(t, rows, now) == |rows| {
        LoadedAt(t, front, now, last.key);
        StillOwned(t, rows, now);
      }
    }
  }

  lemma StillOwned(t: Table, rows: seq<Load>, now: nat)
    requires rows != []
    requires var front, last := rows[..|rows| - 1], rows[|rows| - 1];
             && Owned(t, front) && Admits(Loaded(t, front, now), last)
    ensures Owned(t, rows)
  {
    var front, last := rows[..|rows| - 1], rows[|rows| - 1];
    LoadedExtends(t, front, now);
    forall i | 0 <= i < |rows| ensures Admits(t, rows[i]) {
      assert i < |front| ==> Admits(t, front[i]);
    }
    forall i | 0 <= i < |front| && front[i].key == last.key ensures front[i].tenant == last.tenant {
      HeldByTenant(t, front, now, i);
    }
    forall i, j | 0 <= i < j < |rows| && rows[i].key == rows[j].key ensures rows[i].tenant == rows[j].tenant {
      assert rows[i] == front[i];
      assert j < |front| ==> rows[j] == front[j];
    }
  }

  /** A loaded key is held by the tenant of any row sent for it. */
  lemma HeldByTenant(t: Table, rows: seq<Load>, now: nat, i: nat)
    requires Owned(t, rows) && i < |rows|
    ensures rows[i].key in Loaded(t, rows, now) && Loaded(t, rows, now)[rows[i].key].tenant == rows[i].tenant
  {
    var key := rows[i].key;
    LoadedAt(t, rows, now, key);
    var last := LastFor(rows, key).value;
    var j :| 0 <= j < |rows| && rows[j] == last;
    assert i < j || j < i || i == j;
  }

  // ---- how many are suppressed --------------------------------------------------------------------

  /** The first row of the batch for a key. */
  function FirstFor(rows: seq<Load>, key: Key): (r: Option<Load>)
    ensures r.Some? <==> exists i :: 0 <= i < |rows| && rows[i].key == key
  {
    if rows == [] then None
    else
      var n := |rows| - 1;
      var before := FirstFor(rows[..n], key);
      if before.Some? then before else if rows[n].key == key then Some(rows[n]) else None
  }

  /** Whose a key is: the tenant's that holds it in the table, or else the first in the batch to send it. */
  function Owner(t: Table, rows: seq<Load>, key: Key): Option<string> {
    if key in t then Some(t[key].tenant)
    else
      match FirstFor(rows, key)
      case Some(r) => Some(r.tenant)
      case None => None
  }

  lemma {:induction false} OwnerAfter(t: Table, rows: seq<Load>, now: nat, key: Key)
    ensures match At(Loaded(t, rows, now), key) { case Some(row) => Some(row.tenant) case None => None } ==
            Owner(t, rows, key)
  {
    if rows != [] {
      OwnerAfter(t, rows[..|rows| - 1], now, key);
    }
  }

  /** The rows that claim a key somebody else owns. */
  ghost function Claims(t: Table, rows: seq<Load>): set<nat> {
    set i: nat | i < |rows| && Owner(t, rows, rows[i].key) != Some(rows[i].tenant)
  }

  lemma OwnerOfEarlier(t: Table, rows: seq<Load>, i: nat)
    requires i < |rows| - 1
    ensures Owner(t, rows, rows[i].key) == Owner(t, rows[..|rows| - 1], rows[..|rows| - 1][i].key)
  {
    assert rows[..|rows| - 1][i] == rows[i];
  }

  lemma ClaimsStep(t: Table, rows: seq<Load>)
    requires rows != []
    ensures var n := |rows| - 1;
            Claims(t, rows) == Claims(t, rows[..n])
                               + if Owner(t, rows, rows[n].key) != Some(rows[n].tenant) then {n} else {}
  {
    forall i: nat | i < |rows| - 1
      ensures Owner(t, rows, rows[i].key) == Owner(t, rows[..|rows| - 1], rows[..|rows| - 1][i].key)
    {
      OwnerOfEarlier(t, rows, i);
    }
  }

  lemma AdmittedIffOwner(t: Table, rows: seq<Load>, now: nat)
    requires rows != []
    ensures var front, last := rows[..|rows| - 1], rows[|rows| - 1];
            Admits(Loaded(t, front, now), last) <==> Owner(t, rows, last.key) == Some(last.tenant)
  {
    OwnerAfter(t, rows[..|rows| - 1], now, rows[|rows| - 1].key);
  }

  /** The guard suppresses exactly those: a tenant loses a row if and only if the key is another's. */
  lemma {:induction false} SuppressedAreClaims(t: Table, rows: seq<Load>, now: nat)
    ensures |rows| - Affected(t, rows, now) == |Claims(t, rows)|
  {
    if rows != [] {
      var n := |rows| - 1;
      SuppressedAreClaims(t, rows[..n], now);
      AdmittedIffOwner(t, rows, now);
      ClaimsStep(t, rows);
    }
  }

  // ---- the call -----------------------------------------------------------------------------------

  function Outcome(t: Table, rows: seq<Load>, now: nat): Result<nat, Error> {
    if Owned(t, rows) then Ok(|rows|) else Err(CrossTenant(|rows| - Affected(t, rows, now), |rows|))
  }

  /** All or nothing: the whole fold if the batch is owned, the table as it was otherwise. */
  function Committed(t: Table, rows: seq<Load>, now: nat): Table {
    if Owned(t, rows) then Loaded(t, rows, now) else t
  }

  class Database {
    var table: Table
    var now: nat

    constructor ()
      ensures table == map[]
    {
      table, now := map[], 0;
    }

    /** One transaction: every row in turn, the count, then commit or rollback. */
    method LoadRows(rows: seq<Load>) returns (r: Result<nat, Error>)
      modifies this`table
      ensures r == Outcome(old(table), rows, now) && table == Committed(old(table), rows, now)
      ensures r.Ok? <==> Owned(old(table), rows)
      ensures r.Ok? ==> r.value == |rows| && table == Loaded(old(table), rows, now)
      ensures r.Err? ==> table == old(table)
      ensures r.Err? ==> r.error.sent == |rows| && 0 < r.error.suppressed == |Claims(old(table), rows)|
    {
      if rows == [] {
        return Ok(0);
      }
      var before := table;
      var affected := 0;
      for i := 0 to |rows|
        invariant table == Loaded(before, rows[..i], now) && affected == Affected(before, rows[..i], now)
      {
        assert rows[..i + 1][..i] == rows[..i];
        affected := affected + if Admits(table, rows[i]) then 1 else 0;
        table := Upsert(table, rows[i], now);
      }
      assert rows[..|rows|] == rows;
      AllCountIff(before, rows, now);
      SuppressedAreClaims(before, rows, now);
      if affected != |rows| {
        table := before;
        return Err(CrossTenant(|rows| - affected, |rows|));
      }
      r := Ok(|rows|);
    }
  }

  /** Running a successful load again, at any later time, succeeds and changes nothing, repeated keys included. */
  lemma ReloadChangesNothing(t: Table, rows: seq<Load>, now: nat, later: nat)
    requires Outcome(t, rows, now).Ok?
    ensures var u := Committed(t, rows, now);
            Outcome(u, rows, later) == Outcome(t, rows, now) && Committed(u, rows, later) == u
  {
    var u := Loaded(t, rows, now);
    forall i | 0 <= i < |rows| ensures Admits(u, rows[i]) {
      HeldByTenant(t, rows, now, i);
    }
    var v := Loaded(u, rows, later);
    forall key ensures At(v, key) == At(u, key) {
      LoadedAt(t, rows, now, key);
      LoadedAt(u, rows, later, key);
    }
    SameEverywhere(u, v);
  }

  lemma SameEverywhere(t: Table, u: Table)
    requires forall key :: At(t, key) == At(u, key)
    ensures t == u
  {
    forall key ensures key in t <==> key in u {
      assert At(t, key) == At(u, key);
    }
    forall key | key in t ensures t[key] == u[key] {
      assert At(t, key) == At(u, key);
    }
  }

  // ---- runs of loads ------------------------------------------------------------------------------

  /** The table after a sequence of loads, the i-th at time `from + i`. */
  function AfterLoads(t: Table, batches: seq<seq<Load>>, from: nat): Table {
    if batches == [] then t
    else
      var n := |batches| - 1;
      Committed(AfterLoads(t, batches[..n], from), batches[n], from + n)
  }

  /** Over every run, failed loads included, a key once taken keeps its owner and its time of arrival. */
  lemma {:induction false} OwnerNeverChanges(t: Table, batches: seq<seq<Load>>, from: nat)
    ensures Extends(t, AfterLoads(t, batches, from))
  {
    if batches != [] {
      var n := |batches| - 1;
      OwnerNeverChanges(t, batches[..n], from);
      LoadedExtends(AfterLoads(t, batches[..n], from), batches[n], from + n);
    }
  }
}
