/**
 The semantic cache (taxcalc-ai/src/taxcalc_ai/cache.py): Redis as a map with expiry, one epoch
 counter per tenant, answers as JSON objects. Each operation is given as a function of the cache,
 and the methods of `Redis` carry them out on the shared store.
 */
module SemanticCache {
  import opened Options
  import opened CacheKeys

  const DEFAULT_TTL_SECONDS: nat := 3600
  const CITATIONS_FIELD: string := "citations"
  const CITATION_TENANT_FIELD: string := "tenant_id"

  datatype Json =
    | Null
    | Bool(b: bool)
    | Num(x: real)
    | Str(s: string)
    | Arr(items: seq<Json>)
    | Obj(fields: map<string, Json>)

  type Fields = map<string, Json>

  /** A key holds an integer without expiry or a serialised answer that dies at `expires`. */
  datatype Slot = Counter(n: nat) | Payload(body: Fields, expires: nat)

  datatype Cache = Cache(store: map<string, Slot>, now: nat)

  predicate IsEpochKey(key: string) {
    EPOCH_PREFIX <= key
  }

  /** Counters live under epoch keys and nowhere else. */
  ghost predicate WellKept(c: Cache) {
    forall key :: key in c.store ==> (c.store[key].Counter? <==> IsEpochKey(key))
  }

  lemma BucketIsNoCounter(v: Vector, tenant: string, epoch: nat, sha: seq<int> -> Digest)
    ensures !IsEpochKey(BucketKey(v, tenant, epoch, sha))
  {
    assert BucketKey(v, tenant, epoch, sha)[11] == 's';
    assert EPOCH_PREFIX[11] == 'c';
  }

  function Get(c: Cache, key: string): Option<Slot> {
    if key in c.store && (c.store[key].Payload? ==> c.now < c.store[key].expires) then Some(c.store[key]) else None
  }

  function Epoch(c: Cache, tenant: string): nat {
    match Get(c, EpochKey(tenant))
    case Some(Counter(n)) => n
    case _ => 0
  }

  function Bumped(c: Cache, tenant: string): Cache {
    c.(store := c.store[EpochKey(tenant) := Counter(Epoch(c, tenant) + 1)])
  }

  /** Where a query of this tenant is looked up and stored right now. */
  function SlotOf(c: Cache, v: Vector, tenant: string, sha: seq<int> -> Digest): string {
    BucketKey(v, tenant, Epoch(c, tenant), sha)
  }

  /** A citation that does not carry the requesting tenant. */
  predicate Foreign(citation: Json, tenant: string) {
    && citation.Obj?
    && (CITATION_TENANT_FIELD in citation.fields ==> citation.fields[CITATION_TENANT_FIELD] != Str(tenant))
  }

  predicate OwnCitations(body: Fields, tenant: string) {
    CITATIONS_FIELD in body && body[CITATIONS_FIELD].Arr? ==>
      forall i :: 0 <= i < |body[CITATIONS_FIELD].items| ==> !Foreign(body[CITATIONS_FIELD].items[i], tenant)
  }

  function Lookup(c: Cache, v: Vector, tenant: string, sha: seq<int> -> Digest): Option<Fields> {
    match Get(c, SlotOf(c, v, tenant, sha))
    case Some(Payload(body, _)) => if OwnCitations(body, tenant) then Some(body) else None
    case _ => None
  }

  function Stored(c: Cache, v: Vector, tenant: string, body: Fields, ttl: nat, sha: seq<int> -> Digest): Cache {
    c.(store := c.store[SlotOf(c, v, tenant, sha) := Payload(body, c.now + ttl)])
  }

  /** Storing and bumping write one key and leave every counter where it belongs. */
  lemma StaysWellKept(c: Cache, v: Vector, tenant: string, body: Fields, ttl: nat, sha: seq<int> -> Digest)
    requires WellKept(c)
    ensures WellKept(Bumped(c, tenant)) && WellKept(Stored(c, v, tenant, body, ttl, sha))
  {
    BucketIsNoCounter(v, tenant, Epoch(c, tenant), sha);
  }

  /** A bump moves its own tenant up by one and no other; a store moves nobody. */
  lemma EpochsMove(c: Cache, tenant: string, other: string)
    requires WellKept(c)
    ensures Epoch(Bumped(c, tenant), other) == Epoch(c, other) + if other == tenant then 1 else 0
  {
    if EpochKey(other) == EpochKey(tenant) {
      EpochKeyInjective(other, tenant);
    }
  }

  lemma StoreKeepsEpochs(c: Cache, v: Vector, tenant: string, body: Fields, ttl: nat, sha: seq<int> -> Digest,
                         other: string)
    ensures Epoch(Stored(c, v, tenant, body, ttl, sha), other) == Epoch(c, other)
  {
    BucketIsNoCounter(v, tenant, Epoch(c, tenant), sha);
    assert IsEpochKey(EpochKey(other));
  }

  /** Right after a bump the tenant finds nothing that is not stored again. */
  lemma BumpEmptiesTheTenant(c: Cache, v: Vector, tenant: string, sha: seq<int> -> Digest)
    requires WellKept(c)
    requires forall w, e: nat :: e > Epoch(c, tenant) ==> BucketKey(w, tenant, e, sha) !in c.store
    ensures Lookup(Bumped(c, tenant), v, tenant, sha) == None
  {
    EpochsMove(c, tenant, tenant);
    BucketIsNoCounter(v, tenant, Epoch(c, tenant) + 1, sha);
    assert IsEpochKey(EpochKey(tenant));
  }

  /** What is stored is found by every vector that quantises alike until it expires, if its citations are its own. */
  lemma StoreThenLookup(c: Cache, v: Vector, w: Vector, tenant: string, body: Fields, ttl: nat,
                        sha: seq<int> -> Digest, later: nat)
    requires Quantise(v) == Quantise(w) && later >= c.now
    ensures Lookup(Stored(c, v, tenant, body, ttl, sha).(now := later), w, tenant, sha) ==
            if later < c.now + ttl && OwnCitations(body, tenant) then Some(body) else None
  {
    var d := Stored(c, v, tenant, body, ttl, sha).(now := later);
    EpochIgnoresTime(c, tenant, later);
    StoreKeepsEpochs(c.(now := later), v, tenant, body, ttl, sha, tenant);
    BucketIsNoCounter(v, tenant, Epoch(c, tenant), sha);
    assert IsEpochKey(EpochKey(tenant));
    assert Epoch(d, tenant) == Epoch(c, tenant);
  }

  lemma EpochIgnoresTime(c: Cache, tenant: string, later: nat)
    ensures Epoch(c.(now := later), tenant) == Epoch(c, tenant)
  {
  }

  /** The default lifetime is an hour, to the second. */
  lemma DefaultIsAnHour(c: Cache, v: Vector, tenant: string, body: Fields, sha: seq<int> -> Digest, later: nat)
    requires OwnCitations(body, tenant) && later >= c.now
    ensures Lookup(Stored(c, v, tenant, body, DEFAULT_TTL_SECONDS, sha).(now := later), v, tenant, sha) ==
            if later - c.now < 3600 then Some(body) else None
  {
    StoreThenLookup(c, v, v, tenant, body, DEFAULT_TTL_SECONDS, sha, later);
  }

  /** A citation object under another tenant or under none is foreign; what is no object is let pass. */
  lemma ForeignIff(citation: Json, tenant: string)
    ensures citation.Obj? && "tenant_id" !in citation.fields ==> Foreign(citation, tenant)
    ensures citation.Obj? && "tenant_id" in citation.fields ==>
              (Foreign(citation, tenant) <==> citation.fields["tenant_id"] != Str(tenant))
    ensures !citation.Obj? ==> !Foreign(citation, tenant)
  {
  }

  /** One foreign citation anywhere makes the stored object a miss; without a list of citations there is none. */
  lemma OneForeignIsAMiss(c: Cache, v: Vector, tenant: string, body: Fields, ttl: nat, sha: seq<int> -> Digest)
    requires ttl > 0
    ensures var found := Lookup(Stored(c, v, tenant, body, ttl, sha), v, tenant, sha);
            && (found == Some(body) <==> !HasForeign(body, tenant)) && (found == None <==> HasForeign(body, tenant))
  {
    StoreThenLookup(c, v, v, tenant, body, ttl, sha, c.now);
    if HasForeign(body, tenant) {
      var i :| 0 <= i < |body["citations"].items| && NotOf(body["citations"].items[i], tenant);
      assert Foreign(body["citations"].items[i], tenant);
    }
  }

  predicate NotOf(citation: Json, tenant: string) {
    citation.Obj? && !("tenant_id" in citation.fields && citation.fields["tenant_id"] == Str(tenant))
  }

  predicate HasForeign(body: Fields, tenant: string) {
    && "citations" in body && body["citations"].Arr?
    && exists i :: 0 <= i < |body["citations"].items| && NotOf(body["citations"].items[i], tenant)
  }

  class Redis {
    var store: map<string, Slot>
    var now: nat

    constructor ()
      ensures View() == Cache(map[], 0) && WellKept(View())
    {
      store, now := map[], 0;
    }

    function View(): Cache
      reads this
    {
      Cache(store, now)
    }

    method GetEpoch(tenant: string) returns (epoch: nat)
      requires WellKept(View())
      ensures epoch == Epoch(View(), tenant)
    {
      var key := EpochKey(tenant);
      if key !in store {
        return 0;
      }
      assert IsEpochKey(key);
      epoch := store[key].n;
    }

    method BumpEpoch(tenant: string) returns (epoch: nat)
      requires WellKept(View())
      modifies this
      ensures WellKept(View()) && View() == Bumped(old(View()), tenant)
      ensures epoch == Epoch(View(), tenant) == Epoch(old(View()), tenant) + 1
    {
      var key := EpochKey(tenant);
      assert IsEpochKey(key);
      epoch := if key in store then store[key].n + 1 else 1;
      store := store[key := Counter(epoch)];
    }

    /** The tenant check goes over the citations one by one and gives up at the first foreign one. */
    method CacheLookup(v: Vector, tenant: string, sha: seq<int> -> Digest) returns (answer: Option<Fields>)
      requires WellKept(View())
      ensures answer == Lookup(View(), v, tenant, sha)
    {
      var epoch := GetEpoch(tenant);
      var key := BucketKey(v, tenant, epoch, sha);
      BucketIsNoCounter(v, tenant, epoch, sha);
      if key !in store || now >= store[key].expires {
        return None;
      }
      var body := store[key].body;
      if CITATIONS_FIELD in body && body[CITATIONS_FIELD].Arr? {
        var citations := body[CITATIONS_FIELD].items;
        for i := 0 to |citations|
          invariant forall j :: 0 <= j < i ==> !Foreign(citations[j], tenant)
        {
          if Foreign(citations[i], tenant) {
            return None;
          }
        }
      }
      return Some(body);
    }

    /** Reads the epoch again: the slot is that of the epoch at the store, not at the lookup. */
    method CacheStore(v: Vector, tenant: string, body: Fields, ttl: nat, sha: seq<int> -> Digest)
      requires WellKept(View())
      modifies this
      ensures WellKept(View()) && View() == Stored(old(View()), v, tenant, body, ttl, sha)
    {
      StaysWellKept(View(), v, tenant, body, ttl, sha);
      var epoch := GetEpoch(tenant);
      store := store[BucketKey(v, tenant, epoch, sha) := Payload(body, now + ttl)];
    }
  }
}
