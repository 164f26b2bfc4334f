/**
 Requests of `retrieve_and_generate` (taxcalc-ai/src/taxcalc_ai/rag.py) sharing one cache: whole, or
 cut into lookup, generation and store, with ingests, epoch bumps and the clock in between. A run is a
 sequence of labels; a label that does not apply leaves the system as it is.
 */
module CacheRuns {
  import opened Options
  import opened CacheKeys
  import opened SemanticCache
  import opened Answers

  datatype Query = Query(vec: Vector, tenant: string, settings: Settings)

  /** An answer's origin: the epoch it was computed in, the corpus it saw, the epoch it was stored under. */
  datatype Birth = Birth(query: Query, work: Work, computedIn: nat, version: nat, storedIn: nat, storedAt: nat)

  /** A request between its miss and its store. */
  datatype Flight = Asked(query: Query) | Answered(query: Query, work: Work, epoch: nat, version: nat)

  /**
   The clients' side: requests under way; every generation made; every dictionary handed to a caller,
   hits included; and the generations whose request died before it could return.
   */
  datatype Clients = Clients(flights: map<nat, Flight>, made: seq<Work>, returned: seq<Fields>, died: seq<Work>)

  datatype System = System(cache: Cache, born: map<string, Birth>, versions: map<string, nat>, clients: Clients)

  const INITIAL: System := System(Cache(map[], 0), map[], map[], Clients(map[], [], [], []))

  datatype Label =
    | Serve(q: Query, w: Work)       // a whole request; `w` is what the pipeline makes of a miss
    | Begin(id: nat, q: Query)       // lookup
    | Generate(id: nat, w: Work)     // retrieval and generation
    | Finish(id: nat)                // store, then report
    | Abandon(id: nat)               // the request dies on the way
    | Ingest(tenant: string)
    | Bump(tenant: string)
    | Tick(seconds: nat)

  function Version(s: System, tenant: string): nat {
    if tenant in s.versions then s.versions[tenant] else 0
  }

  function Found(s: System, q: Query, sha: seq<int> -> Digest): Option<Fields> {
    Lookup(s.cache, q.vec, q.tenant, sha)
  }

  function Keep(s: System, b: Birth, sha: seq<int> -> Digest): System {
    s.(cache := Stored(s.cache, b.query.vec, b.query.tenant, Body(b.work, b.query.tenant), DEFAULT_TTL_SECONDS, sha),
       born := s.born[SlotOf(s.cache, b.query.vec, b.query.tenant, sha) := b])
  }

  function BirthNow(s: System, q: Query, w: Work, computedIn: nat, version: nat): Birth {
    Birth(q, w, computedIn, version, Epoch(s.cache, q.tenant), s.cache.now)
  }

  /** A caller is handed a dictionary. */
  function Hand(c: Clients, d: Fields): Clients {
    c.(returned := c.returned + [d])
  }

  function Serving(s: System, q: Query, w: Work, sha: seq<int> -> Digest): System {
    match Found(s, q, sha)
    case Some(body) => s.(clients := Hand(s.clients, body))
    case None =>
      var paid := s.clients.(made := s.clients.made + [w]);
      Keep(s.(clients := Hand(paid, Returned(w, q.tenant))),
           BirthNow(s, q, w, Epoch(s.cache, q.tenant), Version(s, q.tenant)), sha)
  }

  function Beginning(s: System, id: nat, q: Query, sha: seq<int> -> Digest): System {
    if id in s.clients.flights then s
    else
      match Found(s, q, sha)
      case Some(body) => s.(clients := Hand(s.clients, body))
      case None => s.(clients := s.clients.(flights := s.clients.flights[id := Asked(q)]))
  }

  predicate IsAsked(s: System, id: nat) {
    id in s.clients.flights && s.clients.flights[id].Asked?
  }

  predicate IsAnswered(s: System, id: nat) {
    id in s.clients.flights && s.clients.flights[id].Answered?
  }

  function Generating(s: System, id: nat, w: Work): System {
    if !IsAsked(s, id) then s
    else
      var q := s.clients.flights[id].query;
      s.(clients := s.clients.(
           flights := s.clients.flights[id := Answered(q, w, Epoch(s.cache, q.tenant), Version(s, q.tenant))],
           made := s.clients.made + [w]))
  }

  function Finishing(s: System, id: nat, sha: seq<int> -> Digest): System {
    if !IsAnswered(s, id) then s
    else
      var f := s.clients.flights[id];
      var landed := s.clients.(flights := s.clients.flights - {id});
      Keep(s.(clients := Hand(landed, Returned(f.work, f.query.tenant))),
           BirthNow(s, f.query, f.work, f.epoch, f.version), sha)
  }

  function Abandoning(s: System, id: nat): System {
    if id !in s.clients.flights then s
    else
      var f := s.clients.flights[id];
      s.(clients := s.clients.(flights := s.clients.flights - {id},
                               died := if f.Answered? then s.clients.died + [f.work] else s.clients.died))
  }

  function Apply(s: System, l: Label, sha: seq<int> -> Digest): System {
    match l
    case Serve(q, w) => Serving(s, q, w, sha)
    case Begin(id, q) => Beginning(s, id, q, sha)
    case Generate(id, w) => Generating(s, id, w)
    case Finish(id) => Finishing(s, id, sha)
    case Abandon(id) => Abandoning(s, id)
    case Ingest(t) => s.(versions := s.versions[t := Version(s, t) + 1])
    case Bump(t) => s.(cache := Bumped(s.cache, t))
    case Tick(n) => s.(cache := s.cache.(now := s.cache.now + n))
  }

  /** The system after a run. */
  function After(run: seq<Label>, sha: seq<int> -> Digest): System {
    if run == [] then INITIAL
    else Apply(After(run[..|run| - 1], sha), run[|run| - 1], sha)
  }

  // ---- what requests do -----------------------------------------------------------------------------

  /** A hit, whole or at the start of a cut request, hands over what is stored and does nothing else. */
  lemma HitOnlyHands(s: System, q: Query, id: nat, w: Work, sha: seq<int> -> Digest)
    requires Found(s, q, sha).Some? && id !in s.clients.flights
    ensures var c := s.clients;
            var after := s.(clients := Clients(c.flights, c.made, c.returned + [Found(s, q, sha).value], c.died));
            Apply(s, Serve(q, w), sha) == after && Apply(s, Begin(id, q), sha) == after
  {
  }

  /** A miss generates once, hands over what it made with its usage, and stores it without, for an hour. */
  lemma MissGeneratesOnce(s: System, q: Query, w: Work, sha: seq<int> -> Digest)
    requires Found(s, q, sha).None?
    ensures var t := Apply(s, Serve(q, w), sha);
            && t.clients.made == s.clients.made + [w] && t.clients.flights == s.clients.flights
            && t.clients.returned == s.clients.returned + [Returned(w, q.tenant)]
            && t.cache == Stored(s.cache, q.vec, q.tenant, Body(w, q.tenant), 3600, sha) && t.versions == s.versions
            && t.born[SlotOf(s.cache, q.vec, q.tenant, sha)] ==
               Birth(q, w, Epoch(s.cache, q.tenant), Version(s, q.tenant), Epoch(s.cache, q.tenant), s.cache.now)
  {
  }

  /** A new corpus version, a bump and the clock touch nothing but what they name. */
  lemma OutsideMoves(s: System, tenant: string, n: nat, sha: seq<int> -> Digest)
    ensures var t := Apply(s, Ingest(tenant), sha);
            && Version(t, tenant) == Version(s, tenant) + 1 && t.cache == s.cache && t.clients == s.clients
            && forall other :: other != tenant ==> Version(t, other) == Version(s, other)
    ensures Apply(s, Bump(tenant), sha) == s.(cache := Bumped(s.cache, tenant))
    ensures Apply(s, Tick(n), sha) == s.(cache := Cache(s.cache.store, s.cache.now + n))
  {
  }

  // ---- what every run keeps -----------------------------------------------------------------------

  /** The slot holds what its birth says, under the key of the epoch it was stored in. */
  ghost predicate Faithful(c: Cache, key: string, b: Birth, sha: seq<int> -> Digest) {
    && key == BucketKey(b.query.vec, b.query.tenant, b.storedIn, sha)
    && key in c.store
    && c.store[key] == Payload(Body(b.work, b.query.tenant), b.storedAt + DEFAULT_TTL_SECONDS)
    && b.computedIn <= b.storedIn <= Epoch(c, b.query.tenant)
    && b.storedAt <= c.now
  }

  ghost predicate Known(s: System, sha: seq<int> -> Digest) {
    && WellKept(s.cache)
    && (forall key :: key in s.cache.store && s.cache.store[key].Payload? ==> key in s.born)
    && (forall key :: key in s.born ==> Faithful(s.cache, key, s.born[key], sha))
    && (forall id :: id in s.clients.flights && s.clients.flights[id].Answered? ==>
          s.clients.flights[id].epoch <= Epoch(s.cache, s.clients.flights[id].query.tenant))
  }

  lemma KeepEpoch(s: System, b: Birth, sha: seq<int> -> Digest, tenant: string)
    ensures Epoch(Keep(s, b, sha).cache, tenant) == Epoch(s.cache, tenant)
  {
    var body := Body(b.work, b.query.tenant);
    StoreKeepsEpochs(s.cache, b.query.vec, b.query.tenant, body, DEFAULT_TTL_SECONDS, sha, tenant);
  }

  lemma KeepFaithful(s: System, b: Birth, sha: seq<int> -> Digest, key: string)
    requires b.computedIn <= b.storedIn == Epoch(s.cache, b.query.tenant) && b.storedAt == s.cache.now
    requires key in Keep(s, b, sha).born && (key in s.born ==> Faithful(s.cache, key, s.born[key], sha))
    ensures Faithful(Keep(s, b, sha).cache, key, Keep(s, b, sha).born[key], sha)
  {
    var born := Keep(s, b, sha).born[key];
    KeepEpoch(s, b, sha, born.query.tenant);
  }

  lemma KeepKnown(s: System, b: Birth, sha: seq<int> -> Digest)
    requires Known(s, sha) && b.computedIn <= b.storedIn == Epoch(s.cache, b.query.tenant) && b.storedAt == s.cache.now
    ensures Known(Keep(s, b, sha), sha)
  {
    var t := Keep(s, b, sha);
    StaysWellKept(s.cache, b.query.vec, b.query.tenant, Body(b.work, b.query.tenant), DEFAULT_TTL_SECONDS, sha);
    forall key | key in t.born ensures Faithful(t.cache, key, t.born[key], sha) {
      KeepFaithful(s, b, sha, key);
    }
    forall id | id in t.clients.flights && t.clients.flights[id].Answered?
      ensures t.clients.flights[id].epoch <= Epoch(t.cache, t.clients.flights[id].query.tenant)
    {
      KeepEpoch(s, b, sha, t.clients.flights[id].query.tenant);
    }
  }

  lemma BumpFaithful(s: System, tenant: string, sha: seq<int> -> Digest, key: string, b: Birth)
    requires WellKept(s.cache) && Faithful(s.cache, key, b, sha)
    ensures Faithful(Bumped(s.cache, tenant), key, b, sha)
  {
    EpochsMove(s.cache, tenant, b.query.tenant);
    BucketIsNoCounter(b.query.vec, b.query.tenant, b.storedIn, sha);
    assert IsEpochKey(EpochKey(tenant));
  }

  lemma BumpKnown(s: System, tenant: string, sha: seq<int> -> Digest)
    requires Known(s, sha)
    ensures Known(Apply(s, Bump(tenant), sha), sha)
  {
    var t := Apply(s, Bump(tenant), sha);
    var body: Fields := map[];
    StaysWellKept(s.cache, [], tenant, body, 0, sha);
    forall key | key in t.born ensures Faithful(t.cache, key, t.born[key], sha) {
      BumpFaithful(s, tenant, sha, key, s.born[key]);
    }
    forall id | id in t.clients.flights && t.clients.flights[id].Answered?
      ensures t.clients.flights[id].epoch <= Epoch(t.cache, t.clients.flights[id].query.tenant)
    {
      EpochsMove(s.cache, tenant, t.clients.flights[id].query.tenant);
    }
  }

  lemma TickKnown(s: System, n: nat, sha: seq<int> -> Digest)
    requires Known(s, sha)
    ensures Known(Apply(s, Tick(n), sha), sha)
  {
    var t := Apply(s, Tick(n), sha);
    forall other ensures Epoch(t.cache, other) == Epoch(s.cache, other) {
      EpochIgnoresTime(s.cache, other, t.cache.now);
    }
    forall key | key in t.born ensures Faithful(t.cache, key, t.born[key], sha) {
      assert Faithful(s.cache, key, s.born[key], sha);
    }
  }

  /** Moves of the clients' side alone. */
  lemma ClientsKnown(s: System, t: System, sha: seq<int> -> Digest)
    requires Known(s, sha) && t.cache == s.cache && t.born == s.born
    requires forall id :: id in t.clients.flights && t.clients.flights[id].Answered? ==>
               t.clients.flights[id].epoch <= Epoch(t.cache, t.clients.flights[id].query.tenant)
    ensures Known(t, sha)
  {
  }

  lemma ServeKnown(s: System, q: Query, w: Work, sha: seq<int> -> Digest)
    requires Known(s, sha)
    ensures Known(Serving(s, q, w, sha), sha)
  {
    if Found(s, q, sha).None? {
      var paid := s.clients.(made := s.clients.made + [w]);
      var handed := s.(clients := Hand(paid, Returned(w, q.tenant)));
      ClientsKnown(s, handed, sha);
      KeepKnown(handed, BirthNow(s, q, w, Epoch(s.cache, q.tenant), Version(s, q.tenant)), sha);
    } else {
      ClientsKnown(s, Serving(s, q, w, sha), sha);
    }
  }

  lemma FinishKnown(s: System, id: nat, sha: seq<int> -> Digest)
    requires Known(s, sha)
    ensures Known(Finishing(s, id, sha), sha)
  {
    if IsAnswered(s, id) {
      var f := s.clients.flights[id];
      var landed := s.clients.(flights := s.clients.flights - {id});
      var handed := s.(clients := Hand(landed, Returned(f.work, f.query.tenant)));
      ClientsKnown(s, handed, sha);
      KeepKnown(handed, BirthNow(s, f.query, f.work, f.epoch, f.version), sha);
    }
  }

  lemma BeginKnown(s: System, id: nat, q: Query, sha: seq<int> -> Digest)
    requires Known(s, sha)
    ensures Known(Beginning(s, id, q, sha), sha)
  {
    ClientsKnown(s, Beginning(s, id, q, sha), sha);
  }

  lemma GenerateKnown(s: System, id: nat, w: Work, sha: seq<int> -> Digest)
    requires Known(s, sha)
    ensures Known(Generating(s, id, w), sha)
  {
    ClientsKnown(s, Generating(s, id, w), sha);
  }

  lemma AbandonKnown(s: System, id: nat, sha: seq<int> -> Digest)
    requires Known(s, sha)
    ensures Known(Abandoning(s, id), sha)
  {
    ClientsKnown(s, Abandoning(s, id), sha);
  }

  lemma IngestKnown(s: System, tenant: string, sha: seq<int> -> Digest)
    requires Known(s, sha)
    ensures Known(Apply(s, Ingest(tenant), sha), sha)
  {
    ClientsKnown(s, Apply(s, Ingest(tenant), sha), sha);
  }

  lemma StepKnown(s: System, l: Label, sha: seq<int> -> Digest)
    requires Known(s, sha)
    ensures Known(Apply(s, l, sha), sha)
  {
    match l
    case Serve(q, w) => ServeKnown(s, q, w, sha);
    case Begin(id, q) => BeginKnown(s, id, q, sha);
    case Generate(id, w) => GenerateKnown(s, id, w, sha);
    case Finish(id) => FinishKnown(s, id, sha);
    case Abandon(id) => AbandonKnown(s, id, sha);
    case Ingest(t) => IngestKnown(s, t, sha);
    case Bump(t) => BumpKnown(s, t, sha);
    case Tick(n) => TickKnown(s, n, sha);
  }

  lemma {:induction false} RunKnown(run: seq<Label>, sha: seq<int> -> Digest)
    ensures Known(After(run, sha), sha)
  {
    if run != [] {
      RunKnown(run[..|run| - 1], sha);
      StepKnown(After(run[..|run| - 1], sha), run[|run| - 1], sha);
    }
  }
}
