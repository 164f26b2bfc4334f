/**
 What the semantic cache promises over whole runs, and the runs that break what it does not.
 */
module CacheClaims {
  import opened Options
  import opened CacheKeys
  import opened SemanticCache
  import opened Answers
  import opened CacheRuns

  /** The origin of what a lookup finds at the end of a run. */
  ghost function Origin(run: seq<Label>, q: Query, sha: seq<int> -> Digest): Birth
    requires Found(After(run, sha), q, sha).Some?
  {
    RunKnown(run, sha);
    var s := After(run, sha);
    BucketIsNoCounter(q.vec, q.tenant, Epoch(s.cache, q.tenant), sha);
    s.born[SlotOf(s.cache, q.vec, q.tenant, sha)]
  }

  lemma OriginMatches(run: seq<Label>, q: Query, sha: seq<int> -> Digest)
    requires Found(After(run, sha), q, sha).Some?
    ensures var s, b := After(run, sha), Origin(run, q, sha);
            && SlotOf(s.cache, q.vec, q.tenant, sha) in s.born && b == s.born[SlotOf(s.cache, q.vec, q.tenant, sha)]
            && b.query.tenant == q.tenant && b.storedIn == Epoch(s.cache, q.tenant)
            && sha(Quantise(b.query.vec)) == sha(Quantise(q.vec))
            && Found(s, q, sha) == Some(Body(b.work, q.tenant))
            && b.storedAt <= s.cache.now < b.storedAt + DEFAULT_TTL_SECONDS
  {
    RunKnown(run, sha);
    var s, b := After(run, sha), Origin(run, q, sha);
    assert Faithful(s.cache, SlotOf(s.cache, q.vec, q.tenant, sha), b, sha);
    SemanticKeyInjective(b.query.tenant, b.storedIn, sha(Quantise(b.query.vec)),
                         q.tenant, Epoch(s.cache, q.tenant), sha(Quantise(q.vec)));
  }

  // ---- every run ----------------------------------------------------------------------------------

  /** However requests interleave, what is served was stored less than an hour ago, for the same tenant. */
  lemma ServedWithinTheHour(run: seq<Label>, q: Query, sha: seq<int> -> Digest)
    requires Found(After(run, sha), q, sha).Some?
    ensures var s := After(run, sha);
            var b := Origin(run, q, sha);
            && b.query.tenant == q.tenant
            && Found(s, q, sha) == Some(Body(b.work, q.tenant))
            && 0 <= s.cache.now - b.storedAt < 3600
  {
    OriginMatches(run, q, sha);
  }

  /** And, digests not colliding, for a vector within a hundredth in every dimension. */
  lemma HitIsForACloseVector(run: seq<Label>, q: Query, sha: seq<int> -> Digest)
    requires Found(After(run, sha), q, sha).Some?
    requires var v := Origin(run, q, sha).query.vec;
             sha(Quantise(v)) == sha(Quantise(q.vec)) ==> Quantise(v) == Quantise(q.vec)
    ensures var v := Origin(run, q, sha).query.vec;
            |v| == |q.vec| && forall i :: 0 <= i < |v| ==> -0.01 <= v[i] - q.vec[i] <= 0.01
  {
    OriginMatches(run, q, sha);
    SameBucketIsClose(Origin(run, q, sha).query.vec, q.vec);
  }

  /** The tenant check never fires: whatever is in the slot is served. */
  lemma MismatchUnreachable(run: seq<Label>, q: Query, sha: seq<int> -> Digest)
    ensures var c := After(run, sha).cache;
            Found(After(run, sha), q, sha).Some? <==> Get(c, SlotOf(c, q.vec, q.tenant, sha)).Some?
  {
    RunKnown(run, sha);
    var s := After(run, sha);
    var slot := SlotOf(s.cache, q.vec, q.tenant, sha);
    BucketIsNoCounter(q.vec, q.tenant, Epoch(s.cache, q.tenant), sha);
    if Get(s.cache, slot).Some? {
      var b := s.born[slot];
      assert Faithful(s.cache, slot, b, sha);
      SemanticKeyInjective(b.query.tenant, b.storedIn, sha(Quantise(b.query.vec)),
                           q.tenant, Epoch(s.cache, q.tenant), sha(Quantise(q.vec)));
    }
  }

  /** After a bump the tenant finds nothing at all. */
  lemma BumpInvalidatesEverything(run: seq<Label>, q: Query, sha: seq<int> -> Digest)
    ensures Found(After(run + [Bump(q.tenant)], sha), q, sha) == None
  {
    var s := After(run, sha);
    RunKnown(run, sha);
    assert (run + [Bump(q.tenant)])[..|run|] == run;
    forall w, e: nat | e > Epoch(s.cache, q.tenant) ensures BucketKey(w, q.tenant, e, sha) !in s.cache.store {
      var key := BucketKey(w, q.tenant, e, sha);
      BucketIsNoCounter(w, q.tenant, e, sha);
      if key in s.cache.store {
        var b := s.born[key];
        assert Faithful(s.cache, key, b, sha);
        SemanticKeyInjective(b.query.tenant, b.storedIn, sha(Quantise(b.query.vec)), q.tenant, e, sha(Quantise(w)));
      }
    }
    BumpEmptiesTheTenant(s.cache, q.vec, q.tenant, sha);
  }

  // ---- staleness ----------------------------------------------------------------------------------

  function Bumps(run: seq<Label>, tenant: string): nat {
    if run == [] then 0
    else Bumps(run[..|run| - 1], tenant) + if run[|run| - 1] == Bump(tenant) then 1 else 0
  }

  /** An epoch is a number of bumps, so an answer of the current epoch is one computed since the latest bump. */
  lemma {:induction false} EpochCountsBumps(run: seq<Label>, tenant: string, sha: seq<int> -> Digest)
    ensures Epoch(After(run, sha).cache, tenant) == Bumps(run, tenant)
  {
    if run != [] {
      var front, l := run[..|run| - 1], run[|run| - 1];
      EpochCountsBumps(front, tenant, sha);
      RunKnown(front, sha);
      EpochStep(After(front, sha), l, tenant, sha);
    }
  }

  lemma EpochStep(s: System, l: Label, tenant: string, sha: seq<int> -> Digest)
    requires WellKept(s.cache)
    ensures Epoch(Apply(s, l, sha).cache, tenant) == Epoch(s.cache, tenant) + if l == Bump(tenant) then 1 else 0
  {
    if l.Bump? {
      EpochsMove(s.cache, l.tenant, tenant);
    } else if l.Serve? {
      StoreKeepsEpochs(s.cache, l.q.vec, l.q.tenant, Body(l.w, l.q.tenant), DEFAULT_TTL_SECONDS, sha, tenant);
    } else if l.Finish? {
      if IsAnswered(s, l.id) {
        var f := s.clients.flights[l.id];
        var body := Body(f.work, f.query.tenant);
        StoreKeepsEpochs(s.cache, f.query.vec, f.query.tenant, body, DEFAULT_TTL_SECONDS, sha, tenant);
      }
    } else if l.Tick? {
      EpochIgnoresTime(s.cache, tenant, s.cache.now + l.seconds);
    }
  }

  /** A store in the epoch its answer was computed in. */
  predicate CleanStep(s: System, l: Label) {
    l.Finish? && IsAnswered(s, l.id) ==>
      s.clients.flights[l.id].epoch == Epoch(s.cache, s.clients.flights[l.id].query.tenant)
  }

  /** No bump of a tenant falls between one of its generations and the store of it. */
  predicate Clean(run: seq<Label>, sha: seq<int> -> Digest) {
    run != [] ==>
      Clean(run[..|run| - 1], sha) && CleanStep(After(run[..|run| - 1], sha), run[|run| - 1])
  }

  /** Only whole requests. */
  predicate Whole(run: seq<Label>) {
    forall i :: 0 <= i < |run| ==> !run[i].Finish?
  }

  lemma {:induction false} WholeIsClean(run: seq<Label>, sha: seq<int> -> Digest)
    requires Whole(run)
    ensures Clean(run, sha)
  {
    if run != [] {
      WholeIsClean(run[..|run| - 1], sha);
    }
  }

  ghost predicate AllFresh(s: System) {
    forall key :: key in s.born ==> s.born[key].computedIn == s.born[key].storedIn
  }

  lemma {:induction false} CleanIsFresh(run: seq<Label>, sha: seq<int> -> Digest)
    requires Clean(run, sha)
    ensures AllFresh(After(run, sha))
  {
    if run != [] {
      CleanIsFresh(run[..|run| - 1], sha);
      FreshStep(After(run[..|run| - 1], sha), run[|run| - 1], sha);
    }
  }

  lemma FreshStep(s: System, l: Label, sha: seq<int> -> Digest)
    requires AllFresh(s) && CleanStep(s, l)
    ensures AllFresh(Apply(s, l, sha))
  {
  }

  /** In a clean run, and so in every run of whole requests, nothing computed before the latest bump is served. */
  lemma NeverStale(run: seq<Label>, q: Query, sha: seq<int> -> Digest)
    requires Clean(run, sha) && Found(After(run, sha), q, sha).Some?
    ensures Origin(run, q, sha).computedIn == Bumps(run, q.tenant)
  {
    CleanIsFresh(run, sha);
    OriginMatches(run, q, sha);
    EpochCountsBumps(run, q.tenant, sha);
  }

  /** Once a generation is stored its own query finds it. */
  lemma FinishThenFound(run: seq<Label>, id: nat, sha: seq<int> -> Digest)
    requires IsAnswered(After(run, sha), id)
    ensures var f := After(run, sha).clients.flights[id];
            var after := run + [Finish(id)];
            && Found(After(after, sha), f.query, sha) == Some(Body(f.work, f.query.tenant))
            && Origin(after, f.query, sha).computedIn == f.epoch
  {
    var s, t := After(run, sha), After(run + [Finish(id)], sha);
    assert (run + [Finish(id)])[..|run|] == run;
    var f := s.clients.flights[id];
    var body := Body(f.work, f.query.tenant);
    StoreThenLookup(s.cache, f.query.vec, f.query.vec, f.query.tenant, body, DEFAULT_TTL_SECONDS, sha, s.cache.now);
    StoreKeepsEpochs(s.cache, f.query.vec, f.query.tenant, body, DEFAULT_TTL_SECONDS, sha, f.query.tenant);
    assert t.cache == Stored(s.cache, f.query.vec, f.query.tenant, body, DEFAULT_TTL_SECONDS, sha);
  }

  /**
   Exactly the unclean store goes wrong: what it stores is served and stale there and then if and
   only if the tenant's epoch moved between the generation and the store.
   */
  lemma StaleIff(run: seq<Label>, id: nat, sha: seq<int> -> Digest)
    requires IsAnswered(After(run, sha), id)
    ensures var f := After(run, sha).clients.flights[id];
            var after := run + [Finish(id)];
            && Found(After(after, sha), f.query, sha).Some?
            && (Origin(after, f.query, sha).computedIn < Bumps(after, f.query.tenant) <==>
                !CleanStep(After(run, sha), Finish(id)))
  {
    RunKnown(run, sha);
    FinishThenFound(run, id, sha);
    var f := After(run, sha).clients.flights[id];
    EpochCountsBumps(run, f.query.tenant, sha);
    assert (run + [Finish(id)])[..|run|] == run;
  }

  /** Such a run: an ingest and its bump while an answer is being generated. */
  function StaleRun(q: Query, w: Work): seq<Label> {
    [Begin(0, q), Generate(0, w), Ingest(q.tenant), Bump(q.tenant), Finish(0)]
  }

  /** It ends with the old corpus' answer served to anyone who asks, after the bump meant to prevent it. */
  lemma StaleRunServesOldCorpus(q: Query, w: Work, sha: seq<int> -> Digest)
    ensures var s := After(StaleRun(q, w), sha);
            && Found(s, q, sha) == Some(Body(w, q.tenant))
            && Origin(StaleRun(q, w), q, sha).version == 0 < Version(s, q.tenant)
            && Origin(StaleRun(q, w), q, sha).computedIn == 0 < Epoch(s.cache, q.tenant)
  {
    BeforeTheStore(q, w, sha);
    FinishThenFound(StaleRun(q, w)[..4], 0, sha);
    var run := StaleRun(q, w)[..4] + [Finish(0)];
    assert run == StaleRun(q, w);
    Then(StaleRun(q, w)[..4], Finish(0), sha);
    EpochCountsBumps(StaleRun(q, w)[..4], q.tenant, sha);
    OriginMatches(run, q, sha);
  }

  lemma Then(run: seq<Label>, l: Label, sha: seq<int> -> Digest)
    ensures After(run + [l], sha) == Apply(After(run, sha), l, sha)
  {
    assert (run + [l])[..|run|] == run;
  }

  lemma BeforeTheStore(q: Query, w: Work, sha: seq<int> -> Digest)
    ensures var s := After(StaleRun(q, w)[..4], sha);
            && s.clients.flights == map[0 := Answered(q, w, 0, 0)]
            && Version(s, q.tenant) == 1 && Epoch(s.cache, q.tenant) == 1
  {
    var a, b, c, d := Begin(0, q), Generate(0, w), Ingest(q.tenant), Bump(q.tenant);
    Then([], a, sha);
    Then([a], b, sha);
    Then([a, b], c, sha);
    Then([a, b, c], d, sha);
    assert [] + [a] == [a] && [a] + [b] == [a, b] && [a, b] + [c] == [a, b, c] && [a, b, c] + [d] == [a, b, c, d];
    assert StaleRun(q, w)[..4] == [a, b, c, d];
    StaleSteps(q, w, sha);
  }

  lemma StaleSteps(q: Query, w: Work, sha: seq<int> -> Digest)
    ensures var s := Apply(Apply(INITIAL, Begin(0, q), sha), Generate(0, w), sha);
            var t := Apply(Apply(s, Ingest(q.tenant), sha), Bump(q.tenant), sha);
            && t.clients.flights == map[0 := Answered(q, w, 0, 0)]
            && Version(t, q.tenant) == 1 && Epoch(t.cache, q.tenant) == 1
  {
  }
}
