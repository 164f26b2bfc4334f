/**
 What a hit has to do with what the pipeline would have said, and where the tokens go.
 */
module CacheAgreement {
  import opened Options
  import opened CacheKeys
  import opened SemanticCache
  import opened Answers
  import opened CacheRuns
  import opened CacheClaims

  // ---- cached against uncached ----------------------------------------------------------------------

  /** The label's request has these settings, and its answer is what the pipeline makes of the corpus now. */
  predicate StepSound(s: System, l: Label, settings: Settings, pipeline: (Query, nat) -> Work) {
    match l
    case Serve(q, w) => q.settings == settings && w == pipeline(q, Version(s, q.tenant))
    case Begin(_, q) => q.settings == settings
    case Generate(id, w) =>
      IsAsked(s, id) ==> var q := s.clients.flights[id].query; w == pipeline(q, Version(s, q.tenant))
    case _ => true
  }

  predicate Sound(run: seq<Label>, settings: Settings, pipeline: (Query, nat) -> Work, sha: seq<int> -> Digest) {
    run != [] ==>
      && Sound(run[..|run| - 1], settings, pipeline, sha)
      && StepSound(After(run[..|run| - 1], sha), run[|run| - 1], settings, pipeline)
  }

  predicate FlightGrounded(f: Flight, settings: Settings, pipeline: (Query, nat) -> Work) {
    f.query.settings == settings && (f.Answered? ==> f.work == pipeline(f.query, f.version))
  }

  ghost predicate SlotsGrounded(s: System, settings: Settings, pipeline: (Query, nat) -> Work) {
    forall key :: key in s.born ==>
      s.born[key].query.settings == settings && s.born[key].work == pipeline(s.born[key].query, s.born[key].version)
  }

  ghost predicate FlightsGrounded(s: System, settings: Settings, pipeline: (Query, nat) -> Work) {
    forall id :: id in s.clients.flights ==> FlightGrounded(s.clients.flights[id], settings, pipeline)
  }

  ghost predicate Grounded(s: System, settings: Settings, pipeline: (Query, nat) -> Work) {
    SlotsGrounded(s, settings, pipeline) && FlightsGrounded(s, settings, pipeline)
  }

  lemma SlotsStep(s: System, l: Label, settings: Settings, pipeline: (Query, nat) -> Work, sha: seq<int> -> Digest)
    requires Grounded(s, settings, pipeline) && StepSound(s, l, settings, pipeline)
    ensures SlotsGrounded(Apply(s, l, sha), settings, pipeline)
  {
  }

  lemma FlightsStep(s: System, l: Label, settings: Settings, pipeline: (Query, nat) -> Work, sha: seq<int> -> Digest)
    requires FlightsGrounded(s, settings, pipeline) && StepSound(s, l, settings, pipeline)
    ensures FlightsGrounded(Apply(s, l, sha), settings, pipeline)
  {
  }

  lemma {:induction false} SoundIsGrounded(run: seq<Label>, settings: Settings, pipeline: (Query, nat) -> Work,
                                           sha: seq<int> -> Digest)
    requires Sound(run, settings, pipeline, sha)
    ensures Grounded(After(run, sha), settings, pipeline)
  {
    if run != [] {
      SoundIsGrounded(run[..|run| - 1], settings, pipeline, sha);
      SlotsStep(After(run[..|run| - 1], sha), run[|run| - 1], settings, pipeline, sha);
      FlightsStep(After(run[..|run| - 1], sha), run[|run| - 1], settings, pipeline, sha);
    }
  }

  /**
   Agreement: with whole requests (or any clean run) of one filter, flag set and model, and digests
   not colliding, a hit is what the pipeline produced since the latest bump for a query of the same
   tenant and settings whose vector is within a hundredth in every dimension.
   */
  lemma HitAgreesWithPipeline(run: seq<Label>, q: Query, pipeline: (Query, nat) -> Work, sha: seq<int> -> Digest)
    returns (asked: Query, version: nat)
    requires Clean(run, sha) && Sound(run, q.settings, pipeline, sha) && Found(After(run, sha), q, sha).Some?
    requires forall v: Vector :: sha(Quantise(v)) == sha(Quantise(q.vec)) ==> Quantise(v) == Quantise(q.vec)
    ensures Found(After(run, sha), q, sha) == Some(Body(pipeline(asked, version), q.tenant))
    ensures asked.tenant == q.tenant && asked.settings == q.settings && |asked.vec| == |q.vec|
    ensures forall i :: 0 <= i < |q.vec| ==> -0.01 <= asked.vec[i] - q.vec[i] <= 0.01
    ensures version >= VersionAtBump(run, q.tenant, sha)
  {
    var b := Origin(run, q, sha);
    asked, version := b.query, b.version;
    OriginMatches(run, q, sha);
    HitIsForACloseVector(run, q, sha);
    SoundIsGrounded(run, q.settings, pipeline, sha);
    NeverStale(run, q, sha);
    EpochCountsBumps(run, q.tenant, sha);
    CurrentSeesLatestBump(run, q.tenant, sha);
  }

  /** The corpus version of a tenant when its epoch was last bumped. */
  function VersionAtBump(run: seq<Label>, tenant: string, sha: seq<int> -> Digest): nat {
    if run == [] then 0
    else
      var front := run[..|run| - 1];
      if run[|run| - 1] == Bump(tenant) then Version(After(front, sha), tenant) else VersionAtBump(front, tenant, sha)
  }

  /** The corpus that stood when the latest bump came, and none before the first. */
  lemma {:induction false} LatestBumpSees(front: seq<Label>, rest: seq<Label>, tenant: string, sha: seq<int> -> Digest)
    requires Bump(tenant) !in rest
    ensures VersionAtBump(front + [Bump(tenant)] + rest, tenant, sha) == Version(After(front, sha), tenant)
    ensures VersionAtBump(rest, tenant, sha) == 0
  {
    var run := front + [Bump(tenant)] + rest;
    if rest == [] {
      assert run[..|front|] == front;
    } else {
      var n := |rest| - 1;
      LatestBumpSees(front, rest[..n], tenant, sha);
      assert run[..|run| - 1] == front + [Bump(tenant)] + rest[..n];
      assert run[|run| - 1] == rest[n];
    }
  }

  ghost predicate SlotsSee(s: System, tenant: string, version: nat) {
    forall key :: key in s.born && s.born[key].query.tenant == tenant
                  && s.born[key].computedIn == Epoch(s.cache, tenant) ==>
      version <= s.born[key].version
  }

  ghost predicate FlightsSee(s: System, tenant: string, version: nat) {
    forall id :: id in s.clients.flights && s.clients.flights[id].Answered?
                 && s.clients.flights[id].query.tenant == tenant
                 && s.clients.flights[id].epoch == Epoch(s.cache, tenant) ==>
      version <= s.clients.flights[id].version
  }

  /** Answers of the tenant's current epoch rest on at least that version. */
  ghost predicate SeesAtLeast(s: System, tenant: string, version: nat) {
    version <= Version(s, tenant) && SlotsSee(s, tenant, version) && FlightsSee(s, tenant, version)
  }

  lemma SlotsSeeStep(s: System, l: Label, tenant: string, version: nat, sha: seq<int> -> Digest)
    requires WellKept(s.cache) && SeesAtLeast(s, tenant, version) && l != Bump(tenant)
    ensures SlotsSee(Apply(s, l, sha), tenant, version)
  {
    EpochStep(s, l, tenant, sha);
  }

  lemma FlightsSeeStep(s: System, l: Label, tenant: string, version: nat, sha: seq<int> -> Digest)
    requires WellKept(s.cache) && SeesAtLeast(s, tenant, version) && l != Bump(tenant)
    ensures FlightsSee(Apply(s, l, sha), tenant, version)
  {
    EpochStep(s, l, tenant, sha);
  }

  lemma SeesStep(s: System, l: Label, tenant: string, version: nat, sha: seq<int> -> Digest)
    requires WellKept(s.cache) && SeesAtLeast(s, tenant, version) && l != Bump(tenant)
    ensures SeesAtLeast(Apply(s, l, sha), tenant, version)
  {
    SlotsSeeStep(s, l, tenant, version, sha);
    FlightsSeeStep(s, l, tenant, version, sha);
  }

  lemma SeesBump(s: System, tenant: string, sha: seq<int> -> Digest)
    requires Known(s, sha)
    ensures SeesAtLeast(Apply(s, Bump(tenant), sha), tenant, Version(s, tenant))
  {
    EpochStep(s, Bump(tenant), tenant, sha);
    forall key | key in s.born && s.born[key].query.tenant == tenant
      ensures s.born[key].computedIn <= Epoch(s.cache, tenant)
    {
      assert Faithful(s.cache, key, s.born[key], sha);
    }
  }

  lemma {:induction false} CurrentSeesLatestBump(run: seq<Label>, tenant: string, sha: seq<int> -> Digest)
    ensures SeesAtLeast(After(run, sha), tenant, VersionAtBump(run, tenant, sha))
  {
    if run != [] {
      var front, l := run[..|run| - 1], run[|run| - 1];
      CurrentSeesLatestBump(front, tenant, sha);
      RunKnown(front, sha);
      if l == Bump(tenant) {
        SeesBump(After(front, sha), tenant, sha);
      } else {
        SeesStep(After(front, sha), l, tenant, VersionAtBump(front, tenant, sha), sha);
      }
    }
  }

  /** The key carries no settings: a query that differs only there is served the other's answer. */
  lemma SettingsShareASlot(run: seq<Label>, q: Query, settings: Settings, w: Work, w': Work, sha: seq<int> -> Digest)
    requires Found(After(run, sha), q, sha).None?
    ensures var other := q.(settings := settings);
            && Found(After(run + [Serve(q, w)], sha), other, sha) == Some(Body(w, q.tenant))
            && After(run + [Serve(q, w)] + [Serve(other, w')], sha).clients ==
               Hand(After(run + [Serve(q, w)], sha).clients, Body(w, q.tenant))
            && (w.text != w'.text ==> Body(w, q.tenant) != Body(w', q.tenant))
  {
    var s, first := After(run, sha), run + [Serve(q, w)];
    Then(run, Serve(q, w), sha);
    Then(first, Serve(q.(settings := settings), w'), sha);
    StoreThenLookup(s.cache, q.vec, q.vec, q.tenant, Body(w, q.tenant), DEFAULT_TTL_SECONDS, sha, s.cache.now);
    assert Body(w, q.tenant)["text"] == Str(w.text) && Body(w', q.tenant)["text"] == Str(w'.text);
  }

  /** A request cut into its parts with nothing in between is a whole request. */
  lemma UninterruptedIsWhole(run: seq<Label>, id: nat, q: Query, w: Work, sha: seq<int> -> Digest)
    requires Found(After(run, sha), q, sha).None? && id !in After(run, sha).clients.flights
    ensures After(run + [Begin(id, q)] + [Generate(id, w)] + [Finish(id)], sha) == After(run + [Serve(q, w)], sha)
  {
    var s := After(run, sha);
    Then(run, Serve(q, w), sha);
    Then(run, Begin(id, q), sha);
    Then(run + [Begin(id, q)], Generate(id, w), sha);
    Then(run + [Begin(id, q)] + [Generate(id, w)], Finish(id), sha);
    ThreeSteps(s, id, q, w, sha);
  }

  lemma ThreeSteps(s: System, id: nat, q: Query, w: Work, sha: seq<int> -> Digest)
    requires Found(s, q, sha).None? && id !in s.clients.flights
    ensures Finishing(Generating(Beginning(s, id, q, sha), id, w), id, sha) == Serving(s, q, w, sha)
  {
    var t := Generating(Beginning(s, id, q, sha), id, w);
    assert t.clients.flights - {id} == s.clients.flights;
  }

  /**
   A hit is what the asker's own request would have stored exactly when the request it came from
   worked out the same text, context, flag and coverage.
   */
  lemma ServedIsOwnIff(run: seq<Label>, q: Query, own: Work, sha: seq<int> -> Digest)
    requires Found(After(run, sha), q, sha).Some?
    ensures Found(After(run, sha), q, sha) == Some(Body(own, q.tenant)) <==>
            var work := Origin(run, q, sha).work; own == work.(usage := own.usage)
  {
    OriginMatches(run, q, sha);
    var work := Origin(run, q, sha).work;
    if Body(own, q.tenant) == Body(work, q.tenant) {
      BodyDetermines(own, work, q.tenant);
    }
  }

  // ---- tokens ---------------------------------------------------------------------------------------

  function TokensOf(works: seq<Work>): nat {
    if works == [] then 0 else TokensOf(works[..|works| - 1]) + Tokens(works[|works| - 1])
  }

  /** The sum of what callers read off the usage blocks of the dictionaries they were handed. */
  function ReportedIn(dicts: seq<Fields>): nat {
    if dicts == [] then 0 else ReportedIn(dicts[..|dicts| - 1]) + Reported(dicts[|dicts| - 1])
  }

  lemma OneMoreWork(works: seq<Work>, w: Work)
    ensures TokensOf(works + [w]) == TokensOf(works) + Tokens(w)
  {
    assert (works + [w])[..|works|] == works;
  }

  lemma OneMoreDict(dicts: seq<Fields>, d: Fields)
    ensures ReportedIn(dicts + [d]) == ReportedIn(dicts) + Reported(d)
  {
    assert (dicts + [d])[..|dicts|] == dicts;
  }

  function Held(f: Flight): nat {
    if f.Answered? then Tokens(f.work) else 0
  }

  /** Tokens of the generations under way. */
  ghost function Pending(flights: map<nat, Flight>): nat
    decreases |flights|
  {
    if flights == map[] then 0
    else
      var id :| id in flights;
      Held(flights[id]) + Pending(flights - {id})
  }

  lemma PendingWithout(flights: map<nat, Flight>, id: nat)
    requires id in flights
    ensures Pending(flights) == Held(flights[id]) + Pending(flights - {id})
    decreases |flights|
  {
    var first :| first in flights && Pending(flights) == Held(flights[first]) + Pending(flights - {first});
    if first != id {
      var a, b := flights - {first}, flights - {id};
      PendingWithout(a, id);
      PendingWithout(b, first);
      assert a - {id} == b - {first};
    }
  }

  lemma PendingWith(flights: map<nat, Flight>, id: nat, f: Flight)
    ensures Pending(flights[id := f]) == Held(f) + Pending(flights - {id})
  {
    PendingWithout(flights[id := f], id);
    assert flights[id := f] - {id} == flights - {id};
  }

  /** What a lookup finds reports nothing, because nothing stored has a usage block. */
  lemma HitReportsNothing(s: System, q: Query, sha: seq<int> -> Digest)
    requires Known(s, sha) && Found(s, q, sha).Some?
    ensures USAGE_FIELD !in Found(s, q, sha).value && Reported(Found(s, q, sha).value) == 0
  {
    var slot := SlotOf(s.cache, q.vec, q.tenant, sha);
    assert Faithful(s.cache, slot, s.born[slot], sha);
  }

  ghost predicate Balanced(c: Clients) {
    TokensOf(c.made) == ReportedIn(c.returned) + TokensOf(c.died) + Pending(c.flights)
  }

  lemma HandsNothing(s: System, q: Query, sha: seq<int> -> Digest)
    requires Known(s, sha) && Found(s, q, sha).Some? && Balanced(s.clients)
    ensures Balanced(Hand(s.clients, Found(s, q, sha).value))
  {
    HitReportsNothing(s, q, sha);
    OneMoreDict(s.clients.returned, Found(s, q, sha).value);
  }

  lemma ServeBalanced(s: System, q: Query, w: Work, sha: seq<int> -> Digest)
    requires Known(s, sha) && Balanced(s.clients)
    ensures Balanced(Serving(s, q, w, sha).clients)
  {
    if Found(s, q, sha).Some? {
      HandsNothing(s, q, sha);
    } else {
      OneMoreWork(s.clients.made, w);
      OneMoreDict(s.clients.returned, Returned(w, q.tenant));
      MissReportsItsTokens(w, q.tenant);
    }
  }

  lemma BeginBalanced(s: System, id: nat, q: Query, sha: seq<int> -> Digest)
    requires Known(s, sha) && Balanced(s.clients)
    ensures Balanced(Beginning(s, id, q, sha).clients)
  {
    if id !in s.clients.flights {
      if Found(s, q, sha).Some? {
        HandsNothing(s, q, sha);
      } else {
        PendingWith(s.clients.flights, id, Asked(q));
        assert s.clients.flights - {id} == s.clients.flights;
      }
    }
  }

  lemma GenerateBalanced(s: System, id: nat, w: Work)
    requires Balanced(s.clients)
    ensures Balanced(Generating(s, id, w).clients)
  {
    if IsAsked(s, id) {
      PendingWithout(s.clients.flights, id);
      PendingWith(s.clients.flights, id, Generating(s, id, w).clients.flights[id]);
      OneMoreWork(s.clients.made, w);
    }
  }

  lemma FinishBalanced(s: System, id: nat, sha: seq<int> -> Digest)
    requires Balanced(s.clients)
    ensures Balanced(Finishing(s, id, sha).clients)
  {
    if IsAnswered(s, id) {
      var f := s.clients.flights[id];
      PendingWithout(s.clients.flights, id);
      OneMoreDict(s.clients.returned, Returned(f.work, f.query.tenant));
      MissReportsItsTokens(f.work, f.query.tenant);
    }
  }

  lemma AbandonBalanced(s: System, id: nat)
    requires Balanced(s.clients)
    ensures Balanced(Abandoning(s, id).clients)
  {
    if id in s.clients.flights {
      PendingWithout(s.clients.flights, id);
      if s.clients.flights[id].Answered? {
        OneMoreWork(s.clients.died, s.clients.flights[id].work);
      }
    }
  }

  lemma BalancedStep(s: System, l: Label, sha: seq<int> -> Digest)
    requires Known(s, sha) && Balanced(s.clients)
    ensures Balanced(Apply(s, l, sha).clients)
  {
    match l
    case Serve(q, w) => ServeBalanced(s, q, w, sha);
    case Begin(id, q) => BeginBalanced(s, id, q, sha);
    case Generate(id, w) => GenerateBalanced(s, id, w);
    case Finish(id) => FinishBalanced(s, id, sha);
    case Abandon(id) => AbandonBalanced(s, id);
    case Ingest(_) =>
    case Bump(_) =>
    case Tick(_) =>
  }

  /**
   Over every run, the tokens of the generations made are those read off the usage blocks of the
   dictionaries returned, those of requests that died, and those of requests on their way.
   */
  lemma {:induction false} UsageConserved(run: seq<Label>, sha: seq<int> -> Digest)
    ensures var c := After(run, sha).clients;
            TokensOf(c.made) == ReportedIn(c.returned) + TokensOf(c.died) + Pending(c.flights)
  {
    if run != [] {
      UsageConserved(run[..|run| - 1], sha);
      RunKnown(run[..|run| - 1], sha);
      BalancedStep(After(run[..|run| - 1], sha), run[|run| - 1], sha);
    }
  }

  /** Without cut requests nothing is under way and nothing dies. */
  lemma {:induction false} WholeLeavesNothing(run: seq<Label>, sha: seq<int> -> Digest)
    requires forall i :: 0 <= i < |run| ==> !run[i].Begin?
    ensures After(run, sha).clients.flights == map[] && After(run, sha).clients.died == []
  {
    if run != [] {
      WholeLeavesNothing(run[..|run| - 1], sha);
    }
  }

  /** With whole requests the returned dictionaries report every token, once. */
  lemma WholeRequestsReportEverything(run: seq<Label>, sha: seq<int> -> Digest)
    requires forall i :: 0 <= i < |run| ==> !run[i].Begin?
    ensures ReportedIn(After(run, sha).clients.returned) == TokensOf(After(run, sha).clients.made)
  {
    UsageConserved(run, sha);
    WholeLeavesNothing(run, sha);
    assert Pending(map[]) == 0;
  }

  /** No stored answer carries a usage block, so no hit reports one. */
  lemma NoStoredUsage(run: seq<Label>, q: Query, sha: seq<int> -> Digest)
    requires Found(After(run, sha), q, sha).Some?
    ensures USAGE_FIELD !in Found(After(run, sha), q, sha).value
  {
    OriginMatches(run, q, sha);
  }
}
