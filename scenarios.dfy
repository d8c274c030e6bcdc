/** Concrete startups and seedings, derived from the general lemmas. */
module Scenarios {
  import opened Outcomes
  import opened StoreProfiles
  import AlbumSeeding

  const NoSources: seq<PropertySource> := []

  /** The only (service, profile) pair of a single service tagged "redis" is
      (0, "redis"), so the binding resolves to "redis" in any key order. */
  lemma SingleRedisServiceResolves(keys: seq<string>)
    requires IsKeyOrder(keys)
    ensures ResolveBinding(keys, [Service("db1", ["redis"])]) == Success(Some("redis"))
  {
    var services := [Service("db1", ["redis"])];
    forall j, q | Binds(services, j, q) ensures j == 0 && q == "redis" {
      MatchesOwnTag(services[j].tags, q);
    }
    MatchesOwnTag(services[0].tags, "redis");
    ResolveBindingSingleComplete(keys, services, "redis", 0);
  }

  /** One service tagged "redis" and nothing active: the redis profile is
      added and the relational and document auto-configurations are excluded. */
  lemma RedisBinding()
    ensures Initialize(EnvironmentState([], NoSources), [Service("db1", ["redis"])], DeclarationOrder)
            == Success(EnvironmentState(["redis"], [ExclusionSource(["redis"])]))
    ensures ExclusionPlan(["redis"]) == DataSourceAutoConfigurations + MongoAutoConfigurations
  {
    DeclarationOrderIsKeyOrder();
    SingleRedisServiceResolves(DeclarationOrder);
    assert ServiceProfiles([]) == [];
    assert WithProfile([], "redis") == ["redis"];
    assert [ExclusionSource(["redis"])] + NoSources == [ExclusionSource(["redis"])];
  }

  /** The number of matches among two services is the sum of their own. */
  lemma MatchCountOfTwo(s0: Service, s1: Service, p: string)
    ensures MatchCount([s0, s1], p) ==
            (if Matches(s0.tags, p) then 1 else 0) + (if Matches(s1.tags, p) then 1 else 0)
  {
    assert [s0, s1][..1] == [s0];
    assert [s0][..0] == [];
    assert MatchCount([s0], p) == (if Matches(s0.tags, p) then 1 else 0);
  }

  /** Two services tagged with one store profile each yield exactly those two
      candidates, in any key order. */
  lemma TwoTaggedServices(keys: seq<string>, s0: Service, s1: Service, a: string, b: string)
    requires IsKeyOrder(keys)
    requires IsServiceProfile(a) && IsServiceProfile(b)
    requires s0.tags == [a] && s1.tags == [b]
    ensures multiset(Candidates(keys, [s0, s1])) == multiset{a, b}
    ensures ResolveBinding(keys, [s0, s1]) == Failure(MultipleServiceBindings(Candidates(keys, [s0, s1])))
  {
    var c := Candidates(keys, [s0, s1]);
    forall p ensures multiset(c)[p] == multiset{a, b}[p] {
      CandidateMultiplicity(keys, [s0, s1], p);
      MatchCountOfTwo(s0, s1, p);
      MatchesOwnTag(s0.tags, p);
      MatchesOwnTag(s1.tags, p);
    }
    assert multiset(c) == multiset{a, b};
    assert |c| == 2 by {
      assert |multiset(c)| == |c|;
    }
  }

  /** With nothing active explicitly, a binding failure is the startup error. */
  lemma NoExplicitProfileBindingFails(services: seq<Service>, keys: seq<string>)
    requires IsKeyOrder(keys)
    requires ResolveBinding(keys, services).Failure?
    ensures Initialize(EnvironmentState([], NoSources), services, keys)
            == Failure(MultipleServiceBindings(Candidates(keys, services)))
  {
    assert ServiceProfiles([]) == [];
    InitializeFails(EnvironmentState([], NoSources), services, keys);
  }

  /** A postgres service and a mongodb service: startup fails with a binding
      error listing exactly those two profiles, in whatever key order. */
  lemma TwoStoreBindings(keys: seq<string>)
    requires IsKeyOrder(keys)
    ensures var services := [Service("db1", ["postgres"]), Service("db2", ["mongodb"])];
            Initialize(EnvironmentState([], NoSources), services, keys)
              == Failure(MultipleServiceBindings(Candidates(keys, services))) &&
            multiset(Candidates(keys, services)) == multiset{"postgres", "mongodb"}
  {
    var services := [Service("db1", ["postgres"]), Service("db2", ["mongodb"])];
    TwoTaggedServices(keys, services[0], services[1], "postgres", "mongodb");
    NoExplicitProfileBindingFails(services, keys);
  }

  /** Two services that both match redis also fail: entries are counted, not
      distinct profiles, so "redis" is listed twice. */
  lemma SameStoreBoundTwice(keys: seq<string>)
    requires IsKeyOrder(keys)
    ensures var services := [Service("cache1", ["redis"]), Service("cache2", ["redis"])];
            Initialize(EnvironmentState([], NoSources), services, keys)
              == Failure(MultipleServiceBindings(Candidates(keys, services))) &&
            multiset(Candidates(keys, services)) == multiset{"redis", "redis"}
  {
    var services := [Service("cache1", ["redis"]), Service("cache2", ["redis"])];
    TwoTaggedServices(keys, services[0], services[1], "redis", "redis");
    NoExplicitProfileBindingFails(services, keys);
  }

  /** "redis" and "mongodb" both set explicitly: startup fails before any
      binding is looked at, naming both profiles. */
  lemma TwoExplicitProfiles()
    ensures Initialize(EnvironmentState(["redis", "mongodb"], NoSources), [], DeclarationOrder)
            == Failure(MultipleProfilesActive(["redis", "mongodb"]))
  {
    var active := ["redis", "mongodb"];
    assert IsServiceProfile("redis") && IsServiceProfile("mongodb");
    assert active[1..] == ["mongodb"] && active[1..][1..] == [];
    assert ServiceProfiles(active[1..][1..]) == [];
    assert ServiceProfiles(active[1..]) == ["mongodb"];
    assert ServiceProfiles(active) == active;
  }

  /** No services and no profiles: nothing is added and the document and
      key/value auto-configurations are excluded. */
  lemma NothingBound()
    ensures Initialize(EnvironmentState([], NoSources), [], DeclarationOrder)
            == Success(EnvironmentState([], [ExclusionSource([])]))
    ensures ExclusionPlan([]) == MongoAutoConfigurations + RedisAutoConfigurations
  {
    assert ServiceProfiles([]) == [];
    assert Candidates(DeclarationOrder, []) == [];
    assert [ExclusionSource([])] + NoSources == [ExclusionSource([])];
  }

  /** An explicit "mongodb" profile with a redis service bound passes both
      checks, leaves two store profiles active, and redis wins the exclusion
      plan. */
  lemma ExplicitMongoWithRedisBinding()
    ensures Initialize(EnvironmentState(["mongodb"], NoSources), [Service("db1", ["redis"])], DeclarationOrder)
            == Success(EnvironmentState(["mongodb", "redis"], [ExclusionSource(["mongodb", "redis"])]))
    ensures ExclusionPlan(["mongodb", "redis"]) == DataSourceAutoConfigurations + MongoAutoConfigurations
  {
    DeclarationOrderIsKeyOrder();
    SingleRedisServiceResolves(DeclarationOrder);
    OneExplicitProfilePasses("mongodb");
    assert WithProfile(["mongodb"], "redis") == ["mongodb", "redis"];
    assert [ExclusionSource(["mongodb", "redis"])] + NoSources == [ExclusionSource(["mongodb", "redis"])];
  }

  /** A single explicitly active profile always passes validation. */
  lemma OneExplicitProfilePasses(p: string)
    ensures ValidateActiveProfiles([p]) == Pass
  {
    assert [p][1..] == [];
    assert |ServiceProfiles([p])| <= 1;
  }

  /** Seeding an empty repository from [X, null, Y] leaves exactly X then Y. */
  lemma SeedSkipsNull()
    ensures AlbumSeeding.OnReady([], {}, AlbumSeeding.Loaded([Some("X"), None, Some("Y")])) == (["X", "Y"], Pass)
  {
    var albums: seq<Option<string>> := [Some("X"), None, Some("Y")];
    AlbumSeeding.SeedEmptyRepository({}, albums);
    assert albums[1..][1..] == [Some("Y")] && albums[1..][1..][1..] == [];
    assert AlbumSeeding.NonNull(albums[1..][1..]) == ["Y"];
    assert AlbumSeeding.NonNull(albums) == ["X", "Y"];
  }
}
