/** The store-profile logic of the application context initializer, as
    functions over values: the profile table, the check of explicitly active
    profiles, the matching of bound services against the table, the exclusion
    plan, the published property, and `initialize` as one total function from
    the environment before startup to the environment after it (or the error
    that aborts startup). The imperative counterparts live in
    ContextInitializer and are proved equal to these functions. */
module StoreProfiles {
  import opened Outcomes
  import opened Sequences

  // ---------------------------------------------------------------------------
  // The profile table
  // ---------------------------------------------------------------------------

  /** Each supported store profile and the tags a bound service must carry to
      select it. */
  const ServiceTags: map<string, seq<string>> := map[
    "mongodb" := ["mongodb"],
    "postgres" := ["postgres"],
    "mysql" := ["mysql"],
    "redis" := ["redis"],
    "oracle" := ["oracle"],
    "sqlserver" := ["sqlserver"]
  ]

  /** The table's keys in the order in which they are written. */
  const DeclarationOrder: seq<string> :=
    ["mongodb", "postgres", "mysql", "redis", "oracle", "sqlserver"]

  predicate IsServiceProfile(p: string) {
    p in ServiceTags
  }

  predicate Distinct<T(==)>(s: seq<T>) {
    forall i, j :: 0 <= i < j < |s| ==> s[i] != s[j]
  }

  /** `keys` is one possible iteration order of the table's key set: every
      key exactly once and nothing else. The table does not fix this order. */
  ghost predicate IsKeyOrder(keys: seq<string>) {
    Distinct(keys) && forall p :: p in keys <==> p in ServiceTags
  }

  lemma DeclarationOrderIsKeyOrder()
    ensures IsKeyOrder(DeclarationOrder)
  {
  }

  /** Every profile of the table requires exactly one tag: its own name. */
  lemma TableRequiresOwnName(p: string)
    requires IsServiceProfile(p)
    ensures ServiceTags[p] == [p]
  {
  }

  lemma {:induction false} DistinctMultiplicity<T>(s: seq<T>, x: T)
    requires Distinct(s)
    ensures multiset(s)[x] == if x in s then 1 else 0
  {
    if s != [] {
      var init, last := s[..|s| - 1], s[|s| - 1];
      assert s == init + [last];
      assert Distinct(init);
      DistinctMultiplicity(init, x);
      assert last !in init by {
        forall i | 0 <= i < |init| ensures init[i] != last {
          assert s[i] == init[i];
        }
      }
    }
  }

  /** In any iteration order, each table key occurs once and nothing else does. */
  lemma KeyOrderMultiplicity(keys: seq<string>, p: string)
    requires IsKeyOrder(keys)
    ensures multiset(keys)[p] == if IsServiceProfile(p) then 1 else 0
  {
    DistinctMultiplicity(keys, p);
  }

  // ---------------------------------------------------------------------------
  // Errors that abort startup
  // ---------------------------------------------------------------------------

  /** Both checks throw an IllegalStateException; the message lists the
      conflicting profiles, kept here as a sequence. */
  datatype InitError =
    | MultipleProfilesActive(profiles: seq<string>)
    | MultipleServiceBindings(profiles: seq<string>)

  // ---------------------------------------------------------------------------
  // Explicitly active profiles
  // ---------------------------------------------------------------------------

  /** The explicitly active profiles that are keys of the table, in their
      order; every other active profile is dropped. */
  function ServiceProfiles(active: seq<string>): (r: seq<string>)
    ensures forall p :: p in r <==> p in active && IsServiceProfile(p)
    ensures |r| <= |active|
  {
    if active == [] then []
    else (if IsServiceProfile(active[0]) then [active[0]] else []) + ServiceProfiles(active[1..])
  }

  /** `validateActiveProfiles`: at most one explicitly active profile may be a
      store profile. */
  function ValidateActiveProfiles(active: seq<string>): Outcome<InitError> {
    var serviceProfiles := ServiceProfiles(active);
    if |serviceProfiles| > 1 then Fail(MultipleProfilesActive(serviceProfiles)) else Pass
  }

  lemma {:induction false} ServiceProfilesAppend(a: seq<string>, b: seq<string>)
    ensures ServiceProfiles(a + b) == ServiceProfiles(a) + ServiceProfiles(b)
  {
    if a == [] {
      assert a + b == b;
    } else {
      var head := if IsServiceProfile(a[0]) then [a[0]] else [];
      assert (a + b)[0] == a[0];
      assert (a + b)[1..] == a[1..] + b;
      assert ServiceProfiles(a + b) == head + ServiceProfiles(a[1..] + b);
      ServiceProfilesAppend(a[1..], b);
      assert ServiceProfiles(a) == head + ServiceProfiles(a[1..]);
      AppendAssociative(head, ServiceProfiles(a[1..]), ServiceProfiles(b));
    }
  }

  /** More than one store profile survives the filter exactly when two
      positions of the active list hold store profiles. */
  lemma TwoServiceProfiles(active: seq<string>)
    ensures |ServiceProfiles(active)| > 1 <==>
            exists i, j :: 0 <= i < j < |active| && IsServiceProfile(active[i]) && IsServiceProfile(active[j])
  {
    if |ServiceProfiles(active)| > 1 {
      var i, j := TwoServiceProfilesWitness(active);
    }
    if exists i, j :: 0 <= i < j < |active| && IsServiceProfile(active[i]) && IsServiceProfile(active[j]) {
      var i, j :| 0 <= i < j < |active| && IsServiceProfile(active[i]) && IsServiceProfile(active[j]);
      TwoPositionsKept(active, i, j);
    }
  }

  /** Two kept entries come from two positions holding store profiles. */
  lemma {:induction false} TwoServiceProfilesWitness(active: seq<string>) returns (i: int, j: int)
    requires |ServiceProfiles(active)| > 1
    ensures 0 <= i < j < |active| && IsServiceProfile(active[i]) && IsServiceProfile(active[j])
  {
    var t := active[1..];
    if IsServiceProfile(active[0]) {
      assert ServiceProfiles(active) == [active[0]] + ServiceProfiles(t);
      var p := ServiceProfiles(t)[0];
      assert p in ServiceProfiles(t);
      var k :| 0 <= k < |t| && t[k] == p;
      i, j := 0, k + 1;
    } else {
      assert ServiceProfiles(active) == ServiceProfiles(t);
      var i', j' := TwoServiceProfilesWitness(t);
      i, j := i' + 1, j' + 1;
    }
  }

  /** Two positions holding store profiles both survive the filter. */
  lemma TwoPositionsKept(active: seq<string>, i: int, j: int)
    requires 0 <= i < j < |active| && IsServiceProfile(active[i]) && IsServiceProfile(active[j])
    ensures |ServiceProfiles(active)| > 1
  {
    var front, back := active[..j], active[j..];
    assert active == front + back;
    ServiceProfilesAppend(front, back);
    assert active[i] == front[i];
    assert active[i] in ServiceProfiles(front);
    assert back[0] == active[j];
    assert active[j] in ServiceProfiles(back);
  }

  /** Validation fails exactly when two entries of the active list are store
      profiles, and the error lists the store profiles in their order. */
  lemma ValidateActiveProfilesFailsIff(active: seq<string>)
    ensures ValidateActiveProfiles(active).Fail? <==>
            exists i, j :: 0 <= i < j < |active| && IsServiceProfile(active[i]) && IsServiceProfile(active[j])
    ensures ValidateActiveProfiles(active).Fail? ==>
            ValidateActiveProfiles(active).error == MultipleProfilesActive(ServiceProfiles(active))
  {
    TwoServiceProfiles(active);
  }

  /** Spring keeps the active profiles as a set: then validation fails exactly
      when two different store profiles are active. */
  lemma ValidateDistinctActiveProfiles(active: seq<string>)
    requires Distinct(active)
    ensures ValidateActiveProfiles(active).Fail? <==>
            exists p, q :: p != q && p in active && q in active && IsServiceProfile(p) && IsServiceProfile(q)
  {
    TwoServiceProfiles(active);
    if exists p, q :: p != q && p in active && q in active && IsServiceProfile(p) && IsServiceProfile(q) {
      var p, q :| p != q && p in active && q in active && IsServiceProfile(p) && IsServiceProfile(q);
      var i :| 0 <= i < |active| && active[i] == p;
      var j :| 0 <= j < |active| && active[j] == q;
      if i < j {
        assert IsServiceProfile(active[i]) && IsServiceProfile(active[j]);
      } else {
        assert IsServiceProfile(active[j]) && IsServiceProfile(active[i]);
      }
    }
  }

  /** An active profile outside the table never changes the verdict. */
  lemma ValidateIgnoresOtherProfiles(a: seq<string>, q: string, b: seq<string>)
    requires !IsServiceProfile(q)
    ensures ValidateActiveProfiles(a + [q] + b) == ValidateActiveProfiles(a + b)
  {
    assert ServiceProfiles([q]) == [] by {
      assert [q][1..] == [];
    }
    ServiceProfilesAppend(a + [q], b);
    ServiceProfilesAppend(a, [q]);
    ServiceProfilesAppend(a, b);
    assert ServiceProfiles(a + [q]) == ServiceProfiles(a);
  }

  // ---------------------------------------------------------------------------
  // Bound services and tag matching
  // ---------------------------------------------------------------------------

  /** A service bound to the application, as the hosting platform reports it. */
  datatype Service = Service(name: string, tags: seq<string>)

  /** `containsAll`: `profile` is a table key and the service carries every tag
      that key requires. */
  predicate Matches(tags: seq<string>, profile: string) {
    IsServiceProfile(profile) && forall t :: t in ServiceTags[profile] ==> t in tags
  }

  /** Service `i` of `services` matches `profile`. */
  predicate Binds(services: seq<Service>, i: int, profile: string) {
    0 <= i < |services| && Matches(services[i].tags, profile)
  }

  /** With the table as written, a service matches a profile exactly when it is
      tagged with the profile's own name. */
  lemma MatchesOwnTag(tags: seq<string>, p: string)
    ensures Matches(tags, p) <==> IsServiceProfile(p) && p in tags
  {
    if IsServiceProfile(p) {
      TableRequiresOwnName(p);
    }
  }

  /** Tags beyond the required ones never prevent a match. */
  lemma MatchesWithExtraTags(tags: seq<string>, more: seq<string>, p: string)
    requires Matches(tags, p)
    ensures Matches(tags + more, p) && Matches(more + tags, p)
  {
  }

  /** The inner loop: the keys, in `keys` order, that the service's tags match. */
  function MatchingProfiles(keys: seq<string>, tags: seq<string>): (r: seq<string>)
    ensures forall p :: p in r <==> p in keys && Matches(tags, p)
  {
    if keys == [] then []
    else
      var last := keys[|keys| - 1];
      MatchingProfiles(keys[..|keys| - 1], tags) + (if Matches(tags, last) then [last] else [])
  }

  /** The candidate list built by the nested loops: one entry per (service,
      key) pair that matches, services outermost. */
  function Candidates(keys: seq<string>, services: seq<Service>): seq<string> {
    if services == [] then []
    else Candidates(keys, services[..|services| - 1]) + MatchingProfiles(keys, services[|services| - 1].tags)
  }

  /** The number of services that match `profile`. */
  function MatchCount(services: seq<Service>, profile: string): nat {
    if services == [] then 0
    else MatchCount(services[..|services| - 1], profile)
         + (if Matches(services[|services| - 1].tags, profile) then 1 else 0)
  }

  /** `addCloudProfile` without its effect: more than one candidate is an
      error, a single candidate is the profile to activate, none leaves the
      profiles alone. */
  function ResolveBinding(keys: seq<string>, services: seq<Service>): Result<Option<string>, InitError> {
    var profiles := Candidates(keys, services);
    if |profiles| > 1 then Failure(MultipleServiceBindings(profiles))
    else if |profiles| > 0 then Success(Some(profiles[0]))
    else Success(None)
  }

  /** A key is a candidate exactly when some service matches it. */
  lemma {:induction false} CandidateMembers(keys: seq<string>, services: seq<Service>, p: string)
    ensures p in Candidates(keys, services) <==> p in keys && exists i :: Binds(services, i, p)
  {
    if services != [] {
      var n := |services| - 1;
      var init, last := services[..n], services[n];
      CandidateMembers(keys, init, p);
      assert services == init + [last];
      assert Candidates(keys, services) == Candidates(keys, init) + MatchingProfiles(keys, last.tags);
      BindsInitOrLast(init, last, p);
    }
  }

  /** A service of `init + [last]` binds `p` exactly when one of `init` does
      or `last` does. */
  lemma BindsInitOrLast(init: seq<Service>, last: Service, p: string)
    ensures (exists i :: Binds(init + [last], i, p)) <==> (exists i :: Binds(init, i, p)) || Matches(last.tags, p)
  {
    var services := init + [last];
    if exists i :: Binds(services, i, p) {
      var i :| Binds(services, i, p);
      if i < |init| {
        assert services[i] == init[i];
        assert Binds(init, i, p);
      }
    }
    if exists i :: Binds(init, i, p) {
      var i :| Binds(init, i, p);
      assert services[i] == init[i];
      assert Binds(services, i, p);
    }
    if Matches(last.tags, p) {
      assert Binds(services, |init|, p);
    }
  }

  lemma {:induction false} MatchingMultiplicity(keys: seq<string>, tags: seq<string>, p: string)
    ensures multiset(MatchingProfiles(keys, tags))[p] == if Matches(tags, p) then multiset(keys)[p] else 0
  {
    if keys != [] {
      var init, last := keys[..|keys| - 1], keys[|keys| - 1];
      assert keys == init + [last];
      MatchingMultiplicity(init, tags, p);
    }
  }

  /** The candidate list holds each table key once per service that matches
      it, whatever the iteration order of the keys. */
  lemma {:induction false} CandidateMultiplicity(keys: seq<string>, services: seq<Service>, p: string)
    requires IsKeyOrder(keys)
    ensures multiset(Candidates(keys, services))[p] == MatchCount(services, p)
  {
    if services != [] {
      var init := services[..|services| - 1];
      CandidateMultiplicity(keys, init, p);
      MatchingMultiplicity(keys, services[|services| - 1].tags, p);
      KeyOrderMultiplicity(keys, p);
    }
  }

  lemma {:induction false} MatchCountPositive(services: seq<Service>, p: string)
    ensures MatchCount(services, p) > 0 <==> exists i :: Binds(services, i, p)
  {
    if services != [] {
      var n := |services| - 1;
      var init := services[..n];
      MatchCountPositive(init, p);
      assert Matches(services[n].tags, p) ==> Binds(services, n, p);
      if exists i :: Binds(services, i, p) {
        var i :| Binds(services, i, p);
        if i < n {
          assert Binds(init, i, p);
        }
      }
      if exists i :: Binds(init, i, p) {
        var i :| Binds(init, i, p);
        assert Binds(services, i, p);
      }
    }
  }

  lemma {:induction false} MatchCountAtLeastTwo(services: seq<Service>, p: string, i: int, j: int)
    requires Binds(services, i, p) && Binds(services, j, p) && i != j
    ensures MatchCount(services, p) >= 2
  {
    var n := |services| - 1;
    var init := services[..n];
    assert MatchCount(services, p) == MatchCount(init, p) + (if Matches(services[n].tags, p) then 1 else 0);
    if i == n {
      assert Binds(init, j, p);
      MatchCountPositive(init, p);
    } else if j == n {
      assert Binds(init, i, p);
      MatchCountPositive(init, p);
    } else {
      assert Binds(init, i, p) && Binds(init, j, p);
      MatchCountAtLeastTwo(init, p, i, j);
    }
  }

  lemma {:induction false} MatchCountAtMostOne(services: seq<Service>, p: string, i: int)
    requires forall j :: Binds(services, j, p) ==> j == i
    ensures MatchCount(services, p) <= 1
  {
    if services != [] {
      var n := |services| - 1;
      var init := services[..n];
      assert MatchCount(services, p) == MatchCount(init, p) + (if Matches(services[n].tags, p) then 1 else 0);
      if Binds(services, n, p) {
        forall j | Binds(init, j, p) ensures false {
          assert Binds(services, j, p);
        }
        MatchCountPositive(init, p);
      } else {
        forall j | Binds(init, j, p) ensures j == i {
          assert Binds(services, j, p);
        }
        MatchCountAtMostOne(init, p, i);
      }
    }
  }

  /** No profile is resolved exactly when no service matches any profile. */
  lemma ResolveBindingNone(keys: seq<string>, services: seq<Service>)
    requires IsKeyOrder(keys)
    ensures ResolveBinding(keys, services) == Success(None) <==> forall i, p :: !Binds(services, i, p)
  {
    var c := Candidates(keys, services);
    if |c| > 0 {
      CandidateMembers(keys, services, c[0]);
    }
    if exists i, p :: Binds(services, i, p) {
      var i, p :| Binds(services, i, p);
      CandidateMembers(keys, services, p);
    }
  }

  /** A resolved profile is the profile of the one and only matching (service,
      profile) pair. */
  lemma ResolveBindingSingleSound(keys: seq<string>, services: seq<Service>, p: string)
    requires IsKeyOrder(keys)
    requires ResolveBinding(keys, services) == Success(Some(p))
    ensures exists i :: Binds(services, i, p) && forall j, q :: Binds(services, j, q) ==> j == i && q == p
  {
    var c := Candidates(keys, services);
    assert c == [p];
    CandidateMembers(keys, services, p);
    var i :| Binds(services, i, p);
    CandidateMultiplicity(keys, services, p);
    assert multiset(c)[p] == 1;
    forall j, q | Binds(services, j, q) ensures j == i && q == p {
      CandidateMembers(keys, services, q);
      assert q in c;
      if j != i {
        MatchCountAtLeastTwo(services, p, i, j);
      }
    }
  }

  /** When one single (service, profile) pair matches, its profile is resolved. */
  lemma ResolveBindingSingleComplete(keys: seq<string>, services: seq<Service>, p: string, i: int)
    requires IsKeyOrder(keys)
    requires Binds(services, i, p)
    requires forall j, q :: Binds(services, j, q) ==> j == i && q == p
    ensures ResolveBinding(keys, services) == Success(Some(p))
  {
    var c := Candidates(keys, services);
    CandidateMembers(keys, services, p);
    assert p in c;
    forall x | x in c ensures x == p {
      CandidateMembers(keys, services, x);
    }
    if |c| > 1 {
      assert c[0] in c && c[1] in c;
      assert c == [c[0], c[1]] + c[2..];
      assert multiset(c)[p] >= 2;
      CandidateMultiplicity(keys, services, p);
      MatchCountAtMostOne(services, p, i);
    }
    assert c[0] in c;
  }

  /** Resolution fails exactly when two different (service, profile) pairs
      match: two services for different profiles, two services for the same
      profile, or one service for two profiles. */
  lemma ResolveBindingFails(keys: seq<string>, services: seq<Service>)
    requires IsKeyOrder(keys)
    ensures ResolveBinding(keys, services).Failure? <==>
            exists i, p, j, q :: Binds(services, i, p) && Binds(services, j, q) && (i != j || p != q)
    ensures ResolveBinding(keys, services).Failure? ==>
            ResolveBinding(keys, services).error == MultipleServiceBindings(Candidates(keys, services))
  {
    ResolveBindingNone(keys, services);
    var r := ResolveBinding(keys, services);
    if r.Failure? {
      var i, p :| Binds(services, i, p);
      if forall j, q :: Binds(services, j, q) ==> j == i && q == p {
        ResolveBindingSingleComplete(keys, services, p, i);
      }
      var j, q :| Binds(services, j, q) && !(j == i && q == p);
      if i != j {
        assert Binds(services, i, p) && Binds(services, j, q) && i != j;
      } else {
        assert Binds(services, i, p) && Binds(services, j, q) && p != q;
      }
    }
    if exists i, p, j, q :: Binds(services, i, p) && Binds(services, j, q) && (i != j || p != q) {
      var i, p, j, q :| Binds(services, i, p) && Binds(services, j, q) && (i != j || p != q);
      if r.Success? {
        ResolveBindingSingleSound(keys, services, r.value.value);
      }
    }
  }

  /** The iteration order of the table's keys cannot change whether resolution
      succeeds or what it resolves; it only orders the profiles in the error. */
  lemma ResolveBindingOrderIndependent(k1: seq<string>, k2: seq<string>, services: seq<Service>)
    requires IsKeyOrder(k1) && IsKeyOrder(k2)
    ensures multiset(Candidates(k1, services)) == multiset(Candidates(k2, services))
    ensures ResolveBinding(k1, services).Success? == ResolveBinding(k2, services).Success?
    ensures ResolveBinding(k1, services).Success? ==> ResolveBinding(k1, services) == ResolveBinding(k2, services)
  {
    var c1, c2 := Candidates(k1, services), Candidates(k2, services);
    forall p ensures multiset(c1)[p] == multiset(c2)[p] {
      CandidateMultiplicity(k1, services, p);
      CandidateMultiplicity(k2, services, p);
    }
    assert multiset(c1) == multiset(c2);
    assert |c1| == |c2| by {
      assert |multiset(c1)| == |c1|;
      assert |multiset(c2)| == |c2|;
    }
    if |c1| == 1 {
      assert c1 == [c1[0]];
      assert c2 == [c2[0]];
      assert multiset(c2)[c1[0]] == 1;
    }
  }

  // ---------------------------------------------------------------------------
  // The exclusion plan
  // ---------------------------------------------------------------------------

  /** The Spring Boot auto-configurations that the initializer may switch off. */
  datatype AutoConfiguration =
    | DataSourceAutoConfiguration
    | MongoAutoConfiguration
    | DataMongoAutoConfiguration
    | DataMongoRepositoriesAutoConfiguration
    | DataRedisAutoConfiguration
    | DataRedisRepositoriesAutoConfiguration
  {
    /** The fully-qualified class name that is published. */
    function ClassName(): string {
      match this
      case DataSourceAutoConfiguration => DataSourceClassName
      case MongoAutoConfiguration => MongoClassName
      case DataMongoAutoConfiguration => DataMongoClassName
      case DataMongoRepositoriesAutoConfiguration => DataMongoRepositoriesClassName
      case DataRedisAutoConfiguration => DataRedisClassName
      case DataRedisRepositoriesAutoConfiguration => DataRedisRepositoriesClassName
    }
  }

  const BootPackage: string := "org.springframework.boot."
  const JdbcPackage: string := "jdbc.autoconfigure."
  const MongoPackage: string := "mongodb.autoconfigure."
  const DataMongoPackage: string := "data.mongodb.autoconfigure."
  const DataRedisPackage: string := "data.redis.autoconfigure."

  const DataSourceClassName: string := BootPackage + JdbcPackage + "DataSourceAutoConfiguration"
  const MongoClassName: string := BootPackage + MongoPackage + "MongoAutoConfiguration"
  const DataMongoClassName: string := BootPackage + DataMongoPackage + "DataMongoAutoConfiguration"
  const DataMongoRepositoriesClassName: string :=
    BootPackage + DataMongoPackage + "DataMongoRepositoriesAutoConfiguration"
  const DataRedisClassName: string := BootPackage + DataRedisPackage + "DataRedisAutoConfiguration"
  const DataRedisRepositoriesClassName: string :=
    BootPackage + DataRedisPackage + "DataRedisRepositoriesAutoConfiguration"

  // The comma-freedom of each literal, one lemma per constant.
  lemma BootPackageCommaFree() ensures ',' !in BootPackage {}
  lemma JdbcPackageCommaFree() ensures ',' !in JdbcPackage {}
  lemma MongoPackageCommaFree() ensures ',' !in MongoPackage {}
  lemma DataMongoPackageCommaFree() ensures ',' !in DataMongoPackage {}
  lemma DataRedisPackageCommaFree() ensures ',' !in DataRedisPackage {}

  lemma PackagesCommaFree()
    ensures ',' !in BootPackage && ',' !in JdbcPackage && ',' !in MongoPackage
    ensures ',' !in DataMongoPackage && ',' !in DataRedisPackage
  {
    BootPackageCommaFree();
    JdbcPackageCommaFree();
    MongoPackageCommaFree();
    DataMongoPackageCommaFree();
    DataRedisPackageCommaFree();
  }
  lemma DataSourceClassNameCommaFree() ensures ',' !in DataSourceClassName {
    PackagesCommaFree();
    assert ',' !in "DataSourceAutoConfiguration";
  }
  lemma MongoClassNameCommaFree() ensures ',' !in MongoClassName {
    PackagesCommaFree();
    assert ',' !in "MongoAutoConfiguration";
  }
  lemma DataMongoClassNameCommaFree() ensures ',' !in DataMongoClassName {
    PackagesCommaFree();
    assert ',' !in "DataMongoAutoConfiguration";
  }
  lemma DataMongoRepositoriesClassNameCommaFree() ensures ',' !in DataMongoRepositoriesClassName {
    PackagesCommaFree();
    assert ',' !in "DataMongoRepositoriesAutoConfiguration";
  }
  lemma DataRedisClassNameCommaFree() ensures ',' !in DataRedisClassName {
    PackagesCommaFree();
    assert ',' !in "DataRedisAutoConfiguration";
  }
  lemma DataRedisRepositoriesClassNameCommaFree() ensures ',' !in DataRedisRepositoriesClassName {
    PackagesCommaFree();
    assert ',' !in "DataRedisRepositoriesAutoConfiguration";
  }

  /** No published class name contains the list separator. */
  lemma ClassNameCommaFree(a: AutoConfiguration)
    ensures ',' !in a.ClassName()
  {
    match a
    case DataSourceAutoConfiguration => DataSourceClassNameCommaFree();
    case MongoAutoConfiguration => MongoClassNameCommaFree();
    case DataMongoAutoConfiguration => DataMongoClassNameCommaFree();
    case DataMongoRepositoriesAutoConfiguration => DataMongoRepositoriesClassNameCommaFree();
    case DataRedisAutoConfiguration => DataRedisClassNameCommaFree();
    case DataRedisRepositoriesAutoConfiguration => DataRedisRepositoriesClassNameCommaFree();
  }

  /** The kind of store an auto-configuration sets up. */
  datatype Store = Relational | Document | KeyValue

  function StoreOf(a: AutoConfiguration): Store {
    match a
    case DataSourceAutoConfiguration => Relational
    case MongoAutoConfiguration | DataMongoAutoConfiguration | DataMongoRepositoriesAutoConfiguration => Document
    case DataRedisAutoConfiguration | DataRedisRepositoriesAutoConfiguration => KeyValue
  }

  /** What `excludeDataSourceAutoConfiguration` appends. */
  const DataSourceAutoConfigurations: seq<AutoConfiguration> := [DataSourceAutoConfiguration]

  /** What `excludeMongoAutoConfiguration` appends, in its order. */
  const MongoAutoConfigurations: seq<AutoConfiguration> :=
    [MongoAutoConfiguration, DataMongoAutoConfiguration, DataMongoRepositoriesAutoConfiguration]

  /** What `excludeRedisAutoConfiguration` appends, in its order. */
  const RedisAutoConfigurations: seq<AutoConfiguration> :=
    [DataRedisAutoConfiguration, DataRedisRepositoriesAutoConfiguration]

  /** Every auto-configuration the initializer knows, helper by helper. */
  const AllAutoConfigurations: seq<AutoConfiguration> :=
    DataSourceAutoConfigurations + MongoAutoConfigurations + RedisAutoConfigurations

  /** The exclusion list that `excludeAutoConfiguration` builds from the final
      active profiles; "redis" is tested before "mongodb". */
  function ExclusionPlan(active: seq<string>): seq<AutoConfiguration> {
    if "redis" in active then DataSourceAutoConfigurations + MongoAutoConfigurations
    else if "mongodb" in active then DataSourceAutoConfigurations + RedisAutoConfigurations
    else MongoAutoConfigurations + RedisAutoConfigurations
  }

  /** The store the application ends up using: key/value when "redis" is
      active, otherwise document when "mongodb" is, otherwise relational. */
  function SelectedStore(active: seq<string>): Store {
    if "redis" in active then KeyValue
    else if "mongodb" in active then Document
    else Relational
  }

  /** The auto-configurations of `all` that do not set up store `s`, in order. */
  function OtherStores(all: seq<AutoConfiguration>, s: Store): seq<AutoConfiguration> {
    if all == [] then []
    else (if StoreOf(all[0]) != s then [all[0]] else []) + OtherStores(all[1..], s)
  }

  /** The plan switches off exactly the auto-configurations of the stores not
      in use, in helper order. */
  lemma ExclusionPlanSpec(active: seq<string>)
    ensures ExclusionPlan(active) == OtherStores(AllAutoConfigurations, SelectedStore(active))
  {
    OtherStoresOfAll(SelectedStore(active));
  }

  /** Filtering the full list by store, one helper's block at a time. */
  lemma OtherStoresOfAll(s: Store)
    ensures OtherStores(AllAutoConfigurations, s) ==
            match s
            case KeyValue => DataSourceAutoConfigurations + MongoAutoConfigurations
            case Document => DataSourceAutoConfigurations + RedisAutoConfigurations
            case Relational => MongoAutoConfigurations + RedisAutoConfigurations
  {
    var ds, mongo, redis := DataSourceAutoConfigurations, MongoAutoConfigurations, RedisAutoConfigurations;
    OtherStoresOfBlocks(s);
    OtherStoresOfDataSource(s);
    OtherStoresOfMongo(s);
    OtherStoresOfRedis(s);
    match s
    case KeyValue =>
      assert ds + mongo + [] == ds + mongo;
    case Document =>
      assert ds + [] == ds;
    case Relational =>
      assert [] + mongo == mongo;
  }

  /** The full list filtered block by block. */
  lemma OtherStoresOfBlocks(s: Store)
    ensures OtherStores(AllAutoConfigurations, s) ==
            OtherStores(DataSourceAutoConfigurations, s) + OtherStores(MongoAutoConfigurations, s)
            + OtherStores(RedisAutoConfigurations, s)
  {
    var ds, mongo, redis := DataSourceAutoConfigurations, MongoAutoConfigurations, RedisAutoConfigurations;
    assert AllAutoConfigurations == ds + mongo + redis;
    OtherStoresAppend(ds + mongo, redis, s);
    OtherStoresAppend(ds, mongo, s);
  }


  /** The plan never switches off an auto-configuration of the store in use
      and switches off every other one. */
  lemma ExclusionPlanMembers(active: seq<string>, a: AutoConfiguration)
    ensures a in ExclusionPlan(active) <==> StoreOf(a) != SelectedStore(active)
  {
    ExclusionPlanSpec(active);
    AllAutoConfigurationsListed(a);
    OtherStoresMembers(AllAutoConfigurations, SelectedStore(active), a);
  }

  lemma AllAutoConfigurationsListed(a: AutoConfiguration)
    ensures a in AllAutoConfigurations
  {
    assert AllAutoConfigurations == [DataSourceAutoConfiguration, MongoAutoConfiguration,
      DataMongoAutoConfiguration, DataMongoRepositoriesAutoConfiguration,
      DataRedisAutoConfiguration, DataRedisRepositoriesAutoConfiguration];
  }

  lemma {:induction false} OtherStoresMembers(all: seq<AutoConfiguration>, s: Store, a: AutoConfiguration)
    ensures a in OtherStores(all, s) <==> a in all && StoreOf(a) != s
  {
    if all != [] {
      OtherStoresMembers(all[1..], s, a);
      assert all == [all[0]] + all[1..];
    }
  }

  lemma OtherStoresOfDataSource(s: Store)
    ensures OtherStores(DataSourceAutoConfigurations, s) == if s == Relational then [] else DataSourceAutoConfigurations
  {
    assert DataSourceAutoConfigurations[1..] == [];
  }

  lemma OtherStoresOfMongo(s: Store)
    ensures OtherStores(MongoAutoConfigurations, s) == if s == Document then [] else MongoAutoConfigurations
  {
    var m := MongoAutoConfigurations;
    assert m[1..][1..][1..] == [];
    assert m[1..][1..] == [DataMongoRepositoriesAutoConfiguration];
    assert m[1..] == [DataMongoAutoConfiguration, DataMongoRepositoriesAutoConfiguration];
  }

  lemma OtherStoresOfRedis(s: Store)
    ensures OtherStores(RedisAutoConfigurations, s) == if s == KeyValue then [] else RedisAutoConfigurations
  {
    var r := RedisAutoConfigurations;
    assert r[1..][1..] == [];
    assert r[1..] == [DataRedisRepositoriesAutoConfiguration];
  }

  lemma {:induction false} OtherStoresAppend(a: seq<AutoConfiguration>, b: seq<AutoConfiguration>, s: Store)
    ensures OtherStores(a + b, s) == OtherStores(a, s) + OtherStores(b, s)
  {
    if a == [] {
      assert a + b == b;
    } else {
      var ab := a + b;
      var head := if StoreOf(a[0]) != s then [a[0]] else [];
      assert ab != [] && ab[0] == a[0] && ab[1..] == a[1..] + b;
      assert OtherStores(ab, s) == head + OtherStores(a[1..] + b, s);
      assert OtherStores(a, s) == head + OtherStores(a[1..], s);
      OtherStoresAppend(a[1..], b, s);
      AppendAssociative(head, OtherStores(a[1..], s), OtherStores(b, s));
    }
  }


  // ---------------------------------------------------------------------------
  // The published property
  // ---------------------------------------------------------------------------

  /** `collectionToCommaDelimitedString`: the elements joined by commas. */
  function Join(xs: seq<string>): string {
    if |xs| == 0 then ""
    else if |xs| == 1 then xs[0]
    else xs[0] + "," + Join(xs[1..])
  }

  /** How a comma-delimited property value is read back as a list: the pieces
      between commas, empty pieces included. */
  function Split(s: string): (r: seq<string>)
    ensures |r| > 0
  {
    if s == [] then [""]
    else
      var rest := Split(s[1..]);
      if s[0] == ',' then [""] + rest else [[s[0]] + rest[0]] + rest[1..]
  }

  lemma {:induction false} SplitPrefix(a: string, t: string)
    requires ',' !in a
    ensures Split(a + t) == [a + Split(t)[0]] + Split(t)[1..]
  {
    if a == [] {
      assert a + t == t;
      assert a + Split(t)[0] == Split(t)[0];
    } else {
      assert (a + t)[0] == a[0];
      assert (a + t)[1..] == a[1..] + t;
      SplitPrefix(a[1..], t);
      assert [a[0]] + (a[1..] + Split(t)[0]) == a + Split(t)[0];
    }
  }

  /** Joining a non-empty list of comma-free names and splitting the result
      gives the list back, in order. */
  lemma {:induction false} SplitJoin(xs: seq<string>)
    requires |xs| > 0
    requires forall x :: x in xs ==> ',' !in x
    ensures Split(Join(xs)) == xs
  {
    if |xs| == 1 {
      SplitPrefix(xs[0], "");
      assert xs[0] + "" == xs[0];
    } else {
      var rest := Join(xs[1..]);
      SplitJoin(xs[1..]);
      SplitPrefix(xs[0], "," + rest);
      assert xs[0] + "," + rest == xs[0] + ("," + rest);
      assert ("," + rest)[0] == ',';
      assert ("," + rest)[1..] == rest;
      assert Split("," + rest) == [""] + xs[1..];
      assert xs[0] + "" == xs[0];
      assert xs == [xs[0]] + xs[1..];
    }
  }

  function ClassNames(plan: seq<AutoConfiguration>): (r: seq<string>)
    ensures |r| == |plan|
    ensures forall i :: 0 <= i < |plan| ==> r[i] == plan[i].ClassName()
  {
    seq(|plan|, i requires 0 <= i < |plan| => plan[i].ClassName())
  }

  /** The six class names have six different lengths. */
  lemma ClassNameLength(a: AutoConfiguration)
    ensures |a.ClassName()| ==
            match a
            case DataSourceAutoConfiguration => 71
            case MongoAutoConfiguration => 69
            case DataMongoAutoConfiguration => 78
            case DataMongoRepositoriesAutoConfiguration => 90
            case DataRedisAutoConfiguration => 76
            case DataRedisRepositoriesAutoConfiguration => 88
  {
  }

  /** Different auto-configurations publish different class names, so the
      published list names each excluded auto-configuration unambiguously. */
  lemma ClassNameInjective(a: AutoConfiguration, b: AutoConfiguration)
    ensures a.ClassName() == b.ClassName() <==> a == b
  {
    ClassNameLength(a);
    ClassNameLength(b);
  }

  /** A class name is published exactly when it names an auto-configuration
      of a store other than the one in use. */
  lemma PublishedNames(active: seq<string>, x: string)
    ensures x in ClassNames(ExclusionPlan(active)) <==>
            exists a: AutoConfiguration :: a.ClassName() == x && StoreOf(a) != SelectedStore(active)
  {
    var plan := ExclusionPlan(active);
    var names := ClassNames(plan);
    if x in names {
      var i :| 0 <= i < |names| && names[i] == x;
      ExclusionPlanMembers(active, plan[i]);
      assert plan[i].ClassName() == x;
    }
    if exists a: AutoConfiguration :: a.ClassName() == x && StoreOf(a) != SelectedStore(active) {
      var a: AutoConfiguration :| a.ClassName() == x && StoreOf(a) != SelectedStore(active);
      ExclusionPlanMembers(active, a);
      var i :| 0 <= i < |plan| && plan[i] == a;
      assert names[i] == x;
    }
  }

  /** A named set of configuration properties. */
  datatype PropertySource = PropertySource(name: string, properties: map<string, string>)

  const ExcludeProperty: string := "spring.autoconfigure.exclude"
  const ExclusionSourceName: string := "springMusicAutoConfig"

  /** The property source `excludeAutoConfiguration` publishes. */
  function ExclusionSource(active: seq<string>): PropertySource {
    PropertySource(ExclusionSourceName, map[ExcludeProperty := Join(ClassNames(ExclusionPlan(active)))])
  }

  /** A property's value as seen through a chain of sources: the first source
      that defines it wins. */
  function Lookup(sources: seq<PropertySource>, key: string): Option<string> {
    if sources == [] then None
    else if key in sources[0].properties then Some(sources[0].properties[key])
    else Lookup(sources[1..], key)
  }

  /** Put first in the chain, the published value overrides any other value of
      the exclusion property, reads back as the plan's class names in order,
      and leaves every other property as it was. */
  lemma PublishedExclusions(active: seq<string>, rest: seq<PropertySource>)
    ensures Lookup([ExclusionSource(active)] + rest, ExcludeProperty).Some?
    ensures Split(Lookup([ExclusionSource(active)] + rest, ExcludeProperty).value)
            == ClassNames(ExclusionPlan(active))
    ensures forall k :: k != ExcludeProperty ==> Lookup([ExclusionSource(active)] + rest, k) == Lookup(rest, k)
  {
    var plan := ExclusionPlan(active);
    var names := ClassNames(plan);
    assert |plan| > 0;
    forall x | x in names ensures ',' !in x {
      var i :| 0 <= i < |names| && names[i] == x;
      ClassNameCommaFree(plan[i]);
    }
    SplitJoin(names);
    var chain := [ExclusionSource(active)] + rest;
    assert chain[1..] == rest;
  }

  // ---------------------------------------------------------------------------
  // initialize
  // ---------------------------------------------------------------------------

  /** What the initializer reads and changes in the Spring environment. */
  datatype EnvironmentState = EnvironmentState(activeProfiles: seq<string>, propertySources: seq<PropertySource>)

  /** `addActiveProfile`: the active profiles are an insertion-ordered set. */
  function WithProfile(active: seq<string>, p: string): (r: seq<string>)
    ensures forall q :: q in r <==> q in active || q == p
  {
    if p in active then active else active + [p]
  }

  /** `initialize`: validate, then add the cloud profile, then publish the
      exclusions; the first step that throws ends startup with nothing changed. */
  function Initialize(env: EnvironmentState, services: seq<Service>, keys: seq<string>): Result<EnvironmentState, InitError> {
    match ValidateActiveProfiles(env.activeProfiles)
    case Fail(e) => Failure(e)
    case Pass =>
      match ResolveBinding(keys, services)
      case Failure(e) => Failure(e)
      case Success(resolved) =>
        var active := if resolved.Some? then WithProfile(env.activeProfiles, resolved.value) else env.activeProfiles;
        Success(EnvironmentState(active, [ExclusionSource(active)] + env.propertySources))
  }

  /** Startup fails exactly when two entries of the explicit list are store
      profiles or two (service, profile) pairs match; the explicit check runs
      first, so its error wins when both apply. */
  lemma InitializeFails(env: EnvironmentState, services: seq<Service>, keys: seq<string>)
    requires IsKeyOrder(keys)
    ensures Initialize(env, services, keys).Failure? <==>
            (exists i, j :: 0 <= i < j < |env.activeProfiles| &&
                IsServiceProfile(env.activeProfiles[i]) && IsServiceProfile(env.activeProfiles[j])) ||
            (exists i, p, j, q :: Binds(services, i, p) && Binds(services, j, q) && (i != j || p != q))
    ensures ValidateActiveProfiles(env.activeProfiles).Fail? ==>
            Initialize(env, services, keys) == Failure(MultipleProfilesActive(ServiceProfiles(env.activeProfiles)))
    ensures ValidateActiveProfiles(env.activeProfiles) == Pass && ResolveBinding(keys, services).Failure? ==>
            Initialize(env, services, keys) == Failure(MultipleServiceBindings(Candidates(keys, services)))
  {
    ValidateActiveProfilesFailsIff(env.activeProfiles);
    ResolveBindingFails(keys, services);
  }

  /** After a successful startup the active profiles are the explicit ones
      plus the profiles of bound services (one at most, appended unless already
      active), the exclusion source heads the chain and the rest of the chain
      is untouched. */
  lemma InitializeSucceeds(env: EnvironmentState, services: seq<Service>, keys: seq<string>)
    requires IsKeyOrder(keys)
    requires Initialize(env, services, keys).Success?
    ensures var after := Initialize(env, services, keys).value;
      && (forall p :: p in after.activeProfiles <==> p in env.activeProfiles || exists i :: Binds(services, i, p))
      && |env.activeProfiles| <= |after.activeProfiles| <= |env.activeProfiles| + 1
      && after.activeProfiles[..|env.activeProfiles|] == env.activeProfiles
      && after.propertySources == [ExclusionSource(after.activeProfiles)] + env.propertySources
  {
    var resolved := ResolveBinding(keys, services).value;
    ResolvedProfiles(keys, services);
    var active := if resolved.Some? then WithProfile(env.activeProfiles, resolved.value) else env.activeProfiles;
    assert Initialize(env, services, keys).value == EnvironmentState(active, [ExclusionSource(active)] + env.propertySources);
    assert active[..|env.activeProfiles|] == env.activeProfiles;
    forall p ensures p in active <==> p in env.activeProfiles || exists i :: Binds(services, i, p) {
      if resolved.Some? {
        assert p in active <==> p in env.activeProfiles || p == resolved.value;
      }
      assert (exists i :: Binds(services, i, p)) <==> resolved == Some(p);
    }
  }

  /** A resolved binding names exactly the profiles that some service binds. */
  lemma ResolvedProfiles(keys: seq<string>, services: seq<Service>)
    requires IsKeyOrder(keys)
    requires ResolveBinding(keys, services).Success?
    ensures forall p :: (exists i :: Binds(services, i, p)) <==> ResolveBinding(keys, services).value == Some(p)
  {
    ResolveBindingNone(keys, services);
    var resolved := ResolveBinding(keys, services).value;
    if resolved.Some? {
      var p := resolved.value;
      ResolveBindingSingleSound(keys, services, p);
      var i :| Binds(services, i, p) && forall j, q :: Binds(services, j, q) ==> j == i && q == p;
    }
  }

  /** The iteration order of the table's keys does not change the outcome of
      startup, only the order of the profiles named in a binding error. */
  lemma InitializeOrderIndependent(env: EnvironmentState, services: seq<Service>, k1: seq<string>, k2: seq<string>)
    requires IsKeyOrder(k1) && IsKeyOrder(k2)
    ensures Initialize(env, services, k1).Success? == Initialize(env, services, k2).Success?
    ensures Initialize(env, services, k1).Success? ==> Initialize(env, services, k1) == Initialize(env, services, k2)
    ensures Initialize(env, services, k1).Failure? ==>
            Initialize(env, services, k1).error.MultipleProfilesActive? ==
            Initialize(env, services, k2).error.MultipleProfilesActive?
    ensures Initialize(env, services, k1).Failure? && Initialize(env, services, k1).error.MultipleProfilesActive? ==>
            Initialize(env, services, k1) == Initialize(env, services, k2)
    ensures Initialize(env, services, k1).Failure? && Initialize(env, services, k1).error.MultipleServiceBindings? ==>
            Initialize(env, services, k2).Failure? && Initialize(env, services, k2).error.MultipleServiceBindings? &&
            multiset(Initialize(env, services, k1).error.profiles) == multiset(Initialize(env, services, k2).error.profiles)
  {
    ResolveBindingOrderIndependent(k1, k2, services);
  }
}
