/** The application context initializer as it runs: it reads and changes a
    Spring environment in place, builds its candidate list with nested loops
    and fills its exclusion list step by step. Each method is proved to do what
    the functions of StoreProfiles say. */
module ContextInitializer {
  import opened Outcomes
  import opened StoreProfiles

  /** The parts of Spring's ConfigurableEnvironment that the initializer reads
      and changes. */
  class Environment {
    var activeProfiles: seq<string>
    var propertySources: seq<PropertySource>

    constructor (activeProfiles: seq<string>, propertySources: seq<PropertySource>)
      ensures State() == EnvironmentState(activeProfiles, propertySources)
    {
      this.activeProfiles := activeProfiles;
      this.propertySources := propertySources;
    }

    function State(): EnvironmentState
      reads this
    {
      EnvironmentState(activeProfiles, propertySources)
    }

    /** `acceptsProfiles(Profiles.of(profile))`, read as membership in the
        active profiles. */
    predicate AcceptsProfile(profile: string)
      reads this
    {
      profile in activeProfiles
    }

    /** `addActiveProfile`: a profile that is already active is not added twice. */
    method AddActiveProfile(profile: string)
      modifies this
      ensures activeProfiles == WithProfile(old(activeProfiles), profile)
      ensures propertySources == old(propertySources)
    {
      if profile !in activeProfiles {
        activeProfiles := activeProfiles + [profile];
      }
    }

    /** `getPropertySources().addFirst(source)`: the source gets the highest
        precedence. */
    method AddFirst(source: PropertySource)
      modifies this
      ensures propertySources == [source] + old(propertySources)
      ensures activeProfiles == old(activeProfiles)
    {
      propertySources := [source] + propertySources;
    }
  }

  /** The list of auto-configurations to exclude, which `excludeAutoConfiguration`
      creates empty and its helpers append to. */
  class ExclusionList {
    var items: seq<AutoConfiguration>

    constructor ()
      ensures items == []
    {
      items := [];
    }
  }

  method ExcludeDataSourceAutoConfiguration(exclude: ExclusionList)
    modifies exclude
    ensures exclude.items == old(exclude.items) + DataSourceAutoConfigurations
  {
    exclude.items := exclude.items + [DataSourceAutoConfiguration];
  }

  method ExcludeMongoAutoConfiguration(exclude: ExclusionList)
    modifies exclude
    ensures exclude.items == old(exclude.items) + MongoAutoConfigurations
  {
    exclude.items := exclude.items + [MongoAutoConfiguration, DataMongoAutoConfiguration,
                                      DataMongoRepositoriesAutoConfiguration];
  }

  method ExcludeRedisAutoConfiguration(exclude: ExclusionList)
    modifies exclude
    ensures exclude.items == old(exclude.items) + RedisAutoConfigurations
  {
    exclude.items := exclude.items + [DataRedisAutoConfiguration, DataRedisRepositoriesAutoConfiguration];
  }

  /** `excludeAutoConfiguration`: publishes, ahead of every other property
      source, the comma-joined exclusion plan of the current active profiles. */
  method ExcludeAutoConfiguration(env: Environment)
    modifies env
    ensures env.activeProfiles == old(env.activeProfiles)
    ensures env.propertySources == [ExclusionSource(env.activeProfiles)] + old(env.propertySources)
  {
    var exclude := new ExclusionList();
    if env.AcceptsProfile("redis") {
      ExcludeDataSourceAutoConfiguration(exclude);
      ExcludeMongoAutoConfiguration(exclude);
    } else if env.AcceptsProfile("mongodb") {
      ExcludeDataSourceAutoConfiguration(exclude);
      ExcludeRedisAutoConfiguration(exclude);
    } else {
      ExcludeMongoAutoConfiguration(exclude);
      ExcludeRedisAutoConfiguration(exclude);
    }
    assert exclude.items == ExclusionPlan(env.activeProfiles);
    var properties := map[ExcludeProperty := Join(ClassNames(exclude.items))];
    env.AddFirst(PropertySource(ExclusionSourceName, properties));
  }

  /** The nested loops of `addCloudProfile`: for each service, for each key of
      the table in `keys` order, record the key when the service carries all
      of its tags. */
  method CollectCandidates(services: seq<Service>, keys: seq<string>) returns (profiles: seq<string>)
    ensures profiles == Candidates(keys, services)
  {
    profiles := [];
    var i := 0;
    while i < |services|
      invariant 0 <= i <= |services|
      invariant profiles == Candidates(keys, services[..i])
    {
      var service := services[i];
      var j := 0;
      while j < |keys|
        invariant 0 <= j <= |keys|
        invariant profiles == Candidates(keys, services[..i]) + MatchingProfiles(keys[..j], service.tags)
      {
        if Matches(service.tags, keys[j]) {
          profiles := profiles + [keys[j]];
        }
        MatchingProfilesStep(keys, j, service.tags);
        j := j + 1;
      }
      assert keys[..j] == keys;
      CandidatesStep(keys, services, i);
      i := i + 1;
    }
    assert services[..i] == services;
  }

  /** One more key of the inner loop adds that key when the service matches it. */
  lemma MatchingProfilesStep(keys: seq<string>, j: int, tags: seq<string>)
    requires 0 <= j < |keys|
    ensures MatchingProfiles(keys[..j + 1], tags)
            == MatchingProfiles(keys[..j], tags) + (if Matches(tags, keys[j]) then [keys[j]] else [])
  {
    assert keys[..j + 1][..j] == keys[..j];
  }

  /** One more service of the outer loop adds its matching keys. */
  lemma CandidatesStep(keys: seq<string>, services: seq<Service>, i: int)
    requires 0 <= i < |services|
    ensures Candidates(keys, services[..i + 1]) == Candidates(keys, services[..i]) + MatchingProfiles(keys, services[i].tags)
  {
    assert services[..i + 1][..i] == services[..i];
  }

  /** `addCloudProfile`: more than one candidate aborts with nothing changed;
      a single candidate becomes active; none leaves the environment alone. */
  method AddCloudProfile(env: Environment, services: seq<Service>, keys: seq<string>)
    returns (outcome: Outcome<InitError>)
    modifies env
    ensures env.propertySources == old(env.propertySources)
    ensures match ResolveBinding(keys, services)
      case Failure(e) => outcome == Fail(e) && env.activeProfiles == old(env.activeProfiles)
      case Success(resolved) =>
        && outcome == Pass
        && env.activeProfiles == if resolved.Some? then WithProfile(old(env.activeProfiles), resolved.value)
                                 else old(env.activeProfiles)
  {
    var profiles := CollectCandidates(services, keys);
    if |profiles| > 1 {
      return Fail(MultipleServiceBindings(profiles));
    }
    if |profiles| > 0 {
      env.AddActiveProfile(profiles[0]);
    }
    return Pass;
  }

  /** `initialize`: validate the explicit profiles, then add the cloud profile,
      then exclude auto-configurations; a step that throws ends the run and the
      environment is left as it was. */
  method Initialize(env: Environment, services: seq<Service>, keys: seq<string>)
    returns (outcome: Outcome<InitError>)
    modifies env
    ensures match StoreProfiles.Initialize(old(env.State()), services, keys)
      case Failure(e) => outcome == Fail(e) && env.State() == old(env.State())
      case Success(after) => outcome == Pass && env.State() == after
  {
    outcome := ValidateActiveProfiles(env.activeProfiles);
    if outcome.Fail? {
      return;
    }
    outcome := AddCloudProfile(env, services, keys);
    if outcome.Fail? {
      return;
    }
    ExcludeAutoConfiguration(env);
  }
}
