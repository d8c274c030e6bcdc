# Spring Music startup: store-profile resolution and album seeding

This project models in Dafny the two parts of the Spring Music sample application that carry real invariants.

**Context initializer.** `SpringApplicationContextInitializer` runs before the application context starts. It:

1. checks that at most one explicitly active Spring profile names a backing store;
2. matches the tags of each bound cloud service against the profile table (`mongodb`, `postgres`, `mysql`, `redis`, `oracle`, `sqlserver`);
3. activates the single matching profile, or fails when more than one (service, profile) pair matches;
4. publishes, as the highest-precedence property source, a comma-joined `spring.autoconfigure.exclude` list that switches off the auto-configurations of the stores not in use.

**Album repository populator.** `AlbumRepositoryPopulator` seeds the album repository from the bundled dataset when the application is ready. It does this only if the repository is empty. Null entries are skipped, and any failure while loading or saving is wrapped in a `RuntimeException`.

Modules:

- `Outcomes` (`outcomes.dfy`) holds the null-or-value, value-or-exception and pass-or-exception datatypes.
- `StoreProfiles` (`store_profiles.dfy`) is the initializer as functions on values, with the lemmas about them. It covers:
  - the profile table;
  - validation of the explicit profiles;
  - tag matching, the candidate list and resolution;
  - the exclusion plan;
  - the comma join and its inverse split;
  - the property-source chain;
  - `initialize` as one total function.
- `ContextInitializer` (`context_initializer.dfy`) is the initializer as it runs.
  - A mutable `Environment` object is changed in place.
  - An `ExclusionList` object is filled by the three helpers.
  - The nested loops of `addCloudProfile` collect the candidates.
  - Each method is proved equal to its `StoreProfiles` function.
- `AlbumSeeding` (`album_seeding.dfy`) is the populator. A `Repository` object has a record list that grows with each save. The save loop is a `while` loop, proved against a recursive specification.
- `Sequences` (`seqs.dfy`) holds one general sequence fact used by the append lemmas.
- `Scenarios` (`scenarios.dfy`) contains concrete startups and seedings, derived from the general lemmas.

The iteration order of `Map.of(...).keySet()` is unspecified in Java. The model therefore takes the key order as a parameter `keys`: any duplicate-free enumeration of the table's keys (`IsKeyOrder`). `ResolveBindingOrderIndependent` and `InitializeOrderIndependent` prove that this order changes only the order of the profiles named in a binding error: whether startup succeeds, the resulting environment, an explicit-profile error, and the multiset of profiles in a binding error are the same for every key order.

Behaviour of the code worth knowing:

- **Entries, not profiles.** The binding check counts candidate entries, not distinct profiles. Two services that both carry the `redis` tag make startup fail (`Scenarios.SameStoreBoundTwice`).
- **The error names profiles.** The binding error lists the matched profile names, one per (service, profile) pair. It does not list service names.
- **Two store profiles can end up active.** Validation looks only at the explicit profiles, before the binding profile is added. An explicit `mongodb` with a bound `redis` service passes both checks and leaves both profiles active. `redis` is tested first, so it wins the exclusion plan (`Scenarios.ExplicitMongoWithRedisBinding`).

## Model

| member | source | states |
|---|---|---|
| StoreProfiles.TableRequiresOwnName | src/main/java/org/cloudfoundry/samples/music/config/SpringApplicationContextInitializer.java:33-40 | every profile of the table requires exactly one tag, its own name |
| StoreProfiles.DeclarationOrderIsKeyOrder | src/main/java/org/cloudfoundry/samples/music/config/SpringApplicationContextInitializer.java:33-40 | the six profiles as written are one valid enumeration of the table's keys |
| StoreProfiles.KeyOrderMultiplicity | src/main/java/org/cloudfoundry/samples/music/config/SpringApplicationContextInitializer.java:66 | every key order visits each table key exactly once and nothing else |
| StoreProfiles.ServiceProfiles | src/main/java/org/cloudfoundry/samples/music/config/SpringApplicationContextInitializer.java:88-92 | the filtered list holds exactly the active profiles that are table keys and is no longer than the active list |
| StoreProfiles.ServiceProfilesAppend | src/main/java/org/cloudfoundry/samples/music/config/SpringApplicationContextInitializer.java:90-92 | the filter keeps the order of the active profiles (it distributes over concatenation) |
| StoreProfiles.TwoServiceProfiles | src/main/java/org/cloudfoundry/samples/music/config/SpringApplicationContextInitializer.java:90-94 | more than one store profile is kept exactly when two positions of the active list both hold table keys |
| StoreProfiles.ValidateActiveProfiles | src/main/java/org/cloudfoundry/samples/music/config/SpringApplicationContextInitializer.java:87-100 | `validateActiveProfiles` as a function: fails with the filtered store profiles when more than one is active; its meaning is stated by `ValidateActiveProfilesFailsIff` and `ValidateIgnoresOtherProfiles` |
| StoreProfiles.ValidateActiveProfilesFailsIff | src/main/java/org/cloudfoundry/samples/music/config/SpringApplicationContextInitializer.java:87-100 | validation fails exactly when two active entries are store profiles, and the error names the store profiles in active order |
| StoreProfiles.ValidateDistinctActiveProfiles | src/main/java/org/cloudfoundry/samples/music/config/SpringApplicationContextInitializer.java:87-100 | on a duplicate-free active list, validation fails exactly when two different store profiles are active |
| StoreProfiles.ValidateIgnoresOtherProfiles | src/main/java/org/cloudfoundry/samples/music/config/SpringApplicationContextInitializer.java:90-92 | adding or removing a profile that is not a table key never changes the validation outcome |
| StoreProfiles.IsServiceProfile | src/main/java/org/cloudfoundry/samples/music/config/SpringApplicationContextInitializer.java:88-91 | `validLocalProfiles::contains`: membership in the key set of the table; `TableRequiresOwnName` and `KeyOrderMultiplicity` state which strings those are |
| StoreProfiles.Matches | src/main/java/org/cloudfoundry/samples/music/config/SpringApplicationContextInitializer.java:67 | the `containsAll` test of a service's tags against a key's required tags; its meaning for this table is stated by `MatchesOwnTag` and `MatchesWithExtraTags` |
| StoreProfiles.MatchesOwnTag | src/main/java/org/cloudfoundry/samples/music/config/SpringApplicationContextInitializer.java:67 | with this table a service matches a profile exactly when it carries the profile's own name as a tag |
| StoreProfiles.MatchesWithExtraTags | src/main/java/org/cloudfoundry/samples/music/config/SpringApplicationContextInitializer.java:67 | matching is a superset test: extra service tags before or after the required ones never prevent a match |
| StoreProfiles.MatchingProfiles | src/main/java/org/cloudfoundry/samples/music/config/SpringApplicationContextInitializer.java:66-70 | the inner loop records exactly the keys whose required tags the service carries |
| StoreProfiles.Candidates | src/main/java/org/cloudfoundry/samples/music/config/SpringApplicationContextInitializer.java:65-71 | the candidate list of the nested loops, services outer and keys inner; its contents are stated by `CandidateMembers` and `CandidateMultiplicity` |
| StoreProfiles.CandidateMembers | src/main/java/org/cloudfoundry/samples/music/config/SpringApplicationContextInitializer.java:65-71 | a profile is a candidate exactly when it is a key and some bound service matches it |
| StoreProfiles.CandidateMultiplicity | src/main/java/org/cloudfoundry/samples/music/config/SpringApplicationContextInitializer.java:65-71 | each profile appears in the candidate list once per service that matches it |
| StoreProfiles.ResolveBinding | src/main/java/org/cloudfoundry/samples/music/config/SpringApplicationContextInitializer.java:53-85 | `addCloudProfile` without its effect: fail with the candidates when there are several, else the single candidate or nothing; its meaning is stated by the four `ResolveBinding…` lemmas below |
| StoreProfiles.ResolveBindingNone | src/main/java/org/cloudfoundry/samples/music/config/SpringApplicationContextInitializer.java:73-85 | no profile is added exactly when no service matches any profile |
| StoreProfiles.ResolveBindingSingleSound | src/main/java/org/cloudfoundry/samples/music/config/SpringApplicationContextInitializer.java:81-84 | when a profile is added, exactly one (service, profile) pair matches and it is that profile |
| StoreProfiles.ResolveBindingSingleComplete | src/main/java/org/cloudfoundry/samples/music/config/SpringApplicationContextInitializer.java:81-84 | when exactly one (service, profile) pair matches, that profile is the one added |
| StoreProfiles.ResolveBindingFails | src/main/java/org/cloudfoundry/samples/music/config/SpringApplicationContextInitializer.java:73-79 | the binding check fails exactly when two different (service, profile) pairs match, and the error names the candidate list |
| StoreProfiles.ResolveBindingOrderIndependent | src/main/java/org/cloudfoundry/samples/music/config/SpringApplicationContextInitializer.java:66 | every key order gives the same candidates up to permutation and the same resolved profile |
| StoreProfiles.AutoConfiguration.ClassName | src/main/java/org/cloudfoundry/samples/music/config/SpringApplicationContextInitializer.java:124-138 | the `X.class.getName()` of each auto-configuration; its meaning is stated by `ClassNameInjective` and `ClassNameCommaFree` |
| StoreProfiles.ClassNameCommaFree | src/main/java/org/cloudfoundry/samples/music/config/SpringApplicationContextInitializer.java:123-140 | no excluded class name contains a comma |
| StoreProfiles.AllAutoConfigurationsListed | src/main/java/org/cloudfoundry/samples/music/config/SpringApplicationContextInitializer.java:123-140 | the three helpers together cover every store auto-configuration |
| StoreProfiles.OtherStoresMembers | src/main/java/org/cloudfoundry/samples/music/config/SpringApplicationContextInitializer.java:102-113 | filtering by store keeps exactly the auto-configurations of the other stores |
| StoreProfiles.SelectedStore | src/main/java/org/cloudfoundry/samples/music/config/SpringApplicationContextInitializer.java:104-113 | the store the branch chain of `excludeAutoConfiguration` keeps: redis before mongodb before the relational default; used by `ExclusionPlanMembers` and `PublishedNames` |
| StoreProfiles.ExclusionPlan | src/main/java/org/cloudfoundry/samples/music/config/SpringApplicationContextInitializer.java:102-113 | the exclusion list of the three branches; stated by `ExclusionPlanSpec` and `ExclusionPlanMembers` |
| StoreProfiles.ExclusionPlanSpec | src/main/java/org/cloudfoundry/samples/music/config/SpringApplicationContextInitializer.java:102-113 | the plan is the full auto-configuration list minus the selected store's entries, in helper order |
| StoreProfiles.ExclusionPlanMembers | src/main/java/org/cloudfoundry/samples/music/config/SpringApplicationContextInitializer.java:102-113 | an auto-configuration is excluded exactly when it belongs to a store other than the selected one (redis before mongodb before the relational default) |
| StoreProfiles.Join | src/main/java/org/cloudfoundry/samples/music/config/SpringApplicationContextInitializer.java:116 | `collectionToCommaDelimitedString`; `SplitJoin` proves it loses nothing on comma-free names |
| StoreProfiles.SplitJoin | src/main/java/org/cloudfoundry/samples/music/config/SpringApplicationContextInitializer.java:115-116 | splitting the comma-joined form of a non-empty list of comma-free names at commas gives back the list (the exclusion plan is never empty) |
| StoreProfiles.ClassNameInjective | src/main/java/org/cloudfoundry/samples/music/config/SpringApplicationContextInitializer.java:124-138 | the six class-name constants are pairwise different, so two auto-configurations publish the same name only if they are the same |
| StoreProfiles.PublishedNames | src/main/java/org/cloudfoundry/samples/music/config/SpringApplicationContextInitializer.java:102-116 | a class name is in the published list exactly when it is the name of an auto-configuration whose store is not the selected one |
| StoreProfiles.ExclusionSource | src/main/java/org/cloudfoundry/samples/music/config/SpringApplicationContextInitializer.java:115-118 | the `springMusicAutoConfig` source holding the joined plan under the exclude key; stated by `PublishedExclusions` |
| StoreProfiles.Lookup | src/main/java/org/cloudfoundry/samples/music/config/SpringApplicationContextInitializer.java:120 | property resolution through the source chain, first source wins, which is what `addFirst` relies on; stated by `PublishedExclusions` |
| StoreProfiles.PublishedExclusions | src/main/java/org/cloudfoundry/samples/music/config/SpringApplicationContextInitializer.java:115-120 | after addFirst, looking up the exclude key finds the new source, whose split value is the plan's class names; every other key resolves as before |
| StoreProfiles.WithProfile | src/main/java/org/cloudfoundry/samples/music/config/SpringApplicationContextInitializer.java:83 | after activation the active profiles are the old ones plus the new one |
| StoreProfiles.Initialize | src/main/java/org/cloudfoundry/samples/music/config/SpringApplicationContextInitializer.java:43-51 | `initialize` as one total function: validate, resolve, then publish; stated by `InitializeFails`, `InitializeSucceeds` and `InitializeOrderIndependent` |
| StoreProfiles.InitializeFails | src/main/java/org/cloudfoundry/samples/music/config/SpringApplicationContextInitializer.java:43-51 | startup fails exactly when two explicit store profiles are active or two (service, profile) pairs match; the explicit check's error, naming the explicit store profiles, wins when both apply; otherwise the error names the candidate list |
| StoreProfiles.InitializeSucceeds | src/main/java/org/cloudfoundry/samples/music/config/SpringApplicationContextInitializer.java:43-51 | after a successful startup the active profiles are the explicit ones plus any bound profile (at most one, appended), and the exclusion source heads the unchanged chain |
| StoreProfiles.InitializeOrderIndependent | src/main/java/org/cloudfoundry/samples/music/config/SpringApplicationContextInitializer.java:33-40 | the key order of the table never changes whether startup succeeds, the resulting environment, or which kind of error is raised; an explicit-profile error is identical and a binding error names the same profiles up to order |
| ContextInitializer.Environment.AcceptsProfile | src/main/java/org/cloudfoundry/samples/music/config/SpringApplicationContextInitializer.java:104-107 | `acceptsProfiles` for one profile, read as membership in the active profiles; `ExcludeAutoConfiguration` proves the branch chain built on it equals `ExclusionPlan` |
| ContextInitializer.Environment.AddActiveProfile | src/main/java/org/cloudfoundry/samples/music/config/SpringApplicationContextInitializer.java:83 | adds a profile to the active set without duplicating it; the property sources are unchanged |
| ContextInitializer.Environment.AddFirst | src/main/java/org/cloudfoundry/samples/music/config/SpringApplicationContextInitializer.java:120 | puts the source ahead of every other property source; the active profiles are unchanged |
| ContextInitializer.ExcludeDataSourceAutoConfiguration | src/main/java/org/cloudfoundry/samples/music/config/SpringApplicationContextInitializer.java:123-125 | appends the relational auto-configuration to the list |
| ContextInitializer.ExcludeMongoAutoConfiguration | src/main/java/org/cloudfoundry/samples/music/config/SpringApplicationContextInitializer.java:127-133 | appends the three document-store auto-configurations, in order |
| ContextInitializer.ExcludeRedisAutoConfiguration | src/main/java/org/cloudfoundry/samples/music/config/SpringApplicationContextInitializer.java:135-140 | appends the two key/value auto-configurations, in order |
| ContextInitializer.ExcludeAutoConfiguration | src/main/java/org/cloudfoundry/samples/music/config/SpringApplicationContextInitializer.java:102-121 | prepends the exclusion source for the current active profiles and leaves the profiles unchanged |
| ContextInitializer.CollectCandidates | src/main/java/org/cloudfoundry/samples/music/config/SpringApplicationContextInitializer.java:65-71 | the nested loops build exactly the candidate list of the specification |
| ContextInitializer.AddCloudProfile | src/main/java/org/cloudfoundry/samples/music/config/SpringApplicationContextInitializer.java:53-85 | throws with the candidate list and changes nothing when several candidates exist; otherwise activates the single candidate, if any |
| ContextInitializer.Initialize | src/main/java/org/cloudfoundry/samples/music/config/SpringApplicationContextInitializer.java:43-51 | runs the three steps in order; on failure the environment is as before, on success it equals the specification's result |
| Scenarios.SingleRedisServiceResolves | src/main/java/org/cloudfoundry/samples/music/config/SpringApplicationContextInitializer.java:65-84 | a single service tagged redis resolves to the redis profile in every key order |
| Scenarios.RedisBinding | src/main/java/org/cloudfoundry/samples/music/config/SpringApplicationContextInitializer.java:43-51 | a redis binding activates redis and excludes the relational and document auto-configurations |
| Scenarios.TwoStoreBindings | src/main/java/org/cloudfoundry/samples/music/config/SpringApplicationContextInitializer.java:73-79 | in every key order, a postgres and a mongodb binding make startup fail with a binding error whose profiles are exactly postgres and mongodb |
| Scenarios.SameStoreBoundTwice | src/main/java/org/cloudfoundry/samples/music/config/SpringApplicationContextInitializer.java:73-79 | in every key order, two redis bindings make startup fail with a binding error naming redis twice, because entries are counted |
| Scenarios.TwoExplicitProfiles | src/main/java/org/cloudfoundry/samples/music/config/SpringApplicationContextInitializer.java:94-98 | explicit redis and mongodb fail validation, naming both in order |
| Scenarios.OneExplicitProfilePasses | src/main/java/org/cloudfoundry/samples/music/config/SpringApplicationContextInitializer.java:94 | a single explicitly active profile never fails validation |
| Scenarios.NothingBound | src/main/java/org/cloudfoundry/samples/music/config/SpringApplicationContextInitializer.java:110-113 | with no bindings and no profiles the document and key/value auto-configurations are excluded |
| Scenarios.ExplicitMongoWithRedisBinding | src/main/java/org/cloudfoundry/samples/music/config/SpringApplicationContextInitializer.java:104-107 | explicit mongodb plus a redis binding leaves both active, and redis decides the plan |
| AlbumSeeding.Repository.Count | src/main/java/org/cloudfoundry/samples/music/repositories/AlbumRepositoryPopulator.java:29 | `count()`: the number of records held; `OnApplicationEvent` tests it against 0 |
| AlbumSeeding.Repository.Save | src/main/java/org/cloudfoundry/samples/music/repositories/AlbumRepositoryPopulator.java:42 | a save appends the album unless the store rejects it, in which case nothing is stored |
| AlbumSeeding.FirstRejected | src/main/java/org/cloudfoundry/samples/music/repositories/AlbumRepositoryPopulator.java:40-44 | the position of the first album the store rejects: none before it is rejected, and the one there is |
| AlbumSeeding.NonNull | src/main/java/org/cloudfoundry/samples/music/repositories/AlbumRepositoryPopulator.java:40-43 | the albums the loop passes to `save`; stated by `NonNullAppend`, `NonNullCount` and `NonNullMembers` |
| AlbumSeeding.SaveEach | src/main/java/org/cloudfoundry/samples/music/repositories/AlbumRepositoryPopulator.java:40-44 | the save loop, stopping at the first save that throws; stated by `SaveEachSpec` |
| AlbumSeeding.NonNullAppend | src/main/java/org/cloudfoundry/samples/music/repositories/AlbumRepositoryPopulator.java:40-43 | skipping nulls keeps the dataset order |
| AlbumSeeding.NonNullCount | src/main/java/org/cloudfoundry/samples/music/repositories/AlbumRepositoryPopulator.java:41-43 | a dataset of N entries with K nulls yields N - K albums to save |
| AlbumSeeding.NonNullMembers | src/main/java/org/cloudfoundry/samples/music/repositories/AlbumRepositoryPopulator.java:41-43 | an album is saved exactly when it occurs non-null in the dataset |
| AlbumSeeding.SaveEachSpec | src/main/java/org/cloudfoundry/samples/music/repositories/AlbumRepositoryPopulator.java:40-44 | the save loop stores the non-null albums in order up to the first rejected one, and reports that one |
| AlbumSeeding.Populated | src/main/java/org/cloudfoundry/samples/music/repositories/AlbumRepositoryPopulator.java:35-48 | `populate` as a function: records afterwards and outcome; stated by `PopulatedSpec` |
| AlbumSeeding.PopulatedSpec | src/main/java/org/cloudfoundry/samples/music/repositories/AlbumRepositoryPopulator.java:35-48 | an unreadable dataset writes nothing and fails; otherwise the saved prefix stays and a rejection is wrapped with its album as cause |
| AlbumSeeding.OnReady | src/main/java/org/cloudfoundry/samples/music/repositories/AlbumRepositoryPopulator.java:29-31 | `onApplicationEvent` on a present repository: populate only when the count is 0; stated by `SeedEmptyRepository`, `SeedOnce` and `FailedSeedIsRetriedOnlyIfEmpty` |
| AlbumSeeding.SeedEmptyRepository | src/main/java/org/cloudfoundry/samples/music/repositories/AlbumRepositoryPopulator.java:29-44 | seeding an empty store that rejects nothing saves exactly the N - K non-null albums in dataset order and succeeds |
| AlbumSeeding.SeedOnce | src/main/java/org/cloudfoundry/samples/music/repositories/AlbumRepositoryPopulator.java:29-31 | once a seed has left any record, every later event writes nothing and succeeds |
| AlbumSeeding.FailedSeedIsRetriedOnlyIfEmpty | src/main/java/org/cloudfoundry/samples/music/repositories/AlbumRepositoryPopulator.java:29-47 | a failed seed leaves the store empty (and so is retried) exactly when the dataset was unreadable or the first album was rejected |
| AlbumSeeding.Populate | src/main/java/org/cloudfoundry/samples/music/repositories/AlbumRepositoryPopulator.java:35-48 | the loop leaves the records and outcome that the specification of populate gives |
| AlbumSeeding.OnApplicationEvent | src/main/java/org/cloudfoundry/samples/music/repositories/AlbumRepositoryPopulator.java:25-32 | a missing repository is ignored; otherwise the repository is populated only if its count is 0 |
| Scenarios.SeedSkipsNull | src/main/java/org/cloudfoundry/samples/music/repositories/AlbumRepositoryPopulator.java:40-44 | seeding from [X, null, Y] stores exactly X then Y |

## Left out

- Service discovery through `CfEnv` (VCAP_SERVICES) is not modelled. The bound services are a parameter: a list of names and tag lists.
- The logging calls are left out; they have no effect on state.
- The text of the exception messages is not modelled. The errors carry the profile list that the messages print.
- Iteration order of `Map.of` keys: a parameter, constrained to enumerate the table's keys once each.
- `acceptsProfiles` is modelled as membership in the active profiles. Spring's fallback to the default profiles when none is active is not modelled; with only store-profile names tested it does not arise unless a default profile is named `redis` or `mongodb`.
- `addFirst` is modelled as a plain prepend. Spring first removes an existing source with the same name; the initializer runs once, so no such source exists.
- The class names of the auto-configurations are string constants. Java class loading is not part of the model.
- AlbumSeeding.OnApplicationEvent: the bean lookup (lines 26-27) is not modelled; the repository is a parameter that may be null. The lookup (which throws rather than returning null when no bean exists) and `count()` (line 29) run outside the `try` of `populate`, so an exception from either escapes unwrapped; the model treats both as total and does not capture that path.
- Reading and parsing `albums.json` with Jackson is not modelled. The dataset is a parameter: a list of entries (null or an album), or the reason it could not be read.
- `AlbumSeeding.Repository.Save` models a save as an append that the store may reject. Whether a save is rejected depends only on the album value (a fixed set of rejected albums), so a store that accepts an album once and fails on a later save of the same album cannot be expressed. Upsert by id, generated ids and the stores' own write semantics are not modelled.
- Two application instances seeding one shared store concurrently can both see a count of 0. This race is not modelled; the model is single-threaded.
- The `Album` domain class, the web controllers, `RedisConfig.java` and the store adapters are not part of this model.
