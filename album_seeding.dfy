/** The album repository populator: when the application is ready, an empty
    repository receives every non-null album of the bundled dataset, in order;
    a repository that already holds records is left alone. The repository is
    an object whose record list grows with each save. */
module AlbumSeeding {
  import opened Outcomes

  /** The bundled album list after parsing: its entries in file order (a JSON
      null gives None), or the reason it could not be read or parsed. */
  datatype Dataset<T> = Loaded(albums: seq<Option<T>>) | Unreadable(reason: string)

  /** The exception that `populate` wraps. */
  datatype Cause<T> = DatasetUnreadable(reason: string) | SaveRejected(album: T)

  /** Every failure leaves `populate` as a RuntimeException whose cause is the
      original failure. */
  datatype SeedError<T> = RuntimeException(cause: Cause<T>)

  /** A CrudRepository reduced to `count` and `save`. The records it holds are
      kept in save order. A save of a record in `rejected` throws and stores
      nothing: this stands for whatever makes the backing store fail. */
  class Repository<T(==)> {
    var records: seq<T>
    const rejected: set<T>

    constructor (records: seq<T>, rejected: set<T>)
      ensures this.records == records && this.rejected == rejected
    {
      this.records := records;
      this.rejected := rejected;
    }

    function Count(): nat
      reads this
    {
      |records|
    }

    method Save(album: T) returns (ok: bool)
      modifies this
      ensures ok == (album !in rejected)
      ensures records == if ok then old(records) + [album] else old(records)
    {
      ok := album !in rejected;
      if ok {
        records := records + [album];
      }
    }
  }

  // ---------------------------------------------------------------------------
  // Specification
  // ---------------------------------------------------------------------------

  /** The non-null albums of the dataset, in dataset order. */
  function NonNull<T>(albums: seq<Option<T>>): seq<T> {
    if albums == [] then []
    else (if albums[0].Some? then [albums[0].value] else []) + NonNull(albums[1..])
  }

  /** The position of the first record that the store rejects, or the length
      of `records` when it rejects none. */
  function FirstRejected<T(==)>(records: seq<T>, rejected: set<T>): (k: nat)
    ensures k <= |records|
    ensures forall i :: 0 <= i < k ==> records[i] !in rejected
    ensures k < |records| ==> records[k] in rejected
  {
    if records == [] || records[0] in rejected then 0
    else 1 + FirstRejected(records[1..], rejected)
  }

  /** The save loop of `populate` on a store that holds `saved`: the records
      afterwards, and the album whose save threw, if any. */
  function SaveEach<T(==)>(saved: seq<T>, albums: seq<Option<T>>, rejected: set<T>): (seq<T>, Option<T>)
    decreases |albums|
  {
    if albums == [] then (saved, None)
    else match albums[0]
      case None => SaveEach(saved, albums[1..], rejected)
      case Some(album) =>
        if album in rejected then (saved, Some(album))
        else SaveEach(saved + [album], albums[1..], rejected)
  }

  /** `populate`: the records afterwards, and how it ends. */
  function Populated<T(==)>(saved: seq<T>, rejected: set<T>, dataset: Dataset<T>): (seq<T>, Outcome<SeedError<T>>) {
    match dataset
    case Unreadable(reason) => (saved, Fail(RuntimeException(DatasetUnreadable(reason))))
    case Loaded(albums) =>
      var (after, failed) := SaveEach(saved, albums, rejected);
      (after, if failed.Some? then Fail(RuntimeException(SaveRejected(failed.value))) else Pass)
  }

  /** `onApplicationEvent` on a repository holding `records`: it populates only
      a repository whose count is 0. */
  function OnReady<T(==)>(records: seq<T>, rejected: set<T>, dataset: Dataset<T>): (seq<T>, Outcome<SeedError<T>>) {
    if |records| == 0 then Populated(records, rejected, dataset) else (records, Pass)
  }

  // ---------------------------------------------------------------------------
  // Properties
  // ---------------------------------------------------------------------------

  /** Skipping nulls keeps the relative order of the albums. */
  lemma {:induction false} NonNullAppend<T>(a: seq<Option<T>>, b: seq<Option<T>>)
    ensures NonNull(a + b) == NonNull(a) + NonNull(b)
  {
    if a == [] {
      assert a + b == b;
    } else {
      assert (a + b)[0] == a[0];
      assert (a + b)[1..] == a[1..] + b;
      NonNullAppend(a[1..], b);
    }
  }

  /** A dataset of N entries with K nulls has N - K non-null albums. */
  lemma {:induction false} NonNullCount<T>(albums: seq<Option<T>>)
    ensures |NonNull(albums)| == |albums| - multiset(albums)[None]
  {
    if albums != [] {
      NonNullCount(albums[1..]);
      assert albums == [albums[0]] + albums[1..];
      assert multiset(albums) == multiset{albums[0]} + multiset(albums[1..]);
    }
  }

  /** An album is saved exactly when it occurs, non-null, in the dataset. */
  lemma {:induction false} NonNullMembers<T>(albums: seq<Option<T>>, x: T)
    ensures x in NonNull(albums) <==> Some(x) in albums
  {
    if albums != [] {
      NonNullMembers(albums[1..], x);
      assert albums == [albums[0]] + albums[1..];
    }
  }

  /** The save loop stores the non-null albums in order up to the first one the
      store rejects, and reports that one. */
  lemma {:induction false} SaveEachSpec<T>(saved: seq<T>, albums: seq<Option<T>>, rejected: set<T>)
    ensures var all := NonNull(albums);
            var k := FirstRejected(all, rejected);
            SaveEach(saved, albums, rejected) == (saved + all[..k], if k < |all| then Some(all[k]) else None)
    decreases |albums|
  {
    if albums == [] {
      assert saved + [] == saved;
    } else {
      var rest := NonNull(albums[1..]);
      match albums[0]
      case None =>
        assert NonNull(albums) == rest;
        SaveEachSpec(saved, albums[1..], rejected);
      case Some(album) =>
        assert NonNull(albums) == [album] + rest;
        if album in rejected {
          assert ([album] + rest)[..0] == [] && saved + [] == saved;
        } else {
          SaveEachSpec(saved + [album], albums[1..], rejected);
          SaveAcceptedHead(saved, album, rest, rejected);
        }
    }
  }

  /** Saving an accepted album first shifts the rejection point by one. */
  lemma SaveAcceptedHead<T>(saved: seq<T>, album: T, rest: seq<T>, rejected: set<T>)
    requires album !in rejected
    ensures var all, k := [album] + rest, FirstRejected(rest, rejected);
            && FirstRejected(all, rejected) == k + 1
            && saved + all[..k + 1] == (saved + [album]) + rest[..k]
            && (k < |rest| ==> all[k + 1] == rest[k])
  {
    var all, k := [album] + rest, FirstRejected(rest, rejected);
    assert all[1..] == rest;
    assert all[..k + 1] == [album] + rest[..k];
  }

  /** `populate` leaves the records it was given followed by the dataset's
      non-null albums in order, up to the first save that throws; the wrapped
      failure names that album. A dataset that cannot be loaded writes
      nothing. Nothing is rolled back. */
  lemma PopulatedSpec<T>(saved: seq<T>, rejected: set<T>, dataset: Dataset<T>)
    ensures dataset.Unreadable? ==>
            Populated(saved, rejected, dataset) == (saved, Fail(RuntimeException(DatasetUnreadable(dataset.reason))))
    ensures dataset.Loaded? ==>
            var all := NonNull(dataset.albums);
            var k := FirstRejected(all, rejected);
            Populated(saved, rejected, dataset)
            == (saved + all[..k], if k < |all| then Fail(RuntimeException(SaveRejected(all[k]))) else Pass)
  {
    if dataset.Loaded? {
      SaveEachSpec(saved, dataset.albums, rejected);
    }
  }

  /** Seeding an empty repository from a dataset of N entries with K nulls,
      none of which the store rejects, saves exactly the N - K non-null albums,
      once each, in dataset order. */
  lemma SeedEmptyRepository<T>(rejected: set<T>, albums: seq<Option<T>>)
    requires forall i :: 0 <= i < |albums| && albums[i].Some? ==> albums[i].value !in rejected
    ensures OnReady([], rejected, Loaded(albums)) == (NonNull(albums), Pass)
    ensures |NonNull(albums)| == |albums| - multiset(albums)[None]
  {
    var all := NonNull(albums);
    forall i | 0 <= i < |all| ensures all[i] !in rejected {
      assert all[i] in all;
      NonNullMembers(albums, all[i]);
    }
    PopulatedSpec([], rejected, Loaded(albums));
    assert FirstRejected(all, rejected) == |all|;
    assert [] + all[..|all|] == all;
    NonNullCount(albums);
  }

  /** Seed-once: once an event has left at least one record behind, every
      later event, whatever its dataset, writes nothing and succeeds. */
  lemma SeedOnce<T>(records: seq<T>, rejected: set<T>, first: Dataset<T>, later: Dataset<T>)
    requires |OnReady(records, rejected, first).0| > 0
    ensures OnReady(OnReady(records, rejected, first).0, rejected, later) == (OnReady(records, rejected, first).0, Pass)
  {
  }

  /** A failed first seed that wrote nothing (unreadable dataset, or the very
      first non-null album rejected) is retried by the next event; one that
      wrote a prefix is never completed. */
  lemma FailedSeedIsRetriedOnlyIfEmpty<T>(rejected: set<T>, dataset: Dataset<T>)
    requires OnReady([], rejected, dataset).1.Fail?
    ensures |OnReady([], rejected, dataset).0| == 0 <==>
            dataset.Unreadable? || FirstRejected(NonNull(dataset.albums), rejected) == 0
  {
    PopulatedSpec([], rejected, dataset);
  }

  // ---------------------------------------------------------------------------
  // The populator
  // ---------------------------------------------------------------------------

  /** `populate`: loads the dataset, then saves each non-null album in order;
      the first failure ends the loop and is wrapped. */
  method Populate<T(==)>(repository: Repository<T>, dataset: Dataset<T>) returns (outcome: Outcome<SeedError<T>>)
    modifies repository
    ensures (repository.records, outcome) == Populated(old(repository.records), repository.rejected, dataset)
  {
    match dataset
    case Unreadable(reason) =>
      return Fail(RuntimeException(DatasetUnreadable(reason)));
    case Loaded(albums) =>
      var i := 0;
      while i < |albums|
        invariant 0 <= i <= |albums|
        invariant SaveEach(repository.records, albums[i..], repository.rejected)
                  == SaveEach(old(repository.records), albums, repository.rejected)
      {
        assert albums[i..][0] == albums[i] && albums[i..][1..] == albums[i + 1..];
        match albums[i] {
          case None =>
          case Some(album) =>
            var ok := repository.Save(album);
            if !ok {
              return Fail(RuntimeException(SaveRejected(album)));
            }
        }
        i := i + 1;
      }
      return Pass;
  }

  /** `onApplicationEvent`: populates the repository only when there is one
      and its count is 0. */
  method OnApplicationEvent<T(==)>(repository: Repository?<T>, dataset: Dataset<T>)
    returns (outcome: Outcome<SeedError<T>>)
    modifies repository
    ensures repository == null ==> outcome == Pass
    ensures repository != null ==>
            (repository.records, outcome) == OnReady(old(repository.records), repository.rejected, dataset)
  {
    outcome := Pass;
    if repository != null && repository.Count() == 0 {
      outcome := Populate(repository, dataset);
    }
  }
}
