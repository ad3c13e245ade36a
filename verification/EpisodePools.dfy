/** The two worker pools: prewarming episodes with two counters, and looking up release dates
    into a copy of the episode list. */
module EpisodePools {
  import opened Basics
  import opened GoText
  import opened Identifiers
  import opened Sorting
  import opened Crawl
  import opened WorkerPool

  // ---------------------------------------------------------------- prewarmEpisodes

  datatype Counts = Counts(success: int, skipped: int)

  /** Completing an item bumps one of the two counters. */
  function CountItem(works: nat -> bool): (Counts, nat) -> Counts {
    (c: Counts, item: nat) => if works(item) then c.(success := c.success + 1) else c.(skipped := c.skipped + 1)
  }

  /** The number of workers prewarmEpisodes starts when there are episodes. */
  function Workers(concurrency: int, n: int): int {
    var atLeastOne := if concurrency < 1 then 1 else concurrency;
    if atLeastOne > n && n > 0 then n else atLeastOne
  }

  /** prewarmEpisodes of n episodes at its start; without episodes it returns at once. */
  function Began(concurrency: int, n: nat): Pool<Counts> {
    if n == 0 then Pool(0, true, [], Counts(0, 0), [], true) else Start(Workers(concurrency, n), Counts(0, 0))
  }

  lemma {:induction false} NothingToDo(concurrency: int, works: nat -> bool, run: seq<Step>, p: Pool<Counts>)
    requires Reachable(0, CountItem(works), Began(concurrency, 0), run, p)
    ensures run == [] && p == Began(concurrency, 0)
  {
    if run != [] {
      var front, last := run[..|run| - 1], run[|run| - 1];
      var before :| Next(0, CountItem(works), before, last, p) && Reachable(0, CountItem(works), Began(concurrency, 0), front, before);
      NothingToDo(concurrency, works, front, before);
      assert false;
    }
  }

  lemma CountItemCommutes(works: nat -> bool)
    ensures Commutes(CountItem(works))
  {
  }

  function Working(works: nat -> bool, n: nat): nat {
    if n == 0 then 0 else Working(works, n - 1) + if works(n - 1) then 1 else 0
  }

  lemma {:induction false} CountsOf(works: nat -> bool, n: nat)
    ensures Fold(CountItem(works), Counts(0, 0), Upto(n)) == Counts(Working(works, n), n - Working(works, n))
  {
    if n > 0 {
      CountsOf(works, n - 1);
      assert Upto(n)[..n - 1] == Upto(n - 1);
    }
  }

  /** When prewarmEpisodes returns, under any schedule, success counts the episodes whose prewarm
      worked and the two counters add up to the number of episodes. */
  lemma PrewarmCounts(n: nat, concurrency: int, works: nat -> bool, run: seq<Step>, p: Pool<Counts>)
    requires Reachable(n, CountItem(works), Began(concurrency, n), run, p) && p.returned
    ensures p.acc.success == Working(works, n) && p.acc.success + p.acc.skipped == n
  {
    if n == 0 {
      NothingToDo(concurrency, works, run, p);
      return;
    }
    CountItemCommutes(works);
    PoolIsSequential(n, CountItem(works), Workers(concurrency, n), Counts(0, 0), run, p);
    CountsOf(works, n);
  }

  /** prewarmEpisodes never deadlocks and never has more episodes in hand than workers, and it has
      no more workers than episodes. */
  lemma PrewarmProgress(n: nat, concurrency: int, works: nat -> bool, run: seq<Step>, p: Pool<Counts>)
      returns (step: Step)
    requires Reachable(n, CountItem(works), Began(concurrency, n), run, p)
    ensures !p.returned ==> WorkerPool.Enabled(n, p, step)
    ensures p.next - |p.order| <= (if concurrency > 1 then concurrency else 1) && p.next - |p.order| <= n
    ensures |p.workers| == if n == 0 then 0 else if concurrency < 1 then 1 else if concurrency < n then concurrency else n
    ensures !p.returned ==> |run| < 2 * n + Workers(concurrency, n) + 2
  {
    if n == 0 {
      NothingToDo(concurrency, works, run, p);
      return Return;
    }
    var workers := Workers(concurrency, n);
    step := Return;
    if !p.returned { step := NoDeadlock(n, CountItem(works), workers, Counts(0, 0), run, p); }
    InFlightBounded(n, CountItem(works), workers, Counts(0, 0), run, p);
    SchedulesAreBounded(n, CountItem(works), workers, Counts(0, 0), run, p);
    RunValid(n, CountItem(works), workers, Counts(0, 0), run, p);
    assert p.next <= n;
    if !p.returned { StepsDecrease(n, CountItem(works), p, step); }
  }

  // ---------------------------------------------------------------- enrichEpisodeReleaseDates

  const RELEASE_WORKERS: nat := 8

  /** What a worker does for one episode: an unqualified identifier, a failed fetch and a blank
      label leave it alone. dateOf gives the release label of the page of a slug. */
  function Dated(dateOf: string -> Option<string>, e: Episode): Episode {
    match ParseQualified(e.id)
    case Err => e
    case Ok((_, slug)) =>
      match dateOf(slug)
      case None => e
      case Some(text) => if Blank(text) then e else e.(releasedAt := text)
  }

  /** The episode is as it was, but for the release date of its page: that of the slug behind the
      first colon of its trimmed identifier, without slashes at its ends, if it has one that is not
      blank. */
  ghost predicate DatedIs(dateOf: string -> Option<string>, e: Episode, dated: Episode) {
    && dated.id == e.id && dated.catalogId == e.catalogId && dated.number == e.number
    && dated.title == e.title && dated.caption == e.caption
    && ((exists provider, rest :: Names(e, provider, rest) && HasDate(dateOf, rest)) ==>
      exists provider, rest :: Names(e, provider, rest) && HasDate(dateOf, rest) && dated.releasedAt == dateOf(TrimSlashes(rest)).value)
    && (!(exists provider, rest :: Names(e, provider, rest) && HasDate(dateOf, rest)) ==> dated.releasedAt == e.releasedAt)
  }

  predicate Names(e: Episode, provider: string, rest: string) {
    TrimSpace(e.id) == provider + ":" + rest && ':' !in provider && provider != "" && rest != ""
  }

  predicate HasDate(dateOf: string -> Option<string>, rest: string) {
    dateOf(TrimSlashes(rest)).Some? && TrimSpace(dateOf(TrimSlashes(rest)).value) != ""
  }

  lemma DatedIsSo(dateOf: string -> Option<string>, e: Episode)
    ensures DatedIs(dateOf, e, Dated(dateOf, e))
  {
    forall provider, rest | Names(e, provider, rest) ensures ParseQualified(e.id) == Ok((provider, TrimSlashes(rest))) {
      CutOf(provider, ':', rest);
    }
    if ParseQualified(e.id).Ok? {
      var (provider, rest) := Cut(TrimSpace(e.id), ':').value;
      assert Names(e, provider, rest);
    }
  }

  /** Only the release date differs. */
  ghost predicate DatesOnly(dated: Episode -> Episode) {
    forall e :: dated(e) == e.(releasedAt := dated(e).releasedAt)
  }

  /** Completing an item writes the release date into its slot of the copied list, if it has a new
      one. */
  function WriteDate(dated: Episode -> Episode, episodes: seq<Episode>): (seq<Episode>, nat) -> seq<Episode> {
    (copied: seq<Episode>, item: nat) =>
      if item < |copied| && item < |episodes| && dated(episodes[item]) != episodes[item]
      then copied[item := copied[item].(releasedAt := dated(episodes[item]).releasedAt)]
      else copied
  }

  lemma WritesCommute(dated: Episode -> Episode, episodes: seq<Episode>, copied: seq<Episode>, i: nat, j: nat)
    requires i != j
    ensures var record := WriteDate(dated, episodes);
      record(record(copied, i), j) == record(record(copied, j), i)
  {
  }

  lemma WriteDateCommutes(dated: Episode -> Episode, episodes: seq<Episode>)
    ensures Commutes(WriteDate(dated, episodes))
  {
    forall copied, i, j | i != j
      ensures WriteDate(dated, episodes)(WriteDate(dated, episodes)(copied, i), j)
        == WriteDate(dated, episodes)(WriteDate(dated, episodes)(copied, j), i)
    {
      WritesCommute(dated, episodes, copied, i, j);
    }
  }

  lemma {:induction false} WrittenDates(dated: Episode -> Episode, episodes: seq<Episode>, n: nat)
    requires DatesOnly(dated) && n <= |episodes|
    ensures var copied := Fold(WriteDate(dated, episodes), episodes, Upto(n));
      && |copied| == |episodes|
      && (forall i :: 0 <= i < n ==> copied[i] == dated(episodes[i]))
      && (forall i :: n <= i < |episodes| ==> copied[i] == episodes[i])
  {
    if n > 0 {
      WrittenDates(dated, episodes, n - 1);
      assert Upto(n)[..n - 1] == Upto(n - 1);
      WrittenNext(dated, episodes, n - 1, Fold(WriteDate(dated, episodes), episodes, Upto(n - 1)));
    }
  }

  lemma WrittenNext(dated: Episode -> Episode, episodes: seq<Episode>, k: nat, copied: seq<Episode>)
    requires DatesOnly(dated) && k < |episodes| == |copied|
    requires forall i :: 0 <= i < k ==> copied[i] == dated(episodes[i])
    requires forall i :: k <= i < |episodes| ==> copied[i] == episodes[i]
    ensures var next := WriteDate(dated, episodes)(copied, k);
      && |next| == |episodes|
      && (forall i :: 0 <= i < k + 1 ==> next[i] == dated(episodes[i]))
      && (forall i :: k + 1 <= i < |episodes| ==> next[i] == episodes[i])
  {
  }

  /** When the release-date pool returns, under any schedule, its list is the episode-by-episode
      map of the input. */
  lemma ReleaseDatesAreTheMap(dateOf: string -> Option<string>, episodes: seq<Episode>, run: seq<Step>, p: Pool<seq<Episode>>)
    requires var dated := (e: Episode) => Dated(dateOf, e);
      Reachable(|episodes|, WriteDate(dated, episodes), Start(RELEASE_WORKERS, episodes), run, p) && p.returned
    ensures |p.acc| == |episodes| && forall i :: 0 <= i < |episodes| ==> DatedIs(dateOf, episodes[i], p.acc[i])
    ensures |p.workers| == 8
  {
    forall e ensures DatedIs(dateOf, e, Dated(dateOf, e)) { DatedIsSo(dateOf, e); }
    var dated := (e: Episode) => Dated(dateOf, e);
    WriteDateCommutes(dated, episodes);
    PoolIsSequential(|episodes|, WriteDate(dated, episodes), RELEASE_WORKERS, episodes, run, p);
    RunValid(|episodes|, WriteDate(dated, episodes), RELEASE_WORKERS, episodes, run, p);
    WrittenDates(dated, episodes, |episodes|);
  }

  // ---------------------------------------------------------------- selectEpisodes

  const MAX_SELECTED: int := 25

  function SelectLimit(latest: int): int {
    if latest <= 0 || latest > MAX_SELECTED then MAX_SELECTED else latest
  }

  /** The episodes of one number and one identifier, which the order does not tell apart. */
  function Ties(number: int, id: string): Episode -> bool {
    (e: Episode) => e.number == number && e.id == id
  }

  /** selectEpisodes: the first ones in order, what is left out does not come before any of them,
      and episodes that tie stay in input order. */
  method SelectEpisodes(episodes: seq<Episode>, latest: int) returns (selected: seq<Episode>, ghost rest: seq<Episode>)
    ensures var most := if 1 <= latest <= 25 then latest else 25;
      |selected| == if |episodes| < most then |episodes| else most
    ensures multiset(selected + rest) == multiset(episodes) && NewestFirst(selected + rest)
    ensures forall number, id :: Filter(Ties(number, id), selected + rest) == Filter(Ties(number, id), episodes)
  {
    EpisodeLessStrictWeak();
    forall number, id ensures Filter(Ties(number, id), StableSort(EpisodeLess, episodes)) == Filter(Ties(number, id), episodes) {
      var e := Episode(id, "", number, "", "", "");
      assert !EpisodeLess(e, e);
      StableSortStable(EpisodeLess, Ties(number, id), episodes);
    }
    StableSortSorts(EpisodeLess, episodes);
    StableSortLength(EpisodeLess, episodes);
    var sorted := StableSort(EpisodeLess, episodes);
    SortedIsNewestFirst(sorted);
    var limit := SelectLimit(latest);
    if limit >= |sorted| {
      rest := [];
      assert sorted + rest == sorted;
      return sorted, rest;
    }
    SortedSplit(EpisodeLess, sorted, limit);
    return sorted[..limit], sorted[limit..];
  }
}
