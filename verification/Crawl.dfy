/** The bounded breadth-first crawl over an anime's episode pages. */
module Crawl {
  import opened Basics
  import opened GoText
  import opened Identifiers
  import opened Sorting
  import opened EpisodeRefs

  const MAX_EPISODE_PAGES: nat := 24

  const PROVIDER_NAME: string := "kuramanime"

  /** What is extracted from a page: the links to further pages, in some order, and its references. */
  datatype Page = Page(links: seq<string>, refs: seq<Ref>)

  /** A page path's page, or None when it cannot be fetched or read. */
  type Site = string -> Option<Page>

  datatype Episode = Episode(id: string, catalogId: string, number: int, title: string, caption: string, releasedAt: string)

  // ---------------------------------------------------------------- reachability

  /** The pages the start page leads to: its links and the path of its first reference. */
  function Seeds(start: Page): set<string> {
    (set link | link in start.links)
    + if start.refs != [] && start.refs[0].path != "" then {start.refs[0].path} else {}
  }

  predicate LinksTo(site: Site, from: string, to: string) {
    site(from).Some? && to in site(from).value.links
  }

  /** A chain of page links from a seed, through pages that can be fetched. */
  ghost predicate Chain(site: Site, seeds: set<string>, chain: seq<string>) {
    && chain != []
    && var last := chain[|chain| - 1];
    if |chain| == 1 then last in seeds
    else LinksTo(site, chain[|chain| - 2], last) && Chain(site, seeds, chain[..|chain| - 1])
  }

  ghost predicate Reaches(site: Site, seeds: set<string>, page: string) {
    exists chain :: Chain(site, seeds, chain) && chain[|chain| - 1] == page
  }

  lemma SeedReached(site: Site, seeds: set<string>, page: string)
    requires page in seeds
    ensures Reaches(site, seeds, page)
  {
    assert Chain(site, seeds, [page]);
  }

  lemma LinkReached(site: Site, seeds: set<string>, from: string, to: string)
    requires Reaches(site, seeds, from) && LinksTo(site, from, to)
    ensures Reaches(site, seeds, to)
  {
    var chain :| Chain(site, seeds, chain) && chain[|chain| - 1] == from;
    assert (chain + [to])[..|chain|] == chain;
    assert Chain(site, seeds, chain + [to]);
  }

  /** A set with the seeds that is closed under links holds every reachable page. */
  lemma {:induction false} ClosedHoldsChain(site: Site, seeds: set<string>, pages: seq<string>, chain: seq<string>)
    requires Chain(site, seeds, chain)
    requires forall p :: p in seeds ==> p in pages
    requires forall p, q :: p in pages && LinksTo(site, p, q) ==> q in pages
    ensures chain[|chain| - 1] in pages
  {
    if |chain| > 1 {
      ClosedHoldsChain(site, seeds, pages, chain[..|chain| - 1]);
      assert LinksTo(site, chain[|chain| - 2], chain[|chain| - 1]);
    }
  }

  ghost predicate SameLinks(site1: Site, site2: Site) {
    forall p, q :: LinksTo(site1, p, q) <==> LinksTo(site2, p, q)
  }

  lemma {:induction false} ChainIgnoresOrder(site1: Site, site2: Site, seeds: set<string>, chain: seq<string>)
    requires SameLinks(site1, site2) && Chain(site1, seeds, chain)
    ensures Chain(site2, seeds, chain)
  {
    if |chain| > 1 {
      assert LinksTo(site1, chain[|chain| - 2], chain[|chain| - 1]);
      ChainIgnoresOrder(site1, site2, seeds, chain[..|chain| - 1]);
    }
  }

  /** Reachability does not depend on the order of the links on a page. */
  lemma ReachesIgnoresOrder(site1: Site, site2: Site, seeds: set<string>, page: string)
    requires SameLinks(site1, site2)
    ensures Reaches(site1, seeds, page) <==> Reaches(site2, seeds, page)
  {
    if Reaches(site1, seeds, page) {
      var chain :| Chain(site1, seeds, chain) && chain[|chain| - 1] == page;
      ChainIgnoresOrder(site1, site2, seeds, chain);
    }
    if Reaches(site2, seeds, page) {
      var chain :| Chain(site2, seeds, chain) && chain[|chain| - 1] == page;
      ChainIgnoresOrder(site2, site1, seeds, chain);
    }
  }

  // ---------------------------------------------------------------- the crawl

  ghost predicate DistinctPages(pages: seq<string>) {
    forall i, j :: 0 <= i < j < |pages| ==> pages[i] != pages[j]
  }

  /** The references collected from the start page and some fetched pages: of each slug, the one
      met first. */
  function Collected(start: Page, site: Site, fetched: seq<string>): map<string, Ref> {
    if fetched == [] then LastMap(start.refs)
    else
      var before := Collected(start, site, fetched[..|fetched| - 1]);
      match site(fetched[|fetched| - 1])
      case None => before
      case Some(page) => FirstMap(page.refs) + before
  }

  /** The slugs collected are exactly those of the start page and of the pages that were fetched. */
  lemma {:induction false} CollectedSlugs(start: Page, site: Site, fetched: seq<string>, slug: string)
    ensures slug in Collected(start, site, fetched)
      <==>
      slug in SlugsOf(start.refs) || exists p :: p in fetched && site(p).Some? && slug in SlugsOf(site(p).value.refs)
    ensures Keyed(Collected(start, site, fetched))
  {
    MapsKeyed(start.refs);
    if fetched != [] {
      var front, last := fetched[..|fetched| - 1], fetched[|fetched| - 1];
      CollectedSlugs(start, site, front, slug);
      CollectedKeyed(start, site, fetched);
      assert fetched == front + [last];
      if site(last).Some? {
        MapsKeyed(site(last).value.refs);
      }
      forall p | p in front ensures p in fetched {}
    }
  }

  lemma {:induction false} CollectedKeyed(start: Page, site: Site, fetched: seq<string>)
    ensures Keyed(Collected(start, site, fetched))
  {
    MapsKeyed(start.refs);
    if fetched != [] {
      CollectedKeyed(start, site, fetched[..|fetched| - 1]);
      if site(fetched[|fetched| - 1]).Some? {
        MapsKeyed(site(fetched[|fetched| - 1]).value.refs);
      }
    }
  }

  ghost predicate QueueIsVisited(queue: seq<string>, visited: set<string>) {
    DistinctPages(queue) && forall p :: p in queue <==> p in visited
  }

  /** A loop that queues the links not seen before. */
  method Enqueue(queue: seq<string>, visited: set<string>, links: seq<string>)
      returns (queue': seq<string>, visited': set<string>)
    requires QueueIsVisited(queue, visited)
    ensures QueueIsVisited(queue', visited') && queue <= queue'
    ensures forall p :: p in queue' <==> p in queue || p in links
  {
    queue', visited' := queue, visited;
    for i := 0 to |links|
      invariant QueueIsVisited(queue', visited') && queue <= queue'
      invariant forall p :: p in queue' <==> p in queue || p in links[..i]
    {
      assert links[..i + 1] == links[..i] + [links[i]];
      if links[i] !in visited' {
        visited' := visited' + {links[i]};
        queue' := queue' + [links[i]];
      }
    }
    assert links[..|links|] == links;
  }

  /** The references so far are the sorted list of what was collected. */
  ghost predicate Gathered(start: Page, site: Site, refs: seq<Ref>, fetched: seq<string>) {
    Sorted(RefLess, refs) && Lists(refs, Collected(start, site, fetched))
  }

  lemma GatherPage(start: Page, site: Site, refs: seq<Ref>, fetched: seq<string>, path: string, refs': seq<Ref>)
    requires Gathered(start, site, refs, fetched) && site(path).Some?
    requires IsMerge(refs', refs, site(path).value.refs)
    ensures Gathered(start, site, refs', fetched + [path])
  {
    CollectedKeyed(start, site, fetched);
    ListedMap(refs, Collected(start, site, fetched));
    assert (fetched + [path])[..|fetched|] == fetched;
  }

  lemma GatherNothing(start: Page, site: Site, refs: seq<Ref>, fetched: seq<string>, path: string)
    requires Gathered(start, site, refs, fetched) && site(path).None?
    ensures Gathered(start, site, refs, fetched + [path])
  {
    assert (fetched + [path])[..|fetched|] == fetched;
  }

  /** The queue holds the seeds and everything linked from what was fetched, all of it reachable. */
  ghost predicate Frontier(site: Site, seeds: set<string>, queue: seq<string>, fetched: seq<string>) {
    && (forall p :: p in seeds ==> p in queue)
    && (forall p :: p in queue ==> Reaches(site, seeds, p))
    && (forall p, q :: p in fetched && LinksTo(site, p, q) ==> q in queue)
  }

  lemma FrontierPage(site: Site, seeds: set<string>, queue: seq<string>, fetched: seq<string>, path: string, queue': seq<string>)
    requires Frontier(site, seeds, queue, fetched) && path in queue
    requires forall p :: p in queue' <==> p in queue || LinksTo(site, path, p)
    ensures Frontier(site, seeds, queue', fetched + [path])
  {
    forall q | LinksTo(site, path, q) ensures Reaches(site, seeds, q) {
      LinkReached(site, seeds, path, q);
    }
  }

  /** When the loop stops, the fetched pages are distinct, at most 24, and reachable; and
      if that bound did not cut the queue short, they are all the reachable pages. */
  lemma FetchedPages(site: Site, seeds: set<string>, queue: seq<string>, fetched: seq<string>)
    requires DistinctPages(queue) && Frontier(site, seeds, queue, fetched)
    requires fetched == if |queue| <= MAX_EPISODE_PAGES then queue else queue[..MAX_EPISODE_PAGES]
    ensures DistinctPages(fetched) && |fetched| <= 24
    ensures forall p :: p in fetched ==> Reaches(site, seeds, p)
    ensures |queue| <= 24 ==> forall p :: Reaches(site, seeds, p) ==> p in fetched
  {
    forall p | p in fetched ensures Reaches(site, seeds, p) {
      assert p in queue;
    }
    if |queue| <= MAX_EPISODE_PAGES {
      forall p | Reaches(site, seeds, p) ensures p in queue {
        var chain :| Chain(site, seeds, chain) && chain[|chain| - 1] == p;
        ClosedHoldsChain(site, seeds, queue, chain);
      }
    }
  }

  lemma NextPrefix(before: seq<string>, queue: seq<string>, i: nat)
    requires before <= queue && i < |before|
    ensures queue[..i + 1] == before[..i] + [before[i]]
  {
  }

  /** The queue before the page loop. */
  method SeedQueue(start: Page, site: Site) returns (queue: seq<string>, visited: set<string>)
    requires start.refs != []
    ensures QueueIsVisited(queue, visited) && Frontier(site, Seeds(start), queue, [])
  {
    queue, visited := Enqueue([], {}, start.links);
    var seedPath := start.refs[0].path;
    if seedPath != "" && seedPath !in visited {
      visited := visited + {seedPath};
      queue := queue + [seedPath];
    }
    forall p | p in queue ensures Reaches(site, Seeds(start), p) { SeedReached(site, Seeds(start), p); }
  }

  /** One turn of the page loop: fetch a queued page, merge its references, queue its links. */
  method VisitPage(start: Page, site: Site, refs: seq<Ref>, queue: seq<string>, visited: set<string>,
                   ghost fetched: seq<string>, path: string)
      returns (refs': seq<Ref>, queue': seq<string>, visited': set<string>)
    requires QueueIsVisited(queue, visited) && path in queue
    requires Frontier(site, Seeds(start), queue, fetched) && Gathered(start, site, refs, fetched)
    ensures QueueIsVisited(queue', visited') && queue <= queue'
    ensures Frontier(site, Seeds(start), queue', fetched + [path]) && Gathered(start, site, refs', fetched + [path])
  {
    refs', queue', visited' := refs, queue, visited;
    var page := site(path);
    if page.Some? {
      refs' := MergeEpisodeRefs(refs, page.value.refs);
      queue', visited' := Enqueue(queue, visited, page.value.links);
      GatherPage(start, site, refs, fetched, path, refs');
    } else {
      GatherNothing(start, site, refs, fetched, path);
    }
    FrontierPage(site, Seeds(start), queue, fetched, path, queue');
  }

  lemma NothingGathered(start: Page, site: Site)
    requires DistinctSlugs(start.refs) && Sorted(RefLess, start.refs)
    ensures Gathered(start, site, start.refs, [])
  {
    DistinctMaps(start.refs);
  }

  /** The page loop of collectEpisodes. queue ends up holding every page that was ever queued; the
      first MAX_EPISODE_PAGES of it were fetched, in that order. */
  method CrawlPages(start: Page, site: Site) returns (refs: seq<Ref>, queue: seq<string>, fetched: seq<string>)
    requires start.refs != [] && DistinctSlugs(start.refs) && Sorted(RefLess, start.refs)
    ensures fetched == if |queue| <= MAX_EPISODE_PAGES then queue else queue[..MAX_EPISODE_PAGES]
    ensures DistinctPages(queue)
    ensures Frontier(site, Seeds(start), queue, fetched)
    ensures Gathered(start, site, refs, fetched)
  {
    refs := start.refs;
    NothingGathered(start, site);
    var visited: set<string>;
    queue, visited := SeedQueue(start, site);

    var i: nat := 0;
    while i < |queue| && i < MAX_EPISODE_PAGES
      invariant i <= |queue| && i <= MAX_EPISODE_PAGES
      invariant QueueIsVisited(queue, visited)
      invariant Frontier(site, Seeds(start), queue, queue[..i])
      invariant Gathered(start, site, refs, queue[..i])
      decreases MAX_EPISODE_PAGES - i
    {
      ghost var before := queue;
      refs, queue, visited := VisitPage(start, site, refs, queue, visited, queue[..i], queue[i]);
      NextPrefix(before, queue, i);
      i := i + 1;
    }
    fetched := queue[..i];
  }

  // ---------------------------------------------------------------- the episodes

  function ToEpisode(catalogId: string, ref: Ref): Episode {
    var display := if ref.display == "" then FormatInt(ref.number) else ref.display;
    Episode(NewCatalogId(PROVIDER_NAME, ref.slug), catalogId, ref.number, "Episode " + display, display, "")
  }

  /** Newest first; equal numbers by identifier. */
  predicate EpisodeLess(a: Episode, b: Episode) {
    if a.number == b.number then StringLess(a.id, b.id) else a.number > b.number
  }

  lemma EpisodeLessStrictWeak()
    ensures StrictWeak(EpisodeLess)
  {
    forall a ensures !EpisodeLess(a, a) {
      StringLessTotal(a.id, a.id);
    }
    forall a, b, c | EpisodeLess(a, b) && EpisodeLess(b, c) ensures EpisodeLess(a, c) {
      if a.number == b.number == c.number { StringLessTransitive(a.id, b.id, c.id); }
    }
    forall a, b, c | EpisodeLess(a, c) ensures EpisodeLess(a, b) || EpisodeLess(b, c) {
      StringLessTotal(a.id, b.id);
      StringLessTotal(b.id, c.id);
      if a.number == b.number == c.number && StringLess(b.id, a.id) { StringLessTransitive(b.id, a.id, c.id); }
    }
  }

  function ToEpisodes(catalogId: string, refs: seq<Ref>): seq<Episode> {
    seq(|refs|, i requires 0 <= i < |refs| => ToEpisode(catalogId, refs[i]))
  }

  /** The episode of a reference: its label is the reference's, or its number in decimal. */
  predicate IsEpisodeOf(e: Episode, catalogId: string, ref: Ref) {
    var shown := if ref.display != "" then ref.display else FormatInt(ref.number);
    && e.id == "kuramanime:" + TrimSlashes(TrimSpace(ref.slug)) && e.catalogId == catalogId
    && e.number == ref.number && e.title == "Episode " + shown && e.caption == shown && e.releasedAt == ""
  }

  /** Higher numbers come first, and of equal ones the smaller identifier. */
  ghost predicate NewestFirst(episodes: seq<Episode>) {
    forall i, j :: 0 <= i < j < |episodes| ==>
      || episodes[i].number > episodes[j].number
      || (episodes[i].number == episodes[j].number
          && (episodes[i].id == episodes[j].id || StringLess(episodes[i].id, episodes[j].id)))
  }

  lemma SortedIsNewestFirst(episodes: seq<Episode>)
    requires Sorted(EpisodeLess, episodes)
    ensures NewestFirst(episodes)
  {
    forall i, j | 0 <= i < j < |episodes|
      ensures episodes[i].number > episodes[j].number
        || (episodes[i].number == episodes[j].number
            && (episodes[i].id == episodes[j].id || StringLess(episodes[i].id, episodes[j].id)))
    {
      assert !EpisodeLess(episodes[j], episodes[i]);
      StringLessTotal(episodes[i].id, episodes[j].id);
    }
  }

  /** The episodes are those of the references, one each. */
  ghost predicate EpisodesOf(episodes: seq<Episode>, catalogId: string, refs: seq<Ref>) {
    exists unsorted: seq<Episode> ::
      && |unsorted| == |refs| && (forall i :: 0 <= i < |refs| ==> IsEpisodeOf(unsorted[i], catalogId, refs[i]))
      && multiset(unsorted) == multiset(episodes)
  }

  lemma ListedEpisodes(catalogId: string, refs: seq<Ref>)
    ensures var episodes := StableSort(EpisodeLess, ToEpisodes(catalogId, refs));
      EpisodesOf(episodes, catalogId, refs) && NewestFirst(episodes)
  {
    var list := ToEpisodes(catalogId, refs);
    assert SortOf(EpisodeLess, StableSort(EpisodeLess, list), list) by {
      EpisodeLessStrictWeak();
      StableSortSorts(EpisodeLess, list);
    }
    SortedIsNewestFirst(StableSort(EpisodeLess, list));
    forall i | 0 <= i < |refs| ensures IsEpisodeOf(list[i], catalogId, refs[i]) { ToEpisodeIs(catalogId, refs[i]); }
    ShuffledEpisodes(StableSort(EpisodeLess, list), list, catalogId, refs);
  }

  lemma ShuffledEpisodes(episodes: seq<Episode>, unsorted: seq<Episode>, catalogId: string, refs: seq<Ref>)
    requires |unsorted| == |refs| && (forall i :: 0 <= i < |refs| ==> IsEpisodeOf(unsorted[i], catalogId, refs[i]))
    requires multiset(unsorted) == multiset(episodes)
    ensures EpisodesOf(episodes, catalogId, refs)
  {
  }

  lemma ToEpisodeIs(catalogId: string, ref: Ref)
    ensures IsEpisodeOf(ToEpisode(catalogId, ref), catalogId, ref)
  {
    assert PROVIDER_NAME + ":" == "kuramanime:";
  }

  /** collectEpisodes up to the release dates: an error when the start page has no references,
      otherwise one episode for each collected reference, newest first. */
  method CollectEpisodes(catalogId: string, start: Page, site: Site)
      returns (episodes: Result<seq<Episode>>, refs: seq<Ref>, fetched: seq<string>)
    requires DistinctSlugs(start.refs) && Sorted(RefLess, start.refs)
    ensures episodes.Err? <==> start.refs == []
    ensures episodes.Ok? ==>
      && EpisodesOf(episodes.value, catalogId, refs) && NewestFirst(episodes.value)
      && Gathered(start, site, refs, fetched)
      && DistinctPages(fetched) && |fetched| <= 24
      && (forall p :: p in fetched ==> Reaches(site, Seeds(start), p))
      && (|fetched| < 24 ==> forall p :: Reaches(site, Seeds(start), p) ==> p in fetched)
      && (|fetched| < 24 ==> forall p :: p in start.links || (p == start.refs[0].path && p != "") ==> p in fetched)
  {
    refs, fetched := [], [];
    if start.refs == [] { return Err, refs, fetched; }
    var found, queue;
    found, queue, fetched := CrawlPages(start, site);
    FetchedPages(site, Seeds(start), queue, fetched);
    assert |fetched| < 24 ==> fetched == queue;
    refs := found;
    episodes := Ok(StableSort(EpisodeLess, ToEpisodes(catalogId, found)));
    ListedEpisodes(catalogId, found);
  }
}
