/** The predictive cache as an object: its maps, its normalising and pruning loops, and one
    UpdateWindow call with no other call running. */
module PredictiveCache {
  import opened Basics
  import opened Domain
  import opened GoText
  import opened RangeHeader
  import opened MediaCache
  import opened PredictiveWindow

  function KeysOf(entry: Entry): set<BlobKey> {
    (if entry.headKey.Some? then {entry.headKey.value} else {})
    + (if entry.tailKey.Some? then {entry.tailKey.value} else {})
  }

  /** The blobs that pruning asks to delete: those named by the entries it takes out. */
  function PrunedKeys(entries: map<string, Entry>, gone: set<string>): set<BlobKey> {
    set episode, key | episode in gone && episode in entries && key in KeysOf(entries[episode]) :: key
  }

  /** part keeps exactly the given keys of whole, with their values. */
  ghost predicate Keeps<K, V>(part: map<K, V>, whole: map<K, V>, keys: set<K>) {
    part.Keys == keys && forall k :: k in part ==> k in whole && part[k] == whole[k]
  }

  /** An episode can be served from the cache: its entry is there with all its blobs. */
  predicate Servable(store: Store, episode: string) {
    && episode in store.entries
    && var entry := store.entries[episode];
    && entry.headKey.Some? && entry.headKey.value in store.blobs
    && (entry.tailKey.Some? ==> entry.tailKey.value in store.blobs)
  }

  /** The episode can be served for this URL: its entry has the URL's source key, and its blobs are
      there. */
  predicate Cached(cfg: Config, store: Store, episode: string, url: string) {
    Servable(store, episode) && store.entries[episode].sourceKey == cfg.sourceKeyOf(url)
  }

  ghost predicate AllCached(cfg: Config, store: Store, episodes: seq<PredictiveEpisode>) {
    forall e :: e in episodes ==> Cached(cfg, store, e.episode, e.candidate.url)
  }

  /** Neither blob of the entry is left. */
  predicate NoBlobs(store: Store, entry: Entry) {
    (entry.headKey.Some? ==> entry.headKey.value !in store.blobs) && (entry.tailKey.Some? ==> entry.tailKey.value !in store.blobs)
  }

  /** The entry of an episode names blobs of that episode only. */
  lemma OwnKeys(cfg: Config, files: Files, store: Store, episode: string)
    requires Canonical(cfg, files, store) && episode in store.entries
    ensures forall key :: key in KeysOf(store.entries[episode]) ==> key.episode == episode
  {
    assert CanonicalEntry(cfg, files, episode, store.entries[episode]);
  }

  /** A prewarm that reported success leaves its episode cached for its URL. */
  lemma PrewarmedServable(cfg: Config, files: Files, store: Store, episode: string, candidate: Candidate, env: Environment)
    requires Canonical(cfg, files, store) && Prewarmed(cfg, store, episode, candidate, env).ok
    ensures Cached(cfg, Prewarmed(cfg, store, episode, candidate, env).store, episode, candidate.url)
  {
    if episode in store.entries {
      assert CanonicalEntry(cfg, files, episode, store.entries[episode]);
    }
  }

  /** A prewarm takes no blob away, and an entry it replaces is replaced by a servable one. */
  lemma StillServable(cfg: Config, store: Store, episode: string, candidate: Candidate, env: Environment, other: string)
    requires Servable(store, other)
    ensures Servable(Prewarmed(cfg, store, episode, candidate, env).store, other)
  {
  }

  /** A prewarm leaves the entries of other episodes as they are, and takes no blob away. */
  lemma StillCached(cfg: Config, store: Store, episode: string, candidate: Candidate, env: Environment, other: PredictiveEpisode)
    requires Cached(cfg, store, other.episode, other.candidate.url) && other.episode != episode
    ensures Cached(cfg, Prewarmed(cfg, store, episode, candidate, env).store, other.episode, other.candidate.url)
  {
  }

  /** A prewarm only adds blobs of its own episode, and only its own entry. */
  lemma PrewarmedOwn(cfg: Config, store: Store, episode: string, candidate: Candidate, env: Environment)
    ensures var after := Prewarmed(cfg, store, episode, candidate, env).store;
      && (forall key :: key in after.blobs && key.episode != episode ==> key in store.blobs)
      && (forall other :: other != episode && other in store.entries ==> other in after.entries && after.entries[other] == store.entries[other])
  {
  }

  /** Nothing fails and the upstream replies: a prewarm then reports no error. */
  lemma SmoothIsOk(cfg: Config, files: Files, store: Store, episode: string, candidate: Candidate, env: Environment)
    requires Smooth(cfg, files, episode, candidate.url, env) && !Blank(episode) && !Blank(candidate.url)
    ensures Prewarmed(cfg, store, episode, candidate, env).ok
  {
    assert Selection(HeadRange(cfg), |FileOf(cfg, files, episode, candidate.url)|).Some?;
  }

  /** Whatever was servable still is. */
  ghost predicate KeepsServable(before: Store, after: Store) {
    forall episode :: Servable(before, episode) ==> Servable(after, episode)
  }

  lemma KeepsServableTwice(first: Store, second: Store, third: Store)
    requires KeepsServable(first, second) && KeepsServable(second, third)
    ensures KeepsServable(first, third)
  {
  }

  /** The episodes before the next one stay cached through its prewarm, and it joins them. */
  lemma OneMoreCached(cfg: Config, before: Store, env: Environment, episodes: seq<PredictiveEpisode>, i: nat)
    requires i < |episodes| && DistinctIds(episodes) && AllCached(cfg, before, episodes[..i])
    requires var after := Prewarmed(cfg, before, episodes[i].episode, episodes[i].candidate, env).store;
      Cached(cfg, after, episodes[i].episode, episodes[i].candidate.url)
    ensures AllCached(cfg, Prewarmed(cfg, before, episodes[i].episode, episodes[i].candidate, env).store, episodes[..i + 1])
  {
    forall e | e in episodes[..i]
      ensures Cached(cfg, Prewarmed(cfg, before, episodes[i].episode, episodes[i].candidate, env).store, e.episode, e.candidate.url)
    {
      var j :| 0 <= j < i && episodes[..i][j] == e;
      assert episodes[j] == e;
      StillCached(cfg, before, episodes[i].episode, episodes[i].candidate, env, e);
    }
    assert episodes[..i + 1] == episodes[..i] + [episodes[i]];
  }

  /** Of the episodes outside a window: same entries, and no new blobs. */
  ghost predicate Untouched(before: Store, after: Store, ids: set<string>) {
    && (forall key :: key in after.blobs && key.episode !in ids ==> key in before.blobs)
    && (forall e :: e !in ids && e in before.entries ==> e in after.entries && after.entries[e] == before.entries[e])
  }

  /** A prune deletes both blobs of every entry it takes out, but for stuck ones. */
  lemma PruneDeletesBlobs(store: Store, active: set<string>, episode: string)
    requires episode in store.entries && episode !in active
    ensures NoBlobs(PrunedStore(store, active, {}), store.entries[episode])
  {
    var entry := store.entries[episode];
    forall key | key in KeysOf(entry) ensures key !in PrunedStore(store, active, {}).blobs {
      assert episode in store.entries.Keys - active;
      assert key in PrunedKeys(store.entries, store.entries.Keys - active);
    }
  }

  /** The upstream is honest to each goroutine of a call. */
  ghost predicate HonestCall(cfg: Config, files: Files, episodes: seq<PredictiveEpisode>, envs: PredictiveEpisode -> Environment) {
    forall e :: e in episodes ==> HonestUpstream(cfg, files, e.episode, envs(e).fetch)
  }

  /** The store after a prune with nobody else running: stuck are the blobs whose deletion fails. */
  function PrunedStore(store: Store, active: set<string>, stuck: set<BlobKey>): Store {
    var pruned := PrunedKeys(store.entries, store.entries.Keys - active);
    Store(map e | e in store.entries && e in active :: store.entries[e],
          map k | k in store.blobs && (k in stuck || k !in pruned) :: store.blobs[k])
  }

  /** Where the prune loop is when todo is still to be visited. */
  ghost predicate PruneProgress(before: Store, store: Store, active: set<string>, todo: set<string>, stuck: set<BlobKey>) {
    && todo <= before.entries.Keys
    && Keeps(store.entries, before.entries, before.entries.Keys * (active + todo))
    && Keeps(store.blobs, before.blobs,
             before.blobs.Keys - (PrunedKeys(before.entries, before.entries.Keys - todo - active) - stuck))
  }

  lemma ProgressStart(before: Store, active: set<string>, stuck: set<BlobKey>)
    ensures PruneProgress(before, before, active, before.entries.Keys, stuck)
  {
    assert before.entries.Keys - before.entries.Keys - active == {};
  }

  lemma ProgressSkip(before: Store, store: Store, active: set<string>, todo: set<string>, stuck: set<BlobKey>, episode: string)
    requires PruneProgress(before, store, active, todo, stuck) && episode in todo && episode in active
    ensures PruneProgress(before, store, active, todo - {episode}, stuck)
  {
    assert before.entries.Keys - (todo - {episode}) - active == before.entries.Keys - todo - active;
  }

  lemma ProgressTakeOut(before: Store, store: Store, store': Store, active: set<string>, todo: set<string>,
                        stuck: set<BlobKey>, episode: string)
    requires PruneProgress(before, store, active, todo, stuck) && episode in todo && episode !in active
    requires episode in store.entries && TakenOut(store, store', episode, stuck)
    ensures PruneProgress(before, store', active, todo - {episode}, stuck)
  {
    var gone := before.entries.Keys - todo - active;
    assert before.entries.Keys - (todo - {episode}) - active == gone + {episode};
    assert PrunedKeys(before.entries, gone + {episode}) == PrunedKeys(before.entries, gone) + KeysOf(before.entries[episode]);
  }

  lemma ProgressEnd(before: Store, store: Store, active: set<string>, stuck: set<BlobKey>)
    requires PruneProgress(before, store, active, {}, stuck)
    ensures store == PrunedStore(before, active, stuck)
  {
    assert before.entries.Keys - {} - active == before.entries.Keys - active;
  }

  /** One entry and its blobs are gone, but for a blob whose deletion failed. */
  ghost predicate TakenOut(store: Store, store': Store, episode: string, stuck: set<BlobKey>)
    requires episode in store.entries
  {
    && Keeps(store'.entries, store.entries, store.entries.Keys - {episode})
    && Keeps(store'.blobs, store.blobs, store.blobs.Keys - (KeysOf(store.entries[episode]) - stuck))
  }

  /** Pruning keeps a canonical store canonical and takes no blob from an active episode. */
  lemma PruneKeepsActive(cfg: Config, files: Files, store: Store, active: set<string>, stuck: set<BlobKey>)
    requires Canonical(cfg, files, store)
    ensures Canonical(cfg, files, PrunedStore(store, active, stuck))
    ensures forall episode :: Servable(store, episode) && episode in active ==>
      Servable(PrunedStore(store, active, stuck), episode)
  {
    forall episode, key | episode in store.entries && key in KeysOf(store.entries[episode])
      ensures key.episode == episode
    {
      OwnKeys(cfg, files, store, episode);
    }
    forall key | key in PrunedKeys(store.entries, store.entries.Keys - active) ensures key.episode !in active {}
    forall episode | Servable(store, episode) && episode in active
      ensures Servable(PrunedStore(store, active, stuck), episode)
    {
      assert CanonicalEntry(cfg, files, episode, store.entries[episode]);
    }
  }

  class PredictiveStartupCache {
    const cfg: Config
    var windows: map<nat, set<string>>
    var entries: map<string, Entry>
    var blobs: map<BlobKey, Bytes>

    constructor (cfg: Config)
      ensures this.cfg == cfg && windows == map[] && State() == Store(map[], map[])
    {
      this.cfg := cfg;
      windows, entries, blobs := map[], map[], map[];
    }

    function State(): Store
      reads this
    {
      Store(entries, blobs)
    }

    /** The loop at the head of UpdateWindow. */
    method Normalize(raw: seq<PredictiveEpisode>) returns (normalized: seq<PredictiveEpisode>, activeSet: set<string>)
      ensures normalized == Normalized(raw) && activeSet == UsableIds(raw)
    {
      normalized, activeSet := [], {};
      for i := 0 to |raw|
        invariant normalized == Normalized(raw[..i]) && activeSet == IdsOf(normalized)
      {
        assert raw[..i + 1][..i] == raw[..i];
        var id := TrimSpace(raw[i].episode);
        if id != "" && !Blank(raw[i].candidate.url) && id !in activeSet {
          IdsOfAppend(normalized, PredictiveEpisode(id, raw[i].candidate));
          activeSet := activeSet + {id};
          normalized := normalized + [PredictiveEpisode(id, raw[i].candidate)];
        }
      }
      assert raw[..|raw|] == raw;
      NormalizedIds(raw);
    }

    /** The union of all windows, as the first loop of pruneInactive builds it. */
    method ActiveEpisodes() returns (active: set<string>)
      ensures active == Active(windows)
    {
      active := {};
      var todo := windows.Keys;
      while todo != {}
        invariant todo <= windows.Keys
        invariant active == set c, e | c in windows && c !in todo && e in windows[c] :: e
        decreases |todo|
      {
        var client :| client in todo;
        active := active + windows[client];
        todo := todo - {client};
      }
    }

    /** Deleting the blobs of an entry; the deletion of a stuck blob fails and is ignored. */
    method DeleteBlobs(entry: Entry, stuck: set<BlobKey>)
      modifies this`blobs
      ensures Keeps(blobs, old(blobs), old(blobs).Keys - (KeysOf(entry) - stuck))
    {
      if entry.headKey.Some? && entry.headKey.value !in stuck { blobs := blobs - {entry.headKey.value}; }
      if entry.tailKey.Some? && entry.tailKey.value !in stuck { blobs := blobs - {entry.tailKey.value}; }
    }

    /** DeleteStartupMediaCache on an existing entry, then its blobs. */
    method TakeOut(episode: string, stuck: set<BlobKey>)
      requires episode in entries
      modifies this`entries, this`blobs
      ensures TakenOut(old(State()), State(), episode, stuck)
    {
      var entry := entries[episode];
      entries := entries - {episode};
      DeleteBlobs(entry, stuck);
    }

    /** One turn of the prune loop. */
    method PruneVisit(active: set<string>, episode: string, stuck: set<BlobKey>, ghost before: Store, ghost todo: set<string>)
      requires PruneProgress(before, State(), active, todo, stuck) && episode in todo
      modifies this`entries, this`blobs
      ensures PruneProgress(before, State(), active, todo - {episode}, stuck)
    {
      ghost var store := State();
      if episode in active {
        ProgressSkip(before, store, active, todo, stuck, episode);
      } else {
        TakeOut(episode, stuck);
        ProgressTakeOut(before, store, State(), active, todo, stuck, episode);
      }
    }

    /** pruneInactive with no other call running. */
    method PruneInactive(stuck: set<BlobKey>)
      modifies this`entries, this`blobs
      ensures State() == PrunedStore(old(State()), Active(windows), stuck)
    {
      var active := ActiveEpisodes();
      var todo := entries.Keys;
      ProgressStart(State(), active, stuck);
      while todo != {}
        invariant PruneProgress(old(State()), State(), active, todo, stuck)
        decreases |todo|
      {
        var episode :| episode in todo;
        PruneVisit(active, episode, stuck, old(State()), todo);
        todo := todo - {episode};
      }
      ProgressEnd(old(State()), State(), active, stuck);
    }

    /** One prewarm, as the goroutine of one episode. */
    method PrewarmOne(episode: string, candidate: Candidate, env: Environment) returns (ok: bool)
      modifies this`entries, this`blobs
      ensures var after := Prewarmed(cfg, old(State()), episode, candidate, env);
        State() == after.store && ok == after.ok
    {
      var service := new Service(cfg);
      service.entries, service.blobs := entries, blobs;
      var fetched;
      ok, fetched := service.Prewarm(episode, candidate, env);
      entries, blobs := service.entries, service.blobs;
    }

    /** One prewarm goroutine, run on its own. */
    method PrewarmNext(e: PredictiveEpisode, env: Environment, ghost files: Files) returns (done: bool)
      requires Canonical(cfg, files, State()) && HonestUpstream(cfg, files, e.episode, env.fetch)
      modifies this`entries, this`blobs
      ensures var after := Prewarmed(cfg, old(State()), e.episode, e.candidate, env); State() == after.store && done == after.ok
      ensures Canonical(cfg, files, State())
      ensures done ==> Cached(cfg, State(), e.episode, e.candidate.url)
      ensures KeepsServable(old(State()), State())
    {
      ghost var before := State();
      PrewarmKeepsCanonical(cfg, files, before, e.episode, e.candidate, env);
      done := PrewarmOne(e.episode, e.candidate, env);
      if done {
        PrewarmedServable(cfg, files, before, e.episode, e.candidate, env);
      }
      forall other | Servable(before, other) ensures Servable(State(), other) {
        StillServable(cfg, before, e.episode, e.candidate, env, other);
      }
    }

    /** The goroutines of one call, run one after the other. */
    method PrewarmAll(normalized: seq<PredictiveEpisode>, envs: PredictiveEpisode -> Environment, ghost files: Files)
        returns (ok: bool)
      requires Canonical(cfg, files, State()) && DistinctIds(normalized)
      requires HonestCall(cfg, files, normalized, envs)
      modifies this`entries, this`blobs
      ensures Canonical(cfg, files, State())
      ensures ok ==> AllCached(cfg, State(), normalized)
      ensures SmoothCall(cfg, files, normalized, envs) ==> ok
      ensures KeepsServable(old(State()), State()) && Untouched(old(State()), State(), IdsOf(normalized))
    {
      ok := true;
      for i := 0 to |normalized|
        invariant Canonical(cfg, files, State())
        invariant ok ==> AllCached(cfg, State(), normalized[..i])
        invariant SmoothCall(cfg, files, normalized, envs) ==> ok
        invariant KeepsServable(old(State()), State()) && Untouched(old(State()), State(), IdsOf(normalized))
      {
        ghost var before := State();
        var e := normalized[i];
        var done := PrewarmNext(e, envs(e), files);
        KeepsServableTwice(old(State()), before, State());
        if ok && done {
          OneMoreCached(cfg, before, envs(e), normalized, i);
        }
        assert e in normalized && e.episode in IdsOf(normalized);
        PrewarmedOwn(cfg, before, e.episode, e.candidate, envs(e));
        if SmoothCall(cfg, files, normalized, envs) { SmoothIsOk(cfg, files, before, e.episode, e.candidate, envs(e)); }
        ok := ok && done;
      }
      assert normalized[..|normalized|] == normalized;
    }

    /** UpdateWindow with no other call running. When it reports no error, every usable episode of
        the window is cached for the URL of the first episode with its identifier, and it reports
        none when nothing fails; whatever was servable and is still in a window stays so; nothing
        outside the windows is left, nor the blobs of what was there, but for stuck ones. */
    method UpdateWindow(client: nat, raw: seq<PredictiveEpisode>, envs: PredictiveEpisode -> Environment,
                        stuck: set<BlobKey>, ghost files: Files) returns (ok: bool)
      requires Canonical(cfg, files, State())
      requires HonestCall(cfg, files, Normalized(raw), envs)
      modifies this
      ensures Canonical(cfg, files, State())
      ensures windows == if UsableIds(raw) == {} then old(windows) - {client} else old(windows)[client := UsableIds(raw)]
      ensures forall episode :: episode in entries ==> episode in Active(windows)
      ensures ok ==> forall id, candidate :: FirstOffers(raw, id, candidate) ==> Cached(cfg, State(), id, candidate.url)
      ensures SmoothCall(cfg, files, Normalized(raw), envs) ==> ok
      ensures forall episode :: Servable(old(State()), episode) && episode in Active(windows) ==> Servable(State(), episode)
      ensures stuck == {} ==>
        forall episode :: episode in old(entries) && episode !in Active(windows) ==> NoBlobs(State(), old(entries)[episode])
    {
      var normalized, activeSet := Normalize(raw);
      NormalizedIds(raw);
      if activeSet == {} {
        windows := windows - {client};
      } else {
        windows := windows[client := activeSet];
      }
      ok := PrewarmAll(normalized, envs, files);
      ghost var warm := State();
      PruneKeepsActive(cfg, files, warm, Active(windows), stuck);
      PruneInactive(stuck);

      WindowServed(cfg, warm, State(), windows, client, normalized, raw, stuck);
      if stuck == {} {
        forall episode | episode in old(entries) && episode !in Active(windows) ensures NoBlobs(State(), old(entries)[episode]) {
          assert episode !in IdsOf(normalized);
          PruneDeletesBlobs(warm, Active(windows), episode);
        }
      }
    }
  }

  /** Nothing fails for any goroutine of a call. */
  ghost predicate SmoothCall(cfg: Config, files: Files, episodes: seq<PredictiveEpisode>, envs: PredictiveEpisode -> Environment) {
    forall e :: e in episodes ==>
      Smooth(cfg, files, e.episode, e.candidate.url, envs(e)) && !Blank(e.episode) && !Blank(e.candidate.url)
  }

  /** The window's episodes are active, so what is cached of them before the prune is so after it. */
  lemma WindowServed(cfg: Config, warm: Store, pruned: Store, windows: map<nat, set<string>>, client: nat,
                     normalized: seq<PredictiveEpisode>, raw: seq<PredictiveEpisode>, stuck: set<BlobKey>)
    requires WellKept(normalized, raw) && pruned == PrunedStore(warm, Active(windows), stuck)
    requires UsableIds(raw) != {} ==> client in windows && windows[client] == UsableIds(raw)
    requires forall e :: Servable(warm, e) && e in Active(windows) ==> Servable(pruned, e)
    ensures IdsOf(normalized) <= Active(windows)
    ensures AllCached(cfg, warm, normalized) ==>
      forall id, candidate :: FirstOffers(raw, id, candidate) ==> Cached(cfg, pruned, id, candidate.url)
  {
    forall episode | episode in IdsOf(normalized) ensures episode in Active(windows) {
      assert client in windows && episode in windows[client];
    }
    if AllCached(cfg, warm, normalized) {
      forall id, candidate | FirstOffers(raw, id, candidate) ensures Cached(cfg, pruned, id, candidate.url) {
        OfferedIsKept(normalized, raw, id, candidate);
        assert id in IdsOf(normalized) by { assert PredictiveEpisode(id, candidate) in normalized; }
        assert Cached(cfg, warm, id, candidate.url);
      }
    }
  }
}
