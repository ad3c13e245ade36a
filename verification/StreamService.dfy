/** The stream service: resolving an episode through a memory cache, a database table and the
    provider, with signed URLs that expire. Times are integers on one scale. */
module StreamService {
  import opened Basics
  import opened Domain
  import opened Sorting
  import opened StreamCandidates

  const SECOND: int := 1_000_000_000
  const SAFETY_MARGIN: int := 5 * 60 * SECOND

  datatype StreamResult = StreamResult(
    episode: string, preferred: Option<Candidate>, candidates: seq<Candidate>, reason: string, provider: string)

  /** signedExpiry is signedURLExpiresAt; tenYears adds ten calendar years. */
  datatype Config = Config(
    signedExpiry: string -> Option<int>, tenYears: int -> int, provider: string, hasStore: bool)

  ghost predicate ValidConfig(cfg: Config) {
    forall t :: cfg.tenYears(t) > t
  }

  // ---------------------------------------------------------------- expiry

  /** The URLs resultExpiresAt considers, in its order. */
  function Urls(result: StreamResult): seq<string> {
    (if result.preferred.Some? then [result.preferred.value.url] else [])
    + seq(|result.candidates|, i requires 0 <= i < |result.candidates| => result.candidates[i].url)
  }

  /** When a signed URL stops being handed out. */
  function UsableUntil(cfg: Config, url: string): Option<int> {
    if url == "" then None
    else match cfg.signedExpiry(url)
      case None => None
      case Some(t) => Some(t - SAFETY_MARGIN)
  }

  function Earlier(found: Option<int>, next: Option<int>): Option<int> {
    if next.None? then found
    else if found.None? || next.value < found.value then next
    else found
  }

  function EarliestOf(cfg: Config, urls: seq<string>): Option<int> {
    if urls == [] then None
    else Earlier(EarliestOf(cfg, urls[..|urls| - 1]), UsableUntil(cfg, urls[|urls| - 1]))
  }

  /** resultExpiresAt. */
  function ExpiresAt(cfg: Config, now: int, result: StreamResult): int {
    match EarliestOf(cfg, Urls(result))
    case Some(t) => t
    case None => cfg.tenYears(now)
  }

  /** resultIsExpired. */
  predicate IsExpired(cfg: Config, now: int, result: StreamResult) {
    ExpiresAt(cfg, now, result) <= now
  }

  lemma EarliestNext(cfg: Config, urls: seq<string>, i: nat)
    requires i < |urls|
    ensures EarliestOf(cfg, urls[..i + 1]) == Earlier(EarliestOf(cfg, urls[..i]), UsableUntil(cfg, urls[i]))
  {
    assert urls[..i + 1][..i] == urls[..i];
  }

  /** resultExpiresAt with its running minimum. */
  method ResultExpiresAt(cfg: Config, now: int, result: StreamResult) returns (expiresAt: int)
    ensures expiresAt == ExpiresAt(cfg, now, result)
  {
    var urls := Urls(result);
    expiresAt := cfg.tenYears(now);
    var found := false;
    ghost var soFar: Option<int> := None;
    for i := 0 to |urls|
      invariant soFar == EarliestOf(cfg, urls[..i]) && found == soFar.Some?
      invariant expiresAt == if found then soFar.value else cfg.tenYears(now)
    {
      var until := UsableUntil(cfg, urls[i]);
      EarliestNext(cfg, urls, i);
      soFar := Earlier(soFar, until);
      if until.Some? && (!found || until.value < expiresAt) {
        expiresAt := until.value;
        found := true;
      }
    }
    assert urls[..|urls|] == urls;
  }

  /** The running minimum is a lower bound of all signed URLs, and one of them attains it. */
  lemma {:induction false} EarliestIsMinimum(cfg: Config, urls: seq<string>)
    ensures forall u :: u in urls && UsableUntil(cfg, u).Some? ==>
      EarliestOf(cfg, urls).Some? && EarliestOf(cfg, urls).value <= UsableUntil(cfg, u).value
    ensures EarliestOf(cfg, urls).Some? ==> exists u :: u in urls && UsableUntil(cfg, u) == EarliestOf(cfg, urls)
  {
    if urls != [] {
      var front, last := urls[..|urls| - 1], urls[|urls| - 1];
      EarliestIsMinimum(cfg, front);
      assert urls == front + [last];
      assert last in urls;
      if EarliestOf(cfg, front).Some? {
        var u :| u in front && UsableUntil(cfg, u) == EarliestOf(cfg, front);
        assert u in urls;
      }
    }
  }

  /** Every signed URL of the result has more than five minutes left. */
  ghost predicate Fresh(cfg: Config, now: int, result: StreamResult) {
    forall c :: (c in result.candidates || result.preferred == Some(c)) && c.url != "" && cfg.signedExpiry(c.url).Some? ==>
      cfg.signedExpiry(c.url).value > now + 300_000_000_000
  }

  lemma UrlsAreThose(result: StreamResult)
    ensures forall c :: c in result.candidates || result.preferred == Some(c) ==> c.url in Urls(result)
    ensures forall u :: u in Urls(result) ==> exists c :: (c in result.candidates || result.preferred == Some(c)) && c.url == u
  {
    var tail := seq(|result.candidates|, i requires 0 <= i < |result.candidates| => result.candidates[i].url);
    forall c | c in result.candidates ensures c.url in Urls(result) {
      var i :| 0 <= i < |result.candidates| && result.candidates[i] == c;
      assert tail[i] == c.url;
    }
    forall u | u in Urls(result) ensures exists c :: (c in result.candidates || result.preferred == Some(c)) && c.url == u {
      if u in tail {
        var i :| 0 <= i < |tail| && tail[i] == u;
        assert result.candidates[i] in result.candidates;
      }
    }
  }

  /** A result is unexpired exactly when it is fresh. */
  lemma UnexpiredIffFresh(cfg: Config, now: int, result: StreamResult)
    requires ValidConfig(cfg)
    ensures !IsExpired(cfg, now, result) <==> Fresh(cfg, now, result)
  {
    EarliestIsMinimum(cfg, Urls(result));
    UrlsAreThose(result);
    if Fresh(cfg, now, result) && EarliestOf(cfg, Urls(result)).Some? {
      var u :| u in Urls(result) && UsableUntil(cfg, u) == EarliestOf(cfg, Urls(result));
      var c :| (c in result.candidates || result.preferred == Some(c)) && c.url == u;
    }
  }

  /** streamMemoryTTL; clock is the time at which it asks again. */
  function MemoryTtl(cfg: Config, now: int, clock: int, result: StreamResult, fallback: int): int {
    var expiresAt := ExpiresAt(cfg, now, result);
    var untilExpiry := if expiresAt > now then expiresAt - now else expiresAt - clock;
    if untilExpiry <= 0 then SECOND
    else if fallback <= 0 || untilExpiry < fallback then untilExpiry
    else fallback
  }

  /** The time to live is positive, and reaches no further than the expiry of an unexpired result. */
  lemma MemoryTtlBounds(cfg: Config, now: int, clock: int, result: StreamResult, fallback: int)
    ensures var ttl := MemoryTtl(cfg, now, clock, result, fallback);
      ttl > 0 && (!IsExpired(cfg, now, result) ==> now + ttl <= ExpiresAt(cfg, now, result))
  {
  }

  /** An unexpired result is kept until it expires or for the configured time, whichever is shorter,
      and until it expires when no time is configured; one expired on both clocks for a second. */
  lemma MemoryTtlIs(cfg: Config, now: int, clock: int, result: StreamResult, fallback: int)
    ensures var ttl := MemoryTtl(cfg, now, clock, result, fallback);
      var end := ExpiresAt(cfg, now, result);
      && (end > now && fallback > 0 ==> (ttl == fallback || now + ttl == end) && ttl <= fallback && now + ttl <= end)
      && (end > now && fallback <= 0 ==> now + ttl == end)
      && (end <= now && end <= clock ==> ttl == 1_000_000_000)
  {
  }

  // ---------------------------------------------------------------- the service

  datatype Row = Row(result: StreamResult, expiresAt: int)

  datatype State = State(memory: map<string, StreamResult>, table: map<string, Row>)

  datatype Origin = Memory | Table | Provider

  datatype Answer = Failed | Answered(origin: Origin, result: StreamResult)

  /** What one resolve meets: two clock readings, table accesses that may fail, the provider's
      candidates, the order the unstable sort left them in, and the clock at persisting. */
  datatype Environment = Environment(
    now: int, later: int, readOk: bool, deleteOk: bool,
    offered: Option<seq<Candidate>>, resorted: seq<Candidate>, persistedAt: int, writeOk: bool)

  ghost predicate ValidEnvironment(env: Environment) {
    env.offered.Some? ==> SortOf(Ranks, env.resorted, Normalized(env.offered.value))
  }

  function CacheKey(episode: string): string {
    "stream:" + episode
  }

  lemma CacheKeyInjective(episode1: string, episode2: string)
    requires CacheKey(episode1) == CacheKey(episode2)
    ensures episode1 == episode2
  {
    assert CacheKey(episode1)[7..] == episode1 && CacheKey(episode2)[7..] == episode2;
  }

  function BuildResult(cfg: Config, episode: string, resorted: seq<Candidate>): StreamResult {
    var (preferred, reason) := Select(resorted);
    StreamResult(episode, preferred, resorted, reason, cfg.provider)
  }

  /** The memory look-up: an expired value is dropped. */
  function AfterMemory(cfg: Config, s: State, episode: string, env: Environment): (State, Option<StreamResult>) {
    var key := CacheKey(episode);
    if key !in s.memory then (s, None)
    else if !IsExpired(cfg, env.now, s.memory[key]) then (s, Some(s.memory[key]))
    else (s.(memory := s.memory - {key}), None)
  }

  function DropRow(s: State, episode: string, ok: bool): State {
    if ok then s.(table := s.table - {episode}) else s
  }

  /** The table look-up: a row past its column or past its signed URLs is deleted, and a fresh one
      is copied into memory. */
  function AfterTable(cfg: Config, s: State, episode: string, env: Environment): (State, Option<StreamResult>) {
    if !env.readOk || episode !in s.table then (s, None)
    else
      var row := s.table[episode];
      if row.expiresAt <= env.later || IsExpired(cfg, env.now, row.result) then (DropRow(s, episode, env.deleteOk), None)
      else (s.(memory := s.memory[CacheKey(episode) := row.result]), Some(row.result))
  }

  /** persist. */
  function Persisted(cfg: Config, s: State, episode: string, result: StreamResult, env: Environment): State {
    var s' := s.(memory := s.memory[CacheKey(episode) := result]);
    if cfg.hasStore && env.writeOk then
      s'.(table := s.table[episode := Row(result, ExpiresAt(cfg, env.persistedAt, result))])
    else s'
  }

  function FromProvider(cfg: Config, s: State, episode: string, env: Environment): (State, Answer) {
    if env.offered.None? then (s, Failed)
    else
      var result := BuildResult(cfg, episode, env.resorted);
      (Persisted(cfg, s, episode, result, env), Answered(Provider, result))
  }

  /** resolve. */
  function Resolved(cfg: Config, s: State, episode: string, force: bool, env: Environment): (State, Answer) {
    if force then FromProvider(cfg, s, episode, env)
    else
      var (s1, inMemory) := AfterMemory(cfg, s, episode, env);
      if inMemory.Some? then (s1, Answered(Memory, inMemory.value))
      else if !cfg.hasStore then FromProvider(cfg, s1, episode, env)
      else
        var (s2, inTable) := AfterTable(cfg, s1, episode, env);
        if inTable.Some? then (s2, Answered(Table, inTable.value)) else FromProvider(cfg, s2, episode, env)
  }

  /** Invalidate. */
  function Invalidated(cfg: Config, s: State, episode: string, deleteOk: bool): State {
    DropRow(s.(memory := s.memory - {CacheKey(episode)}), episode, cfg.hasStore && deleteOk)
  }

  class Service {
    const cfg: Config
    var memory: map<string, StreamResult>
    var table: map<string, Row>

    constructor (cfg: Config, table: map<string, Row>)
      ensures this.cfg == cfg && Current() == State(map[], table)
    {
      this.cfg := cfg;
      this.memory, this.table := map[], table;
    }

    function Current(): State
      reads this
    {
      State(memory, table)
    }

    method Invalidate(episode: string, deleteOk: bool)
      modifies this
      ensures Current() == Invalidated(cfg, old(Current()), episode, deleteOk)
    {
      memory := memory - {CacheKey(episode)};
      if cfg.hasStore && deleteOk { table := table - {episode}; }
    }

    method Persist(episode: string, result: StreamResult, env: Environment)
      modifies this
      ensures Current() == Persisted(cfg, old(Current()), episode, result, env)
    {
      memory := memory[CacheKey(episode) := result];
      if cfg.hasStore && env.writeOk {
        var expiresAt := ResultExpiresAt(cfg, env.persistedAt, result);
        table := table[episode := Row(result, expiresAt)];
      }
    }

    method Resolve(episode: string, force: bool, env: Environment) returns (answer: Answer)
      modifies this
      ensures (Current(), answer) == Resolved(cfg, old(Current()), episode, force, env)
    {
      var key := CacheKey(episode);
      if !force && key in memory {
        var value := memory[key];
        var expiresAt := ResultExpiresAt(cfg, env.now, value);
        if expiresAt > env.now { return Answered(Memory, value); }
        memory := memory - {key};
      }
      if !force && cfg.hasStore && env.readOk && episode in table {
        var row := table[episode];
        var expiresAt := ResultExpiresAt(cfg, env.now, row.result);
        if row.expiresAt <= env.later || expiresAt <= env.now {
          if env.deleteOk { table := table - {episode}; }
        } else {
          memory := memory[key := row.result];
          return Answered(Table, row.result);
        }
      }
      if env.offered.None? { return Failed; }
      var result := BuildResult(cfg, episode, env.resorted);
      Persist(episode, result, env);
      return Answered(Provider, result);
    }
  }

  // ---------------------------------------------------------------- whole runs

  datatype Op =
    | Resolve(episode: string, force: bool, env: Environment)
    | Invalidate(episode: string, deleteOk: bool)
    | Evict(keys: set<string>)

  /** A resolve that happened: what it was asked, what it met and what it answered. */
  datatype Event = Event(episode: string, env: Environment, answer: Answer)

  function Do(cfg: Config, s: State, op: Op): (State, seq<Event>) {
    match op
    case Resolve(episode, force, env) =>
      var (s', answer) := Resolved(cfg, s, episode, force, env);
      (s', [Event(episode, env, answer)])
    case Invalidate(episode, deleteOk) => (Invalidated(cfg, s, episode, deleteOk), [])
    case Evict(keys) => (s.(memory := s.memory - keys), [])
  }

  /** The state and the history after a run from an empty cache and an empty table. */
  function Run(cfg: Config, ops: seq<Op>): (State, seq<Event>) {
    if ops == [] then (State(map[], map[]), [])
    else
      var (s, history) := Run(cfg, ops[..|ops| - 1]);
      var (s', events) := Do(cfg, s, ops[|ops| - 1]);
      (s', history + events)
  }

  /** The result follows from an offer of the provider: its candidates are the normalised offer in
      order of priority, its preferred stream and reason follow the rules of selection. */
  ghost predicate GoodResult(cfg: Config, episode: string, offered: seq<Candidate>, result: StreamResult) {
    && result.episode == episode && result.provider == cfg.provider
    && SortOf(Ranks, result.candidates, Normalized(offered))
    && Ruled(result.candidates, result.preferred, result.reason)
  }

  ghost predicate ValidRun(ops: seq<Op>) {
    forall i :: 0 <= i < |ops| && ops[i].Resolve? ==> ValidEnvironment(ops[i].env)
  }

  /** The provider gave this result for this episode at some point of the history. */
  ghost predicate Produced(history: seq<Event>, episode: string, result: StreamResult) {
    exists i :: 0 <= i < |history| && history[i].episode == episode && history[i].answer == Answered(Provider, result)
  }

  /** Everything cached for an episode was produced for that episode. */
  ghost predicate Sourced(s: State, history: seq<Event>) {
    && (forall episode :: CacheKey(episode) in s.memory ==> Produced(history, episode, s.memory[CacheKey(episode)]))
    && (forall episode :: episode in s.table ==> Produced(history, episode, s.table[episode].result))
  }

  lemma ProducedLater(history: seq<Event>, events: seq<Event>, episode: string, result: StreamResult)
    requires Produced(history, episode, result)
    ensures Produced(history + events, episode, result)
  {
    var i :| 0 <= i < |history| && history[i].episode == episode && history[i].answer == Answered(Provider, result);
    assert (history + events)[i] == history[i];
  }

  lemma ProviderSourced(cfg: Config, s: State, history: seq<Event>, episode: string, env: Environment)
    requires Sourced(s, history)
    ensures var (s', answer) := FromProvider(cfg, s, episode, env);
      Sourced(s', history + [Event(episode, env, answer)])
  {
    var (s', answer) := FromProvider(cfg, s, episode, env);
    var event := Event(episode, env, answer);
    assert (history + [event])[|history|] == event;
    forall e | CacheKey(e) in s'.memory ensures Produced(history + [event], e, s'.memory[CacheKey(e)]) {
      if CacheKey(e) == CacheKey(episode) && answer.Answered? {
        CacheKeyInjective(e, episode);
      } else {
        ProducedLater(history, [event], e, s.memory[CacheKey(e)]);
      }
    }
    forall e | e in s'.table ensures Produced(history + [event], e, s'.table[e].result) {
      if e in s.table && s.table[e] == s'.table[e] {
        ProducedLater(history, [event], e, s.table[e].result);
      }
    }
  }

  lemma SourcedLater(s: State, history: seq<Event>, events: seq<Event>)
    requires Sourced(s, history)
    ensures Sourced(s, history + events)
  {
    forall e | CacheKey(e) in s.memory ensures Produced(history + events, e, s.memory[CacheKey(e)]) {
      ProducedLater(history, events, e, s.memory[CacheKey(e)]);
    }
    forall e | e in s.table ensures Produced(history + events, e, s.table[e].result) {
      ProducedLater(history, events, e, s.table[e].result);
    }
  }

  lemma LookupsSourced(cfg: Config, s: State, history: seq<Event>, episode: string, env: Environment)
    requires Sourced(s, history)
    ensures var (s1, found) := AfterMemory(cfg, s, episode, env);
      Sourced(s1, history) && (found.Some? ==> Produced(history, episode, found.value))
    ensures var (s2, found) := AfterTable(cfg, s, episode, env);
      Sourced(s2, history) && (found.Some? ==> Produced(history, episode, found.value))
  {
    var (s2, found) := AfterTable(cfg, s, episode, env);
    forall e | CacheKey(e) in s2.memory ensures Produced(history, e, s2.memory[CacheKey(e)]) {
      if CacheKey(e) == CacheKey(episode) {
        CacheKeyInjective(e, episode);
      }
    }
  }

  /** A resolve keeps everything sourced, and answers from a cache only what was produced. */
  lemma ResolveSourced(cfg: Config, s: State, history: seq<Event>, episode: string, force: bool, env: Environment)
    requires Sourced(s, history)
    ensures var (s', answer) := Resolved(cfg, s, episode, force, env);
      && Sourced(s', history + [Event(episode, env, answer)])
      && (answer.Answered? && answer.origin != Provider ==> Produced(history, episode, answer.result))
  {
    var (s', answer) := Resolved(cfg, s, episode, force, env);
    var event := Event(episode, env, answer);
    if force {
      ProviderSourced(cfg, s, history, episode, env);
    } else {
      LookupsSourced(cfg, s, history, episode, env);
      var (s1, inMemory) := AfterMemory(cfg, s, episode, env);
      LookupsSourced(cfg, s1, history, episode, env);
      var (s2, inTable) := AfterTable(cfg, s1, episode, env);
      if inMemory.Some? {
        SourcedLater(s1, history, [event]);
      } else if cfg.hasStore && inTable.Some? {
        SourcedLater(s2, history, [event]);
      } else {
        ProviderSourced(cfg, if cfg.hasStore then s2 else s1, history, episode, env);
      }
    }
  }

  lemma {:induction false} RunSourced(cfg: Config, ops: seq<Op>)
    ensures Sourced(Run(cfg, ops).0, Run(cfg, ops).1)
  {
    if ops != [] {
      var front, last := ops[..|ops| - 1], ops[|ops| - 1];
      RunSourced(cfg, front);
      var (s, history) := Run(cfg, front);
      if last.Resolve? {
        ResolveSourced(cfg, s, history, last.episode, last.force, last.env);
      } else {
        assert history + [] == history;
      }
    }
  }

  /** Whatever is in memory and in the table, a result answered from them is fresh. */
  lemma CachedAnswerIsFresh(cfg: Config, s: State, episode: string, force: bool, env: Environment)
    requires ValidConfig(cfg)
    ensures var answer := Resolved(cfg, s, episode, force, env).1;
      answer.Answered? && answer.origin != Provider ==> !force && Fresh(cfg, env.now, answer.result)
  {
    var answer := Resolved(cfg, s, episode, force, env).1;
    if answer.Answered? {
      UnexpiredIffFresh(cfg, env.now, answer.result);
    }
  }

  /** What the provider is asked for becomes a good result, or an error when it has none. */
  lemma ProviderAnswerIsGood(cfg: Config, s: State, episode: string, force: bool, env: Environment)
    requires ValidEnvironment(env)
    ensures var answer := Resolved(cfg, s, episode, force, env).1;
      && (answer.Failed? ==> env.offered.None?)
      && (answer.Answered? && answer.origin == Provider ==>
        && env.offered.Some? && GoodResult(cfg, episode, env.offered.value, answer.result)
        && (answer.result.candidates == [] <==> env.offered.value == []))
  {
    var answer := Resolved(cfg, s, episode, force, env).1;
    SelectIsRuled(env.resorted);
    if answer.Answered? && answer.origin == Provider {
      NormalizedEmpty(env.offered.value);
      assert multiset(env.resorted) == multiset(Normalized(env.offered.value));
      assert |env.resorted| == |multiset(env.resorted)| && |Normalized(env.offered.value)| == |multiset(Normalized(env.offered.value))|;
    }
  }

  /** The answer was built from an offer the provider made for the episode in this event. */
  ghost predicate Offered(cfg: Config, event: Event, result: StreamResult) {
    && event.answer == Answered(Provider, result)
    && event.env.offered.Some? && GoodResult(cfg, event.episode, event.env.offered.value, result)
  }

  /** In every run, with any evictions, invalidations and table failures, each answer follows from
      an offer of the provider for that very episode: one made at this call, or, for an answer from
      a cache, at an earlier one; and then it is fresh at its call. Errors are the provider's. */
  lemma {:induction false} EveryAnswerIsGood(cfg: Config, ops: seq<Op>, i: nat)
    requires ValidConfig(cfg) && ValidRun(ops)
    requires i < |Run(cfg, ops).1|
    ensures var history := Run(cfg, ops).1;
      var Event(episode, env, answer) := history[i];
      && (answer.Failed? ==> env.offered.None?)
      && (answer.Answered? && answer.origin == Provider ==> Offered(cfg, history[i], answer.result))
      && (answer.Answered? && answer.origin != Provider ==>
        && Fresh(cfg, env.now, answer.result)
        && exists j :: 0 <= j < i && history[j].episode == episode && Offered(cfg, history[j], answer.result))
  {
    var front, last := ops[..|ops| - 1], ops[|ops| - 1];
    assert forall k :: 0 <= k < |front| ==> front[k] == ops[k];
    var (s, history) := Run(cfg, front);
    if i < |history| {
      EveryAnswerIsGood(cfg, front, i);
      var answer := history[i].answer;
      if answer.Answered? && answer.origin != Provider {
        var j :| 0 <= j < i && history[j].episode == history[i].episode && Offered(cfg, history[j], answer.result);
        assert Run(cfg, ops).1[j] == history[j];
      }
    } else {
      RunSourced(cfg, front);
      ResolveSourced(cfg, s, history, last.episode, last.force, last.env);
      CachedAnswerIsFresh(cfg, s, last.episode, last.force, last.env);
      ProviderAnswerIsGood(cfg, s, last.episode, last.force, last.env);
      var answer := Run(cfg, ops).1[i].answer;
      if answer.Answered? && answer.origin != Provider {
        var j :| 0 <= j < |history| && history[j].episode == last.episode && history[j].answer == Answered(Provider, answer.result);
        EveryAnswerIsGood(cfg, front, j);
        assert Run(cfg, ops).1[j] == history[j];
      }
    }
  }

  // ---------------------------------------------------------------- who answers

  /** Memory holds a fresh result for the episode. */
  ghost predicate InMemory(cfg: Config, s: State, episode: string, env: Environment) {
    CacheKey(episode) in s.memory && Fresh(cfg, env.now, s.memory[CacheKey(episode)])
  }

  /** The table can be read and holds a fresh result for the episode, in a row that is not past its
      expiry. */
  ghost predicate InTable(cfg: Config, s: State, episode: string, env: Environment) {
    && cfg.hasStore && env.readOk && episode in s.table
    && s.table[episode].expiresAt > env.later && Fresh(cfg, env.now, s.table[episode].result)
  }

  /** The row of a new result: it expires five minutes before the first of its signed URLs, and ten
      years on if it has none. */
  ghost predicate RowOf(cfg: Config, at: int, result: StreamResult, row: Row) {
    var expiries := set u | u in Urls(result) && u != "" && cfg.signedExpiry(u).Some? :: cfg.signedExpiry(u).value;
    && row.result == result
    && (forall t :: t in expiries ==> row.expiresAt <= t - 300_000_000_000)
    && (if expiries == {} then row.expiresAt == cfg.tenYears(at) else row.expiresAt + 300_000_000_000 in expiries)
  }

  lemma PersistedRow(cfg: Config, at: int, result: StreamResult)
    ensures RowOf(cfg, at, result, Row(result, ExpiresAt(cfg, at, result)))
  {
    EarliestIsMinimum(cfg, Urls(result));
    var urls := Urls(result);
    var expiries := set u | u in urls && u != "" && cfg.signedExpiry(u).Some? :: cfg.signedExpiry(u).value;
    forall t | t in expiries ensures EarliestOf(cfg, urls).Some? && EarliestOf(cfg, urls).value <= t - 300_000_000_000 {
      var u :| u in urls && u != "" && cfg.signedExpiry(u).Some? && cfg.signedExpiry(u).value == t;
      assert UsableUntil(cfg, u) == Some(t - 300_000_000_000);
    }
    if EarliestOf(cfg, urls).Some? {
      var u :| u in urls && UsableUntil(cfg, u) == EarliestOf(cfg, urls);
      assert cfg.signedExpiry(u).value in expiries;
    }
  }

  /** Who answers a resolve: memory if it holds a fresh result, else the table if it does, unless a
      refresh is forced; else the provider. The result is in memory afterwards, and a new one in the
      table too, if that can be written. */
  lemma WhoAnswers(cfg: Config, s: State, episode: string, force: bool, env: Environment)
    requires ValidConfig(cfg)
    ensures var (s', answer) := Resolved(cfg, s, episode, force, env);
      var key := CacheKey(episode);
      if !force && InMemory(cfg, s, episode, env) then answer == Answered(Memory, s.memory[key]) && s' == s
      else if !force && InTable(cfg, s, episode, env) then
        answer == Answered(Table, s.table[episode].result) && s'.memory == s.memory[key := answer.result] && s'.table == s.table
      else if env.offered.None? then answer == Failed
      else
        && answer.Answered? && answer.origin == Provider
        && s'.memory == s.memory[key := answer.result]
        && (cfg.hasStore && env.writeOk ==> episode in s'.table && RowOf(cfg, env.persistedAt, answer.result, s'.table[episode]))
  {
    MemoryAnswers(cfg, s, episode, env);
    var s1 := AfterMemory(cfg, s, episode, env).0;
    if cfg.hasStore { TableAnswers(cfg, s1, episode, env); }
    ProviderKept(cfg, s, episode, env);
    ProviderKept(cfg, s1, episode, env);
    ProviderKept(cfg, AfterTable(cfg, s1, episode, env).0, episode, env);
  }

  lemma MemoryAnswers(cfg: Config, s: State, episode: string, env: Environment)
    requires ValidConfig(cfg)
    ensures var (s', found) := AfterMemory(cfg, s, episode, env);
      && s'.table == s.table
      && (if InMemory(cfg, s, episode, env) then found == Some(s.memory[CacheKey(episode)]) && s' == s
          else found == None && s'.memory == s.memory - {CacheKey(episode)})
  {
    if CacheKey(episode) in s.memory { UnexpiredIffFresh(cfg, env.now, s.memory[CacheKey(episode)]); }
  }

  lemma TableAnswers(cfg: Config, s: State, episode: string, env: Environment)
    requires ValidConfig(cfg) && cfg.hasStore
    ensures var (s', found) := AfterTable(cfg, s, episode, env);
      if InTable(cfg, s, episode, env) then
        found == Some(s.table[episode].result) && s'.memory == s.memory[CacheKey(episode) := found.value] && s'.table == s.table
      else found == None && s'.memory == s.memory
  {
    if episode in s.table { UnexpiredIffFresh(cfg, env.now, s.table[episode].result); }
  }

  lemma ProviderKept(cfg: Config, s: State, episode: string, env: Environment)
    ensures var (s', answer) := FromProvider(cfg, s, episode, env);
      if env.offered.None? then answer == Failed && s' == s
      else
        && answer.Answered? && answer.origin == Provider
        && s'.memory == s.memory[CacheKey(episode) := answer.result]
        && (cfg.hasStore && env.writeOk ==> episode in s'.table && RowOf(cfg, env.persistedAt, answer.result, s'.table[episode]))
  {
    PersistedRow(cfg, env.persistedAt, BuildResult(cfg, episode, env.resorted));
  }

  /** An answer is remembered: asked again with nothing in between, while the result is fresh, the
      service gives the same one from memory and leaves everything as it is. */
  lemma AnswerIsRemembered(cfg: Config, s: State, episode: string, force: bool, env: Environment, env': Environment)
    requires ValidConfig(cfg) && Resolved(cfg, s, episode, force, env).1.Answered?
    requires Fresh(cfg, env'.now, Resolved(cfg, s, episode, force, env).1.result)
    ensures var (s1, answer) := Resolved(cfg, s, episode, force, env);
      Resolved(cfg, s1, episode, false, env') == (s1, Answered(Memory, answer.result))
  {
    WhoAnswers(cfg, s, episode, force, env);
    WhoAnswers(cfg, Resolved(cfg, s, episode, force, env).0, episode, false, env');
  }

  /** And from the table, when memory has lost it meanwhile, if the answer was the provider's and
      could be written. */
  lemma TableRemembers(cfg: Config, s: State, episode: string, force: bool, env: Environment, lost: set<string>, env': Environment)
    requires ValidConfig(cfg) && cfg.hasStore && env.writeOk && env'.readOk && CacheKey(episode) in lost
    requires Resolved(cfg, s, episode, force, env).1.Answered? && Resolved(cfg, s, episode, force, env).1.origin == Provider
    requires Fresh(cfg, env'.now, Resolved(cfg, s, episode, force, env).1.result)
    requires Resolved(cfg, s, episode, force, env).0.table[episode].expiresAt > env'.later
    ensures var (s1, answer) := Resolved(cfg, s, episode, force, env);
      Resolved(cfg, s1.(memory := s1.memory - lost), episode, false, env').1 == Answered(Table, answer.result)
  {
    WhoAnswers(cfg, s, episode, force, env);
    var s1 := Resolved(cfg, s, episode, force, env).0;
    WhoAnswers(cfg, s1.(memory := s1.memory - lost), episode, false, env');
  }

  /** A table row that is past its expiry or not fresh is deleted when it is met, if it can be. */
  lemma StaleRowGoes(cfg: Config, s: State, episode: string, env: Environment)
    requires ValidConfig(cfg) && cfg.hasStore && env.readOk && env.deleteOk && episode in s.table
    requires !InMemory(cfg, s, episode, env) && !InTable(cfg, s, episode, env) && env.offered.None?
    ensures var s' := Resolved(cfg, s, episode, false, env).0;
      s'.table == s.table - {episode} && CacheKey(episode) !in s'.memory
  {
    if CacheKey(episode) in s.memory { UnexpiredIffFresh(cfg, env.now, s.memory[CacheKey(episode)]); }
    UnexpiredIffFresh(cfg, env.now, s.table[episode].result);
  }

  /** After Invalidate has gone through, the next resolve asks the provider. */
  lemma InvalidateForcesProvider(cfg: Config, s: State, episode: string, force: bool, env: Environment)
    ensures var answer := Resolved(cfg, Invalidated(cfg, s, episode, true), episode, force, env).1;
      answer.Answered? ==> answer.origin == Provider
  {
  }
}
