/** The head/tail startup cache: prewarming it from an upstream and answering range requests
    from it. */
module MediaCache {
  import opened Basics
  import opened Domain
  import opened GoText
  import opened RangeHeader

  function Max(a: int, b: int): int { if a > b then a else b }

  function Min(a: int, b: int): int { if a < b then a else b }

  /** Service settings. sourceKeyOf is sourceKey: the file name of a URL, whatever its host or query. */
  datatype Config = Config(headBytes: int, tailBytes: int, sourceKeyOf: string -> string)

  datatype Store = Store(entries: map<string, Entry>, blobs: map<BlobKey, Bytes>)

  datatype Response = Response(contentRange: string, contentLength: int, contentType: string, body: Bytes)

  // ---------------------------------------------------------------- pieces of Prewarm

  function HeadRange(cfg: Config): RangeSpec {
    Bounded(0, Max(0, cfg.headBytes - 1))
  }

  /** The entry built from the head response, before any tail. */
  function NewEntry(cfg: Config, episode: string, candidate: Candidate, resp: Response): Entry {
    var total := TotalLength(resp.contentRange, resp.contentLength);
    Entry(episode, candidate.url, cfg.sourceKeyOf(candidate.url), candidate.container, candidate.quality,
          if Blank(resp.contentType) then "video/mp4" else TrimSpace(resp.contentType),
          if total <= 0 then |resp.body| else total,
          Some(BlobKey(episode, candidate.url, Head)), |resp.body|, None, 0)
  }

  function TailStart(cfg: Config, entry: Entry): int {
    Max(0, entry.contentLength - cfg.tailBytes)
  }

  predicate WantsTail(cfg: Config, entry: Entry) {
    && cfg.tailBytes > 0 && entry.contentLength > 0
    && TailStart(cfg, entry) > 0 && TailStart(cfg, entry) >= entry.headBytes
  }

  function TailRange(cfg: Config, entry: Entry): RangeSpec {
    Bounded(TailStart(cfg, entry), Max(0, entry.contentLength - 1))
  }

  function TailKey(entry: Entry): BlobKey {
    BlobKey(entry.episode, entry.sourceUrl, Tail)
  }

  function WithTail(entry: Entry, body: Bytes): Entry {
    entry.(tailKey := Some(TailKey(entry)), tailBytes := |body|)
  }

  predicate SameSource(cfg: Config, entry: Entry, url: string) {
    if entry.sourceKey != "" then entry.sourceKey == cfg.sourceKeyOf(url)
    else cfg.sourceKeyOf(entry.sourceUrl) == cfg.sourceKeyOf(url)
  }

  predicate HeadSuffices(cfg: Config, entry: Entry) {
    entry.headKey.Some? && entry.headBytes >= cfg.headBytes
  }

  predicate TailSuffices(cfg: Config, entry: Entry) {
    entry.tailKey.Some? && entry.tailBytes >= cfg.tailBytes
  }

  /** isSufficientlyCached. readsOk is false when the metadata store or a blob read fails. */
  predicate Sufficient(cfg: Config, store: Store, episode: string, url: string, readsOk: bool) {
    && readsOk
    && episode in store.entries
    && var entry := store.entries[episode];
    && SameSource(cfg, entry, url)
    && HeadSuffices(cfg, entry) && entry.headKey.value in store.blobs
    && (cfg.tailBytes > 0 ==> TailSuffices(cfg, entry) && entry.tailKey.value in store.blobs)
  }

  /** What an upstream replies to a URL and the text of a range header. A failed fetch and an
      unreadable body are both None. */
  type Upstream = (string, string) -> Option<Response>

  /** What one Prewarm meets. */
  datatype Environment = Environment(readsOk: bool, fetch: Upstream, headPutOk: bool, tailPutOk: bool, upsertOk: bool)

  /** The store after a Prewarm, whether it returned no error, and the range headers it fetched. */
  datatype Outcome = Outcome(store: Store, ok: bool, fetched: seq<string>)

  function Finish(store: Store, entry: Entry, env: Environment, fetched: seq<string>): Outcome {
    if env.upsertOk then Outcome(store.(entries := store.entries[entry.episode := entry]), true, fetched)
    else Outcome(store, false, fetched)
  }

  function AfterHead(cfg: Config, store: Store, entry: Entry, env: Environment, fetched: seq<string>): Outcome {
    if !WantsTail(cfg, entry) then Finish(store, entry, env, fetched)
    else
      var range := Header(TailRange(cfg, entry));
      var tail := env.fetch(entry.sourceUrl, range);
      var fetched' := fetched + [range];
      if tail.Some? && |tail.value.body| > 0 && env.tailPutOk then
        var body := tail.value.body;
        Finish(store.(blobs := store.blobs[TailKey(entry) := body]), WithTail(entry, body), env, fetched')
      else Finish(store, entry, env, fetched')
  }

  /** What Prewarm does once the existing entry is found wanting. */
  function Refetched(cfg: Config, store: Store, episode: string, candidate: Candidate, env: Environment): Outcome {
    var range := Header(HeadRange(cfg));
    var head := env.fetch(candidate.url, range);
    var fetched := [range];
    if head.None? || !env.headPutOk then Outcome(store, false, fetched)
    else
      var entry := NewEntry(cfg, episode, candidate, head.value);
      var blobs := store.blobs[BlobKey(episode, candidate.url, Head) := head.value.body];
      AfterHead(cfg, store.(blobs := blobs), entry, env, fetched)
  }

  /** Prewarm as a function of the store. */
  function Prewarmed(cfg: Config, store: Store, episode: string, candidate: Candidate, env: Environment): Outcome {
    if Blank(episode) || Blank(candidate.url) then Outcome(store, false, [])
    else if Sufficient(cfg, store, episode, candidate.url, env.readsOk) then Outcome(store, true, [])
    else Refetched(cfg, store, episode, candidate, env)
  }

  // ---------------------------------------------------------------- pieces of TryServeRange

  datatype CachedResponse = CachedResponse(body: Bytes, contentRange: string, contentLength: string, contentType: string)

  /** Panicked: the Go slice expression would go outside the blob. */
  datatype ServeResult = Miss | Failed | Panicked | Hit(response: CachedResponse)

  /** Which blob TryServeRange decides to read for a request, from the entry alone. */
  datatype Plan = NoPlan | Read(key: Option<BlobKey>, start: int, end: int, base: int)

  function ServePlan(cfg: Config, entry: Entry, url: string, header: string): Plan {
    if entry.contentLength <= 0 || !SameSource(cfg, entry, url) then NoPlan
    else match ParseRange(header, entry.contentLength)
      case None => NoPlan
      case Some(r) => PlanFor(entry, r)
  }

  function PlanFor(entry: Entry, r: ByteRange): Plan {
    var end := if r.openEnded && r.start >= 0 && r.start < entry.headBytes then entry.headBytes - 1 else r.end;
    var tailStart := entry.contentLength - entry.tailBytes;
    if r.start >= 0 && end < entry.headBytes then Read(entry.headKey, r.start, end, 0)
    else if entry.tailKey.Some? && entry.tailBytes > 0 && r.start >= tailStart && end < entry.contentLength then
      Read(entry.tailKey, r.start, end, tailStart)
    else NoPlan
  }

  /** buildCachedPartialResponse. */
  function BuildPartial(entry: Entry, blob: Bytes, start: int, end: int, base: int): ServeResult {
    if 0 <= start - base <= end - base + 1 <= |blob| then
      var body := blob[start - base..end - base + 1];
      Hit(CachedResponse(body, ContentRange(start, end, entry.contentLength), FormatInt(|body|), entry.contentType))
    else Panicked
  }

  /** The blob read that a plan asks for, and the answer. */
  function RunPlan(entry: Entry, plan: Plan, blobs: map<BlobKey, Bytes>, readOk: bool): ServeResult {
    match plan
    case NoPlan => Miss
    case Read(key, start, end, base) =>
      if readOk && key.Some? && key.value in blobs then BuildPartial(entry, blobs[key.value], start, end, base)
      else Failed
  }

  /** TryServeRange. metaOk and readOk say whether the reads of the metadata and of a blob succeed. */
  function Served(cfg: Config, store: Store, episode: string, url: string, header: string, metaOk: bool, readOk: bool): ServeResult {
    if Blank(header) || Blank(episode) then Miss
    else if !metaOk then Failed
    else if episode !in store.entries then Miss
    else
      var entry := store.entries[episode];
      RunPlan(entry, ServePlan(cfg, entry, url, header), store.blobs, readOk)
  }

  // ---------------------------------------------------------------- the service

  class Service {
    const cfg: Config
    var entries: map<string, Entry>
    var blobs: map<BlobKey, Bytes>

    constructor (cfg: Config)
      ensures this.cfg == cfg && State() == Store(map[], map[])
    {
      this.cfg := cfg;
      entries, blobs := map[], map[];
    }

    function State(): Store
      reads this
    {
      Store(entries, blobs)
    }

    method IsSufficientlyCached(episode: string, url: string, readsOk: bool) returns (yes: bool)
      ensures yes <==> Sufficient(cfg, State(), episode, url, readsOk)
    {
      if !readsOk || episode !in entries { return false; }
      var entry := entries[episode];
      var current := cfg.sourceKeyOf(url);
      if entry.sourceKey != "" {
        if entry.sourceKey != current { return false; }
      } else if cfg.sourceKeyOf(entry.sourceUrl) != current {
        return false;
      }
      if entry.headKey.None? || entry.headBytes < cfg.headBytes { return false; }
      if entry.headKey.value !in blobs { return false; }
      if cfg.tailBytes > 0 {
        if entry.tailKey.None? || entry.tailBytes < cfg.tailBytes { return false; }
        if entry.tailKey.value !in blobs { return false; }
      }
      return true;
    }

    method Prewarm(episode: string, candidate: Candidate, env: Environment) returns (ok: bool, fetched: seq<string>)
      modifies this
      ensures Outcome(State(), ok, fetched) == Prewarmed(cfg, old(State()), episode, candidate, env)
    {
      fetched := [];
      if Blank(episode) || Blank(candidate.url) { return false, fetched; }
      var sufficient := IsSufficientlyCached(episode, candidate.url, env.readsOk);
      if sufficient { return true, fetched; }
      ok, fetched := PrewarmHead(episode, candidate, env);
    }

    /** The part of Prewarm after the existing entry is found wanting. */
    method PrewarmHead(episode: string, candidate: Candidate, env: Environment) returns (ok: bool, fetched: seq<string>)
      modifies this
      ensures Outcome(State(), ok, fetched) == Refetched(cfg, old(State()), episode, candidate, env)
    {
      var range := Header(HeadRange(cfg));
      var reply := env.fetch(candidate.url, range);
      fetched := [range];
      if reply.None? { return false, fetched; }
      var head := reply.value;
      if !env.headPutOk { return false, fetched; }
      blobs := blobs[BlobKey(episode, candidate.url, Head) := head.body];
      ok, fetched := PrewarmTail(NewEntry(cfg, episode, candidate, head), env, fetched);
    }

    /** The part of Prewarm after the head is put. */
    method PrewarmTail(head: Entry, env: Environment, before: seq<string>) returns (ok: bool, fetched: seq<string>)
      modifies this
      ensures Outcome(State(), ok, fetched) == AfterHead(cfg, old(State()), head, env, before)
    {
      var entry := head;
      fetched := before;
      if WantsTail(cfg, entry) {
        var range := Header(TailRange(cfg, entry));
        var reply := env.fetch(entry.sourceUrl, range);
        fetched := fetched + [range];
        if reply.Some? && |reply.value.body| > 0 && env.tailPutOk {
          var body := reply.value.body;
          blobs := blobs[TailKey(entry) := body];
          entry := entry.(tailKey := Some(TailKey(entry)), tailBytes := |body|);
        }
      }
      if !env.upsertOk { return false, fetched; }
      entries := entries[entry.episode := entry];
      return true, fetched;
    }

    method TryServeRange(episode: string, url: string, header: string, metaOk: bool, readOk: bool) returns (result: ServeResult)
      ensures result == Served(cfg, State(), episode, url, header, metaOk, readOk)
    {
      if Blank(header) || Blank(episode) { return Miss; }
      if !metaOk { return Failed; }
      if episode !in entries { return Miss; }
      var entry := entries[episode];
      if entry.contentLength <= 0 || !SameSource(cfg, entry, url) { return Miss; }
      var parsed := ParseRange(header, entry.contentLength);
      if parsed.None? { return Miss; }
      assert ServePlan(cfg, entry, url, header) == PlanFor(entry, parsed.value);
      result := ServeInterval(entry, parsed.value, readOk);
    }

    /** The part of TryServeRange after its header is parsed. */
    method ServeInterval(entry: Entry, r: ByteRange, readOk: bool) returns (result: ServeResult)
      ensures result == RunPlan(entry, PlanFor(entry, r), blobs, readOk)
    {
      var start, end := r.start, r.end;
      if r.openEnded && 0 <= start < entry.headBytes { end := entry.headBytes - 1; }

      if start >= 0 && end < entry.headBytes {
        if !readOk || entry.headKey.None? || entry.headKey.value !in blobs { return Failed; }
        return BuildPartial(entry, blobs[entry.headKey.value], start, end, 0);
      }
      var tailStart := entry.contentLength - entry.tailBytes;
      if entry.tailKey.Some? && entry.tailBytes > 0 && start >= tailStart && end < entry.contentLength {
        if !readOk || entry.tailKey.value !in blobs { return Failed; }
        return BuildPartial(entry, blobs[entry.tailKey.value], start, end, tailStart);
      }
      return Miss;
    }
  }

  // ---------------------------------------------------------------- agreement with the files

  /** The file behind an episode and a source key: every URL with that key serves it. */
  type Files = (string, string) -> Bytes

  function FileOf(cfg: Config, files: Files, episode: string, url: string): Bytes {
    files(episode, cfg.sourceKeyOf(url))
  }

  /** An honest upstream reply to a range request: section 15.3.7 of RFC 9110. An upstream asked
      for nothing of the file replies with an error instead. */
  predicate Honest(file: Bytes, spec: RangeSpec, resp: Response) {
    match Selection(spec, |file|)
    case None => false
    case Some((start, end)) =>
      && |file| <= MAX_INT64
      && resp.body == file[start..end + 1]
      && resp.contentRange == ContentRange(start, end, |file|)
  }

  function HeadLength(cfg: Config, file: Bytes): int {
    Min(Max(1, cfg.headBytes), |file|)
  }

  /** The file has a tail apart from its head. */
  predicate HasTail(cfg: Config, file: Bytes) {
    0 < cfg.tailBytes < |file| && HeadLength(cfg, file) + cfg.tailBytes <= |file|
  }

  /** Each key holds the one piece of its file that belongs there. */
  predicate CanonicalBlob(cfg: Config, files: Files, key: BlobKey, body: Bytes) {
    var file := FileOf(cfg, files, key.episode, key.url);
    match key.part
    case Head => |file| > 0 && body == file[..HeadLength(cfg, file)]
    case Tail => HasTail(cfg, file) && body == file[|file| - cfg.tailBytes..]
  }

  /** The entry describes its file, and names its own keys with their right lengths. */
  predicate CanonicalEntry(cfg: Config, files: Files, episode: string, entry: Entry) {
    var file := FileOf(cfg, files, episode, entry.sourceUrl);
    && entry.episode == episode
    && entry.sourceKey == cfg.sourceKeyOf(entry.sourceUrl)
    && 0 < |file| <= MAX_INT64 && entry.contentLength == |file|
    && entry.headKey == Some(BlobKey(episode, entry.sourceUrl, Head))
    && entry.headBytes == HeadLength(cfg, file)
    && if entry.tailKey.None? then entry.tailBytes == 0
       else entry.tailKey == Some(TailKey(entry)) && HasTail(cfg, file) && entry.tailBytes == cfg.tailBytes
  }

  ghost predicate CanonicalBlobs(cfg: Config, files: Files, blobs: map<BlobKey, Bytes>) {
    forall key :: key in blobs ==> CanonicalBlob(cfg, files, key, blobs[key])
  }

  ghost predicate CanonicalEntries(cfg: Config, files: Files, entries: map<string, Entry>) {
    forall episode :: episode in entries ==> CanonicalEntry(cfg, files, episode, entries[episode])
  }

  ghost predicate Canonical(cfg: Config, files: Files, store: Store) {
    CanonicalBlobs(cfg, files, store.blobs) && CanonicalEntries(cfg, files, store.entries)
  }

  /** Prewarm reads the file's length out of an honest reply. */
  lemma HonestTotal(file: Bytes, spec: RangeSpec, resp: Response)
    requires Honest(file, spec, resp)
    ensures TotalLength(resp.contentRange, resp.contentLength) == |file|
  {
    var (start, end) := Selection(spec, |file|).value;
    TotalLengthOfContentRange(start, end, |file|, resp.contentLength);
  }

  /** An honest head reply yields a canonical head blob and a canonical entry without tail. */
  lemma HonestHead(cfg: Config, files: Files, episode: string, candidate: Candidate, resp: Response)
    requires Honest(FileOf(cfg, files, episode, candidate.url), HeadRange(cfg), resp)
    ensures CanonicalBlob(cfg, files, BlobKey(episode, candidate.url, Head), resp.body)
    ensures CanonicalEntry(cfg, files, episode, NewEntry(cfg, episode, candidate, resp))
  {
    var file := FileOf(cfg, files, episode, candidate.url);
    HonestTotal(file, HeadRange(cfg), resp);
    assert file[0..HeadLength(cfg, file)] == file[..HeadLength(cfg, file)];
  }

  /** An honest tail reply yields the canonical tail blob and keeps the entry canonical. */
  lemma HonestTail(cfg: Config, files: Files, episode: string, entry: Entry, resp: Response)
    requires CanonicalEntry(cfg, files, episode, entry) && WantsTail(cfg, entry)
    requires Honest(FileOf(cfg, files, episode, entry.sourceUrl), TailRange(cfg, entry), resp)
    ensures CanonicalBlob(cfg, files, TailKey(entry), resp.body)
    ensures CanonicalEntry(cfg, files, episode, WithTail(entry, resp.body))
    ensures |resp.body| > 0
  {
  }

  /** Whatever range of whatever URL the upstream is asked for, it replies honestly to the header it
      is sent, or not at all. */
  ghost predicate HonestUpstream(cfg: Config, files: Files, episode: string, fetch: Upstream) {
    forall url, spec :: fetch(url, Header(spec)).Some? ==>
      Honest(FileOf(cfg, files, episode, url), spec, fetch(url, Header(spec)).value)
  }

  /** What an honest upstream replies to the header of the head. */
  lemma HeadReply(cfg: Config, files: Files, episode: string, candidate: Candidate, fetch: Upstream)
    requires HonestUpstream(cfg, files, episode, fetch)
    requires fetch(candidate.url, Header(HeadRange(cfg))).Some?
    ensures var resp := fetch(candidate.url, Header(HeadRange(cfg))).value;
      && CanonicalBlob(cfg, files, BlobKey(episode, candidate.url, Head), resp.body)
      && CanonicalEntry(cfg, files, episode, NewEntry(cfg, episode, candidate, resp))
  {
    HonestHead(cfg, files, episode, candidate, fetch(candidate.url, Header(HeadRange(cfg))).value);
  }

  /** What an honest upstream replies to the header of the tail. */
  lemma TailReply(cfg: Config, files: Files, episode: string, entry: Entry, fetch: Upstream)
    requires HonestUpstream(cfg, files, episode, fetch)
    requires CanonicalEntry(cfg, files, episode, entry) && WantsTail(cfg, entry)
    requires fetch(entry.sourceUrl, Header(TailRange(cfg, entry))).Some?
    ensures var resp := fetch(entry.sourceUrl, Header(TailRange(cfg, entry))).value;
      && CanonicalBlob(cfg, files, TailKey(entry), resp.body)
      && CanonicalEntry(cfg, files, episode, WithTail(entry, resp.body))
      && |resp.body| > 0
  {
    HonestTail(cfg, files, episode, entry, fetch(entry.sourceUrl, Header(TailRange(cfg, entry))).value);
  }

  /** Prewarming from an honest upstream keeps the store canonical, through any failures. */
  lemma PrewarmKeepsCanonical(cfg: Config, files: Files, store: Store, episode: string, candidate: Candidate, env: Environment)
    requires Canonical(cfg, files, store)
    requires HonestUpstream(cfg, files, episode, env.fetch)
    ensures Canonical(cfg, files, Prewarmed(cfg, store, episode, candidate, env).store)
  {
    var head := env.fetch(candidate.url, Header(HeadRange(cfg)));
    if head.Some? {
      HeadReply(cfg, files, episode, candidate, env.fetch);
      var entry := NewEntry(cfg, episode, candidate, head.value);
      if WantsTail(cfg, entry) && env.fetch(entry.sourceUrl, Header(TailRange(cfg, entry))).Some? {
        TailReply(cfg, files, episode, entry, env.fetch);
      }
    }
  }

  /** The header text for the head: the first headBytes of the file, and one byte at least. */
  function HeadText(cfg: Config): string {
    "bytes=0-" + FormatInt((if cfg.headBytes > 1 then cfg.headBytes else 1) - 1)
  }

  /** The header text for the tail: the last tailBytes of a file of this length. */
  function TailText(cfg: Config, length: int): string {
    "bytes=" + FormatInt(length - cfg.tailBytes) + "-" + FormatInt(length - 1)
  }

  /** The header texts a Prewarm sends to an honest upstream: none; the head's; or that and the tail's.
      The tail is asked for exactly when the head was read and stored and the file has that many
      bytes beside it. */
  lemma FetchedHeaders(cfg: Config, files: Files, store: Store, episode: string, candidate: Candidate, env: Environment)
    requires HonestUpstream(cfg, files, episode, env.fetch)
    ensures var length := |FileOf(cfg, files, episode, candidate.url)|;
      var headBytes := if cfg.headBytes > 1 then cfg.headBytes else 1;
      Prewarmed(cfg, store, episode, candidate, env).fetched ==
        if Blank(episode) || Blank(candidate.url) || Sufficient(cfg, store, episode, candidate.url, env.readsOk) then []
        else if env.fetch(candidate.url, HeadText(cfg)).Some? && env.headPutOk
          && 0 < cfg.tailBytes && headBytes + cfg.tailBytes <= length
        then [HeadText(cfg), TailText(cfg, length)]
        else [HeadText(cfg)]
  {
    var skipped := Blank(episode) || Blank(candidate.url) || Sufficient(cfg, store, episode, candidate.url, env.readsOk);
    var length := |FileOf(cfg, files, episode, candidate.url)|;
    var head := HeadEntry(cfg, episode, candidate, env.fetch);
    HeadersInTurn(cfg, store, episode, candidate, env);
    HeadEntryIs(cfg, files, episode, candidate, env.fetch);
    HeaderTexts(cfg, head, length, env.headPutOk, skipped);
  }

  /** The entry made of the reply to the head's header, if there is one. */
  function HeadEntry(cfg: Config, episode: string, candidate: Candidate, fetch: Upstream): Option<Entry> {
    var reply := fetch(candidate.url, Header(HeadRange(cfg)));
    if reply.None? then None else Some(NewEntry(cfg, episode, candidate, reply.value))
  }

  /** The headers of a Prewarm, in turn. */
  function HeadersSent(cfg: Config, head: Option<Entry>, headPutOk: bool, skipped: bool): seq<string> {
    if skipped then []
    else if head.Some? && headPutOk && WantsTail(cfg, head.value) then [Header(HeadRange(cfg)), Header(TailRange(cfg, head.value))]
    else [Header(HeadRange(cfg))]
  }

  lemma HeadersInTurn(cfg: Config, store: Store, episode: string, candidate: Candidate, env: Environment)
    ensures var skipped := Blank(episode) || Blank(candidate.url) || Sufficient(cfg, store, episode, candidate.url, env.readsOk);
      Prewarmed(cfg, store, episode, candidate, env).fetched
      == HeadersSent(cfg, HeadEntry(cfg, episode, candidate, env.fetch), env.headPutOk, skipped)
  {
  }

  /** The entry's lengths are those of the file and its head. */
  predicate Measured(cfg: Config, entry: Entry, length: int) {
    entry.contentLength == length > 0 && entry.headBytes == Min(Max(1, cfg.headBytes), length)
  }

  lemma HeadEntryIs(cfg: Config, files: Files, episode: string, candidate: Candidate, fetch: Upstream)
    requires HonestUpstream(cfg, files, episode, fetch)
    ensures var head := HeadEntry(cfg, episode, candidate, fetch);
      && (head.Some? <==> fetch(candidate.url, HeadText(cfg)).Some?)
      && (head.Some? ==> Measured(cfg, head.value, |FileOf(cfg, files, episode, candidate.url)|))
  {
    HeadRangeText(cfg);
    if fetch(candidate.url, Header(HeadRange(cfg))).Some? {
      HeadReply(cfg, files, episode, candidate, fetch);
    }
  }

  lemma HeaderTexts(cfg: Config, head: Option<Entry>, length: int, headPutOk: bool, skipped: bool)
    requires head.Some? ==> Measured(cfg, head.value, length)
    ensures var headBytes := if cfg.headBytes > 1 then cfg.headBytes else 1;
      HeadersSent(cfg, head, headPutOk, skipped) ==
        if skipped then []
        else if head.Some? && headPutOk && 0 < cfg.tailBytes && headBytes + cfg.tailBytes <= length
        then [HeadText(cfg), TailText(cfg, length)]
        else [HeadText(cfg)]
  {
    HeadRangeText(cfg);
    if head.Some? { TailRangeText(cfg, head.value, length); }
  }

  lemma HeadRangeText(cfg: Config)
    ensures Header(HeadRange(cfg)) == HeadText(cfg)
  {
    assert FormatInt(0) == "0";
  }

  lemma TailRangeText(cfg: Config, entry: Entry, length: int)
    requires Measured(cfg, entry, length)
    ensures WantsTail(cfg, entry) <==> 0 < cfg.tailBytes && (if cfg.headBytes > 1 then cfg.headBytes else 1) + cfg.tailBytes <= length
    ensures WantsTail(cfg, entry) ==> Header(TailRange(cfg, entry)) == TailText(cfg, length)
  {
    if WantsTail(cfg, entry) {
      assert TailRange(cfg, entry) == Bounded(length - cfg.tailBytes, length - 1);
    }
  }

  /** Every blob a Prewarm leaves was there before, or is the upstream's reply to the header sent
      for its part: the head's to the first one, the tail's to the second. */
  lemma PutBlobsAreReplies(cfg: Config, store: Store, episode: string, candidate: Candidate, env: Environment, key: BlobKey)
    ensures var after := Prewarmed(cfg, store, episode, candidate, env);
      var asked := if key.part == Head then 0 else 1;
      var put := |after.fetched| > asked && key == BlobKey(episode, candidate.url, key.part)
        && env.fetch(candidate.url, after.fetched[asked]).Some?
        && (if key.part == Head then env.headPutOk
            else env.headPutOk && env.tailPutOk && env.fetch(candidate.url, after.fetched[asked]).value.body != []);
      && (put ==> key in after.store.blobs && after.store.blobs[key] == env.fetch(candidate.url, after.fetched[asked]).value.body)
      && (!put ==> (key in after.store.blobs <==> key in store.blobs))
      && (!put && key in store.blobs ==> after.store.blobs[key] == store.blobs[key])
  {
  }

  /** The entry a Prewarm writes, once it fetched and returned no error: it describes the candidate
      and the reply to the first header, and names the blobs that were put. */
  lemma WrittenEntry(cfg: Config, store: Store, episode: string, candidate: Candidate, env: Environment)
    requires var after := Prewarmed(cfg, store, episode, candidate, env); after.ok && after.fetched != []
    ensures var after := Prewarmed(cfg, store, episode, candidate, env);
      && env.fetch(candidate.url, after.fetched[0]).Some?
      && after.store.entries.Keys == store.entries.Keys + {episode}
      && (forall other :: other in store.entries && other != episode ==> after.store.entries[other] == store.entries[other])
      && var reply := env.fetch(candidate.url, after.fetched[0]).value;
      && var entry := after.store.entries[episode];
      && entry.episode == episode && entry.sourceUrl == candidate.url && entry.sourceKey == cfg.sourceKeyOf(candidate.url)
      && entry.container == candidate.container && entry.quality == candidate.quality
      && entry.contentType == (if TrimSpace(reply.contentType) != "" then TrimSpace(reply.contentType) else "video/mp4")
      && entry.headKey == Some(BlobKey(episode, candidate.url, Head)) && entry.headBytes == |reply.body|
      && var total := TotalLength(reply.contentRange, reply.contentLength);
      && entry.contentLength == (if total > 0 then total else |reply.body|)
      && var tailPut := |after.fetched| > 1 && env.tailPutOk && env.fetch(candidate.url, after.fetched[1]).Some?
          && env.fetch(candidate.url, after.fetched[1]).value.body != [];
      && entry.tailKey == (if tailPut then Some(BlobKey(episode, candidate.url, Tail)) else None)
      && entry.tailBytes == (if tailPut then |env.fetch(candidate.url, after.fetched[1]).value.body| else 0)
  {
  }

  /** After a Prewarm that returned no error, the episode's head and tail lie in the file of the URL
      asked for and do not overlap, and together they are the whole file only if it is that short. */
  lemma HeadAndTailDisjoint(cfg: Config, files: Files, store: Store, episode: string, candidate: Candidate, env: Environment)
    requires Canonical(cfg, files, store) && HonestUpstream(cfg, files, episode, env.fetch)
    requires Prewarmed(cfg, store, episode, candidate, env).ok
    ensures var after := Prewarmed(cfg, store, episode, candidate, env).store;
      var file := FileOf(cfg, files, episode, candidate.url);
      && episode in after.entries
      && var entry := after.entries[episode];
      && entry.contentLength == |file|
      && 0 < entry.headBytes && 0 <= entry.tailBytes && entry.headBytes + entry.tailBytes <= |file|
      && (|file| > Max(1, cfg.headBytes) + Max(0, cfg.tailBytes) ==> entry.headBytes + entry.tailBytes < |file|)
  {
    PrewarmKeepsCanonical(cfg, files, store, episode, candidate, env);
    var after := Prewarmed(cfg, store, episode, candidate, env).store;
    assert SameSource(cfg, after.entries[episode], candidate.url);
    assert CanonicalEntry(cfg, files, episode, after.entries[episode]);
  }

  /** The last byte a request is answered up to: an open-ended request that starts in the head
      ends with the head. */
  function AnsweredEnd(cfg: Config, file: Bytes, r: ByteRange): int {
    var head := HeadLength(cfg, file);
    if r.openEnded && r.start < head then head - 1 else r.end
  }

  predicate InsideHead(cfg: Config, file: Bytes, r: ByteRange) {
    AnsweredEnd(cfg, file, r) < HeadLength(cfg, file)
  }

  predicate InsideTail(entry: Entry, r: ByteRange) {
    entry.contentLength - entry.tailBytes <= r.start
  }

  /** Reading an interval of the file out of the head blob. */
  lemma ReadHead(cfg: Config, files: Files, episode: string, entry: Entry, start: int, end: int, blobs: map<BlobKey, Bytes>)
    requires CanonicalEntry(cfg, files, episode, entry) && CanonicalBlobs(cfg, files, blobs)
    requires 0 <= start <= end < entry.headBytes && entry.headKey.value in blobs
    ensures var file := FileOf(cfg, files, episode, entry.sourceUrl);
      var result := BuildPartial(entry, blobs[entry.headKey.value], start, end, 0);
      end < |file| && result.Hit? && HitOf(file, start, end, result.response)
  {
    var file := FileOf(cfg, files, episode, entry.sourceUrl);
    assert CanonicalBlob(cfg, files, entry.headKey.value, blobs[entry.headKey.value]);
    assert file[..entry.headBytes][start..end + 1] == file[start..end + 1];
  }

  /** Reading an interval of the file out of the tail blob. */
  lemma ReadTail(cfg: Config, files: Files, episode: string, entry: Entry, start: int, end: int, blobs: map<BlobKey, Bytes>)
    requires CanonicalEntry(cfg, files, episode, entry) && CanonicalBlobs(cfg, files, blobs)
    requires entry.tailKey.Some? && entry.tailKey.value in blobs
    requires entry.contentLength - entry.tailBytes <= start <= end < entry.contentLength
    ensures var file := FileOf(cfg, files, episode, entry.sourceUrl);
      var result := BuildPartial(entry, blobs[entry.tailKey.value], start, end, entry.contentLength - entry.tailBytes);
      0 <= start && end < |file| && result.Hit? && HitOf(file, start, end, result.response)
  {
    var file := FileOf(cfg, files, episode, entry.sourceUrl);
    var base := |file| - entry.tailBytes;
    assert CanonicalBlob(cfg, files, entry.tailKey.value, blobs[entry.tailKey.value]);
    assert file[base..][start - base..end - base + 1] == file[start..end + 1];
  }

  /** What a canonical entry answers to an interval of its file, from canonical blobs that may be
      missing: never outside a blob, a miss exactly outside head and tail, and the file's bytes. */
  lemma PlanExact(cfg: Config, files: Files, episode: string, entry: Entry, r: ByteRange,
                  blobs: map<BlobKey, Bytes>, readOk: bool)
    requires CanonicalEntry(cfg, files, episode, entry) && CanonicalBlobs(cfg, files, blobs)
    requires 0 <= r.start <= r.end < entry.contentLength
    ensures var file := FileOf(cfg, files, episode, entry.sourceUrl);
      var result := RunPlan(entry, PlanFor(entry, r), blobs, readOk);
      var end := AnsweredEnd(cfg, file, r);
      && !result.Panicked?
      && (result.Miss? <==> !InsideHead(cfg, file, r) && !InsideTail(entry, r))
      && (result.Failed? ==> !readOk || entry.headKey.value !in blobs || entry.tailKey.None? || entry.tailKey.value !in blobs)
      && (result.Hit? ==> r.start <= end < |file| && HitOf(file, r.start, end, result.response))
  {
    var file := FileOf(cfg, files, episode, entry.sourceUrl);
    var end := AnsweredEnd(cfg, file, r);
    if InsideHead(cfg, file, r) {
      assert PlanFor(entry, r) == Read(entry.headKey, r.start, end, 0);
      if entry.headKey.value in blobs { ReadHead(cfg, files, episode, entry, r.start, end, blobs); }
    } else if InsideTail(entry, r) {
      assert PlanFor(entry, r) == Read(entry.tailKey, r.start, end, entry.contentLength - entry.tailBytes);
      if entry.tailKey.value in blobs { ReadTail(cfg, files, episode, entry, r.start, end, blobs); }
    }
  }

  /** The body, Content-Range and Content-Length of an interval of a file. */
  predicate HitOf(file: Bytes, start: int, end: int, response: CachedResponse)
    requires 0 <= start <= end < |file|
  {
    && response.body == file[start..end + 1]
    && response.contentRange == "bytes " + FormatInt(start) + "-" + FormatInt(end) + "/" + FormatInt(|file|)
    && response.contentLength == FormatInt(end + 1 - start)
  }

  /** A served answer is the file's own bytes for the requested range, or no answer at all. */
  predicate HonestResult(cfg: Config, files: Files, episode: string, url: string, header: string, result: ServeResult) {
    var file := FileOf(cfg, files, episode, url);
    && !result.Panicked?
    && (result.Hit? ==>
      && ParseRange(header, |file|).Some?
      && var r := ParseRange(header, |file|).value;
      && var end := AnsweredEnd(cfg, file, r);
      && 0 <= r.start <= end < |file|
      && HitOf(file, r.start, end, result.response))
  }

  /** A header's answer, for the URL it was asked for: an accepted interval of that URL's file. */
  lemma ServeExact(cfg: Config, files: Files, episode: string, entry: Entry, url: string, header: string,
                   blobs: map<BlobKey, Bytes>, readOk: bool)
    requires CanonicalEntry(cfg, files, episode, entry) && CanonicalBlobs(cfg, files, blobs)
    ensures var result := RunPlan(entry, ServePlan(cfg, entry, url, header), blobs, readOk);
      && HonestResult(cfg, files, episode, url, header, result)
      && (result.Hit? ==> FileOf(cfg, files, episode, url) == FileOf(cfg, files, episode, entry.sourceUrl))
  {
    if SameSource(cfg, entry, url) && ParseRange(header, entry.contentLength).Some? {
      var spec := AcceptedMeansAForm(header, entry.contentLength);
      PlanExact(cfg, files, episode, entry, ParseRange(header, entry.contentLength).value, blobs, readOk);
    }
  }

  /** With its blobs present and readable, a canonical entry hits exactly the requests that lie
      in its head or in its tail. */
  lemma HitExactly(cfg: Config, files: Files, store: Store, episode: string, url: string, header: string)
    requires Canonical(cfg, files, store) && !Blank(episode) && episode in store.entries
    requires var entry := store.entries[episode];
      && SameSource(cfg, entry, url)
      && entry.headKey.value in store.blobs
      && (entry.tailKey.Some? ==> entry.tailKey.value in store.blobs)
    requires var file := FileOf(cfg, files, episode, url); ParseRange(header, |file|).Some?
    ensures var entry := store.entries[episode];
      var file := FileOf(cfg, files, episode, url);
      var r := ParseRange(header, |file|).value;
      Served(cfg, store, episode, url, header, true, true).Hit? <==> InsideHead(cfg, file, r) || InsideTail(entry, r)
  {
    var entry := store.entries[episode];
    var spec := AcceptedMeansAForm(header, entry.contentLength);
    PlanExact(cfg, files, episode, entry, ParseRange(header, entry.contentLength).value, store.blobs, true);
    assert !Blank(header);
  }

  /** The answers that do not depend on the range: a blank header or episode and an unknown episode or
      source are misses, a failing metadata read is an error; and a hit has the entry's content type. */
  lemma ServedOtherwise(cfg: Config, store: Store, episode: string, url: string, header: string, metaOk: bool, readOk: bool)
    ensures var result := Served(cfg, store, episode, url, header, metaOk, readOk);
      && (Blank(header) || Blank(episode) ==> result == Miss)
      && (!Blank(header) && !Blank(episode) && !metaOk ==> result == Failed)
      && (metaOk && episode !in store.entries ==> result == Miss)
      && (result.Hit? ==> episode in store.entries && result.response.contentType == store.entries[episode].contentType)
    ensures metaOk && episode in store.entries ==>
      var entry := store.entries[episode];
      var key := if entry.sourceKey != "" then entry.sourceKey else cfg.sourceKeyOf(entry.sourceUrl);
      key != cfg.sourceKeyOf(url) ==> Served(cfg, store, episode, url, header, metaOk, readOk) == Miss
  {
  }

  /** Transparency: a hit is what an honest upstream would reply to a request for the same range,
      cut short only when the request was open-ended and starts in the head. */
  lemma HitIsHonest(cfg: Config, files: Files, store: Store, episode: string, url: string, header: string, metaOk: bool, readOk: bool)
      returns (spec: RangeSpec)
    requires Canonical(cfg, files, store)
    requires Served(cfg, store, episode, url, header, metaOk, readOk).Hit?
    ensures var file := FileOf(cfg, files, episode, url);
      var response := Served(cfg, store, episode, url, header, metaOk, readOk).response;
      && ParseRange(header, |file|).Some?
      && var r := ParseRange(header, |file|).value;
      && Honest(file, spec, Response(response.contentRange, |response.body|, response.contentType, response.body))
      && (Selection(spec, |file|) == Some((r.start, r.end))
          || (r.openEnded && spec == Bounded(r.start, HeadLength(cfg, file) - 1)))
  {
    var entry := store.entries[episode];
    var file := FileOf(cfg, files, episode, url);
    ServeExact(cfg, files, episode, entry, url, header, store.blobs, readOk);
    assert CanonicalEntry(cfg, files, episode, entry);
    spec := HitSpec(cfg, file, header, Served(cfg, store, episode, url, header, metaOk, readOk).response);
  }

  /** The form of range that an answered interval amounts to. */
  lemma HitSpec(cfg: Config, file: Bytes, header: string, response: CachedResponse) returns (spec: RangeSpec)
    requires |file| <= MAX_INT64 && ParseRange(header, |file|).Some?
    requires var r := ParseRange(header, |file|).value;
      var end := AnsweredEnd(cfg, file, r);
      0 <= r.start <= end < |file| && HitOf(file, r.start, end, response)
    ensures var r := ParseRange(header, |file|).value;
      && Honest(file, spec, Response(response.contentRange, |response.body|, response.contentType, response.body))
      && (Selection(spec, |file|) == Some((r.start, r.end))
          || (r.openEnded && spec == Bounded(r.start, HeadLength(cfg, file) - 1)))
  {
    var r := ParseRange(header, |file|).value;
    var end := AnsweredEnd(cfg, file, r);
    if end == r.end {
      spec := AcceptedMeansAForm(header, |file|);
    } else {
      spec := Bounded(r.start, HeadLength(cfg, file) - 1);
    }
    HitHonors(file, spec, r.start, end, response);
  }

  lemma HitHonors(file: Bytes, spec: RangeSpec, start: int, end: int, response: CachedResponse)
    requires 0 <= start <= end < |file| <= MAX_INT64 && HitOf(file, start, end, response)
    requires Selection(spec, |file|) == Some((start, end))
    ensures Honest(file, spec, Response(response.contentRange, |response.body|, response.contentType, response.body))
  {
    assert ContentRange(start, end, |file|) == response.contentRange;
  }

  // ---------------------------------------------------------------- prewarming twice

  /** Both fetches succeed and everything is written: the upstream replies to every range that selects
      something. */
  ghost predicate Smooth(cfg: Config, files: Files, episode: string, url: string, env: Environment) {
    && env.readsOk && env.headPutOk && env.tailPutOk && env.upsertOk
    && FileOf(cfg, files, episode, url) != []
    && forall spec :: Selection(spec, |FileOf(cfg, files, episode, url)|).Some? ==> env.fetch(url, Header(spec)).Some?
  }

  /** The entry that a smooth, honest prewarm leaves behind. */
  lemma SmoothPrewarm(cfg: Config, files: Files, store: Store, episode: string, candidate: Candidate, env: Environment)
    requires Canonical(cfg, files, store) && HonestUpstream(cfg, files, episode, env.fetch) && Smooth(cfg, files, episode, candidate.url, env)
    requires !Blank(episode) && !Blank(candidate.url)
    requires cfg.headBytes >= 1 && cfg.tailBytes >= 0
    ensures var after := Prewarmed(cfg, store, episode, candidate, env);
      && after.ok && episode in after.store.entries
      && var entry := after.store.entries[episode];
      && var file := FileOf(cfg, files, episode, candidate.url);
      && SameSource(cfg, entry, candidate.url) && CanonicalEntry(cfg, files, episode, entry)
      && entry.contentLength == |file|
      && entry.headKey.value in after.store.blobs
      && (HasTail(cfg, file) <==> entry.tailKey.Some?)
      && (entry.tailKey.Some? ==> entry.tailKey.value in after.store.blobs)
  {
    PrewarmKeepsCanonical(cfg, files, store, episode, candidate, env);
    assert Selection(HeadRange(cfg), |FileOf(cfg, files, episode, candidate.url)|).Some?;
    HeadReply(cfg, files, episode, candidate, env.fetch);
    var entry := NewEntry(cfg, episode, candidate, env.fetch(candidate.url, Header(HeadRange(cfg))).value);
    if WantsTail(cfg, entry) {
      assert Selection(TailRange(cfg, entry), |FileOf(cfg, files, episode, candidate.url)|).Some?;
      TailReply(cfg, files, episode, entry, env.fetch);
    }
  }

  /** After a smooth prewarm, a second one of the same episode and source fetches nothing exactly
      when the file is at least as long as the configured head and tail together. */
  lemma SecondPrewarmFetchesNothing(cfg: Config, files: Files, store: Store, episode: string,
                                    candidate: Candidate, env: Environment, candidate': Candidate, env': Environment)
    requires Canonical(cfg, files, store) && HonestUpstream(cfg, files, episode, env.fetch) && Smooth(cfg, files, episode, candidate.url, env)
    requires !Blank(episode) && !Blank(candidate.url)
    requires cfg.headBytes >= 1 && cfg.tailBytes >= 0
    requires !Blank(candidate'.url) && cfg.sourceKeyOf(candidate'.url) == cfg.sourceKeyOf(candidate.url)
    requires env'.readsOk
    ensures var first := Prewarmed(cfg, store, episode, candidate, env);
      (Prewarmed(cfg, first.store, episode, candidate', env').fetched == [])
      <==> |FileOf(cfg, files, episode, candidate.url)| >= cfg.headBytes + cfg.tailBytes
  {
    SmoothPrewarm(cfg, files, store, episode, candidate, env);
    var first := Prewarmed(cfg, store, episode, candidate, env).store;
    var second := Prewarmed(cfg, first, episode, candidate', env');
    assert second.fetched == [] <==> Sufficient(cfg, first, episode, candidate'.url, true);
  }
}
