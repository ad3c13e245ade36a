/** The predictive cache under concurrency: any number of UpdateWindow calls, their prewarm
    goroutines and range readers, interleaved at every shared access. */
module PredictiveWindow {
  import opened Basics
  import opened Domain
  import opened GoText
  import opened RangeHeader
  import opened MediaCache

  datatype PredictiveEpisode = PredictiveEpisode(episode: string, candidate: Candidate)

  // ---------------------------------------------------------------- normalising a window

  function IdsOf(episodes: seq<PredictiveEpisode>): set<string> {
    set e | e in episodes :: e.episode
  }

  /** The next episode is kept under its trimmed identifier, unless that or its URL is blank or the
      identifier is there already. */
  function KeptWith(kept: seq<PredictiveEpisode>, next: PredictiveEpisode): seq<PredictiveEpisode> {
    var id := TrimSpace(next.episode);
    if id == "" || Blank(next.candidate.url) || id in IdsOf(kept) then kept
    else kept + [PredictiveEpisode(id, next.candidate)]
  }

  /** The episodes UpdateWindow keeps: trimmed identifiers, no blank identifier or URL, and the
      first of each identifier. */
  function Normalized(raw: seq<PredictiveEpisode>): seq<PredictiveEpisode> {
    if raw == [] then [] else KeptWith(Normalized(raw[..|raw| - 1]), raw[|raw| - 1])
  }

  predicate Usable(e: PredictiveEpisode) {
    !Blank(e.episode) && !Blank(e.candidate.url)
  }

  function UsableIds(raw: seq<PredictiveEpisode>): set<string> {
    set e | e in raw && Usable(e) :: TrimSpace(e.episode)
  }

  lemma IdsOfAppend(s: seq<PredictiveEpisode>, last: PredictiveEpisode)
    ensures IdsOf(s + [last]) == IdsOf(s) + {last.episode}
  {
    assert last in s + [last];
    forall e | e in s ensures e in s + [last] {}
  }

  lemma UsableIdsAppend(s: seq<PredictiveEpisode>, last: PredictiveEpisode)
    ensures UsableIds(s + [last]) == UsableIds(s) + if Usable(last) then {TrimSpace(last.episode)} else {}
  {
    assert last in s + [last];
    forall e | e in s ensures e in s + [last] {}
  }

  ghost predicate DistinctIds(s: seq<PredictiveEpisode>) {
    forall i, j :: 0 <= i < j < |s| ==> s[i].episode != s[j].episode
  }

  lemma DistinctIdsAppend(s: seq<PredictiveEpisode>, last: PredictiveEpisode)
    requires DistinctIds(s) && last.episode !in IdsOf(s)
    ensures DistinctIds(s + [last])
  {
    forall i | 0 <= i < |s| ensures s[i].episode != last.episode {
      assert s[i] in s;
    }
  }

  /** The first usable episode with this identifier, once trimmed, has this candidate. */
  ghost predicate FirstOffers(raw: seq<PredictiveEpisode>, id: string, candidate: Candidate) {
    exists i :: 0 <= i < |raw| && Usable(raw[i]) && TrimSpace(raw[i].episode) == id && raw[i].candidate == candidate
      && forall j :: 0 <= j < i && Usable(raw[j]) ==> TrimSpace(raw[j].episode) != id
  }

  /** The kept episodes have distinct, usable identifiers, those of the usable episodes, and the
      candidate of the first usable episode of each. */
  ghost predicate WellKept(kept: seq<PredictiveEpisode>, raw: seq<PredictiveEpisode>) {
    && IdsOf(kept) == UsableIds(raw) && DistinctIds(kept)
    && (forall e :: e in kept ==> Usable(e) && TrimSpace(e.episode) == e.episode)
    && (forall e :: e in kept ==> FirstOffers(raw, e.episode, e.candidate))
  }

  lemma WellKeptNext(kept: seq<PredictiveEpisode>, front: seq<PredictiveEpisode>, last: PredictiveEpisode)
    requires WellKept(kept, front)
    ensures WellKept(KeptWith(kept, last), front + [last])
  {
    var added := PredictiveEpisode(TrimSpace(last.episode), last.candidate);
    UsableIdsAppend(front, last);
    forall e | e in kept ensures FirstOffers(front + [last], e.episode, e.candidate) {
      StillOffers(front, last, e.episode, e.candidate);
    }
    if Usable(last) && added.episode !in IdsOf(kept) {
      IdsOfAppend(kept, added);
      DistinctIdsAppend(kept, added);
      TrimSpaceTrims(last.episode);
      assert (front + [last])[|front|] == last;
      forall j | 0 <= j < |front| && Usable(front[j]) ensures TrimSpace(front[j].episode) != added.episode {
        assert front[j] in front;
      }
      assert FirstOffers(front + [last], added.episode, added.candidate);
    }
  }

  lemma StillOffers(front: seq<PredictiveEpisode>, last: PredictiveEpisode, id: string, candidate: Candidate)
    requires FirstOffers(front, id, candidate)
    ensures FirstOffers(front + [last], id, candidate)
  {
    var i :| 0 <= i < |front| && Usable(front[i]) && TrimSpace(front[i].episode) == id && front[i].candidate == candidate
      && forall j :: 0 <= j < i && Usable(front[j]) ==> TrimSpace(front[j].episode) != id;
    assert (front + [last])[i] == front[i];
  }

  /** Normalising leaves distinct, trimmed, non-blank identifiers: those of the usable episodes, each
      with the candidate of the first usable episode that has it. */
  lemma {:induction false} NormalizedIds(raw: seq<PredictiveEpisode>)
    ensures WellKept(Normalized(raw), raw)
  {
    if raw != [] {
      var front, last := raw[..|raw| - 1], raw[|raw| - 1];
      NormalizedIds(front);
      WellKeptNext(Normalized(front), front, last);
      assert raw == front + [last];
    }
  }

  lemma OfferedIsKept(kept: seq<PredictiveEpisode>, raw: seq<PredictiveEpisode>, id: string, candidate: Candidate)
    requires WellKept(kept, raw) && FirstOffers(raw, id, candidate)
    ensures PredictiveEpisode(id, candidate) in kept
  {
    var i :| 0 <= i < |raw| && Usable(raw[i]) && TrimSpace(raw[i].episode) == id && raw[i].candidate == candidate
      && forall j :: 0 <= j < i && Usable(raw[j]) ==> TrimSpace(raw[j].episode) != id;
    assert raw[i] in raw;
    assert id in UsableIds(raw);
    var e :| e in kept && e.episode == id;
    assert FirstOffers(raw, e.episode, e.candidate);
  }

  // ---------------------------------------------------------------- one prewarm goroutine

  /** Where a prewarm goroutine is, with its local variables. */
  datatype JobPc =
    | CheckMeta
    | CheckHead(entry: Entry)
    | CheckTail(entry: Entry)
    | FetchHead
    | PutHead(resp: Response)
    | FetchTail(entry: Entry)
    | PutTail(entry: Entry, body: Bytes)
    | Upsert(entry: Entry)
    | Finished(ok: bool)

  datatype Job = Job(episode: string, candidate: Candidate, pc: JobPc)

  /** What the environment does to one access: it may fail it, and it replies to a header that is sent. */
  datatype Answer = Answer(ok: bool, fetch: Upstream)

  /** One atomic access of a prewarm goroutine. */
  function JobStep(cfg: Config, store: Store, job: Job, answer: Answer): (Store, JobPc) {
    match job.pc
    case CheckMeta =>
      if Blank(job.episode) || Blank(job.candidate.url) then (store, Finished(false))
      else if answer.ok && job.episode in store.entries
        && SameSource(cfg, store.entries[job.episode], job.candidate.url)
        && HeadSuffices(cfg, store.entries[job.episode])
      then (store, CheckHead(store.entries[job.episode]))
      else (store, FetchHead)
    case CheckHead(entry) =>
      if !(answer.ok && entry.headKey.Some? && entry.headKey.value in store.blobs) then (store, FetchHead)
      else if cfg.tailBytes <= 0 then (store, Finished(true))
      else if TailSuffices(cfg, entry) then (store, CheckTail(entry))
      else (store, FetchHead)
    case CheckTail(entry) =>
      if answer.ok && entry.tailKey.Some? && entry.tailKey.value in store.blobs then (store, Finished(true))
      else (store, FetchHead)
    case FetchHead =>
      var reply := answer.fetch(job.candidate.url, Header(HeadRange(cfg)));
      if reply.None? then (store, Finished(false)) else (store, PutHead(reply.value))
    case PutHead(resp) =>
      if !answer.ok then (store, Finished(false))
      else
        var entry := NewEntry(cfg, job.episode, job.candidate, resp);
        var key := BlobKey(job.episode, job.candidate.url, Head);
        (store.(blobs := store.blobs[key := resp.body]),
         if WantsTail(cfg, entry) then FetchTail(entry) else Upsert(entry))
    case FetchTail(entry) =>
      var reply := answer.fetch(job.candidate.url, Header(TailRange(cfg, entry)));
      if reply.Some? && |reply.value.body| > 0 then (store, PutTail(entry, reply.value.body))
      else (store, Upsert(entry))
    case PutTail(entry, body) =>
      if answer.ok then (store.(blobs := store.blobs[TailKey(entry) := body]), Upsert(WithTail(entry, body)))
      else (store, Upsert(entry))
    case Upsert(entry) =>
      (store.(entries := store.entries[entry.episode := entry]), Finished(true))
    case Finished(_) => (store, job.pc)
  }

  /** The answer a Prewarm environment gives at each point. */
  function AnswerOf(env: Environment, pc: JobPc): Answer {
    match pc
    case CheckMeta => Answer(env.readsOk, env.fetch)
    case CheckHead(_) => Answer(env.readsOk, env.fetch)
    case CheckTail(_) => Answer(env.readsOk, env.fetch)
    case PutHead(_) => Answer(env.headPutOk, env.fetch)
    case PutTail(_, _) => Answer(env.tailPutOk, env.fetch)
    case _ => Answer(true, env.fetch)
  }

  function Remaining(pc: JobPc): nat {
    match pc
    case CheckMeta => 8
    case CheckHead(_) => 7
    case CheckTail(_) => 6
    case FetchHead => 5
    case PutHead(_) => 4
    case FetchTail(_) => 3
    case PutTail(_, _) => 2
    case Upsert(_) => 1
    case Finished(_) => 0
  }

  /** A goroutine run to its end with nobody else touching the store. */
  function RunAlone(cfg: Config, store: Store, job: Job, env: Environment): (Store, bool)
    decreases Remaining(job.pc)
  {
    if job.pc.Finished? then (store, job.pc.ok)
    else
      var (store', pc') := JobStep(cfg, store, job, AnswerOf(env, job.pc));
      RunAlone(cfg, store', job.(pc := pc'), env)
  }

  lemma RunFromUpsert(cfg: Config, store: Store, job: Job, env: Environment)
    requires job.pc.Upsert?
    ensures RunAlone(cfg, store, job, env) == (store.(entries := store.entries[job.pc.entry.episode := job.pc.entry]), true)
  {
  }

  lemma RunFromFetchTail(cfg: Config, store: Store, job: Job, env: Environment, fetched: seq<string>)
    requires job.pc.FetchTail? && WantsTail(cfg, job.pc.entry) && env.upsertOk
    requires job.pc.entry.sourceUrl == job.candidate.url
    ensures var after := AfterHead(cfg, store, job.pc.entry, env, fetched);
      RunAlone(cfg, store, job, env) == (after.store, after.ok)
  {
    var (store1, pc1) := JobStep(cfg, store, job, AnswerOf(env, job.pc));
    if pc1.PutTail? {
      var (store2, pc2) := JobStep(cfg, store1, job.(pc := pc1), AnswerOf(env, pc1));
      RunFromUpsert(cfg, store2, job.(pc := pc2), env);
    } else {
      RunFromUpsert(cfg, store1, job.(pc := pc1), env);
    }
  }

  lemma RunFromFetchHead(cfg: Config, store: Store, job: Job, env: Environment)
    requires job.pc.FetchHead? && env.upsertOk
    ensures var after := Refetched(cfg, store, job.episode, job.candidate, env);
      RunAlone(cfg, store, job, env) == (after.store, after.ok)
  {
    var head := env.fetch(job.candidate.url, Header(HeadRange(cfg)));
    if head.Some? {
      RunFromPutHead(cfg, store, job.(pc := PutHead(head.value)), env);
    }
  }

  lemma RunFromPutHead(cfg: Config, store: Store, job: Job, env: Environment)
    requires job.pc.PutHead? && env.fetch(job.candidate.url, Header(HeadRange(cfg))) == Some(job.pc.resp) && env.upsertOk
    ensures var after := Refetched(cfg, store, job.episode, job.candidate, env);
      RunAlone(cfg, store, job, env) == (after.store, after.ok)
  {
    if env.headPutOk {
      var (store', pc) := JobStep(cfg, store, job, AnswerOf(env, job.pc));
      assert RunAlone(cfg, store, job, env) == RunAlone(cfg, store', job.(pc := pc), env);
      if pc.FetchTail? {
        RunFromFetchTail(cfg, store', job.(pc := pc), env, [Header(HeadRange(cfg))]);
      } else {
        RunFromUpsert(cfg, store', job.(pc := pc), env);
      }
    }
  }

  lemma RunFromCheckTail(cfg: Config, store: Store, job: Job, env: Environment)
    requires job.pc.CheckTail? && env.upsertOk
    ensures var entry := job.pc.entry;
      var enough := env.readsOk && entry.tailKey.Some? && entry.tailKey.value in store.blobs;
      var after := Refetched(cfg, store, job.episode, job.candidate, env);
      RunAlone(cfg, store, job, env) == if enough then (store, true) else (after.store, after.ok)
  {
    var (_, pc) := JobStep(cfg, store, job, AnswerOf(env, job.pc));
    if pc.FetchHead? {
      RunFromFetchHead(cfg, store, job.(pc := FetchHead), env);
    }
  }

  lemma RunFromCheckHead(cfg: Config, store: Store, job: Job, env: Environment)
    requires job.pc.CheckHead? && env.upsertOk
    ensures var entry := job.pc.entry;
      var enough := env.readsOk && entry.headKey.Some? && entry.headKey.value in store.blobs
        && (cfg.tailBytes > 0 ==> TailSuffices(cfg, entry) && entry.tailKey.value in store.blobs);
      var after := Refetched(cfg, store, job.episode, job.candidate, env);
      RunAlone(cfg, store, job, env) == if enough then (store, true) else (after.store, after.ok)
  {
    var (_, pc) := JobStep(cfg, store, job, AnswerOf(env, job.pc));
    assert RunAlone(cfg, store, job, env) == RunAlone(cfg, store, job.(pc := pc), env);
    if pc.FetchHead? {
      RunFromFetchHead(cfg, store, job.(pc := FetchHead), env);
    } else if pc.CheckTail? {
      RunFromCheckTail(cfg, store, job.(pc := pc), env);
    }
  }

  /** The goroutine's steps, uninterrupted, are Prewarm on this store (whose upserts never fail). */
  lemma AloneIsPrewarm(cfg: Config, store: Store, episode: string, candidate: Candidate, env: Environment)
    requires env.upsertOk
    ensures var after := Prewarmed(cfg, store, episode, candidate, env);
      RunAlone(cfg, store, Job(episode, candidate, CheckMeta), env) == (after.store, after.ok)
  {
    var job := Job(episode, candidate, CheckMeta);
    var (_, pc) := JobStep(cfg, store, job, AnswerOf(env, job.pc));
    assert RunAlone(cfg, store, job, env) == RunAlone(cfg, store, job.(pc := pc), env);
    if pc.FetchHead? {
      RunFromFetchHead(cfg, store, job.(pc := FetchHead), env);
    } else if pc.CheckHead? {
      RunFromCheckHead(cfg, store, job.(pc := pc), env);
    }
  }

  // ---------------------------------------------------------------- the world

  /** Where an UpdateWindow call is. Pruning keeps the active set it read, the snapshot keys still
      to visit, and, while its blobs go, the entry it has just taken out. */
  datatype Phase =
    | SetWindow
    | Prewarming(jobs: seq<Job>)
    | ReadActive
    | TakeSnapshot(active: set<string>)
    | Pruning(active: set<string>, todo: set<string>)
    | DeleteHead(active: set<string>, todo: set<string>, entry: Entry)
    | DeleteTail(active: set<string>, todo: set<string>, entry: Entry)
    | Returned

  /** failed: a goroutine of the call reported an error, and so does the call. */
  datatype Call = Call(client: nat, episodes: seq<PredictiveEpisode>, phase: Phase, failed: bool)

  /** A TryServeRange call: not started, holding the entry it read, or answered. */
  datatype Reader =
    | Asking(episode: string, url: string, header: string)
    | Holding(episode: string, url: string, header: string, entry: Entry)
    | Answered(episode: string, url: string, header: string, result: ServeResult)

  datatype World = World(windows: map<nat, set<string>>, store: Store, calls: seq<Call>, readers: seq<Reader>)

  datatype Step =
    | StartCall(client: nat, raw: seq<PredictiveEpisode>)
    | RunCall(pid: nat, ok: bool)
    | Prune(pid: nat, episode: string)
    | RunJob(pid: nat, job: nat, answer: Answer)
    | StartReader(episode: string, url: string, header: string)
    | RunReader(rid: nat, ok: bool)

  function Active(windows: map<nat, set<string>>): set<string> {
    set client, episode | client in windows && episode in windows[client] :: episode
  }

  predicate AllFinished(jobs: seq<Job>) {
    forall i :: 0 <= i < |jobs| ==> jobs[i].pc.Finished?
  }

  function NewJobs(episodes: seq<PredictiveEpisode>): seq<Job> {
    seq(|episodes|, i requires 0 <= i < |episodes| => Job(episodes[i].episode, episodes[i].candidate, CheckMeta))
  }

  /** Whatever header a goroutine sends gets an honest reply or none. */
  ghost predicate HonestAnswer(cfg: Config, files: Files, job: Job, answer: Answer) {
    HonestUpstream(cfg, files, job.episode, answer.fetch)
  }

  ghost predicate Enabled(cfg: Config, files: Files, w: World, step: Step) {
    match step
    case StartCall(_, _) => true
    case RunCall(pid, _) =>
      pid < |w.calls| &&
      (match w.calls[pid].phase
       case Prewarming(jobs) => AllFinished(jobs)
       case Pruning(_, todo) => todo == {}
       case Returned => false
       case _ => true)
    case Prune(pid, episode) =>
      pid < |w.calls| && w.calls[pid].phase.Pruning? && episode in w.calls[pid].phase.todo
    case RunJob(pid, job, answer) =>
      pid < |w.calls| && w.calls[pid].phase.Prewarming? && job < |w.calls[pid].phase.jobs|
      && !w.calls[pid].phase.jobs[job].pc.Finished?
      && HonestAnswer(cfg, files, w.calls[pid].phase.jobs[job], answer)
    case StartReader(_, _, _) => true
    case RunReader(rid, _) => rid < |w.readers| && !w.readers[rid].Answered?
  }

  function SetPhase(w: World, pid: nat, phase: Phase): World
    requires pid < |w.calls|
  {
    w.(calls := w.calls[pid := w.calls[pid].(phase := phase)])
  }

  function WithoutBlob(store: Store, key: Option<BlobKey>, ok: bool): Store {
    if ok && key.Some? then store.(blobs := store.blobs - {key.value}) else store
  }

  /** The step of the call itself, outside its prewarm goroutines and its prune loop. */
  function CallStep(w: World, pid: nat, ok: bool): World
    requires pid < |w.calls|
  {
    var call := w.calls[pid];
    match call.phase
    case SetWindow =>
      var ids := IdsOf(call.episodes);
      var windows := if ids == {} then w.windows - {call.client} else w.windows[call.client := ids];
      SetPhase(w.(windows := windows), pid, Prewarming(NewJobs(call.episodes)))
    case Prewarming(jobs) =>
      w.(calls := w.calls[pid := call.(phase := ReadActive, failed := exists i :: 0 <= i < |jobs| && jobs[i].pc == Finished(false))])
    case ReadActive => SetPhase(w, pid, TakeSnapshot(Active(w.windows)))
    case TakeSnapshot(active) => SetPhase(w, pid, Pruning(active, w.store.entries.Keys))
    case Pruning(_, _) => SetPhase(w, pid, Returned)
    case DeleteHead(active, todo, entry) =>
      SetPhase(w.(store := WithoutBlob(w.store, entry.headKey, ok)), pid, DeleteTail(active, todo, entry))
    case DeleteTail(active, todo, entry) =>
      SetPhase(w.(store := WithoutBlob(w.store, entry.tailKey, ok)), pid, Pruning(active, todo))
    case Returned => w
  }

  /** One visit of the prune loop: skip an active episode, or take its entry out. */
  function PruneStep(w: World, pid: nat, episode: string): World
    requires pid < |w.calls| && w.calls[pid].phase.Pruning?
  {
    var Pruning(active, todo) := w.calls[pid].phase;
    var rest := todo - {episode};
    if episode in active || episode !in w.store.entries then SetPhase(w, pid, Pruning(active, rest))
    else
      var entry := w.store.entries[episode];
      SetPhase(w.(store := w.store.(entries := w.store.entries - {episode})), pid, DeleteHead(active, rest, entry))
  }

  function ReaderStep(cfg: Config, store: Store, reader: Reader, ok: bool): Reader
    requires !reader.Answered?
  {
    match reader
    case Asking(episode, url, header) =>
      if Blank(header) || Blank(episode) || episode !in store.entries then Answered(episode, url, header, Miss)
      else Holding(episode, url, header, store.entries[episode])
    case Holding(episode, url, header, entry) =>
      Answered(episode, url, header, RunPlan(entry, ServePlan(cfg, entry, url, header), store.blobs, ok))
  }

  function Apply(cfg: Config, files: Files, w: World, step: Step): World
    requires Enabled(cfg, files, w, step)
  {
    match step
    case StartCall(client, raw) => w.(calls := w.calls + [Call(client, Normalized(raw), SetWindow, false)])
    case RunCall(pid, ok) => CallStep(w, pid, ok)
    case Prune(pid, episode) => PruneStep(w, pid, episode)
    case RunJob(pid, job, answer) =>
      var jobs := w.calls[pid].phase.jobs;
      var (store, pc) := JobStep(cfg, w.store, jobs[job], answer);
      SetPhase(w.(store := store), pid, Prewarming(jobs[job := jobs[job].(pc := pc)]))
    case StartReader(episode, url, header) => w.(readers := w.readers + [Asking(episode, url, header)])
    case RunReader(rid, ok) => w.(readers := w.readers[rid := ReaderStep(cfg, w.store, w.readers[rid], ok)])
  }

  const INITIAL: World := World(map[], Store(map[], map[]), [], [])

  ghost predicate Next(cfg: Config, files: Files, w: World, step: Step, w': World) {
    Enabled(cfg, files, w, step) && w' == Apply(cfg, files, w, step)
  }

  /** A run: enabled steps, one after another, from the empty cache. */
  ghost predicate Reachable(cfg: Config, files: Files, run: seq<Step>, w: World) {
    if run == [] then w == INITIAL
    else
      var front, last := run[..|run| - 1], run[|run| - 1];
      exists before :: Next(cfg, files, before, last, w) && Reachable(cfg, files, front, before)
  }

  /** A reader whose two accesses meet one store is answered what TryServeRange serves from it. */
  lemma ReaderIsServed(cfg: Config, store: Store, episode: string, url: string, header: string, ok: bool)
    ensures var first := ReaderStep(cfg, store, Asking(episode, url, header), ok);
      (if first.Answered? then first else ReaderStep(cfg, store, first, ok))
      == Answered(episode, url, header, Served(cfg, store, episode, url, header, true, ok))
  {
  }

  // ---------------------------------------------------------------- nothing outside the windows

  /** The call will still see this episode and find it inactive. */
  predicate Responsible(call: Call, episode: string) {
    match call.phase
    case SetWindow => true
    case Prewarming(_) => true
    case ReadActive => true
    case TakeSnapshot(active) => episode !in active
    case Pruning(active, todo) => episode !in active && episode in todo
    case DeleteHead(active, todo, _) => episode !in active && episode in todo
    case DeleteTail(active, todo, _) => episode !in active && episode in todo
    case Returned => false
  }

  predicate SomeoneResponsible(calls: seq<Call>, episode: string) {
    exists pid :: 0 <= pid < |calls| && Responsible(calls[pid], episode)
  }

  /** Every stored episode outside all windows has a call that is going to prune it. */
  ghost predicate Attended(w: World) {
    forall episode :: episode in w.store.entries && episode !in Active(w.windows) ==>
      SomeoneResponsible(w.calls, episode)
  }

  lemma StillResponsible(calls: seq<Call>, calls': seq<Call>, pid: nat, episode: string)
    requires |calls'| >= |calls| && pid < |calls|
    requires forall i :: 0 <= i < |calls| && i != pid ==> calls'[i] == calls[i]
    requires SomeoneResponsible(calls, episode)
    requires Responsible(calls[pid], episode) ==> Responsible(calls'[pid], episode)
    ensures SomeoneResponsible(calls', episode)
  {
    var i :| 0 <= i < |calls| && Responsible(calls[i], episode);
    assert Responsible(calls'[i], episode);
  }

  /** Each step keeps every inactive entry attended. */
  lemma StepAttended(cfg: Config, files: Files, w: World, step: Step)
    requires Attended(w) && Enabled(cfg, files, w, step)
    ensures Attended(Apply(cfg, files, w, step))
  {
    var w' := Apply(cfg, files, w, step);
    forall episode | episode in w'.store.entries && episode !in Active(w'.windows)
      ensures SomeoneResponsible(w'.calls, episode)
    {
      match step
      case StartCall(_, _) =>
        StillResponsible(w.calls + [w'.calls[|w.calls|]], w'.calls, |w.calls|, episode);
      case RunCall(pid, ok) =>
        if w.calls[pid].phase.SetWindow? {
          assert Responsible(w'.calls[pid], episode);
        } else {
          StillResponsible(w.calls, w'.calls, pid, episode);
        }
      case Prune(pid, pruned) =>
        StillResponsible(w.calls, w'.calls, pid, episode);
      case RunJob(pid, job, answer) =>
        assert Responsible(w'.calls[pid], episode);
      case StartReader(_, _, _) =>
      case RunReader(_, _) =>
    }
  }

  lemma {:induction false} RunAttended(cfg: Config, files: Files, run: seq<Step>, w: World)
    requires Reachable(cfg, files, run, w)
    ensures Attended(w)
  {
    if run != [] {
      var front, last := run[..|run| - 1], run[|run| - 1];
      var before :| Next(cfg, files, before, last, w) && Reachable(cfg, files, front, before);
      RunAttended(cfg, files, front, before);
      StepAttended(cfg, files, before, last);
    }
  }

  /** Every stored episode is in some client's current window. */
  ghost predicate InWindows(w: World) {
    forall episode :: episode in w.store.entries ==> exists client :: client in w.windows && episode in w.windows[client]
  }

  lemma AttendedAtRest(w: World)
    requires Attended(w) && forall pid :: 0 <= pid < |w.calls| ==> w.calls[pid].phase.Returned?
    ensures InWindows(w)
  {
    forall episode | episode in w.store.entries
      ensures exists client :: client in w.windows && episode in w.windows[client]
    {
      assert !SomeoneResponsible(w.calls, episode);
      assert episode in Active(w.windows);
    }
  }

  /** After any interleaving, once every call has returned, each stored episode belongs to some
      client's current window. */
  lemma QuiescentCacheIsInWindows(cfg: Config, files: Files, run: seq<Step>, w: World)
    requires Reachable(cfg, files, run, w)
    requires forall pid :: 0 <= pid < |w.calls| ==> w.calls[pid].phase.Returned?
    ensures forall episode :: episode in w.store.entries ==>
      exists client :: client in w.windows && episode in w.windows[client]
  {
    RunAttended(cfg, files, run, w);
    AttendedAtRest(w);
  }

  // ---------------------------------------------------------------- only the file's bytes

  /** What a goroutine holds is honest material for its own file. */
  predicate CanonicalJob(cfg: Config, files: Files, job: Job) {
    match job.pc
    case PutHead(resp) => Honest(FileOf(cfg, files, job.episode, job.candidate.url), HeadRange(cfg), resp)
    case FetchTail(entry) =>
      CanonicalEntry(cfg, files, job.episode, entry) && WantsTail(cfg, entry) && entry.sourceUrl == job.candidate.url
    case PutTail(entry, body) =>
      && CanonicalEntry(cfg, files, job.episode, entry)
      && CanonicalBlob(cfg, files, TailKey(entry), body)
      && CanonicalEntry(cfg, files, job.episode, WithTail(entry, body))
    case Upsert(entry) => CanonicalEntry(cfg, files, job.episode, entry)
    case _ => true
  }

  predicate CanonicalReader(cfg: Config, files: Files, reader: Reader) {
    match reader
    case Asking(_, _, _) => true
    case Holding(episode, _, _, entry) => CanonicalEntry(cfg, files, episode, entry)
    case Answered(episode, url, header, result) => HonestResult(cfg, files, episode, url, header, result)
  }

  ghost predicate CanonicalCall(cfg: Config, files: Files, call: Call) {
    call.phase.Prewarming? ==>
      forall i :: 0 <= i < |call.phase.jobs| ==> CanonicalJob(cfg, files, call.phase.jobs[i])
  }

  ghost predicate Honored(cfg: Config, files: Files, w: World) {
    && Canonical(cfg, files, w.store)
    && (forall pid :: 0 <= pid < |w.calls| ==> CanonicalCall(cfg, files, w.calls[pid]))
    && (forall rid :: 0 <= rid < |w.readers| ==> CanonicalReader(cfg, files, w.readers[rid]))
  }

  lemma JobStepCanonical(cfg: Config, files: Files, store: Store, job: Job, answer: Answer)
    requires Canonical(cfg, files, store) && CanonicalJob(cfg, files, job) && HonestAnswer(cfg, files, job, answer)
    ensures var (store', pc') := JobStep(cfg, store, job, answer);
      Canonical(cfg, files, store') && CanonicalJob(cfg, files, job.(pc := pc'))
  {
    match job.pc
    case PutHead(resp) =>
      HonestHead(cfg, files, job.episode, job.candidate, resp);
    case FetchTail(entry) =>
      if answer.fetch(entry.sourceUrl, Header(TailRange(cfg, entry))).Some? {
        TailReply(cfg, files, job.episode, entry, answer.fetch);
      }
    case _ =>
  }

  lemma ReaderStepCanonical(cfg: Config, files: Files, store: Store, reader: Reader, ok: bool)
    requires Canonical(cfg, files, store) && CanonicalReader(cfg, files, reader) && !reader.Answered?
    ensures CanonicalReader(cfg, files, ReaderStep(cfg, store, reader, ok))
  {
    if reader.Holding? {
      ServeExact(cfg, files, reader.episode, reader.entry, reader.url, reader.header, store.blobs, ok);
    }
  }

  lemma RunJobHonored(cfg: Config, files: Files, w: World, pid: nat, job: nat, answer: Answer)
    requires Honored(cfg, files, w) && Enabled(cfg, files, w, RunJob(pid, job, answer))
    ensures Honored(cfg, files, Apply(cfg, files, w, RunJob(pid, job, answer)))
  {
    assert CanonicalCall(cfg, files, w.calls[pid]);
    JobStepCanonical(cfg, files, w.store, w.calls[pid].phase.jobs[job], answer);
  }

  lemma RunReaderHonored(cfg: Config, files: Files, w: World, rid: nat, ok: bool)
    requires Honored(cfg, files, w) && Enabled(cfg, files, w, RunReader(rid, ok))
    ensures Honored(cfg, files, Apply(cfg, files, w, RunReader(rid, ok)))
  {
    ReaderStepCanonical(cfg, files, w.store, w.readers[rid], ok);
  }

  /** Each step keeps the store, the goroutines and the readers honest. */
  lemma StepHonored(cfg: Config, files: Files, w: World, step: Step)
    requires Honored(cfg, files, w) && Enabled(cfg, files, w, step)
    ensures Honored(cfg, files, Apply(cfg, files, w, step))
  {
    match step
    case RunJob(pid, job, answer) => RunJobHonored(cfg, files, w, pid, job, answer);
    case RunReader(rid, ok) => RunReaderHonored(cfg, files, w, rid, ok);
    case _ =>
  }

  lemma {:induction false} RunHonored(cfg: Config, files: Files, run: seq<Step>, w: World)
    requires Reachable(cfg, files, run, w)
    ensures Honored(cfg, files, w)
  {
    if run != [] {
      var front, last := run[..|run| - 1], run[|run| - 1];
      var before :| Next(cfg, files, before, last, w) && Reachable(cfg, files, front, before);
      RunHonored(cfg, files, front, before);
      StepHonored(cfg, files, before, last);
    }
  }

  /** In every interleaving of prewarms, prunes and reads, a reader that hits got exactly the
      file's bytes of its range, and no read went outside a blob. */
  lemma EveryHitIsExact(cfg: Config, files: Files, run: seq<Step>, w: World, rid: nat)
    requires Reachable(cfg, files, run, w)
    requires rid < |w.readers| && w.readers[rid].Answered?
    ensures var reader := w.readers[rid];
      HonestResult(cfg, files, reader.episode, reader.url, reader.header, reader.result)
  {
    RunHonored(cfg, files, run, w);
    assert CanonicalReader(cfg, files, w.readers[rid]);
  }
}
