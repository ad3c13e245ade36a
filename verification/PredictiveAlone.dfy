/** One UpdateWindow call with no other call running, in the step system: its goroutines interleave
    with each other and with readers in any way. What it leaves in the cache. */
module PredictiveAlone {
  import opened Basics
  import opened Domain
  import opened GoText
  import opened RangeHeader
  import opened MediaCache
  import opened PredictiveWindow
  import opened PredictiveCache
  import opened PredictiveProgress

  // ---------------------------------------------------------------- which goroutines there are

  /** A call that prewarms has one goroutine for each of its episodes, with its candidate. */
  ghost predicate JobsOfCall(call: Call) {
    call.phase.Prewarming? ==>
      var jobs := call.phase.jobs;
      && |jobs| == |call.episodes|
      && forall i :: 0 <= i < |jobs| ==>
        jobs[i].episode == call.episodes[i].episode && jobs[i].candidate == call.episodes[i].candidate
  }

  /** The call was started with a window of which it keeps the usable episodes. */
  ghost predicate Started(run: seq<Step>, call: Call) {
    exists i, raw :: 0 <= i < |run| && run[i] == StartCall(call.client, raw) && WellKept(call.episodes, raw)
  }

  ghost predicate CallsInOrder(run: seq<Step>, w: World) {
    forall pid :: 0 <= pid < |w.calls| ==> JobsOfCall(w.calls[pid]) && Started(run, w.calls[pid])
  }

  /** Some call of the client was started with a window that has exactly these usable episodes. */
  ghost predicate Asked(run: seq<Step>, client: nat, ids: set<string>) {
    exists i, raw :: 0 <= i < |run| && run[i] == StartCall(client, raw) && UsableIds(raw) == ids
  }

  ghost predicate WindowsAsked(run: seq<Step>, w: World) {
    forall client :: client in w.windows ==> w.windows[client] != {} && Asked(run, client, w.windows[client])
  }

  lemma StepAsked(cfg: Config, files: Files, run: seq<Step>, w: World, step: Step)
    requires CallsInOrder(run, w) && WindowsAsked(run, w) && Enabled(cfg, files, w, step)
    ensures WindowsAsked(run + [step], Apply(cfg, files, w, step))
  {
    var w' := Apply(cfg, files, w, step);
    forall client | client in w'.windows
      ensures w'.windows[client] != {} && Asked(run + [step], client, w'.windows[client])
    {
      WindowOf(cfg, files, w, step, client);
      if client in w.windows && w.windows[client] == w'.windows[client] {
        AskedLater(run, step, client, w.windows[client]);
      } else {
        var call := w.calls[step.pid];
        assert Started(run, call);
        var i, raw :| 0 <= i < |run| && run[i] == StartCall(call.client, raw) && WellKept(call.episodes, raw);
        AskedLater(run, step, client, UsableIds(raw));
      }
    }
  }

  /** A window stays, or is set by a call of its client. */
  lemma WindowOf(cfg: Config, files: Files, w: World, step: Step, client: nat)
    requires Enabled(cfg, files, w, step) && client in Apply(cfg, files, w, step).windows
    ensures var window := Apply(cfg, files, w, step).windows[client];
      || (client in w.windows && w.windows[client] == window)
      || (step.RunCall? && w.calls[step.pid].client == client && window == IdsOf(w.calls[step.pid].episodes) && window != {})
  {
  }

  lemma AskedLater(run: seq<Step>, last: Step, client: nat, ids: set<string>)
    requires Asked(run, client, ids)
    ensures Asked(run + [last], client, ids)
  {
    var i, raw :| 0 <= i < |run| && run[i] == StartCall(client, raw) && UsableIds(raw) == ids;
    assert (run + [last])[i] == run[i];
  }

  lemma StartedLater(run: seq<Step>, last: Step, call: Call)
    requires Started(run, call)
    ensures Started(run + [last], call)
  {
    var i, raw :| 0 <= i < |run| && run[i] == StartCall(call.client, raw) && WellKept(call.episodes, raw);
    assert (run + [last])[i] == run[i];
  }

  lemma StepInOrder(cfg: Config, files: Files, run: seq<Step>, w: World, step: Step)
    requires CallsInOrder(run, w) && Enabled(cfg, files, w, step)
    ensures CallsInOrder(run + [step], Apply(cfg, files, w, step))
  {
    var w' := Apply(cfg, files, w, step);
    forall pid | 0 <= pid < |w'.calls| ensures JobsOfCall(w'.calls[pid]) && Started(run + [step], w'.calls[pid]) {
      if pid < |w.calls| {
        assert JobsOfCall(w.calls[pid]);
        StartedLater(run, step, w.calls[pid]);
        assert w'.calls[pid].client == w.calls[pid].client && w'.calls[pid].episodes == w.calls[pid].episodes;
      } else {
        NormalizedIds(step.raw);
        assert (run + [step])[|run|] == step;
      }
    }
  }

  /** In every run, a call's goroutines are one for each episode of the window it was started with
      that is usable, the first of its identifier, with that episode's own candidate; and every
      window is the usable episodes of a call of its client. */
  lemma {:induction false} GoroutinesMatchWindows(cfg: Config, files: Files, run: seq<Step>, w: World)
    requires Reachable(cfg, files, run, w)
    ensures CallsInOrder(run, w) && WindowsAsked(run, w)
  {
    if run != [] {
      var front, last := run[..|run| - 1], run[|run| - 1];
      var before :| Next(cfg, files, before, last, w) && Reachable(cfg, files, front, before);
      GoroutinesMatchWindows(cfg, files, front, before);
      StepInOrder(cfg, files, front, before, last);
      StepAsked(cfg, files, front, before, last);
      assert front + [last] == run;
    }
  }

  // ---------------------------------------------------------------- what a goroutine leaves

  /** The entry names blobs that are there, and has the goroutine's source. */
  predicate EntryReady(cfg: Config, store: Store, job: Job, entry: Entry) {
    && entry.episode == job.episode && entry.sourceKey == cfg.sourceKeyOf(job.candidate.url)
    && entry.headKey.Some? && entry.headKey.value in store.blobs
    && (entry.tailKey.Some? ==> entry.tailKey.value in store.blobs)
  }

  /** What a goroutine has found or put so far is still there. */
  predicate JobGood(cfg: Config, store: Store, job: Job) {
    match job.pc
    case CheckHead(entry) =>
      && job.episode in store.entries && store.entries[job.episode] == entry
      && SameSource(cfg, entry, job.candidate.url) && HeadSuffices(cfg, entry)
    case CheckTail(entry) =>
      && job.episode in store.entries && store.entries[job.episode] == entry
      && SameSource(cfg, entry, job.candidate.url) && HeadSuffices(cfg, entry) && TailSuffices(cfg, entry)
      && entry.headKey.value in store.blobs
    case FetchTail(entry) => EntryReady(cfg, store, job, entry)
    case PutTail(entry, _) => EntryReady(cfg, store, job, entry)
    case Upsert(entry) => EntryReady(cfg, store, job, entry)
    case Finished(ok) => ok ==> Cached(cfg, store, job.episode, job.candidate.url)
    case _ => true
  }

  lemma JobStepGood(cfg: Config, files: Files, store: Store, job: Job, answer: Answer)
    requires Canonical(cfg, files, store) && CanonicalJob(cfg, files, job) && JobGood(cfg, store, job)
    ensures var (store', pc') := JobStep(cfg, store, job, answer); JobGood(cfg, store', job.(pc := pc'))
  {
    if job.episode in store.entries {
      assert CanonicalEntry(cfg, files, job.episode, store.entries[job.episode]);
    }
  }

  /** A goroutine's step leaves alone what belongs to another episode. */
  lemma JobStepLocal(cfg: Config, files: Files, store: Store, job: Job, answer: Answer)
    requires CanonicalJob(cfg, files, job)
    ensures var store' := JobStep(cfg, store, job, answer).0;
      && (forall e :: e != job.episode ==> (e in store'.entries <==> e in store.entries))
      && (forall e :: e != job.episode && e in store.entries ==> store'.entries[e] == store.entries[e])
      && store.entries.Keys <= store'.entries.Keys
      && (forall key :: key in store.blobs ==> key in store'.blobs)
      && (forall key :: key in store'.blobs && key.episode != job.episode ==> key in store.blobs)
  {
  }

  lemma OtherJobGood(cfg: Config, store: Store, store': Store, job: Job)
    requires JobGood(cfg, store, job)
    requires job.episode in store.entries ==> job.episode in store'.entries && store'.entries[job.episode] == store.entries[job.episode]
    requires forall key :: key in store.blobs ==> key in store'.blobs
    ensures JobGood(cfg, store', job)
  {
  }

  /** What was servable before a goroutine's step is so after it. */
  lemma JobStepServable(cfg: Config, files: Files, store: Store, job: Job, answer: Answer)
    requires CanonicalJob(cfg, files, job) && JobGood(cfg, store, job)
    ensures KeepsServable(store, JobStep(cfg, store, job, answer).0)
  {
    JobStepLocal(cfg, files, store, job, answer);
  }

  // ---------------------------------------------------------------- the lone call

  function NewWindows(windows: map<nat, set<string>>, client: nat, ids: set<string>): map<nat, set<string>> {
    if ids == {} then windows - {client} else windows[client := ids]
  }

  /** The call's own place in the list: it comes after all calls of w0, which have returned. */
  function Me(w0: World): nat { |w0.calls| }

  /** The last call is the lone one; the windows are as it set them; it prunes what is outside them. */
  ghost predicate Shape(cfg: Config, files: Files, w0: World, client: nat, raw: seq<PredictiveEpisode>, w: World) {
    && |w.calls| == Me(w0) + 1
    && (forall i :: 0 <= i < Me(w0) ==> w.calls[i].phase.Returned?)
    && var call := w.calls[Me(w0)];
    && call.client == client && WellKept(call.episodes, raw)
    && w.windows == (if call.phase.SetWindow? then w0.windows else NewWindows(w0.windows, client, UsableIds(raw)))
    && match call.phase
       case TakeSnapshot(active) => active == Active(w.windows)
       case Pruning(active, _) => active == Active(w.windows)
       case DeleteHead(active, _, entry) =>
         active == Active(w.windows) && entry.episode !in active && CanonicalEntry(cfg, files, entry.episode, entry)
       case DeleteTail(active, _, entry) =>
         active == Active(w.windows) && entry.episode !in active && CanonicalEntry(cfg, files, entry.episode, entry)
       case _ => true
  }

  /** A step of the lone call or of its goroutines, or of a reader. */
  lemma OnlyMine(cfg: Config, files: Files, w0: World, client: nat, raw: seq<PredictiveEpisode>, w: World, step: Step)
    requires Shape(cfg, files, w0, client, raw, w) && Enabled(cfg, files, w, step) && !step.StartCall?
    ensures OwnStep(Me(w0), step) || step.StartReader? || step.RunReader?
  {
  }

  lemma StepShape(cfg: Config, files: Files, w0: World, client: nat, raw: seq<PredictiveEpisode>, w: World, step: Step)
    requires Shape(cfg, files, w0, client, raw, w) && Canonical(cfg, files, w.store)
    requires Enabled(cfg, files, w, step) && !step.StartCall?
    ensures Shape(cfg, files, w0, client, raw, Apply(cfg, files, w, step))
  {
    OnlyMine(cfg, files, w0, client, raw, w, step);
    if step.Prune? && step.episode in w.store.entries {
      assert CanonicalEntry(cfg, files, step.episode, w.store.entries[step.episode]);
    }
  }

  /** While prewarming, the goroutines are in order; afterwards, unless one of them failed, every
      episode of the window is cached for its own URL. */
  ghost predicate Caching(cfg: Config, w: World, me: nat)
    requires me < |w.calls|
  {
    var call := w.calls[me];
    match call.phase
    case SetWindow => true
    case Prewarming(jobs) => JobsOfCall(call) && forall i :: 0 <= i < |jobs| ==> JobGood(cfg, w.store, jobs[i])
    case _ => !call.failed ==> AllCached(cfg, w.store, call.episodes)
  }

  /** The window's episodes are active. */
  lemma WindowIsActive(cfg: Config, files: Files, w0: World, client: nat, raw: seq<PredictiveEpisode>, w: World)
    requires Shape(cfg, files, w0, client, raw, w) && !w.calls[Me(w0)].phase.SetWindow?
    ensures forall e :: e in w.calls[Me(w0)].episodes ==> e.episode in Active(w.windows)
  {
    forall e | e in w.calls[Me(w0)].episodes ensures e.episode in Active(w.windows) {
      assert e.episode in IdsOf(w.calls[Me(w0)].episodes);
      assert client in w.windows && e.episode in w.windows[client];
    }
  }

  lemma RunJobCaching(cfg: Config, files: Files, w: World, pid: nat, job: nat, answer: Answer)
    requires Honored(cfg, files, w) && Enabled(cfg, files, w, RunJob(pid, job, answer))
    requires Caching(cfg, w, pid) && DistinctIds(w.calls[pid].episodes)
    ensures Caching(cfg, Apply(cfg, files, w, RunJob(pid, job, answer)), pid)
  {
    var jobs := w.calls[pid].phase.jobs;
    assert CanonicalCall(cfg, files, w.calls[pid]);
    var (store', pc') := JobStep(cfg, w.store, jobs[job], answer);
    JobStepGood(cfg, files, w.store, jobs[job], answer);
    JobStepLocal(cfg, files, w.store, jobs[job], answer);
    var jobs' := jobs[job := jobs[job].(pc := pc')];
    forall i | 0 <= i < |jobs'| ensures JobGood(cfg, store', jobs'[i]) {
      if i != job {
        assert jobs[i].episode != jobs[job].episode;
        OtherJobGood(cfg, w.store, store', jobs[i]);
      }
    }
  }

  /** Taking out an inactive episode, or deleting blobs of one, keeps the others cached. */
  lemma StaysCached(cfg: Config, files: Files, store: Store, store': Store, episodes: seq<PredictiveEpisode>, active: set<string>)
    requires Canonical(cfg, files, store) && AllCached(cfg, store, episodes)
    requires forall e :: e in episodes ==> e.episode in active
    requires KeepsActive(store, store', active)
    ensures AllCached(cfg, store', episodes)
  {
    forall e | e in episodes ensures Cached(cfg, store', e.episode, e.candidate.url) {
      assert CanonicalEntry(cfg, files, e.episode, store.entries[e.episode]);
    }
  }

  /** Entries and blobs of active episodes stay. */
  ghost predicate KeepsActive(store: Store, store': Store, active: set<string>) {
    && (forall e :: e in store.entries && e in active ==> e in store'.entries && store'.entries[e] == store.entries[e])
    && (forall key :: key in store.blobs && key.episode in active ==> key in store'.blobs)
  }

  lemma PruningKeepsActive(cfg: Config, files: Files, w0: World, client: nat, raw: seq<PredictiveEpisode>, w: World, step: Step)
    requires Shape(cfg, files, w0, client, raw, w)
    requires Enabled(cfg, files, w, step) && !step.StartCall? && !step.RunJob?
    ensures KeepsActive(w.store, Apply(cfg, files, w, step).store, Active(w.windows))
  {
    OnlyMine(cfg, files, w0, client, raw, w, step);
  }

  lemma NewJobsMatch(episodes: seq<PredictiveEpisode>)
    ensures var jobs := NewJobs(episodes);
      && |jobs| == |episodes|
      && forall i :: 0 <= i < |jobs| ==>
        jobs[i].episode == episodes[i].episode && jobs[i].candidate == episodes[i].candidate && jobs[i].pc == CheckMeta
  {
  }

  lemma FinishedCached(cfg: Config, w: World, me: nat)
    requires me < |w.calls| && w.calls[me].phase.Prewarming? && AllFinished(w.calls[me].phase.jobs) && Caching(cfg, w, me)
    requires forall i :: 0 <= i < |w.calls[me].phase.jobs| ==> w.calls[me].phase.jobs[i].pc != Finished(false)
    ensures AllCached(cfg, w.store, w.calls[me].episodes)
  {
    var call := w.calls[me];
    forall e | e in call.episodes ensures Cached(cfg, w.store, e.episode, e.candidate.url) {
      var i :| 0 <= i < |call.episodes| && call.episodes[i] == e;
      assert JobGood(cfg, w.store, call.phase.jobs[i]) && call.phase.jobs[i].pc == Finished(true);
    }
  }

  lemma StepCaching(cfg: Config, files: Files, w0: World, client: nat, raw: seq<PredictiveEpisode>, w: World, step: Step)
    requires Shape(cfg, files, w0, client, raw, w) && Honored(cfg, files, w) && Caching(cfg, w, Me(w0))
    requires Enabled(cfg, files, w, step) && !step.StartCall?
    ensures |Apply(cfg, files, w, step).calls| == |w.calls| && Caching(cfg, Apply(cfg, files, w, step), Me(w0))
  {
    var me, w' := Me(w0), Apply(cfg, files, w, step);
    OnlyMine(cfg, files, w0, client, raw, w, step);
    if step.RunJob? {
      RunJobCaching(cfg, files, w, me, step.job, step.answer);
    } else if step.StartReader? || step.RunReader? {
      assert w'.calls == w.calls && w'.store == w.store;
    } else if w.calls[me].phase.SetWindow? {
      NewJobsMatch(w.calls[me].episodes);
    } else if w.calls[me].phase.Prewarming? {
      if !w'.calls[me].failed { FinishedCached(cfg, w, me); }
    } else if !w'.calls[me].failed {
      WindowIsActive(cfg, files, w0, client, raw, w);
      PruningKeepsActive(cfg, files, w0, client, raw, w, step);
      StaysCached(cfg, files, w.store, w'.store, w.calls[me].episodes, Active(w.windows));
    }
  }

  // ---------------------------------------------------------------- what stays and what goes

  /** What was servable and is active still is; before the prune, all that was servable. */
  ghost predicate Keeping(w0: World, w: World)
    requires Me(w0) < |w.calls|
  {
    var phase := w.calls[Me(w0)].phase;
    if phase.SetWindow? || phase.Prewarming? then KeepsServable(w0.store, w.store)
    else forall e :: Servable(w0.store, e) && e in Active(w.windows) ==> Servable(w.store, e)
  }

  lemma StepKeeping(cfg: Config, files: Files, w0: World, client: nat, raw: seq<PredictiveEpisode>, w: World, step: Step)
    requires Shape(cfg, files, w0, client, raw, w) && Honored(cfg, files, w) && Caching(cfg, w, Me(w0)) && Keeping(w0, w)
    requires Enabled(cfg, files, w, step) && !step.StartCall?
    ensures |Apply(cfg, files, w, step).calls| == |w.calls| && Keeping(w0, Apply(cfg, files, w, step))
  {
    var me, w' := Me(w0), Apply(cfg, files, w, step);
    OnlyMine(cfg, files, w0, client, raw, w, step);
    if step.RunJob? {
      assert CanonicalCall(cfg, files, w.calls[me]);
      JobStepServable(cfg, files, w.store, w.calls[me].phase.jobs[step.job], step.answer);
      KeepsServableTwice(w0.store, w.store, w'.store);
    } else if step.StartReader? || step.RunReader? {
      assert w'.calls == w.calls && w'.store == w.store;
    } else if !w.calls[me].phase.SetWindow? {
      PruningKeepsActive(cfg, files, w0, client, raw, w, step);
      forall e | Servable(w.store, e) && e in Active(w.windows) ensures Servable(w'.store, e) {
        assert CanonicalEntry(cfg, files, e, w.store.entries[e]);
      }
    }
  }

  /** An entry of the start that is outside the windows has not been visited yet, or its blobs are
      being deleted, or are gone. */
  ghost predicate OnItsWay(w0: World, w: World, e: string)
    requires Me(w0) < |w.calls| && e in w0.store.entries
  {
    var entry := w0.store.entries[e];
    var here := e in w.store.entries && w.store.entries[e] == entry;
    match w.calls[Me(w0)].phase
    case Pruning(_, todo) => (here && e in todo) || NoBlobs(w.store, entry)
    case DeleteHead(_, todo, current) => (here && e in todo) || current == entry || NoBlobs(w.store, entry)
    case DeleteTail(_, todo, current) =>
      || (here && e in todo)
      || (current == entry && (entry.headKey.Some? ==> entry.headKey.value !in w.store.blobs))
      || NoBlobs(w.store, entry)
    case Returned => NoBlobs(w.store, entry)
    case _ => here
  }

  ghost predicate Clearing(w0: World, client: nat, raw: seq<PredictiveEpisode>, w: World)
    requires Me(w0) < |w.calls|
  {
    forall e :: e in w0.store.entries && e !in Active(NewWindows(w0.windows, client, UsableIds(raw))) ==> OnItsWay(w0, w, e)
  }

  lemma RunJobClearing(cfg: Config, files: Files, w0: World, client: nat, raw: seq<PredictiveEpisode>, w: World,
                       step: Step, e: string)
    requires Shape(cfg, files, w0, client, raw, w) && Honored(cfg, files, w) && Caching(cfg, w, Me(w0))
    requires Enabled(cfg, files, w, step) && step.RunJob? && step.pid == Me(w0)
    requires e in w0.store.entries && e !in Active(w.windows) && OnItsWay(w0, w, e)
    ensures OnItsWay(w0, Apply(cfg, files, w, step), e)
  {
    var call := w.calls[Me(w0)];
    var job := call.phase.jobs[step.job];
    assert CanonicalCall(cfg, files, call);
    JobStepLocal(cfg, files, w.store, job, step.answer);
    WindowIsActive(cfg, files, w0, client, raw, w);
    assert call.episodes[step.job] in call.episodes && e != job.episode;
  }

  lemma PruneClearing(cfg: Config, files: Files, w0: World, client: nat, raw: seq<PredictiveEpisode>, w: World,
                      step: Step, e: string)
    requires Shape(cfg, files, w0, client, raw, w)
    requires Enabled(cfg, files, w, step) && step.Prune? && step.pid == Me(w0)
    requires e in w0.store.entries && e !in Active(w.windows) && OnItsWay(w0, w, e)
    ensures OnItsWay(w0, Apply(cfg, files, w, step), e)
  {
  }

  lemma RunCallClearing(cfg: Config, files: Files, w0: World, client: nat, raw: seq<PredictiveEpisode>, w: World,
                        step: Step, e: string)
    requires Shape(cfg, files, w0, client, raw, w)
    requires Enabled(cfg, files, w, step) && step.RunCall? && step.pid == Me(w0) && step.ok
    requires e in w0.store.entries && OnItsWay(w0, w, e)
    ensures OnItsWay(w0, Apply(cfg, files, w, step), e)
  {
  }

  lemma StepClearing(cfg: Config, files: Files, w0: World, client: nat, raw: seq<PredictiveEpisode>, w: World, step: Step)
    requires Shape(cfg, files, w0, client, raw, w) && Honored(cfg, files, w) && Caching(cfg, w, Me(w0))
    requires Clearing(w0, client, raw, w)
    requires Enabled(cfg, files, w, step) && !step.StartCall? && (step.RunCall? ==> step.ok)
    ensures |Apply(cfg, files, w, step).calls| == |w.calls| && Clearing(w0, client, raw, Apply(cfg, files, w, step))
  {
    var w' := Apply(cfg, files, w, step);
    OnlyMine(cfg, files, w0, client, raw, w, step);
    forall e | e in w0.store.entries && e !in Active(NewWindows(w0.windows, client, UsableIds(raw))) ensures OnItsWay(w0, w', e) {
      assert OnItsWay(w0, w, e);
      match step
      case RunJob(_, _, _) => RunJobClearing(cfg, files, w0, client, raw, w, step, e);
      case Prune(_, _) => PruneClearing(cfg, files, w0, client, raw, w, step, e);
      case RunCall(_, _) => RunCallClearing(cfg, files, w0, client, raw, w, step, e);
      case _ =>
    }
  }

  // ---------------------------------------------------------------- when nothing fails

  /** A goroutine's access succeeds, and what it asks for is replied to if it selects anything. */
  ghost predicate Granted(cfg: Config, files: Files, job: Job, answer: Answer) {
    && answer.ok
    && forall spec :: Selection(spec, |FileOf(cfg, files, job.episode, job.candidate.url)|).Some? ==>
      answer.fetch(job.candidate.url, Header(spec)).Some?
  }

  /** Nothing fails along the run, and no file asked for is empty. */
  ghost predicate Unhindered(cfg: Config, files: Files, w: World, rest: seq<Step>)
    decreases |rest|
  {
    rest != [] ==>
      && Enabled(cfg, files, w, rest[0])
      && (rest[0].RunJob? ==>
        var job := w.calls[rest[0].pid].phase.jobs[rest[0].job];
        Granted(cfg, files, job, rest[0].answer) && FileOf(cfg, files, job.episode, job.candidate.url) != [])
      && Unhindered(cfg, files, Apply(cfg, files, w, rest[0]), rest[1..])
  }

  ghost predicate NoneFailed(w: World, me: nat)
    requires me < |w.calls|
  {
    var call := w.calls[me];
    && !call.failed
    && (call.phase.Prewarming? ==>
      forall i :: 0 <= i < |call.phase.jobs| ==>
        && call.phase.jobs[i].pc != Finished(false)
        && !Blank(call.phase.jobs[i].episode) && !Blank(call.phase.jobs[i].candidate.url))
  }

  lemma GrantedJobStep(cfg: Config, files: Files, store: Store, job: Job, answer: Answer)
    requires Granted(cfg, files, job, answer) && FileOf(cfg, files, job.episode, job.candidate.url) != []
    requires job.pc != Finished(false) && !Blank(job.episode) && !Blank(job.candidate.url)
    ensures JobStep(cfg, store, job, answer).1 != Finished(false)
  {
    assert Selection(HeadRange(cfg), |FileOf(cfg, files, job.episode, job.candidate.url)|).Some?;
  }

  lemma StepNoneFailed(cfg: Config, files: Files, w0: World, client: nat, raw: seq<PredictiveEpisode>, w: World, step: Step)
    requires Shape(cfg, files, w0, client, raw, w) && NoneFailed(w, Me(w0))
    requires Enabled(cfg, files, w, step) && !step.StartCall? && Unhindered(cfg, files, w, [step])
    ensures |Apply(cfg, files, w, step).calls| == |w.calls| && NoneFailed(Apply(cfg, files, w, step), Me(w0))
  {
    var me, w' := Me(w0), Apply(cfg, files, w, step);
    OnlyMine(cfg, files, w0, client, raw, w, step);
    if step.RunJob? {
      assert [step][0] == step;
      GrantedJobStep(cfg, files, w.store, w.calls[me].phase.jobs[step.job], step.answer);
    } else if w.calls[me].phase.SetWindow? {
      var episodes := w.calls[me].episodes;
      NewJobsMatch(episodes);
      assert forall i :: 0 <= i < |episodes| ==> episodes[i] in episodes;
    }
  }

  // ---------------------------------------------------------------- the theorem

  ghost predicate NoNewCall(rest: seq<Step>) {
    forall i :: 0 <= i < |rest| ==> !rest[i].StartCall?
  }

  /** Every deletion of a blob succeeds. */
  ghost predicate DeletesSucceed(rest: seq<Step>) {
    forall i :: 0 <= i < |rest| && rest[i].RunCall? ==> rest[i].ok
  }

  lemma {:induction false} LoneRun(cfg: Config, files: Files, w0: World, client: nat, raw: seq<PredictiveEpisode>,
                                   w: World, rest: seq<Step>, w': World)
    requires Shape(cfg, files, w0, client, raw, w) && Honored(cfg, files, w) && Caching(cfg, w, Me(w0)) && Keeping(w0, w)
    requires Leads(cfg, files, w, rest, w') && NoNewCall(rest)
    ensures Shape(cfg, files, w0, client, raw, w') && Honored(cfg, files, w') && Caching(cfg, w', Me(w0)) && Keeping(w0, w')
    ensures Clearing(w0, client, raw, w) && DeletesSucceed(rest) ==> Clearing(w0, client, raw, w')
    ensures NoneFailed(w, Me(w0)) && Unhindered(cfg, files, w, rest) ==> NoneFailed(w', Me(w0))
    decreases |rest|
  {
    if rest != [] {
      var step := rest[0];
      var next := Apply(cfg, files, w, step);
      StepShape(cfg, files, w0, client, raw, w, step);
      StepHonored(cfg, files, w, step);
      StepCaching(cfg, files, w0, client, raw, w, step);
      StepKeeping(cfg, files, w0, client, raw, w, step);
      if Clearing(w0, client, raw, w) && DeletesSucceed(rest) { StepClearing(cfg, files, w0, client, raw, w, step); }
      if NoneFailed(w, Me(w0)) && Unhindered(cfg, files, w, rest) { StepNoneFailed(cfg, files, w0, client, raw, w, step); }
      LoneRun(cfg, files, w0, client, raw, next, rest[1..], w');
    }
  }

  lemma LoneStart(cfg: Config, files: Files, w0: World, client: nat, raw: seq<PredictiveEpisode>)
    requires AllReturned(w0) && Honored(cfg, files, w0)
    ensures var w := Apply(cfg, files, w0, StartCall(client, raw));
      && Shape(cfg, files, w0, client, raw, w) && Honored(cfg, files, w) && Caching(cfg, w, Me(w0)) && Keeping(w0, w)
      && Clearing(w0, client, raw, w) && NoneFailed(w, Me(w0))
  {
    NormalizedIds(raw);
    StepHonored(cfg, files, w0, StartCall(client, raw));
  }

  /** After any run, once all calls have returned, one more call runs with no other beside it. When
      it has returned: the client's window is the usable episodes; unless the call reports an error,
      each of them is cached for the URL of the first episode that had its identifier, and nothing
      being refused no error is reported; whatever was servable and is in some window still is; and
      the blobs of entries outside the windows are gone, if their deletions succeed. */
  lemma LoneCall(cfg: Config, files: Files, run: seq<Step>, w0: World, client: nat, raw: seq<PredictiveEpisode>,
                 rest: seq<Step>, w': World)
    requires Reachable(cfg, files, run, w0) && AllReturned(w0)
    requires Leads(cfg, files, Apply(cfg, files, w0, StartCall(client, raw)), rest, w') && NoNewCall(rest) && AllReturned(w')
    ensures |w'.calls| == |w0.calls| + 1
    ensures w'.windows == if UsableIds(raw) == {} then w0.windows - {client} else w0.windows[client := UsableIds(raw)]
    ensures !w'.calls[|w0.calls|].failed ==>
      forall id, candidate :: FirstOffers(raw, id, candidate) ==> Cached(cfg, w'.store, id, candidate.url)
    ensures Unhindered(cfg, files, Apply(cfg, files, w0, StartCall(client, raw)), rest) ==> !w'.calls[|w0.calls|].failed
    ensures forall e :: Servable(w0.store, e) && e in Active(w'.windows) ==> Servable(w'.store, e)
    ensures DeletesSucceed(rest) ==>
      forall e :: e in w0.store.entries && e !in Active(w'.windows) ==> NoBlobs(w'.store, w0.store.entries[e])
    ensures Canonical(cfg, files, w'.store)
  {
    var w := Apply(cfg, files, w0, StartCall(client, raw));
    RunHonored(cfg, files, run, w0);
    LoneStart(cfg, files, w0, client, raw);
    LoneRun(cfg, files, w0, client, raw, w, rest, w');
    var call := w'.calls[Me(w0)];
    assert call.phase.Returned?;
    if !call.failed {
      forall id, candidate | FirstOffers(raw, id, candidate) ensures Cached(cfg, w'.store, id, candidate.url) {
        OfferedIsKept(call.episodes, raw, id, candidate);
      }
    }
  }

  /** So a read of any range in the head hits, with the file's bytes. */
  lemma LoneCallHits(cfg: Config, files: Files, run: seq<Step>, w0: World, client: nat, raw: seq<PredictiveEpisode>,
                     rest: seq<Step>, w': World, id: string, candidate: Candidate, start: nat, end: nat)
    requires Reachable(cfg, files, run, w0) && AllReturned(w0)
    requires Leads(cfg, files, Apply(cfg, files, w0, StartCall(client, raw)), rest, w') && NoNewCall(rest) && AllReturned(w')
    requires |w'.calls| == |w0.calls| + 1 && !w'.calls[|w0.calls|].failed
    requires FirstOffers(raw, id, candidate)
    requires start <= end < HeadLength(cfg, FileOf(cfg, files, id, candidate.url))
    ensures var result := Served(cfg, w'.store, id, candidate.url, Header(Bounded(start, end)), true, true);
      var file := FileOf(cfg, files, id, candidate.url);
      end < |file| && result.Hit? && HitOf(file, start, end, result.response)
  {
    assert Canonical(cfg, files, w'.store) && Cached(cfg, w'.store, id, candidate.url) by {
      LoneCall(cfg, files, run, w0, client, raw, rest, w');
    }
    OfferedIsNotBlank(raw, id, candidate);
    CachedHits(cfg, files, w'.store, id, candidate.url, start, end);
  }

  lemma OfferedIsNotBlank(raw: seq<PredictiveEpisode>, id: string, candidate: Candidate)
    requires FirstOffers(raw, id, candidate)
    ensures !Blank(id)
  {
    var i :| 0 <= i < |raw| && Usable(raw[i]) && TrimSpace(raw[i].episode) == id;
    TrimSpaceTrims(raw[i].episode);
  }

  lemma CachedHits(cfg: Config, files: Files, store: Store, id: string, url: string, start: nat, end: nat)
    requires Canonical(cfg, files, store) && Cached(cfg, store, id, url) && !Blank(id)
    requires start <= end < HeadLength(cfg, FileOf(cfg, files, id, url))
    ensures var result := Served(cfg, store, id, url, Header(Bounded(start, end)), true, true);
      var file := FileOf(cfg, files, id, url);
      end < |file| && result.Hit? && HitOf(file, start, end, result.response)
  {
    var file, header := FileOf(cfg, files, id, url), Header(Bounded(start, end));
    assert CanonicalEntry(cfg, files, id, store.entries[id]);
    ParsePrinted(Bounded(start, end), |file|);
    HitExactly(cfg, files, store, id, url, header);
    ServeExact(cfg, files, id, store.entries[id], url, header, store.blobs, true);
  }
}
