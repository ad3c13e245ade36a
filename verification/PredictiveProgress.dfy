/** Every UpdateWindow call gets to its end: it can always take a step of its own, whatever the
    others do, and each step of a call, a goroutine or a reader leaves less to do. */
module PredictiveProgress {
  import opened Basics
  import opened MediaCache
  import opened PredictiveWindow
  import opened Sums

  /** The step is one of this call, or of its goroutines. */
  predicate OwnStep(pid: nat, step: Step) {
    match step
    case RunCall(p, _) => p == pid
    case Prune(p, _) => p == pid
    case RunJob(p, _, _) => p == pid
    case _ => false
  }

  /** No call waits for another one: until it has returned it can take a step, in any state. */
  lemma CallCanStep(cfg: Config, files: Files, w: World, pid: nat) returns (step: Step)
    requires pid < |w.calls| && !w.calls[pid].phase.Returned?
    ensures Enabled(cfg, files, w, step) && OwnStep(pid, step)
  {
    step := RunCall(pid, true);
    match w.calls[pid].phase
    case Prewarming(jobs) =>
      if i :| 0 <= i < |jobs| && !jobs[i].pc.Finished? {
        step := RunJob(pid, i, Answer(false, (url, header) => None));
      }
    case Pruning(_, todo) =>
      if todo != {} {
        var episode :| episode in todo;
        step := Prune(pid, episode);
      }
    case _ =>
  }

  // ---------------------------------------------------------------- what is left to do

  function JobWork(jobs: seq<Job>): nat -> nat {
    (i: nat) => if i < |jobs| then Remaining(jobs[i].pc) else 0
  }

  function JobsWork(jobs: seq<Job>): nat {
    Sum(|jobs|, JobWork(jobs))
  }

  /** Steps up to the snapshot; they do not depend on what other calls do. */
  function BeforeSnapshot(call: Call): nat {
    match call.phase
    case SetWindow => 8 * |call.episodes| + 4
    case Prewarming(jobs) => JobsWork(jobs) + 3
    case ReadActive => 2
    case TakeSnapshot(_) => 1
    case _ => 0
  }

  /** Steps after the snapshot: at most three for each episode in it. */
  function AfterSnapshot(call: Call): nat {
    match call.phase
    case Pruning(_, todo) => 3 * |todo| + 1
    case DeleteHead(_, todo, _) => 3 * |todo| + 3
    case DeleteTail(_, todo, _) => 3 * |todo| + 2
    case _ => 0
  }

  function ReaderWork(reader: Reader): nat {
    match reader case Asking(_, _, _) => 2 case Holding(_, _, _, _) => 1 case Answered(_, _, _, _) => 0
  }

  function Befores(w: World): nat -> nat {
    (pid: nat) => if pid < |w.calls| then BeforeSnapshot(w.calls[pid]) else 0
  }

  function Afters(w: World): nat -> nat {
    (pid: nat) => if pid < |w.calls| then AfterSnapshot(w.calls[pid]) else 0
  }

  function Readings(w: World): nat -> nat {
    (rid: nat) => if rid < |w.readers| then ReaderWork(w.readers[rid]) else 0
  }

  function First(w: World): nat {
    Sum(|w.calls|, Befores(w)) + Sum(|w.readers|, Readings(w))
  }

  function Second(w: World): nat {
    Sum(|w.calls|, Afters(w))
  }

  /** Less is left in the later world: less before the snapshots and in readers, or as much of
      that and less after the snapshots. */
  predicate LessLeft(w: World, w': World) {
    First(w') < First(w) || (First(w') == First(w) && Second(w') < Second(w))
  }

  predicate NoArrival(step: Step) {
    !step.StartCall? && !step.StartReader?
  }

  lemma JobStepDrops(cfg: Config, store: Store, job: Job, answer: Answer)
    requires !job.pc.Finished?
    ensures Remaining(JobStep(cfg, store, job, answer).1) < Remaining(job.pc)
  {
  }

  lemma {:induction false} FreshJobs(n: nat, weight: nat -> nat)
    requires forall i :: 0 <= i < n ==> weight(i) == 8
    ensures Sum(n, weight) == 8 * n
  {
    if n > 0 { FreshJobs(n - 1, weight); }
  }

  lemma NewJobsWork(episodes: seq<PredictiveEpisode>)
    ensures JobsWork(NewJobs(episodes)) == 8 * |episodes|
  {
    var jobs := NewJobs(episodes);
    FreshJobs(|jobs|, JobWork(jobs));
  }

  lemma JobsWorkDrops(jobs: seq<Job>, k: nat, pc: JobPc)
    requires k < |jobs| && Remaining(pc) < Remaining(jobs[k].pc)
    ensures JobsWork(jobs[k := jobs[k].(pc := pc)]) < JobsWork(jobs)
  {
    var jobs' := jobs[k := jobs[k].(pc := pc)];
    SumChange(|jobs|, JobWork(jobs), JobWork(jobs'), k);
  }

  /** A step that changes one call, for the better. */
  lemma CallDrops(w: World, w': World, pid: nat, call: Call)
    requires pid < |w.calls| && w'.calls == w.calls[pid := call] && w'.readers == w.readers
    requires BeforeSnapshot(call) < BeforeSnapshot(w.calls[pid])
      || (BeforeSnapshot(call) == BeforeSnapshot(w.calls[pid]) && AfterSnapshot(call) < AfterSnapshot(w.calls[pid]))
    ensures LessLeft(w, w')
  {
    SumChange(|w.calls|, Befores(w), Befores(w'), pid);
    SumChange(|w.calls|, Afters(w), Afters(w'), pid);
    SumSame(|w.readers|, Readings(w), Readings(w'));
  }

  lemma ReaderDrops(w: World, w': World, rid: nat, reader: Reader)
    requires rid < |w.readers| && w'.readers == w.readers[rid := reader] && w'.calls == w.calls
    requires ReaderWork(reader) < ReaderWork(w.readers[rid])
    ensures LessLeft(w, w')
  {
    SumSame(|w.calls|, Befores(w), Befores(w'));
    SumChange(|w.readers|, Readings(w), Readings(w'), rid);
  }

  lemma RunCallDrops(cfg: Config, files: Files, w: World, pid: nat, ok: bool)
    requires Enabled(cfg, files, w, RunCall(pid, ok))
    ensures LessLeft(w, CallStep(w, pid, ok))
  {
    if w.calls[pid].phase.SetWindow? { NewJobsWork(w.calls[pid].episodes); }
    CallDrops(w, CallStep(w, pid, ok), pid, CallStep(w, pid, ok).calls[pid]);
  }

  lemma RunJobDrops(cfg: Config, files: Files, w: World, pid: nat, job: nat, answer: Answer)
    requires Enabled(cfg, files, w, RunJob(pid, job, answer))
    ensures LessLeft(w, Apply(cfg, files, w, RunJob(pid, job, answer)))
  {
    var w' := Apply(cfg, files, w, RunJob(pid, job, answer));
    var jobs := w.calls[pid].phase.jobs;
    JobStepDrops(cfg, w.store, jobs[job], answer);
    JobsWorkDrops(jobs, job, JobStep(cfg, w.store, jobs[job], answer).1);
    CallDrops(w, w', pid, w'.calls[pid]);
  }

  /** Each step of a call, a goroutine or a reader leaves less to do, though other calls' prewarms
      may add entries for a later snapshot: without new arrivals every run is finite. */
  lemma EachStepLeavesLess(cfg: Config, files: Files, w: World, step: Step)
    requires Enabled(cfg, files, w, step) && NoArrival(step)
    ensures LessLeft(w, Apply(cfg, files, w, step))
  {
    var w' := Apply(cfg, files, w, step);
    match step
    case RunCall(pid, ok) =>
      RunCallDrops(cfg, files, w, pid, ok);
    case Prune(pid, episode) =>
      CallDrops(w, w', pid, w'.calls[pid]);
    case RunJob(pid, job, answer) =>
      RunJobDrops(cfg, files, w, pid, job, answer);
    case RunReader(rid, _) =>
      ReaderDrops(w, w', rid, w'.readers[rid]);
  }

  predicate AllReturned(w: World) {
    forall pid :: 0 <= pid < |w.calls| ==> w.calls[pid].phase.Returned?
  }

  /** A run that goes on from some state. */
  ghost predicate Leads(cfg: Config, files: Files, w: World, rest: seq<Step>, w': World)
    decreases |rest|
  {
    if rest == [] then w' == w
    else Enabled(cfg, files, w, rest[0]) && Leads(cfg, files, Apply(cfg, files, w, rest[0]), rest[1..], w')
  }

  /** One step more of some call that has not returned. */
  lemma OneMore(cfg: Config, files: Files, w: World) returns (step: Step)
    requires !AllReturned(w)
    ensures Enabled(cfg, files, w, step) && LessLeft(w, Apply(cfg, files, w, step))
  {
    var pid :| 0 <= pid < |w.calls| && !w.calls[pid].phase.Returned?;
    step := CallCanStep(cfg, files, w, pid);
    EachStepLeavesLess(cfg, files, w, step);
  }

  /** From every state all calls can be run to their end. */
  lemma CallsCanReturn(cfg: Config, files: Files, w: World) returns (rest: seq<Step>, w': World)
    ensures Leads(cfg, files, w, rest, w') && AllReturned(w')
    decreases First(w), Second(w)
  {
    if AllReturned(w) {
      rest, w' := [], w;
    } else {
      var step := OneMore(cfg, files, w);
      var later;
      later, w' := CallsCanReturn(cfg, files, Apply(cfg, files, w, step));
      rest := [step] + later;
      assert rest[0] == step && rest[1..] == later;
    }
  }

  lemma {:induction false} LeadsAttended(cfg: Config, files: Files, w: World, rest: seq<Step>, w': World)
    requires Attended(w) && Leads(cfg, files, w, rest, w')
    ensures Attended(w')
    decreases |rest|
  {
    if rest != [] {
      StepAttended(cfg, files, w, rest[0]);
      LeadsAttended(cfg, files, Apply(cfg, files, w, rest[0]), rest[1..], w');
    }
  }

  /** After any run, with calls in whatever state, all of them can be run to their end, and then
      every stored episode is in some client's window. */
  lemma QuiescenceIsReached(cfg: Config, files: Files, run: seq<Step>, w: World) returns (rest: seq<Step>, w': World)
    requires Reachable(cfg, files, run, w)
    ensures Leads(cfg, files, w, rest, w') && AllReturned(w')
    ensures InWindows(w')
  {
    RunAttended(cfg, files, run, w);
    rest, w' := CallsCanReturn(cfg, files, w);
    LeadsAttended(cfg, files, w, rest, w');
    AttendedAtRest(w');
  }
}
