/** A worker pool over an unbuffered channel: a producer hands out the items in order, each worker
    takes one at a time, and the results are accumulated as they complete, in any order. */
module WorkerPool {

  datatype Worker = Idle | Busy(item: nat) | Exited

  /** next is the item the producer sends next; order lists the items completed so far. */
  datatype Pool<A> = Pool(next: nat, closed: bool, workers: seq<Worker>, acc: A, order: seq<nat>, returned: bool)

  datatype Step =
    | Send(worker: nat)      // the producer's send meets an idle worker's receive
    | Complete(worker: nat)  // a worker finishes its item and records its result
    | Close                  // the producer closes the channel after the last send
    | Exit(worker: nat)      // an idle worker sees the closed channel
    | Return                 // the wait group is done

  function Start<A>(workers: nat, acc: A): Pool<A> {
    Pool(0, false, seq(workers, _ => Idle), acc, [], false)
  }

  ghost predicate AllExited(workers: seq<Worker>) {
    forall w :: 0 <= w < |workers| ==> workers[w].Exited?
  }

  /** n is the number of items. */
  ghost predicate Enabled<A>(n: nat, p: Pool<A>, step: Step) {
    match step
    case Send(w) => p.next < n && w < |p.workers| && p.workers[w].Idle?
    case Complete(w) => w < |p.workers| && p.workers[w].Busy?
    case Close => p.next == n && !p.closed
    case Exit(w) => p.closed && w < |p.workers| && p.workers[w].Idle?
    case Return => p.closed && AllExited(p.workers) && !p.returned
  }

  /** record is what completing an item does to the accumulated result. */
  function Apply<A>(n: nat, record: (A, nat) -> A, p: Pool<A>, step: Step): Pool<A>
    requires Enabled(n, p, step)
  {
    match step
    case Send(w) => p.(next := p.next + 1, workers := p.workers[w := Busy(p.next)])
    case Complete(w) =>
      var item := p.workers[w].item;
      p.(workers := p.workers[w := Idle], acc := record(p.acc, item), order := p.order + [item])
    case Close => p.(closed := true)
    case Exit(w) => p.(workers := p.workers[w := Exited])
    case Return => p.(returned := true)
  }

  ghost predicate Next<A>(n: nat, record: (A, nat) -> A, p: Pool<A>, step: Step, p': Pool<A>) {
    Enabled(n, p, step) && p' == Apply(n, record, p, step)
  }

  /** A schedule: a sequence of enabled steps from the start. */
  ghost predicate Reachable<A(!new)>(n: nat, record: (A, nat) -> A, start: Pool<A>, run: seq<Step>, p: Pool<A>) {
    if run == [] then p == start
    else
      var front, last := run[..|run| - 1], run[|run| - 1];
      exists before :: Next(n, record, before, last, p) && Reachable(n, record, start, front, before)
  }

  // ---------------------------------------------------------------- results so far

  function Fold<A>(record: (A, nat) -> A, acc: A, order: seq<nat>): A {
    if order == [] then acc
    else record(Fold(record, acc, order[..|order| - 1]), order[|order| - 1])
  }

  ghost predicate Distinct(s: seq<nat>) {
    forall i, j :: 0 <= i < j < |s| ==> s[i] != s[j]
  }

  function BusyWeight(w: Worker): nat {
    if w.Busy? then 1 else 0
  }

  function WorkLeft(w: Worker): nat {
    match w case Busy(_) => 2 case Idle => 1 case Exited => 0
  }

  function Total(weight: Worker -> nat, workers: seq<Worker>): nat {
    if workers == [] then 0 else Total(weight, workers[..|workers| - 1]) + weight(workers[|workers| - 1])
  }

  lemma {:induction false} TotalUpdate(weight: Worker -> nat, workers: seq<Worker>, w: nat, worker: Worker)
    requires w < |workers|
    ensures Total(weight, workers[w := worker]) == Total(weight, workers) - weight(workers[w]) + weight(worker)
  {
    var front := workers[..|workers| - 1];
    if w < |front| {
      TotalUpdate(weight, front, w, worker);
      assert workers[w := worker][..|workers| - 1] == front[w := worker];
    } else {
      assert workers[w := worker][..|workers| - 1] == front;
    }
  }

  lemma {:induction false} TotalBounded(weight: Worker -> nat, workers: seq<Worker>, most: nat)
    requires forall w :: weight(w) <= most
    ensures Total(weight, workers) <= most * |workers|
  {
    if workers != [] {
      TotalBounded(weight, workers[..|workers| - 1], most);
    }
  }

  lemma {:induction false} TotalIdle(weight: Worker -> nat, workers: nat)
    ensures Total(weight, seq(workers, _ => Idle)) == weight(Idle) * workers
  {
    if workers > 0 {
      TotalIdle(weight, workers - 1);
      assert seq(workers, _ => Idle)[..workers - 1] == seq(workers - 1, _ => Idle);
    }
  }

  /** An item is in the hands of a worker. */
  ghost predicate InFlight(workers: seq<Worker>, item: nat) {
    exists w :: 0 <= w < |workers| && workers[w] == Busy(item)
  }

  /** Items sent are completed or with exactly one worker; items not sent are neither. */
  ghost predicate Valid<A>(n: nat, record: (A, nat) -> A, start: Pool<A>, p: Pool<A>) {
    && |p.workers| == |start.workers|
    && p.next <= n
    && (p.closed ==> p.next == n)
    && (p.returned ==> p.closed && AllExited(p.workers))
    && (forall w :: 0 <= w < |p.workers| && p.workers[w].Exited? ==> p.closed)
    && Distinct(p.order)
    && (forall item :: item in p.order ==> item < p.next)
    && (forall w :: 0 <= w < |p.workers| && p.workers[w].Busy? ==> p.workers[w].item < p.next && p.workers[w].item !in p.order)
    && (forall v, w :: 0 <= v < w < |p.workers| && p.workers[v].Busy? ==> p.workers[v] != p.workers[w])
    && (forall item :: 0 <= item < p.next ==> item in p.order || InFlight(p.workers, item))
    && p.next == |p.order| + Total(BusyWeight, p.workers)
    && p.acc == Fold(record, start.acc, p.order)
  }

  lemma StillInFlight(workers: seq<Worker>, w: nat, worker: Worker, item: nat)
    requires w < |workers| && InFlight(workers, item) && workers[w] != Busy(item)
    ensures InFlight(workers[w := worker], item)
  {
    var v :| 0 <= v < |workers| && workers[v] == Busy(item);
    assert workers[w := worker][v] == Busy(item);
  }

  lemma SendValid<A>(n: nat, record: (A, nat) -> A, start: Pool<A>, p: Pool<A>, w: nat)
    requires Valid(n, record, start, p) && Enabled(n, p, Send(w))
    ensures Valid(n, record, start, Apply(n, record, p, Send(w)))
  {
    var p' := Apply(n, record, p, Send(w));
    TotalUpdate(BusyWeight, p.workers, w, Busy(p.next));
    assert p'.workers[w] == Busy(p.next);
    forall item | 0 <= item < p'.next ensures item in p'.order || InFlight(p'.workers, item) {
      if item < p.next && item !in p.order {
        StillInFlight(p.workers, w, Busy(p.next), item);
      }
    }
  }

  lemma CompleteValid<A>(n: nat, record: (A, nat) -> A, start: Pool<A>, p: Pool<A>, w: nat)
    requires Valid(n, record, start, p) && Enabled(n, p, Complete(w))
    ensures Valid(n, record, start, Apply(n, record, p, Complete(w)))
  {
    var p' := Apply(n, record, p, Complete(w));
    TotalUpdate(BusyWeight, p.workers, w, Idle);
    assert p'.order[..|p.order|] == p.order;
    forall item | 0 <= item < p'.next ensures item in p'.order || InFlight(p'.workers, item) {
      if item !in p.order && p.workers[w] != Busy(item) {
        StillInFlight(p.workers, w, Idle, item);
      }
    }
  }

  lemma ExitValid<A>(n: nat, record: (A, nat) -> A, start: Pool<A>, p: Pool<A>, w: nat)
    requires Valid(n, record, start, p) && Enabled(n, p, Exit(w))
    ensures Valid(n, record, start, Apply(n, record, p, Exit(w)))
  {
    var p' := Apply(n, record, p, Exit(w));
    TotalUpdate(BusyWeight, p.workers, w, Exited);
    forall item | 0 <= item < p'.next ensures item in p'.order || InFlight(p'.workers, item) {
      if item !in p.order {
        StillInFlight(p.workers, w, Exited, item);
      }
    }
  }

  lemma StepValid<A>(n: nat, record: (A, nat) -> A, start: Pool<A>, p: Pool<A>, step: Step)
    requires Valid(n, record, start, p) && Enabled(n, p, step)
    ensures Valid(n, record, start, Apply(n, record, p, step))
  {
    match step
    case Send(w) => SendValid(n, record, start, p, w);
    case Complete(w) => CompleteValid(n, record, start, p, w);
    case Exit(w) => ExitValid(n, record, start, p, w);
    case _ =>
  }

  lemma {:induction false} RunValid<A(!new)>(n: nat, record: (A, nat) -> A, workers: nat, acc: A, run: seq<Step>, p: Pool<A>)
    requires Reachable(n, record, Start(workers, acc), run, p)
    ensures Valid(n, record, Start(workers, acc), p)
  {
    if run == [] {
      TotalIdle(BusyWeight, workers);
    } else {
      var front, last := run[..|run| - 1], run[|run| - 1];
      var before :| Next(n, record, before, last, p) && Reachable(n, record, Start(workers, acc), front, before);
      RunValid(n, record, workers, acc, front, before);
      StepValid(n, record, Start(workers, acc), before, last);
    }
  }

  // ---------------------------------------------------------------- progress

  /** Until it returns, the pool can always take a step, given at least one worker. */
  lemma NoDeadlock<A(!new)>(n: nat, record: (A, nat) -> A, workers: nat, acc: A, run: seq<Step>, p: Pool<A>)
      returns (step: Step)
    requires Reachable(n, record, Start(workers, acc), run, p)
    requires workers >= 1 && !p.returned
    ensures Enabled(n, p, step)
  {
    RunValid(n, record, workers, acc, run, p);
    if exists w :: 0 <= w < |p.workers| && p.workers[w].Busy? {
      var w :| 0 <= w < |p.workers| && p.workers[w].Busy?;
      step := Complete(w);
    } else if p.next < n {
      assert !p.workers[0].Exited?;
      step := Send(0);
    } else if !p.closed {
      step := Close;
    } else if w :| 0 <= w < |p.workers| && p.workers[w].Idle? {
      step := Exit(w);
    } else {
      step := Return;
    }
  }

  /** What is left to do: each step takes some of it away. */
  function Remaining<A>(n: nat, p: Pool<A>): int {
    2 * (n - p.next) + Total(WorkLeft, p.workers) + (if p.closed then 0 else 1) + (if p.returned then 0 else 1)
  }

  lemma StepsDecrease<A>(n: nat, record: (A, nat) -> A, p: Pool<A>, step: Step)
    requires p.next <= n && Enabled(n, p, step)
    ensures 0 <= Remaining(n, Apply(n, record, p, step)) < Remaining(n, p)
  {
    match step
    case Send(w) => TotalUpdate(WorkLeft, p.workers, w, Busy(p.next));
    case Complete(w) => TotalUpdate(WorkLeft, p.workers, w, Idle);
    case Exit(w) => TotalUpdate(WorkLeft, p.workers, w, Exited);
    case _ =>
  }

  /** Every schedule is finite: it has at most this many steps. */
  lemma {:induction false} SchedulesAreBounded<A(!new)>(n: nat, record: (A, nat) -> A, workers: nat, acc: A, run: seq<Step>, p: Pool<A>)
    requires Reachable(n, record, Start(workers, acc), run, p)
    ensures |run| + Remaining(n, p) <= 2 * n + workers + 2 && Remaining(n, p) >= 0
  {
    if run == [] {
      TotalIdle(WorkLeft, workers);
    } else {
      var front, last := run[..|run| - 1], run[|run| - 1];
      var before :| Next(n, record, before, last, p) && Reachable(n, record, Start(workers, acc), front, before);
      RunValid(n, record, workers, acc, front, before);
      SchedulesAreBounded(n, record, workers, acc, front, before);
      StepsDecrease(n, record, before, last);
    }
  }

  // ---------------------------------------------------------------- the order does not matter

  function Upto(n: nat): seq<nat> {
    seq(n, i => i)
  }

  ghost predicate Commutes<A(!new)>(record: (A, nat) -> A) {
    forall acc, i, j :: i != j ==> record(record(acc, i), j) == record(record(acc, j), i)
  }

  /** Moving one item to the end does not change the result. */
  lemma {:induction false} MoveToEnd<A(!new)>(record: (A, nat) -> A, acc: A, order: seq<nat>, k: nat)
    requires Commutes(record) && Distinct(order) && k < |order|
    ensures Fold(record, acc, order) == record(Fold(record, acc, order[..k] + order[k + 1..]), order[k])
  {
    var front, last := order[..|order| - 1], order[|order| - 1];
    if k == |order| - 1 {
      assert order[..k] + order[k + 1..] == front;
    } else {
      MoveToEnd(record, acc, front, k);
      var rest := order[..k] + order[k + 1..];
      assert front[..k] + front[k + 1..] == rest[..|rest| - 1];
      assert front[k] == order[k] && rest[|rest| - 1] == last;
    }
  }

  ghost predicate Permutes(order: seq<nat>, n: nat) {
    Distinct(order) && forall item :: item in order <==> 0 <= item < n
  }

  lemma WithoutLast(order: seq<nat>, n: nat, k: nat)
    requires n > 0 && Permutes(order, n) && k < |order| && order[k] == n - 1
    ensures Permutes(order[..k] + order[k + 1..], n - 1)
  {
    var rest := order[..k] + order[k + 1..];
    assert forall i :: 0 <= i < |rest| ==> rest[i] == order[if i < k then i else i + 1];
    forall item | item in rest ensures 0 <= item < n - 1 {
      var i :| 0 <= i < |rest| && rest[i] == item;
      assert item == order[if i < k then i else i + 1] && item in order;
    }
    forall item | 0 <= item < n - 1 ensures item in rest {
      assert item in order;
      var i :| 0 <= i < |order| && order[i] == item;
      assert item == rest[if i < k then i else i - 1];
    }
  }

  /** Completing the items 0 to n - 1 in any order gives what going through them in order gives. */
  lemma {:induction false} AnyOrder<A(!new)>(record: (A, nat) -> A, acc: A, order: seq<nat>, n: nat)
    requires Commutes(record) && Permutes(order, n)
    ensures |order| == n && Fold(record, acc, order) == Fold(record, acc, Upto(n))
    decreases n
  {
    assert order == [] || order[0] in order;
    if n == 0 {
      assert order == [];
    } else {
      assert n - 1 in order;
      var k :| 0 <= k < |order| && order[k] == n - 1;
      MoveToEnd(record, acc, order, k);
      WithoutLast(order, n, k);
      AnyOrder(record, acc, order[..k] + order[k + 1..], n - 1);
      assert Upto(n)[..n - 1] == Upto(n - 1);
    }
  }

  /** Once the pool has returned, under any schedule, every item was processed exactly once, and
      the result is that of a sequential loop over the items. */
  lemma PoolIsSequential<A(!new)>(n: nat, record: (A, nat) -> A, workers: nat, acc: A, run: seq<Step>, p: Pool<A>)
    requires Commutes(record)
    requires Reachable(n, record, Start(workers, acc), run, p) && p.returned
    ensures |p.order| == n && Permutes(p.order, n)
    ensures p.acc == Fold(record, acc, Upto(n))
  {
    RunValid(n, record, workers, acc, run, p);
    AnyOrder(record, acc, p.order, n);
  }

  /** At any moment the items handed out and not completed are at most as many as the workers. */
  lemma InFlightBounded<A(!new)>(n: nat, record: (A, nat) -> A, workers: nat, acc: A, run: seq<Step>, p: Pool<A>)
    requires Reachable(n, record, Start(workers, acc), run, p)
    ensures 0 <= p.next - |p.order| <= workers
  {
    RunValid(n, record, workers, acc, run, p);
    TotalBounded(BusyWeight, p.workers, 1);
  }
}
