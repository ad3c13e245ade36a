/** What callers of the coalescing fetcher are answered, in terms of what the upstream replied. */
module FetchAnswers {
  import opened Basics
  import opened CoalescingFetch

  /** The step is a flight's, and fetches: its reply is the upstream's answer for the key. */
  ghost predicate FetchesAt(cfg: Config, steps: seq<Step>, i: nat, key: string) {
    && i < |steps| && steps[i].Fly? && steps[i].key == key
    && Run(cfg, steps[..i]).Some?
    && var before := Run(cfg, steps[..i]).value;
    key in before.flights && before.flights[key].stage.Fetching?
  }

  /** The step is a caller's own, and fetches directly. */
  ghost predicate AsksAt(cfg: Config, steps: seq<Step>, i: nat, c: nat) {
    && i < |steps| && steps[i].Advance? && steps[i].caller == c
    && Run(cfg, steps[..i]).Some?
    && var before := Run(cfg, steps[..i]).value;
    c < |before.callers| && before.callers[c].pc.Direct?
  }

  /** The upstream replied so to a flight of this key. */
  ghost predicate Came(cfg: Config, steps: seq<Step>, key: string, p: Reply -> bool) {
    exists i: nat :: FetchesAt(cfg, steps, i, key) && p(steps[i].reply)
  }

  /** The upstream replied so to a direct fetch of the caller. */
  ghost predicate Replied(cfg: Config, steps: seq<Step>, c: nat, reply: Reply) {
    exists i: nat :: AsksAt(cfg, steps, i, c) && steps[i].reply == reply
  }

  function HeldBy(value: Buffer, maxBytes: int): Reply -> bool {
    (reply: Reply) => Bufferable(reply, maxBytes) && Holding(reply, value)
  }

  function Failing(maxBytes: int): Reply -> bool {
    (reply: Reply) => Fails(reply, maxBytes)
  }

  function Refusing(maxBytes: int): Reply -> bool {
    (reply: Reply) => Refused(reply, maxBytes)
  }

  lemma CameLater(cfg: Config, steps: seq<Step>, last: Step)
    ensures forall key, p :: Came(cfg, steps, key, p) ==> Came(cfg, steps + [last], key, p)
    ensures forall c, reply :: Replied(cfg, steps, c, reply) ==> Replied(cfg, steps + [last], c, reply)
  {
    var longer := steps + [last];
    forall key, p | Came(cfg, steps, key, p) ensures Came(cfg, longer, key, p) {
      var i: nat :| FetchesAt(cfg, steps, i, key) && p(steps[i].reply);
      assert longer[..i] == steps[..i] && longer[i] == steps[i];
      assert FetchesAt(cfg, longer, i, key);
    }
    forall c, reply | Replied(cfg, steps, c, reply) ensures Replied(cfg, longer, c, reply) {
      var i: nat :| AsksAt(cfg, steps, i, c) && steps[i].reply == reply;
      assert longer[..i] == steps[..i] && longer[i] == steps[i];
      assert AsksAt(cfg, longer, i, c);
    }
  }

  /** The caller has no key, or the upstream's reply for its key had to be streamed. */
  ghost predicate GoesDirect(cfg: Config, steps: seq<Step>, caller: Caller) {
    var key := cfg.keyOf(caller.url, caller.range);
    key.None? || Came(cfg, steps, key.value, Refusing(cfg.maxBytes))
  }

  ghost predicate ExplainedCaller(cfg: Config, steps: seq<Step>, c: nat, caller: Caller) {
    var key := cfg.keyOf(caller.url, caller.range);
    match caller.pc
    case Direct => GoesDirect(cfg, steps, caller)
    case Done(Live(reply)) => reply.Reply? && GoesDirect(cfg, steps, caller) && Replied(cfg, steps, c, reply)
    case Done(FetchError) =>
      || (key.Some? && Came(cfg, steps, key.value, Failing(cfg.maxBytes)))
      || (GoesDirect(cfg, steps, caller) && Replied(cfg, steps, c, NoReply))
    case _ => true
  }

  ghost predicate ExplainedResult(cfg: Config, steps: seq<Step>, w: World, id: nat)
    requires id in w.results
  {
    match w.results[id]
    case Shared(_, _) => true
    case FlightError => id < |w.flightKeys| && Came(cfg, steps, w.flightKeys[id], Failing(cfg.maxBytes))
    case FlightNotBufferable => id < |w.flightKeys| && Came(cfg, steps, w.flightKeys[id], Refusing(cfg.maxBytes))
  }

  ghost predicate ExplainedEvent(cfg: Config, steps: seq<Step>, e: Event) {
    e.Fetched? ==> Came(cfg, steps, e.key, HeldBy(e.value, cfg.maxBytes))
  }

  ghost predicate Explained(cfg: Config, steps: seq<Step>, w: World) {
    && (forall e :: e in w.log ==> ExplainedEvent(cfg, steps, e))
    && (forall id :: id in w.results ==> ExplainedResult(cfg, steps, w, id))
    && (forall c :: 0 <= c < |w.callers| ==> ExplainedCaller(cfg, steps, c, w.callers[c]))
  }

  /** What was explained before a step is still explained, where it has not changed. */
  lemma StillExplained(cfg: Config, steps: seq<Step>, last: Step, w: World, w': World)
    requires Explained(cfg, steps, w)
    ensures forall e :: e in w.log ==> ExplainedEvent(cfg, steps + [last], e)
    ensures w.flightKeys <= w'.flightKeys ==>
      forall id :: id in w.results && id in w'.results && w'.results[id] == w.results[id] ==> ExplainedResult(cfg, steps + [last], w', id)
    ensures forall c :: 0 <= c < |w.callers| && c < |w'.callers| && w'.callers[c] == w.callers[c] ==>
      ExplainedCaller(cfg, steps + [last], c, w'.callers[c])
  {
    CameLater(cfg, steps, last);
    forall id | id in w.results && id in w'.results && w'.results[id] == w.results[id] && w.flightKeys <= w'.flightKeys
      ensures ExplainedResult(cfg, steps + [last], w', id)
    {
      assert ExplainedResult(cfg, steps, w, id);
    }
    forall c | 0 <= c < |w.callers| && c < |w'.callers| && w'.callers[c] == w.callers[c]
      ensures ExplainedCaller(cfg, steps + [last], c, w'.callers[c])
    {
      assert ExplainedCaller(cfg, steps, c, w.callers[c]);
    }
  }

  /** A step that changes one caller at most, or adds to the log or the results. */
  lemma ChangeExplained(cfg: Config, steps: seq<Step>, last: Step, w: World, w': World)
    requires Explained(cfg, steps, w) && w.flightKeys <= w'.flightKeys && |w.callers| <= |w'.callers|
    requires forall e :: e in w'.log ==> e in w.log || ExplainedEvent(cfg, steps + [last], e)
    requires forall id :: id in w'.results ==>
      (id in w.results && w'.results[id] == w.results[id]) || ExplainedResult(cfg, steps + [last], w', id)
    requires forall c :: 0 <= c < |w'.callers| ==>
      (c < |w.callers| && w'.callers[c] == w.callers[c]) || ExplainedCaller(cfg, steps + [last], c, w'.callers[c])
    ensures Explained(cfg, steps + [last], w')
  {
    StillExplained(cfg, steps, last, w, w');
  }

  lemma LandChange(w: World, key: string, result: FlightResult)
    requires key in w.flights
    ensures var w' := Land(w, key, result);
      && w'.callers == w.callers && w'.log == w.log && w'.flightKeys == w.flightKeys
      && forall id :: id in w'.results ==> (id in w.results && w'.results[id] == w.results[id]) || (id == w.flights[key].id && w'.results[id] == result)
  {
  }

  /** A flight lands with a reply that failed or was refused. */
  lemma LandExplained(cfg: Config, steps: seq<Step>, key: string, reply: Reply, w: World, result: FlightResult)
    requires Run(cfg, steps) == Some(w) && Explained(cfg, steps, w) && key in w.flights && ValidFlight(cfg, w, key)
    requires w.flights[key].stage.Fetching?
    requires (result == FlightError && Fails(reply, cfg.maxBytes)) || (result == FlightNotBufferable && Refused(reply, cfg.maxBytes))
    ensures Explained(cfg, steps + [Fly(key, reply)], Land(w, key, result))
  {
    var last := Fly(key, reply);
    var longer, w' := steps + [last], Land(w, key, result);
    LandChange(w, key, result);
    FetchIsThere(cfg, steps, w, key, reply);
    assert Failing(cfg.maxBytes)(reply) <==> Fails(reply, cfg.maxBytes);
    assert Refusing(cfg.maxBytes)(reply) <==> Refused(reply, cfg.maxBytes);
    assert ExplainedResult(cfg, longer, w', w.flights[key].id);
    ChangeExplained(cfg, steps, last, w, w');
  }

  lemma FetchIsThere(cfg: Config, steps: seq<Step>, w: World, key: string, reply: Reply)
    requires Run(cfg, steps) == Some(w) && key in w.flights && w.flights[key].stage.Fetching?
    ensures FetchesAt(cfg, steps + [Fly(key, reply)], |steps|, key) && (steps + [Fly(key, reply)])[|steps|].reply == reply
    ensures forall p: Reply -> bool :: p(reply) ==> Came(cfg, steps + [Fly(key, reply)], key, p)
  {
    var longer := steps + [Fly(key, reply)];
    assert longer[..|steps|] == steps && longer[|steps|] == Fly(key, reply);
    forall p: Reply -> bool | p(reply) ensures Came(cfg, longer, key, p) {
      assert FetchesAt(cfg, longer, |steps|, key) && p(longer[|steps|].reply);
    }
  }

  /** A flight has its reply in a buffer. */
  lemma FetchedExplained(cfg: Config, steps: seq<Step>, key: string, reply: Reply, w: World, buffer: Buffer)
    requires Run(cfg, steps) == Some(w) && Explained(cfg, steps, w) && key in w.flights && w.flights[key].stage.Fetching?
    requires Bufferable(reply, cfg.maxBytes) && Holding(reply, buffer)
    ensures Explained(cfg, steps + [Fly(key, reply)], WithFetched(w, key, buffer))
  {
    var w' := WithFetched(w, key, buffer);
    FetchIsThere(cfg, steps, w, key, reply);
    assert HeldBy(buffer, cfg.maxBytes)(reply);
    assert ExplainedEvent(cfg, steps + [Fly(key, reply)], w'.log[|w.log|]);
    ChangeExplained(cfg, steps, Fly(key, reply), w, w');
  }

  lemma FetchingExplained(cfg: Config, steps: seq<Step>, w: World, key: string, reply: Reply)
    requires Run(cfg, steps) == Some(w) && Explained(cfg, steps, w) && key in w.flights && ValidFlight(cfg, w, key)
    requires w.flights[key].stage.Fetching?
    ensures Explained(cfg, steps + [Fly(key, reply)], FlightStep(cfg, w, key, reply))
  {
    if reply.NoReply? {
      LandExplained(cfg, steps, key, reply, w, FlightError);
    } else {
      ReadBufferedIs(reply, cfg.maxBytes);
      match ReadBuffered(reply, cfg.maxBytes)
      case NotBufferable => LandExplained(cfg, steps, key, reply, w, FlightNotBufferable);
      case ReadError => LandExplained(cfg, steps, key, reply, w, FlightError);
      case Read(buffer) => FetchedExplained(cfg, steps, key, reply, w, buffer);
    }
  }

  /** Landing with a buffer, or going on to fetch, takes no explaining. */
  lemma SharedExplained(cfg: Config, steps: seq<Step>, w: World, key: string, reply: Reply)
    requires Explained(cfg, steps, w) && key in w.flights && !w.flights[key].stage.Fetching?
    ensures Explained(cfg, steps + [Fly(key, reply)], FlightStep(cfg, w, key, reply))
  {
    var w' := FlightStep(cfg, w, key, reply);
    assert w'.log == w.log && w'.callers == w.callers && w'.flightKeys == w.flightKeys;
    assert forall id :: id in w'.results ==> (id in w.results && w'.results[id] == w.results[id]) || w'.results[id].Shared?;
    ChangeExplained(cfg, steps, Fly(key, reply), w, w');
  }

  lemma FlyExplained(cfg: Config, steps: seq<Step>, w: World, key: string, reply: Reply)
    requires Run(cfg, steps) == Some(w) && Valid(cfg, w) && Explained(cfg, steps, w) && key in w.flights
    ensures Explained(cfg, steps + [Fly(key, reply)], FlightStep(cfg, w, key, reply))
  {
    assert ValidFlight(cfg, w, key);
    if w.flights[key].stage.Fetching? {
      FetchingExplained(cfg, steps, w, key, reply);
    } else {
      SharedExplained(cfg, steps, w, key, reply);
    }
  }

  /** A direct fetch is answered. */
  lemma DirectExplained(cfg: Config, steps: seq<Step>, w: World, c: nat, reply: Reply)
    requires Run(cfg, steps) == Some(w) && Explained(cfg, steps, w) && c < |w.callers| && w.callers[c].pc.Direct?
    ensures ExplainedCaller(cfg, steps + [Advance(c, reply)], c,
                            w.callers[c].(pc := Done(if reply.NoReply? then FetchError else Live(reply))))
  {
    var last := Advance(c, reply);
    var longer := steps + [last];
    assert ExplainedCaller(cfg, steps, c, w.callers[c]);
    CameLater(cfg, steps, last);
    assert longer[..|steps|] == steps && longer[|steps|] == last;
    assert AsksAt(cfg, longer, |steps|, c) && longer[|steps|].reply == reply;
    assert Replied(cfg, longer, c, reply);
  }

  /** What the caller's landed flight makes of it is explained. */
  ghost predicate Landed(cfg: Config, steps: seq<Step>, w: World, c: nat)
    requires c < |w.callers| && w.callers[c].pc.Wait? && w.callers[c].pc.id in w.results
  {
    match w.results[w.callers[c].pc.id]
    case Shared(_, _) => true
    case FlightError => ExplainedCaller(cfg, steps, c, w.callers[c].(pc := Done(FetchError)))
    case FlightNotBufferable => ExplainedCaller(cfg, steps, c, w.callers[c].(pc := Direct))
  }

  lemma LandedExplained(cfg: Config, steps: seq<Step>, w: World, c: nat, last: Step)
    requires Valid(cfg, w) && Explained(cfg, steps, w)
    requires c < |w.callers| && w.callers[c].pc.Wait? && w.callers[c].pc.id in w.results
    ensures Landed(cfg, steps + [last], w, c)
  {
    assert ValidCaller(cfg, w, c) && ExplainedResult(cfg, steps, w, w.callers[c].pc.id);
    CameLater(cfg, steps, last);
  }

  /** A caller goes on to an explained place. */
  lemma SetPcExplained(cfg: Config, steps: seq<Step>, last: Step, w: World, c: nat, pc: Pc)
    requires Explained(cfg, steps, w) && c < |w.callers|
    requires ExplainedCaller(cfg, steps + [last], c, w.callers[c].(pc := pc))
    ensures Explained(cfg, steps + [last], SetPc(w, c, pc))
  {
    ChangeExplained(cfg, steps, last, w, SetPc(w, c, pc));
  }

  /** Buffers and flights take no explaining, as long as flights keep their keys. */
  lemma OtherPartsExplained(cfg: Config, steps: seq<Step>, w: World, w': World)
    requires Explained(cfg, steps, w)
    requires w'.log == w.log && w'.results == w.results && w'.callers == w.callers && w.flightKeys <= w'.flightKeys
    ensures Explained(cfg, steps, w')
  {
    forall id | id in w'.results ensures ExplainedResult(cfg, steps, w', id) {
      assert ExplainedResult(cfg, steps, w, id);
    }
  }

  lemma CheckCacheExplained(cfg: Config, steps: seq<Step>, w: World, c: nat, reply: Reply)
    requires Explained(cfg, steps, w) && Enabled(w, Advance(c, reply)) && w.callers[c].pc.CheckCache?
    ensures Explained(cfg, steps + [Advance(c, reply)], CallerStep(cfg, w, c, reply))
  {
    var key := w.callers[c].pc.key;
    if key in w.cache {
      var w1 := Cloned(w, w.cache[key], Some(c));
      OtherPartsExplained(cfg, steps, w, w1);
      SetPcExplained(cfg, steps, Advance(c, reply), w1, c, Done(Buffered(|w.heap|, Content(w, w.cache[key]), FromCache)));
    } else {
      SetPcExplained(cfg, steps, Advance(c, reply), w, c, Enter(key));
    }
  }

  lemma EnterExplained(cfg: Config, steps: seq<Step>, w: World, c: nat, reply: Reply)
    requires Explained(cfg, steps, w) && Enabled(w, Advance(c, reply)) && w.callers[c].pc.Enter?
    ensures Explained(cfg, steps + [Advance(c, reply)], CallerStep(cfg, w, c, reply))
  {
    var caller := w.callers[c];
    var key, id := caller.pc.key, |w.flightKeys|;
    if key in w.flights {
      SetPcExplained(cfg, steps, Advance(c, reply), w, c, Wait(w.flights[key].id));
    } else {
      var w1 := w.(flights := w.flights[key := Flight(id, caller.url, caller.range, Checking)], flightKeys := w.flightKeys + [key]);
      OtherPartsExplained(cfg, steps, w, w1);
      SetPcExplained(cfg, steps, Advance(c, reply), w1, c, Wait(id));
    }
  }

  lemma JoinExplained(cfg: Config, steps: seq<Step>, w: World, c: nat, reply: Reply)
    requires Explained(cfg, steps, w) && Enabled(w, Advance(c, reply)) && w.callers[c].pc.Wait?
    requires w.results[w.callers[c].pc.id].Shared?
    ensures Explained(cfg, steps + [Advance(c, reply)], CallerStep(cfg, w, c, reply))
  {
    var id := w.callers[c].pc.id;
    var loc := w.results[id].loc;
    var w1 := Cloned(w, loc, Some(c));
    OtherPartsExplained(cfg, steps, w, w1);
    SetPcExplained(cfg, steps, Advance(c, reply), w1, c, Done(Buffered(|w.heap|, Content(w, loc), FromFlight(id))));
  }

  lemma WaitExplained(cfg: Config, steps: seq<Step>, w: World, c: nat, reply: Reply)
    requires Explained(cfg, steps, w) && Enabled(w, Advance(c, reply)) && w.callers[c].pc.Wait?
    requires Landed(cfg, steps + [Advance(c, reply)], w, c)
    ensures Explained(cfg, steps + [Advance(c, reply)], CallerStep(cfg, w, c, reply))
  {
    var last, id := Advance(c, reply), w.callers[c].pc.id;
    match w.results[id]
    case Shared(_, _) =>
      JoinExplained(cfg, steps, w, c, reply);
    case FlightError =>
      SetPcExplained(cfg, steps, last, w, c, Done(FetchError));
    case FlightNotBufferable =>
      SetPcExplained(cfg, steps, last, w, c, Direct);
  }

  lemma AdvanceExplained(cfg: Config, steps: seq<Step>, w: World, c: nat, reply: Reply)
    requires Run(cfg, steps) == Some(w) && Valid(cfg, w) && Explained(cfg, steps, w) && Enabled(w, Advance(c, reply))
    ensures Explained(cfg, steps + [Advance(c, reply)], CallerStep(cfg, w, c, reply))
  {
    var caller := w.callers[c];
    match caller.pc
    case CheckCache(_) => CheckCacheExplained(cfg, steps, w, c, reply);
    case Enter(_) => EnterExplained(cfg, steps, w, c, reply);
    case Wait(_) =>
      LandedExplained(cfg, steps, w, c, Advance(c, reply));
      WaitExplained(cfg, steps, w, c, reply);
    case Begin =>
      var key := cfg.keyOf(caller.url, caller.range);
      SetPcExplained(cfg, steps, Advance(c, reply), w, c, if key.None? then Direct else CheckCache(key.value));
    case Direct =>
      DirectExplained(cfg, steps, w, c, reply);
      SetPcExplained(cfg, steps, Advance(c, reply), w, c, Done(if reply.NoReply? then FetchError else Live(reply)));
    case Done(_) =>
  }

  lemma {:induction false} RunExplained(cfg: Config, steps: seq<Step>)
    requires Run(cfg, steps).Some?
    ensures Explained(cfg, steps, Run(cfg, steps).value)
  {
    if steps != [] {
      var front, last := steps[..|steps| - 1], steps[|steps| - 1];
      var w := Run(cfg, front).value;
      RunValid(cfg, front);
      RunExplained(cfg, front);
      assert front + [last] == steps;
      match last {
        case Fly(key, reply) => FlyExplained(cfg, front, w, key, reply);
        case Advance(c, reply) => AdvanceExplained(cfg, front, w, c, reply);
        case _ => StillExplained(cfg, front, last, w, Apply(cfg, w, last));
      }
    }
  }

  /** The caller holds a buffer: its status, headers and body are those of an upstream's reply that was
      fetched, by a flight, for the caller's own key. */
  lemma BufferIsAReply(cfg: Config, steps: seq<Step>, c: nat) returns (i: nat)
    requires Run(cfg, steps).Some? && Holds(Run(cfg, steps).value, c)
    ensures var caller := Run(cfg, steps).value.callers[c];
      var value := caller.pc.answer.value;
      && cfg.keyOf(caller.url, caller.range).Some?
      && FetchesAt(cfg, steps, i, cfg.keyOf(caller.url, caller.range).value)
      && var reply := steps[i].reply;
      && reply.Reply? && value.status == reply.status && value.headers == reply.headers && reply.body == Some(value.body)
      && (reply.status == 200 || reply.status == 206) && |value.body| <= cfg.maxBytes
  {
    RunValid(cfg, steps);
    RunExplained(cfg, steps);
    var w := Run(cfg, steps).value;
    assert ValidCaller(cfg, w, c);
    var key, value := cfg.keyOf(w.callers[c].url, w.callers[c].range).value, w.callers[c].pc.answer.value;
    var e :| e in w.log && e.Fetched? && e.key == key && e.value == value;
    assert ExplainedEvent(cfg, steps, e);
    i :| FetchesAt(cfg, steps, i, key) && HeldBy(value, cfg.maxBytes)(steps[i].reply);
  }

  /** The caller was passed a live response: it is the reply to its own direct fetch, and the caller
      has no key, or a reply fetched for its key could not be buffered. */
  lemma LiveIsAReply(cfg: Config, steps: seq<Step>, c: nat)
    requires Run(cfg, steps).Some? && c < |Run(cfg, steps).value.callers|
    requires Run(cfg, steps).value.callers[c].pc.Done? && Run(cfg, steps).value.callers[c].pc.answer.Live?
    ensures var caller := Run(cfg, steps).value.callers[c];
      var key := cfg.keyOf(caller.url, caller.range);
      && caller.pc.answer.reply.Reply?
      && (exists i: nat :: AsksAt(cfg, steps, i, c) && steps[i].reply == caller.pc.answer.reply)
      && (key.None? || exists i: nat :: FetchesAt(cfg, steps, i, key.value) && Refused(steps[i].reply, cfg.maxBytes))
  {
    RunExplained(cfg, steps);
    var w := Run(cfg, steps).value;
    assert ExplainedCaller(cfg, steps, c, w.callers[c]);
    RefusalIs(cfg, steps, w.callers[c]);
  }

  lemma RefusalIs(cfg: Config, steps: seq<Step>, caller: Caller)
    requires GoesDirect(cfg, steps, caller)
    ensures var key := cfg.keyOf(caller.url, caller.range);
      key.None? || exists i: nat :: FetchesAt(cfg, steps, i, key.value) && Refused(steps[i].reply, cfg.maxBytes)
  {
    var key := cfg.keyOf(caller.url, caller.range);
    if key.Some? {
      var i: nat :| FetchesAt(cfg, steps, i, key.value) && Refusing(cfg.maxBytes)(steps[i].reply);
    }
  }

  /** The caller got an error: a fetch for its key failed, or its own direct fetch did. */
  lemma ErrorIsAFailure(cfg: Config, steps: seq<Step>, c: nat)
    requires Run(cfg, steps).Some? && c < |Run(cfg, steps).value.callers|
    requires Run(cfg, steps).value.callers[c].pc == Done(FetchError)
    ensures var caller := Run(cfg, steps).value.callers[c];
      var key := cfg.keyOf(caller.url, caller.range);
      || (key.Some? && exists i: nat :: FetchesAt(cfg, steps, i, key.value) && Fails(steps[i].reply, cfg.maxBytes))
      || exists i: nat :: AsksAt(cfg, steps, i, c) && steps[i].reply.NoReply?
  {
    RunExplained(cfg, steps);
    var w := Run(cfg, steps).value;
    assert ExplainedCaller(cfg, steps, c, w.callers[c]);
    var key := cfg.keyOf(w.callers[c].url, w.callers[c].range);
    if key.Some? && Came(cfg, steps, key.value, Failing(cfg.maxBytes)) {
      var i: nat :| FetchesAt(cfg, steps, i, key.value) && Failing(cfg.maxBytes)(steps[i].reply);
    } else {
      var i: nat :| AsksAt(cfg, steps, i, c) && steps[i].reply == NoReply;
    }
  }
}
