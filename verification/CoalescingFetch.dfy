/** The coalescing fetcher as a step system: callers, at most one flight per key, a cache whose
    items may be evicted at any time, and buffers that callers may scribble on. */
module CoalescingFetch {
  import opened Basics
  import opened Domain
  import opened GoText
  import opened CacheKeys
  import opened Sums

  const STATUS_OK: int := 200
  const STATUS_PARTIAL: int := 206

  /** The contents of a buffered response. */
  datatype Buffer = Buffer(status: int, headers: map<string, seq<string>>, body: Bytes)

  /** An upstream's reaction to one fetch. A body that cannot be read to its end is None. */
  datatype Reply = NoReply | Reply(status: int, headers: map<string, seq<string>>, contentLength: int, body: Option<Bytes>)

  datatype ReadResult = NotBufferable | ReadError | Read(buffer: Buffer)

  /** readBufferedResponse; at most maxBytes + 1 bytes of the body are read. */
  function ReadBuffered(reply: Reply, maxBytes: int): ReadResult
    requires reply.Reply?
  {
    if reply.status != STATUS_PARTIAL && reply.status != STATUS_OK then NotBufferable
    else if reply.contentLength <= 0 || reply.contentLength > maxBytes then NotBufferable
    else if reply.body.None? then ReadError
    else if |reply.body.value| > maxBytes then NotBufferable
    else Read(Buffer(reply.status, reply.headers, reply.body.value))
  }

  /** A reply of status 200 or 206 that announces a body within the limit. */
  predicate Announced(reply: Reply, maxBytes: int) {
    reply.Reply? && (reply.status == 200 || reply.status == 206) && 0 < reply.contentLength <= maxBytes
  }

  /** Such a reply is buffered if its body is as small as announced. */
  predicate Bufferable(reply: Reply, maxBytes: int) {
    Announced(reply, maxBytes) && reply.body.Some? && |reply.body.value| <= maxBytes
  }

  /** Nothing came, or a body that should be buffered breaks off. */
  predicate Fails(reply: Reply, maxBytes: int) {
    reply.NoReply? || (Announced(reply, maxBytes) && reply.body.None?)
  }

  /** A reply that has to be streamed instead. */
  predicate Refused(reply: Reply, maxBytes: int) {
    !Bufferable(reply, maxBytes) && !Fails(reply, maxBytes)
  }

  /** The buffer holds the upstream's status, headers and bytes. */
  predicate Holding(reply: Reply, buffer: Buffer) {
    reply.Reply? && buffer.status == reply.status && buffer.headers == reply.headers && reply.body == Some(buffer.body)
  }

  /** Reading a response into a buffer keeps all of it, or fails exactly when its body does, or
      leaves it to be streamed. */
  lemma ReadBufferedIs(reply: Reply, maxBytes: int)
    requires reply.Reply?
    ensures ReadBuffered(reply, maxBytes).Read? <==> Bufferable(reply, maxBytes)
    ensures ReadBuffered(reply, maxBytes).ReadError? <==> Fails(reply, maxBytes)
    ensures ReadBuffered(reply, maxBytes).Read? ==> Holding(reply, ReadBuffered(reply, maxBytes).buffer)
  {
  }

  /** Settings: the size limit, and the key of a URL and a range header, if they have one. */
  datatype Config = Config(maxBytes: int, keyOf: (string, string) -> Option<string>)

  /** The settings of the code: keys are coalescing keys. */
  function Coalescing(maxBytes: int): Config {
    Config(maxBytes, (url, range) => CoalescingKey(url, range, maxBytes))
  }

  // ---------------------------------------------------------------- the world

  /** Where the function run by the single flight is. Locations are indices into the heap. */
  datatype Stage = Checking | Fetching | Storing(loc: nat)

  datatype Flight = Flight(id: nat, url: string, range: string, stage: Stage)

  datatype FlightResult = Shared(loc: nat, value: Buffer) | FlightError | FlightNotBufferable

  /** How a caller came by its buffer: the cache, or the flight it led or joined. */
  datatype Origin = FromCache | FromFlight(id: nat)

  /** value is what the buffer held when it was handed out. */
  datatype Answer = Buffered(loc: nat, value: Buffer, origin: Origin) | Live(reply: Reply) | FetchError

  datatype Pc = Begin | CheckCache(key: string) | Enter(key: string) | Wait(id: nat) | Direct | Done(answer: Answer)

  datatype Caller = Caller(url: string, range: string, pc: Pc)

  /** A bufferable upstream response arrived for a key, or a key left the cache. */
  datatype Event = Fetched(key: string, url: string, range: string, value: Buffer) | Evicted(key: string)

  /** A buffer object. holder is the caller it was handed to, or None when only the fetcher has it. */
  datatype Cell = Cell(buffer: Buffer, holder: Option<nat>)

  /** heap is every buffer ever allocated; flightKeys gives the key of each flight so far. */
  datatype World = World(
    heap: seq<Cell>, cache: map<string, nat>, flights: map<string, Flight>, results: map<nat, FlightResult>,
    flightKeys: seq<string>, callers: seq<Caller>, log: seq<Event>)

  datatype Step =
    | Start(url: string, range: string)
    | Advance(caller: nat, reply: Reply)
    | Fly(key: string, reply: Reply)
    | Mutate(caller: nat, buffer: Buffer)
    | Evict(key: string)

  predicate Enabled(w: World, step: Step) {
    match step
    case Start(_, _) => true
    case Advance(c, _) =>
      c < |w.callers| && !w.callers[c].pc.Done? && (w.callers[c].pc.Wait? ==> w.callers[c].pc.id in w.results)
    case Fly(key, _) => key in w.flights
    case Mutate(c, _) => c < |w.callers| && w.callers[c].pc.Done? && w.callers[c].pc.answer.Buffered?
    case Evict(key) => key in w.cache
  }

  function Content(w: World, loc: nat): Buffer {
    if loc < |w.heap| then w.heap[loc].buffer else Buffer(0, map[], [])
  }

  /** cloneBufferedResponse: a copy in a new location. */
  function Cloned(w: World, loc: nat, holder: Option<nat>): World {
    w.(heap := w.heap + [Cell(Content(w, loc), holder)])
  }

  function SetPc(w: World, c: nat, pc: Pc): World
    requires c < |w.callers|
  {
    w.(callers := w.callers[c := w.callers[c].(pc := pc)])
  }

  /** The next step of Fetch for one caller. */
  function CallerStep(cfg: Config, w: World, c: nat, reply: Reply): World
    requires Enabled(w, Advance(c, reply))
  {
    var caller := w.callers[c];
    match caller.pc
    case Begin =>
      (match cfg.keyOf(caller.url, caller.range)
       case None => SetPc(w, c, Direct)
       case Some(key) => SetPc(w, c, CheckCache(key)))
    case CheckCache(key) =>
      if key in w.cache then
        SetPc(Cloned(w, w.cache[key], Some(c)), c, Done(Buffered(|w.heap|, Content(w, w.cache[key]), FromCache)))
      else SetPc(w, c, Enter(key))
    case Enter(key) =>
      if key in w.flights then SetPc(w, c, Wait(w.flights[key].id))
      else
        var id := |w.flightKeys|;
        SetPc(w.(flights := w.flights[key := Flight(id, caller.url, caller.range, Checking)], flightKeys := w.flightKeys + [key]),
              c, Wait(id))
    case Wait(id) =>
      (match w.results[id]
       case Shared(loc, _) => SetPc(Cloned(w, loc, Some(c)), c, Done(Buffered(|w.heap|, Content(w, loc), FromFlight(id))))
       case FlightError => SetPc(w, c, Done(FetchError))
       case FlightNotBufferable => SetPc(w, c, Direct))
    case Direct => SetPc(w, c, Done(if reply.NoReply? then FetchError else Live(reply)))
    case Done(_) => w
  }

  function Land(w: World, key: string, result: FlightResult): World
    requires key in w.flights
  {
    w.(flights := w.flights - {key}, results := w.results[w.flights[key].id := result])
  }

  /** The next step of the function a flight runs. */
  function FlightStep(cfg: Config, w: World, key: string, reply: Reply): World
    requires key in w.flights
  {
    var flight := w.flights[key];
    match flight.stage
    case Checking =>
      if key in w.cache then
        Land(Cloned(w, w.cache[key], None), key, Shared(|w.heap|, Content(w, w.cache[key])))
      else w.(flights := w.flights[key := flight.(stage := Fetching)])
    case Fetching =>
      if reply.NoReply? then Land(w, key, FlightError)
      else
        (match ReadBuffered(reply, cfg.maxBytes)
         case NotBufferable => Land(w, key, FlightNotBufferable)
         case ReadError => Land(w, key, FlightError)
         case Read(buffer) =>
           w.(heap := w.heap + [Cell(buffer, None)],
              flights := w.flights[key := flight.(stage := Storing(|w.heap|))],
              log := w.log + [Fetched(key, flight.url, flight.range, buffer)]))
    case Storing(loc) =>
      Land(w.(cache := w.cache[key := loc]), key, Shared(loc, Content(w, loc)))
  }

  function Apply(cfg: Config, w: World, step: Step): World
    requires Enabled(w, step)
  {
    match step
    case Start(url, range) => w.(callers := w.callers + [Caller(url, range, Begin)])
    case Advance(c, reply) => CallerStep(cfg, w, c, reply)
    case Fly(key, reply) => FlightStep(cfg, w, key, reply)
    case Mutate(c, buffer) =>
      var loc := w.callers[c].pc.answer.loc;
      if loc < |w.heap| then w.(heap := w.heap[loc := w.heap[loc].(buffer := buffer)]) else w
    case Evict(key) => w.(cache := w.cache - {key}, log := w.log + [Evicted(key)])
  }

  const INITIAL: World := World([], map[], map[], map[], [], [], [])

  function Run(cfg: Config, steps: seq<Step>): Option<World> {
    if steps == [] then Some(INITIAL)
    else match Run(cfg, steps[..|steps| - 1])
      case None => None
      case Some(before) =>
        if Enabled(before, steps[|steps| - 1]) then Some(Apply(cfg, before, steps[|steps| - 1])) else None
  }

  // ---------------------------------------------------------------- the log

  /** What a key holds according to the log: the value of its last fetch, unless evicted since. */
  function Current(log: seq<Event>, key: string): Option<Buffer> {
    if log == [] then None
    else
      var last := log[|log| - 1];
      if last.key != key then Current(log[..|log| - 1], key)
      else if last.Fetched? then Some(last.value) else None
  }

  /** Between two bufferable responses for one key there is an eviction of that key. */
  ghost predicate EvictedBetween(log: seq<Event>) {
    forall i, j :: 0 <= i < j < |log| && log[i].Fetched? && log[j].Fetched? && log[i].key == log[j].key ==>
      EvictionIn(log, log[i].key, i, j)
  }

  ghost predicate EvictionIn(log: seq<Event>, key: string, i: int, j: int) {
    exists m :: i < m < j && 0 <= m < |log| && log[m] == Evicted(key)
  }

  lemma EvictionStays(log: seq<Event>, e: Event, key: string, i: int, j: int)
    requires EvictionIn(log, key, i, j)
    ensures EvictionIn(log + [e], key, i, j)
  {
    var m :| i < m < j && 0 <= m < |log| && log[m] == Evicted(key);
    assert (log + [e])[m] == Evicted(key);
  }

  lemma {:induction false} NotCurrentMeansEvicted(log: seq<Event>, key: string, i: nat)
    requires Current(log, key).None? && i < |log| && log[i].Fetched? && log[i].key == key
    ensures EvictionIn(log, key, i, |log|)
  {
    var front, last := log[..|log| - 1], log[|log| - 1];
    if last.key != key {
      NotCurrentMeansEvicted(front, key, i);
      var m :| i < m < |front| && front[m] == Evicted(key);
      assert log[m] == Evicted(key);
    } else {
      assert log[|log| - 1] == Evicted(key);
    }
  }

  /** A fetch may be logged for a key that holds nothing, and an eviction always. */
  lemma LogMore(log: seq<Event>, e: Event)
    requires EvictedBetween(log) && (e.Fetched? ==> Current(log, e.key).None?)
    ensures EvictedBetween(log + [e])
  {
    var log' := log + [e];
    forall i, j | 0 <= i < j < |log'| && log'[i].Fetched? && log'[j].Fetched? && log'[i].key == log'[j].key
      ensures EvictionIn(log', log'[i].key, i, j)
    {
      if j == |log| {
        NotCurrentMeansEvicted(log, e.key, i);
      }
      EvictionStays(log, e, log[i].key, i, j);
    }
  }

  lemma CurrentAfter(log: seq<Event>, e: Event)
    ensures forall key :: key != e.key ==> Current(log + [e], key) == Current(log, key)
    ensures Current(log + [e], e.key) == if e.Fetched? then Some(e.value) else None
  {
    assert (log + [e])[..|log|] == log;
  }

  /** A bufferable response with these contents arrived for the key at some point. */
  ghost predicate Arrived(log: seq<Event>, key: string, value: Buffer) {
    exists e :: e in log && e.Fetched? && e.key == key && e.value == value
  }

  lemma {:induction false} CurrentArrived(log: seq<Event>, key: string)
    ensures Current(log, key).Some? ==> Arrived(log, key, Current(log, key).value)
  {
    if log != [] {
      var front, last := log[..|log| - 1], log[|log| - 1];
      CurrentArrived(front, key);
      assert log == front + [last];
      ArrivedLater(front, last);
      assert last in log;
    }
  }

  lemma ArrivedLater(log: seq<Event>, e: Event)
    ensures forall key, value :: Arrived(log, key, value) ==> Arrived(log + [e], key, value)
  {
    forall key, value | Arrived(log, key, value) ensures Arrived(log + [e], key, value) {
      var x :| x in log && x.Fetched? && x.key == key && x.value == value;
      assert x in log + [e];
    }
  }

  // ---------------------------------------------------------------- the invariant

  predicate OwnEvent(cfg: Config, e: Event) {
    e.Fetched? ==>
      && cfg.keyOf(e.url, e.range) == Some(e.key)
      && |e.value.body| <= cfg.maxBytes
      && (e.value.status == STATUS_OK || e.value.status == STATUS_PARTIAL)
  }

  /** A location only the fetcher refers to, holding this value. */
  predicate Inside(w: World, loc: nat, value: Buffer) {
    loc < |w.heap| && w.heap[loc] == Cell(value, None)
  }

  predicate ValidItem(w: World, key: string)
    requires key in w.cache
  {
    Current(w.log, key).Some? && Inside(w, w.cache[key], Current(w.log, key).value)
  }

  predicate ValidFlight(cfg: Config, w: World, key: string)
    requires key in w.flights
  {
    var f := w.flights[key];
    && f.id < |w.flightKeys| && w.flightKeys[f.id] == key && f.id !in w.results
    && cfg.keyOf(f.url, f.range) == Some(key)
    && (f.stage.Fetching? ==> key !in w.cache && Current(w.log, key).None?)
    && (f.stage.Storing? ==>
      key !in w.cache && Current(w.log, key).Some? && Inside(w, f.stage.loc, Current(w.log, key).value))
  }

  ghost predicate ValidResult(w: World, id: nat)
    requires id in w.results
  {
    && id < |w.flightKeys|
    && (w.results[id].Shared? ==>
      && Inside(w, w.results[id].loc, w.results[id].value)
      && Arrived(w.log, w.flightKeys[id], w.results[id].value))
  }

  ghost predicate ValidCaller(cfg: Config, w: World, c: nat)
    requires c < |w.callers|
  {
    var caller := w.callers[c];
    var key := cfg.keyOf(caller.url, caller.range);
    match caller.pc
    case Begin => true
    case CheckCache(k) => key == Some(k)
    case Enter(k) => key == Some(k)
    case Wait(id) => id < |w.flightKeys| && key == Some(w.flightKeys[id])
    case Direct => true
    case Done(answer) =>
      answer.Buffered? ==>
        && answer.loc < |w.heap| && w.heap[answer.loc].holder == Some(c)
        && key.Some? && Arrived(w.log, key.value, answer.value)
        && (answer.origin.FromFlight? ==>
          && answer.origin.id in w.results && w.results[answer.origin.id].Shared?
          && w.results[answer.origin.id].value == answer.value)
  }

  ghost predicate ValidLog(cfg: Config, log: seq<Event>) {
    EvictedBetween(log) && forall e :: e in log ==> OwnEvent(cfg, e)
  }

  /** Whatever the log says a key holds is in the cache or about to be stored. */
  ghost predicate Accounted(w: World) {
    forall key :: Current(w.log, key).Some? ==> key in w.cache || (key in w.flights && w.flights[key].stage.Storing?)
  }

  ghost predicate Valid(cfg: Config, w: World) {
    && ValidLog(cfg, w.log)
    && Accounted(w)
    && (forall key :: key in w.cache ==> ValidItem(w, key))
    && (forall key :: key in w.flights ==> ValidFlight(cfg, w, key))
    && (forall key, key' :: key in w.flights && key' in w.flights && w.flights[key].id == w.flights[key'].id ==> key == key')
    && (forall id :: id in w.results ==> ValidResult(w, id))
    && (forall c :: 0 <= c < |w.callers| ==> ValidCaller(cfg, w, c))
  }

  // ---------------------------------------------------------------- every step keeps it

  /** Buffers stay as they are, and nothing recorded is lost. */
  ghost predicate Later(w: World, w': World) {
    && |w.heap| <= |w'.heap| && (forall loc :: 0 <= loc < |w.heap| ==> w'.heap[loc] == w.heap[loc])
    && w.flightKeys <= w'.flightKeys
    && (forall id :: id in w.results ==> id in w'.results && w'.results[id] == w.results[id])
    && (forall key, value :: Arrived(w.log, key, value) ==> Arrived(w'.log, key, value))
  }

  lemma LaterCallers(cfg: Config, w: World, w': World)
    requires Later(w, w') && w'.callers == w.callers
    requires forall c :: 0 <= c < |w.callers| ==> ValidCaller(cfg, w, c)
    ensures forall c :: 0 <= c < |w'.callers| ==> ValidCaller(cfg, w', c)
  {
    forall c | 0 <= c < |w'.callers| ensures ValidCaller(cfg, w', c) { assert ValidCaller(cfg, w, c); }
  }

  lemma LaterResults(w: World, w': World)
    requires Later(w, w')
    requires forall id :: id in w.results ==> ValidResult(w, id)
    ensures forall id :: id in w.results ==> ValidResult(w', id)
  {
    forall id | id in w.results ensures ValidResult(w', id) { assert ValidResult(w, id); }
  }

  lemma AllocateValid(cfg: Config, w: World, cell: Cell)
    requires Valid(cfg, w)
    ensures Valid(cfg, w.(heap := w.heap + [cell]))
  {
    var w' := w.(heap := w.heap + [cell]);
    forall key | key in w'.cache ensures ValidItem(w', key) { assert ValidItem(w, key); }
    forall key | key in w'.flights ensures ValidFlight(cfg, w', key) { assert ValidFlight(cfg, w, key); }
    LaterResults(w, w');
    LaterCallers(cfg, w, w');
  }

  lemma SetPcValid(cfg: Config, w: World, c: nat, pc: Pc)
    requires Valid(cfg, w) && c < |w.callers|
    requires ValidCaller(cfg, SetPc(w, c, pc), c)
    ensures Valid(cfg, SetPc(w, c, pc))
  {
    var w' := SetPc(w, c, pc);
    forall key | key in w'.cache ensures ValidItem(w', key) { assert ValidItem(w, key); }
    forall key | key in w'.flights ensures ValidFlight(cfg, w', key) { assert ValidFlight(cfg, w, key); }
    LaterResults(w, w');
    forall d | 0 <= d < |w'.callers| ensures ValidCaller(cfg, w', d) {
      if d != c { assert ValidCaller(cfg, w, d); }
    }
  }

  lemma StartFlightValid(cfg: Config, w: World, key: string, url: string, range: string)
    requires Valid(cfg, w) && key !in w.flights && cfg.keyOf(url, range) == Some(key)
    ensures var flight := Flight(|w.flightKeys|, url, range, Checking);
      Valid(cfg, w.(flights := w.flights[key := flight], flightKeys := w.flightKeys + [key]))
  {
    var flight := Flight(|w.flightKeys|, url, range, Checking);
    var w' := w.(flights := w.flights[key := flight], flightKeys := w.flightKeys + [key]);
    forall k | k in w'.cache ensures ValidItem(w', k) { assert ValidItem(w, k); }
    LaterResults(w, w');
    forall k | k in w'.flights ensures ValidFlight(cfg, w', k) {
      if k != key { assert ValidFlight(cfg, w, k); }
    }
    LaterCallers(cfg, w, w');
    forall k | k in w.flights ensures w.flights[k].id < |w.flightKeys| { assert ValidFlight(cfg, w, k); }
  }

  lemma CheckCacheValid(cfg: Config, w: World, c: nat, reply: Reply)
    requires Valid(cfg, w) && Enabled(w, Advance(c, reply)) && w.callers[c].pc.CheckCache?
    ensures Valid(cfg, CallerStep(cfg, w, c, reply))
  {
    var key := w.callers[c].pc.key;
    assert ValidCaller(cfg, w, c);
    if key in w.cache {
      assert ValidItem(w, key);
      CurrentArrived(w.log, key);
      var w1 := Cloned(w, w.cache[key], Some(c));
      AllocateValid(cfg, w, w1.heap[|w.heap|]);
      SetPcValid(cfg, w1, c, Done(Buffered(|w.heap|, Content(w, w.cache[key]), FromCache)));
    } else {
      SetPcValid(cfg, w, c, Enter(key));
    }
  }

  lemma EnterValid(cfg: Config, w: World, c: nat, reply: Reply)
    requires Valid(cfg, w) && Enabled(w, Advance(c, reply)) && w.callers[c].pc.Enter?
    ensures Valid(cfg, CallerStep(cfg, w, c, reply))
  {
    var caller := w.callers[c];
    var key := caller.pc.key;
    assert ValidCaller(cfg, w, c);
    if key in w.flights {
      assert ValidFlight(cfg, w, key);
      SetPcValid(cfg, w, c, Wait(w.flights[key].id));
    } else {
      StartFlightValid(cfg, w, key, caller.url, caller.range);
      var flight := Flight(|w.flightKeys|, caller.url, caller.range, Checking);
      SetPcValid(cfg, w.(flights := w.flights[key := flight], flightKeys := w.flightKeys + [key]), c, Wait(|w.flightKeys|));
    }
  }

  lemma WaitValid(cfg: Config, w: World, c: nat, reply: Reply)
    requires Valid(cfg, w) && Enabled(w, Advance(c, reply)) && w.callers[c].pc.Wait?
    ensures Valid(cfg, CallerStep(cfg, w, c, reply))
  {
    var id := w.callers[c].pc.id;
    assert ValidCaller(cfg, w, c) && ValidResult(w, id);
    match w.results[id]
    case Shared(loc, value) =>
      var w1 := Cloned(w, loc, Some(c));
      AllocateValid(cfg, w, w1.heap[|w.heap|]);
      SetPcValid(cfg, w1, c, Done(Buffered(|w.heap|, Content(w, loc), FromFlight(id))));
    case FlightError =>
      SetPcValid(cfg, w, c, Done(FetchError));
    case FlightNotBufferable =>
      SetPcValid(cfg, w, c, Direct);
  }

  lemma CallerStepValid(cfg: Config, w: World, c: nat, reply: Reply)
    requires Valid(cfg, w) && Enabled(w, Advance(c, reply))
    ensures Valid(cfg, CallerStep(cfg, w, c, reply))
  {
    var caller := w.callers[c];
    match caller.pc
    case CheckCache(_) => CheckCacheValid(cfg, w, c, reply);
    case Enter(_) => EnterValid(cfg, w, c, reply);
    case Wait(_) => WaitValid(cfg, w, c, reply);
    case Begin =>
      match cfg.keyOf(caller.url, caller.range) {
        case None => SetPcValid(cfg, w, c, Direct);
        case Some(key) => SetPcValid(cfg, w, c, CheckCache(key));
      }
    case Direct =>
      SetPcValid(cfg, w, c, Done(if reply.NoReply? then FetchError else Live(reply)));
    case Done(_) =>
  }

  /** A flight that stores nothing may land with a result that is in order. */
  lemma LandValid(cfg: Config, w: World, key: string, result: FlightResult)
    requires Valid(cfg, w) && key in w.flights && !w.flights[key].stage.Storing?
    requires result.Shared? ==> Inside(w, result.loc, result.value) && Arrived(w.log, key, result.value)
    ensures Valid(cfg, Land(w, key, result))
  {
    var w' := Land(w, key, result);
    assert ValidFlight(cfg, w, key);
    forall k | k in w'.cache ensures ValidItem(w', k) { assert ValidItem(w, k); }
    LaterResults(w, w');
    forall k | k in w'.flights ensures ValidFlight(cfg, w', k) { assert ValidFlight(cfg, w, k); }
    LaterCallers(cfg, w, w');
  }

  lemma CheckedValid(cfg: Config, w: World, key: string)
    requires Valid(cfg, w) && key in w.flights && w.flights[key].stage.Checking? && key !in w.cache
    ensures Valid(cfg, w.(flights := w.flights[key := w.flights[key].(stage := Fetching)]))
  {
    var w' := w.(flights := w.flights[key := w.flights[key].(stage := Fetching)]);
    assert ValidFlight(cfg, w, key);
    forall k | k in w'.cache ensures ValidItem(w', k) { assert ValidItem(w, k); }
    LaterResults(w, w');
    forall k | k in w'.flights ensures ValidFlight(cfg, w', k) { assert ValidFlight(cfg, w, k); }
    LaterCallers(cfg, w, w');
  }

  /** The world after a bufferable response arrived for a key. */
  function WithFetched(w: World, key: string, buffer: Buffer): World
    requires key in w.flights
  {
    var flight := w.flights[key];
    w.(heap := w.heap + [Cell(buffer, None)],
       flights := w.flights[key := flight.(stage := Storing(|w.heap|))],
       log := w.log + [Fetched(key, flight.url, flight.range, buffer)])
  }

  lemma FetchedItems(cfg: Config, w: World, key: string, buffer: Buffer)
    requires Valid(cfg, w) && key in w.flights && w.flights[key].stage.Fetching?
    ensures forall k :: k in w.cache ==> ValidItem(WithFetched(w, key, buffer), k)
    ensures forall k :: k in w.flights ==> ValidFlight(cfg, WithFetched(w, key, buffer), k)
    ensures Accounted(WithFetched(w, key, buffer))
  {
    var w' := WithFetched(w, key, buffer);
    assert ValidFlight(cfg, w, key);
    CurrentAfter(w.log, w'.log[|w.log|]);
    forall k | k in w'.cache ensures ValidItem(w', k) { assert ValidItem(w, k); }
    forall k | k in w'.flights ensures ValidFlight(cfg, w', k) { assert ValidFlight(cfg, w, k); }
  }

  lemma FetchedValid(cfg: Config, w: World, key: string, buffer: Buffer)
    requires Valid(cfg, w) && key in w.flights && w.flights[key].stage.Fetching?
    requires |buffer.body| <= cfg.maxBytes && (buffer.status == STATUS_OK || buffer.status == STATUS_PARTIAL)
    ensures Valid(cfg, WithFetched(w, key, buffer))
  {
    var w' := WithFetched(w, key, buffer);
    var e := w'.log[|w.log|];
    assert ValidFlight(cfg, w, key);
    LogMore(w.log, e);
    ArrivedLater(w.log, e);
    FetchedItems(cfg, w, key, buffer);
    LaterCallers(cfg, w, w');
    LaterResults(w, w');
  }

  /** The world after a flight has put its response into the cache and landed. */
  function WithStored(w: World, key: string): World
    requires key in w.flights && w.flights[key].stage.Storing?
  {
    var loc := w.flights[key].stage.loc;
    Land(w.(cache := w.cache[key := loc]), key, Shared(loc, Content(w, loc)))
  }

  lemma StoredItems(cfg: Config, w: World, key: string)
    requires Valid(cfg, w) && key in w.flights && w.flights[key].stage.Storing?
    ensures forall k :: k in WithStored(w, key).cache ==> ValidItem(WithStored(w, key), k)
    ensures forall k :: k in WithStored(w, key).flights ==> ValidFlight(cfg, WithStored(w, key), k)
  {
    var w' := WithStored(w, key);
    assert ValidFlight(cfg, w, key);
    forall k | k in w'.cache ensures ValidItem(w', k) {
      if k != key { assert ValidItem(w, k); }
    }
    forall k | k in w'.flights ensures ValidFlight(cfg, w', k) { assert ValidFlight(cfg, w, k); }
  }

  lemma StoredValid(cfg: Config, w: World, key: string)
    requires Valid(cfg, w) && key in w.flights && w.flights[key].stage.Storing?
    ensures Valid(cfg, WithStored(w, key))
  {
    assert ValidFlight(cfg, w, key);
    CurrentArrived(w.log, key);
    StoredItems(cfg, w, key);
    LaterCallers(cfg, w, WithStored(w, key));
    LaterResults(w, WithStored(w, key));
  }

  lemma FlightStepValid(cfg: Config, w: World, key: string, reply: Reply)
    requires Valid(cfg, w) && key in w.flights
    ensures Valid(cfg, FlightStep(cfg, w, key, reply))
  {
    match w.flights[key].stage
    case Checking =>
      if key in w.cache {
        assert ValidItem(w, key);
        CurrentArrived(w.log, key);
        var w1 := Cloned(w, w.cache[key], None);
        AllocateValid(cfg, w, w1.heap[|w.heap|]);
        LandValid(cfg, w1, key, Shared(|w.heap|, Content(w, w.cache[key])));
      } else {
        CheckedValid(cfg, w, key);
      }
    case Fetching =>
      if reply.NoReply? {
        LandValid(cfg, w, key, FlightError);
      } else {
        match ReadBuffered(reply, cfg.maxBytes) {
          case NotBufferable => LandValid(cfg, w, key, FlightNotBufferable);
          case ReadError => LandValid(cfg, w, key, FlightError);
          case Read(buffer) => FetchedValid(cfg, w, key, buffer);
        }
      }
    case Storing(_) =>
      StoredValid(cfg, w, key);
  }

  lemma EvictValid(cfg: Config, w: World, key: string)
    requires Valid(cfg, w) && key in w.cache
    ensures Valid(cfg, Apply(cfg, w, Evict(key)))
  {
    var e := Evicted(key);
    var w' := Apply(cfg, w, Evict(key));
    LogMore(w.log, e);
    CurrentAfter(w.log, e);
    ArrivedLater(w.log, e);
    forall k | k in w'.cache ensures ValidItem(w', k) { assert ValidItem(w, k); }
    LaterResults(w, w');
    forall k | k in w'.flights ensures ValidFlight(cfg, w', k) { assert ValidFlight(cfg, w, k); }
    LaterCallers(cfg, w, w');
  }

  lemma MutateValid(cfg: Config, w: World, c: nat, buffer: Buffer)
    requires Valid(cfg, w) && Enabled(w, Mutate(c, buffer))
    ensures Valid(cfg, Apply(cfg, w, Mutate(c, buffer)))
  {
    var w' := Apply(cfg, w, Mutate(c, buffer));
    assert ValidCaller(cfg, w, c);
    forall k | k in w'.cache ensures ValidItem(w', k) { assert ValidItem(w, k); }
    forall id | id in w'.results ensures ValidResult(w', id) { assert ValidResult(w, id); }
    forall k | k in w'.flights ensures ValidFlight(cfg, w', k) { assert ValidFlight(cfg, w, k); }
    forall d | 0 <= d < |w'.callers| ensures ValidCaller(cfg, w', d) { assert ValidCaller(cfg, w, d); }
  }

  lemma StartValid(cfg: Config, w: World, url: string, range: string)
    requires Valid(cfg, w)
    ensures Valid(cfg, Apply(cfg, w, Start(url, range)))
  {
    var w' := Apply(cfg, w, Start(url, range));
    forall k | k in w'.cache ensures ValidItem(w', k) { assert ValidItem(w, k); }
    forall id | id in w'.results ensures ValidResult(w', id) { assert ValidResult(w, id); }
    forall k | k in w'.flights ensures ValidFlight(cfg, w', k) { assert ValidFlight(cfg, w, k); }
    forall d | 0 <= d < |w'.callers| ensures ValidCaller(cfg, w', d) {
      if d < |w.callers| { assert ValidCaller(cfg, w, d); }
    }
  }

  lemma StepValid(cfg: Config, w: World, step: Step)
    requires Valid(cfg, w) && Enabled(w, step)
    ensures Valid(cfg, Apply(cfg, w, step))
  {
    match step
    case Start(url, range) => StartValid(cfg, w, url, range);
    case Advance(c, reply) => CallerStepValid(cfg, w, c, reply);
    case Fly(key, reply) => FlightStepValid(cfg, w, key, reply);
    case Mutate(c, buffer) => MutateValid(cfg, w, c, buffer);
    case Evict(key) => EvictValid(cfg, w, key);
  }

  lemma {:induction false} RunValid(cfg: Config, steps: seq<Step>)
    requires Run(cfg, steps).Some?
    ensures Valid(cfg, Run(cfg, steps).value)
  {
    if steps != [] {
      RunValid(cfg, steps[..|steps| - 1]);
      StepValid(cfg, Run(cfg, steps[..|steps| - 1]).value, steps[|steps| - 1]);
    }
  }

  // ---------------------------------------------------------------- what follows

  /** Over all interleavings, between two evictions of a key at most one upstream response is
      fetched and buffered for it. */
  lemma OneFetchBetweenEvictions(cfg: Config, steps: seq<Step>)
    requires Run(cfg, steps).Some?
    ensures EvictedBetween(Run(cfg, steps).value.log)
  {
    RunValid(cfg, steps);
  }

  predicate Holds(w: World, c: nat) {
    c < |w.callers| && w.callers[c].pc.Done? && w.callers[c].pc.answer.Buffered?
  }

  /** All callers of one flight were handed equal contents. */
  lemma FlightMatesAgree(cfg: Config, steps: seq<Step>, c: nat, d: nat)
    requires Run(cfg, steps).Some? && Holds(Run(cfg, steps).value, c) && Holds(Run(cfg, steps).value, d)
    requires var callers := Run(cfg, steps).value.callers;
      callers[c].pc.answer.origin.FromFlight? && callers[c].pc.answer.origin == callers[d].pc.answer.origin
    ensures var callers := Run(cfg, steps).value.callers;
      callers[c].pc.answer.value == callers[d].pc.answer.value
  {
    RunValid(cfg, steps);
    var w := Run(cfg, steps).value;
    assert ValidCaller(cfg, w, c) && ValidCaller(cfg, w, d);
  }

  /** The buffers that later answers are copied from. */
  ghost predicate Internal(w: World, loc: nat) {
    || (exists key :: key in w.cache && w.cache[key] == loc)
    || (exists key :: key in w.flights && w.flights[key].stage == Storing(loc))
    || (exists id :: id in w.results && w.results[id].Shared? && w.results[id].loc == loc)
  }

  lemma InternalIsNotHeld(cfg: Config, w: World, loc: nat)
    requires Valid(cfg, w) && Internal(w, loc)
    ensures loc < |w.heap| && w.heap[loc].holder.None?
  {
    if key :| key in w.cache && w.cache[key] == loc {
      assert ValidItem(w, key);
    } else if key :| key in w.flights && w.flights[key].stage == Storing(loc) {
      assert ValidFlight(cfg, w, key);
    } else {
      var id :| id in w.results && w.results[id].Shared? && w.results[id].loc == loc;
      assert ValidResult(w, id);
    }
  }

  lemma HeldByOne(cfg: Config, w: World, c: nat)
    requires Valid(cfg, w) && Holds(w, c)
    ensures w.callers[c].pc.answer.loc < |w.heap| && w.heap[w.callers[c].pc.answer.loc].holder == Some(c)
  {
    assert ValidCaller(cfg, w, c);
  }

  /** No buffer handed to a caller is one the fetcher copies from: scribbling on it changes no
      later answer. */
  lemma MutationKeepsInternal(cfg: Config, steps: seq<Step>, c: nat, buffer: Buffer, loc: nat)
    requires Run(cfg, steps).Some? && Holds(Run(cfg, steps).value, c)
    requires Internal(Run(cfg, steps).value, loc)
    ensures var w := Run(cfg, steps).value;
      w.callers[c].pc.answer.loc != loc && Content(Apply(cfg, w, Mutate(c, buffer)), loc) == Content(w, loc)
  {
    RunValid(cfg, steps);
    InternalIsNotHeld(cfg, Run(cfg, steps).value, loc);
    HeldByOne(cfg, Run(cfg, steps).value, c);
  }

  /** No two callers hold one buffer: scribbling on it changes no other caller's. */
  lemma MutationKeepsOthers(cfg: Config, steps: seq<Step>, c: nat, buffer: Buffer, d: nat)
    requires Run(cfg, steps).Some? && c != d && Holds(Run(cfg, steps).value, c) && Holds(Run(cfg, steps).value, d)
    ensures var w := Run(cfg, steps).value;
      var loc := w.callers[d].pc.answer.loc;
      w.callers[c].pc.answer.loc != loc && Content(Apply(cfg, w, Mutate(c, buffer)), loc) == Content(w, loc)
  {
    RunValid(cfg, steps);
    HeldByOne(cfg, Run(cfg, steps).value, c);
    HeldByOne(cfg, Run(cfg, steps).value, d);
  }

  /** A caller that looks while its key is cached is answered at once, with what was fetched last. */
  lemma HitIsCurrent(cfg: Config, steps: seq<Step>, c: nat, reply: Reply)
    requires Run(cfg, steps).Some?
    requires var w := Run(cfg, steps).value;
      c < |w.callers| && w.callers[c].pc.CheckCache? && w.callers[c].pc.key in w.cache
    ensures var w := Run(cfg, steps).value;
      var w' := CallerStep(cfg, w, c, reply);
      && Holds(w', c) && w'.callers[c].pc.answer.origin == FromCache
      && Current(w.log, w.callers[c].pc.key) == Some(w'.callers[c].pc.answer.value)
      && Content(w', w'.callers[c].pc.answer.loc) == w'.callers[c].pc.answer.value
  {
    RunValid(cfg, steps);
    assert ValidItem(Run(cfg, steps).value, Run(cfg, steps).value.callers[c].pc.key);
  }

  /** A buffered answer consists of bytes that were fetched under the caller's own key; when the
      caller's URL and range hold no bar, for its own URL and range, whatever else is asked for;
      likewise when neither range header has a comma. */
  lemma AnswersAreOwn(maxBytes: int, steps: seq<Step>, c: nat) returns (e: Event)
    requires Run(Coalescing(maxBytes), steps).Some? && Holds(Run(Coalescing(maxBytes), steps).value, c)
    ensures var w := Run(Coalescing(maxBytes), steps).value;
      var caller := w.callers[c];
      && e in w.log && e.Fetched? && e.value == caller.pc.answer.value
      && CoalescingKey(caller.url, caller.range, maxBytes) == Some(e.key)
      && |e.value.body| <= maxBytes
      && ('|' !in caller.url && '|' !in caller.range ==> e.url == caller.url && TrimSpace(e.range) == TrimSpace(caller.range))
      && (',' !in caller.range && ',' !in e.range ==> e.url == caller.url && TrimSpace(e.range) == TrimSpace(caller.range))
  {
    var cfg := Coalescing(maxBytes);
    RunValid(cfg, steps);
    var w := Run(cfg, steps).value;
    var caller := w.callers[c];
    assert ValidCaller(cfg, w, c);
    var key := cfg.keyOf(caller.url, caller.range).value;
    e :| e in w.log && e.Fetched? && e.key == key && e.value == caller.pc.answer.value;
    assert OwnEvent(cfg, e);
    if '|' !in caller.url && '|' !in caller.range {
      BarFreeKeyIsOwn(caller.url, caller.range, e.url, e.range, maxBytes);
    }
    if ',' !in caller.range && ',' !in e.range {
      CommaFreeKeysInjective(caller.url, caller.range, e.url, e.range, maxBytes);
    }
  }

  // ---------------------------------------------------------------- progress

  /** The flight has landed, or is still under way. */
  ghost predicate LandedOrFlying(w: World, id: nat) {
    id in w.results || exists key :: key in w.flights && w.flights[key].id == id
  }

  ghost predicate WaitersAttended(w: World) {
    forall c :: 0 <= c < |w.callers| && w.callers[c].pc.Wait? ==> LandedOrFlying(w, w.callers[c].pc.id)
  }

  /** No flight disappears without leaving its result. */
  lemma StepKeepsFlights(cfg: Config, w: World, step: Step, id: nat)
    requires Enabled(w, step) && LandedOrFlying(w, id)
    ensures LandedOrFlying(Apply(cfg, w, step), id)
  {
    var w' := Apply(cfg, w, step);
    if id !in w.results {
      var key :| key in w.flights && w.flights[key].id == id;
      assert id in w'.results || (key in w'.flights && w'.flights[key].id == id);
    }
  }

  lemma StepAttended(cfg: Config, w: World, step: Step)
    requires WaitersAttended(w) && Enabled(w, step)
    ensures WaitersAttended(Apply(cfg, w, step))
  {
    var w' := Apply(cfg, w, step);
    forall c | 0 <= c < |w'.callers| && w'.callers[c].pc.Wait? ensures LandedOrFlying(w', w'.callers[c].pc.id) {
      if c < |w.callers| && w.callers[c].pc == w'.callers[c].pc {
        StepKeepsFlights(cfg, w, step, w.callers[c].pc.id);
      } else {
        var key := w.callers[c].pc.key;
        assert key in w'.flights && w'.flights[key].id == w'.callers[c].pc.id;
      }
    }
  }

  lemma {:induction false} RunAttended(cfg: Config, steps: seq<Step>)
    requires Run(cfg, steps).Some?
    ensures WaitersAttended(Run(cfg, steps).value)
  {
    if steps != [] {
      RunAttended(cfg, steps[..|steps| - 1]);
      StepAttended(cfg, Run(cfg, steps[..|steps| - 1]).value, steps[|steps| - 1]);
    }
  }

  /** The step is the caller's own, or one of the flight it waits for. */
  predicate OnBehalfOf(w: World, c: nat, step: Step)
    requires c < |w.callers|
  {
    match step
    case Advance(d, _) => d == c
    case Fly(key, _) => key in w.flights && w.callers[c].pc == Wait(w.flights[key].id)
    case _ => false
  }

  /** In every interleaving, a caller that has no answer yet can take a step, or the flight it
      waits for can: nobody is stranded and nothing deadlocks. */
  lemma NobodyIsStranded(cfg: Config, steps: seq<Step>, c: nat, reply: Reply) returns (step: Step)
    requires Run(cfg, steps).Some?
    requires c < |Run(cfg, steps).value.callers| && !Run(cfg, steps).value.callers[c].pc.Done?
    ensures Enabled(Run(cfg, steps).value, step) && OnBehalfOf(Run(cfg, steps).value, c, step)
  {
    RunAttended(cfg, steps);
    var w := Run(cfg, steps).value;
    if w.callers[c].pc.Wait? && w.callers[c].pc.id !in w.results {
      var key :| key in w.flights && w.flights[key].id == w.callers[c].pc.id;
      step := Fly(key, reply);
    } else {
      step := Advance(c, reply);
    }
  }

  /** At most so many steps are left to a caller, with the flight it may start. */
  function PcWork(pc: Pc): nat {
    match pc
    case Begin => 8
    case CheckCache(_) => 7
    case Enter(_) => 6
    case Wait(_) => 2
    case Direct => 1
    case Done(_) => 0
  }

  function StageWork(stage: Stage): nat {
    match stage
    case Checking => 3
    case Fetching => 2
    case Storing(_) => 1
  }

  function CallerWork(w: World): nat -> nat {
    (c: nat) => if c < |w.callers| then PcWork(w.callers[c].pc) else 0
  }

  function FlightWork(w: World): nat -> nat {
    (id: nat) =>
      if id < |w.flightKeys| && w.flightKeys[id] in w.flights && w.flights[w.flightKeys[id]].id == id
      then StageWork(w.flights[w.flightKeys[id]].stage) else 0
  }

  function Work(w: World): nat {
    Sum(|w.callers|, CallerWork(w)) + Sum(|w.flightKeys|, FlightWork(w))
  }

  /** A caller's step, when flights stay as they are. */
  lemma CallerWorkDrops(w: World, w': World, c: nat)
    requires c < |w.callers| && |w'.callers| == |w.callers| && w'.flights == w.flights && w'.flightKeys == w.flightKeys
    requires forall d :: 0 <= d < |w.callers| && d != c ==> w'.callers[d] == w.callers[d]
    requires PcWork(w'.callers[c].pc) < PcWork(w.callers[c].pc)
    ensures Work(w') < Work(w)
  {
    SumChange(|w.callers|, CallerWork(w), CallerWork(w'), c);
    SumSame(|w.flightKeys|, FlightWork(w), FlightWork(w'));
  }

  lemma StartFlightWork(w: World, w': World, c: nat, key: string, flight: Flight, id: nat)
    requires c < |w.callers| && w.callers[c].pc.Enter? && key !in w.flights && id == |w.flightKeys|
    requires flight.id == id && flight.stage == Checking
    requires w'.flights == w.flights[key := flight] && w'.flightKeys == w.flightKeys + [key]
    requires w'.callers == w.callers[c := w.callers[c].(pc := Wait(id))]
    ensures Work(w') < Work(w)
  {
    SumChange(|w.callers|, CallerWork(w), CallerWork(w'), c);
    forall i | 0 <= i < id ensures FlightWork(w)(i) == FlightWork(w')(i) {
      assert w'.flightKeys[i] == w.flightKeys[i];
    }
    SumSame(id, FlightWork(w), FlightWork(w'));
    assert FlightWork(w')(id) == 3;
  }

  lemma AdvanceDrops(cfg: Config, w: World, c: nat, reply: Reply)
    requires Enabled(w, Advance(c, reply))
    ensures Work(CallerStep(cfg, w, c, reply)) < Work(w)
  {
    var caller := w.callers[c];
    var w' := CallerStep(cfg, w, c, reply);
    if caller.pc.Enter? && caller.pc.key !in w.flights {
      var id := |w.flightKeys|;
      StartFlightWork(w, w', c, caller.pc.key, Flight(id, caller.url, caller.range, Checking), id);
    } else {
      CallerWorkDrops(w, w', c);
    }
  }

  lemma FlightWorkDrops(w: World, w': World, key: string, id: nat)
    requires w'.callers == w.callers && w'.flightKeys == w.flightKeys
    requires key in w.flights && id == w.flights[key].id && id < |w.flightKeys| && w.flightKeys[id] == key
    requires w'.flights - {key} == w.flights - {key}
    requires key in w'.flights ==> w'.flights[key].id == id && StageWork(w'.flights[key].stage) < StageWork(w.flights[key].stage)
    ensures Work(w') < Work(w)
  {
    forall i: nat | i < |w.flightKeys| && i != id ensures FlightWork(w)(i) == FlightWork(w')(i) {
      var k := w.flightKeys[i];
      if k != key {
        assert k in w.flights <==> k in w.flights - {key};
        assert k in w'.flights <==> k in w'.flights - {key};
        if k in w.flights { assert (w.flights - {key})[k] == (w'.flights - {key})[k]; }
      }
    }
    SumSame(|w.callers|, CallerWork(w), CallerWork(w'));
    SumChange(|w.flightKeys|, FlightWork(w), FlightWork(w'), id);
  }

  /** A flight's step leaves the flight further on, or landed. */
  lemma FlyDrops(cfg: Config, w: World, key: string, reply: Reply)
    requires Enabled(w, Fly(key, reply)) && ValidFlight(cfg, w, key)
    ensures Work(FlightStep(cfg, w, key, reply)) < Work(w)
  {
    FlightWorkDrops(w, FlightStep(cfg, w, key, reply), key, w.flights[key].id);
  }

  function Count(steps: seq<Step>, p: Step -> bool): nat {
    if steps == [] then 0 else Count(steps[..|steps| - 1], p) + if p(steps[|steps| - 1]) then 1 else 0
  }

  predicate IsMove(step: Step) { step.Advance? || step.Fly? }

  predicate IsStart(step: Step) { step.Start? }

  lemma OtherStepsWork(cfg: Config, w: World, step: Step)
    requires Enabled(w, step) && !IsMove(step)
    ensures Work(Apply(cfg, w, step)) == Work(w) + if IsStart(step) then 8 else 0
  {
    var w' := Apply(cfg, w, step);
    SumSame(|w.callers|, CallerWork(w), CallerWork(w'));
    SumSame(|w.flightKeys|, FlightWork(w), FlightWork(w'));
  }

  /** Every caller is done after a bounded number of steps: in any run, callers and flights together
      make at most eight steps for each caller, whatever is evicted or overwritten meanwhile. */
  lemma {:induction false} EightStepsEach(cfg: Config, steps: seq<Step>)
    requires Run(cfg, steps).Some?
    ensures Count(steps, IsMove) + Work(Run(cfg, steps).value) <= 8 * Count(steps, IsStart)
  {
    if steps != [] {
      var front, last := steps[..|steps| - 1], steps[|steps| - 1];
      var before := Run(cfg, front).value;
      EightStepsEach(cfg, front);
      match last {
        case Advance(c, reply) => AdvanceDrops(cfg, before, c, reply);
        case Fly(key, reply) =>
          RunValid(cfg, front);
          FlyDrops(cfg, before, key, reply);
        case _ => OtherStepsWork(cfg, before, last);
      }
    }
  }
}
