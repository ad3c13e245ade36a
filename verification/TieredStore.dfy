/** The two-tier blob store: a local tier that may lose or refuse writes, in front of a remote
    tier that decides what a key holds. */
module TieredStore {
  import opened Basics
  import opened Domain

  type Blobs = map<BlobKey, Bytes>

  /** A tier that is not configured is None. */
  datatype Tiers = Tiers(local: Option<Blobs>, remote: Option<Blobs>)

  /** What a Get returns: bytes, nothing with no error (no remote tier), or the remote's error. */
  datatype GetResult = Found(body: Bytes) | Nothing | GetError

  function Written(tier: Option<Blobs>, key: BlobKey, body: Bytes, ok: bool): Option<Blobs> {
    if tier.Some? && ok then Some(tier.value[key := body]) else tier
  }

  /** Put: the tiers afterwards and whether it returned no error. */
  function PutResult(t: Tiers, key: BlobKey, body: Bytes, remoteOk: bool, localOk: bool): (Tiers, bool) {
    if t.remote.Some? && !remoteOk then (t, false)
    else (Tiers(Written(t.local, key, body, localOk), Written(t.remote, key, body, true)), true)
  }

  /** Get: the tiers afterwards and the result. */
  function GetOutcome(t: Tiers, key: BlobKey, localReadOk: bool, remoteOk: bool, localPutOk: bool): (Tiers, GetResult) {
    if t.local.Some? && localReadOk && key in t.local.value then (t, Found(t.local.value[key]))
    else if t.remote.None? then (t, Nothing)
    else if !remoteOk || key !in t.remote.value then (t, GetError)
    else (t.(local := Written(t.local, key, t.remote.value[key], localPutOk)), Found(t.remote.value[key]))
  }

  class Store {
    var local: Option<Blobs>
    var remote: Option<Blobs>

    constructor (local: Option<Blobs>, remote: Option<Blobs>)
      ensures State() == Tiers(local, remote)
    {
      this.local, this.remote := local, remote;
    }

    function State(): Tiers
      reads this
    {
      Tiers(local, remote)
    }

    method Put(key: BlobKey, body: Bytes, remoteOk: bool, localOk: bool) returns (ok: bool)
      modifies this
      ensures (State(), ok) == PutResult(old(State()), key, body, remoteOk, localOk)
    {
      if remote.Some? {
        if !remoteOk { return false; }
        remote := Some(remote.value[key := body]);
      }
      if local.Some? && localOk {
        local := Some(local.value[key := body]);
      }
      return true;
    }

    method Get(key: BlobKey, localReadOk: bool, remoteOk: bool, localPutOk: bool) returns (result: GetResult)
      modifies this`local
      ensures (State(), result) == GetOutcome(old(State()), key, localReadOk, remoteOk, localPutOk)
    {
      if local.Some? && localReadOk && key in local.value {
        return Found(local.value[key]);
      }
      if remote.None? { return Nothing; }
      if !remoteOk || key !in remote.value { return GetError; }
      var body := remote.value[key];
      if local.Some? && localPutOk {
        local := Some(local.value[key := body]);
      }
      return Found(body);
    }
  }

  // ---------------------------------------------------------------- the tiers as one map

  /** The local tier never contradicts the remote one. */
  ghost predicate Coherent(t: Tiers) {
    t.local.Some? && t.remote.Some? ==>
      forall key :: key in t.local.value ==> key in t.remote.value && t.local.value[key] == t.remote.value[key]
  }

  /** An operation on the store, or a loss in its local tier, with the environment's choices. */
  datatype Op =
    | Put(key: BlobKey, body: Bytes, remoteOk: bool, localOk: bool)
    | Get(key: BlobKey, localReadOk: bool, remoteOk: bool, localPutOk: bool)
    | LoseLocal(keys: set<BlobKey>)

  function Lose(tier: Option<Blobs>, keys: set<BlobKey>): Option<Blobs> {
    if tier.Some? then Some(map k | k in tier.value && k !in keys :: tier.value[k]) else None
  }

  function Do(t: Tiers, op: Op): Tiers {
    match op
    case Put(key, body, remoteOk, localOk) => PutResult(t, key, body, remoteOk, localOk).0
    case Get(key, localReadOk, remoteOk, localPutOk) => GetOutcome(t, key, localReadOk, remoteOk, localPutOk).0
    case LoseLocal(keys) => t.(local := Lose(t.local, keys))
  }

  function Run(t: Tiers, ops: seq<Op>): Tiers
    decreases |ops|
  {
    if ops == [] then t else Run(Do(t, ops[0]), ops[1..])
  }

  /** A Put keeps the tiers coherent exactly when it fails, or its local write succeeds, or the
      local tier does not hold other bytes for the key. */
  lemma PutCoherentIff(t: Tiers, key: BlobKey, body: Bytes, remoteOk: bool, localOk: bool)
    requires t.local.Some? && t.remote.Some? && Coherent(t)
    ensures Coherent(PutResult(t, key, body, remoteOk, localOk).0)
      <==> !remoteOk || localOk || key !in t.local.value || t.local.value[key] == body
  {
    var after := PutResult(t, key, body, remoteOk, localOk).0;
    if remoteOk && !localOk && key in t.local.value {
      assert after.remote.value[key] == body && after.local == t.local;
    }
  }

  /** Each key only ever receives one content. */
  ghost predicate OneContentEach(ops: seq<Op>, content: BlobKey -> Bytes) {
    forall i :: 0 <= i < |ops| && ops[i].Put? ==> ops[i].body == content(ops[i].key)
  }

  /** Both tiers hold nothing but those contents, and the local one is a sub-map of the remote. */
  ghost predicate Holds(t: Tiers, content: BlobKey -> Bytes) {
    && t.local.Some? && t.remote.Some?
    && (forall key :: key in t.remote.value ==> t.remote.value[key] == content(key))
    && Coherent(t)
  }

  lemma DoHolds(t: Tiers, op: Op, content: BlobKey -> Bytes)
    requires Holds(t, content)
    requires op.Put? ==> op.body == content(op.key)
    ensures Holds(Do(t, op), content)
    ensures t.remote.value.Keys <= Do(t, op).remote.value.Keys
  {
  }

  /** When each key only ever receives one content, the local tier stays a sub-map of the remote
      one through any failures and losses, and the remote forgets nothing. */
  lemma {:induction false} LocalStaysSubMap(t: Tiers, ops: seq<Op>, content: BlobKey -> Bytes)
    requires Holds(t, content) && OneContentEach(ops, content)
    ensures Holds(Run(t, ops), content)
    ensures t.remote.value.Keys <= Run(t, ops).remote.value.Keys
    decreases |ops|
  {
    if ops != [] {
      assert ops[0].Put? ==> ops[0].body == content(ops[0].key);
      DoHolds(t, ops[0], content);
      assert forall i :: 0 <= i < |ops[1..]| ==> ops[1..][i] == ops[i + 1];
      LocalStaysSubMap(Do(t, ops[0]), ops[1..], content);
    }
  }

  /** The key only ever receives this content; other keys may receive anything. */
  ghost predicate OneContent(ops: seq<Op>, key: BlobKey, body: Bytes) {
    forall i :: 0 <= i < |ops| && ops[i].Put? && ops[i].key == key ==> ops[i].body == body
  }

  /** The local tier holds this content for the key, or nothing. */
  predicate LocalAgrees(t: Tiers, key: BlobKey, body: Bytes) {
    t.local.Some? && key in t.local.value ==> t.local.value[key] == body
  }

  /** The key has been put: the remote tier holds this content, and the local one nothing else. */
  predicate Settled(t: Tiers, key: BlobKey, body: Bytes) {
    t.remote.Some? && key in t.remote.value && t.remote.value[key] == body && LocalAgrees(t, key, body)
  }

  lemma DoSettled(t: Tiers, op: Op, key: BlobKey, body: Bytes)
    requires Settled(t, key, body)
    requires op.Put? && op.key == key ==> op.body == body
    ensures Settled(Do(t, op), key, body)
  {
  }

  lemma {:induction false} RunSettled(t: Tiers, ops: seq<Op>, key: BlobKey, body: Bytes)
    requires Settled(t, key, body) && OneContent(ops, key, body)
    ensures Settled(Run(t, ops), key, body)
    decreases |ops|
  {
    if ops != [] {
      DoSettled(t, ops[0], key, body);
      assert forall i :: 0 <= i < |ops[1..]| ==> ops[1..][i] == ops[i + 1];
      RunSettled(Do(t, ops[0]), ops[1..], key, body);
    }
  }

  /** After a Put that succeeded and any further operations and losses, a Get returns the bytes
      put, unless the remote fails it. Other keys may be overwritten at will. */
  lemma PutThenGet(t: Tiers, key: BlobKey, body: Bytes, localOk: bool, after: seq<Op>,
                   localReadOk: bool, remoteOk: bool, localPutOk: bool)
    requires t.remote.Some? && (localOk || LocalAgrees(t, key, body))
    requires OneContent(after, key, body)
    ensures var (put, ok) := PutResult(t, key, body, true, localOk);
      var result := GetOutcome(Run(put, after), key, localReadOk, remoteOk, localPutOk).1;
      && ok
      && (result == Found(body) || result == GetError)
      && (remoteOk ==> result == Found(body))
  {
    var put := PutResult(t, key, body, true, localOk).0;
    assert Settled(put, key, body);
    RunSettled(put, after, key, body);
  }

  /** Every Get to come returns the bytes or the remote's error, as long as the key is not
      overwritten with others. */
  ghost predicate Reliable(t: Tiers, key: BlobKey, body: Bytes) {
    forall after, localReadOk, remoteOk, localPutOk :: OneContent(after, key, body) ==>
      GetOutcome(Run(t, after), key, localReadOk, remoteOk, localPutOk).1 in {Found(body), GetError}
  }

  /** A successful Put makes a key reliable exactly when its local write succeeds or the local tier
      holds no other bytes for the key. */
  lemma PutReliableIff(t: Tiers, key: BlobKey, body: Bytes, localOk: bool)
    requires t.remote.Some?
    ensures Reliable(PutResult(t, key, body, true, localOk).0, key, body) <==> localOk || LocalAgrees(t, key, body)
  {
    var put := PutResult(t, key, body, true, localOk).0;
    if localOk || LocalAgrees(t, key, body) {
      forall after, localReadOk, remoteOk, localPutOk | OneContent(after, key, body)
        ensures GetOutcome(Run(put, after), key, localReadOk, remoteOk, localPutOk).1 in {Found(body), GetError}
      {
        PutThenGet(t, key, body, localOk, after, localReadOk, remoteOk, localPutOk);
      }
    } else {
      assert OneContent([], key, body);
      assert GetOutcome(Run(put, []), key, true, true, true).1 == Found(t.local.value[key]);
    }
  }

  /** What is near is served without the remote: after a Put whose local write succeeded, or a Get that
      refilled the local tier, the next Get needs no remote, and finds the remote's bytes. */
  lemma ServedFromLocal(t: Tiers, key: BlobKey, body: Bytes, remoteOk: bool)
    requires t.local.Some?
    ensures var (put, ok) := PutResult(t, key, body, remoteOk, true);
      (t.remote.None? || remoteOk ==> ok && GetOutcome(put, key, true, false, false).1 == Found(body))
    ensures var (got, result) := GetOutcome(t, key, true, true, true);
      result.Found? ==> GetOutcome(got, key, true, false, false).1 == result
    ensures t.remote.Some? && key !in t.local.value && key in t.remote.value ==>
      GetOutcome(t, key, true, true, true).1 == Found(t.remote.value[key])
  {
  }

  /** A Put that the remote refuses fails, and changes nothing. */
  lemma RefusedPut(t: Tiers, key: BlobKey, body: Bytes, localOk: bool)
    ensures t.remote.Some? ==> PutResult(t, key, body, false, localOk) == (t, false)
    ensures forall remoteOk :: t.remote.None? || remoteOk ==> PutResult(t, key, body, remoteOk, localOk).1
  {
  }

  /** Two contents for one key and one lost local write: the older bytes come back. */
  lemma StaleLocalRead(key: BlobKey, older: Bytes, newer: Bytes)
    requires older != newer
    ensures var t0 := Tiers(Some(map[]), Some(map[]));
      var t1 := PutResult(t0, key, older, true, true).0;
      var t2 := PutResult(t1, key, newer, true, false);
      t2.1 && GetOutcome(t2.0, key, true, true, true).1 == Found(older) && !Coherent(t2.0)
  {
    var t1 := PutResult(Tiers(Some(map[]), Some(map[])), key, older, true, true).0;
    PutCoherentIff(t1, key, newer, true, false);
  }

  /** On coherent tiers a Get is a look-up in the remote map: it answers what the remote holds,
      fails only where the remote would, and changes no answer to come. */
  lemma GetRefinesRemote(t: Tiers, key: BlobKey, localReadOk: bool, localPutOk: bool)
    requires t.local.Some? && t.remote.Some? && Coherent(t)
    ensures var (after, result) := GetOutcome(t, key, localReadOk, true, localPutOk);
      && result == (if key in t.remote.value then Found(t.remote.value[key]) else GetError)
      && after.remote == t.remote && Coherent(after)
  {
  }
}
