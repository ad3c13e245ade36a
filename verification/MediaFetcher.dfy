/** The coalescing fetcher on the heap: buffered responses are objects with byte arrays, and every
    response handed out is a fresh copy. One caller at a time; CoalescingFetch has the rest. */
module MediaFetcher {
  import opened Basics
  import opened CacheKeys
  import opened CoalescingFetch

  class BufferedResponse {
    var status: int
    var headers: map<string, seq<string>>
    const body: array<Byte>

    constructor (buffer: Buffer)
      ensures Value() == buffer && fresh(body)
    {
      status, headers := buffer.status, buffer.headers;
      var bytes := buffer.body;
      body := new Byte[|bytes|](i requires 0 <= i < |bytes| => bytes[i]);
      new;
      assert body[..] == bytes;
    }

    function Value(): Buffer
      reads this, body
    {
      Buffer(status, headers, body[..])
    }
  }

  /** cloneBufferedResponse. */
  method Clone(value: BufferedResponse) returns (copy: BufferedResponse)
    ensures fresh(copy) && fresh(copy.body) && copy.Value() == value.Value()
  {
    copy := new BufferedResponse(value.Value());
  }

  /** What Fetch returns: a buffer, a live response that is passed through, or an error. */
  datatype FetchOutcome = Copied(response: BufferedResponse) | PassedOn(live: Reply) | Error

  class Fetcher {
    const maxBytes: int
    var cache: map<string, BufferedResponse>

    constructor (maxBytes: int)
      ensures this.maxBytes == maxBytes && cache == map[]
    {
      this.maxBytes := maxBytes;
      cache := map[];
    }

    /** The contents of the cache. */
    ghost function Items(): map<string, Buffer>
      reads this, cache.Values, set r | r in cache.Values :: r.body
    {
      map key | key in cache :: cache[key].Value()
    }

    /** cachedBuffered. */
    method CachedBuffered(key: string) returns (found: Option<BufferedResponse>)
      ensures found.Some? <==> key in cache
      ensures found.Some? ==> fresh(found.value) && fresh(found.value.body) && found.value.Value() == Items()[key]
    {
      if key !in cache { return None; }
      var copy := Clone(cache[key]);
      return Some(copy);
    }

    /** Fetch with nobody else in flight. reply is what the upstream would answer now, directReply
        what it would answer to the second, direct fetch of an unbufferable response. Only an
        unbuffered key changes the cache, and the result is never an object that was there before. */
    method Fetch(url: string, range: string, reply: Reply, directReply: Reply) returns (outcome: FetchOutcome)
      modifies this
      ensures outcome.Copied? ==> fresh(outcome.response) && fresh(outcome.response.body)
      ensures var key := CoalescingKey(url, range, maxBytes);
        match key
        case None => cache == old(cache) && outcome == if reply.NoReply? then Error else PassedOn(reply)
        case Some(k) =>
          if k in old(cache) then
            cache == old(cache) && outcome.Copied? && outcome.response.Value() == old(Items())[k]
          else if Fails(reply, maxBytes) then
            cache == old(cache) && outcome == Error
          else if !Bufferable(reply, maxBytes) then
            cache == old(cache) && outcome == if directReply.NoReply? then Error else PassedOn(directReply)
          else
            && outcome.Copied? && outcome.response.status == reply.status
            && outcome.response.headers == reply.headers && outcome.response.body[..] == reply.body.value
            && k in cache && cache == old(cache)[k := cache[k]]
            && fresh(cache[k]) && fresh(cache[k].body) && cache[k].Value() == outcome.response.Value()
            && cache[k] != outcome.response && cache[k].body != outcome.response.body
    {
      var key := CoalescingKey(url, range, maxBytes);
      if key.None? {
        return if reply.NoReply? then Error else PassedOn(reply);
      }
      var cached := CachedBuffered(key.value);
      if cached.Some? { return Copied(cached.value); }
      if reply.NoReply? { return Error; }
      ReadBufferedIs(reply, maxBytes);
      match ReadBuffered(reply, maxBytes) {
        case NotBufferable => return if directReply.NoReply? then Error else PassedOn(directReply);
        case ReadError => return Error;
        case Read(buffer) =>
          var stored := new BufferedResponse(buffer);
          cache := cache[key.value := stored];
          var copy := Clone(stored);
          return Copied(copy);
      }
    }

    /** Fetching, scribbling on the result, and fetching again with no eviction in between: the
        second answer is what the first one was, and the upstream is not asked. */
    method FetchScribbleFetch(url: string, range: string, reply: Reply, reply': Reply, directReply: Reply, index: nat, byte: Byte)
        returns (first: Option<Buffer>, second: FetchOutcome)
      modifies this
      ensures first.Some? ==> second.Copied? && second.response.Value() == first.value
    {
      var outcome := Fetch(url, range, reply, directReply);
      if !outcome.Copied? { return None, Error; }
      first := Some(outcome.response.Value());
      outcome.response.status := 0;
      outcome.response.headers := map[];
      if index < outcome.response.body.Length { outcome.response.body[index] := byte; }
      second := Fetch(url, range, reply', directReply);
    }
  }
}
