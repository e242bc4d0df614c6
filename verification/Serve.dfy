/**
 The cache itself: the objects that answer requests, store responses and keep them up to date.
 Every method is proved against the functions of `System`, `Tee` and `Updates`.
 */
module Serve {
  import opened Text
  import opened Http
  import opened CacheKey
  import opened Freshness
  import opened StoreGate
  import opened Wire
  import opened System
  import opened Selection
  import T = Tee
  import U = Updates
  import R = Refresh
  import Y = ReadYourWrites
  import CC = CacheControl

  /* What the client is sent. */

  const HIT := "Always-Cache; hit"
  const URI_MISS := "Always-Cache; fwd=uri-miss"
  const OMITTED: set<string> := {"X-Forwarded-For", "X-Forwarded-Proto", "X-Forwarded-Host"}

  function WithAge(cfg: Config, e: CacheEntry, h: Header, now: int): Header {
    Set(h, "Age", AgeText(HeaderAge(cfg.dates, h, e.receivedAt, e.requestedAt, now)))
  }

  /** The client's writer after a stored response has been sent at `now`. */
  function SendStored(cfg: Config, w: T.Sink, e: CacheEntry, res: Response, now: int): T.Sink {
    var merged := T.Merge(w.header, WithAge(cfg, e, res.header, now) - OMITTED);
    var v := w.(header := Add(merged, "Cache-Status", HIT));
    T.SinkWrite(T.SinkWriteHeader(v, res.status), res.body)
  }

  function StoredAnswer(cfg: Config, e: CacheEntry, now: int): T.Sink {
    var stored := ReadEntry(cfg, e);
    if stored.Unreadable? then T.FRESH_SINK else SendStored(cfg, T.FRESH_SINK, e, stored.response, now)
  }

  /** The client's writer after a reply was passed through the recorder. */
  function OriginAnswer(w: T.Sink, reply: Reply): T.Sink {
    var h := T.Merge(w.header, reply.header);
    w.(header := h, sent := h, status := reply.status, body := reply.Body(), calls := w.calls + 1)
  }

  /** What a client gets with a hit: the recorded fields, but for Age, Cache-Status and three that are dropped. */
  lemma HitSendsRecordedResponse(cfg: Config, x: Exchange, decided: int, received: int, e: CacheEntry, now: int,
                                 name: string)
    requires OriginId(cfg.origin) && ExchangeOk(x) && Made(cfg, x, decided, received, e)
    requires CanonicalName(name) == name
    ensures var w := StoredAnswer(cfg, e, now);
      && w.calls == 1 && w.status == x.reply.status && w.body == x.reply.Body()
      && Values(w.sent, name) ==
         if name == "Age" then [AgeText(HeaderAge(cfg.dates, StoredHeader(x), e.receivedAt, e.requestedAt, now))]
         else if name == "X-Forwarded-For" || name == "X-Forwarded-Proto" || name == "X-Forwarded-Host" then []
         else if name == "Cache-Status" then Values(StoredHeader(x), name) + ["Always-Cache; hit"]
         else Values(StoredHeader(x), name)
  {
    hide ReadEntry, Made, FixPragma, CanonicalName, HeaderAge, AgeText, WellFormedRequest, Head, OMITTED, HIT,
         Replayable;
    OmittedIff(name);
    HitText();
    ReadMade(cfg, x, decided, received, e);
    OwnNames();
    var h := WithAge(cfg, e, StoredHeader(x), now);
    var age := HeaderAge(cfg.dates, StoredHeader(x), e.receivedAt, e.requestedAt, now);
    SetValues(StoredHeader(x), "Age", AgeText(age), name);
    MergeIntoEmpty(h - OMITTED);
    AddValues(h - OMITTED, "Cache-Status", HIT, name);
    assert Values(h - OMITTED, name) == if name in OMITTED then [] else Values(h, name);
    StatusIsSent(x);
  }

  lemma OmittedIff(name: string)
    ensures name in OMITTED <==>
            name == "X-Forwarded-For" || name == "X-Forwarded-Proto" || name == "X-Forwarded-Host"
  {}

  lemma HitText()
    ensures HIT == "Always-Cache; hit"
  {}

  lemma StatusIsSent(x: Exchange)
    requires ExchangeOk(x)
    ensures x.reply.status >= 100
  {}

  lemma SetValues(h: Header, field: string, value: string, name: string)
    ensures Values(Set(h, field, value), name) ==
            if CanonicalName(field) == CanonicalName(name) then [value] else Values(h, name)
  {
    hide CanonicalName;
  }

  lemma MergeIntoEmpty(h: Header)
    ensures T.Merge(map[], h) == h
  {
    assert forall k :: k in h ==> [] + h[k] == h[k];
  }

  lemma OwnNames()
    ensures CanonicalName("Age") == "Age" && CanonicalName("Cache-Status") == "Cache-Status"
    ensures "Age" !in OMITTED && "Cache-Status" !in OMITTED
  {
    hide CanonicalName;
    AgeIsCanonical();
    CacheStatusIsCanonical();
    assert "Age"[0] == 'A' && "Cache-Status"[0] == 'C';
  }

  lemma AgeIsCanonical()
    ensures CanonicalName("Age") == "Age"
  {}

  lemma CacheStatusIsCanonical()
    ensures CanonicalName("Cache-Status") == "Cache-Status"
  {
    assert IsToken("Cache-Status");
  }

  /* The recorder in use. */

  function CallsOf(chunks: seq<string>): seq<T.Call> {
    if chunks == [] then [] else CallsOf(chunks[..|chunks| - 1]) + [T.Write(chunks[|chunks| - 1])]
  }

  function Deliver(t: T.Saver, reply: Reply): T.Saver {
    T.Run(t.(header := reply.header), [T.WriteHeader(reply.status)] + CallsOf(reply.chunks))
  }

  lemma {:induction false} CallsOfHasOneHead(code: int, chunks: seq<string>)
    ensures var calls := [T.WriteHeader(code)] + CallsOf(chunks);
      && T.Heads(calls) == 1 && T.Written(calls) == Concat(chunks)
      && forall call :: call in calls && call.WriteHeader? ==> call.code == code
  {
    hide T.Heads, T.Written;
    var calls := [T.WriteHeader(code)] + CallsOf(chunks);
    if chunks == [] {
      assert calls == [] + [T.WriteHeader(code)];
      NothingCalled();
      T.LastCall(ANY_SAVER, [], T.WriteHeader(code));
    } else {
      var n := |chunks| - 1;
      CallsOfHasOneHead(code, chunks[..n]);
      var init := [T.WriteHeader(code)] + CallsOf(chunks[..n]);
      assert calls == init + [T.Write(chunks[n])];
      T.LastCall(ANY_SAVER, init, T.Write(chunks[n]));
    }
  }

  const ANY_SAVER := T.Saver(T.FRESH_SINK, false, "", map[], 0, false, 0)

  lemma NothingCalled()
    ensures T.Heads([]) == 0 && T.Written([]) == ""
  {}

  /** A delivered reply is recorded as one response, and reaches the client unless its status is filtered. */
  lemma DeliverIs(t: T.Saver, reply: Reply)
    requires T.FreshSaver(t) && t.client.body == "" && reply.status >= 100
    ensures var u := Deliver(t, reply);
      && u.status == reply.status && u.header == reply.header
      && u.buffer == Head(reply.status, reply.header) + reply.Body()
      && u.client == if t.connected && reply.status != t.filter then OriginAnswer(t.client, reply) else t.client
  {
    hide Head, T.Merge, T.Run;
    var calls := [T.WriteHeader(reply.status)] + CallsOf(reply.chunks);
    var v := t.(header := reply.header);
    CallsOfHasOneHead(reply.status, reply.chunks);
    T.RunRecords(v, calls);
    T.SinksAgree(v, calls);
    FinalStatus(v, reply.status, reply.chunks);
  }

  lemma {:induction false} FinalStatus(v: T.Saver, code: int, chunks: seq<string>)
    ensures var u := T.Run(v, [T.WriteHeader(code)] + CallsOf(chunks)); u.status == code && u.wroteHeaders
  {
    hide Head, T.Merge, T.Run;
    var calls := [T.WriteHeader(code)] + CallsOf(chunks);
    if chunks == [] {
      assert calls == [] + [T.WriteHeader(code)];
      T.LastCall(v, [], T.WriteHeader(code));
    } else {
      var n := |chunks| - 1;
      FinalStatus(v, code, chunks[..n]);
      var init := [T.WriteHeader(code)] + CallsOf(chunks[..n]);
      assert calls == init + [T.Write(chunks[n])];
      T.LastCall(v, init, T.Write(chunks[n]));
    }
  }

  /* The objects. */

  /** The clock and the origin; the history is all that was asked and answered. */
  class World {
    const env: U.Env
    var now: int
    var hist: seq<Exchange>

    constructor (env: U.Env, now: int)
      ensures this.env == env && this.now == now && hist == []
    {
      this.env, this.now, hist := env, now, [];
    }

    method RoundTrip(r: Request) returns (reply: Reply)
      modifies this
      ensures reply == env.reply(|old(hist)|, r)
      ensures now == old(now) + env.pause(|old(hist)|)
      ensures hist == old(hist) + [Exchange(r, reply, old(now), now)]
    {
      var n, start := |hist|, now;
      reply := env.reply(n, r);
      now := now + env.pause(n);
      hist := hist + [Exchange(r, reply, start, now)];
    }

    method Sleep(d: nat)
      modifies this`now
      ensures now == old(now) + d
    {
      now := now + d;
    }
  }

  /** All entries of the store whose key has the prefix, one per key. */
  ghost predicate Listing(store: Store, prefix: string, list: seq<CacheEntry>) {
    && (forall k :: k in store && prefix <= k ==> store[k] in list)
    && (forall i :: 0 <= i < |list| ==> exists k :: k in store && prefix <= k && list[i] == store[k])
    && ((forall k :: k in store ==> store[k].key == k) ==>
          forall i, j :: 0 <= i < j < |list| ==> list[i].key != list[j].key)
  }

  /** The cache provider: a table of entries with times kept in whole seconds. */
  class Provider {
    var entries: Store

    constructor () ensures entries == map[] { entries := map[]; }

    method PutCE(e: CacheEntry)
      modifies this
      ensures entries == old(entries)[e.key := Kept(e)]
    {
      entries := entries[e.key := Kept(e)];
    }

    /** All entries whose key has the prefix, in any order. */
    method All(prefix: string) returns (list: seq<CacheEntry>)
      ensures Listing(entries, prefix, list)
    {
      list := [];
      var todo := set k | k in entries && prefix <= k;
      while todo != {}
        invariant todo <= entries.Keys && forall k :: k in todo ==> prefix <= k
        invariant forall k :: k in entries && prefix <= k && k !in todo ==> entries[k] in list
        invariant forall i :: 0 <= i < |list| ==>
          exists k :: k in entries && prefix <= k && k !in todo && list[i] == entries[k]
        invariant (forall k :: k in entries ==> entries[k].key == k) ==>
          forall i, j :: 0 <= i < j < |list| ==> list[i].key != list[j].key
      {
        var k :| k in todo;
        ghost var before := list;
        list := list + [entries[k]];
        todo := todo - {k};
        assert forall q :: q in entries && entries[q] in before ==> entries[q] in list;
      }
    }

    /** The key of the prefix with the earliest positive expiry, or "" when there is none. */
    method Oldest(prefix: string) returns (key: string, expires: int)
      ensures if exists k :: k in entries && prefix <= k && entries[k].expires > 0
              then R.Oldest(entries, prefix, key) && expires == entries[key].expires
              else key == "" && expires == ZERO_TIME
    {
      key, expires := "", ZERO_TIME;
      var todo := set k | k in entries && prefix <= k && entries[k].expires > 0;
      ghost var all := todo;
      var found := false;
      while todo != {}
        invariant todo <= all && (found <==> todo != all)
        invariant if !found then key == "" && expires == ZERO_TIME
                  else key in all && expires == entries[key].expires
                       && forall k :: k in all - todo ==> expires <= entries[k].expires
      {
        var k :| k in todo;
        if !found || entries[k].expires < expires { found, key, expires := true, k, entries[k].expires; }
        todo := todo - {k};
      }
      assert forall k :: k in all <==> k in entries && prefix <= k && entries[k].expires > 0;
      if found { assert key in all; } else { assert all == {}; }
    }

    method Purge(key: string)
      modifies this
      ensures entries == old(entries) - {key}
    {
      entries := entries - {key};
    }

    method Has(key: string) returns (found: bool)
      ensures found <==> key in entries
    {
      found := key in entries;
    }
  }

  /** Exactly one response went to the client. */
  predicate AnsweredOnce(w: T.Sink) { w.calls == 1 && w.status != 0 }

  class AlwaysCache {
    const cfg: Config
    const world: World
    const cache: Provider
    /** Responses still to be stored and followed up by goroutines. */
    var pending: seq<U.Job>

    constructor (cfg: Config, world: World, cache: Provider)
      ensures this.cfg == cfg && this.world == world && this.cache == cache && pending == []
    {
      this.cfg, this.world, this.cache, pending := cfg, world, cache, [];
    }

    ghost function Sys(): Sys reads world, cache {
      System.Sys(cache.entries, world.now, world.hist)
    }

    /* Talking to the origin. */

    /** One exchange whose reply is written through the recorder. */
    method ReverseProxy(tee: T.ResponseSaver, r: Request)
      requires tee.Valid() && T.FreshSaver(tee.State()) && tee.State().client.body == ""
      requires U.EnvOk(world.env) && WellFormedRequest(r)
      modifies world, tee, tee.client
      ensures Sys() == U.Fetch(world.env, old(Sys()), r)
      ensures tee.Valid()
      ensures var reply := U.NextExchange(world.env, old(Sys()), r).reply;
        && tee.status == reply.status && tee.header == reply.header
        && tee.b == Head(reply.status, reply.header) + reply.Body()
        && tee.State().client ==
           if old(tee.rw) != null && reply.status != old(tee.statusFilter)
           then OriginAnswer(old(tee.State().client), reply) else old(tee.State().client)
    {
      hide WellFormedRequest, Replayable, Head, T.Merge;
      ghost var t := tee.State();
      var reply := world.RoundTrip(r);
      assert Replayable(r.verb, reply.status, reply.header, reply.Body());
      DeliveredHeader(r.verb, reply.status, reply.header, reply.Body());
      tee.header := reply.header;
      ghost var v := tee.State();
      ghost var calls := [T.WriteHeader(reply.status)];
      tee.WriteHeader(reply.status);
      assert calls[..0] == [];
      assert calls + CallsOf(reply.chunks[..0]) == calls;
      for i := 0 to |reply.chunks|
        invariant tee.Valid() && tee.header == reply.header
        invariant tee.State() == T.Run(v, calls + CallsOf(reply.chunks[..i]))
        invariant Sys() == U.Fetch(world.env, old(Sys()), r)
      {
        OneMoreCall(v, calls, reply.chunks, i);
        tee.Write(reply.chunks[i]);
      }
      assert reply.chunks[..|reply.chunks|] == reply.chunks;
      DeliverIs(t, reply);
    }

    method SaveRequest(r: Request) returns (cached: bool)
      requires U.EnvOk(world.env) && WellFormedRequest(r)
      modifies world, cache
      ensures Sys() == U.SaveRequest(cfg, world.env, old(Sys()), r)
      ensures cached <==> U.Saves(world.env, old(Sys()), r)
    {
      hide WellFormedRequest, U.EnvOk, Storable, Head, WriteKey;
      var tee := new T.ResponseSaver(null, 0, world.now);
      ReverseProxy(tee, r);
      var rec := Recording(tee.status, tee.header, tee.b, tee.createdAt);
      cached := WriteCache(U.Job(r, rec));
    }

    /* Storing. */

    method WriteCache(job: U.Job) returns (stored: bool)
      modifies cache
      ensures Sys() == U.Keep(cfg, old(Sys()), job)
      ensures stored <==> Storable(job.request, job.rec.status, job.rec.header)
    {
      hide Storable, FullKey, GetExpiration;
      if !Storable(job.request, job.rec.status, job.rec.header) { return false; }
      var key := AddVaryKeys(cfg.origin, job.request, job.rec.header);
      var expires := GetExpiration(cfg.dates, job.rec.header, world.now);
      cache.PutCE(CacheEntry(key, expires, job.rec.createdAt, world.now, job.rec.bytes));
      return true;
    }

    /* Following up. */

    method RevalidateUris(uris: seq<string>)
      requires U.EnvOk(world.env)
      modifies world, cache
      ensures Sys() == U.Revalidate(cfg, world.env, old(Sys()), uris)
    {
      hide U.EnvOk, U.SaveRequest, U.PlainKey, ValidUri;
      assert uris[0..] == uris;
      for i := 0 to |uris|
        invariant U.Revalidate(cfg, world.env, Sys(), uris[i..]) == U.Revalidate(cfg, world.env, old(Sys()), uris)
      {
        assert uris[i..][1..] == uris[i + 1..];
        if !ValidUri(uris[i]) { continue; }
        var found := cache.Has(U.PlainKey(cfg, uris[i]));
        if found {
          U.PlainIsWellFormed(uris[i]);
          var _ := SaveRequest(U.Plain(uris[i]));
        }
      }
    }

    method InvalidateUris(uris: seq<string>)
      modifies cache
      ensures Sys() == U.Invalidate(cfg, old(Sys()), uris)
    {
      hide U.PlainKey, ValidUri;
      assert uris[0..] == uris;
      for i := 0 to |uris|
        invariant U.Invalidate(cfg, Sys(), uris[i..]) == U.Invalidate(cfg, old(Sys()), uris)
      {
        assert uris[i..][1..] == uris[i + 1..];
        if !ValidUri(uris[i]) { continue; }
        cache.Purge(U.PlainKey(cfg, uris[i]));
      }
    }

    method SaveUpdates(updates: seq<U.CacheUpdate>)
      requires U.EnvOk(world.env)
      modifies world, cache
      ensures Sys() == U.SaveUpdates(cfg, world.env, old(Sys()), updates)
    {
      hide U.EnvOk, U.SaveRequest, ValidUri;
      assert updates[0..] == updates;
      for i := 0 to |updates|
        invariant U.SaveUpdates(cfg, world.env, Sys(), updates[i..])
               == U.SaveUpdates(cfg, world.env, old(Sys()), updates)
      {
        assert updates[i..][1..] == updates[i + 1..];
        if updates[i].delay == 0 && ValidUri(updates[i].path) {
          U.PlainIsWellFormed(updates[i].path);
          var _ := SaveRequest(U.Plain(updates[i].path));
        }
      }
    }

    method GetInvalidateUris(r: Request, status: int, h: Header) returns (uris: seq<string>)
      ensures uris == U.InvalidateUris(cfg, r, status, h)
    {
      hide CanonicalName;
      if !(UnsafeRequest(r) && U.NonError(status)) { return []; }
      uris := [r.uri];
      var refs := Values(h, "Location") + Values(h, "Content-Location");
      for i := 0 to |refs|
        invariant uris == [r.uri] + U.RequestUris(cfg, refs[..i])
      {
        assert refs[..i + 1][..i] == refs[..i];
        uris := uris + [cfg.requestUri(refs[i])];
      }
      assert refs[..|refs|] == refs;
    }

    method GetCacheUpdates(r: Request, h: Header) returns (updates: seq<U.CacheUpdate>)
      ensures updates == U.CacheUpdates(cfg, r, h)
    {
      hide CanonicalName, Before;
      updates := [];
      if !UnsafeRequest(r) { return; }
      var values := Values(h, "Cache-Update");
      for i := 0 to |values|
        invariant updates == U.UpdatesOf(cfg, r, values[..i])
      {
        assert values[..i + 1][..i] == values[..i];
        var path := Before(values[i], ";");
        updates := updates + [U.CacheUpdate(cfg.resolvePath(r.uri, path), cfg.delayOf(values[i]))];
      }
      assert values[..|values|] == values;
    }

    method UpdateResponseAndLocations(job: U.Job)
      requires U.EnvOk(world.env)
      modifies world, cache
      ensures Sys() == U.FollowUp(cfg, world.env, old(Sys()), job)
    {
      hide U.EnvOk, U.Keep, U.Revalidate, U.Invalidate, U.SaveUpdates, U.InvalidateUris, U.CacheUpdates;
      var _ := WriteCache(job);
      var uris := GetInvalidateUris(job.request, job.rec.status, job.rec.header);
      if cfg.updating { RevalidateUris(uris); } else { InvalidateUris(uris); }
      var updates := GetCacheUpdates(job.request, job.rec.header);
      SaveUpdates(updates);
    }

    /* Refreshing. */

    method UpdateEntry(key: string)
      requires U.EnvOk(world.env)
      requires DecodeKey(cfg.origin, key).Ok? ==> WellFormedRequest(DecodeKey(cfg.origin, key).request)
      modifies world, cache
      ensures Sys() == U.UpdateEntry(cfg, world.env, old(Sys()), key)
    {
      hide U.EnvOk, U.SaveRequest, U.Saves, DecodeKey, WellFormedRequest;
      var cached := false;
      var d := DecodeKey(cfg.origin, key);
      if d.Ok? {
        cached := SaveRequest(d.request);
        if !cached {
          world.Sleep(SECOND);
          cached := SaveRequest(d.request);
        }
      }
      if !cached { cache.Purge(key); }
    }

    /** The first `rounds` iterations of the endless update loop. */
    method UpdateCache(rounds: nat) returns (ghost trace: seq<Sys>)
      requires U.EnvOk(world.env) && SysOk(cfg, Sys())
      modifies world, cache
      ensures |trace| == rounds + 1 && trace[0] == old(Sys()) && trace[rounds] == Sys()
      ensures forall i :: 0 <= i < rounds ==> R.Iteration(cfg, world.env, trace[i], trace[i + 1])
      ensures SysOk(cfg, Sys())
    {
      hide U.EnvOk, U.UpdateEntry, SysOk, DecodeKey, WellFormedRequest, R.Oldest, R.Due, R.Iteration;
      trace := [Sys()];
      for n := 0 to rounds
        invariant |trace| == n + 1 && trace[0] == old(Sys()) && trace[n] == Sys() && SysOk(cfg, Sys())
        invariant forall i :: 0 <= i < n ==> R.Iteration(cfg, world.env, trace[i], trace[i + 1])
      {
        ghost var s := Sys();
        var key, expiry := cache.Oldest(MethodPrefix(cfg.origin, "GET"));
        OldestDecides(cfg, s, key, expiry);
        if key != "" && Sub(expiry, world.now) <= R.TIMEOUT {
          U.StoredKeyDecodes(cfg, s, key);
          UpdateEntry(key);
          R.IterationKeepsInvariant(cfg, world.env, s, Sys(), key);
          RefreshIsIteration(cfg, world.env, s, Sys(), key);
        } else {
          world.Sleep(R.TIMEOUT);
          U.SleepEvolves(cfg, |s.hist|, s, R.TIMEOUT);
          SleepIsIteration(cfg, world.env, s);
        }
        trace := trace + [Sys()];
      }
    }

    /* Answering requests. */

    /** The checks of `MustNotReuse` on a stored response that was read back. */
    method MustNotReuse(r: Request, e: CacheEntry) returns (decision: Decision)
      requires ReadEntry(cfg, e).Stored?
      ensures decision == Decide(cfg, r, e, world.now) && decision != Crash
    {
      hide ReadEntry, HeaderFieldsMatch, IsFresh, ConditionalRequest, CC.Parse, ListHeader;
      var stored := ReadEntry(cfg, e);
      var h := stored.response.header;
      if h == map[] || stored.response.status == 0 || stored.request.verb == "" { return Forward(Miss); }
      var cc := CC.ParseCacheControl(Values(h, "Cache-Control"));
      if WriteThrough(r, cc) { return Forward(Method); }
      if r.uri != stored.request.uri { return Forward(UriMiss); }
      if !HeaderFieldsMatch(r.header, stored.request.header, VaryList(h)) { return Forward(VaryMiss); }
      var validation: Option<Request> := None;
      if "no-cache" in cc { validation := Some(ConditionalRequest(r, h)); }
      if !IsFresh(cfg.dates, h, e.receivedAt, e.requestedAt, world.now) {
        if validation.None? { validation := Some(ConditionalRequest(r, h)); }
      }
      decision := if validation.Some? then Validate(validation.value) else Reuse;
    }

    method SendStoredResponse(w: T.ResponseWriter, e: CacheEntry, res: Response)
      requires T.Built(res.header)
      modifies w
      ensures w.State() == SendStored(cfg, old(w.State()), e, res, world.now)
    {
      hide T.Merge, HeaderAge, AgeText, OMITTED, CanonicalName;
      var h := WithAge(cfg, e, res.header, world.now);
      AgedIsBuilt(cfg, e, res.header, world.now);
      w.CopyHeader(h, OMITTED);
      w.AddField("Cache-Status", HIT);
      w.WriteHeader(res.status);
      w.Write(res.body);
    }

    /** Sends the conditional request; any answer but 304 goes to the client and is queued for storing. */
    method SendToClientIfValidationFailed(w: T.ResponseWriter, sent: Request) returns (failed: bool)
      requires U.EnvOk(world.env) && WellFormedRequest(sent)
      requires w.State() == T.FRESH_SINK
      modifies w, world, this`pending
      ensures Sys() == U.Fetch(world.env, old(Sys()), sent)
      ensures var reply := U.NextExchange(world.env, old(Sys()), sent).reply;
        && (failed <==> reply.status != 304)
        && w.State() == (if failed then OriginAnswer(T.FRESH_SINK, reply) else T.FRESH_SINK)
        && pending == old(pending) + (if failed then [U.NextJob(world.env, old(Sys()), sent)] else [])
    {
      hide WellFormedRequest, U.EnvOk, Head, T.Merge;
      var tee := new T.ResponseSaver(w, 304, world.now);
      ReverseProxy(tee, sent);
      failed := tee.status != 304;
      if failed {
        pending := pending + [U.Job(sent, Recording(tee.status, tee.header, tee.b, tee.createdAt))];
      }
    }

    method Proxy(w: T.ResponseWriter, r: Request)
      requires U.EnvOk(world.env) && WellFormedRequest(r)
      requires w.State() == T.FRESH_SINK
      modifies w, world, cache, this`pending
      ensures var reply := U.NextExchange(world.env, old(Sys()), r).reply;
        var fetched, job := U.Fetch(world.env, old(Sys()), r), U.NextJob(world.env, old(Sys()), r);
        && w.State() == OriginAnswer(MissSink(), reply)
        && Sys() == (if U.IsRedirect(reply.status) then U.FollowUp(cfg, world.env, fetched, job) else fetched)
        && pending == old(pending) + (if U.IsRedirect(reply.status) then [] else [job])
    {
      hide WellFormedRequest, U.EnvOk, Head, T.Merge, U.FollowUp, Add;
      w.AddField("Cache-Status", URI_MISS);
      var tee := new T.ResponseSaver(w, 0, world.now);
      StatusIsPositive(world.env, Sys(), r);
      ReverseProxy(tee, r);
      var job := U.Job(r, Recording(tee.status, tee.header, tee.b, tee.createdAt));
      if U.IsRedirect(tee.status) {
        UpdateResponseAndLocations(job);
      } else {
        pending := pending + [job];
      }
    }

    /** Tries one stored response; `Pass` means that it cannot be used and nothing was done. */
    method ReuseOrValidate(w: T.ResponseWriter, r: Request, e: CacheEntry) returns (plan: Plan)
      requires U.EnvOk(world.env) && WellFormedRequest(r)
      requires ReadEntry(cfg, e).Stored? && Readable(ReadEntry(cfg, e).response)
      requires Decide(cfg, r, e, world.now).Validate? ==> WellFormedRequest(Decide(cfg, r, e, world.now).sent)
      requires w.State() == T.FRESH_SINK
      modifies w, world, this`pending
      ensures plan == PlanFor(cfg, r, [e], old(world.now))
      ensures if plan == Pass
              then Sys() == old(Sys()) && w.State() == T.FRESH_SINK && pending == old(pending)
              else Served(cfg, world.env, old(Sys()), r, plan, w.State(), Sys(), old(pending), pending)
                   && AnsweredOnce(w.State())
    {
      hide WellFormedRequest, U.EnvOk, PlanFor, Decide, U.Fetch, U.FollowUp, U.NextJob, U.NextExchange, OriginAnswer,
           SendStored, StoredAnswer, Served, AnsweredOnce, Readable, ReadEntry, T.FRESH_SINK;
      ghost var s, jobs := Sys(), pending;
      var stored := ReadEntry(cfg, e);
      PlanStep(cfg, r, [e], world.now);
      PlanEnd(cfg, r, [e][1..], world.now);
      var decision := MustNotReuse(r, e);
      if decision.Forward? { return Pass; }
      if decision.Validate? {
        plan := Check(e, decision.sent);
        CheckIsServed(cfg, world.env, s, r, e, decision.sent, jobs);
        var failed := SendToClientIfValidationFailed(w, decision.sent);
        if failed { return; }
      } else {
        plan := Serve(e);
        HitIsServed(cfg, world.env, s, r, e, jobs);
      }
      ReadableIsBuilt(stored.response);
      StoredAnswerIs(cfg, e, world.now);
      SendStoredResponse(w, e, stored.response);
    }

    /**
     Answers a request: the plan comes from the offered entries, the client gets exactly one
     response, and at most one exchange with the origin is made to answer it.
     */
    method ServeHTTP(w: T.ResponseWriter, r: Request) returns (plan: Plan)
      requires U.EnvOk(world.env) && WellFormedRequest(r) && SysOk(cfg, Sys())
      requires w.State() == T.FRESH_SINK
      modifies w, world, cache, this`pending
      ensures exists todo :: Lists(cfg, old(Sys()).store, r, todo) && plan == PlanFor(cfg, r, todo, old(world.now))
      ensures Served(cfg, world.env, old(Sys()), r, plan, w.State(), Sys(), old(pending), pending)
      ensures w.State().calls == 1 && w.State().status != 0
    {
      hide WellFormedRequest, U.EnvOk, SysOk, PlanFor, Decide, U.Fetch, U.FollowUp, U.NextJob, U.NextExchange,
           OriginAnswer, StoredAnswer, KeyPrefix, Listing, Readable, ReadEntry;
      ghost var s := Sys();
      var todo := cache.All(KeyPrefix(cfg.origin, r));
      AllLists(cfg, s, r, todo);
      assert todo[0..] == todo;
      for i := 0 to |todo|
        invariant PlanFor(cfg, r, todo[i..], world.now) == PlanFor(cfg, r, todo, s.now)
        invariant Sys() == s && w.State() == T.FRESH_SINK && pending == old(pending)
      {
        var e := todo[i];
        PlanStep(cfg, r, todo[i..], world.now);
        PlanStep(cfg, r, [e], world.now);
        PlanEnd(cfg, r, [e][1..], world.now);
        assert todo[i..][1..] == todo[i + 1..];
        OfferedIsReadable(cfg, s, r, e);
        plan := ReuseOrValidate(w, r, e);
        if plan != Pass { return; }
      }
      PlanEnd(cfg, r, todo[|todo|..], world.now);
      plan := Pass;
      OriginAnswersOnce(world.env, s, r);
      Proxy(w, r);
    }
  }

  /** The sink to which a miss is answered: it already names the cache and the reason. */
  function MissSink(): T.Sink {
    T.FRESH_SINK.(header := Add(map[], "Cache-Status", URI_MISS))
  }

  /** What one request does to the client, the state and the waiting jobs, by plan. */
  ghost predicate Served(cfg: Config, env: U.Env, s: Sys, r: Request, plan: Plan,
                         w: T.Sink, t: Sys, before: seq<U.Job>, after: seq<U.Job>) {
    match plan
    case Serve(e) =>
      t == s && after == before && w == StoredAnswer(cfg, e, s.now)
    case Check(e, sent) =>
      var reply := U.NextExchange(env, s, sent).reply;
      t == U.Fetch(env, s, sent) &&
      (if reply.status == 304 then w == StoredAnswer(cfg, e, t.now) && after == before
       else w == OriginAnswer(T.FRESH_SINK, reply) && after == before + [U.NextJob(env, s, sent)])
    case Pass =>
      var reply := U.NextExchange(env, s, r).reply;
      w == OriginAnswer(MissSink(), reply) &&
      (if U.IsRedirect(reply.status)
       then t == U.FollowUp(cfg, env, U.Fetch(env, s, r), U.NextJob(env, s, r)) && after == before
       else t == U.Fetch(env, s, r) && after == before + [U.NextJob(env, s, r)])
    case Panic => false
  }

  function Drain(cfg: Config, env: U.Env, s: Sys, jobs: seq<U.Job>): Sys
    decreases |jobs|
  {
    if jobs == [] then s else Drain(cfg, env, U.FollowUp(cfg, env, s, jobs[0]), jobs[1..])
  }

  /** A hit, or a stored response that the origin confirmed: the client gets the entry, and nothing is left to do. */
  lemma ServedFromStore(cfg: Config, env: U.Env, s: Sys, r: Request, plan: Plan,
                        w: T.Sink, t: Sys, before: seq<U.Job>, after: seq<U.Job>)
    requires Served(cfg, env, s, r, plan, w, t, before, after)
    requires plan.Serve? || (plan.Check? && U.NextExchange(env, s, plan.sent).reply.status == 304)
    ensures w == StoredAnswer(cfg, plan.entry, t.now) && after == before && t.store == s.store
    ensures plan.Serve? ==> t == s
    ensures plan.Check? ==> t.hist == s.hist + [U.NextExchange(env, s, plan.sent)]
  {
    hide StoredAnswer, OriginAnswer, U.FollowUp;
  }

  /** What the client gets of a reply that was not stored before, field by field. */
  predicate SendsReply(w: T.Sink, reply: Reply, name: string, cacheStatus: seq<string>) {
    && w.calls == 1 && w.status == reply.status && w.body == reply.Body()
    && Values(w.sent, name) == (if name == "Cache-Status" then cacheStatus else []) + Values(reply.header, name)
  }

  /**
   A miss: the client gets the origin's reply, with the reason in front of its own Cache-Status. A
   redirect is stored and followed up before the request returns; any other reply is left to a goroutine.
   */
  lemma MissSendsReply(cfg: Config, env: U.Env, s: Sys, r: Request, w: T.Sink, t: Sys,
                       before: seq<U.Job>, after: seq<U.Job>, name: string)
    requires Served(cfg, env, s, r, Pass, w, t, before, after) && CanonicalName(name) == name
    ensures var reply := U.NextExchange(env, s, r).reply;
      && SendsReply(w, reply, name, ["Always-Cache; fwd=uri-miss"])
      && (if reply.status in {301, 302, 303, 307, 308}
          then after == before && t == U.FollowUp(cfg, env, U.Fetch(env, s, r), U.NextJob(env, s, r))
          else after == before + [U.NextJob(env, s, r)] && t == U.Fetch(env, s, r))
  {
    hide CanonicalName, U.FollowUp, U.Fetch, U.NextJob, U.NextExchange, Values;
    CacheStatusIsCanonical();
    var reply := U.NextExchange(env, s, r).reply;
    MissFields(reply.header, name);
  }

  lemma MissFields(h: Header, name: string)
    requires CanonicalName(name) == name
    ensures Values(T.Merge(MissSink().header, h), name) ==
            (if name == "Cache-Status" then ["Always-Cache; fwd=uri-miss"] else []) + Values(h, name)
  {
    hide CanonicalName;
    CacheStatusIsCanonical();
  }

  /** A validation that the origin answers otherwise than by 304: the client gets exactly the reply. */
  lemma FailedCheckSendsReply(cfg: Config, env: U.Env, s: Sys, r: Request, e: CacheEntry, sent: Request, w: T.Sink,
                              t: Sys,
                              before: seq<U.Job>, after: seq<U.Job>, name: string)
    requires Served(cfg, env, s, r, Check(e, sent), w, t, before, after) && CanonicalName(name) == name
    requires U.NextExchange(env, s, sent).reply.status != 304
    ensures SendsReply(w, U.NextExchange(env, s, sent).reply, name, [])
    ensures after == before + [U.NextJob(env, s, sent)] && t == U.Fetch(env, s, sent)
  {
    hide CanonicalName, U.FollowUp, U.Fetch, U.NextJob, U.NextExchange, StoredAnswer;
    MergeIntoEmpty(U.NextExchange(env, s, sent).reply.header);
  }

  /**
   Read your writes without waiting: if a write is answered by a redirect and asks for an update of
   `path`, then when `ServeHTTP` returns nothing is left to goroutines, and whatever a GET of the path
   is offered stems from the write or later. So the client that follows the redirect sees the write.
   */
  lemma RedirectIsFollowedUpFirst(cfg: Config, env: U.Env, s: Sys, r: Request, path: string,
                                  w: T.Sink, t: Sys, before: seq<U.Job>, after: seq<U.Job>)
    requires Served(cfg, env, s, r, Pass, w, t, before, after)
    requires U.NextExchange(env, s, r).reply.status in {301, 302, 303, 307, 308}
    requires SysOk(cfg, s) && U.EnvOk(env) && WellFormedRequest(r)
    requires Y.AsksForUpdate(cfg, r, U.NextExchange(env, s, r).reply.header, path)
    requires ValidUri(path) && Y.AlwaysStorable(env, path) && Y.OnlyPlain(cfg, s.store, path)
    ensures after == before && SysOk(cfg, t) && Y.UpToDate(cfg, t, |s.hist|, path)
    ensures U.PlainKey(cfg, path) in t.store
  {
    hide U.EnvOk, SysOk, WellFormedRequest, U.FollowUp, U.Fetch, U.NextJob, U.NextExchange, Y.AsksForUpdate, ValidUri,
         Y.AlwaysStorable, Y.OnlyPlain, Y.UpToDate, U.PlainKey, OriginAnswer, Values;
    CacheStatusIsCanonical();
    MissSendsReply(cfg, env, s, r, w, t, before, after, "Cache-Status");
    Y.WriteUpdatesPaths(cfg, env, s, r, path);
  }

  /** A request and the goroutines it starts, run to completion, amount to `Updates.Handle`. */
  lemma ServedThenDrained(cfg: Config, env: U.Env, s: Sys, r: Request, todo: seq<CacheEntry>, plan: Plan,
                          w: T.Sink, t: Sys, after: seq<U.Job>)
    requires plan == PlanFor(cfg, r, todo, s.now) && Served(cfg, env, s, r, plan, w, t, [], after)
    ensures Drain(cfg, env, t, after) == U.Handle(cfg, env, s, r, todo)
  {
    hide U.FollowUp, PlanFor, U.NextJob, U.Fetch, StoredAnswer, OriginAnswer;
    if |after| == 1 {
      assert after[1..] == [];
      assert Drain(cfg, env, t, after) == Drain(cfg, env, U.FollowUp(cfg, env, t, after[0]), []);
    }
  }

  lemma AllLists(cfg: Config, s: Sys, r: Request, todo: seq<CacheEntry>)
    requires SysOk(cfg, s)
    requires Listing(s.store, KeyPrefix(cfg.origin, r), todo)
    ensures Lists(cfg, s.store, r, todo)
  {
    hide KeyPrefix, Backed, ExchangeOk;
  }

  predicate Readable(res: Response) { T.Built(res.header) && res.status >= 100 }

  lemma PlanStep(cfg: Config, r: Request, todo: seq<CacheEntry>, now: int)
    requires todo != []
    ensures var d := Decide(cfg, r, todo[0], now);
      && (d == Reuse ==> PlanFor(cfg, r, todo, now) == Serve(todo[0]))
      && (d.Validate? ==> PlanFor(cfg, r, todo, now) == Check(todo[0], d.sent))
      && (d.Forward? ==> PlanFor(cfg, r, todo, now) == PlanFor(cfg, r, todo[1..], now))
  {
    hide Decide;
  }

  lemma PlanEnd(cfg: Config, r: Request, todo: seq<CacheEntry>, now: int)
    requires todo == []
    ensures PlanFor(cfg, r, todo, now) == Pass
  {}

  lemma OfferedIsReadable(cfg: Config, s: Sys, r: Request, e: CacheEntry)
    requires SysOk(cfg, s) && WellFormedRequest(r) && e.key in s.store && s.store[e.key] == e && Offered(cfg, r, e.key)
    ensures ReadEntry(cfg, e).Stored? && Readable(ReadEntry(cfg, e).response)
    ensures var d := Decide(cfg, r, e, s.now); d != Crash && (d.Validate? ==> WellFormedRequest(d.sent))
  {
    hide Decide, WellFormedRequest, Offered, Made, Backed, ReadEntry, FixPragma, LengthIsRight;
    var x, d, t := Backer(cfg, s, e.key);
    ReadMade(cfg, x, d, t, e);
    NeverCrashes(cfg, s, r, e.key, s.now);
    Y.SentIsConditional(cfg, s, r, e.key);
    Y.FixPragmaIsWellFormed(x.reply.header);
    DeliveredWellFormed(StoredHeader(x));
  }

  lemma DeliveredWellFormed(h: Header)
    requires WellFormed(h)
    ensures T.Built(h)
  {
    hide CanonicalName, IsToken, IsFieldValue;
  }

  lemma AgedIsBuilt(cfg: Config, e: CacheEntry, h: Header, now: int)
    requires T.Built(h)
    ensures T.Built(WithAge(cfg, e, h, now))
  {
    hide CanonicalName, HeaderAge, AgeText;
    CanonicalIsCanonical("Age") by { assert IsToken("Age"); }
  }

  lemma StatusIsPositive(env: U.Env, s: Sys, r: Request)
    requires U.EnvOk(env) && WellFormedRequest(r)
    ensures U.NextExchange(env, s, r).reply.status >= 100
  {
    hide WellFormedRequest, WellFormed, LengthIsRight;
    var reply := U.NextExchange(env, s, r).reply;
    assert Replayable(r.verb, reply.status, reply.header, reply.Body());
  }

  lemma OriginAnswersOnce(env: U.Env, s: Sys, r: Request)
    requires U.EnvOk(env) && WellFormedRequest(r)
    ensures var reply := U.NextExchange(env, s, r).reply;
      AnsweredOnce(OriginAnswer(T.FRESH_SINK, reply)) && AnsweredOnce(OriginAnswer(MissSink(), reply))
  {
    hide WellFormedRequest, U.EnvOk, T.Merge;
    StatusIsPositive(env, s, r);
  }

  lemma ReadableIsBuilt(res: Response)
    requires Readable(res)
    ensures T.Built(res.header)
  {}

  lemma StoredAnswerIs(cfg: Config, e: CacheEntry, now: int)
    requires ReadEntry(cfg, e).Stored?
    ensures StoredAnswer(cfg, e, now) == SendStored(cfg, T.FRESH_SINK, e, ReadEntry(cfg, e).response, now)
  {
    hide ReadEntry, SendStored;
  }

  lemma StoredAnswersOnce(cfg: Config, e: CacheEntry, now: int)
    requires ReadEntry(cfg, e).Stored? && Readable(ReadEntry(cfg, e).response)
    ensures AnsweredOnce(StoredAnswer(cfg, e, now))
  {
    hide ReadEntry, T.Merge, WithAge;
  }

  lemma HitIsServed(cfg: Config, env: U.Env, s: Sys, r: Request, e: CacheEntry, jobs: seq<U.Job>)
    requires ReadEntry(cfg, e).Stored? && Readable(ReadEntry(cfg, e).response)
    ensures var w := StoredAnswer(cfg, e, s.now);
      Served(cfg, env, s, r, Serve(e), w, s, jobs, jobs) && AnsweredOnce(w)
  {
    hide ReadEntry, StoredAnswer, Readable;
    StoredAnswersOnce(cfg, e, s.now);
  }

  lemma CheckIsServed(cfg: Config, env: U.Env, s: Sys, r: Request, e: CacheEntry, sent: Request, jobs: seq<U.Job>)
    requires ReadEntry(cfg, e).Stored? && Readable(ReadEntry(cfg, e).response)
    requires U.EnvOk(env) && WellFormedRequest(sent)
    ensures var reply := U.NextExchange(env, s, sent).reply;
      var t := U.Fetch(env, s, sent);
      if reply.status == 304 then
        var w := StoredAnswer(cfg, e, t.now);
        Served(cfg, env, s, r, Check(e, sent), w, t, jobs, jobs + []) && AnsweredOnce(w)
      else
        var w := OriginAnswer(T.FRESH_SINK, reply);
        Served(cfg, env, s, r, Check(e, sent), w, t, jobs, jobs + [U.NextJob(env, s, sent)]) && AnsweredOnce(w)
  {
    hide ReadEntry, StoredAnswer, Readable, OriginAnswer, U.Fetch, U.NextJob, U.NextExchange, WellFormedRequest,
         U.EnvOk;
    StoredAnswersOnce(cfg, e, U.Fetch(env, s, sent).now);
    OriginAnswersOnce(env, s, sent);
    assert jobs + [] == jobs;
  }

  lemma OldestDecides(cfg: Config, s: Sys, key: string, expiry: int)
    requires var prefix := MethodPrefix(cfg.origin, "GET");
      if exists k :: k in s.store && prefix <= k && s.store[k].expires > 0
      then R.Oldest(s.store, prefix, key) && expiry == s.store[key].expires
      else key == "" && expiry == ZERO_TIME
    ensures var prefix := MethodPrefix(cfg.origin, "GET");
      if key != "" && Sub(expiry, s.now) <= R.TIMEOUT
      then R.Oldest(s.store, prefix, key) && R.Due(s, key) && key in s.store
      else !exists k :: R.Oldest(s.store, prefix, k) && R.Due(s, k)
  {
    var prefix := MethodPrefix(cfg.origin, "GET");
    if k :| R.Oldest(s.store, prefix, k) && R.Due(s, k) {
      assert k in s.store && prefix <= k && s.store[k].expires > 0;
      assert R.Oldest(s.store, prefix, key) && |prefix| > 0;
      assert s.store[key].expires == s.store[k].expires;
    }
  }

  lemma RefreshIsIteration(cfg: Config, env: U.Env, s: Sys, t: Sys, key: string)
    requires R.Refreshes(cfg, env, s, t, key)
    ensures R.Iteration(cfg, env, s, t)
  {
    hide R.Oldest, R.Due, U.UpdateEntry, MethodPrefix;
  }

  lemma SleepIsIteration(cfg: Config, env: U.Env, s: Sys)
    requires !exists k :: R.Oldest(s.store, MethodPrefix(cfg.origin, "GET"), k) && R.Due(s, k)
    ensures R.Iteration(cfg, env, s, U.Sleep(s, R.TIMEOUT))
  {
    hide R.Oldest, R.Due, U.UpdateEntry, MethodPrefix;
  }

  lemma DeliveredHeader(verb: string, status: int, h: Header, body: string)
    requires Replayable(verb, status, h, body)
    ensures T.Built(h) && status >= 100
  {
    hide CanonicalName, IsToken, IsFieldValue;
  }

  lemma OneMoreCall(v: T.Saver, calls: seq<T.Call>, chunks: seq<string>, i: nat)
    requires i < |chunks|
    ensures T.Run(v, calls + CallsOf(chunks[..i + 1]))
         == T.SaveWrite(T.Run(v, calls + CallsOf(chunks[..i])), chunks[i])
  {
    hide T.SaveWrite, T.SaveHeader, T.Run;
    assert chunks[..i + 1][..i] == chunks[..i];
    var init := calls + CallsOf(chunks[..i]);
    assert calls + CallsOf(chunks[..i + 1]) == init + [T.Write(chunks[i])];
    T.LastCall(v, init, T.Write(chunks[i]));
  }
}
