/**
 What the cache does with the origin, as functions on the whole state: fetching, storing, following
 up on unsafe requests, and refreshing entries. The origin is a function of the number of the
 exchange and the request; both it and the time an exchange takes are arbitrary.
 */
module Updates {
  import opened Text
  import opened Http
  import opened CacheKey
  import opened Freshness
  import opened StoreGate
  import opened Wire
  import opened System

  datatype Env = Env(reply: (nat, Request) -> Reply, pause: nat -> nat)

  /** The origin's replies are responses as net/http delivers them. */
  ghost predicate EnvOk(env: Env) {
    forall n: nat, r :: WellFormedRequest(r) ==>
      var reply := env.reply(n, r); Replayable(r.verb, reply.status, reply.header, reply.Body())
  }

  /** A recorded response and the request it answers, to be stored and followed up. */
  datatype Job = Job(request: Request, rec: Recording)

  datatype CacheUpdate = CacheUpdate(path: string, delay: nat)

  /* Fetching and storing. */

  function NextExchange(env: Env, s: Sys, r: Request): Exchange {
    var n := |s.hist|;
    Exchange(r, env.reply(n, r), s.now, s.now + env.pause(n))
  }

  function Fetch(env: Env, s: Sys, r: Request): Sys {
    var x := NextExchange(env, s, r);
    s.(now := x.end, hist := s.hist + [x])
  }

  /** Storing a response whose expiry was computed at `decided`. */
  function KeepAt(cfg: Config, s: Sys, job: Job, decided: int): Sys {
    if Storable(job.request, job.rec.status, job.rec.header) then
      s.(store := s.store[WriteKey(cfg, job.request, job.rec.header)
                            := Kept(MakeEntry(cfg, job.request, job.rec, decided, s.now))])
    else s
  }

  function Keep(cfg: Config, s: Sys, job: Job): Sys { KeepAt(cfg, s, job, s.now) }

  function NextJob(env: Env, s: Sys, r: Request): Job {
    Job(r, RecordingOf(NextExchange(env, s, r)))
  }

  /** Whether the next reply to this request will be stored, and under which key. */
  predicate Saves(env: Env, s: Sys, r: Request) {
    var reply := NextExchange(env, s, r).reply; Storable(r, reply.status, reply.header)
  }

  function SavedKey(cfg: Config, env: Env, s: Sys, r: Request): string {
    WriteKey(cfg, r, NextExchange(env, s, r).reply.header)
  }

  function SaveRequest(cfg: Config, env: Env, s: Sys, r: Request): Sys {
    Keep(cfg, Fetch(env, s, r), NextJob(env, s, r))
  }

  function Purge(s: Sys, key: string): Sys { s.(store := s.store - {key}) }

  function Sleep(s: Sys, d: nat): Sys { s.(now := s.now + d) }

  /* Following up. */

  function Plain(uri: string): Request { Request("GET", uri, map[]) }

  function PlainKey(cfg: Config, uri: string): string { KeyPrefix(cfg.origin, Plain(uri)) }

  function Revalidate(cfg: Config, env: Env, s: Sys, uris: seq<string>): Sys
    decreases |uris|
  {
    if uris == [] then s
    else if ValidUri(uris[0]) && PlainKey(cfg, uris[0]) in s.store
    then Revalidate(cfg, env, SaveRequest(cfg, env, s, Plain(uris[0])), uris[1..])
    else Revalidate(cfg, env, s, uris[1..])
  }

  function Invalidate(cfg: Config, s: Sys, uris: seq<string>): Sys
    decreases |uris|
  {
    if uris == [] then s
    else Invalidate(cfg, if ValidUri(uris[0]) then Purge(s, PlainKey(cfg, uris[0])) else s, uris[1..])
  }

  /** Delayed updates run later, in a goroutine of their own, and are not part of the model. */
  function SaveUpdates(cfg: Config, env: Env, s: Sys, updates: seq<CacheUpdate>): Sys
    decreases |updates|
  {
    if updates == [] then s
    else if updates[0].delay == 0 && ValidUri(updates[0].path)
    then SaveUpdates(cfg, env, SaveRequest(cfg, env, s, Plain(updates[0].path)), updates[1..])
    else SaveUpdates(cfg, env, s, updates[1..])
  }

  predicate NonError(status: int) { 200 <= status <= 399 }

  predicate IsRedirect(status: int) {
    status == 301 || status == 302 || status == 303 || status == 307 || status == 308
  }

  function RequestUris(cfg: Config, refs: seq<string>): seq<string> {
    if refs == [] then []
    else RequestUris(cfg, refs[..|refs| - 1]) + [cfg.requestUri(refs[|refs| - 1])]
  }

  /** Section 4.4 of RFC 9111: the target URI, then those of Location and Content-Location. */
  function InvalidateUris(cfg: Config, r: Request, status: int, h: Header): seq<string> {
    if UnsafeRequest(r) && NonError(status)
    then [r.uri] + RequestUris(cfg, Values(h, "Location") + Values(h, "Content-Location"))
    else []
  }

  function UpdatesOf(cfg: Config, r: Request, values: seq<string>): seq<CacheUpdate> {
    if values == [] then []
    else
      var value := values[|values| - 1];
      UpdatesOf(cfg, r, values[..|values| - 1])
      + [CacheUpdate(cfg.resolvePath(r.uri, Before(value, ";")), cfg.delayOf(value))]
  }

  function CacheUpdates(cfg: Config, r: Request, h: Header): seq<CacheUpdate> {
    if UnsafeRequest(r) then UpdatesOf(cfg, r, Values(h, "Cache-Update")) else []
  }

  /** Stores the response, then revalidates or invalidates, then fetches the requested updates. */
  function FollowUp(cfg: Config, env: Env, s: Sys, job: Job): Sys {
    var kept := Keep(cfg, s, job);
    var uris := InvalidateUris(cfg, job.request, job.rec.status, job.rec.header);
    var clean := if cfg.updating then Revalidate(cfg, env, kept, uris) else Invalidate(cfg, kept, uris);
    SaveUpdates(cfg, env, clean, CacheUpdates(cfg, job.request, job.rec.header))
  }

  /** A client request together with everything it sets off. */
  function Handle(cfg: Config, env: Env, s: Sys, r: Request, todo: seq<CacheEntry>): Sys {
    match PlanFor(cfg, r, todo, s.now)
    case Serve(_) => s
    case Panic => s
    case Check(_, sent) =>
      if NextExchange(env, s, sent).reply.status == 304 then Fetch(env, s, sent)
      else FollowUp(cfg, env, Fetch(env, s, sent), NextJob(env, s, sent))
    case Pass => FollowUp(cfg, env, Fetch(env, s, r), NextJob(env, s, r))
  }

  /* Refreshing. */

  /** Two attempts a second apart; if neither reply is stored, the key goes. */
  function UpdateEntry(cfg: Config, env: Env, s: Sys, key: string): Sys {
    var d := DecodeKey(cfg.origin, key);
    if d.Err? then Purge(s, key)
    else
      var first := SaveRequest(cfg, env, s, d.request);
      if Saves(env, s, d.request) then first
      else
        var rested := Sleep(first, SECOND);
        var second := SaveRequest(cfg, env, rested, d.request);
        if Saves(env, rested, d.request) then second else Purge(second, key)
  }

  /* How the state evolves. */

  /**
   From `s` to `t` the history and the clock only grow, new exchanges start no earlier than `s`, the
   invariant holds, and every entry is either as it was or made from an exchange with number `from`
   or later.
   */
  ghost predicate Evolves(cfg: Config, from: nat, s: Sys, t: Sys) {
    && SysOk(cfg, t)
    && s.hist <= t.hist && s.now <= t.now
    && (forall i :: |s.hist| <= i < |t.hist| ==> s.now <= t.hist[i].start)
    && forall k :: k in t.store ==>
         (k in s.store && t.store[k] == s.store[k]) || Backed(cfg, t.hist, from, t.now, t.store[k])
  }

  lemma BackedGrows(cfg: Config, hist: seq<Exchange>, from: nat, now: int, e: CacheEntry,
                    later: seq<Exchange>, lower: nat, then': int)
    requires Backed(cfg, hist, from, now, e) && hist <= later && lower <= from && now <= then'
    ensures Backed(cfg, later, lower, then', e)
  {
    hide Made;
    var i: nat, d, t :| from <= i < |hist| && Made(cfg, hist[i], d, t, e) && t <= now;
    assert later[i] == hist[i];
  }

  lemma EvolvesRefl(cfg: Config, from: nat, s: Sys)
    requires SysOk(cfg, s)
    ensures Evolves(cfg, from, s, s)
  {}

  lemma EvolvesTrans(cfg: Config, from: nat, s: Sys, t: Sys, u: Sys)
    requires Evolves(cfg, from, s, t) && Evolves(cfg, from, t, u)
    ensures Evolves(cfg, from, s, u)
  {
    hide Backed, SysOk;
    forall k | k in u.store && !(k in s.store && u.store[k] == s.store[k])
      ensures Backed(cfg, u.hist, from, u.now, u.store[k])
    {
      if k in t.store && u.store[k] == t.store[k] {
        BackedGrows(cfg, t.hist, from, t.now, t.store[k], u.hist, from, u.now);
      }
    }
  }

  lemma FetchEvolves(cfg: Config, env: Env, from: nat, s: Sys, r: Request)
    requires SysOk(cfg, s) && EnvOk(env) && WellFormedRequest(r)
    ensures Evolves(cfg, from, s, Fetch(env, s, r))
    ensures ExchangeOk(NextExchange(env, s, r))
  {
    hide Backed, WellFormedRequest, Replayable, Made;
    var t := Fetch(env, s, r);
    assert ExchangeOk(NextExchange(env, s, r));
    forall k | k in t.store ensures Backed(cfg, t.hist, 0, t.now, t.store[k]) {
      BackedGrows(cfg, s.hist, 0, s.now, s.store[k], t.hist, 0, t.now);
    }
  }

  /** A job belongs to an exchange of the history. */
  ghost predicate JobOf(s: Sys, i: nat, job: Job) {
    i < |s.hist| && job == Job(s.hist[i].request, RecordingOf(s.hist[i]))
  }

  lemma KeepEvolves(cfg: Config, from: nat, s: Sys, i: nat, job: Job, decided: int)
    requires SysOk(cfg, s) && from <= i && JobOf(s, i, job) && s.hist[i].end <= decided <= s.now
    ensures Evolves(cfg, from, s, KeepAt(cfg, s, job, decided))
  {
    hide WellFormedRequest, Replayable, Storable, WriteKey, FullKey, Head, GetExpiration;
    var x, t := s.hist[i], KeepAt(cfg, s, job, decided);
    if Storable(job.request, job.rec.status, job.rec.header) {
      var e := Kept(MakeEntry(cfg, x.request, RecordingOf(x), decided, s.now));
      assert Made(cfg, x, decided, s.now, e);
      assert Backed(cfg, t.hist, from, t.now, e);
      assert Backed(cfg, t.hist, 0, t.now, e);
    }
  }

  /**
   What storing does: a reply with any field that may legitimately be stored is written under its own
   key, reads back as that reply, and changes nothing else; any other reply changes nothing at all.
   */
  lemma KeepStoresIff(cfg: Config, s: Sys, x: Exchange, decided: int)
    requires OriginId(cfg.origin) && ExchangeOk(x) && x.end <= decided <= s.now
    ensures var t := KeepAt(cfg, s, Job(x.request, RecordingOf(x)), decided);
      var k := WriteKey(cfg, x.request, x.reply.header);
      if x.reply.header != map[] && StoredLegitimately(x.request, x.reply.status, x.reply.header)
      then
        && k in t.store && t == s.(store := s.store[k := t.store[k]])
        && Made(cfg, x, decided, s.now, t.store[k])
        && ReadEntry(cfg, t.store[k]).Stored?
        && ReadEntry(cfg, t.store[k]).response == Response(x.reply.status, StoredHeader(x), x.reply.Body())
      else t == s
  {
    hide WriteKey, GetExpiration, Head, ReadEntry, StoredHeader, StoredLegitimately, Storable, WellFormed,
         LengthIsRight;
    TokenHasNoSeparator(x.request.verb);
    StorableIff(x.request, x.reply.status, x.reply.header);
    if Storable(x.request, x.reply.status, x.reply.header) {
      var e := Kept(MakeEntry(cfg, x.request, RecordingOf(x), decided, s.now));
      ReadMade(cfg, x, decided, s.now, e);
    }
  }

  lemma HistoryIsPast(cfg: Config, s: Sys, i: nat)
    requires SysOk(cfg, s) && i < |s.hist|
    ensures s.hist[i].end <= s.now && ExchangeOk(s.hist[i])
  {
    hide Backed, ExchangeOk;
  }

  /** The same for a request that is sent to be stored. */
  lemma SaveRequestStoresIff(cfg: Config, env: Env, s: Sys, r: Request)
    requires SysOk(cfg, s) && EnvOk(env) && WellFormedRequest(r)
    ensures var x, t := NextExchange(env, s, r), SaveRequest(cfg, env, s, r); var k := WriteKey(cfg, r, x.reply.header);
      if x.reply.header != map[] && StoredLegitimately(r, x.reply.status, x.reply.header)
      then
        && Saves(env, s, r) && k in t.store && t.store == s.store[k := t.store[k]]
        && Made(cfg, x, x.end, x.end, t.store[k])
      else !Saves(env, s, r) && t.store == s.store
  {
    hide SysOk, EnvOk, WellFormedRequest, WriteKey, ReadEntry, StoredLegitimately, Made, KeepAt, RecordingOf,
         Replayable,
         Storable, StoredHeader;
    FetchEvolves(cfg, env, |s.hist|, s, r);
    OriginIsId(cfg, s);
    var x, f := NextExchange(env, s, r), Fetch(env, s, r);
    KeepStoresIff(cfg, f, x, x.end);
    ExchangeStatus(x);
    StorableIff(r, x.reply.status, x.reply.header);
  }

  lemma OriginIsId(cfg: Config, s: Sys)
    requires SysOk(cfg, s)
    ensures OriginId(cfg.origin)
  {}

  lemma ExchangeStatus(x: Exchange)
    requires ExchangeOk(x)
    ensures x.reply.status >= 100 && x.request.verb != "" && x.start <= x.end
  {
    hide WellFormed, LengthIsRight;
    TokenHasNoSeparator(x.request.verb);
  }

  lemma SaveRequestEvolves(cfg: Config, env: Env, from: nat, s: Sys, r: Request)
    requires SysOk(cfg, s) && EnvOk(env) && WellFormedRequest(r) && from <= |s.hist|
    ensures Evolves(cfg, from, s, SaveRequest(cfg, env, s, r))
    ensures |s.hist| < |SaveRequest(cfg, env, s, r).hist|
  {
    hide Evolves, SysOk, KeepAt, EnvOk, WellFormedRequest, RecordingOf;
    FetchEvolves(cfg, env, from, s, r);
    var f := Fetch(env, s, r);
    assert SysOk(cfg, f) by { EvolvesOk(cfg, from, s, f); }
    assert JobOf(f, |s.hist|, NextJob(env, s, r));
    HistoryIsPast(cfg, f, |s.hist|);
    KeepEvolves(cfg, from, f, |s.hist|, NextJob(env, s, r), f.now);
    EvolvesOk(cfg, from, f, SaveRequest(cfg, env, s, r));
    EvolvesTrans(cfg, from, s, f, SaveRequest(cfg, env, s, r));
  }

  lemma EvolvesOk(cfg: Config, from: nat, s: Sys, t: Sys)
    requires Evolves(cfg, from, s, t)
    ensures SysOk(cfg, t) && s.hist <= t.hist && s.now <= t.now
  {}

  lemma PurgeEvolves(cfg: Config, from: nat, s: Sys, key: string)
    requires SysOk(cfg, s)
    ensures Evolves(cfg, from, s, Purge(s, key))
  {
    hide Backed, ExchangeOk;
  }

  lemma SleepEvolves(cfg: Config, from: nat, s: Sys, d: nat)
    requires SysOk(cfg, s)
    ensures Evolves(cfg, from, s, Sleep(s, d))
  {
    hide Backed, ExchangeOk;
    forall k | k in s.store ensures Backed(cfg, s.hist, 0, s.now + d, s.store[k]) {
      BackedGrows(cfg, s.hist, 0, s.now, s.store[k], s.hist, 0, s.now + d);
    }
  }

  lemma PlainIsWellFormed(uri: string)
    requires ValidUri(uri)
    ensures WellFormedRequest(Plain(uri))
  {}

  lemma {:induction false} RevalidateEvolves(cfg: Config, env: Env, from: nat, s: Sys, uris: seq<string>)
    requires SysOk(cfg, s) && EnvOk(env) && from <= |s.hist|
    ensures Evolves(cfg, from, s, Revalidate(cfg, env, s, uris))
    decreases |uris|
  {
    hide Evolves, SysOk, SaveRequest, EnvOk, ValidUri, WellFormedRequest, PlainKey;
    if uris == [] {
      EvolvesRefl(cfg, from, s);
    } else if ValidUri(uris[0]) && PlainKey(cfg, uris[0]) in s.store {
      PlainIsWellFormed(uris[0]);
      var t := SaveRequest(cfg, env, s, Plain(uris[0]));
      SaveRequestEvolves(cfg, env, from, s, Plain(uris[0]));
      EvolvesOk(cfg, from, s, t);
      RevalidateEvolves(cfg, env, from, t, uris[1..]);
      EvolvesTrans(cfg, from, s, t, Revalidate(cfg, env, t, uris[1..]));
    } else {
      RevalidateEvolves(cfg, env, from, s, uris[1..]);
    }
  }

  lemma {:induction false} InvalidateEvolves(cfg: Config, from: nat, s: Sys, uris: seq<string>)
    requires SysOk(cfg, s)
    ensures Evolves(cfg, from, s, Invalidate(cfg, s, uris))
    decreases |uris|
  {
    hide Evolves, SysOk, ValidUri, PlainKey, Purge;
    if uris == [] {
      EvolvesRefl(cfg, from, s);
    } else {
      var t := if ValidUri(uris[0]) then Purge(s, PlainKey(cfg, uris[0])) else s;
      EvolvesRefl(cfg, from, s);
      PurgeEvolves(cfg, from, s, PlainKey(cfg, uris[0]));
      EvolvesOk(cfg, from, s, t);
      InvalidateEvolves(cfg, from, t, uris[1..]);
      EvolvesTrans(cfg, from, s, t, Invalidate(cfg, t, uris[1..]));
    }
  }

  lemma {:induction false} SaveUpdatesEvolves(cfg: Config, env: Env, from: nat, s: Sys, updates: seq<CacheUpdate>)
    requires SysOk(cfg, s) && EnvOk(env) && from <= |s.hist|
    ensures Evolves(cfg, from, s, SaveUpdates(cfg, env, s, updates))
    decreases |updates|
  {
    hide Evolves, SysOk, SaveRequest, EnvOk, ValidUri, WellFormedRequest;
    if updates == [] {
      EvolvesRefl(cfg, from, s);
    } else if updates[0].delay == 0 && ValidUri(updates[0].path) {
      PlainIsWellFormed(updates[0].path);
      var t := SaveRequest(cfg, env, s, Plain(updates[0].path));
      SaveRequestEvolves(cfg, env, from, s, Plain(updates[0].path));
      EvolvesOk(cfg, from, s, t);
      SaveUpdatesEvolves(cfg, env, from, t, updates[1..]);
      EvolvesTrans(cfg, from, s, t, SaveUpdates(cfg, env, t, updates[1..]));
    } else {
      SaveUpdatesEvolves(cfg, env, from, s, updates[1..]);
    }
  }

  lemma FollowUpEvolves(cfg: Config, env: Env, from: nat, s: Sys, i: nat, job: Job)
    requires SysOk(cfg, s) && EnvOk(env) && from <= i && JobOf(s, i, job)
    ensures Evolves(cfg, from, s, FollowUp(cfg, env, s, job))
  {
    hide Evolves, SysOk, KeepAt, EnvOk, Revalidate, Invalidate, SaveUpdates, InvalidateUris, CacheUpdates, RecordingOf;
    var kept := Keep(cfg, s, job);
    HistoryIsPast(cfg, s, i);
    KeepEvolves(cfg, from, s, i, job, s.now);
    EvolvesOk(cfg, from, s, kept);
    var uris := InvalidateUris(cfg, job.request, job.rec.status, job.rec.header);
    RevalidateEvolves(cfg, env, from, kept, uris);
    InvalidateEvolves(cfg, from, kept, uris);
    var clean := if cfg.updating then Revalidate(cfg, env, kept, uris) else Invalidate(cfg, kept, uris);
    EvolvesOk(cfg, from, kept, clean);
    EvolvesTrans(cfg, from, s, kept, clean);
    SaveUpdatesEvolves(cfg, env, from, clean, CacheUpdates(cfg, job.request, job.rec.header));
    EvolvesTrans(cfg, from, s, clean, FollowUp(cfg, env, s, job));
  }

  /** The validators a stored response adds are field values, so the conditional request is well-formed. */
  lemma ConditionalIsWellFormed(r: Request, h: Header)
    requires WellFormedRequest(r) && WellFormed(h)
    ensures WellFormedRequest(ConditionalRequest(r, h))
  {
    hide CanonicalName, IsFieldValue;
    ValuesAreFieldValues(h, "Last-Modified");
    ValuesAreFieldValues(h, "ETag");
    SetKeepsWellFormed(r.header, "If-Modified-Since", Get(h, "Last-Modified"));
    var modified := Get(h, "Last-Modified");
    var since := if modified != "" then Set(r.header, "If-Modified-Since", modified) else r.header;
    SetKeepsWellFormed(since, "If-None-Match", Get(h, "ETag"));
  }

  lemma ValuesAreFieldValues(h: Header, name: string)
    requires WellFormed(h)
    ensures IsFieldValue(Get(h, name))
  {
    hide CanonicalName;
    if Values(h, name) != [] { assert Get(h, name) in h[CanonicalName(name)]; }
  }

  lemma SetKeepsWellFormed(h: Header, name: string, value: string)
    requires WellFormed(h) && IsToken(name) && IsFieldValue(value)
    ensures WellFormed(Set(h, name, value))
  {
    hide IsFieldValue, CanonicalName, IsToken;
    CanonicalIsCanonical(name);
  }

  lemma UpdateEntryEvolves(cfg: Config, env: Env, s: Sys, key: string)
    requires SysOk(cfg, s) && EnvOk(env)
    requires DecodeKey(cfg.origin, key).Ok? ==> WellFormedRequest(DecodeKey(cfg.origin, key).request)
    ensures Evolves(cfg, |s.hist|, s, UpdateEntry(cfg, env, s, key))
  {
    hide Evolves, SysOk, SaveRequest, EnvOk, WellFormedRequest, DecodeKey, Saves, Purge, Sleep;
    var n, d := |s.hist|, DecodeKey(cfg.origin, key);
    if d.Err? {
      PurgeEvolves(cfg, n, s, key);
    } else {
      var first := SaveRequest(cfg, env, s, d.request);
      SaveRequestEvolves(cfg, env, n, s, d.request);
      EvolvesOk(cfg, n, s, first);
      var rested := Sleep(first, SECOND);
      SleepEvolves(cfg, n, first, SECOND);
      EvolvesOk(cfg, n, first, rested);
      EvolvesTrans(cfg, n, s, first, rested);
      var second := SaveRequest(cfg, env, rested, d.request);
      SaveRequestEvolves(cfg, env, n, rested, d.request);
      EvolvesOk(cfg, n, rested, second);
      EvolvesTrans(cfg, n, s, rested, second);
      PurgeEvolves(cfg, n, second, key);
      EvolvesTrans(cfg, n, s, second, Purge(second, key));
    }
  }

  /** The key of any stored entry decodes to a well-formed request. */
  lemma StoredKeyDecodes(cfg: Config, s: Sys, key: string)
    requires SysOk(cfg, s) && key in s.store
    ensures DecodeKey(cfg.origin, key).Ok? && WellFormedRequest(DecodeKey(cfg.origin, key).request)
  {
    hide Replayable, WellFormed, FullKey, DecodeKey, ListHeader, Storable, GetExpiration, Head, WellFormedRequest;
    assert Backed(cfg, s.hist, 0, s.now, s.store[key]);
    var i: nat, d, t :| 0 <= i < |s.hist| && Made(cfg, s.hist[i], d, t, s.store[key]) && t <= s.now;
    DecodedMatches(cfg.origin, s.hist[i].request, VaryList(s.hist[i].reply.header));
  }

  lemma HandleEvolves(cfg: Config, env: Env, s: Sys, r: Request, todo: seq<CacheEntry>)
    requires SysOk(cfg, s) && EnvOk(env) && WellFormedRequest(r)
    requires PlanFor(cfg, r, todo, s.now).Check? ==> WellFormedRequest(PlanFor(cfg, r, todo, s.now).sent)
    ensures Evolves(cfg, |s.hist|, s, Handle(cfg, env, s, r, todo))
  {
    hide Evolves, SysOk, EnvOk, WellFormedRequest, PlanFor, FollowUp, RecordingOf;
    var n := |s.hist|;
    EvolvesRefl(cfg, n, s);
    match PlanFor(cfg, r, todo, s.now)
    case Serve(_) =>
    case Panic =>
    case Check(_, sent) => FetchFollowUpEvolves(cfg, env, s, sent);
    case Pass => FetchFollowUpEvolves(cfg, env, s, r);
  }

  lemma FetchFollowUpEvolves(cfg: Config, env: Env, s: Sys, r: Request)
    requires SysOk(cfg, s) && EnvOk(env) && WellFormedRequest(r)
    ensures Evolves(cfg, |s.hist|, s, Fetch(env, s, r))
    ensures Evolves(cfg, |s.hist|, s, FollowUp(cfg, env, Fetch(env, s, r), NextJob(env, s, r)))
  {
    hide Evolves, SysOk, EnvOk, WellFormedRequest, FollowUp, RecordingOf;
    var n, f := |s.hist|, Fetch(env, s, r);
    FetchEvolves(cfg, env, n, s, r);
    EvolvesOk(cfg, n, s, f);
    assert JobOf(f, n, NextJob(env, s, r));
    FollowUpEvolves(cfg, env, n, f, n, NextJob(env, s, r));
    EvolvesTrans(cfg, n, s, f, FollowUp(cfg, env, f, NextJob(env, s, r)));
  }
}
