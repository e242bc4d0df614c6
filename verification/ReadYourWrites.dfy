/**
 After an unsafe request, the URIs it updates are renewed, and reads that follow never see a state
 of the origin older than the write.
 */
module ReadYourWrites {
  import opened Text
  import opened Http
  import opened CacheKey
  import opened StoreGate
  import opened Wire
  import opened System
  import opened Selection
  import opened Updates
  import opened Refresh

  /** A request without fields is stored under the bare prefix, whatever the reply nominates. */
  lemma PlainIsStoredPlain(cfg: Config, uri: string, h: Header)
    ensures WriteKey(cfg, Plain(uri), h) == PlainKey(cfg, uri)
  {
    hide ListHeader, KeyPrefix;
    NothingNominated(VaryList(h));
    assert PlainKey(cfg, uri) + "" == PlainKey(cfg, uri);
  }

  lemma {:induction false} NothingNominated(names: seq<string>)
    ensures Nominated(map[], names) == []
  {
    hide CanonicalName;
    if names != [] { NothingNominated(names[1..]); }
  }

  /** Whatever a GET of this URI may be offered begins with the URI's bare key. */
  lemma OfferedBeginsPlain(cfg: Config, r: Request, key: string)
    requires r.verb == "GET" && Offered(cfg, r, key)
    ensures PlainKey(cfg, r.uri) <= key
  {
    hide CanonicalName, MethodPrefix;
    var plain := PlainKey(cfg, r.uri);
    assert KeyPrefix(cfg.origin, r) == plain + Get(r.header, "Cache-Key");
    assert plain == KeyPrefix(cfg.origin, r)[..|plain|] == key[..|plain|];
  }

  /** Every entry that a GET of `uri` may be offered stems from exchange `from` or a later one. */
  ghost predicate UpToDate(cfg: Config, s: Sys, from: nat, uri: string) {
    forall k :: k in s.store && PlainKey(cfg, uri) <= k ==> Backed(cfg, s.hist, from, s.now, s.store[k])
  }

  /** The same, but for the entry under the bare key itself. */
  ghost predicate VariantsUpToDate(cfg: Config, s: Sys, from: nat, uri: string) {
    forall k :: k in s.store && PlainKey(cfg, uri) <= k && k != PlainKey(cfg, uri) ==>
      Backed(cfg, s.hist, from, s.now, s.store[k])
  }

  lemma UpToDateStays(cfg: Config, from: nat, later: nat, s: Sys, t: Sys, uri: string)
    requires Evolves(cfg, later, s, t) && from <= later
    ensures UpToDate(cfg, s, from, uri) ==> UpToDate(cfg, t, from, uri)
    ensures VariantsUpToDate(cfg, s, from, uri) ==> VariantsUpToDate(cfg, t, from, uri)
  {
    hide Backed, SysOk, PlainKey;
    forall k | k in t.store
      ensures k in s.store && Backed(cfg, s.hist, from, s.now, s.store[k]) ==>
        Backed(cfg, t.hist, from, t.now, t.store[k])
      ensures k !in s.store ==> Backed(cfg, t.hist, from, t.now, t.store[k])
    {
      if Backed(cfg, t.hist, later, t.now, t.store[k]) {
        BackedGrows(cfg, t.hist, later, t.now, t.store[k], t.hist, from, t.now);
      } else if Backed(cfg, s.hist, from, s.now, s.store[k]) {
        BackedGrows(cfg, s.hist, from, s.now, s.store[k], t.hist, from, t.now);
      }
    }
  }

  /** Whenever a GET of `uri` without fields is sent, the reply may be stored. */
  ghost predicate AlwaysStorable(env: Env, uri: string) {
    forall n: nat :: var reply := env.reply(n, Plain(uri)); Storable(Plain(uri), reply.status, reply.header)
  }

  lemma PlainSaveRenews(cfg: Config, env: Env, s: Sys, uri: string)
    requires SysOk(cfg, s) && EnvOk(env) && ValidUri(uri) && Saves(env, s, Plain(uri))
    ensures var t := SaveRequest(cfg, env, s, Plain(uri)); var k := PlainKey(cfg, uri);
      k in t.store && Backed(cfg, t.hist, |s.hist|, t.now, t.store[k])
  {
    hide SysOk, EnvOk, Saves, SaveRequest, Backed, WriteKey, PlainKey, WellFormedRequest;
    PlainIsWellFormed(uri);
    SaveRequestEffect(cfg, env, s, Plain(uri));
    PlainIsStoredPlain(cfg, uri, NextExchange(env, s, Plain(uri)).reply.header);
  }

  /* Cache-Update. */

  lemma {:induction false} UpdatesMakeUpToDate(cfg: Config, env: Env, from: nat, s: Sys, updates: seq<CacheUpdate>,
                                               path: string)
    requires SysOk(cfg, s) && EnvOk(env) && from <= |s.hist|
    requires CacheUpdate(path, 0) in updates && ValidUri(path) && AlwaysStorable(env, path)
    requires VariantsUpToDate(cfg, s, from, path)
    ensures UpToDate(cfg, SaveUpdates(cfg, env, s, updates), from, path)
    ensures PlainKey(cfg, path) in SaveUpdates(cfg, env, s, updates).store
    decreases |updates|
  {
    hide Evolves, SysOk, SaveRequest, EnvOk, ValidUri, WellFormedRequest, UpToDate, VariantsUpToDate;
    var head := updates[0];
    if head.delay == 0 && ValidUri(head.path) {
      PlainIsWellFormed(head.path);
      var t := SaveRequest(cfg, env, s, Plain(head.path));
      SaveRequestEvolves(cfg, env, |s.hist|, s, Plain(head.path));
      EvolvesOk(cfg, |s.hist|, s, t);
      UpToDateStays(cfg, from, |s.hist|, s, t, path);
      if head.path == path {
        NowUpToDate(cfg, env, from, s, path);
        SaveUpdatesEvolves(cfg, env, |t.hist|, t, updates[1..]);
        UpToDateStays(cfg, from, |t.hist|, t, SaveUpdates(cfg, env, t, updates[1..]), path);
        NowStored(cfg, env, s, path);
        SaveUpdatesKeepKeys(cfg, env, t, updates[1..], PlainKey(cfg, path));
      } else {
        UpdatesMakeUpToDate(cfg, env, from, t, updates[1..], path);
      }
    } else {
      UpdatesMakeUpToDate(cfg, env, from, s, updates[1..], path);
    }
  }

  lemma NowStored(cfg: Config, env: Env, s: Sys, path: string)
    requires SysOk(cfg, s) && EnvOk(env) && ValidUri(path) && AlwaysStorable(env, path)
    ensures PlainKey(cfg, path) in SaveRequest(cfg, env, s, Plain(path)).store
  {
    hide SysOk, EnvOk, SaveRequest, ValidUri, Backed, PlainKey;
    PlainSaveRenews(cfg, env, s, path);
  }

  lemma {:induction false} SaveUpdatesKeepKeys(cfg: Config, env: Env, s: Sys, updates: seq<CacheUpdate>, k: string)
    requires SysOk(cfg, s) && EnvOk(env) && k in s.store
    ensures k in SaveUpdates(cfg, env, s, updates).store
    decreases |updates|
  {
    hide SysOk, EnvOk, ValidUri, SaveRequest, Evolves, WellFormedRequest, Saves, Backed;
    if updates != [] {
      if updates[0].delay == 0 && ValidUri(updates[0].path) {
        PlainIsWellFormed(updates[0].path);
        var t := SaveRequest(cfg, env, s, Plain(updates[0].path));
        SaveRequestEffect(cfg, env, s, Plain(updates[0].path));
        SaveRequestEvolves(cfg, env, |s.hist|, s, Plain(updates[0].path));
        EvolvesOk(cfg, |s.hist|, s, t);
        SaveUpdatesKeepKeys(cfg, env, t, updates[1..], k);
      } else {
        SaveUpdatesKeepKeys(cfg, env, s, updates[1..], k);
      }
    }
  }

  /** An update with a delay is not made now. */
  lemma DelayedUpdatesWait(cfg: Config, env: Env, s: Sys, updates: seq<CacheUpdate>)
    requires forall u :: u in updates ==> u.delay > 0
    ensures SaveUpdates(cfg, env, s, updates) == s
    decreases |updates|
  {
    hide SaveRequest, ValidUri;
    if updates != [] { DelayedUpdatesWait(cfg, env, s, updates[1..]); }
  }

  lemma NowUpToDate(cfg: Config, env: Env, from: nat, s: Sys, path: string)
    requires SysOk(cfg, s) && EnvOk(env) && from <= |s.hist|
    requires ValidUri(path) && AlwaysStorable(env, path) && VariantsUpToDate(cfg, s, from, path)
    ensures UpToDate(cfg, SaveRequest(cfg, env, s, Plain(path)), from, path)
  {
    hide Evolves, SysOk, SaveRequest, EnvOk, ValidUri, WellFormedRequest, Backed, PlainKey;
    PlainIsWellFormed(path);
    var t := SaveRequest(cfg, env, s, Plain(path));
    PlainSaveRenews(cfg, env, s, path);
    var k := PlainKey(cfg, path);
    BackedGrows(cfg, t.hist, |s.hist|, t.now, t.store[k], t.hist, from, t.now);
    SaveRequestEvolves(cfg, env, |s.hist|, s, Plain(path));
    UpToDateStays(cfg, from, |s.hist|, s, t, path);
  }

  /** The URI's stored responses are all under its bare key: no variants and no `Cache-Key`. */
  predicate OnlyPlain(cfg: Config, store: Store, uri: string) {
    forall k :: k in store && PlainKey(cfg, uri) <= k ==> k == PlainKey(cfg, uri)
  }

  /** The unsafe request's reply asks for an update of this path after this delay. */
  ghost predicate AsksForUpdateAfter(cfg: Config, w: Request, h: Header, path: string, delay: nat) {
    UnsafeRequest(w) && exists value :: value in Values(h, "Cache-Update") && ValueAsks(cfg, w, value, path, delay)
  }

  predicate ValueAsks(cfg: Config, w: Request, value: string, path: string, delay: nat) {
    cfg.delayOf(value) == delay && cfg.resolvePath(w.uri, Before(value, ";")) == path
  }

  /** The reply asks for an immediate update of this path. */
  ghost predicate AsksForUpdate(cfg: Config, w: Request, h: Header, path: string) {
    AsksForUpdateAfter(cfg, w, h, path, 0)
  }

  lemma AskedUpdateIsListed(cfg: Config, w: Request, h: Header, path: string, delay: nat)
    ensures AsksForUpdateAfter(cfg, w, h, path, delay) <==> CacheUpdate(path, delay) in CacheUpdates(cfg, w, h)
  {
    hide Before, Values, ValueAsks;
    UpdatesListed(cfg, w, Values(h, "Cache-Update"), path, delay);
  }

  lemma {:induction false} UpdatesListed(cfg: Config, w: Request, values: seq<string>, path: string, delay: nat)
    ensures CacheUpdate(path, delay) in UpdatesOf(cfg, w, values) <==>
      exists value :: value in values && ValueAsks(cfg, w, value, path, delay)
  {
    hide Before;
    if values != [] {
      var n := |values| - 1;
      UpdatesListed(cfg, w, values[..n], path, delay);
      if value :| value in values && ValueAsks(cfg, w, value, path, delay) {
        assert value in values[..n] || value == values[n];
      }
      if CacheUpdate(path, delay) in UpdatesOf(cfg, w, values[..n]) {
        var value :| value in values[..n] && ValueAsks(cfg, w, value, path, delay);
        assert value in values;
      }
      assert ValueAsks(cfg, w, values[n], path, delay) ==> values[n] in values;
    }
  }

  /** When the follow-up of an unsafe request returns, the paths of its `Cache-Update` fields are up to date. */
  lemma WriteUpdatesPaths(cfg: Config, env: Env, s: Sys, w: Request, path: string)
    requires SysOk(cfg, s) && EnvOk(env) && WellFormedRequest(w)
    requires AsksForUpdate(cfg, w, NextExchange(env, s, w).reply.header, path)
    requires ValidUri(path) && AlwaysStorable(env, path) && OnlyPlain(cfg, s.store, path)
    ensures var t := FollowUp(cfg, env, Fetch(env, s, w), NextJob(env, s, w));
      && UpToDate(cfg, t, |s.hist|, path) && SysOk(cfg, t) && |s.hist| < |t.hist|
      && PlainKey(cfg, path) in t.store
  {
    hide Evolves, SysOk, KeepAt, EnvOk, Revalidate, Invalidate, SaveUpdates, InvalidateUris, CacheUpdates, PlainKey,
         AsksForUpdateAfter, Head, AlwaysStorable, VariantsUpToDate, UpToDate, WellFormedRequest, ValidUri;
    var n, f, job := |s.hist|, Fetch(env, s, w), NextJob(env, s, w);
    AskedUpdateIsListed(cfg, w, job.rec.header, path, 0);
    VariantsOfPlain(cfg, s, n, path);
    FetchEvolves(cfg, env, n, s, w);
    EvolvesOk(cfg, n, s, f);
    assert JobOf(f, n, job);
    var kept := Keep(cfg, f, job);
    HistoryIsPast(cfg, f, n);
    KeepEvolves(cfg, n, f, n, job, f.now);
    EvolvesOk(cfg, n, f, kept);
    var uris := InvalidateUris(cfg, w, job.rec.status, job.rec.header);
    RevalidateEvolves(cfg, env, n, kept, uris);
    InvalidateEvolves(cfg, n, kept, uris);
    var clean := if cfg.updating then Revalidate(cfg, env, kept, uris) else Invalidate(cfg, kept, uris);
    EvolvesOk(cfg, n, kept, clean);
    UpToDateStays(cfg, n, n, s, f, path);
    UpToDateStays(cfg, n, n, f, kept, path);
    UpToDateStays(cfg, n, n, kept, clean, path);
    var updates := CacheUpdates(cfg, w, job.rec.header);
    UpdatesMakeUpToDate(cfg, env, n, clean, updates, path);
    SaveUpdatesEvolves(cfg, env, n, clean, updates);
    EvolvesOk(cfg, n, clean, SaveUpdates(cfg, env, clean, updates));
    assert |f.hist| == n + 1;
  }

  lemma VariantsOfPlain(cfg: Config, s: Sys, from: nat, path: string)
    requires OnlyPlain(cfg, s.store, path)
    ensures VariantsUpToDate(cfg, s, from, path)
  {
    hide PlainKey;
  }

  /* Later events, one after the other. */

  datatype Event = Client(request: Request, todo: seq<CacheEntry>) | Renew(key: string) | Wait(time: nat)

  function After(cfg: Config, env: Env, s: Sys, events: seq<Event>): Sys {
    if events == [] then s
    else
      var t := After(cfg, env, s, events[..|events| - 1]);
      match events[|events| - 1]
      case Client(r, todo) => Handle(cfg, env, t, r, todo)
      case Renew(key) => UpdateEntry(cfg, env, t, key)
      case Wait(d) => Sleep(t, d)
  }

  /** Requests are well-formed and see the offered entries in some order; the updater takes stored keys. */
  ghost predicate EventsOk(cfg: Config, env: Env, s: Sys, events: seq<Event>)
    decreases |events|
  {
    events != [] ==>
      var n := |events| - 1;
      var t := After(cfg, env, s, events[..n]);
      EventsOk(cfg, env, s, events[..n]) &&
      match events[n]
      case Client(r, todo) => WellFormedRequest(r) && Lists(cfg, t.store, r, todo)
      case Renew(key) => key in t.store
      case Wait(_) => true
  }

  lemma SentIsWellFormed(cfg: Config, s: Sys, r: Request, todo: seq<CacheEntry>)
    requires SysOk(cfg, s) && WellFormedRequest(r) && Lists(cfg, s.store, r, todo)
    ensures var plan := PlanFor(cfg, r, todo, s.now);
      (plan.Check? ==> WellFormedRequest(plan.sent)) && plan != Panic
  {
    hide Decide, WellFormedRequest, PlanFor, Offered, Made, Backed, Selected, Unconditional, SysOk, ConditionalRequest,
         Replayable;
    PlanComesFromEntry(cfg, r, todo, s.now);
    var plan := PlanFor(cfg, r, todo, s.now);
    if plan.Panic? {
      var e :| e in todo && Decide(cfg, r, e, s.now) == Crash;
      NeverCrashes(cfg, s, r, e.key, s.now);
    } else if plan.Check? {
      SentIsConditional(cfg, s, r, plan.entry.key);
    }
  }

  lemma SentIsConditional(cfg: Config, s: Sys, r: Request, k: string)
    requires SysOk(cfg, s) && WellFormedRequest(r) && k in s.store && Offered(cfg, r, k)
    ensures Decide(cfg, r, s.store[k], s.now).Validate? ==> WellFormedRequest(Decide(cfg, r, s.store[k], s.now).sent)
  {
    hide Decide, WellFormedRequest, Offered, Made, Backed, Selected, Unconditional, ConditionalRequest, LengthIsRight,
         Storable, FixPragma;
    var x, d, t := Backer(cfg, s, k);
    DecideIff(cfg, r, x, d, t, s.store[k], s.now);
    FixPragmaIsWellFormed(x.reply.header);
    ConditionalIsWellFormed(r, StoredHeader(x));
  }

  lemma FixPragmaIsWellFormed(h: Header)
    requires WellFormed(h)
    ensures WellFormed(FixPragma(h))
  {
    hide IsToken, IsFieldValue, CanonicalName;
    CacheControlName();
  }

  lemma CacheControlName()
    ensures IsToken("Cache-Control") && IsFieldValue("no-cache") && CanonicalName("Cache-Control") == "Cache-Control"
  {}

  lemma {:induction false} AfterEvolves(cfg: Config, env: Env, s: Sys, events: seq<Event>)
    requires SysOk(cfg, s) && EnvOk(env) && EventsOk(cfg, env, s, events)
    ensures Evolves(cfg, |s.hist|, s, After(cfg, env, s, events))
    decreases |events|
  {
    hide SysOk, EnvOk, Handle, UpdateEntry, Sleep, WellFormedRequest, Lists, PlanFor, DecodeKey, Evolves;
    if events == [] {
      EvolvesRefl(cfg, |s.hist|, s);
    } else {
      var n := |events| - 1;
      AfterEvolves(cfg, env, s, events[..n]);
      var t, u := After(cfg, env, s, events[..n]), After(cfg, env, s, events);
      EvolvesOk(cfg, |s.hist|, s, t);
      match events[n] {
        case Client(r, todo) =>
          SentIsWellFormed(cfg, t, r, todo);
          HandleEvolves(cfg, env, t, r, todo);
        case Renew(key) =>
          StoredKeyDecodes(cfg, t, key);
          UpdateEntryEvolves(cfg, env, t, key);
        case Wait(d) =>
          SleepEvolves(cfg, |t.hist|, t, d);
      }
      EvolvesWeaken(cfg, |s.hist|, |t.hist|, t, u);
      EvolvesTrans(cfg, |s.hist|, s, t, u);
    }
  }

  lemma EvolvesWeaken(cfg: Config, lower: nat, from: nat, s: Sys, t: Sys)
    requires Evolves(cfg, from, s, t) && lower <= from
    ensures Evolves(cfg, lower, s, t)
  {
    hide Backed, SysOk;
    forall k | k in t.store && Backed(cfg, t.hist, from, t.now, t.store[k])
      ensures Backed(cfg, t.hist, lower, t.now, t.store[k])
    {
      BackedGrows(cfg, t.hist, from, t.now, t.store[k], t.hist, lower, t.now);
    }
  }

  /**
   Read your writes: let an unsafe request `w` with a zero-delay `Cache-Update` of `path` be
   answered and followed up. After any events, whatever a GET of `path` is served from the store,
   with or without validation, was given by the origin no earlier than the answer to `w`.
   */
  lemma ReadsSeeTheWrite(cfg: Config, env: Env, s: Sys, w: Request, path: string,
                         events: seq<Event>, g: Request, todo: seq<CacheEntry>)
    requires SysOk(cfg, s) && EnvOk(env) && WellFormedRequest(w)
    requires AsksForUpdate(cfg, w, NextExchange(env, s, w).reply.header, path)
    requires ValidUri(path) && AlwaysStorable(env, path) && OnlyPlain(cfg, s.store, path)
    requires EventsOk(cfg, env, FollowUp(cfg, env, Fetch(env, s, w), NextJob(env, s, w)), events)
    requires g.verb == "GET" && g.uri == path && WellFormedRequest(g)
    requires Lists(cfg, After(cfg, env, FollowUp(cfg, env, Fetch(env, s, w), NextJob(env, s, w)), events).store,
                   g, todo)
    ensures var t := After(cfg, env, FollowUp(cfg, env, Fetch(env, s, w), NextJob(env, s, w)), events);
      var plan := PlanFor(cfg, g, todo, t.now);
      && |s.hist| < |t.hist| && t.hist[|s.hist|] == NextExchange(env, s, w)
      && (plan.Serve? || plan.Check? ==> Backed(cfg, t.hist, |s.hist|, t.now, plan.entry))
  {
    hide Decide, WellFormedRequest, PlanFor, Offered, Made, Backed, SysOk, EnvOk, FollowUp, EventsOk, AsksForUpdate,
         After, Evolves, AlwaysStorable, OnlyPlain, ValidUri, PlainKey, RecordingOf;
    var n := |s.hist|;
    var f := Fetch(env, s, w);
    var done := FollowUp(cfg, env, f, NextJob(env, s, w));
    WriteUpdatesPaths(cfg, env, s, w, path);
    FetchFollowUpEvolves(cfg, env, s, w);
    FollowUpKeepsFetch(cfg, env, s, w);
    AfterEvolves(cfg, env, done, events);
    var t := After(cfg, env, done, events);
    EvolvesOk(cfg, |done.hist|, done, t);
    UpToDateStays(cfg, n, |done.hist|, done, t, path);
    PlanComesFromEntry(cfg, g, todo, t.now);
    var plan := PlanFor(cfg, g, todo, t.now);
    if plan.Serve? || plan.Check? {
      OfferedBeginsPlain(cfg, g, plan.entry.key);
    }
  }

  lemma FollowUpKeepsFetch(cfg: Config, env: Env, s: Sys, w: Request)
    requires SysOk(cfg, s) && EnvOk(env) && WellFormedRequest(w)
    ensures Fetch(env, s, w).hist <= FollowUp(cfg, env, Fetch(env, s, w), NextJob(env, s, w)).hist
  {
    hide SysOk, EnvOk, FollowUp, Evolves, RecordingOf, WellFormedRequest;
    var f := Fetch(env, s, w);
    FetchEvolves(cfg, env, |s.hist|, s, w);
    EvolvesOk(cfg, |s.hist|, s, f);
    assert JobOf(f, |s.hist|, NextJob(env, s, w));
    FollowUpEvolves(cfg, env, 0, f, |s.hist|, NextJob(env, s, w));
    EvolvesOk(cfg, 0, f, FollowUp(cfg, env, f, NextJob(env, s, w)));
  }

  /* Revalidation and invalidation of the URIs of section 4.4. */

  /**
   Revalidating one URI asks the origin only if the URI is cached, and then renews its entry exactly
   when the reply may be stored; otherwise the old one stays.
   */
  lemma RevalidateOne(cfg: Config, env: Env, s: Sys, uri: string)
    requires SysOk(cfg, s) && EnvOk(env) && ValidUri(uri)
    ensures var t := Revalidate(cfg, env, s, [uri]); var k := PlainKey(cfg, uri);
      if k !in s.store then t == s
      else
        && k in t.store
        && if Saves(env, s, Plain(uri)) then Backed(cfg, t.hist, |s.hist|, t.now, t.store[k])
           else t.store[k] == s.store[k]
  {
    hide SysOk, EnvOk, Saves, SaveRequest, Backed, PlainKey, WellFormedRequest;
    PlainIsWellFormed(uri);
    var t := SaveRequest(cfg, env, s, Plain(uri));
    RevalidateNone(cfg, env, t);
    RevalidateNone(cfg, env, s);
    assert [uri][1..] == [];
    SaveRequestEffect(cfg, env, s, Plain(uri));
    if Saves(env, s, Plain(uri)) { PlainSaveRenews(cfg, env, s, uri); }
  }

  lemma RevalidateNone(cfg: Config, env: Env, s: Sys)
    ensures Revalidate(cfg, env, s, []) == s
  {}

  /** Every cached URI of the list is renewed, given replies that may be stored. */
  lemma {:induction false} RevalidateRenews(cfg: Config, env: Env, from: nat, s: Sys, uris: seq<string>, uri: string)
    requires SysOk(cfg, s) && EnvOk(env) && from <= |s.hist|
    requires uri in uris && ValidUri(uri) && AlwaysStorable(env, uri)
    requires PlainKey(cfg, uri) in s.store
    ensures var t := Revalidate(cfg, env, s, uris); var k := PlainKey(cfg, uri);
      k in t.store && Backed(cfg, t.hist, from, t.now, t.store[k])
    decreases |uris|
  {
    hide Evolves, SysOk, SaveRequest, EnvOk, ValidUri, WellFormedRequest, Backed, PlainKey;
    var k := PlainKey(cfg, uri);
    if ValidUri(uris[0]) && PlainKey(cfg, uris[0]) in s.store {
      PlainIsWellFormed(uris[0]);
      var t := SaveRequest(cfg, env, s, Plain(uris[0]));
      SaveRequestEffect(cfg, env, s, Plain(uris[0]));
      SaveRequestEvolves(cfg, env, |s.hist|, s, Plain(uris[0]));
      EvolvesOk(cfg, |s.hist|, s, t);
      if uris[0] == uri {
        PlainSaveRenews(cfg, env, s, uri);
        BackedGrows(cfg, t.hist, |s.hist|, t.now, t.store[k], t.hist, from, t.now);
        RevalidateKeeps(cfg, env, from, t, uris[1..], k);
      } else {
        RevalidateRenews(cfg, env, from, t, uris[1..], uri);
      }
    } else {
      RevalidateRenews(cfg, env, from, s, uris[1..], uri);
    }
  }

  lemma {:induction false} RevalidateKeeps(cfg: Config, env: Env, from: nat, s: Sys, uris: seq<string>, k: string)
    requires SysOk(cfg, s) && EnvOk(env) && from <= |s.hist|
    requires k in s.store && Backed(cfg, s.hist, from, s.now, s.store[k])
    ensures var t := Revalidate(cfg, env, s, uris);
      k in t.store && Backed(cfg, t.hist, from, t.now, t.store[k])
    decreases |uris|
  {
    hide Evolves, SysOk, SaveRequest, EnvOk, ValidUri, WellFormedRequest, Backed, PlainKey;
    if uris == [] {
    } else if ValidUri(uris[0]) && PlainKey(cfg, uris[0]) in s.store {
      PlainIsWellFormed(uris[0]);
      var t := SaveRequest(cfg, env, s, Plain(uris[0]));
      SaveRequestEffect(cfg, env, s, Plain(uris[0]));
      SaveRequestEvolves(cfg, env, from, s, Plain(uris[0]));
      EvolvesOk(cfg, from, s, t);
      EntryEvolves(cfg, from, s, t, k);
      RevalidateKeeps(cfg, env, from, t, uris[1..], k);
    } else {
      RevalidateKeeps(cfg, env, from, s, uris[1..], k);
    }
  }

  lemma EntryEvolves(cfg: Config, from: nat, s: Sys, t: Sys, k: string)
    requires Evolves(cfg, from, s, t) && k in s.store && k in t.store && Backed(cfg, s.hist, from, s.now, s.store[k])
    ensures Backed(cfg, t.hist, from, t.now, t.store[k])
  {
    hide Backed, SysOk;
    if t.store[k] == s.store[k] {
      BackedGrows(cfg, s.hist, from, s.now, s.store[k], t.hist, from, t.now);
    }
  }

  /** Invalidation removes the bare keys of the listed URIs and nothing else. */
  lemma {:induction false} InvalidateRemoves(cfg: Config, s: Sys, uris: seq<string>, k: string)
    ensures var t := Invalidate(cfg, s, uris);
      && t.hist == s.hist && t.now == s.now
      && (k in t.store <==> k in s.store && forall u :: u in uris && ValidUri(u) ==> k != PlainKey(cfg, u))
      && (k in t.store ==> t.store[k] == s.store[k])
    decreases |uris|
  {
    hide PlainKey, ValidUri;
    if uris != [] {
      var t := if ValidUri(uris[0]) then Purge(s, PlainKey(cfg, uris[0])) else s;
      InvalidateRemoves(cfg, t, uris[1..], k);
      assert forall u :: u in uris <==> u == uris[0] || u in uris[1..];
    }
  }

  /* The whole follow-up of an unsafe request. */

  /** Section 4.4: the target URI of the request, and those the reply gives in Location or Content-Location. */
  ghost predicate Affected(cfg: Config, w: Request, reply: Reply, uri: string) {
    && UnsafeRequest(w) && 200 <= reply.status <= 399
    && (uri == w.uri
        || exists ref :: (ref in Values(reply.header, "Location") || ref in Values(reply.header, "Content-Location"))
                         && cfg.requestUri(ref) == uri)
  }

  lemma {:induction false} RequestUrisListed(cfg: Config, refs: seq<string>, uri: string)
    ensures uri in RequestUris(cfg, refs) <==> exists ref :: ref in refs && cfg.requestUri(ref) == uri
  {
    if refs != [] {
      var n := |refs| - 1;
      RequestUrisListed(cfg, refs[..n], uri);
      assert forall ref :: ref in refs <==> ref in refs[..n] || ref == refs[n];
    }
  }

  lemma AffectedIsListed(cfg: Config, w: Request, reply: Reply, uri: string)
    ensures Affected(cfg, w, reply, uri) <==> uri in InvalidateUris(cfg, w, reply.status, reply.header)
  {
    hide Values;
    RequestUrisListed(cfg, Values(reply.header, "Location") + Values(reply.header, "Content-Location"), uri);
  }

  lemma {:induction false} SaveUpdatesKeeps(cfg: Config, env: Env, from: nat, s: Sys, updates: seq<CacheUpdate>,
                                            k: string)
    requires SysOk(cfg, s) && EnvOk(env) && from <= |s.hist|
    requires k in s.store ==> Backed(cfg, s.hist, from, s.now, s.store[k])
    ensures var t := SaveUpdates(cfg, env, s, updates);
      && (k in s.store ==> k in t.store)
      && (k in t.store ==> Backed(cfg, t.hist, from, t.now, t.store[k]))
    decreases |updates|
  {
    hide Evolves, SysOk, SaveRequest, EnvOk, ValidUri, WellFormedRequest, Backed;
    if updates == [] {
    } else if updates[0].delay == 0 && ValidUri(updates[0].path) {
      PlainIsWellFormed(updates[0].path);
      var t := SaveRequest(cfg, env, s, Plain(updates[0].path));
      SaveRequestEffect(cfg, env, s, Plain(updates[0].path));
      SaveRequestEvolves(cfg, env, from, s, Plain(updates[0].path));
      EvolvesOk(cfg, from, s, t);
      if k in t.store { StillBacked(cfg, from, s, t, k); }
      SaveUpdatesKeeps(cfg, env, from, t, updates[1..], k);
    } else {
      SaveUpdatesKeeps(cfg, env, from, s, updates[1..], k);
    }
  }

  lemma StillBacked(cfg: Config, from: nat, s: Sys, t: Sys, k: string)
    requires Evolves(cfg, from, s, t) && k in t.store
    requires k in s.store ==> Backed(cfg, s.hist, from, s.now, s.store[k])
    ensures Backed(cfg, t.hist, from, t.now, t.store[k])
  {
    hide Backed, SysOk;
    if k in s.store { EntryEvolves(cfg, from, s, t, k); }
  }

  /** A GET key never equals the key of the unsafe request's own response. */
  lemma OwnKeyDiffers(cfg: Config, w: Request, h: Header, uri: string)
    requires OriginId(cfg.origin) && WellFormedRequest(w) && UnsafeRequest(w) && ValidUri(uri)
    ensures WriteKey(cfg, w, h) != PlainKey(cfg, uri)
  {
    hide ListHeader, MethodPrefix, FullKey, KeyPrefix;
    PlainIsWellFormed(uri);
    PlainIsStoredPlain(cfg, uri, h);
    MethodPrefixIff(cfg.origin, "GET", w, VaryList(h)) by { assert IsToken("GET"); }
    MethodPrefixIff(cfg.origin, "GET", Plain(uri), VaryList(h));
  }

  /**
   After the follow-up of an unsafe request with a non-error reply, no affected URI still has the
   response it had under its bare key: with updates on it was fetched anew, given replies that may
   be stored, and with updates off it was removed.
   */
  lemma WriteRenewsAffected(cfg: Config, env: Env, s: Sys, w: Request, uri: string)
    requires SysOk(cfg, s) && EnvOk(env) && WellFormedRequest(w) && ValidUri(uri)
    requires Affected(cfg, w, NextExchange(env, s, w).reply, uri)
    requires cfg.updating ==> AlwaysStorable(env, uri)
    ensures var t := FollowUp(cfg, env, Fetch(env, s, w), NextJob(env, s, w)); var k := PlainKey(cfg, uri);
      && (k in t.store ==> Backed(cfg, t.hist, |s.hist|, t.now, t.store[k]))
      && (cfg.updating && k in s.store ==> k in t.store)
  {
    hide Evolves, SysOk, EnvOk, Revalidate, Invalidate, SaveUpdates, InvalidateUris, CacheUpdates, PlainKey, Affected,
         Head, AlwaysStorable, WellFormedRequest, ValidUri, Backed, WriteKey, Storable, MakeEntry;
    var n, f, job := |s.hist|, Fetch(env, s, w), NextJob(env, s, w);
    var k := PlainKey(cfg, uri);
    AffectedIsListed(cfg, w, NextExchange(env, s, w).reply, uri);
    FetchEvolves(cfg, env, n, s, w);
    EvolvesOk(cfg, n, s, f);
    assert JobOf(f, n, job);
    var kept := Keep(cfg, f, job);
    HistoryIsPast(cfg, f, n);
    KeepEvolves(cfg, n, f, n, job, f.now);
    EvolvesOk(cfg, n, f, kept);
    OriginIsId(cfg, s);
    OwnKeyDiffers(cfg, w, job.rec.header, uri) by { AffectedIsUnsafe(cfg, w, NextExchange(env, s, w).reply, uri); }
    assert k in kept.store <==> k in s.store;
    var uris := InvalidateUris(cfg, w, job.rec.status, job.rec.header);
    RevalidateEvolves(cfg, env, n, kept, uris);
    InvalidateEvolves(cfg, n, kept, uris);
    if cfg.updating {
      if k in kept.store { RevalidateRenews(cfg, env, n, kept, uris, uri); }
      else { RevalidateAbsent(cfg, env, n, kept, uris, k); }
    } else {
      InvalidateRemoves(cfg, kept, uris, k);
    }
    var clean := if cfg.updating then Revalidate(cfg, env, kept, uris) else Invalidate(cfg, kept, uris);
    EvolvesOk(cfg, n, kept, clean);
    SaveUpdatesKeeps(cfg, env, n, clean, CacheUpdates(cfg, w, job.rec.header), k);
  }

  lemma AffectedIsUnsafe(cfg: Config, w: Request, reply: Reply, uri: string)
    requires Affected(cfg, w, reply, uri)
    ensures UnsafeRequest(w)
  {}

  lemma RevalidateAbsent(cfg: Config, env: Env, from: nat, s: Sys, uris: seq<string>, k: string)
    requires SysOk(cfg, s) && EnvOk(env) && from <= |s.hist| && k !in s.store
    ensures var t := Revalidate(cfg, env, s, uris); k in t.store ==> Backed(cfg, t.hist, from, t.now, t.store[k])
  {
    hide SysOk, EnvOk, Revalidate, Backed;
    RevalidateEvolves(cfg, env, from, s, uris);
  }

  /* What a request's own reply leaves in the store. */

  /** The entry under this key is as it was. */
  predicate SameEntry(s: Sys, t: Sys, k: string) {
    (k in t.store <==> k in s.store) && (k in s.store ==> t.store[k] == s.store[k])
  }

  lemma PlainKeyIsGet(cfg: Config, uri: string)
    ensures MethodPrefix(cfg.origin, "GET") <= PlainKey(cfg, uri)
  {
    hide CanonicalName;
  }

  lemma PlainSaveKeepsOthers(cfg: Config, env: Env, s: Sys, uri: string, k: string)
    requires SysOk(cfg, s) && EnvOk(env) && ValidUri(uri) && !(MethodPrefix(cfg.origin, "GET") <= k)
    ensures SameEntry(s, SaveRequest(cfg, env, s, Plain(uri)), k)
  {
    hide SysOk, EnvOk, ValidUri, SaveRequest, Saves, Backed, WriteKey, PlainKey, MethodPrefix, WellFormedRequest;
    PlainIsWellFormed(uri);
    SaveRequestEffect(cfg, env, s, Plain(uri));
    var h := NextExchange(env, s, Plain(uri)).reply.header;
    PlainIsStoredPlain(cfg, uri, h);
    PlainKeyIsGet(cfg, uri);
  }

  lemma {:induction false} RevalidateKeepsOthers(cfg: Config, env: Env, s: Sys, uris: seq<string>, k: string)
    requires SysOk(cfg, s) && EnvOk(env) && !(MethodPrefix(cfg.origin, "GET") <= k)
    ensures SameEntry(s, Revalidate(cfg, env, s, uris), k)
    decreases |uris|
  {
    hide SysOk, EnvOk, ValidUri, SaveRequest, PlainKey, MethodPrefix, Evolves, WellFormedRequest;
    if uris != [] {
      if ValidUri(uris[0]) && PlainKey(cfg, uris[0]) in s.store {
        PlainIsWellFormed(uris[0]);
        var t := SaveRequest(cfg, env, s, Plain(uris[0]));
        PlainSaveKeepsOthers(cfg, env, s, uris[0], k);
        SaveRequestEvolves(cfg, env, |s.hist|, s, Plain(uris[0]));
        EvolvesOk(cfg, |s.hist|, s, t);
        RevalidateKeepsOthers(cfg, env, t, uris[1..], k);
      } else {
        RevalidateKeepsOthers(cfg, env, s, uris[1..], k);
      }
    }
  }

  lemma {:induction false} SaveUpdatesKeepsOthers(cfg: Config, env: Env, s: Sys, updates: seq<CacheUpdate>, k: string)
    requires SysOk(cfg, s) && EnvOk(env) && !(MethodPrefix(cfg.origin, "GET") <= k)
    ensures SameEntry(s, SaveUpdates(cfg, env, s, updates), k)
    decreases |updates|
  {
    hide SysOk, EnvOk, ValidUri, SaveRequest, MethodPrefix, Evolves, WellFormedRequest;
    if updates != [] {
      if updates[0].delay == 0 && ValidUri(updates[0].path) {
        PlainIsWellFormed(updates[0].path);
        var t := SaveRequest(cfg, env, s, Plain(updates[0].path));
        PlainSaveKeepsOthers(cfg, env, s, updates[0].path, k);
        SaveRequestEvolves(cfg, env, |s.hist|, s, Plain(updates[0].path));
        EvolvesOk(cfg, |s.hist|, s, t);
        SaveUpdatesKeepsOthers(cfg, env, t, updates[1..], k);
      } else {
        SaveUpdatesKeepsOthers(cfg, env, s, updates[1..], k);
      }
    }
  }

  lemma InvalidateKeepsOthers(cfg: Config, s: Sys, uris: seq<string>, k: string)
    requires !(MethodPrefix(cfg.origin, "GET") <= k)
    ensures SameEntry(s, Invalidate(cfg, s, uris), k)
  {
    hide ValidUri, PlainKey, MethodPrefix, Invalidate;
    InvalidateRemoves(cfg, s, uris, k);
    forall u | u in uris ensures k != PlainKey(cfg, u) { PlainKeyIsGet(cfg, u); }
  }

  /** A safe request has nothing to follow up. */
  lemma SafeFollowUp(cfg: Config, env: Env, s: Sys, job: Job)
    requires job.request.verb == "GET" || job.request.verb == "HEAD"
    ensures FollowUp(cfg, env, s, job) == Keep(cfg, s, job)
  {
    hide KeepAt;
  }

  /**
   After the follow-up of a request the store holds its reply under the reply's own key exactly when
   the reply has any field and may legitimately be stored; otherwise what was under the key is left.
   */
  lemma FollowUpStoresIff(cfg: Config, env: Env, s: Sys, r: Request)
    requires SysOk(cfg, s) && EnvOk(env) && WellFormedRequest(r)
    ensures var x := NextExchange(env, s, r);
      var t, k := FollowUp(cfg, env, Fetch(env, s, r), NextJob(env, s, r)), WriteKey(cfg, r, x.reply.header);
      if x.reply.header != map[] && StoredLegitimately(r, x.reply.status, x.reply.header)
      then k in t.store && Made(cfg, x, x.end, x.end, t.store[k])
      else SameEntry(s, t, k)
  {
    hide SysOk, EnvOk, WellFormedRequest, WriteKey, ReadEntry, StoredLegitimately, Made, KeepAt, RecordingOf,
         Replayable,
         StoredHeader, Revalidate, Invalidate, SaveUpdates, InvalidateUris, CacheUpdates, Evolves, ExchangeOk, FollowUp;
    var n, x, f, job := |s.hist|, NextExchange(env, s, r), Fetch(env, s, r), NextJob(env, s, r);
    FetchEvolves(cfg, env, n, s, r);
    EvolvesOk(cfg, n, s, f);
    OriginIsId(cfg, s);
    ExchangeStatus(x) by { assert ExchangeOk(x); }
    KeepStoresIff(cfg, f, x, x.end);
    if r.verb == "GET" || r.verb == "HEAD" {
      SafeFollowUp(cfg, env, f, job);
    } else {
      assert JobOf(f, n, job);
      HistoryIsPast(cfg, f, n);
      OwnKeyIsNoGet(cfg, r, x.reply.header);
      OwnKeyStays(cfg, env, f, n, job, WriteKey(cfg, r, x.reply.header));
    }
  }

  lemma OwnKeyIsNoGet(cfg: Config, r: Request, h: Header)
    requires OriginId(cfg.origin) && WellFormedRequest(r) && r.verb != "GET"
    ensures !(MethodPrefix(cfg.origin, "GET") <= WriteKey(cfg, r, h))
  {
    hide MethodPrefix, FullKey, ListHeader, WellFormedRequest;
    MethodPrefixIff(cfg.origin, "GET", r, VaryList(h)) by { assert IsToken("GET"); }
  }

  lemma OwnKeyStays(cfg: Config, env: Env, s: Sys, i: nat, job: Job, k: string)
    requires SysOk(cfg, s) && EnvOk(env) && JobOf(s, i, job) && s.hist[i].end <= s.now
    requires !(MethodPrefix(cfg.origin, "GET") <= k)
    ensures SameEntry(Keep(cfg, s, job), FollowUp(cfg, env, s, job), k)
  {
    hide SysOk, EnvOk, KeepAt, Revalidate, Invalidate, SaveUpdates, InvalidateUris, CacheUpdates, Evolves, MethodPrefix,
         RecordingOf;
    var kept := Keep(cfg, s, job);
    KeepEvolves(cfg, i, s, i, job, s.now);
    EvolvesOk(cfg, i, s, kept);
    var uris := InvalidateUris(cfg, job.request, job.rec.status, job.rec.header);
    RevalidateEvolves(cfg, env, 0, kept, uris);
    InvalidateEvolves(cfg, 0, kept, uris);
    RevalidateKeepsOthers(cfg, env, kept, uris, k);
    InvalidateKeepsOthers(cfg, kept, uris, k);
    var clean := if cfg.updating then Revalidate(cfg, env, kept, uris) else Invalidate(cfg, kept, uris);
    EvolvesOk(cfg, 0, kept, clean);
    SaveUpdatesKeepsOthers(cfg, env, clean, CacheUpdates(cfg, job.request, job.rec.header), k);
  }
}
