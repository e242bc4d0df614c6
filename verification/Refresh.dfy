/** What refreshing, revalidating and updating guarantee about the entries they are meant to renew. */
module Refresh {
  import opened Http
  import opened CacheKey
  import opened Freshness
  import opened StoreGate
  import opened Wire
  import opened System
  import opened Updates

  /** The entry, if there is one, was made from an exchange of this call. */
  ghost predicate Renewed(cfg: Config, s: Sys, t: Sys, key: string) {
    key in t.store ==> Backed(cfg, t.hist, |s.hist|, t.now, t.store[key])
  }

  /* Storing one reply. */

  /** A stored reply writes exactly its own key, with an entry made from this exchange. */
  lemma SaveRequestEffect(cfg: Config, env: Env, s: Sys, r: Request)
    requires SysOk(cfg, s) && EnvOk(env) && WellFormedRequest(r)
    ensures var t := SaveRequest(cfg, env, s, r);
      && (forall k :: k in t.store && (!Saves(env, s, r) || k != SavedKey(cfg, env, s, r)) ==>
            k in s.store && t.store[k] == s.store[k])
      && (forall k :: k in s.store ==> k in t.store)
      && (Saves(env, s, r) ==>
            var k := SavedKey(cfg, env, s, r); k in t.store && Backed(cfg, t.hist, |s.hist|, t.now, t.store[k]))
  {
    hide WellFormedRequest, EnvOk, WriteKey, Storable, GetExpiration, Backed;
    FetchEvolves(cfg, env, |s.hist|, s, r);
    if Saves(env, s, r) { SavedIsBacked(cfg, env, s, r); }
  }

  lemma SavedIsBacked(cfg: Config, env: Env, s: Sys, r: Request)
    requires Saves(env, s, r) && ExchangeOk(NextExchange(env, s, r))
    ensures var t := SaveRequest(cfg, env, s, r); var k := SavedKey(cfg, env, s, r);
      k in t.store && Backed(cfg, t.hist, |s.hist|, t.now, t.store[k])
  {
    hide WellFormedRequest, WriteKey, Storable, GetExpiration;
    var t := SaveRequest(cfg, env, s, r);
    var x := NextExchange(env, s, r);
    assert t.hist[|s.hist|] == x;
    assert Made(cfg, x, t.now, t.now, t.store[SavedKey(cfg, env, s, r)]);
  }

  /* Refreshing an entry. */

  /** The state in which the reply that `UpdateEntry` stores, if it stores any, is fetched. */
  function Attempt(cfg: Config, env: Env, s: Sys, r: Request): Sys {
    if Saves(env, s, r) then s else Sleep(SaveRequest(cfg, env, s, r), SECOND)
  }

  /** The attempt's reply is not stored at all, or under the key that is being refreshed. */
  predicate RefreshStable(cfg: Config, env: Env, s: Sys, key: string) {
    var d := DecodeKey(cfg.origin, key);
    d.Err? || var a := Attempt(cfg, env, s, d.request);
      Saves(env, a, d.request) ==> SavedKey(cfg, env, a, d.request) == key
  }

  /** What refreshing does, case by case: purge, or one write under the stored reply's own key. */
  lemma UpdateEntryEffect(cfg: Config, env: Env, s: Sys, key: string)
    requires SysOk(cfg, s) && EnvOk(env) && key in s.store
    ensures DecodeKey(cfg.origin, key).Ok?
    ensures var t := UpdateEntry(cfg, env, s, key);
      var r := DecodeKey(cfg.origin, key).request;
      var a := Attempt(cfg, env, s, r);
      if Saves(env, a, r) then
        var written := SavedKey(cfg, env, a, r);
        && written in t.store && Backed(cfg, t.hist, |s.hist|, t.now, t.store[written])
        && (forall k :: k in t.store && k != written ==> k in s.store && t.store[k] == s.store[k])
        && (forall k :: k in s.store ==> k in t.store)
      else t.store == s.store - {key}
  {
    hide WellFormedRequest, EnvOk, SysOk, DecodeKey, Saves, SavedKey, SaveRequest, Backed, Evolves;
    StoredKeyDecodes(cfg, s, key);
    var r := DecodeKey(cfg.origin, key).request;
    SaveRequestEffect(cfg, env, s, r);
    var first := SaveRequest(cfg, env, s, r);
    SaveRequestEvolves(cfg, env, |s.hist|, s, r);
    EvolvesOk(cfg, |s.hist|, s, first);
    if !Saves(env, s, r) {
      var rested := Sleep(first, SECOND);
      SleepEvolves(cfg, |s.hist|, first, SECOND);
      EvolvesOk(cfg, |s.hist|, first, rested);
      SaveRequestEffect(cfg, env, rested, r);
      var second := SaveRequest(cfg, env, rested, r);
      SaveRequestEvolves(cfg, env, |s.hist|, rested, r);
      EvolvesOk(cfg, |s.hist|, rested, second);
      if Saves(env, rested, r) {
        var k := SavedKey(cfg, env, rested, r);
        BackedGrows(cfg, second.hist, |rested.hist|, second.now, second.store[k], second.hist, |s.hist|, second.now);
      }
    }
  }

  /**
   Refreshing renews the entry in place, or removes it, exactly when the attempt is stable;
   otherwise the old entry stays as it was. Under stability no other key changes.
   */
  lemma RefreshesInPlace(cfg: Config, env: Env, s: Sys, key: string)
    requires SysOk(cfg, s) && EnvOk(env) && key in s.store
    ensures var t := UpdateEntry(cfg, env, s, key);
      if RefreshStable(cfg, env, s, key)
      then Renewed(cfg, s, t, key)
           && forall k :: k != key ==> (k in t.store <==> k in s.store) && (k in s.store ==> t.store[k] == s.store[k])
      else key in t.store && t.store[key] == s.store[key]
  {
    hide WellFormedRequest, EnvOk, SysOk, DecodeKey, Saves, SavedKey, SaveRequest, Backed, UpdateEntry, Attempt;
    UpdateEntryEffect(cfg, env, s, key);
  }

  /** When an attempt is stable, in terms of the request behind the entry and the reply's Vary list. */
  lemma RefreshStableIff(cfg: Config, env: Env, s: Sys, x: Exchange, decided: int, received: int, key: string)
    requires SysOk(cfg, s) && key in s.store && x in s.hist && Made(cfg, x, decided, received, s.store[key])
    ensures DecodeKey(cfg.origin, key).Ok?
    ensures var r := DecodeKey(cfg.origin, key).request;
      var a := Attempt(cfg, env, s, r);
      var names, others := VaryList(x.reply.header), VaryList(NextExchange(env, a, r).reply.header);
      RefreshStable(cfg, env, s, key) <==>
        (Saves(env, a, r) ==>
          && (Get(x.request.header, "Cache-Key") == "" || Nominates(names, "Cache-Key"))
          && Nominated(r.header, others) == Nominated(x.request.header, names))
  {
    hide WellFormedRequest, DecodeKey, Saves, Attempt, FullKey, Nominated, Nominates, ListHeader, Get, Replayable,
         Storable, Backed;
    assert ExchangeOk(x);
    StoredKeyDecodes(cfg, s, key);
    var r := DecodeKey(cfg.origin, key).request;
    var a := Attempt(cfg, env, s, r);
    RefreshKeyIff(cfg.origin, x.request, VaryList(x.reply.header), VaryList(NextExchange(env, a, r).reply.header));
  }

  /**
   Refreshing an entry stored under a `Cache-Key` that its response does not nominate leaves it as it
   was, if the origin's reply may be stored.
   */
  lemma CacheKeyEntryStaysBehind(cfg: Config, env: Env, s: Sys, x: Exchange, decided: int, received: int, key: string)
    requires SysOk(cfg, s) && EnvOk(env) && key in s.store
    requires x in s.hist && Made(cfg, x, decided, received, s.store[key])
    requires Get(x.request.header, "Cache-Key") != "" && !Nominates(VaryList(x.reply.header), "Cache-Key")
    requires DecodeKey(cfg.origin, key).Ok? ==>
      var r := DecodeKey(cfg.origin, key).request; Saves(env, Attempt(cfg, env, s, r), r)
    ensures var t := UpdateEntry(cfg, env, s, key); key in t.store && t.store[key] == s.store[key]
  {
    hide WellFormedRequest, DecodeKey, Saves, Attempt, Nominated, Nominates, ListHeader, Get, Made, SysOk, EnvOk,
         UpdateEntry, Renewed, RefreshStable;
    RefreshStableIff(cfg, env, s, x, decided, received, key);
    RefreshesInPlace(cfg, env, s, key);
  }

  /* The updater loop. */

  const TIMEOUT: nat := SECOND

  /** The provider's `Oldest`: an entry of the prefix with the earliest positive expiry. */
  predicate Oldest(store: Store, prefix: string, key: string) {
    && key in store && prefix <= key && store[key].expires > 0
    && forall k :: k in store && prefix <= k && store[k].expires > 0 ==> store[key].expires <= store[k].expires
  }

  predicate Due(s: Sys, key: string) {
    key in s.store && Sub(s.store[key].expires, s.now) <= TIMEOUT
  }

  /** One iteration that refreshes `key`. */
  predicate Refreshes(cfg: Config, env: Env, s: Sys, t: Sys, key: string) {
    Oldest(s.store, MethodPrefix(cfg.origin, "GET"), key) && Due(s, key) && t == UpdateEntry(cfg, env, s, key)
  }

  /** One iteration of the loop: refresh an oldest entry if it is due, and sleep otherwise. */
  ghost predicate Iteration(cfg: Config, env: Env, s: Sys, t: Sys) {
    if exists key :: Oldest(s.store, MethodPrefix(cfg.origin, "GET"), key) && Due(s, key)
    then exists key :: Refreshes(cfg, env, s, t, key)
    else t == Sleep(s, TIMEOUT)
  }

  /** The loop sleeps only when no GET entry with a positive expiry is due. */
  lemma SleepsOnlyWhenNothingIsDue(cfg: Config, s: Sys)
    ensures (exists key :: Oldest(s.store, MethodPrefix(cfg.origin, "GET"), key) && Due(s, key)) <==>
            (exists k :: k in s.store && MethodPrefix(cfg.origin, "GET") <= k
                         && s.store[k].expires > 0 && s.store[k].expires - s.now <= 1_000_000_000)
  {
    hide MethodPrefix;
    var prefix := MethodPrefix(cfg.origin, "GET");
    if k :| k in s.store && prefix <= k && s.store[k].expires > 0 && s.store[k].expires - s.now <= TIMEOUT {
      var ks := set q | q in s.store && prefix <= q && s.store[q].expires > 0;
      assert k in ks;
      EarliestExists(s.store, ks);
      var key :| key in ks && forall q :: q in ks ==> s.store[key].expires <= s.store[q].expires;
      assert Oldest(s.store, prefix, key) && Due(s, key);
    }
  }

  /** When nothing is due the loop waits for a second and does nothing else. */
  lemma IdlesForASecond(cfg: Config, env: Env, s: Sys, t: Sys)
    requires Iteration(cfg, env, s, t)
    requires !exists key :: Oldest(s.store, MethodPrefix(cfg.origin, "GET"), key) && Due(s, key)
    ensures t == s.(now := s.now + 1_000_000_000)
  {
    hide Oldest, Due, MethodPrefix, UpdateEntry;
  }

  /** A refresh asks once, or twice with a second in between, if the first reply is not stored. */
  lemma RefreshTakesTime(cfg: Config, env: Env, s: Sys, key: string)
    requires DecodeKey(cfg.origin, key).Ok?
    ensures var t, n, r := UpdateEntry(cfg, env, s, key), |s.hist|, DecodeKey(cfg.origin, key).request;
      if Saves(env, s, r) then t.hist == s.hist + [NextExchange(env, s, r)] && t.now == s.now + env.pause(n)
      else
        && |t.hist| == n + 2 && t.hist[n] == NextExchange(env, s, r) && t.hist[n + 1].request == r
        && t.hist[n + 1].start == t.hist[n].end + 1_000_000_000
        && t.now == t.hist[n + 1].end == t.hist[n + 1].start + env.pause(n + 1)
  {
    hide DecodeKey, Storable, KeepAt, RecordingOf;
    var r := DecodeKey(cfg.origin, key).request;
    KeepKeepsTime(cfg, Fetch(env, s, r), NextJob(env, s, r));
    var rested := Sleep(SaveRequest(cfg, env, s, r), SECOND);
    KeepKeepsTime(cfg, Fetch(env, rested, r), NextJob(env, rested, r));
  }

  lemma KeepKeepsTime(cfg: Config, s: Sys, job: Job)
    ensures Keep(cfg, s, job).hist == s.hist && Keep(cfg, s, job).now == s.now
  {
    hide Storable, MakeEntry, WriteKey;
  }

  lemma {:induction false} EarliestExists(store: Store, ks: set<string>)
    requires ks != {} && forall k :: k in ks ==> k in store
    ensures exists key :: key in ks && forall q :: q in ks ==> store[key].expires <= store[q].expires
    decreases ks
  {
    var k :| k in ks;
    if ks != {k} {
      var rest := ks - {k};
      assert ks == rest + {k} && rest != {};
      EarliestExists(store, rest);
      var m :| m in rest && forall q :: q in rest ==> store[m].expires <= store[q].expires;
      var least := if store[k].expires <= store[m].expires then k else m;
      assert least in ks && forall q :: q in ks ==> store[least].expires <= store[q].expires;
    }
  }

  /** The GET entries that fall due by `limit`. */
  function DueBy(cfg: Config, store: Store, limit: int): set<string> {
    set k | k in store && MethodPrefix(cfg.origin, "GET") <= k && 0 < store[k].expires <= limit
  }

  /** The attempt's reply, if it is stored, has no lifetime, or one beyond `limit`. */
  predicate Outlasts(cfg: Config, env: Env, s: Sys, r: Request, limit: int) {
    var a := Attempt(cfg, env, s, r);
    Saves(env, a, r) ==>
      var x := NextExchange(env, a, r);
      var ttl := FreshnessLifetime(cfg.dates, x.reply.header, x.end);
      ttl == 0 || Floor(x.end + ttl) > limit
  }

  /** The refetched reply is stable for the key and does not fall due by `limit`. */
  predicate Settles(cfg: Config, env: Env, s: Sys, key: string, limit: int) {
    && RefreshStable(cfg, env, s, key)
    && var d := DecodeKey(cfg.origin, key); d.Err? || Outlasts(cfg, env, s, d.request, limit)
  }

  /** Refreshing a due entry removes it from the set of due entries and adds none. */
  lemma RefreshShrinksDue(cfg: Config, env: Env, s: Sys, t: Sys, key: string, limit: int)
    requires SysOk(cfg, s) && EnvOk(env)
    requires Refreshes(cfg, env, s, t, key) && Settles(cfg, env, s, key, limit) && s.now + TIMEOUT <= limit
    ensures DueBy(cfg, t.store, limit) == DueBy(cfg, s.store, limit) - {key}
    ensures key in DueBy(cfg, s.store, limit)
  {
    hide WellFormedRequest, EnvOk, SysOk, DecodeKey, Saves, SavedKey, SaveRequest, Backed, MethodPrefix, Attempt,
         FreshnessLifetime, UpdateEntry, Settles;
    RefreshesInPlace(cfg, env, s, key);
    if key in t.store { SettledExpiry(cfg, env, s, key, limit); }
    RefreshStableFrame(cfg, env, s, key, limit);
  }

  lemma RefreshStableFrame(cfg: Config, env: Env, s: Sys, key: string, limit: int)
    requires Settles(cfg, env, s, key, limit)
    ensures RefreshStable(cfg, env, s, key)
  {}

  lemma SettledExpiry(cfg: Config, env: Env, s: Sys, key: string, limit: int)
    requires SysOk(cfg, s) && EnvOk(env) && key in s.store && Settles(cfg, env, s, key, limit)
    requires key in UpdateEntry(cfg, env, s, key).store
    ensures var e := UpdateEntry(cfg, env, s, key).store[key].expires; e <= 0 || e > limit
  {
    hide WellFormedRequest, EnvOk, SysOk, DecodeKey, UpdateEntry, Outlasts, Attempt, Saves, SavedKey, Backed;
    UpdateEntryEffect(cfg, env, s, key);
    WrittenExpiry(cfg, env, s, key, limit);
  }

  /** The expiry that a stored reply writes. */
  lemma WrittenExpiry(cfg: Config, env: Env, s: Sys, key: string, limit: int)
    requires DecodeKey(cfg.origin, key).Ok? && Outlasts(cfg, env, s, DecodeKey(cfg.origin, key).request, limit)
    ensures var t, r := UpdateEntry(cfg, env, s, key), DecodeKey(cfg.origin, key).request;
      var a := Attempt(cfg, env, s, r);
      Saves(env, a, r) ==>
        var k := SavedKey(cfg, env, a, r); k in t.store && (t.store[k].expires <= 0 || t.store[k].expires > limit)
  {
    hide DecodeKey, FreshnessLifetime, WriteKey, Storable, Head;
  }

  /** A run of iterations in which every one refreshes an entry, all before `limit`. */
  ghost predicate BusyPass(cfg: Config, env: Env, trace: seq<Sys>, keys: seq<string>, limit: int) {
    && |trace| == |keys| + 1
    && SysOk(cfg, trace[0])
    && forall i :: 0 <= i < |keys| ==>
         && Refreshes(cfg, env, trace[i], trace[i + 1], keys[i])
         && Settles(cfg, env, trace[i], keys[i], limit)
         && trace[i].now + TIMEOUT <= limit
  }

  /**
   The number of due entries is a measure: a pass without sleep takes at most as many iterations
   as there were entries due by the cut-off, and leaves exactly the others due.
   */
  lemma {:induction false} PassTerminates(cfg: Config, env: Env, trace: seq<Sys>, keys: seq<string>, limit: int)
    requires EnvOk(env) && BusyPass(cfg, env, trace, keys, limit)
    ensures SysOk(cfg, trace[|keys|])
    ensures |DueBy(cfg, trace[|keys|].store, limit)| + |keys| == |DueBy(cfg, trace[0].store, limit)|
    decreases |keys|
  {
    hide EnvOk, SysOk, Settles, Refreshes, DueBy;
    if keys != [] {
      var n := |keys| - 1;
      PassTerminates(cfg, env, trace[..n + 1], keys[..n], limit);
      var s, t := trace[n], trace[n + 1];
      RefreshShrinksDue(cfg, env, s, t, keys[n], limit);
      assert |DueBy(cfg, t.store, limit)| == |DueBy(cfg, s.store, limit)| - 1;
      IterationKeepsInvariant(cfg, env, s, t, keys[n]);
    }
  }

  lemma IterationKeepsInvariant(cfg: Config, env: Env, s: Sys, t: Sys, key: string)
    requires SysOk(cfg, s) && EnvOk(env) && Refreshes(cfg, env, s, t, key)
    ensures SysOk(cfg, t)
  {
    hide EnvOk, SysOk, UpdateEntry, DecodeKey, WellFormedRequest, Evolves;
    StoredKeyDecodes(cfg, s, key);
    UpdateEntryEvolves(cfg, env, s, key);
    EvolvesOk(cfg, |s.hist|, s, t);
  }

  /* An entry that the updater cannot leave. */

  /** The key alone has the earliest positive expiry of the GET entries. */
  predicate OnlyOldest(cfg: Config, store: Store, key: string) {
    var prefix := MethodPrefix(cfg.origin, "GET");
    && Oldest(store, prefix, key)
    && forall k :: k in store && prefix <= k && k != key && store[k].expires > 0 ==>
         store[key].expires < store[k].expires
  }

  /** An entry of a request whose `Cache-Key` its response does not nominate. */
  ghost predicate Unrestorable(cfg: Config, s: Sys, x: Exchange, key: string) {
    && key in s.store && x in s.hist && (exists d, t :: Made(cfg, x, d, t, s.store[key]))
    && Get(x.request.header, "Cache-Key") != "" && !Nominates(VaryList(x.reply.header), "Cache-Key")
  }

  /** The next refresh of the key gets a reply that may be stored and does not expire before the entry. */
  predicate RepliesOutlast(cfg: Config, env: Env, s: Sys, key: string) {
    key in s.store && var d := DecodeKey(cfg.origin, key);
      d.Ok? ==>
        && Saves(env, Attempt(cfg, env, s, d.request), d.request)
        && Outlasts(cfg, env, s, d.request, s.store[key].expires)
  }

  lemma StarvingStep(cfg: Config, env: Env, s: Sys, t: Sys, x: Exchange, key: string)
    requires SysOk(cfg, s) && EnvOk(env) && Iteration(cfg, env, s, t)
    requires Unrestorable(cfg, s, x, key) && OnlyOldest(cfg, s.store, key) && Due(s, key)
    requires RepliesOutlast(cfg, env, s, key)
    ensures SysOk(cfg, t) && Refreshes(cfg, env, s, t, key)
    ensures Unrestorable(cfg, t, x, key) && OnlyOldest(cfg, t.store, key) && Due(t, key)
    ensures t.store[key] == s.store[key] && forall k :: k in s.store ==> k in t.store
  {
    hide EnvOk, SysOk, DecodeKey, Saves, SavedKey, UpdateEntry, Attempt, Backed, MethodPrefix, Made, WellFormedRequest,
         Outlasts, Nominates, VaryList, Get, Evolves;
    var prefix := MethodPrefix(cfg.origin, "GET");
    assert forall k :: Oldest(s.store, prefix, k) ==> k == key;
    assert Refreshes(cfg, env, s, t, key);
    IterationKeepsInvariant(cfg, env, s, t, key);
    StoredKeyDecodes(cfg, s, key);
    UpdateEntryEvolves(cfg, env, s, key);
    EvolvesOk(cfg, |s.hist|, s, t);
    var d, r :| Made(cfg, x, d, r, s.store[key]);
    CacheKeyEntryStaysBehind(cfg, env, s, x, d, r, key);
    UpdateEntryEffect(cfg, env, s, key);
    WrittenExpiry(cfg, env, s, key, s.store[key].expires);
  }

  /**
   The updater starves: while such an entry has the earliest expiry, is due, and its replies outlast
   it, every iteration takes it and leaves it as it was; the loop never sleeps, and no other entry
   is refreshed.
   */
  lemma {:induction false} CacheKeyEntryStarvesOthers(cfg: Config, env: Env, trace: seq<Sys>, x: Exchange,
                                                      key: string, n: nat)
    requires EnvOk(env) && n < |trace| && SysOk(cfg, trace[0])
    requires forall i :: 0 <= i < |trace| - 1 ==> Iteration(cfg, env, trace[i], trace[i + 1])
    requires Unrestorable(cfg, trace[0], x, key) && OnlyOldest(cfg, trace[0].store, key) && Due(trace[0], key)
    requires forall i :: 0 <= i < |trace| - 1 ==> key in trace[i].store ==> RepliesOutlast(cfg, env, trace[i], key)
    ensures SysOk(cfg, trace[n])
    ensures Unrestorable(cfg, trace[n], x, key) && OnlyOldest(cfg, trace[n].store, key) && Due(trace[n], key)
    ensures trace[n].store[key] == trace[0].store[key]
    ensures n < |trace| - 1 ==> forall k, t :: Refreshes(cfg, env, trace[n], t, k) ==> k == key
    ensures n < |trace| - 1 ==> Refreshes(cfg, env, trace[n], trace[n + 1], key)
  {
    hide EnvOk, SysOk, Iteration, Unrestorable, Due, RepliesOutlast, MethodPrefix;
    if n > 0 {
      CacheKeyEntryStarvesOthers(cfg, env, trace, x, key, n - 1);
      StarvingStep(cfg, env, trace[n - 1], trace[n - 1 + 1], x, key);
    }
    if n < |trace| - 1 { StarvingStep(cfg, env, trace[n], trace[n + 1], x, key); }
  }
}
