/**
 Renewals that are interleaved with everything else: what the follow-up of an unsafe request and the
 updater's refresh of an entry achieve, whatever other threads do meanwhile.
 */
module Renewals {
  import opened Text
  import opened Http
  import opened CacheKey
  import opened StoreGate
  import opened Freshness
  import opened Wire
  import opened System
  import opened Protocol
  import opened Sequential
  import opened Overlap
  import U = Updates
  import R = Refresh
  import Y = ReadYourWrites

  /**
   What a thread is to renew: a path, in following up exchange `n`, by a fetch or (with updates off)
   by a purge; or the entry under a key, in refreshing it with the request it decodes to.
   */
  datatype Goal = FollowUp(n: nat, path: string, fetches: bool) | Refresh(key: string, request: Request)

  function PathOf(g: Goal): string { if g.FollowUp? then g.path else g.request.uri }

  function Target(cfg: Config, g: Goal): string { if g.FollowUp? then U.PlainKey(cfg, g.path) else g.key }

  /** The reply to this request of the goal's, asked since, waits to be stored. */
  predicate WaitsToBeStored(s: Sys, job: Job, r: Request, since: int) {
    job.StoreReply? && job.i < |s.hist| && s.hist[job.i].request == r && since <= s.hist[job.i].start
  }

  predicate AskedFor(job: Job, r: Request, since: int) { job.AwaitSave? && job.r == r && since <= job.start }

  predicate ForKey(purpose: Purpose, key: string) { purpose.Updater? && purpose.key == key }

  /** The jobs through which the goal is pursued. */
  predicate Pursues(cfg: Config, s: Sys, job: Job, g: Goal, since: int) {
    match g
    case FollowUp(n, path, fetches) =>
      || job == Follow(n)
      || job == Visit(path)
      || (fetches && (job == UpdatePath(path) || AskedFor(job, U.Plain(path), since)))
      || (fetches && WaitsToBeStored(s, job, U.Plain(path), since) && Stores(s.hist[job.i]))
    case Refresh(key, r) =>
      || job == Retry(key, r)
      || job == Remove(key)
      || (AskedFor(job, r, since) && ForKey(job.purpose, key))
      || (WaitsToBeStored(s, job, r, since) && ForKey(job.purpose, key)
          && (Stores(s.hist[job.i]) ==> KeyOf(cfg, s.hist[job.i]) == key))
  }

  /** Exchange `n` asks for the path, or affects it; the key is one that a GET of the path may be offered. */
  ghost predicate GoalOk(cfg: Config, s: Sys, g: Goal) {
    match g
    case FollowUp(n, path, fetches) =>
      && n < |s.hist| && ValidUri(path)
      && var x := s.hist[n];
         var affected := Y.Affected(cfg, x.request, x.reply, path);
         if fetches then affected || Y.AsksForUpdate(cfg, x.request, x.reply.header, path)
         else affected && !cfg.updating
    case Refresh(key, r) => ValidUri(r.uri) && U.PlainKey(cfg, r.uri) <= key
  }

  /** The replies to plain GETs of the path, from exchange `from` on, may be stored. */
  predicate RepliesStorable(hist: seq<Exchange>, from: nat, path: string) {
    forall i :: from <= i < |hist| && hist[i].request == U.Plain(path) ==> Stores(hist[i])
  }

  /** The replies to the request, from exchange `from` on, are stored under the key, if they are stored. */
  predicate RepliesStable(cfg: Config, hist: seq<Exchange>, from: nat, key: string, r: Request) {
    forall i :: from <= i < |hist| && hist[i].request == r && Stores(hist[i]) ==> KeyOf(cfg, hist[i]) == key
  }

  predicate RepliesOk(cfg: Config, hist: seq<Exchange>, from: nat, g: Goal) {
    match g
    case FollowUp(_, path, fetches) => fetches ==> RepliesStorable(hist, from, path)
    case Refresh(key, r) => RepliesStable(cfg, hist, from, key, r)
  }

  lemma RepliesOkBefore(cfg: Config, hist: seq<Exchange>, later: seq<Exchange>, from: nat, g: Goal)
    requires RepliesOk(cfg, later, from, g) && hist <= later
    ensures RepliesOk(cfg, hist, from, g)
  {
    hide Stores, KeyOf;
    forall i | from <= i < |hist| ensures hist[i] == later[i] {}
  }

  ghost predicate VariantsCurrent(cfg: Config, s: Sys, since: int, path: string) {
    forall k :: k in s.store && U.PlainKey(cfg, path) <= k && k != U.PlainKey(cfg, path) ==>
      Current(cfg, s.hist, since, s.store[k])
  }

  /** The goal's entry is gone, or was asked for since. */
  ghost predicate Renewed(cfg: Config, s: Sys, since: int, g: Goal) {
    var k := Target(cfg, g); k in s.store ==> Current(cfg, s.hist, since, s.store[k])
  }

  predicate Renewing(cfg: Config, p: State, id: nat, since: int, g: Goal) {
    id in p.threads && exists job :: job in p.threads[id] && Pursues(cfg, p.sys, job, g, since)
  }

  ghost predicate Updating(cfg: Config, p: State, id: nat, since: int, g: Goal) {
    && since <= p.sys.now && NoLate(p, since, PathOf(g)) && GoalOk(cfg, p.sys, g)
    && (Renewed(cfg, p.sys, since, g) || Renewing(cfg, p, id, since, g))
  }

  /** An entry of the path that was current stays so, and one that is written is. */
  lemma StepKeepsCurrent(cfg: Config, p: State, a: Action, since: int, path: string, k: string)
    requires Inv(cfg, p) && Enabled(cfg, p, a) && ValidUri(path) && NoLate(p, since, path)
    requires U.PlainKey(cfg, path) <= k && k in Next(cfg, p, a).sys.store
    requires k in p.sys.store ==> Current(cfg, p.sys.hist, since, p.sys.store[k])
    ensures var t := Next(cfg, p, a).sys; Current(cfg, t.hist, since, t.store[k])
  {
    hide Inv, SysOk, RunJob, MadeFrom, U.PlainKey, KeyOf, JobOk, Replayable, Stores, WellFormedRequest, ValidUri,
         Current, AskedOf, Lists;
    if a.Move? {
      var s, job, choice := p.sys, p.threads[a.id][0], a.choice;
      JobsOfThread(cfg, p, a.id);
      InvSys(cfg, p);
      RunGrows(cfg, s, job, choice);
      var t := RunJob(cfg, s, job, choice).sys;
      assert job in p.threads[a.id];
      if job.StoreReply? {
        StoringWrites(cfg, s, job.i, job.purpose, choice);
        StoredKeyOfPath(cfg, s, job.i, path);
        if Stores(s.hist[job.i]) && k == KeyOf(cfg, s.hist[job.i]) {
          assert !Late(s, job, since, path);
          NowCurrent(cfg, t.hist, job.i, since, t.store[k]);
        } else {
          CurrentGrows(cfg, s.hist, t.hist, since, s.store[k]);
        }
      } else {
        WritesOnlyStoring(cfg, s, job, choice, k);
        CurrentGrows(cfg, s.hist, t.hist, since, s.store[k]);
      }
    }
  }

  lemma NowCurrent(cfg: Config, hist: seq<Exchange>, i: nat, since: int, e: CacheEntry)
    requires i < |hist| && since <= hist[i].start && MadeFrom(cfg, hist[i], e)
    ensures Current(cfg, hist, since, e)
  {
    hide MadeFrom;
  }

  /** A job that has its turn leads to the next one, or settles the goal. */
  lemma GoalAdvances(cfg: Config, s: Sys, job: Job, choice: Choice, from: nat, since: int, g: Goal)
    requires SysOk(cfg, s) && ChoiceOk(s, job, choice) && Pursues(cfg, s, job, g, since)
    requires since <= s.now && from <= |s.hist| && GoalOk(cfg, s, g)
    requires RepliesOk(cfg, RunJob(cfg, s, job, choice).sys.hist, from, g)
    ensures var e := RunJob(cfg, s, job, choice);
      || (exists j :: j in e.jobs && Pursues(cfg, e.sys, j, g, since))
      || Renewed(cfg, e.sys, since, g)
  {
    hide SysOk, ChoiceOk, Stores, Renewed, RunJob, KeyOf, ValidUri, Y.AsksForUpdate, Y.Affected, U.PlainKey;
    match job {
      case Follow(n) => FollowAdvances(cfg, s, choice, since, g);
      case Visit(path) => VisitAdvances(cfg, s, choice, since, g);
      case UpdatePath(path) => UpdateAdvances(cfg, s, choice, since, g);
      case AwaitSave(r, start, purpose) => AskAdvances(cfg, s, job, choice, from, since, g);
      case StoreReply(i, purpose) => StoreAdvances(cfg, s, job, choice, since, g);
      case Retry(key, r) => RetryAdvances(cfg, s, choice, since, g);
      case Remove(key) => RemoveSettles(cfg, s, choice, since, g);
      case _ =>
    }
  }

  lemma {:induction false} ImmediateIsListed(updates: seq<U.CacheUpdate>, path: string)
    requires U.CacheUpdate(path, 0) in updates
    ensures UpdatePath(path) in PathUpdates(updates)
  {
    if updates[0] != U.CacheUpdate(path, 0) { ImmediateIsListed(updates[1..], path); }
  }

  lemma {:induction false} UriIsVisited(uris: seq<string>, uri: string)
    requires uri in uris
    ensures Visit(uri) in Visits(uris)
  {
    if uris[0] != uri { UriIsVisited(uris[1..], uri); }
  }

  lemma FollowAdvances(cfg: Config, s: Sys, choice: Choice, since: int, g: Goal)
    requires g.FollowUp? && GoalOk(cfg, s, g)
    ensures var e := RunJob(cfg, s, Follow(g.n), choice);
      exists j :: j in e.jobs && Pursues(cfg, e.sys, j, g, since)
  {
    hide U.InvalidateUris, U.CacheUpdates, Visits, PathUpdates, ValidUri, Y.AsksForUpdate, Y.Affected, Stores;
    var x := s.hist[g.n];
    var e := RunJob(cfg, s, Follow(g.n), choice);
    if Y.Affected(cfg, x.request, x.reply, g.path) {
      Y.AffectedIsListed(cfg, x.request, x.reply, g.path);
      UriIsVisited(U.InvalidateUris(cfg, x.request, x.reply.status, x.reply.header), g.path);
      assert Visit(g.path) in e.jobs && Pursues(cfg, e.sys, Visit(g.path), g, since);
    } else {
      AskedIsListed(cfg, x, g.path);
      ImmediateIsListed(U.CacheUpdates(cfg, x.request, x.reply.header), g.path);
      assert UpdatePath(g.path) in e.jobs && Pursues(cfg, e.sys, UpdatePath(g.path), g, since);
    }
  }

  lemma AskedIsListed(cfg: Config, x: Exchange, path: string)
    requires Y.AsksForUpdate(cfg, x.request, x.reply.header, path)
    ensures U.CacheUpdate(path, 0) in U.CacheUpdates(cfg, x.request, x.reply.header)
  {
    hide U.CacheUpdates;
    Y.AskedUpdateIsListed(cfg, x.request, x.reply.header, path, 0);
  }

  lemma VisitAdvances(cfg: Config, s: Sys, choice: Choice, since: int, g: Goal)
    requires g.FollowUp? && GoalOk(cfg, s, g) && since <= s.now
    ensures var e := RunJob(cfg, s, Visit(g.path), choice);
      || (exists j :: j in e.jobs && Pursues(cfg, e.sys, j, g, since))
      || Renewed(cfg, e.sys, since, g)
  {
    hide ValidUri, Y.AsksForUpdate, Y.Affected, U.PlainKey, Current, Stores;
    var e := RunJob(cfg, s, Visit(g.path), choice);
    if cfg.updating && U.PlainKey(cfg, g.path) in s.store {
      var j := AwaitSave(U.Plain(g.path), s.now, Background);
      assert j in e.jobs && Pursues(cfg, e.sys, j, g, since);
    }
  }

  lemma UpdateAdvances(cfg: Config, s: Sys, choice: Choice, since: int, g: Goal)
    requires g.FollowUp? && g.fetches && GoalOk(cfg, s, g) && since <= s.now
    ensures var e := RunJob(cfg, s, UpdatePath(g.path), choice);
      exists j :: j in e.jobs && Pursues(cfg, e.sys, j, g, since)
  {
    hide ValidUri, Y.AsksForUpdate, Y.Affected, Stores;
    var e, j := RunJob(cfg, s, UpdatePath(g.path), choice), AwaitSave(U.Plain(g.path), s.now, Background);
    assert j in e.jobs && Pursues(cfg, e.sys, j, g, since);
  }

  lemma AskAdvances(cfg: Config, s: Sys, job: Job, choice: Choice, from: nat, since: int, g: Goal)
    requires job.AwaitSave? && Pursues(cfg, s, job, g, since) && from <= |s.hist|
    requires RepliesOk(cfg, RunJob(cfg, s, job, choice).sys.hist, from, g)
    ensures var e := RunJob(cfg, s, job, choice);
      exists j :: j in e.jobs && Pursues(cfg, e.sys, j, g, since)
  {
    hide Stores, KeyOf;
    var e, j := RunJob(cfg, s, job, choice), StoreReply(|s.hist|, job.purpose);
    assert j in e.jobs && e.sys.hist[|s.hist|].request == job.r;
    assert WaitsToBeStored(e.sys, j, job.r, since);
    assert Pursues(cfg, e.sys, j, g, since);
  }

  lemma StoreAdvances(cfg: Config, s: Sys, job: Job, choice: Choice, since: int, g: Goal)
    requires SysOk(cfg, s) && ChoiceOk(s, job, choice) && job.StoreReply? && Pursues(cfg, s, job, g, since)
    ensures var e := RunJob(cfg, s, job, choice);
      || (exists j :: j in e.jobs && Pursues(cfg, e.sys, j, g, since))
      || Renewed(cfg, e.sys, since, g)
  {
    hide SysOk, MadeFrom, RunJob, Stores, WriteKey, U.PlainKey, Current, KeyOf;
    var i, e := job.i, RunJob(cfg, s, job, choice);
    StoringWrites(cfg, s, i, job.purpose, choice);
    if Stores(s.hist[i]) {
      TargetIsWritten(cfg, s, job, since, g);
      NowCurrent(cfg, e.sys.hist, i, since, e.sys.store[Target(cfg, g)]);
    } else {
      UnstoredAdvances(cfg, s, job, choice, since, g);
    }
  }

  lemma TargetIsWritten(cfg: Config, s: Sys, job: Job, since: int, g: Goal)
    requires job.StoreReply? && Pursues(cfg, s, job, g, since) && Stores(s.hist[job.i])
    ensures job.i < |s.hist| && since <= s.hist[job.i].start && KeyOf(cfg, s.hist[job.i]) == Target(cfg, g)
  {
    hide Stores, WriteKey, U.PlainKey;
    if g.FollowUp? { Y.PlainIsStoredPlain(cfg, g.path, s.hist[job.i].reply.header); }
  }

  lemma UnstoredAdvances(cfg: Config, s: Sys, job: Job, choice: Choice, since: int, g: Goal)
    requires job.StoreReply? && Pursues(cfg, s, job, g, since) && !Stores(s.hist[job.i])
    ensures var e := RunJob(cfg, s, job, choice);
      exists j :: j in e.jobs && Pursues(cfg, e.sys, j, g, since)
  {
    hide Storable, U.KeepAt, KeyOf;
    var e := RunJob(cfg, s, job, choice);
    var j := if job.purpose.second then Remove(g.key) else Retry(g.key, g.request);
    assert j in e.jobs && Pursues(cfg, e.sys, j, g, since);
  }

  lemma RetryAdvances(cfg: Config, s: Sys, choice: Choice, since: int, g: Goal)
    requires g.Refresh? && since <= s.now
    ensures var e := RunJob(cfg, s, Retry(g.key, g.request), choice);
      exists j :: j in e.jobs && Pursues(cfg, e.sys, j, g, since)
  {
    hide Stores, KeyOf;
    var e, j := RunJob(cfg, s, Retry(g.key, g.request), choice), AwaitSave(g.request, s.now, Updater(g.key, true));
    assert j in e.jobs && Pursues(cfg, e.sys, j, g, since);
  }

  lemma RemoveSettles(cfg: Config, s: Sys, choice: Choice, since: int, g: Goal)
    requires g.Refresh?
    ensures Renewed(cfg, RunJob(cfg, s, Remove(g.key), choice).sys, since, g)
  {
    hide Current;
  }

  lemma PursuesGrows(cfg: Config, s: Sys, t: Sys, job: Job, g: Goal, since: int)
    requires Pursues(cfg, s, job, g, since) && s.hist <= t.hist
    ensures Pursues(cfg, t, job, g, since)
  {
    hide Stores, KeyOf;
  }

  lemma GoalStaysOk(cfg: Config, s: Sys, t: Sys, g: Goal)
    requires GoalOk(cfg, s, g) && s.hist <= t.hist
    ensures GoalOk(cfg, t, g)
  {
    hide ValidUri, Y.AsksForUpdate, Y.Affected, U.PlainKey;
    if g.FollowUp? { assert t.hist[g.n] == s.hist[g.n]; }
  }

  lemma StepKeepsRenewing(cfg: Config, p: State, a: Action, id: nat, from: nat, since: int, g: Goal)
    requires Inv(cfg, p) && Enabled(cfg, p, a) && since <= p.sys.now && from <= |p.sys.hist| && GoalOk(cfg, p.sys, g)
    requires Renewing(cfg, p, id, since, g) && RepliesOk(cfg, Next(cfg, p, a).sys.hist, from, g)
    ensures var q := Next(cfg, p, a); Renewing(cfg, q, id, since, g) || Renewed(cfg, q.sys, since, g)
  {
    hide Inv, SysOk, RunJob, JobOk, ChoiceOk, Pursues, GoalOk, RepliesOk, Renewed, Lists, WellFormedRequest;
    var job :| job in p.threads[id] && Pursues(cfg, p.sys, job, g, since);
    FreshThread(cfg, p);
    var q := Next(cfg, p, a);
    if a.Move? {
      var head := p.threads[a.id][0];
      JobsOfThread(cfg, p, a.id);
      RunGrows(cfg, p.sys, head, a.choice);
      var e, rest := RunJob(cfg, p.sys, head, a.choice), p.threads[a.id][1..];
      if a.id == id && job == head {
        GoalAdvances(cfg, p.sys, head, a.choice, from, since, g);
        if j :| j in e.jobs && Pursues(cfg, e.sys, j, g, since) {
          assert j in q.threads[id];
        }
      } else {
        assert a.id == id ==> job in rest;
        PursuesGrows(cfg, p.sys, q.sys, job, g, since);
        assert job in q.threads[id];
      }
    } else {
      PursuesGrows(cfg, p.sys, q.sys, job, g, since);
      assert job in q.threads[id];
    }
  }

  lemma TargetIsOfPath(cfg: Config, s: Sys, g: Goal)
    requires GoalOk(cfg, s, g)
    ensures ValidUri(PathOf(g)) && U.PlainKey(cfg, PathOf(g)) <= Target(cfg, g)
  {
    hide ValidUri, Y.AsksForUpdate, Y.Affected, U.PlainKey;
  }

  lemma StepKeepsUpdating(cfg: Config, p: State, a: Action, id: nat, from: nat, since: int, g: Goal)
    requires Inv(cfg, p) && Enabled(cfg, p, a) && Updating(cfg, p, id, since, g)
    requires from <= |p.sys.hist| && RepliesOk(cfg, Next(cfg, p, a).sys.hist, from, g)
    ensures Updating(cfg, Next(cfg, p, a), id, since, g)
  {
    hide Inv, Enabled, Next, NoLate, Renewing, GoalOk, RepliesOk, Current, Target, U.PlainKey;
    StepKeepsTime(cfg, p, a, since, PathOf(g));
    var q := Next(cfg, p, a);
    GoalStaysOk(cfg, p.sys, q.sys, g);
    TargetIsOfPath(cfg, p.sys, g);
    if !Renewed(cfg, p.sys, since, g) {
      StepKeepsRenewing(cfg, p, a, id, from, since, g);
    } else if Target(cfg, g) in q.sys.store {
      StepKeepsCurrent(cfg, p, a, since, PathOf(g), Target(cfg, g));
    }
  }

  lemma StepKeepsTime(cfg: Config, p: State, a: Action, since: int, path: string)
    requires Inv(cfg, p) && Enabled(cfg, p, a) && since <= p.sys.now && NoLate(p, since, path)
    ensures var q := Next(cfg, p, a); since <= q.sys.now && p.sys.hist <= q.sys.hist && NoLate(q, since, path)
  {
    hide Inv, SysOk, RunJob, JobOk, Late, WellFormedRequest, Lists;
    match a {
      case Tick(d) => LateOnTick(p, d, since, path);
      case Arrive(r, todo) => ArriveStaysCurrent(p, r, todo, since, path);
      case Move(id, choice) =>
        JobsOfThread(cfg, p, id);
        InvSys(cfg, p);
        RunGrows(cfg, p.sys, p.threads[id][0], choice);
        JobsStayInTime(cfg, p, id, choice, since, path);
    }
  }

  lemma {:induction false} RunGrowsHistory(cfg: Config, p: State, actions: seq<Action>, q: State)
    requires Inv(cfg, p) && RunsTo(cfg, p, actions, q)
    ensures p.sys.hist <= q.sys.hist && p.sys.now <= q.sys.now
    decreases |actions|
  {
    hide Inv, Enabled, Next;
    if actions != [] {
      StepGrows(cfg, p, actions[0]);
      StepKeepsInvariant(cfg, p, actions[0]);
      RunGrowsHistory(cfg, Next(cfg, p, actions[0]), actions[1..], q);
    }
  }

  lemma StepGrows(cfg: Config, p: State, a: Action)
    requires Inv(cfg, p) && Enabled(cfg, p, a)
    ensures p.sys.hist <= Next(cfg, p, a).sys.hist && p.sys.now <= Next(cfg, p, a).sys.now
  {
    hide Inv, SysOk, RunJob, JobOk, WellFormedRequest, Lists;
    if a.Move? {
      JobsOfThread(cfg, p, a.id);
      InvSys(cfg, p);
      RunGrows(cfg, p.sys, p.threads[a.id][0], a.choice);
    }
  }

  lemma {:induction false} RunKeepsUpdating(cfg: Config, p: State, actions: seq<Action>, q: State, id: nat,
                                            from: nat, since: int, g: Goal)
    requires Inv(cfg, p) && RunsTo(cfg, p, actions, q) && Updating(cfg, p, id, since, g)
    requires from <= |p.sys.hist| && RepliesOk(cfg, q.sys.hist, from, g)
    ensures Updating(cfg, q, id, since, g)
    decreases |actions|
  {
    hide Inv, Enabled, Next, Updating, RepliesOk;
    if actions != [] {
      var m := Next(cfg, p, actions[0]);
      StepGrows(cfg, p, actions[0]);
      StepKeepsInvariant(cfg, p, actions[0]);
      RunGrowsHistory(cfg, m, actions[1..], q);
      RepliesOkBefore(cfg, m.sys.hist, q.sys.hist, from, g);
      StepKeepsUpdating(cfg, p, actions[0], id, from, since, g);
      RunKeepsUpdating(cfg, m, actions[1..], q, id, from, since, g);
    }
  }

  /** Entries of the path other than the bare one need no follow-up to stay current. */
  lemma {:induction false} RunKeepsVariants(cfg: Config, p: State, actions: seq<Action>, q: State, since: int,
                                            path: string)
    requires Inv(cfg, p) && RunsTo(cfg, p, actions, q) && ValidUri(path) && since <= p.sys.now
    requires NoLate(p, since, path) && VariantsCurrent(cfg, p.sys, since, path)
    ensures VariantsCurrent(cfg, q.sys, since, path)
    decreases |actions|
  {
    hide Inv, Enabled, Next, NoLate, ValidUri, Current, U.PlainKey;
    if actions != [] {
      var m := Next(cfg, p, actions[0]);
      StepKeepsTime(cfg, p, actions[0], since, path);
      StepKeepsInvariant(cfg, p, actions[0]);
      forall k | k in m.sys.store && U.PlainKey(cfg, path) <= k && k != U.PlainKey(cfg, path)
        ensures Current(cfg, m.sys.hist, since, m.sys.store[k])
      {
        StepKeepsCurrent(cfg, p, actions[0], since, path, k);
      }
      RunKeepsVariants(cfg, m, actions[1..], q, since, path);
    }
  }

  /** A thread that holds the follow-up of exchange `n` and is done later has renewed what it had to. */
  lemma FollowUpRenews(cfg: Config, p: State, actions: seq<Action>, q: State, id: nat, g: Goal)
    requires Inv(cfg, p) && g.FollowUp? && GoalOk(cfg, p.sys, g)
    requires id in p.threads && Follow(g.n) in p.threads[id] && NoLate(p, p.sys.hist[g.n].end, g.path)
    requires RunsTo(cfg, p, actions, q) && id in q.threads && q.threads[id] == []
    requires RepliesOk(cfg, q.sys.hist, |p.sys.hist|, g)
    ensures var since := p.sys.hist[g.n].end;
      since <= p.sys.now && since <= q.sys.now && NoLate(q, since, g.path) && Renewed(cfg, q.sys, since, g)
  {
    var since := p.sys.hist[g.n].end;
    hide Inv, RunsTo, NoLate, GoalOk, RepliesOk, Renewed, SysOk, Stores;
    InvSys(cfg, p);
    U.HistoryIsPast(cfg, p.sys, g.n);
    assert Pursues(cfg, p.sys, Follow(g.n), g, since);
    RunKeepsUpdating(cfg, p, actions, q, id, |p.sys.hist|, since, g);
    assert !Renewing(cfg, q, id, since, g);
  }

  /**
   The follow-up of an unsafe request, interleaved with whatever else goes on: once the thread that has
   to follow up exchange `n` is done, an affected URI no longer has the response it had under its bare
   key: it was removed, or asked for after that exchange ended.
   */
  lemma FollowUpRenewsAffected(cfg: Config, p: State, actions: seq<Action>, q: State, id: nat, n: nat, uri: string)
    requires Inv(cfg, p) && id in p.threads && Follow(n) in p.threads[id] && n < |p.sys.hist|
    requires Y.Affected(cfg, p.sys.hist[n].request, p.sys.hist[n].reply, uri) && ValidUri(uri)
    requires NoLate(p, p.sys.hist[n].end, uri)
    requires RunsTo(cfg, p, actions, q) && id in q.threads && q.threads[id] == []
    requires cfg.updating ==> RepliesStorable(q.sys.hist, |p.sys.hist|, uri)
    ensures var key := U.PlainKey(cfg, uri);
      key in q.sys.store ==> Current(cfg, q.sys.hist, p.sys.hist[n].end, q.sys.store[key])
  {
    hide Inv, RunsTo, NoLate, ValidUri, Y.AsksForUpdate, Y.Affected, RepliesStorable, Current, U.PlainKey;
    FollowUpRenews(cfg, p, actions, q, id, FollowUp(n, uri, cfg.updating));
  }

  /**
   The follow-up of a write: once its thread is done, every entry for a path that the write asks to be
   updated was asked of the origin after the write was answered.
   */
  lemma FollowUpMakesCurrent(cfg: Config, p: State, actions: seq<Action>, q: State, id: nat, n: nat, path: string)
    requires Inv(cfg, p) && id in p.threads && Follow(n) in p.threads[id] && n < |p.sys.hist|
    requires Y.AsksForUpdate(cfg, p.sys.hist[n].request, p.sys.hist[n].reply.header, path) && ValidUri(path)
    requires Y.OnlyPlain(cfg, p.sys.store, path) && NoLate(p, p.sys.hist[n].end, path)
    requires RunsTo(cfg, p, actions, q) && id in q.threads && q.threads[id] == []
    requires RepliesStorable(q.sys.hist, |p.sys.hist|, path)
    ensures var since := p.sys.hist[n].end;
      since <= q.sys.now && NoLate(q, since, path) && EntriesCurrent(cfg, q.sys, since, path)
  {
    hide Inv, RunsTo, NoLate, ValidUri, Y.AsksForUpdate, Y.Affected, RepliesStorable, Current, U.PlainKey;
    FollowUpRenews(cfg, p, actions, q, id, FollowUp(n, path, true));
    RunKeepsVariants(cfg, p, actions, q, p.sys.hist[n].end, path);
  }

  /** The keys the updater takes are keys of GETs, and decode to the URI they are of. */
  lemma PolledKeyIsOfPath(cfg: Config, s: Sys, key: string)
    requires SysOk(cfg, s) && key in s.store && MethodPrefix(cfg.origin, "GET") <= key
    ensures var d := DecodeKey(cfg.origin, key);
      d.Ok? && ValidUri(d.request.uri) && U.PlainKey(cfg, d.request.uri) <= key
  {
    hide Replayable, WellFormed, FullKey, DecodeKey, VaryList, Storable, GetExpiration, Head, WellFormedRequest,
         ValidUri, MethodPrefix, U.PlainKey, WriteKey;
    assert Backed(cfg, s.hist, 0, s.now, s.store[key]);
    var i: nat, d, t :| 0 <= i < |s.hist| && Made(cfg, s.hist[i], d, t, s.store[key]) && t <= s.now;
    var x := s.hist[i];
    MadeFullKey(cfg, x, d, t, s.store[key]);
    DecodedMatches(cfg.origin, x.request, VaryList(x.reply.header));
    MethodPrefixIff(cfg.origin, "GET", x.request, VaryList(x.reply.header)) by { assert IsToken("GET"); }
    RequestUriIsValid(x.request);
    ExtendsIff(cfg, x.request, x.reply.header, x.request.uri);
    assert WriteKey(cfg, x.request, x.reply.header) == key by { MadeKey(cfg, x, d, t, s.store[key]); }
  }

  lemma MadeFullKey(cfg: Config, x: Exchange, d: int, t: int, e: CacheEntry)
    requires Made(cfg, x, d, t, e)
    ensures e.key == FullKey(cfg.origin, x.request, VaryList(x.reply.header))
  {
    hide GetExpiration, Head, FullKey, Storable;
  }

  lemma RequestUriIsValid(r: Request)
    requires WellFormedRequest(r)
    ensures ValidUri(r.uri)
  {}

  /**
   Refreshing interleaved with whatever else goes on: from a state in which the updater takes an oldest
   due entry, and no older store for its URI is pending, the entry has been removed or asked for
   since when the updater is back at its loop head, if the replies that are stored keep the key.
   */
  lemma RefreshRenewsInPlace(cfg: Config, p: State, id: nat, choice: Choice, actions: seq<Action>, q: State)
    requires Inv(cfg, p) && id in p.threads && p.threads[id] == [Poll]
    requires R.Oldest(p.sys.store, MethodPrefix(cfg.origin, "GET"), choice.key) && R.Due(p.sys, choice.key)
    requires Enabled(cfg, p, Move(id, choice)) && RunsTo(cfg, Next(cfg, p, Move(id, choice)), actions, q)
    requires DecodeKey(cfg.origin, choice.key).Ok? ==>
      var r := DecodeKey(cfg.origin, choice.key).request;
      NoLate(p, p.sys.now, r.uri) && RepliesStable(cfg, q.sys.hist, |p.sys.hist|, choice.key, r)
    requires id in q.threads && q.threads[id] == [Poll]
    ensures choice.key in q.sys.store ==> Current(cfg, q.sys.hist, p.sys.now, q.sys.store[choice.key])
  {
    hide Inv, RunsTo, NoLate, DecodeKey, RepliesStable, Current, R.Due, SysOk, ValidUri, MethodPrefix, U.PlainKey,
         ChoiceOk, Stores, KeyOf;
    var s, key, a := p.sys, choice.key, Move(id, choice);
    InvSys(cfg, p);
    PolledKeyIsOfPath(cfg, s, key);
    var r := DecodeKey(cfg.origin, key).request;
    var g, m := Refresh(key, r), Next(cfg, p, a);
    PollTakes(cfg, s, choice);
    StepKeepsInvariant(cfg, p, a);
    StepKeepsTime(cfg, p, a, s.now, r.uri);
    var job := AwaitSave(r, s.now, Updater(key, false));
    assert m.sys == s && m.threads[id] == [job, Poll] + [];
    assert job in m.threads[id] && Pursues(cfg, m.sys, job, g, s.now);
    RunKeepsUpdating(cfg, m, actions, q, id, |s.hist|, s.now, g);
    assert !Renewing(cfg, q, id, s.now, g);
  }

  /**
   Read your writes, whatever overlaps: once the follow-up of a write that asks for the path is done,
   by any run from a state in which no store of an older response is pending, all clients that come
   later are sent for a GET of the path only what was asked of the origin after the write was answered.
   */
  lemma ReadsSeeTheWriteOverlapping(cfg: Config, p: State, actions: seq<Action>, m: State, id: nat, n: nat,
                                    path: string, more: seq<Action>, q: State)
    requires Inv(cfg, p) && id in p.threads && Follow(n) in p.threads[id] && n < |p.sys.hist|
    requires Y.AsksForUpdate(cfg, p.sys.hist[n].request, p.sys.hist[n].reply.header, path) && ValidUri(path)
    requires Y.OnlyPlain(cfg, p.sys.store, path) && NoLate(p, p.sys.hist[n].end, path)
    requires RunsTo(cfg, p, actions, m) && id in m.threads && m.threads[id] == []
    requires RepliesStorable(m.sys.hist, |p.sys.hist|, path)
    requires RunsTo(cfg, m, more, q)
    ensures forall client :: m.next <= client && client in q.answers ==>
      AnswerCurrent(cfg, q.sys, q.answers[client], p.sys.hist[n].end, path)
  {
    hide Inv, RunsTo, NoLate, ValidUri, Y.AsksForUpdate, Y.OnlyPlain, RepliesStorable, EntriesCurrent, AnswerCurrent;
    FollowUpMakesCurrent(cfg, p, actions, m, id, n, path);
    RunsToKeepsInvariant(cfg, p, actions, m);
    LaterReadsAreCurrent(cfg, m, more, q, p.sys.hist[n].end, path);
  }
}
