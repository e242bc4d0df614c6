/**
 The sequential functions of `Updates` are runs of the protocol in which one thread moves at a
 time: so everything proved of all interleavings holds of the objects in `Serve`.
 */
module Sequential {
  import opened Text
  import opened Http
  import opened CacheKey
  import opened StoreGate
  import opened Freshness
  import opened Wire
  import opened System
  import opened Protocol
  import U = Updates
  import R = Refresh
  import Y = ReadYourWrites

  ghost predicate RunsTo(cfg: Config, p: State, actions: seq<Action>, q: State)
    decreases |actions|
  {
    if actions == [] then p == q
    else Enabled(cfg, p, actions[0]) && RunsTo(cfg, Next(cfg, p, actions[0]), actions[1..], q)
  }

  lemma {:induction false} RunsCompose(cfg: Config, p: State, a: seq<Action>, q: State, b: seq<Action>, r: State)
    requires RunsTo(cfg, p, a, q) && RunsTo(cfg, q, b, r)
    ensures RunsTo(cfg, p, a + b, r)
    decreases |a|
  {
    hide Enabled, Next;
    if a == [] {
      assert a + b == b;
    } else {
      assert (a + b)[1..] == a[1..] + b;
      RunsCompose(cfg, Next(cfg, p, a[0]), a[1..], q, b, r);
    }
  }

  lemma RunsNone(cfg: Config, p: State)
    ensures RunsTo(cfg, p, [], p)
  {}

  lemma RunsOne(cfg: Config, p: State, a: Action, q: State)
    requires Enabled(cfg, p, a) && q == Next(cfg, p, a)
    ensures RunsTo(cfg, p, [a], q)
  {
    hide Enabled, Next;
    assert [a][1..] == [];
  }

  /** The state in which thread `id` has these jobs left and the rest is as in `p`. */
  function At(p: State, id: nat, s: Sys, jobs: Thread): State {
    p.(sys := s, threads := p.threads[id := jobs])
  }

  lemma Ticks(cfg: Config, p: State, id: nat, s: Sys, jobs: Thread, d: nat)
    ensures RunsTo(cfg, At(p, id, s, jobs), [Tick(d)], At(p, id, U.Sleep(s, d), jobs))
  {
    RunsOne(cfg, At(p, id, s, jobs), Tick(d), At(p, id, U.Sleep(s, d), jobs));
  }

  /** One job of a thread in the background, whose effect is known. */
  lemma Moves(cfg: Config, p: State, id: nat, s: Sys, job: Job, rest: Thread, choice: Choice, t: Sys, jobs: Thread)
    requires ChoiceOk(s, job, choice) && RunJob(cfg, s, job, choice) == Effect(t, jobs, [], None)
    ensures RunsTo(cfg, At(p, id, s, [job] + rest), [Move(id, choice)], At(p, id, t, jobs + rest))
  {
    hide ChoiceOk, RunJob;
    var a, b := At(p, id, s, [job] + rest), At(p, id, t, jobs + rest);
    assert a.threads[id] == [job] + rest && a.threads[id][0] == job && a.threads[id][1..] == rest;
    assert p.threads[id := [job] + rest][id := jobs + rest] == p.threads[id := jobs + rest];
    RunsOne(cfg, a, Move(id, choice), b);
  }

  /* Fetching and storing. */

  /** What is left to do when the reply of the next exchange has been seen to. */
  function Unsaved(env: U.Env, s: Sys, r: Request, purpose: Purpose): Thread {
    if purpose.Background? || U.Saves(env, s, r) then []
    else if purpose.second then [Remove(purpose.key)]
    else [Retry(purpose.key, r)]
  }

  lemma SaveEffects(cfg: Config, env: U.Env, s: Sys, r: Request, purpose: Purpose)
    requires U.EnvOk(env) && WellFormedRequest(r)
    ensures var n, x := |s.hist|, U.NextExchange(env, s, r);
      var waited, choice := U.Sleep(s, env.pause(n)), Choice(x.reply, x.end, "");
      var f := U.Fetch(env, s, r);
      && ChoiceOk(waited, AwaitSave(r, s.now, purpose), choice)
      && RunJob(cfg, waited, AwaitSave(r, s.now, purpose), choice) == Effect(f, [StoreReply(n, purpose)], [], None)
      && ChoiceOk(f, StoreReply(n, purpose), choice)
      && RunJob(cfg, f, StoreReply(n, purpose), choice)
         == Effect(U.SaveRequest(cfg, env, s, r), Unsaved(env, s, r, purpose), [], None)
  {
    hide WellFormedRequest, Replayable, RunChoose, RunPoll, RunVisit, RunFollow, U.KeepAt, ValidUri, RecordingOf,
         Storable;
    var x := U.NextExchange(env, s, r);
    assert Replayable(r.verb, x.reply.status, x.reply.header, x.reply.Body());
  }

  /** A fetch takes three steps, the clock's included, and leaves the thread at its next job. */
  lemma SaveRuns(cfg: Config, env: U.Env, p: State, id: nat, s: Sys, r: Request, purpose: Purpose, rest: Thread)
    returns (actions: seq<Action>)
    requires U.EnvOk(env) && WellFormedRequest(r)
    ensures RunsTo(cfg, At(p, id, s, [AwaitSave(r, s.now, purpose)] + rest), actions,
                   At(p, id, U.SaveRequest(cfg, env, s, r), Unsaved(env, s, r, purpose) + rest))
  {
    hide WellFormedRequest, U.EnvOk, RunJob, ChoiceOk, At, RunsTo, U.KeepAt, RecordingOf, U.Fetch, U.SaveRequest,
         Unsaved;
    var n, x := |s.hist|, U.NextExchange(env, s, r);
    var waited, choice, f := U.Sleep(s, env.pause(n)), Choice(x.reply, x.end, ""), U.Fetch(env, s, r);
    SaveEffects(cfg, env, s, r, purpose);
    var await, store := AwaitSave(r, s.now, purpose), StoreReply(n, purpose);
    Ticks(cfg, p, id, s, [await] + rest, env.pause(n));
    Moves(cfg, p, id, waited, await, rest, choice, f, [store]);
    var t, left := U.SaveRequest(cfg, env, s, r), Unsaved(env, s, r, purpose);
    Moves(cfg, p, id, f, store, rest, choice, t, left);
    RunsCompose(cfg, At(p, id, s, [await] + rest), [Tick(env.pause(n))], At(p, id, waited, [await] + rest),
                [Move(id, choice)], At(p, id, f, [store] + rest));
    actions := [Tick(env.pause(n))] + [Move(id, choice)];
    RunsCompose(cfg, At(p, id, s, [await] + rest), actions, At(p, id, f, [store] + rest),
                [Move(id, choice)], At(p, id, t, left + rest));
    actions := actions + [Move(id, choice)];
  }

  const ANY := Choice(Reply(200, map[], []), 0, "")

  lemma VisitEffect(cfg: Config, s: Sys, uri: string)
    ensures ChoiceOk(s, Visit(uri), ANY) && RunJob(cfg, s, Visit(uri), ANY) == RunVisit(cfg, s, uri)
    ensures ChoiceOk(s, UpdatePath(uri), ANY)
    ensures RunJob(cfg, s, UpdatePath(uri), ANY)
         == Effect(s, if ValidUri(uri) then [AwaitSave(U.Plain(uri), s.now, Background)] else [], [], None)
  {
    hide RunVisit, ValidUri;
  }

  /** One URI to revalidate or invalidate. */
  lemma VisitRuns(cfg: Config, env: U.Env, p: State, id: nat, s: Sys, uri: string, rest: Thread)
    returns (actions: seq<Action>, t: Sys)
    requires U.EnvOk(env)
    ensures RunsTo(cfg, At(p, id, s, [Visit(uri)] + rest), actions, At(p, id, t, rest))
    ensures t == if cfg.updating
                 then if ValidUri(uri) && U.PlainKey(cfg, uri) in s.store
                      then U.SaveRequest(cfg, env, s, U.Plain(uri)) else s
                 else if ValidUri(uri) then U.Purge(s, U.PlainKey(cfg, uri)) else s
  {
    hide WellFormedRequest, U.EnvOk, RunJob, ChoiceOk, At, RunsTo, U.SaveRequest, ValidUri, U.PlainKey, U.Purge,
         U.Plain, ANY;
    VisitEffect(cfg, s, uri);
    assert [] + rest == rest;
    if cfg.updating && ValidUri(uri) && U.PlainKey(cfg, uri) in s.store {
      var await := AwaitSave(U.Plain(uri), s.now, Background);
      Moves(cfg, p, id, s, Visit(uri), rest, ANY, s, [await]);
      U.PlainIsWellFormed(uri);
      var more := SaveRuns(cfg, env, p, id, s, U.Plain(uri), Background, rest);
      t := U.SaveRequest(cfg, env, s, U.Plain(uri));
      RunsCompose(cfg, At(p, id, s, [Visit(uri)] + rest), [Move(id, ANY)], At(p, id, s, [await] + rest), more,
                  At(p, id, t, rest));
      actions := [Move(id, ANY)] + more;
    } else {
      t := if ValidUri(uri) && !cfg.updating then U.Purge(s, U.PlainKey(cfg, uri)) else s;
      Moves(cfg, p, id, s, Visit(uri), rest, ANY, t, []);
      actions := [Move(id, ANY)];
    }
  }

  lemma {:induction false} VisitsRun(cfg: Config, env: U.Env, p: State, id: nat, s: Sys, uris: seq<string>,
                                     rest: Thread)
    returns (actions: seq<Action>, t: Sys)
    requires U.EnvOk(env)
    ensures RunsTo(cfg, At(p, id, s, Visits(uris) + rest), actions, At(p, id, t, rest))
    ensures t == if cfg.updating then U.Revalidate(cfg, env, s, uris) else U.Invalidate(cfg, s, uris)
    decreases |uris|
  {
    hide U.EnvOk, At, U.SaveRequest, ValidUri, U.PlainKey, U.Purge, U.Plain, RunsTo, Enabled, Next;
    if uris == [] {
      assert Visits(uris) + rest == rest;
      actions, t := [], s;
      RunsNone(cfg, At(p, id, s, rest));
    } else {
      assert Visits(uris) + rest == [Visit(uris[0])] + (Visits(uris[1..]) + rest);
      var first, u := VisitRuns(cfg, env, p, id, s, uris[0], Visits(uris[1..]) + rest);
      var more;
      more, t := VisitsRun(cfg, env, p, id, u, uris[1..], rest);
      RunsCompose(cfg, At(p, id, s, Visits(uris) + rest), first, At(p, id, u, Visits(uris[1..]) + rest), more,
                  At(p, id, t, rest));
      actions := first + more;
    }
  }

  lemma {:induction false} UpdatesRun(cfg: Config, env: U.Env, p: State, id: nat, s: Sys, updates: seq<U.CacheUpdate>,
                                      rest: Thread)
    returns (actions: seq<Action>)
    requires U.EnvOk(env)
    ensures RunsTo(cfg, At(p, id, s, PathUpdates(updates) + rest), actions,
                   At(p, id, U.SaveUpdates(cfg, env, s, updates), rest))
    decreases |updates|
  {
    hide U.EnvOk, At, U.SaveRequest, ValidUri, U.Plain, ANY, RunsTo, RunJob, ChoiceOk, Enabled, Next;
    if updates == [] {
      assert PathUpdates(updates) + rest == rest;
      actions := [];
      RunsNone(cfg, At(p, id, s, rest));
    } else if updates[0].delay != 0 {
      assert PathUpdates(updates) == PathUpdates(updates[1..]);
      actions := UpdatesRun(cfg, env, p, id, s, updates[1..], rest);
    } else {
      var path, after := updates[0].path, PathUpdates(updates[1..]) + rest;
      assert PathUpdates(updates) + rest == [UpdatePath(path)] + after;
      VisitEffect(cfg, s, path);
      var u := if ValidUri(path) then U.SaveRequest(cfg, env, s, U.Plain(path)) else s;
      var first: seq<Action>;
      if ValidUri(path) {
        var await := AwaitSave(U.Plain(path), s.now, Background);
        Moves(cfg, p, id, s, UpdatePath(path), after, ANY, s, [await]);
        U.PlainIsWellFormed(path);
        var save := SaveRuns(cfg, env, p, id, s, U.Plain(path), Background, after);
        assert [] + after == after;
        RunsCompose(cfg, At(p, id, s, [UpdatePath(path)] + after), [Move(id, ANY)], At(p, id, s, [await] + after),
                    save, At(p, id, u, after));
        first := [Move(id, ANY)] + save;
      } else {
        Moves(cfg, p, id, s, UpdatePath(path), after, ANY, s, []);
        assert [] + after == after;
        first := [Move(id, ANY)];
      }
      var more := UpdatesRun(cfg, env, p, id, u, updates[1..], rest);
      RunsCompose(cfg, At(p, id, s, [UpdatePath(path)] + after), first, At(p, id, u, after), more,
                  At(p, id, U.SaveUpdates(cfg, env, u, updates[1..]), rest));
      actions := first + more;
    }
  }

  /* Following up. */

  lemma FollowEffects(cfg: Config, s: Sys, i: nat)
    requires i < |s.hist| && s.hist[i].end <= s.now
    ensures var x := s.hist[i]; var job, choice := U.Job(x.request, RecordingOf(x)), ANY.(decided := s.now);
      var kept := U.Keep(cfg, s, job);
      && ChoiceOk(s, StoreReply(i, Background), choice)
      && RunJob(cfg, s, StoreReply(i, Background), choice) == Effect(kept, [], [], None)
      && ChoiceOk(kept, Follow(i), ANY)
      && RunJob(cfg, kept, Follow(i), ANY)
         == Effect(kept, Visits(U.InvalidateUris(cfg, x.request, x.reply.status, x.reply.header))
                         + PathUpdates(U.CacheUpdates(cfg, x.request, x.reply.header)), [], None)
  {
    hide RunChoose, RunPoll, RunVisit, Storable, MakeEntry, WriteKey, U.InvalidateUris, U.CacheUpdates, RecordingOf,
         ValidUri, Replayable;
  }

  /** Storing and following up exchange `i` is a run of the thread that does it. */
  lemma FollowUpRuns(cfg: Config, env: U.Env, p: State, id: nat, s: Sys, i: nat) returns (actions: seq<Action>)
    requires U.EnvOk(env) && i < |s.hist| && s.hist[i].end <= s.now
    ensures RunsTo(cfg, At(p, id, s, FollowJobs(i)), actions,
                   At(p, id, U.FollowUp(cfg, env, s, U.Job(s.hist[i].request, RecordingOf(s.hist[i]))), []))
  {
    hide U.EnvOk, At, RunsTo, RunJob, ChoiceOk, U.Keep, U.Revalidate, U.Invalidate, U.SaveUpdates, U.InvalidateUris,
         U.CacheUpdates, Head, Visits, PathUpdates, ANY;
    var x := s.hist[i];
    var job, choice := U.Job(x.request, RecordingOf(x)), ANY.(decided := s.now);
    var kept := U.Keep(cfg, s, job);
    var uris := U.InvalidateUris(cfg, x.request, x.reply.status, x.reply.header);
    var updates := U.CacheUpdates(cfg, x.request, x.reply.header);
    FollowEffects(cfg, s, i);
    var store, follow := StoreReply(i, Background), Follow(i);
    Moves(cfg, p, id, s, store, [follow], choice, kept, []);
    assert [store] + [follow] == FollowJobs(i) && [] + [follow] == [follow] + [];
    Moves(cfg, p, id, kept, follow, [], ANY, kept, Visits(uris) + PathUpdates(updates));
    assert Visits(uris) + PathUpdates(updates) + [] == Visits(uris) + (PathUpdates(updates) + []);
    RunsCompose(cfg, At(p, id, s, FollowJobs(i)), [Move(id, choice)], At(p, id, kept, [follow] + []), [Move(id, ANY)],
                At(p, id, kept, Visits(uris) + (PathUpdates(updates) + [])));
    var visits, clean := VisitsRun(cfg, env, p, id, kept, uris, PathUpdates(updates) + []);
    var two := [Move(id, choice)] + [Move(id, ANY)];
    RunsCompose(cfg, At(p, id, s, FollowJobs(i)), two, At(p, id, kept, Visits(uris) + (PathUpdates(updates) + [])),
                visits,
                At(p, id, clean, PathUpdates(updates) + []));
    var last := UpdatesRun(cfg, env, p, id, clean, updates, []);
    RunsCompose(cfg, At(p, id, s, FollowJobs(i)), two + visits, At(p, id, clean, PathUpdates(updates) + []), last,
                At(p, id, U.SaveUpdates(cfg, env, clean, updates), []));
    actions := two + visits + last;
  }

  /* Answering one client. */

  function Answered(p: State, id: nat, a: Option<Answer>): State {
    if a.None? then p else p.(answers := p.answers[id := a.value])
  }

  /** The last job of a serving thread, which may answer the client. */
  lemma Serves(cfg: Config, p: State, id: nat, s: Sys, job: Job, choice: Choice, e: Effect)
    requires ChoiceOk(s, job, choice) && RunJob(cfg, s, job, choice) == e && e.spawned == []
    ensures RunsTo(cfg, At(p, id, s, [job]), [Move(id, choice)], At(Answered(p, id, e.answer), id, e.sys, e.jobs))
  {
    hide ChoiceOk, RunJob;
    var a, b := At(p, id, s, [job]), At(Answered(p, id, e.answer), id, e.sys, e.jobs);
    assert a.threads[id] == [job] && [job][1..] == [] && e.jobs + [] == e.jobs;
    assert a.threads[id := e.jobs] == b.threads;
    RunsOne(cfg, a, Move(id, choice), b);
  }

  /** Thread `id` is done and the next one begins. */
  function Begun(p: State, id: nat): State { p.(threads := p.threads[id := []], next := p.next + 1) }

  /** The same for a job that leaves the follow-up to a goroutine. */
  lemma Spawns(cfg: Config, p: State, id: nat, s: Sys, job: Job, choice: Choice, e: Effect)
    requires ChoiceOk(s, job, choice) && RunJob(cfg, s, job, choice) == e && e.spawned != [] && e.jobs == []
    ensures RunsTo(cfg, At(p, id, s, [job]), [Move(id, choice)],
                   At(Begun(Answered(p, id, e.answer), id), p.next, e.sys, e.spawned))
  {
    hide ChoiceOk, RunJob;
    var a, b := At(p, id, s, [job]), At(Begun(Answered(p, id, e.answer), id), p.next, e.sys, e.spawned);
    assert a.threads[id] == [job] && [job][1..] == [] && e.jobs + [] == [];
    assert a.threads[id := []][p.next := e.spawned] == b.threads;
    RunsOne(cfg, a, Move(id, choice), b);
  }

  function PlanJobs(s: Sys, r: Request, plan: Plan): Thread {
    match plan
    case Check(e, sent) => [AwaitCheck(r, e, sent, s.now)]
    case Pass => [AwaitProxy(r, s.now)]
    case _ => []
  }

  function PlanAnswer(s: Sys, r: Request, plan: Plan): Option<Answer> {
    if plan.Serve? then Some(FromStore(r, plan.entry, s.now, None)) else None
  }

  lemma ChooseEffect(cfg: Config, s: Sys, r: Request, todo: seq<CacheEntry>)
    ensures ChoiceOk(s, Choose(r, todo), ANY)
    ensures var plan, e := PlanFor(cfg, r, todo, s.now), RunJob(cfg, s, Choose(r, todo), ANY);
      if todo != [] && Decide(cfg, r, todo[0], s.now).Forward?
      then e == Effect(s, [Choose(r, todo[1..])], [], None) && plan == PlanFor(cfg, r, todo[1..], s.now)
      else e == Effect(s, PlanJobs(s, r, plan), [], PlanAnswer(s, r, plan))
  {
    hide Decide;
  }

  /** The loop over the offered entries comes to its plan, entry by entry. */
  lemma {:induction false} ChooseRuns(cfg: Config, p: State, id: nat, s: Sys, r: Request, todo: seq<CacheEntry>)
    returns (actions: seq<Action>)
    ensures var plan := PlanFor(cfg, r, todo, s.now);
      RunsTo(cfg, At(p, id, s, [Choose(r, todo)]), actions,
             At(Answered(p, id, PlanAnswer(s, r, plan)), id, s, PlanJobs(s, r, plan)))
    decreases |todo|
  {
    hide Decide, PlanFor, PlanJobs, PlanAnswer, RunJob, ChoiceOk, RunsTo, At, ANY;
    ChooseEffect(cfg, s, r, todo);
    var e := RunJob(cfg, s, Choose(r, todo), ANY);
    Serves(cfg, p, id, s, Choose(r, todo), ANY, e);
    actions := [Move(id, ANY)];
    if todo != [] && Decide(cfg, r, todo[0], s.now).Forward? {
      var plan := PlanFor(cfg, r, todo, s.now);
      var more := ChooseRuns(cfg, p, id, s, r, todo[1..]);
      RunsCompose(cfg, At(p, id, s, [Choose(r, todo)]), actions, At(p, id, s, [Choose(r, todo[1..])]), more,
                  At(Answered(p, id, PlanAnswer(s, r, plan)), id, s, PlanJobs(s, r, plan)));
      actions := actions + more;
    }
  }

  /** Nothing is left to do for thread `id` and for those begun since; the other threads are as they were. */
  ghost predicate Settled(p: State, id: nat, q: State) {
    && q.clients == p.clients
    && (forall n :: n in p.threads && n != id ==> n in q.threads && q.threads[n] == p.threads[n])
    && (forall n :: n in q.threads && (n == id || n !in p.threads) ==> q.threads[n] == [])
  }

  /** What a client is sent for a request that is handled alone. */
  function AnswerFor(cfg: Config, env: U.Env, s: Sys, r: Request, todo: seq<CacheEntry>): Option<Answer> {
    match PlanFor(cfg, r, todo, s.now)
    case Serve(e) => Some(FromStore(r, e, s.now, None))
    case Check(e, sent) =>
      if U.NextExchange(env, s, sent).reply.status == 304
      then Some(FromStore(r, e, U.Fetch(env, s, sent).now, Some(|s.hist|)))
      else Some(FromOrigin(r, |s.hist|))
    case Pass => Some(FromOrigin(r, |s.hist|))
    case Panic => None
  }

  /** The exchange a client waits for, and the jobs and the answer it ends with. */
  lemma ExchangeEffect(cfg: Config, env: U.Env, s: Sys, job: Job)
    requires U.EnvOk(env) && (job.AwaitCheck? || job.AwaitProxy?)
    requires WellFormedRequest(AskedOf(job)) && job.start == s.now
    ensures var n, asked := |s.hist|, AskedOf(job);
      var x, f := U.NextExchange(env, s, asked), U.Fetch(env, s, asked);
      var waited, choice := U.Sleep(s, env.pause(n)), Choice(x.reply, x.end, "");
      var validated, own := job.AwaitCheck? && x.reply.status == 304, job.AwaitProxy? && U.IsRedirect(x.reply.status);
      && ChoiceOk(waited, job, choice)
      && RunJob(cfg, waited, job, choice)
         == Effect(f, if own then FollowJobs(n) else [], if validated || own then [] else FollowJobs(n),
                   Some(if validated then FromStore(job.r, job.entry, f.now, Some(n)) else FromOrigin(job.r, n)))
      && n < |f.hist| && f.hist[n].end <= f.now
      && U.Job(f.hist[n].request, RecordingOf(f.hist[n])) == U.NextJob(env, s, asked)
  {
    hide WellFormedRequest, Replayable, RunChoose, RunPoll, RunVisit, RunFollow, RunStore, U.KeepAt, ValidUri,
         RecordingOf, U.IsRedirect;
    var asked := AskedOf(job);
    var x := U.NextExchange(env, s, asked);
    assert Replayable(asked.verb, x.reply.status, x.reply.header, x.reply.Body());
  }

  lemma ExchangeRuns(cfg: Config, env: U.Env, p: State, id: nat, s: Sys, job: Job)
    returns (actions: seq<Action>, q: State)
    requires U.EnvOk(env) && (job.AwaitCheck? || job.AwaitProxy?)
    requires WellFormedRequest(AskedOf(job)) && job.start == s.now
    requires id < p.next && p.next !in p.threads
    ensures RunsTo(cfg, At(p, id, s, [job]), actions, q) && Settled(p, id, q)
    ensures var asked := AskedOf(job); var x, f := U.NextExchange(env, s, asked), U.Fetch(env, s, asked);
      var validated := job.AwaitCheck? && x.reply.status == 304;
      && q.sys == (if validated then f else U.FollowUp(cfg, env, f, U.NextJob(env, s, asked)))
      && q.answers == p.answers[id := if validated then FromStore(job.r, job.entry, f.now, Some(|s.hist|))
                                      else FromOrigin(job.r, |s.hist|)]
  {
    hide U.EnvOk, WellFormedRequest, RunJob, ChoiceOk, RunsTo, U.FollowUp, U.Fetch, FollowJobs, RecordingOf, U.NextJob,
         U.NextExchange, U.IsRedirect, AskedOf;
    var n, asked := |s.hist|, AskedOf(job);
    var x, f := U.NextExchange(env, s, asked), U.Fetch(env, s, asked);
    var waited, choice := U.Sleep(s, env.pause(n)), Choice(x.reply, x.end, "");
    ExchangeEffect(cfg, env, s, job);
    Ticks(cfg, p, id, s, [job], env.pause(n));
    var e := RunJob(cfg, waited, job, choice);
    var to := Answered(p, id, e.answer);
    var done := U.FollowUp(cfg, env, f, U.NextJob(env, s, asked));
    FollowJobsAny(n);
    var before := At(p, id, waited, [job]);
    var two := [Tick(env.pause(n))] + [Move(id, choice)];
    if e.spawned == [] {
      Serves(cfg, p, id, waited, job, choice, e);
      RunsCompose(cfg, At(p, id, s, [job]), [Tick(env.pause(n))], before, [Move(id, choice)], At(to, id, f, e.jobs));
      if e.jobs == [] {
        actions, q := two, At(to, id, f, []);
      } else {
        var more := FollowUpRuns(cfg, env, to, id, f, n);
        q := At(to, id, done, []);
        RunsCompose(cfg, At(p, id, s, [job]), two, At(to, id, f, FollowJobs(n)), more, q);
        actions := two + more;
      }
    } else {
      Spawns(cfg, p, id, waited, job, choice, e);
      var begun := Begun(to, id);
      RunsCompose(cfg, At(p, id, s, [job]), [Tick(env.pause(n))], before, [Move(id, choice)],
                  At(begun, p.next, f, FollowJobs(n)));
      var more := FollowUpRuns(cfg, env, begun, p.next, f, n);
      q := At(begun, p.next, done, []);
      RunsCompose(cfg, At(p, id, s, [job]), two, At(begun, p.next, f, FollowJobs(n)), more, q);
      actions := two + more;
    }
  }

  lemma FollowJobsAny(n: nat)
    ensures FollowJobs(n) != []
  {}

  /** A request handled alone is a run that ends with the state and the answer of the sequential functions. */
  lemma HandleRuns(cfg: Config, env: U.Env, p: State, r: Request, todo: seq<CacheEntry>)
    returns (actions: seq<Action>, q: State)
    requires Inv(cfg, p) && U.EnvOk(env) && WellFormedRequest(r) && Lists(cfg, p.sys.store, r, todo)
    ensures RunsTo(cfg, p, actions, q)
    ensures q.sys == U.Handle(cfg, env, p.sys, r, todo)
    ensures AnswerFor(cfg, env, p.sys, r, todo).Some?
    ensures q.answers == p.answers[p.next := AnswerFor(cfg, env, p.sys, r, todo).value]
    ensures q.clients == p.clients + {p.next}
    ensures forall n :: n in p.threads ==> n in q.threads && q.threads[n] == p.threads[n]
    ensures forall n :: n in q.threads && n !in p.threads ==> q.threads[n] == []
  {
    hide Inv, U.EnvOk, WellFormedRequest, Lists, RunsTo, PlanFor, U.FollowUp, U.Fetch, U.NextJob, U.NextExchange,
         ChoiceOk, RunJob;
    FreshThread(cfg, p);
    Y.SentIsWellFormed(cfg, p.sys, r, todo);
    var s, id, plan := p.sys, p.next, PlanFor(cfg, r, todo, p.sys.now);
    var base := p.(clients := p.clients + {id}, next := id + 1);
    var arrive := Arrive(r, todo);
    RunsOne(cfg, p, arrive, At(base, id, s, [Choose(r, todo)]));
    var choose := ChooseRuns(cfg, base, id, s, r, todo);
    q := At(Answered(base, id, PlanAnswer(s, r, plan)), id, s, PlanJobs(s, r, plan));
    RunsCompose(cfg, p, [arrive], At(base, id, s, [Choose(r, todo)]), choose, q);
    actions := [arrive] + choose;
    if !plan.Serve? {
      var job := PlanJobs(s, r, plan)[0];
      var more, last := ExchangeRuns(cfg, env, base, id, s, job);
      RunsCompose(cfg, p, actions, At(base, id, s, [job]), more, last);
      actions, q := actions + more, last;
    }
  }

  lemma FreshThread(cfg: Config, p: State)
    requires Inv(cfg, p)
    ensures SysOk(cfg, p.sys) && p.next !in p.threads && p.next + 1 !in p.threads
  {
    hide SysOk, JobOk, AnswerOk, Shape;
  }

  /* The updater. */

  lemma PollEffect(cfg: Config, s: Sys, key: string)
    requires R.Oldest(s.store, MethodPrefix(cfg.origin, "GET"), key) && R.Due(s, key) && DecodeKey(cfg.origin, key).Ok?
    ensures var r, choice := DecodeKey(cfg.origin, key).request, ANY.(key := key);
      && ChoiceOk(s, Poll, choice)
      && RunJob(cfg, s, Poll, choice) == Effect(s, [AwaitSave(r, s.now, Updater(key, false)), Poll], [], None)
  {
    hide R.Oldest, R.Due, DecodeKey;
  }

  lemma RetryEffect(cfg: Config, s: Sys, key: string, r: Request)
    ensures ChoiceOk(s, Retry(key, r), ANY) && ChoiceOk(s, Remove(key), ANY)
    ensures RunJob(cfg, s, Retry(key, r), ANY) == Effect(s, [AwaitSave(r, s.now, Updater(key, true))], [], None)
    ensures RunJob(cfg, s, Remove(key), ANY) == Effect(U.Purge(s, key), [], [], None)
  {}

  /** Refreshing an oldest due entry alone, with its retry and the pause before it, is a run of the updater's thread. */
  lemma RefreshRuns(cfg: Config, env: U.Env, p: State, key: string) returns (actions: seq<Action>)
    requires Inv(cfg, p) && U.EnvOk(env)
    requires 0 in p.threads && p.threads[0] == [Poll]
    requires R.Oldest(p.sys.store, MethodPrefix(cfg.origin, "GET"), key) && R.Due(p.sys, key)
    ensures RunsTo(cfg, p, actions, p.(sys := U.UpdateEntry(cfg, env, p.sys, key)))
  {
    hide Inv, U.EnvOk, RunsTo, At, WellFormedRequest, U.SaveRequest, U.Saves, DecodeKey, R.Due, RunJob, ChoiceOk, ANY,
         SysOk, U.Sleep, U.Purge;
    var s := p.sys;
    InvSys(cfg, p);
    U.StoredKeyDecodes(cfg, s, key);
    var r, poll, first := DecodeKey(cfg.origin, key).request, ANY.(key := key), Updater(key, false);
    AtSelf(p, 0, [Poll]);
    PollEffect(cfg, s, key);
    assert [Poll] + [] == [Poll] && [AwaitSave(r, s.now, first), Poll] + [] == [AwaitSave(r, s.now, first)] + [Poll];
    Moves(cfg, p, 0, s, Poll, [], poll, s, [AwaitSave(r, s.now, first), Poll]);
    var save := SaveRuns(cfg, env, p, 0, s, r, first, [Poll]);
    var t := U.SaveRequest(cfg, env, s, r);
    RunsCompose(cfg, p, [Move(0, poll)], At(p, 0, s, [AwaitSave(r, s.now, first)] + [Poll]), save,
                At(p, 0, t, Unsaved(env, s, r, first) + [Poll]));
    actions := [Move(0, poll)] + save;
    if U.Saves(env, s, r) {
      assert [] + [Poll] == [Poll];
      AtAgain(p, 0, t, [Poll]);
    } else {
      var more := RetryRuns(cfg, env, p, t, key, r);
      RunsCompose(cfg, p, actions, At(p, 0, t, [Retry(key, r)] + [Poll]), more,
                  At(p, 0, U.UpdateEntry(cfg, env, s, key), [Poll]));
      AtAgain(p, 0, U.UpdateEntry(cfg, env, s, key), [Poll]);
      actions := actions + more;
    }
  }

  lemma AtSelf(p: State, id: nat, jobs: Thread)
    requires id in p.threads && p.threads[id] == jobs
    ensures At(p, id, p.sys, jobs) == p
  {
    assert p.threads[id := jobs] == p.threads;
  }

  lemma AtAgain(p: State, id: nat, s: Sys, jobs: Thread)
    requires id in p.threads && p.threads[id] == jobs
    ensures At(p, id, s, jobs) == p.(sys := s)
  {
    assert p.threads[id := jobs] == p.threads;
  }

  /** The second attempt, a second after the first. */
  lemma RetryRuns(cfg: Config, env: U.Env, p: State, s: Sys, key: string, r: Request) returns (actions: seq<Action>)
    requires U.EnvOk(env) && WellFormedRequest(r)
    ensures var rested := U.Sleep(s, SECOND); var t := U.SaveRequest(cfg, env, rested, r);
      RunsTo(cfg, At(p, 0, s, [Retry(key, r)] + [Poll]), actions,
             At(p, 0, if U.Saves(env, rested, r) then t else U.Purge(t, key), [Poll]))
  {
    hide U.EnvOk, RunsTo, At, WellFormedRequest, U.SaveRequest, U.Saves, RunJob, ChoiceOk, ANY, U.Sleep, U.Purge;
    var rested, second := U.Sleep(s, SECOND), Updater(key, true);
    var t, await, retry := U.SaveRequest(cfg, env, rested, r), AwaitSave(r, rested.now, second), Retry(key, r);
    Ticks(cfg, p, 0, s, [retry] + [Poll], SECOND);
    RetryEffect(cfg, rested, key, r);
    Moves(cfg, p, 0, rested, retry, [Poll], ANY, rested, [await]);
    RunsCompose(cfg, At(p, 0, s, [retry] + [Poll]), [Tick(SECOND)], At(p, 0, rested, [retry] + [Poll]),
                [Move(0, ANY)], At(p, 0, rested, [await] + [Poll]));
    var save := SaveRuns(cfg, env, p, 0, rested, r, second, [Poll]);
    actions := [Tick(SECOND)] + [Move(0, ANY)];
    RunsCompose(cfg, At(p, 0, s, [retry] + [Poll]), actions, At(p, 0, rested, [await] + [Poll]), save,
                At(p, 0, t, Unsaved(env, rested, r, second) + [Poll]));
    actions := actions + save;
    assert [] + [Poll] == [Poll];
    if !U.Saves(env, rested, r) {
      RetryEffect(cfg, t, key, r);
      Moves(cfg, p, 0, t, Remove(key), [Poll], ANY, U.Purge(t, key), []);
      RunsCompose(cfg, At(p, 0, s, [retry] + [Poll]), actions, At(p, 0, t, [Remove(key)] + [Poll]),
                  [Move(0, ANY)], At(p, 0, U.Purge(t, key), [Poll]));
      actions := actions + [Move(0, ANY)];
    }
  }

  /* Whole sequential runs. */

  lemma {:induction false} RunsToKeepsInvariant(cfg: Config, p: State, actions: seq<Action>, q: State)
    requires Inv(cfg, p) && RunsTo(cfg, p, actions, q)
    ensures Inv(cfg, q)
    decreases |actions|
  {
    hide Inv, Enabled, Next;
    if actions != [] {
      StepKeepsInvariant(cfg, p, actions[0]);
      RunsToKeepsInvariant(cfg, Next(cfg, p, actions[0]), actions[1..], q);
    }
  }

  /** The updater refreshes only when updates are on, and then an oldest due entry. */
  ghost predicate UpdaterInTurn(cfg: Config, env: U.Env, s: Sys, events: seq<Y.Event>) {
    forall i :: 0 <= i < |events| && events[i].Renew? ==>
      var t := Y.After(cfg, env, s, events[..i]);
      cfg.updating && R.Oldest(t.store, MethodPrefix(cfg.origin, "GET"), events[i].key) && R.Due(t, events[i].key)
  }

  /**
   Sequential runs are runs: from an initial state, any events that follow one another are a run of
   the protocol that leads to the state of the sequential functions.
   */
  lemma {:induction false} EventsRun(cfg: Config, env: U.Env, p: State, events: seq<Y.Event>)
    returns (actions: seq<Action>, q: State)
    requires Init(cfg, p) && U.EnvOk(env)
    requires Y.EventsOk(cfg, env, p.sys, events) && UpdaterInTurn(cfg, env, p.sys, events)
    ensures RunsTo(cfg, p, actions, q) && Inv(cfg, q)
    ensures q.sys == Y.After(cfg, env, p.sys, events)
    ensures 0 in q.threads && q.threads[0] == if cfg.updating then [Poll] else []
    decreases |events|
  {
    hide Inv, U.EnvOk, RunsTo, WellFormedRequest, Lists, U.Handle, U.UpdateEntry, R.Oldest, R.Due, Enabled, Next;
    if events == [] {
      InitHasInvariant(cfg, p);
      RunsNone(cfg, p);
      return [], p;
    }
    var n := |events| - 1;
    assert forall i :: 0 <= i < n ==> events[..n][i] == events[i] && events[..n][..i] == events[..i];
    var before, m := EventsRun(cfg, env, p, events[..n]);
    var more: seq<Action>;
    match events[n] {
      case Client(r, todo) => more, q := HandleRuns(cfg, env, m, r, todo);
      case Renew(key) =>
        more := RefreshRuns(cfg, env, m, key);
        q := m.(sys := U.UpdateEntry(cfg, env, m.sys, key));
      case Wait(d) =>
        more, q := [Tick(d)], m.(sys := U.Sleep(m.sys, d));
        TickRuns(cfg, m, d);
    }
    RunsCompose(cfg, p, before, m, more, q);
    actions := before + more;
    RunsToKeepsInvariant(cfg, m, more, q);
  }

  lemma TickRuns(cfg: Config, p: State, d: nat)
    ensures RunsTo(cfg, p, [Tick(d)], p.(sys := U.Sleep(p.sys, d)))
  {
    RunsOne(cfg, p, Tick(d), p.(sys := U.Sleep(p.sys, d)));
  }

  /** The states a run goes through. */
  lemma {:induction false} RunHasStates(cfg: Config, p: State, actions: seq<Action>, q: State)
    returns (states: seq<State>)
    requires RunsTo(cfg, p, actions, q)
    ensures |states| == |actions| + 1 && states[0] == p && states[|actions|] == q
    ensures forall i :: 0 <= i < |actions| ==> Steps(cfg, states[i], actions[i], states[i + 1])
    decreases |actions|
  {
    hide Enabled, Next;
    if actions == [] {
      states := [p];
    } else {
      var rest := RunHasStates(cfg, Next(cfg, p, actions[0]), actions[1..], q);
      states := [p] + rest;
      forall i | 0 <= i < |actions| ensures Steps(cfg, states[i], actions[i], states[i + 1]) {
        if i > 0 {
          assert Steps(cfg, rest[i - 1], actions[1..][i - 1], rest[i - 1 + 1]);
        }
      }
    }
  }

  /** So what holds of all behaviours holds of whatever the cache does when nothing overlaps. */
  lemma SequentialIsBehaviour(cfg: Config, env: U.Env, p: State, events: seq<Y.Event>)
    requires Init(cfg, p) && U.EnvOk(env)
    requires Y.EventsOk(cfg, env, p.sys, events) && UpdaterInTurn(cfg, env, p.sys, events)
    ensures exists states: seq<State>, actions: seq<Action> ::
      && Behaviour(cfg, states, actions) && states[0] == p
      && states[|actions|].sys == Y.After(cfg, env, p.sys, events)
  {
    hide Init, U.EnvOk, Y.EventsOk, Y.After, UpdaterInTurn, RunsTo, Steps, Inv;
    var actions, q := EventsRun(cfg, env, p, events);
    var states := RunHasStates(cfg, p, actions, q);
    assert Behaviour(cfg, states, actions);
  }
}
