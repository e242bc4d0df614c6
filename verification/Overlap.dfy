/**
 Read-your-writes when goroutines overlap: which pending jobs can put a response of before the write
 back into the store, and that nothing else can.
 */
module Overlap {
  import opened Text
  import opened Http
  import opened CacheKey
  import opened Freshness
  import opened StoreGate
  import opened Wire
  import opened System
  import opened Protocol
  import opened Sequential
  import CC = CacheControl
  import U = Updates
  import R = Refresh
  import Y = ReadYourWrites

  predicate Gets(r: Request, path: string) { r.verb == "GET" && r.uri == path }

  /** The keys that a GET of the path may be offered are those of responses to GETs of the path. */
  lemma ExtendsIff(cfg: Config, r: Request, h: Header, path: string)
    requires OriginId(cfg.origin) && WellFormedRequest(r) && ValidUri(path)
    ensures U.PlainKey(cfg, path) <= WriteKey(cfg, r, h) <==> Gets(r, path)
  {
    hide CanonicalName, VaryList, WellFormedRequest, KeyPrefix, FullKey;
    U.PlainIsWellFormed(path);
    OfferedIff(cfg.origin, U.Plain(path), r, VaryList(h));
  }

  /* Where entries come from. */

  /** For each key, the exchange whose reply was stored under it last. */
  type Sources = map<string, nat>

  function Wrote(cfg: Config, p: State, w: Sources, a: Action): Sources {
    if a.Move? && a.id in p.threads && p.threads[a.id] != [] && p.threads[a.id][0].StoreReply? then
      var i := p.threads[a.id][0].i;
      if i < |p.sys.hist| && Stores(p.sys.hist[i]) then w[KeyOf(cfg, p.sys.hist[i]) := i] else w
    else w
  }

  predicate Stores(x: Exchange) { Storable(x.request, x.reply.status, x.reply.header) }

  function KeyOf(cfg: Config, x: Exchange): string { WriteKey(cfg, x.request, x.reply.header) }

  ghost function Trace(cfg: Config, p: State, w: Sources, actions: seq<Action>, q: State): Sources
    requires RunsTo(cfg, p, actions, q)
    decreases |actions|
  {
    if actions == [] then w
    else Trace(cfg, Next(cfg, p, actions[0]), Wrote(cfg, p, w, actions[0]), actions[1..], q)
  }

  ghost predicate MadeFrom(cfg: Config, x: Exchange, e: CacheEntry) { exists d, t :: Made(cfg, x, d, t, e) }

  ghost predicate Sourced(cfg: Config, s: Sys, w: Sources) {
    forall k :: k in s.store ==> k in w && w[k] < |s.hist| && MadeFrom(cfg, s.hist[w[k]], s.store[k])
  }

  /** Every entry that a GET of the path may be offered was asked of the origin at this instant or later. */
  ghost predicate PathCurrent(cfg: Config, s: Sys, w: Sources, since: int, path: string) {
    forall k :: k in s.store && U.PlainKey(cfg, path) <= k ==>
      k in w && w[k] < |s.hist| && since <= s.hist[w[k]].start
  }

  /** A job that may store a response to a GET of the path that was asked for before this instant. */
  predicate Late(s: Sys, job: Job, since: int, path: string) {
    || (AsksOrigin(job) && job.start < since && Gets(AskedOf(job), path))
    || (job.StoreReply? && job.i < |s.hist| && s.hist[job.i].start < since
        && Gets(s.hist[job.i].request, path) && Stores(s.hist[job.i]))
  }

  ghost predicate NoLate(p: State, since: int, path: string) {
    forall id, job :: id in p.threads && job in p.threads[id] ==> !Late(p.sys, job, since, path)
  }

  /* One step. */

  /** Only a job that stores a reply writes; all others leave entries as they are, or remove them. */
  lemma WritesOnlyStoring(cfg: Config, s: Sys, job: Job, choice: Choice, k: string)
    requires !job.StoreReply? && k in RunJob(cfg, s, job, choice).sys.store
    ensures k in s.store && RunJob(cfg, s, job, choice).sys.store[k] == s.store[k]
  {
    hide Decide, R.Oldest, R.Due, DecodeKey, U.InvalidateUris, U.CacheUpdates, ValidUri, U.PlainKey, U.IsRedirect;
  }

  lemma StoringWrites(cfg: Config, s: Sys, i: nat, purpose: Purpose, choice: Choice)
    requires i < |s.hist| && s.hist[i].end <= choice.decided <= s.now
    ensures var x, t := s.hist[i], RunJob(cfg, s, StoreReply(i, purpose), choice).sys;
      && t.hist == s.hist && t.now == s.now
      && (forall k :: k in t.store && !(Stores(x) && k == KeyOf(cfg, x)) ==> k in s.store && t.store[k] == s.store[k])
      && (Stores(x) ==> KeyOf(cfg, x) in t.store && MadeFrom(cfg, x, t.store[KeyOf(cfg, x)]))
  {
    hide Storable, WriteKey, GetExpiration, Head;
    var x := s.hist[i];
    if Stores(x) {
      var e := Kept(MakeEntry(cfg, x.request, RecordingOf(x), choice.decided, s.now));
      assert Made(cfg, x, choice.decided, s.now, e);
    }
  }

  lemma {:induction false} VisitsNeverLate(s: Sys, uris: seq<string>, since: int, path: string)
    ensures forall job :: job in Visits(uris) ==> job.Visit?
  {
    if uris != [] { VisitsNeverLate(s, uris[1..], since, path); }
  }

  lemma {:induction false} PathUpdatesNeverLate(s: Sys, updates: seq<U.CacheUpdate>, since: int, path: string)
    ensures forall job :: job in PathUpdates(updates) ==> job.UpdatePath?
  {
    if updates != [] { PathUpdatesNeverLate(s, updates[1..], since, path); }
  }

  /** A job that does not wait for the origin leaves nothing to store, and what it asks, it asks now. */
  lemma NewJobsAskNow(cfg: Config, s: Sys, job: Job, choice: Choice)
    requires !AsksOrigin(job)
    ensures var e := RunJob(cfg, s, job, choice);
      forall j :: j in e.jobs || j in e.spawned ==> !j.StoreReply? && (AsksOrigin(j) ==> j.start == s.now)
  {
    hide Decide, DecodeKey, R.Oldest, R.Due, ValidUri, Storable, U.InvalidateUris, U.CacheUpdates, U.KeepAt,
         RecordingOf, U.Purge, U.PlainKey;
    match job {
      case Follow(i) =>
        if i < |s.hist| {
          var x := s.hist[i];
          VisitsNeverLate(s, U.InvalidateUris(cfg, x.request, x.reply.status, x.reply.header), 0, "");
          PathUpdatesNeverLate(s, U.CacheUpdates(cfg, x.request, x.reply.header), 0, "");
        }
      case _ =>
    }
  }

  /** A job that waits for the origin leaves its exchange to be stored and followed up. */
  lemma NewJobsOfAnswer(cfg: Config, s: Sys, job: Job, choice: Choice)
    requires AsksOrigin(job)
    ensures var e := RunJob(cfg, s, job, choice);
      && e.sys == Finish(s, AskedOf(job), job.start, choice.reply)
      && forall j :: j in e.jobs || j in e.spawned ==> j == Follow(|s.hist|) || (j.StoreReply? && j.i == |s.hist|)
  {
    hide U.IsRedirect;
  }

  /** New jobs ask now, or store what a job that was not late has asked for. */
  lemma NewJobsAreNotLate(cfg: Config, s: Sys, job: Job, choice: Choice, since: int, path: string)
    requires since <= s.now && !Late(s, job, since, path)
    ensures var e := RunJob(cfg, s, job, choice);
      forall j :: j in e.jobs || j in e.spawned ==> !Late(e.sys, j, since, path)
  {
    hide RunJob, Stores, AskedOf;
    if AsksOrigin(job) {
      NewJobsOfAnswer(cfg, s, job, choice);
    } else {
      NewJobsAskNow(cfg, s, job, choice);
    }
  }

  /** Jobs that were there before are late as they were. */
  lemma OldJobsAreNotLate(cfg: Config, s: Sys, t: Sys, job: Job, since: int, path: string)
    requires JobOk(cfg, s, job) && Grows(s, t)
    ensures Late(t, job, since, path) <==> Late(s, job, since, path)
  {
    hide Storable, WellFormedRequest, ChosenFor, Backed, Offered, ConditionalRequest;
  }

  /* The invariant of a path that is up to date. */

  ghost predicate AllCurrent(cfg: Config, p: State, w: Sources, since: int, path: string) {
    && since <= p.sys.now && Sourced(cfg, p.sys, w) && PathCurrent(cfg, p.sys, w, since, path) && NoLate(p, since, path)
  }

  /** Provenance stays right in every step, and a job that is not late keeps the path current. */
  lemma StoreStaysCurrent(cfg: Config, p: State, w: Sources, id: nat, choice: Choice, since: int, path: string)
    requires Inv(cfg, p) && Enabled(cfg, p, Move(id, choice)) && Sourced(cfg, p.sys, w) && ValidUri(path)
    ensures var t, v := RunJob(cfg, p.sys, p.threads[id][0], choice).sys, Wrote(cfg, p, w, Move(id, choice));
      && Sourced(cfg, t, v)
      && (PathCurrent(cfg, p.sys, w, since, path) && !Late(p.sys, p.threads[id][0], since, path) ==>
            PathCurrent(cfg, t, v, since, path))
  {
    hide Inv, SysOk, RunJob, MadeFrom, U.PlainKey, KeyOf, JobOk, Replayable, Stores, WellFormedRequest, ValidUri;
    var s, job := p.sys, p.threads[id][0];
    JobsOfThread(cfg, p, id);
    InvSys(cfg, p);
    RunGrows(cfg, s, job, choice);
    var t, v := RunJob(cfg, s, job, choice).sys, Wrote(cfg, p, w, Move(id, choice));
    if job.StoreReply? {
      StoringWrites(cfg, s, job.i, job.purpose, choice);
      StoredKeyOfPath(cfg, s, job.i, path);
    } else {
      forall k | k in t.store ensures k in s.store && t.store[k] == s.store[k] {
        WritesOnlyStoring(cfg, s, job, choice, k);
      }
    }
  }

  lemma RunGrows(cfg: Config, s: Sys, job: Job, choice: Choice)
    requires SysOk(cfg, s) && JobOk(cfg, s, job) && ChoiceOk(s, job, choice)
    ensures Grows(s, RunJob(cfg, s, job, choice).sys)
  {
    hide SysOk, JobOk, RunJob, ChoiceOk, JobsOk;
    RunJobOk(cfg, s, job, choice);
  }

  lemma StoredKeyOfPath(cfg: Config, s: Sys, i: nat, path: string)
    requires SysOk(cfg, s) && i < |s.hist| && ValidUri(path)
    ensures U.PlainKey(cfg, path) <= KeyOf(cfg, s.hist[i]) <==> Gets(s.hist[i].request, path)
  {
    hide Backed, WriteKey, WellFormedRequest, Replayable, ValidUri, U.PlainKey;
    assert ExchangeOk(s.hist[i]);
    ExtendsIff(cfg, s.hist[i].request, s.hist[i].reply.header, path);
  }

  lemma JobsStayInTime(cfg: Config, p: State, id: nat, choice: Choice, since: int, path: string)
    requires Inv(cfg, p) && Enabled(cfg, p, Move(id, choice)) && since <= p.sys.now && NoLate(p, since, path)
    ensures NoLate(Next(cfg, p, Move(id, choice)), since, path)
  {
    hide Inv, SysOk, RunJob, JobOk, ChoiceOk, Late;
    var s, job, q := p.sys, p.threads[id][0], Next(cfg, p, Move(id, choice));
    JobsOfThread(cfg, p, id);
    InvSys(cfg, p);
    RunGrows(cfg, s, job, choice);
    assert job in p.threads[id];
    NewJobsAreNotLate(cfg, s, job, choice, since, path);
    var e, rest := RunJob(cfg, s, job, choice), p.threads[id][1..];
    forall other, j | other in q.threads && j in q.threads[other] ensures !Late(q.sys, j, since, path) {
      if !(j in e.jobs || j in e.spawned) {
        OldThread(p, id, e, other, j);
        JobsAreOk(cfg, p, other, j);
        OldJobsAreNotLate(cfg, s, q.sys, j, since, path);
      }
    }
  }

  lemma OldThread(p: State, id: nat, e: Effect, other: nat, j: Job)
    requires id in p.threads && p.threads[id] != []
    requires var q := AfterEffect(p, id, p.threads[id][1..], e); other in q.threads && j in q.threads[other]
    requires j !in e.jobs && j !in e.spawned
    ensures other in p.threads && j in p.threads[other]
  {}

  lemma JobsAreOk(cfg: Config, p: State, id: nat, job: Job)
    requires Inv(cfg, p) && id in p.threads && job in p.threads[id]
    ensures JobOk(cfg, p.sys, job)
  {
    hide SysOk, JobOk, AnswerOk, Shape;
  }

  /** A path that is up to date stays so in every step, as long as no job is late; and none becomes late. */
  lemma StepStaysCurrent(cfg: Config, p: State, w: Sources, a: Action, since: int, path: string)
    requires Inv(cfg, p) && Enabled(cfg, p, a) && ValidUri(path) && AllCurrent(cfg, p, w, since, path)
    ensures AllCurrent(cfg, Next(cfg, p, a), Wrote(cfg, p, w, a), since, path)
  {
    hide Inv, SysOk, RunJob, JobOk, Late, PathCurrent, Sourced, ValidUri, WellFormedRequest;
    match a {
      case Tick(d) => TickStaysCurrent(cfg, p, w, d, since, path);
      case Arrive(r, todo) => ArriveStaysCurrent(p, r, todo, since, path);
      case Move(id, choice) =>
        JobsOfThread(cfg, p, id);
        InvSys(cfg, p);
        RunGrows(cfg, p.sys, p.threads[id][0], choice);
        assert p.threads[id][0] in p.threads[id];
        StoreStaysCurrent(cfg, p, w, id, choice, since, path);
        JobsStayInTime(cfg, p, id, choice, since, path);
    }
  }

  lemma LateOnTick(p: State, d: nat, since: int, path: string)
    requires NoLate(p, since, path)
    ensures NoLate(p.(sys := U.Sleep(p.sys, d)), since, path)
  {
    hide Stores, AskedOf;
    var q := p.(sys := U.Sleep(p.sys, d));
    forall id, job | id in q.threads && job in q.threads[id] ensures !Late(q.sys, job, since, path) {
      assert job in p.threads[id] && !Late(p.sys, job, since, path);
    }
  }

  lemma TickStaysCurrent(cfg: Config, p: State, w: Sources, d: nat, since: int, path: string)
    requires AllCurrent(cfg, p, w, since, path)
    ensures AllCurrent(cfg, p.(sys := U.Sleep(p.sys, d)), w, since, path)
  {
    hide MadeFrom, U.PlainKey, NoLate;
    LateOnTick(p, d, since, path);
  }

  lemma ArriveStaysCurrent(p: State, r: Request, todo: seq<CacheEntry>, since: int, path: string)
    requires NoLate(p, since, path)
    ensures NoLate(p.(threads := p.threads[p.next := [Choose(r, todo)]],
                      clients := p.clients + {p.next}, next := p.next + 1), since, path)
  {
    hide Stores, AskedOf;
  }

  /* Clients that come later. */

  ghost predicate Current(cfg: Config, hist: seq<Exchange>, since: int, e: CacheEntry) {
    exists i: nat :: i < |hist| && since <= hist[i].start && MadeFrom(cfg, hist[i], e)
  }

  ghost predicate JobCurrent(cfg: Config, s: Sys, job: Job, since: int, path: string) {
    match job
    case Choose(r, todo) => Gets(r, path) ==> forall e :: e in todo ==> Current(cfg, s.hist, since, e)
    case AwaitCheck(r, e, _, start) => Gets(r, path) ==> since <= start && Current(cfg, s.hist, since, e)
    case AwaitProxy(r, start) => Gets(r, path) ==> since <= start
    case _ => true
  }

  /** For a GET of the path: what was sent had been asked of the origin at this instant or later. */
  ghost predicate AnswerCurrent(cfg: Config, s: Sys, a: Answer, since: int, path: string) {
    match a
    case FromStore(r, e, _, _) => Gets(r, path) ==> Current(cfg, s.hist, since, e)
    case FromOrigin(r, i) => Gets(r, path) ==> i < |s.hist| && since <= s.hist[i].start
  }

  ghost predicate JobsCurrent(cfg: Config, p: State, from: nat, since: int, path: string) {
    forall id, job :: from <= id && id in p.threads && job in p.threads[id] ==> JobCurrent(cfg, p.sys, job, since, path)
  }

  ghost predicate AnswersCurrent(cfg: Config, p: State, from: nat, since: int, path: string) {
    forall id :: from <= id && id in p.answers ==> AnswerCurrent(cfg, p.sys, p.answers[id], since, path)
  }

  /** The clients numbered `from` or later. */
  ghost predicate LaterClients(cfg: Config, p: State, from: nat, since: int, path: string) {
    from <= p.next && JobsCurrent(cfg, p, from, since, path) && AnswersCurrent(cfg, p, from, since, path)
  }

  lemma CurrentGrows(cfg: Config, hist: seq<Exchange>, later: seq<Exchange>, since: int, e: CacheEntry)
    requires Current(cfg, hist, since, e) && hist <= later
    ensures Current(cfg, later, since, e)
  {
    hide MadeFrom;
    var i: nat :| i < |hist| && since <= hist[i].start && MadeFrom(cfg, hist[i], e);
    assert later[i] == hist[i];
  }

  lemma JobCurrentGrows(cfg: Config, s: Sys, t: Sys, job: Job, since: int, path: string)
    requires JobCurrent(cfg, s, job, since, path) && s.hist <= t.hist
    ensures JobCurrent(cfg, t, job, since, path)
  {
    hide Current;
    match job {
      case Choose(r, todo) =>
        if Gets(r, path) {
          forall e | e in todo ensures Current(cfg, t.hist, since, e) { CurrentGrows(cfg, s.hist, t.hist, since, e); }
        }
      case AwaitCheck(r, e, _, _) =>
        if Gets(r, path) { CurrentGrows(cfg, s.hist, t.hist, since, e); }
      case _ =>
    }
  }

  lemma AnswerCurrentGrows(cfg: Config, s: Sys, t: Sys, a: Answer, since: int, path: string)
    requires AnswerCurrent(cfg, s, a, since, path) && s.hist <= t.hist
    ensures AnswerCurrent(cfg, t, a, since, path)
  {
    hide Current;
    if a.FromStore? && Gets(a.r, path) { CurrentGrows(cfg, s.hist, t.hist, since, a.entry); }
  }

  /** What a client's job leads to is current if the job was. */
  lemma EffectCurrent(cfg: Config, s: Sys, job: Job, choice: Choice, since: int, path: string)
    requires since <= s.now && JobCurrent(cfg, s, job, since, path)
    ensures var e := RunJob(cfg, s, job, choice);
      && (forall j :: j in e.jobs && Serving(j) ==> JobCurrent(cfg, e.sys, j, since, path))
      && (e.answer.Some? ==> AnswerCurrent(cfg, e.sys, e.answer.value, since, path))
  {
    hide Current, Decide, DecodeKey, R.Oldest, R.Due, ValidUri, Storable, RunFollow, RunVisit, RunStore, U.Purge,
         U.IsRedirect, RunPoll;
    match job {
      case AwaitCheck(r, e, sent, start) =>
        if Gets(r, path) { CurrentGrows(cfg, s.hist, Finish(s, sent, start, choice.reply).hist, since, e); }
      case AwaitProxy(_, _) =>
      case Choose(_, _) =>
      case _ => NoAnswer(cfg, s, job, choice);
    }
  }

  lemma NoAnswer(cfg: Config, s: Sys, job: Job, choice: Choice)
    requires !Serving(job)
    ensures RunJob(cfg, s, job, choice).answer.None?
    ensures forall j :: j in RunJob(cfg, s, job, choice).jobs ==> !Serving(j)
  {
    hide Decide, DecodeKey, R.Oldest, R.Due, ValidUri, Storable, U.Purge, U.InvalidateUris, U.CacheUpdates, U.KeepAt;
    match job {
      case Follow(i) =>
        if i < |s.hist| {
          var x := s.hist[i];
          VisitsOk(cfg, s, U.InvalidateUris(cfg, x.request, x.reply.status, x.reply.header));
          PathUpdatesOk(cfg, s, U.CacheUpdates(cfg, x.request, x.reply.header));
        }
      case _ =>
    }
  }

  lemma OthersCurrent(cfg: Config, s: Sys, job: Job, since: int, path: string)
    requires !Serving(job)
    ensures JobCurrent(cfg, s, job, since, path)
  {}

  lemma SpawnedServeNone(cfg: Config, s: Sys, job: Job, choice: Choice)
    requires SysOk(cfg, s) && JobOk(cfg, s, job) && ChoiceOk(s, job, choice)
    ensures NoneServing(RunJob(cfg, s, job, choice).spawned)
  {
    hide SysOk, JobOk, RunJob, ChoiceOk, JobsOk;
    RunJobOk(cfg, s, job, choice);
  }

  lemma MoveKeepsClients(cfg: Config, p: State, id: nat, choice: Choice, from: nat, since: int, path: string)
    requires Inv(cfg, p) && Enabled(cfg, p, Move(id, choice)) && since <= p.sys.now
    requires LaterClients(cfg, p, from, since, path)
    ensures LaterClients(cfg, Next(cfg, p, Move(id, choice)), from, since, path)
  {
    hide Inv, SysOk, RunJob, JobOk, ChoiceOk, JobCurrent, AnswerCurrent, Serving;
    var s, job, q := p.sys, p.threads[id][0], Next(cfg, p, Move(id, choice));
    JobsOfThread(cfg, p, id);
    InvSys(cfg, p);
    RunGrows(cfg, s, job, choice);
    SpawnedServeNone(cfg, s, job, choice);
    assert job in p.threads[id];
    var e, rest := RunJob(cfg, s, job, choice), p.threads[id][1..];
    if from <= id { EffectCurrent(cfg, s, job, choice, since, path); }
    forall other, j | from <= other && other in q.threads && j in q.threads[other]
      ensures JobCurrent(cfg, q.sys, j, since, path)
    {
      if !Serving(j) {
        OthersCurrent(cfg, q.sys, j, since, path);
      } else if other != id || j !in e.jobs {
        OldThreadOf(p, id, e, other, j);
        JobCurrentGrows(cfg, s, q.sys, j, since, path);
      }
    }
    forall other | from <= other && other in q.answers
      ensures AnswerCurrent(cfg, q.sys, q.answers[other], since, path)
    {
      if other != id || e.answer.None? { AnswerCurrentGrows(cfg, s, q.sys, p.answers[other], since, path); }
    }
  }

  lemma OldThreadOf(p: State, id: nat, e: Effect, other: nat, j: Job)
    requires id in p.threads && p.threads[id] != [] && NoneServing(e.spawned) && Serving(j)
    requires var q := AfterEffect(p, id, p.threads[id][1..], e); other in q.threads && j in q.threads[other]
    requires other != id || j !in e.jobs
    ensures other in p.threads && j in p.threads[other]
  {
    hide Serving;
  }

  lemma ArriveKeepsClients(cfg: Config, p: State, w: Sources, r: Request, todo: seq<CacheEntry>, from: nat,
                           since: int, path: string)
    requires Inv(cfg, p) && Enabled(cfg, p, Arrive(r, todo)) && AllCurrent(cfg, p, w, since, path)
    requires LaterClients(cfg, p, from, since, path)
    ensures LaterClients(cfg, Next(cfg, p, Arrive(r, todo)), from, since, path)
  {
    hide Inv, MadeFrom, U.PlainKey, Offered, WellFormedRequest, AnswerCurrent, NoLate;
    var q := Next(cfg, p, Arrive(r, todo));
    if Gets(r, path) {
      forall e | e in todo ensures Current(cfg, p.sys.hist, since, e) {
        var i :| 0 <= i < |todo| && todo[i] == e;
        Y.OfferedBeginsPlain(cfg, r, e.key);
        assert MadeFrom(cfg, p.sys.hist[w[e.key]], e);
      }
    }
    assert JobCurrent(cfg, p.sys, Choose(r, todo), since, path);
    forall other, j | from <= other && other in q.threads && j in q.threads[other]
      ensures JobCurrent(cfg, q.sys, j, since, path)
    {
      if other != p.next { assert j in p.threads[other]; }
    }
  }

  lemma TickKeepsClients(cfg: Config, p: State, d: nat, from: nat, since: int, path: string)
    requires LaterClients(cfg, p, from, since, path)
    ensures LaterClients(cfg, p.(sys := U.Sleep(p.sys, d)), from, since, path)
  {
    hide JobCurrent, AnswerCurrent;
    var q := p.(sys := U.Sleep(p.sys, d));
    forall id, job | from <= id && id in q.threads && job in q.threads[id]
      ensures JobCurrent(cfg, q.sys, job, since, path)
    {
      JobCurrentGrows(cfg, p.sys, q.sys, job, since, path);
    }
    forall id | from <= id && id in q.answers ensures AnswerCurrent(cfg, q.sys, q.answers[id], since, path) {
      AnswerCurrentGrows(cfg, p.sys, q.sys, p.answers[id], since, path);
    }
  }

  lemma StepKeepsClients(cfg: Config, p: State, w: Sources, a: Action, from: nat, since: int, path: string)
    requires Inv(cfg, p) && Enabled(cfg, p, a) && AllCurrent(cfg, p, w, since, path)
    requires LaterClients(cfg, p, from, since, path)
    ensures LaterClients(cfg, Next(cfg, p, a), from, since, path)
  {
    hide Inv, LaterClients, RunJob, ChoiceOk, Sourced, PathCurrent, NoLate, WellFormedRequest, Lists;
    match a {
      case Tick(d) => TickKeepsClients(cfg, p, d, from, since, path);
      case Arrive(r, todo) => ArriveKeepsClients(cfg, p, w, r, todo, from, since, path);
      case Move(id, choice) => MoveKeepsClients(cfg, p, id, choice, from, since, path);
    }
  }

  /** In every continuation, the path stays current, and so is what every later client is sent for it. */
  lemma {:induction false} RunStaysCurrent(cfg: Config, p: State, w: Sources, actions: seq<Action>, q: State,
                                           from: nat, since: int, path: string)
    requires Inv(cfg, p) && RunsTo(cfg, p, actions, q) && ValidUri(path)
    requires AllCurrent(cfg, p, w, since, path) && LaterClients(cfg, p, from, since, path)
    ensures AllCurrent(cfg, q, Trace(cfg, p, w, actions, q), since, path) && LaterClients(cfg, q, from, since, path)
    decreases |actions|
  {
    hide Inv, Enabled, Next, AllCurrent, LaterClients, Wrote, ValidUri;
    if actions != [] {
      var a := actions[0];
      StepKeepsInvariant(cfg, p, a);
      StepStaysCurrent(cfg, p, w, a, since, path);
      StepKeepsClients(cfg, p, w, a, from, since, path);
      RunStaysCurrent(cfg, Next(cfg, p, a), Wrote(cfg, p, w, a), actions[1..], q, from, since, path);
    }
  }

  /* What a late job does. */

  /** A job that waits for the origin or for its turn to store. */
  predicate Waits(job: Job) { AsksOrigin(job) || job.StoreReply? }

  /** Such a job is always the next one of its thread. */
  predicate HeadsOnly(p: State) {
    forall id, j :: id in p.threads && 0 < j < |p.threads[id]| ==> !Waits(p.threads[id][j])
  }

  lemma NewJobsWaitInFront(cfg: Config, s: Sys, job: Job, choice: Choice)
    ensures var e := RunJob(cfg, s, job, choice);
      && (forall j :: 0 < j < |e.jobs| ==> !Waits(e.jobs[j]))
      && (forall j :: 0 < j < |e.spawned| ==> !Waits(e.spawned[j]))
  {
    hide Decide, DecodeKey, R.Oldest, R.Due, ValidUri, Storable, U.InvalidateUris, U.CacheUpdates, U.KeepAt, U.Purge,
         U.IsRedirect;
    match job {
      case Follow(i) =>
        if i < |s.hist| {
          var x := s.hist[i];
          VisitsNeverLate(s, U.InvalidateUris(cfg, x.request, x.reply.status, x.reply.header), 0, "");
          PathUpdatesNeverLate(s, U.CacheUpdates(cfg, x.request, x.reply.header), 0, "");
          var e := RunJob(cfg, s, job, choice);
          forall j | 0 < j < |e.jobs| ensures !Waits(e.jobs[j]) { assert e.jobs[j] in e.jobs; }
        }
      case _ =>
    }
  }

  lemma StepKeepsHeads(cfg: Config, p: State, a: Action)
    requires HeadsOnly(p) && Enabled(cfg, p, a)
    ensures HeadsOnly(Next(cfg, p, a))
  {
    hide RunJob, ChoiceOk, Waits, WellFormedRequest, Lists;
    if a.Move? {
      var id := a.id;
      var rest, e := p.threads[id][1..], RunJob(cfg, p.sys, p.threads[id][0], a.choice);
      NewJobsWaitInFront(cfg, p.sys, p.threads[id][0], a.choice);
      forall j | 0 <= j < |rest| ensures !Waits(rest[j]) { assert rest[j] == p.threads[id][j + 1]; }
    }
  }

  /**
   A late job that stores puts an exchange from before `since` under the path's key in one move,
   whatever newer entry was there.
   */
  lemma LateStoreReplacesNewer(cfg: Config, p: State, w: Sources, id: nat, since: int, path: string)
    requires Inv(cfg, p) && ValidUri(path) && id in p.threads && p.threads[id] != []
    requires p.threads[id][0].StoreReply? && Late(p.sys, p.threads[id][0], since, path)
    ensures var a := Move(id, Choice(Reply(200, map[], []), p.sys.now, "")); var i := p.threads[id][0].i;
      && Enabled(cfg, p, a)
      && var q, v := Next(cfg, p, a), Wrote(cfg, p, w, a); var key := KeyOf(cfg, p.sys.hist[i]);
         && key in q.sys.store && MadeFrom(cfg, p.sys.hist[i], q.sys.store[key]) && v[key] == i
         && !PathCurrent(cfg, q.sys, v, since, path)
  {
    hide Inv, SysOk, MadeFrom, U.PlainKey, KeyOf, JobOk, Stores, WellFormedRequest, ValidUri, RunJob;
    var s, job := p.sys, p.threads[id][0];
    var choice := Choice(Reply(200, map[], []), s.now, "");
    JobsOfThread(cfg, p, id);
    InvSys(cfg, p);
    U.HistoryIsPast(cfg, s, job.i);
    StoringWrites(cfg, s, job.i, job.purpose, choice);
    StoredKeyOfPath(cfg, s, job.i, path);
  }

  const PUBLIC: Header := map["Cache-Control" := ["public"]]
  const STORED := Reply(200, PUBLIC, [])

  lemma PublicIsStorable(r: Request)
    requires WellFormedRequest(r)
    ensures Storable(r, 200, PUBLIC)
  {
    hide MayStore, CC.HeaderDirectives, CC.Pieces, CC.Collect, CC.DirectiveName, CC.Parse, Split, IsToken;
    OnlyCacheControl(["public"]);
    OneWord("public");
    PublicDirective();
    SharedIsStored(r, 200, PUBLIC);
    assert "Cache-Control" in PUBLIC;
    assert r.verb != "" by { TokenHasNoSeparator(r.verb); }
  }

  lemma PublicDirective()
    ensures "public" in CC.Parse(["public"])
  {
    hide CC.Pieces, CC.DirectiveName, Split;
    OneWord("public");
    CC.OnlyDirective("public", "public");
  }

  lemma PublicIsReplayable(verb: string)
    ensures Replayable(verb, 200, PUBLIC, STORED.Body())
  {
    hide WellFormed;
    PublicIsWellFormed();
    assert |"Transfer-Encoding"| == 17 && |"Content-Length"| == 14 && |"Cache-Control"| == 13;
  }

  lemma PublicIsWellFormed()
    ensures WellFormed(PUBLIC)
  {
    assert CanonicalName("Cache-Control") == "Cache-Control" && IsToken("Cache-Control");
    assert IsFieldValue("public");
  }

  /** A late job that waits for the origin becomes one that stores, if the reply may be stored. */
  lemma LateAskBecomesStore(cfg: Config, s: Sys, job: Job, since: int, path: string)
    requires AsksOrigin(job) && Late(s, job, since, path) && WellFormedRequest(AskedOf(job))
    ensures var choice := Choice(STORED, s.now, "");
      && ChoiceOk(s, job, choice)
      && var e := RunJob(cfg, s, job, choice);
         && (if job.AwaitSave? then e.jobs != [] && e.jobs[0].StoreReply? && Late(e.sys, e.jobs[0], since, path)
             else e.spawned != [] && e.spawned[0].StoreReply? && Late(e.sys, e.spawned[0], since, path))
  {
    hide WellFormedRequest, Replayable, Storable, RunFollow, RunStore, RunPoll, RunVisit, RunChoose;
    PublicIsStorable(AskedOf(job));
    PublicIsReplayable(AskedOf(job).verb);
  }

  /** A late job, if there is one, leads to a state in which the path is not current. */
  lemma LateJobBreaks(cfg: Config, p: State, w: Sources, id: nat, job: Job, since: int, path: string)
    returns (actions: seq<Action>, q: State)
    requires Inv(cfg, p) && HeadsOnly(p) && ValidUri(path)
    requires id in p.threads && job in p.threads[id] && Late(p.sys, job, since, path)
    ensures RunsTo(cfg, p, actions, q) && !PathCurrent(cfg, q.sys, Trace(cfg, p, w, actions, q), since, path)
  {
    hide Inv, SysOk, RunJob, ChoiceOk, PathCurrent, ValidUri, WellFormedRequest, Late, Stores, JobOk;
    LateIsFirst(p, id, job, since, path);
    if job.StoreReply? {
      var a := Move(id, Choice(Reply(200, map[], []), p.sys.now, ""));
      LateStoreReplacesNewer(cfg, p, w, id, since, path);
      actions, q := [a], Next(cfg, p, a);
      TraceOne(cfg, p, w, a);
    } else {
      var ask := Move(id, Choice(STORED, p.sys.now, ""));
      AsksWellFormed(cfg, p, id, job);
      LateAskBecomesStore(cfg, p.sys, job, since, path);
      var m, other := Next(cfg, p, ask), if job.AwaitSave? then id else p.next;
      StepKeepsInvariant(cfg, p, ask);
      FirstAfter(cfg, p, id, RunJob(cfg, p.sys, job, Choice(STORED, p.sys.now, "")));
      var v := Wrote(cfg, p, w, ask);
      var a := Move(other, Choice(Reply(200, map[], []), m.sys.now, ""));
      LateStoreReplacesNewer(cfg, m, v, other, since, path);
      TraceOne(cfg, m, v, a);
      actions, q := [ask] + [a], Next(cfg, m, a);
      TraceTwo(cfg, p, w, ask, a);
    }
  }

  lemma FirstAfter(cfg: Config, p: State, id: nat, e: Effect)
    requires Inv(cfg, p) && id in p.threads
    ensures forall rest :: var q := AfterEffect(p, id, rest, e);
      && (e.jobs != [] ==> id in q.threads && q.threads[id] != [] && q.threads[id][0] == e.jobs[0])
      && (e.spawned != [] ==> p.next in q.threads && q.threads[p.next] == e.spawned)
  {
    FreshThread(cfg, p);
  }

  lemma LateIsFirst(p: State, id: nat, job: Job, since: int, path: string)
    requires HeadsOnly(p) && id in p.threads && job in p.threads[id] && Late(p.sys, job, since, path)
    ensures p.threads[id] != [] && p.threads[id][0] == job && Waits(job)
  {
    hide Stores, AskedOf;
    var j :| 0 <= j < |p.threads[id]| && p.threads[id][j] == job;
  }

  lemma AsksWellFormed(cfg: Config, p: State, id: nat, job: Job)
    requires Inv(cfg, p) && id in p.threads && job in p.threads[id] && AsksOrigin(job)
    ensures WellFormedRequest(AskedOf(job))
  {
    hide Inv, WellFormedRequest, ChosenFor, Backed, ConditionalRequest;
    JobsAreOk(cfg, p, id, job);
  }

  lemma TraceOne(cfg: Config, p: State, w: Sources, a: Action)
    requires Enabled(cfg, p, a)
    ensures RunsTo(cfg, p, [a], Next(cfg, p, a))
    ensures Trace(cfg, p, w, [a], Next(cfg, p, a)) == Wrote(cfg, p, w, a)
  {
    hide Enabled, Next, Wrote;
    assert [a][1..] == [];
  }

  lemma TraceTwo(cfg: Config, p: State, w: Sources, a: Action, b: Action)
    requires Enabled(cfg, p, a) && Enabled(cfg, Next(cfg, p, a), b)
    ensures var m := Next(cfg, p, a); var q := Next(cfg, m, b);
      RunsTo(cfg, p, [a] + [b], q) && Trace(cfg, p, w, [a] + [b], q) == Wrote(cfg, m, Wrote(cfg, p, w, a), b)
  {
    hide Enabled, Next, Wrote;
    assert ([a] + [b])[1..] == [b];
    TraceOne(cfg, Next(cfg, p, a), Wrote(cfg, p, w, a), b);
  }

  /* Over whole behaviours. */

  /** The sources after a behaviour. */
  ghost function Written(cfg: Config, states: seq<State>, actions: seq<Action>): Sources
    requires |states| == |actions| + 1
    decreases |actions|
  {
    if actions == [] then map[]
    else
      var n := |actions| - 1;
      Wrote(cfg, states[n], Written(cfg, states[..n + 1], actions[..n]), actions[n])
  }

  lemma StepKeepsSources(cfg: Config, p: State, w: Sources, a: Action)
    requires Inv(cfg, p) && Enabled(cfg, p, a) && Sourced(cfg, p.sys, w)
    ensures Sourced(cfg, Next(cfg, p, a).sys, Wrote(cfg, p, w, a))
  {
    hide Inv, SysOk, RunJob, MadeFrom, ChoiceOk;
    if a.Move? {
      assert ValidUri("/");
      StoreStaysCurrent(cfg, p, w, a.id, a.choice, 0, "/");
    }
  }

  lemma {:induction false} BehaviourKeepsSources(cfg: Config, states: seq<State>, actions: seq<Action>)
    requires Behaviour(cfg, states, actions)
    ensures var p := states[|actions|];
      Inv(cfg, p) && HeadsOnly(p) && Sourced(cfg, p.sys, Written(cfg, states, actions))
    decreases |actions|
  {
    hide Inv, HeadsOnly, Sourced, Enabled, Next, Wrote;
    if actions == [] {
      InitHasInvariant(cfg, states[0]);
      InitHasSources(cfg, states[0]);
    } else {
      var n := |actions| - 1;
      assert Behaviour(cfg, states[..n + 1], actions[..n]) by {
        forall i | 0 <= i < n ensures Steps(cfg, states[..n + 1][i], actions[..n][i], states[..n + 1][i + 1]) {
          assert Steps(cfg, states[i], actions[i], states[i + 1]);
        }
      }
      BehaviourKeepsSources(cfg, states[..n + 1], actions[..n]);
      assert Steps(cfg, states[n], actions[n], states[n + 1]);
      StepKeepsInvariant(cfg, states[n], actions[n]);
      StepKeepsHeads(cfg, states[n], actions[n]);
      StepKeepsSources(cfg, states[n], Written(cfg, states[..n + 1], actions[..n]), actions[n]);
    }
  }

  lemma InitHasSources(cfg: Config, p: State)
    requires Init(cfg, p)
    ensures HeadsOnly(p) && Sourced(cfg, p.sys, map[])
  {}

  /**
   Exactly when a path stays up to date: after any behaviour, every continuation keeps all entries
   for GETs of the path at exchanges that started at `since` or later, if and only if the entries are
   such now and no thread holds a job that may store an earlier one.
   */
  lemma PathStaysCurrentIff(cfg: Config, states: seq<State>, actions: seq<Action>, since: int, path: string)
    requires Behaviour(cfg, states, actions) && ValidUri(path) && since <= states[|actions|].sys.now
    ensures var p, w := states[|actions|], Written(cfg, states, actions);
      PathCurrent(cfg, p.sys, w, since, path) && NoLate(p, since, path) <==>
      forall more, q :: RunsTo(cfg, p, more, q) ==> PathCurrent(cfg, q.sys, Trace(cfg, p, w, more, q), since, path)
  {
    var p, w := states[|actions|], Written(cfg, states, actions);
    hide Behaviour, Inv, HeadsOnly, Sourced, PathCurrent, Trace, RunsTo, Late, ValidUri, Written;
    BehaviourKeepsSources(cfg, states, actions);
    if PathCurrent(cfg, p.sys, w, since, path) && NoLate(p, since, path) {
      NoLaterClients(cfg, p, since, path);
      forall more, q | RunsTo(cfg, p, more, q) ensures PathCurrent(cfg, q.sys, Trace(cfg, p, w, more, q), since, path) {
        RunStaysCurrent(cfg, p, w, more, q, p.next, since, path);
      }
    } else if !PathCurrent(cfg, p.sys, w, since, path) {
      NothingTraced(cfg, p, w);
    } else {
      var id, job :| id in p.threads && job in p.threads[id] && Late(p.sys, job, since, path);
      var more, q := LateJobBreaks(cfg, p, w, id, job, since, path);
    }
  }

  lemma NothingTraced(cfg: Config, p: State, w: Sources)
    ensures RunsTo(cfg, p, [], p) && Trace(cfg, p, w, [], p) == w
  {}

  lemma NoLaterClients(cfg: Config, p: State, since: int, path: string)
    requires Inv(cfg, p)
    ensures LaterClients(cfg, p, p.next, since, path)
  {
    hide SysOk, JobOk, AnswerOk, Shape;
  }

  /* After a write. */

  /** Entries of the path, each made from an exchange that started at `since` or later. */
  ghost predicate EntriesCurrent(cfg: Config, s: Sys, since: int, path: string) {
    forall k :: k in s.store && U.PlainKey(cfg, path) <= k ==> Current(cfg, s.hist, since, s.store[k])
  }

  /** A source for each entry, current for those of the path. */
  ghost function SomeSource(cfg: Config, s: Sys, since: int, path: string, k: string): (i: nat)
    requires SysOk(cfg, s) && EntriesCurrent(cfg, s, since, path) && k in s.store
    ensures i < |s.hist| && MadeFrom(cfg, s.hist[i], s.store[k])
    ensures U.PlainKey(cfg, path) <= k ==> since <= s.hist[i].start
  {
    SourceExists(cfg, s, k);
    if U.PlainKey(cfg, path) <= k
    then var i: nat :| i < |s.hist| && since <= s.hist[i].start && MadeFrom(cfg, s.hist[i], s.store[k]); i
    else var i: nat :| i < |s.hist| && MadeFrom(cfg, s.hist[i], s.store[k]); i
  }

  lemma SourceExists(cfg: Config, s: Sys, k: string)
    requires SysOk(cfg, s) && k in s.store
    ensures exists i: nat :: i < |s.hist| && MadeFrom(cfg, s.hist[i], s.store[k])
  {
    hide Made, ExchangeOk;
    assert Backed(cfg, s.hist, 0, s.now, s.store[k]);
    var i: nat, d, t :| 0 <= i < |s.hist| && Made(cfg, s.hist[i], d, t, s.store[k]) && t <= s.now;
    assert MadeFrom(cfg, s.hist[i], s.store[k]);
  }

  lemma SourcesOfCurrent(cfg: Config, s: Sys, since: int, path: string) returns (w: Sources)
    requires SysOk(cfg, s) && EntriesCurrent(cfg, s, since, path)
    ensures Sourced(cfg, s, w) && PathCurrent(cfg, s, w, since, path)
  {
    hide SysOk, MadeFrom, EntriesCurrent, U.PlainKey;
    w := map k | k in s.store :: SomeSource(cfg, s, since, path, k);
  }

  /** What later clients are sent for a current path, in every continuation of any interleaving. */
  lemma LaterReadsAreCurrent(cfg: Config, p: State, actions: seq<Action>, q: State, since: int, path: string)
    requires Inv(cfg, p) && ValidUri(path) && since <= p.sys.now
    requires EntriesCurrent(cfg, p.sys, since, path) && NoLate(p, since, path)
    requires RunsTo(cfg, p, actions, q)
    ensures forall id :: p.next <= id && id in q.answers ==> AnswerCurrent(cfg, q.sys, q.answers[id], since, path)
  {
    hide Inv, EntriesCurrent, Sourced, PathCurrent, NoLate, RunsTo, ValidUri, AnswerCurrent, JobsCurrent;
    InvSys(cfg, p);
    var w := SourcesOfCurrent(cfg, p.sys, since, path);
    NoLaterClients(cfg, p, since, path);
    RunStaysCurrent(cfg, p, w, actions, q, p.next, since, path);
  }

  /** The follow-up of a write leaves the paths it updates current since the write was answered. */
  lemma WriteMakesCurrent(cfg: Config, env: U.Env, s: Sys, r: Request, path: string)
    requires SysOk(cfg, s) && U.EnvOk(env) && WellFormedRequest(r)
    requires Y.AsksForUpdate(cfg, r, U.NextExchange(env, s, r).reply.header, path)
    requires ValidUri(path) && Y.AlwaysStorable(env, path) && Y.OnlyPlain(cfg, s.store, path)
    ensures var f := U.Fetch(env, s, r); var t := U.FollowUp(cfg, env, f, U.NextJob(env, s, r));
      f.now <= t.now && f.hist <= t.hist && EntriesCurrent(cfg, t, f.now, path)
  {
    hide SysOk, U.EnvOk, WellFormedRequest, U.FollowUp, Y.AsksForUpdate, Y.AlwaysStorable, Y.OnlyPlain, ValidUri,
         RecordingOf, U.PlainKey, Made, KeyOf, Current;
    var n, f := |s.hist|, U.Fetch(env, s, r);
    var t := U.FollowUp(cfg, env, f, U.NextJob(env, s, r));
    Y.WriteUpdatesPaths(cfg, env, s, r, path);
    U.FetchEvolves(cfg, env, n, s, r);
    U.EvolvesOk(cfg, n, s, f);
    assert U.JobOf(f, n, U.NextJob(env, s, r));
    U.FollowUpEvolves(cfg, env, n, f, n, U.NextJob(env, s, r));
    AsksIsUnsafe(cfg, r, U.NextExchange(env, s, r).reply.header, path);
    assert t.hist[n] == f.hist[n] == U.NextExchange(env, s, r);
    forall k | k in t.store && U.PlainKey(cfg, path) <= k ensures Current(cfg, t.hist, f.now, t.store[k]) {
      LaterSource(cfg, t, n, f.now, path, k);
    }
  }

  lemma AsksIsUnsafe(cfg: Config, r: Request, h: Header, path: string)
    requires Y.AsksForUpdate(cfg, r, h, path)
    ensures UnsafeRequest(r)
  {}

  /** An entry of the path stems from a GET, and so not from the write itself. */
  lemma LaterSource(cfg: Config, t: Sys, n: nat, since: int, path: string, k: string)
    requires SysOk(cfg, t) && ValidUri(path) && k in t.store && U.PlainKey(cfg, path) <= k
    requires Backed(cfg, t.hist, n, t.now, t.store[k])
    requires n < |t.hist| && UnsafeRequest(t.hist[n].request)
    requires forall i :: n < i < |t.hist| ==> since <= t.hist[i].start
    ensures Current(cfg, t.hist, since, t.store[k])
  {
    hide Made, ExchangeOk, U.PlainKey, ValidUri, KeyOf;
    var i: nat, d, r :| n <= i < |t.hist| && Made(cfg, t.hist[i], d, r, t.store[k]) && r <= t.now;
    MadeKey(cfg, t.hist[i], d, r, t.store[k]);
    StoredKeyOfPath(cfg, t, i, path);
    assert i != n;
    assert MadeFrom(cfg, t.hist[i], t.store[k]);
  }

  lemma MadeKey(cfg: Config, x: Exchange, d: int, t: int, e: CacheEntry)
    requires Made(cfg, x, d, t, e)
    ensures e.key == KeyOf(cfg, x)
  {
    hide GetExpiration, Head, WriteKey, Storable;
  }

  /**
   A write that is handled alone: let an unsafe request with a zero-delay `Cache-Update` of `path` be
   forwarded and followed up while no other thread moves, in a state in which no goroutine may still
   store a response to a GET of the path asked for before the write was answered. In every
   continuation, all clients that come later are sent for a GET of the path only what was asked of
   the origin after that instant.
   */
  lemma ReadsSeeTheWriteAlways(cfg: Config, env: U.Env, p: State, r: Request, todo: seq<CacheEntry>, path: string)
    returns (actions: seq<Action>, m: State)
    requires Inv(cfg, p) && U.EnvOk(env) && WellFormedRequest(r) && Lists(cfg, p.sys.store, r, todo)
    requires PlanFor(cfg, r, todo, p.sys.now) == Pass
    requires Y.AsksForUpdate(cfg, r, U.NextExchange(env, p.sys, r).reply.header, path)
    requires ValidUri(path) && Y.AlwaysStorable(env, path) && Y.OnlyPlain(cfg, p.sys.store, path)
    requires NoLate(p, U.NextExchange(env, p.sys, r).end, path)
    ensures RunsTo(cfg, p, actions, m) && m.sys == U.Handle(cfg, env, p.sys, r, todo)
    ensures var since := U.NextExchange(env, p.sys, r).end;
      forall more, q, id :: RunsTo(cfg, m, more, q) && m.next <= id && id in q.answers ==>
        AnswerCurrent(cfg, q.sys, q.answers[id], since, path)
  {
    hide Inv, U.EnvOk, WellFormedRequest, Lists, RunsTo, PlanFor, U.FollowUp, U.NextJob, Y.AsksForUpdate, ValidUri,
         Y.AlwaysStorable, Y.OnlyPlain, NoLate, EntriesCurrent, AnswerCurrent, SysOk;
    var s, since := p.sys, U.NextExchange(env, p.sys, r).end;
    InvSys(cfg, p);
    actions, m := HandleRuns(cfg, env, p, r, todo);
    RunsToKeepsInvariant(cfg, p, actions, m);
    WriteMakesCurrent(cfg, env, s, r, path);
    StillNoLate(cfg, p, m, since, path);
    forall more, q, id | RunsTo(cfg, m, more, q) && m.next <= id && id in q.answers
      ensures AnswerCurrent(cfg, q.sys, q.answers[id], since, path)
    {
      LaterReadsAreCurrent(cfg, m, more, q, since, path);
    }
  }

  lemma StillNoLate(cfg: Config, p: State, m: State, since: int, path: string)
    requires Inv(cfg, p) && NoLate(p, since, path) && Grows(p.sys, m.sys)
    requires forall n :: n in p.threads ==> n in m.threads && m.threads[n] == p.threads[n]
    requires forall n :: n in m.threads && n !in p.threads ==> m.threads[n] == []
    ensures NoLate(m, since, path)
  {
    hide Inv, Late;
    forall id, job | id in m.threads && job in m.threads[id] ensures !Late(m.sys, job, since, path) {
      assert id in p.threads && job in p.threads[id];
      JobsAreOk(cfg, p, id, job);
      OldJobsAreNotLate(cfg, p.sys, m.sys, job, since, path);
    }
  }
}
