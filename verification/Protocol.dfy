/**
 All interleavings: client requests, goroutines that store and follow up, the updater, and the
 clock, one small step at a time. Threads are lists of jobs still to do; a job that waits for the
 origin ends with any well-formed reply, at any later time.
 */
module Protocol {
  import opened Text
  import opened Http
  import opened CacheKey
  import opened Freshness
  import opened StoreGate
  import opened Wire
  import opened System
  import CC = CacheControl
  import U = Updates
  import R = Refresh
  import Y = ReadYourWrites

  datatype Purpose = Background | Updater(key: string, second: bool)

  datatype Job =
    | Choose(r: Request, todo: seq<CacheEntry>)   // the loop over offered entries
    | AwaitCheck(r: Request, entry: CacheEntry, sent: Request, start: int)
    | AwaitProxy(r: Request, start: int)
    | AwaitSave(r: Request, start: int, purpose: Purpose)
    | StoreReply(i: nat, purpose: Purpose)        // `writeCache` for exchange i
    | Follow(i: nat)                              // `updateIfNeeded` for exchange i
    | Visit(uri: string)                          // revalidate or invalidate one URI
    | UpdatePath(path: string)
    | Poll                                        // the updater's loop head
    | Retry(key: string, r: Request)
    | Remove(key: string)

  type Thread = seq<Job>

  /** What a client was sent: a stored response, unchecked or checked by an exchange, or an exchange's reply. */
  datatype Answer =
    | FromStore(r: Request, entry: CacheEntry, at: int, check: Option<nat>)
    | FromOrigin(r: Request, i: nat)

  datatype State = State(sys: Sys, threads: map<nat, Thread>, clients: set<nat>, next: nat, answers: map<nat, Answer>)

  /** What a step is free to choose: the origin's reply, when the expiry is computed, and which oldest key is taken. */
  datatype Choice = Choice(reply: Reply, decided: int, key: string)

  datatype Action = Tick(d: nat) | Arrive(r: Request, todo: seq<CacheEntry>) | Move(id: nat, choice: Choice)

  /* One job. */

  datatype Effect = Effect(sys: Sys, jobs: Thread, spawned: Thread, answer: Option<Answer>)

  function Finish(s: Sys, r: Request, start: int, reply: Reply): Sys {
    s.(hist := s.hist + [Exchange(r, reply, start, s.now)])
  }

  function FollowJobs(i: nat): Thread { [StoreReply(i, Background), Follow(i)] }

  function Visits(uris: seq<string>): Thread {
    if uris == [] then [] else [Visit(uris[0])] + Visits(uris[1..])
  }

  function PathUpdates(updates: seq<U.CacheUpdate>): Thread {
    if updates == [] then []
    else (if updates[0].delay == 0 then [UpdatePath(updates[0].path)] else []) + PathUpdates(updates[1..])
  }

  function RunChoose(cfg: Config, s: Sys, r: Request, todo: seq<CacheEntry>): Effect {
    if todo == [] then Effect(s, [AwaitProxy(r, s.now)], [], None)
    else
      match Decide(cfg, r, todo[0], s.now)
      case Reuse => Effect(s, [], [], Some(FromStore(r, todo[0], s.now, None)))
      case Validate(sent) => Effect(s, [AwaitCheck(r, todo[0], sent, s.now)], [], None)
      case Forward(_) => Effect(s, [Choose(r, todo[1..])], [], None)
      case Crash => Effect(s, [], [], None)
  }

  function RunStore(cfg: Config, s: Sys, i: nat, purpose: Purpose, decided: int): Effect
    requires i < |s.hist|
  {
    var x := s.hist[i];
    var next :=
      if purpose.Background? || Storable(x.request, x.reply.status, x.reply.header) then []
      else if purpose.second then [Remove(purpose.key)]
      else [Retry(purpose.key, x.request)];
    Effect(U.KeepAt(cfg, s, U.Job(x.request, RecordingOf(x)), decided), next, [], None)
  }

  function RunPoll(cfg: Config, s: Sys, key: string): Effect {
    if R.Oldest(s.store, MethodPrefix(cfg.origin, "GET"), key) && R.Due(s, key) then
      var d := DecodeKey(cfg.origin, key);
      if d.Err? then Effect(s, [Remove(key), Poll], [], None)
      else Effect(s, [AwaitSave(d.request, s.now, Updater(key, false)), Poll], [], None)
    else Effect(s, [Poll], [], None)
  }

  function RunVisit(cfg: Config, s: Sys, uri: string): Effect {
    if !ValidUri(uri) then Effect(s, [], [], None)
    else if !cfg.updating then Effect(U.Purge(s, U.PlainKey(cfg, uri)), [], [], None)
    else if U.PlainKey(cfg, uri) in s.store then Effect(s, [AwaitSave(U.Plain(uri), s.now, Background)], [], None)
    else Effect(s, [], [], None)
  }

  function RunFollow(cfg: Config, s: Sys, x: Exchange): Effect {
    var uris := U.InvalidateUris(cfg, x.request, x.reply.status, x.reply.header);
    var updates := U.CacheUpdates(cfg, x.request, x.reply.header);
    Effect(s, Visits(uris) + PathUpdates(updates), [], None)
  }

  function RunJob(cfg: Config, s: Sys, job: Job, choice: Choice): Effect {
    var n := |s.hist|;
    match job
    case Choose(r, todo) => RunChoose(cfg, s, r, todo)
    case AwaitCheck(r, e, sent, start) =>
      var t := Finish(s, sent, start, choice.reply);
      if choice.reply.status == 304 then Effect(t, [], [], Some(FromStore(r, e, s.now, Some(n))))
      else Effect(t, [], FollowJobs(n), Some(FromOrigin(r, n)))
    case AwaitProxy(r, start) =>
      var t := Finish(s, r, start, choice.reply);
      var redirect := U.IsRedirect(choice.reply.status);
      Effect(t, if redirect then FollowJobs(n) else [], if redirect then [] else FollowJobs(n), Some(FromOrigin(r, n)))
    case AwaitSave(r, start, purpose) =>
      Effect(Finish(s, r, start, choice.reply), [StoreReply(n, purpose)], [], None)
    case StoreReply(i, purpose) =>
      if i < n then RunStore(cfg, s, i, purpose, choice.decided) else Effect(s, [], [], None)
    case Follow(i) => if i < n then RunFollow(cfg, s, s.hist[i]) else Effect(s, [], [], None)
    case Visit(uri) => RunVisit(cfg, s, uri)
    case UpdatePath(path) =>
      Effect(s, if ValidUri(path) then [AwaitSave(U.Plain(path), s.now, Background)] else [], [], None)
    case Poll => RunPoll(cfg, s, choice.key)
    case Retry(key, r) => Effect(s, [AwaitSave(r, s.now, Updater(key, true))], [], None)
    case Remove(key) => Effect(U.Purge(s, key), [], [], None)
  }

  /* One action. */

  predicate AsksOrigin(job: Job) { job.AwaitCheck? || job.AwaitProxy? || job.AwaitSave? }

  function AskedOf(job: Job): Request requires AsksOrigin(job) {
    if job.AwaitCheck? then job.sent else job.r
  }

  predicate ChoiceOk(s: Sys, job: Job, choice: Choice) {
    && (AsksOrigin(job) ==>
          Replayable(AskedOf(job).verb, choice.reply.status, choice.reply.header, choice.reply.Body()))
    && (job.StoreReply? ==> job.i < |s.hist| && s.hist[job.i].end <= choice.decided <= s.now)
  }

  ghost predicate Enabled(cfg: Config, p: State, a: Action) {
    match a
    case Tick(_) => true
    case Arrive(r, todo) => WellFormedRequest(r) && Lists(cfg, p.sys.store, r, todo)
    case Move(id, choice) => id in p.threads && p.threads[id] != [] && ChoiceOk(p.sys, p.threads[id][0], choice)
  }

  function AfterEffect(p: State, id: nat, rest: Thread, e: Effect): State {
    var threads := p.threads[id := e.jobs + rest];
    State(e.sys,
          if e.spawned == [] then threads else threads[p.next := e.spawned],
          p.clients,
          if e.spawned == [] then p.next else p.next + 1,
          if e.answer.None? then p.answers else p.answers[id := e.answer.value])
  }

  ghost function Next(cfg: Config, p: State, a: Action): State
    requires Enabled(cfg, p, a)
  {
    match a
    case Tick(d) => p.(sys := U.Sleep(p.sys, d))
    case Arrive(r, todo) =>
      p.(threads := p.threads[p.next := [Choose(r, todo)]], clients := p.clients + {p.next}, next := p.next + 1)
    case Move(id, choice) =>
      AfterEffect(p, id, p.threads[id][1..], RunJob(cfg, p.sys, p.threads[id][0], choice))
  }

  /* The invariant. */

  predicate Serving(job: Job) { job.Choose? || job.AwaitCheck? || job.AwaitProxy? }

  /** The entry stems from an exchange whose response may be chosen for the request. */
  ghost predicate ChosenFor(cfg: Config, hist: seq<Exchange>, now: int, e: CacheEntry, r: Request, i: nat)
    : (chosen: bool)
    ensures chosen ==> i < |hist|
  {
    i < |hist| && Selected(r, hist[i]) && exists d, t :: Made(cfg, hist[i], d, t, e) && t <= now
  }

  ghost predicate JobOk(cfg: Config, s: Sys, job: Job) {
    match job
    case Choose(r, todo) =>
      WellFormedRequest(r) && forall e :: e in todo ==> Backed(cfg, s.hist, 0, s.now, e) && Offered(cfg, r, e.key)
    case AwaitCheck(r, e, sent, start) =>
      && WellFormedRequest(sent) && start <= s.now
      && exists i: nat ::
           ChosenFor(cfg, s.hist, s.now, e, r, i) && sent == ConditionalRequest(r, StoredHeader(s.hist[i]))
    case AwaitProxy(r, start) => WellFormedRequest(r) && start <= s.now
    case AwaitSave(r, start, _) => WellFormedRequest(r) && start <= s.now
    case StoreReply(i, _) => i < |s.hist|
    case Follow(i) => i < |s.hist|
    case Retry(_, r) => WellFormedRequest(r)
    case _ => true
  }

  /** Section 4 of RFC 9111 is kept, but for what the cache does not look at. */
  predicate Judged(cfg: Config, r: Request, x: Exchange, at: int, sent: Option<Request>) {
    Section4(cfg, r, x, at, sent) <==> !Overlooked(cfg, r, x, at, sent.Some?)
  }

  /**
   What holds of whatever a client was sent. A stored response was given by the origin for the same
   method and URI, and nominated fields with the same first lines, with no `*`; unchecked, the parser
   found no `no-cache` and the machine took it for fresh at that instant; checked, the origin answered
   304 to the client's request with that response's validators added. It satisfies section 4 of RFC
   9111 exactly when nothing was overlooked.
   */
  ghost predicate AnswerOk(cfg: Config, s: Sys, a: Answer) {
    match a
    case FromStore(r, e, at, check) =>
      at <= s.now &&
      if check.None?
      then exists i: nat :: ChosenFor(cfg, s.hist, at, e, r, i) && Unconditional(cfg, s.hist[i], e, at)
             && Judged(cfg, r, s.hist[i], at, None)
      else
        && check.value < |s.hist| && s.hist[check.value].reply.status == 304 && s.hist[check.value].end <= at
        && exists i: nat :: ChosenFor(cfg, s.hist, at, e, r, i)
             && s.hist[check.value].request == ConditionalRequest(r, StoredHeader(s.hist[i]))
             && Judged(cfg, r, s.hist[i], at, Some(s.hist[check.value].request))
    case FromOrigin(r, i) =>
      i < |s.hist| && s.hist[i].request.verb == r.verb && s.hist[i].request.uri == r.uri
  }

  /** A client's thread begins with a serving job until it is answered; no other job of any thread serves. */
  predicate Shape(p: State, id: nat) {
    && id in p.threads
    && (forall j :: 0 < j < |p.threads[id]| ==> !Serving(p.threads[id][j]))
    && ((p.threads[id] != [] && Serving(p.threads[id][0])) <==> id in p.clients && id !in p.answers)
    && (id in p.answers ==> id in p.clients)
  }

  ghost predicate Inv(cfg: Config, p: State) {
    && SysOk(cfg, p.sys)
    && (forall id, job :: id in p.threads && job in p.threads[id] ==> JobOk(cfg, p.sys, job))
    && (forall id :: id in p.answers ==> AnswerOk(cfg, p.sys, p.answers[id]))
    && (forall id: nat :: id < p.next <==> id in p.threads)
    && (forall id: nat :: id < p.next ==> Shape(p, id))
    && (forall id :: id in p.answers || id in p.clients ==> id < p.next)
  }

  lemma JobsOfThread(cfg: Config, p: State, id: nat)
    requires Inv(cfg, p) && id in p.threads && p.threads[id] != []
    ensures JobOk(cfg, p.sys, p.threads[id][0])
    ensures var job := p.threads[id][0]; job.StoreReply? || job.Follow? ==> job.i < |p.sys.hist|
  {
    hide SysOk, AnswerOk, Shape;
    assert p.threads[id][0] in p.threads[id];
  }

  /* Growth keeps what is known. */

  ghost predicate Grows(s: Sys, t: Sys) { s.hist <= t.hist && s.now <= t.now }

  lemma ChosenGrows(cfg: Config, hist: seq<Exchange>, now: int, e: CacheEntry, r: Request, i: nat,
                    later: seq<Exchange>, then': int)
    requires ChosenFor(cfg, hist, now, e, r, i) && hist <= later && now <= then'
    ensures ChosenFor(cfg, later, then', e, r, i) && later[i] == hist[i]
  {
    hide Selected, Made;
    var d, t :| Made(cfg, hist[i], d, t, e) && t <= now;
    assert later[i] == hist[i];
    assert Made(cfg, later[i], d, t, e);
  }

  lemma JobGrows(cfg: Config, s: Sys, t: Sys, job: Job)
    requires JobOk(cfg, s, job) && Grows(s, t)
    ensures JobOk(cfg, t, job)
  {
    hide ChosenFor, Backed, WellFormedRequest, Offered, ConditionalRequest, StoredHeader;
    match job {
      case Choose(r, todo) =>
        forall e | e in todo ensures Backed(cfg, t.hist, 0, t.now, e) {
          U.BackedGrows(cfg, s.hist, 0, s.now, e, t.hist, 0, t.now);
        }
      case AwaitCheck(r, e, sent, start) =>
        var i: nat :| ChosenFor(cfg, s.hist, s.now, e, r, i) && sent == ConditionalRequest(r, StoredHeader(s.hist[i]));
        ChosenGrows(cfg, s.hist, s.now, e, r, i, t.hist, t.now);
      case _ =>
    }
  }

  lemma AnswerGrows(cfg: Config, s: Sys, t: Sys, a: Answer)
    requires AnswerOk(cfg, s, a) && Grows(s, t)
    ensures AnswerOk(cfg, t, a)
  {
    hide ChosenFor, ConditionalRequest, StoredHeader, Unconditional, Judged;
    match a {
      case FromStore(r, e, at, check) =>
        if check.None? {
          var i: nat :| ChosenFor(cfg, s.hist, at, e, r, i) && Unconditional(cfg, s.hist[i], e, at)
                   && Judged(cfg, r, s.hist[i], at, None);
          ChosenGrows(cfg, s.hist, at, e, r, i, t.hist, at);
        } else {
          var i: nat :| ChosenFor(cfg, s.hist, at, e, r, i)
                   && s.hist[check.value].request == ConditionalRequest(r, StoredHeader(s.hist[i]))
                   && Judged(cfg, r, s.hist[i], at, Some(s.hist[check.value].request));
          ChosenGrows(cfg, s.hist, at, e, r, i, t.hist, at);
          assert t.hist[check.value] == s.hist[check.value];
        }
      case FromOrigin(_, i) => assert t.hist[i] == s.hist[i];
    }
  }

  /* Every job keeps the invariant. */

  ghost predicate JobsOk(cfg: Config, s: Sys, jobs: Thread) { forall job :: job in jobs ==> JobOk(cfg, s, job) }

  predicate NoneServing(jobs: Thread) { forall job :: job in jobs ==> !Serving(job) }

  /** What one job may do: the state stays good and grows; one serving job or an answer replaces a serving job. */
  ghost predicate EffectOk(cfg: Config, s: Sys, job: Job, e: Effect) {
    && SysOk(cfg, e.sys) && Grows(s, e.sys)
    && JobsOk(cfg, e.sys, e.jobs) && JobsOk(cfg, e.sys, e.spawned) && NoneServing(e.spawned)
    && (e.answer.Some? ==> AnswerOk(cfg, e.sys, e.answer.value))
    && (if Serving(job) && e.answer.None? then |e.jobs| == 1 && Serving(e.jobs[0]) else NoneServing(e.jobs))
    && (!Serving(job) ==> e.answer.None?)
  }

  lemma BackedDecision(cfg: Config, s: Sys, r: Request, e: CacheEntry)
    requires SysOk(cfg, s) && WellFormedRequest(r) && Backed(cfg, s.hist, 0, s.now, e) && Offered(cfg, r, e.key)
    ensures var d := Decide(cfg, r, e, s.now);
      && d != Crash
      && (d == Reuse ==>
            exists i: nat :: ChosenFor(cfg, s.hist, s.now, e, r, i) && Unconditional(cfg, s.hist[i], e, s.now)
              && Judged(cfg, r, s.hist[i], s.now, None))
      && (d.Validate? ==> WellFormedRequest(d.sent))
      && (d.Validate? ==>
            exists i: nat :: ChosenFor(cfg, s.hist, s.now, e, r, i)
              && d.sent == ConditionalRequest(r, StoredHeader(s.hist[i])))
  {
    hide Decide, WellFormedRequest, Made, Selected, Unconditional, ConditionalRequest, Offered, Replayable, FixPragma,
         Section4, Overlooked;
    var i: nat, d, t :| 0 <= i < |s.hist| && Made(cfg, s.hist[i], d, t, e) && t <= s.now;
    DecideIff(cfg, r, s.hist[i], d, t, e, s.now);
    ReplyHeaderIsWellFormed(s.hist[i]);
    U.ConditionalIsWellFormed(r, StoredHeader(s.hist[i]));
    assert Selected(r, s.hist[i]) ==> ChosenFor(cfg, s.hist, s.now, e, r, i);
    if Decide(cfg, r, e, s.now) == Reuse { Section4Iff(cfg, r, s.hist[i], d, t, e, s.now, None); }
  }

  lemma ReplyHeaderIsWellFormed(x: Exchange)
    requires ExchangeOk(x)
    ensures WellFormed(StoredHeader(x))
  {
    hide FixPragma, WellFormed;
    Y.FixPragmaIsWellFormed(x.reply.header);
  }

  lemma FinishOk(cfg: Config, s: Sys, r: Request, start: int, reply: Reply)
    requires SysOk(cfg, s) && WellFormedRequest(r) && start <= s.now
    requires Replayable(r.verb, reply.status, reply.header, reply.Body())
    ensures SysOk(cfg, Finish(s, r, start, reply)) && Grows(s, Finish(s, r, start, reply))
  {
    hide Backed, WellFormedRequest, Replayable;
    var t := Finish(s, r, start, reply);
    assert ExchangeOk(Exchange(r, reply, start, s.now));
    forall k | k in t.store ensures Backed(cfg, t.hist, 0, t.now, t.store[k]) {
      U.BackedGrows(cfg, s.hist, 0, s.now, s.store[k], t.hist, 0, t.now);
    }
  }

  lemma ChooseOk(cfg: Config, s: Sys, r: Request, todo: seq<CacheEntry>)
    requires SysOk(cfg, s) && JobOk(cfg, s, Choose(r, todo))
    ensures EffectOk(cfg, s, Choose(r, todo), RunChoose(cfg, s, r, todo))
  {
    hide SysOk, Decide, WellFormedRequest, ChosenFor, Backed, Offered, Unconditional, ConditionalRequest, StoredHeader,
         Judged;
    if todo != [] {
      assert todo[0] in todo;
      BackedDecision(cfg, s, r, todo[0]);
      assert forall e :: e in todo[1..] ==> e in todo;
    }
  }

  lemma {:induction false} VisitsOk(cfg: Config, s: Sys, uris: seq<string>)
    ensures JobsOk(cfg, s, Visits(uris)) && NoneServing(Visits(uris))
  {
    if uris != [] { VisitsOk(cfg, s, uris[1..]); }
  }

  lemma {:induction false} PathUpdatesOk(cfg: Config, s: Sys, updates: seq<U.CacheUpdate>)
    ensures JobsOk(cfg, s, PathUpdates(updates)) && NoneServing(PathUpdates(updates))
  {
    if updates != [] { PathUpdatesOk(cfg, s, updates[1..]); }
  }

  lemma PollOk(cfg: Config, s: Sys, key: string)
    requires SysOk(cfg, s)
    ensures EffectOk(cfg, s, Poll, RunPoll(cfg, s, key))
  {
    hide SysOk, DecodeKey, WellFormedRequest, R.Due;
    if R.Oldest(s.store, MethodPrefix(cfg.origin, "GET"), key) && R.Due(s, key) {
      U.StoredKeyDecodes(cfg, s, key);
    }
  }

  lemma VisitOk(cfg: Config, s: Sys, uri: string)
    requires SysOk(cfg, s)
    ensures EffectOk(cfg, s, Visit(uri), RunVisit(cfg, s, uri))
  {
    hide SysOk, WellFormedRequest, ValidUri, U.PlainKey, U.Evolves;
    if ValidUri(uri) { U.PlainIsWellFormed(uri); }
    U.PurgeEvolves(cfg, 0, s, U.PlainKey(cfg, uri));
    U.EvolvesOk(cfg, 0, s, U.Purge(s, U.PlainKey(cfg, uri)));
  }

  lemma StoreOk(cfg: Config, s: Sys, i: nat, purpose: Purpose, decided: int)
    requires SysOk(cfg, s) && i < |s.hist| && s.hist[i].end <= decided <= s.now
    ensures EffectOk(cfg, s, StoreReply(i, purpose), RunStore(cfg, s, i, purpose, decided))
  {
    hide SysOk, WellFormedRequest, Storable, U.KeepAt, U.Evolves, RecordingOf;
    var job := U.Job(s.hist[i].request, RecordingOf(s.hist[i]));
    U.HistoryIsPast(cfg, s, i);
    U.KeepEvolves(cfg, 0, s, i, job, decided);
    U.EvolvesOk(cfg, 0, s, U.KeepAt(cfg, s, job, decided));
  }

  lemma AwaitOk(cfg: Config, s: Sys, job: Job, choice: Choice)
    requires SysOk(cfg, s) && JobOk(cfg, s, job) && ChoiceOk(s, job, choice) && AsksOrigin(job)
    ensures EffectOk(cfg, s, job, RunJob(cfg, s, job, choice))
  {
    hide SysOk, WellFormedRequest, Replayable, RunJob, AnswerOk, EffectOk, Grows;
    AskedIsOk(cfg, s, job);
    FinishOk(cfg, s, AskedOf(job), job.start, choice.reply);
    var t := Finish(s, AskedOf(job), job.start, choice.reply);
    match job {
      case AwaitCheck(_, _, _, _) => CheckAnswerOk(cfg, s, job, t, choice.reply);
      case AwaitProxy(r, start) => ProxyAnswerOk(cfg, s, r, start, choice.reply);
      case AwaitSave(_, _, _) =>
    }
    FinishedEffectOk(cfg, s, job, choice, t);
  }

  lemma AskedIsOk(cfg: Config, s: Sys, job: Job)
    requires JobOk(cfg, s, job) && AsksOrigin(job)
    ensures WellFormedRequest(AskedOf(job)) && job.start <= s.now
  {
    hide WellFormedRequest, ChosenFor, ConditionalRequest, StoredHeader;
  }

  lemma FinishedEffectOk(cfg: Config, s: Sys, job: Job, choice: Choice, t: Sys)
    requires AsksOrigin(job) && t == Finish(s, AskedOf(job), job.start, choice.reply)
    requires SysOk(cfg, t) && Grows(s, t)
    requires !job.AwaitSave? ==> AnswerOk(cfg, t, FromOrigin(job.r, |s.hist|))
    requires job.AwaitCheck? && choice.reply.status == 304 ==>
      AnswerOk(cfg, t, FromStore(job.r, job.entry, s.now, Some(|s.hist|)))
    ensures EffectOk(cfg, s, job, RunJob(cfg, s, job, choice))
  {
    hide SysOk, WellFormedRequest, ChosenFor, ConditionalRequest, StoredHeader, RunChoose, RunPoll, RunVisit, RunStore,
         RunFollow, AnswerOk, U.IsRedirect;
  }

  lemma ProxyAnswerOk(cfg: Config, s: Sys, r: Request, start: int, reply: Reply)
    ensures AnswerOk(cfg, Finish(s, r, start, reply), FromOrigin(r, |s.hist|))
  {
    assert Finish(s, r, start, reply).hist[|s.hist|] == Exchange(r, reply, start, s.now);
  }

  lemma CheckAnswerOk(cfg: Config, s: Sys, job: Job, t: Sys, reply: Reply)
    requires job.AwaitCheck? && JobOk(cfg, s, job) && t == Finish(s, job.sent, job.start, reply)
    ensures AnswerOk(cfg, t, FromOrigin(job.r, |s.hist|))
    ensures reply.status == 304 ==> AnswerOk(cfg, t, FromStore(job.r, job.entry, s.now, Some(|s.hist|)))
  {
    hide WellFormedRequest, ChosenFor, ConditionalRequest, StoredHeader, Section4, Overlooked;
    var i: nat :| ChosenFor(cfg, s.hist, s.now, job.entry, job.r, i)
             && job.sent == ConditionalRequest(job.r, StoredHeader(s.hist[i]));
    ChosenIsSelected(cfg, s.hist, s.now, job.entry, job.r, i);
    Section4Iff(cfg, job.r, s.hist[i], 0, 0, job.entry, s.now, Some(job.sent));
    ChosenGrows(cfg, s.hist, s.now, job.entry, job.r, i, t.hist, s.now);
    ConditionalKeepsTarget(job.r, StoredHeader(s.hist[i]));
    assert t.hist[|s.hist|] == Exchange(job.sent, reply, job.start, s.now);
  }

  lemma ChosenIsSelected(cfg: Config, hist: seq<Exchange>, now: int, e: CacheEntry, r: Request, i: nat)
    requires ChosenFor(cfg, hist, now, e, r, i)
    ensures Selected(r, hist[i])
  {
    hide Selected, Made;
  }

  lemma ConditionalKeepsTarget(r: Request, h: Header)
    ensures ConditionalRequest(r, h).verb == r.verb && ConditionalRequest(r, h).uri == r.uri
  {}

  lemma RunJobOk(cfg: Config, s: Sys, job: Job, choice: Choice)
    requires SysOk(cfg, s) && JobOk(cfg, s, job) && ChoiceOk(s, job, choice)
    ensures EffectOk(cfg, s, job, RunJob(cfg, s, job, choice))
  {
    hide SysOk, WellFormedRequest, RunChoose, RunPoll, RunVisit, RunStore, Replayable, EffectOk, JobsOk;
    match job {
      case Choose(r, todo) => ChooseOk(cfg, s, r, todo);
      case AwaitCheck(_, _, _, _) => AwaitOk(cfg, s, job, choice);
      case AwaitProxy(_, _) => AwaitOk(cfg, s, job, choice);
      case AwaitSave(_, _, _) => AwaitOk(cfg, s, job, choice);
      case StoreReply(i, purpose) => StoreOk(cfg, s, i, purpose, choice.decided);
      case Follow(i) => FollowOk(cfg, s, i);
      case Visit(uri) => VisitOk(cfg, s, uri);
      case UpdatePath(path) => UpdatePathOk(cfg, s, path, choice);
      case Poll => PollOk(cfg, s, choice.key);
      case Retry(key, r) => RetryOk(cfg, s, key, r, choice);
      case Remove(key) => RemoveOk(cfg, s, key, choice);
    }
  }

  lemma FollowOk(cfg: Config, s: Sys, i: nat)
    requires SysOk(cfg, s) && i < |s.hist|
    ensures EffectOk(cfg, s, Follow(i), RunFollow(cfg, s, s.hist[i]))
  {
    hide SysOk, U.InvalidateUris, U.CacheUpdates;
    var x := s.hist[i];
    VisitsOk(cfg, s, U.InvalidateUris(cfg, x.request, x.reply.status, x.reply.header));
    PathUpdatesOk(cfg, s, U.CacheUpdates(cfg, x.request, x.reply.header));
  }

  lemma UpdatePathOk(cfg: Config, s: Sys, path: string, choice: Choice)
    requires SysOk(cfg, s)
    ensures EffectOk(cfg, s, UpdatePath(path), RunJob(cfg, s, UpdatePath(path), choice))
  {
    hide SysOk, WellFormedRequest, ValidUri;
    if ValidUri(path) { U.PlainIsWellFormed(path); }
  }

  lemma RetryOk(cfg: Config, s: Sys, key: string, r: Request, choice: Choice)
    requires SysOk(cfg, s) && WellFormedRequest(r)
    ensures EffectOk(cfg, s, Retry(key, r), RunJob(cfg, s, Retry(key, r), choice))
  {
    hide SysOk, WellFormedRequest;
  }

  lemma RemoveOk(cfg: Config, s: Sys, key: string, choice: Choice)
    requires SysOk(cfg, s)
    ensures EffectOk(cfg, s, Remove(key), RunJob(cfg, s, Remove(key), choice))
  {
    hide SysOk, U.Evolves;
    U.PurgeEvolves(cfg, 0, s, key);
    U.EvolvesOk(cfg, 0, s, U.Purge(s, key));
  }

  /* Every action keeps the invariant. */

  lemma AfterEffectOk(cfg: Config, p: State, id: nat, e: Effect)
    requires Inv(cfg, p) && id in p.threads && p.threads[id] != []
    requires EffectOk(cfg, p.sys, p.threads[id][0], e)
    ensures Inv(cfg, AfterEffect(p, id, p.threads[id][1..], e))
  {
    hide SysOk, JobOk, AnswerOk, Grows;
    var rest, q := p.threads[id][1..], AfterEffect(p, id, p.threads[id][1..], e);
    assert id < p.next && Shape(p, id);
    forall other, job | other in q.threads && job in q.threads[other] ensures JobOk(cfg, q.sys, job) {
      if other < p.next && (other != id || job in rest) {
        assert job in p.threads[other];
        JobGrows(cfg, p.sys, q.sys, job);
      }
    }
    forall other | other in q.answers ensures AnswerOk(cfg, q.sys, q.answers[other]) {
      if other != id || e.answer.None? { AnswerGrows(cfg, p.sys, q.sys, p.answers[other]); }
    }
    assert forall j :: 0 <= j < |rest| ==> rest[j] == p.threads[id][j + 1];
    ShapeAfter(p, id, e, q);
  }

  /** The part of the argument that is about the shape of the threads alone. */
  lemma ShapeAfter(p: State, id: nat, e: Effect, q: State)
    requires forall n: nat :: n < p.next <==> n in p.threads
    requires forall n: nat :: n < p.next ==> Shape(p, n)
    requires forall n :: n in p.answers || n in p.clients ==> n < p.next
    requires id in p.threads && p.threads[id] != [] && NoneServing(e.spawned)
    requires var job := p.threads[id][0];
      && (if Serving(job) && e.answer.None? then |e.jobs| == 1 && Serving(e.jobs[0]) else NoneServing(e.jobs))
      && (!Serving(job) ==> e.answer.None?)
    requires q == AfterEffect(p, id, p.threads[id][1..], e)
    ensures forall n: nat :: n < q.next <==> n in q.threads
    ensures forall n: nat :: n < q.next ==> Shape(q, n)
    ensures forall n :: n in q.answers || n in q.clients ==> n < q.next
  {
    hide Serving;
    var rest := p.threads[id][1..];
    assert id < p.next && Shape(p, id);
    assert forall j :: 0 <= j < |rest| ==> rest[j] == p.threads[id][j + 1];
    assert forall j :: 0 <= j < |rest| ==> !Serving(rest[j]);
    forall n: nat | n < q.next ensures Shape(q, n) {
      if n == p.next {
        assert q.threads[n] == e.spawned;
        if e.spawned != [] { assert e.spawned[0] in e.spawned; }
      } else if n == id {
        assert q.threads[id] == e.jobs + rest;
      } else {
        assert Shape(p, n);
      }
    }
  }

  lemma StepKeepsInvariant(cfg: Config, p: State, a: Action)
    requires Inv(cfg, p) && Enabled(cfg, p, a)
    ensures Inv(cfg, Next(cfg, p, a))
  {
    match a {
      case Tick(d) => TickKeepsInvariant(cfg, p, d);
      case Arrive(r, todo) => ArriveKeepsInvariant(cfg, p, r, todo);
      case Move(id, choice) =>
        hide Inv, RunJob, EffectOk, AfterEffect, JobOk, ChoiceOk;
        JobsOfThread(cfg, p, id);
        InvSys(cfg, p);
        RunJobOk(cfg, p.sys, p.threads[id][0], choice);
        AfterEffectOk(cfg, p, id, RunJob(cfg, p.sys, p.threads[id][0], choice));
    }
  }

  lemma InvSys(cfg: Config, p: State)
    requires Inv(cfg, p)
    ensures SysOk(cfg, p.sys)
  {}

  lemma TickKeepsInvariant(cfg: Config, p: State, d: nat)
    requires Inv(cfg, p)
    ensures Inv(cfg, p.(sys := U.Sleep(p.sys, d)))
  {
    hide SysOk, JobOk, AnswerOk, U.Evolves;
    var q := p.(sys := U.Sleep(p.sys, d));
    U.SleepEvolves(cfg, 0, p.sys, d);
    U.EvolvesOk(cfg, 0, p.sys, q.sys);
    forall id, job | id in q.threads && job in q.threads[id] ensures JobOk(cfg, q.sys, job) {
      JobGrows(cfg, p.sys, q.sys, job);
    }
    forall id | id in q.answers ensures AnswerOk(cfg, q.sys, q.answers[id]) {
      AnswerGrows(cfg, p.sys, q.sys, p.answers[id]);
    }
    forall id: nat | id < q.next ensures Shape(q, id) { assert Shape(p, id); }
  }

  lemma ArriveKeepsInvariant(cfg: Config, p: State, r: Request, todo: seq<CacheEntry>)
    requires Inv(cfg, p) && Enabled(cfg, p, Arrive(r, todo))
    ensures Inv(cfg, Next(cfg, p, Arrive(r, todo)))
  {
    hide AnswerOk, WellFormedRequest, Backed, ExchangeOk, Offered;
    var q := Next(cfg, p, Arrive(r, todo));
    forall e | e in todo ensures Backed(cfg, p.sys.hist, 0, p.sys.now, e) && Offered(cfg, r, e.key) {
      var i :| 0 <= i < |todo| && todo[i] == e;
    }
    assert JobOk(cfg, p.sys, Choose(r, todo));
    forall id: nat | id < q.next ensures Shape(q, id) {
      if id != p.next { assert Shape(p, id); }
    }
  }

  /* Runs. */

  /** Nothing stored, nothing asked; the updater's thread waits if updates are on. */
  ghost predicate Init(cfg: Config, p: State) {
    && OriginId(cfg.origin)
    && p.sys.store == map[] && p.sys.hist == []
    && p.threads == map[0 := if cfg.updating then [Poll] else []]
    && p.clients == {} && p.next == 1 && p.answers == map[]
  }

  ghost predicate Behaviour(cfg: Config, states: seq<State>, actions: seq<Action>) {
    && |states| == |actions| + 1
    && Init(cfg, states[0])
    && forall i :: 0 <= i < |actions| ==> Steps(cfg, states[i], actions[i], states[i + 1])
  }

  ghost predicate Steps(cfg: Config, p: State, a: Action, q: State) {
    Enabled(cfg, p, a) && q == Next(cfg, p, a)
  }

  lemma InitHasInvariant(cfg: Config, p: State)
    requires Init(cfg, p)
    ensures Inv(cfg, p)
  {
    hide Backed, ExchangeOk;
  }

  lemma {:induction false} RunsKeepInvariant(cfg: Config, states: seq<State>, actions: seq<Action>, i: nat)
    requires Behaviour(cfg, states, actions) && i < |states|
    ensures Inv(cfg, states[i])
  {
    hide Inv, Init, Enabled, Next;
    if i == 0 {
      InitHasInvariant(cfg, states[0]);
    } else {
      RunsKeepInvariant(cfg, states, actions, i - 1);
      assert Steps(cfg, states[i - 1], actions[i - 1], states[i - 1 + 1]);
      StepKeepsInvariant(cfg, states[i - 1], actions[i - 1]);
    }
  }

  /**
   Serve soundness: in every run, everything any client was ever sent is as the cache's checks demand,
   and what it was sent from the store satisfies section 4 of RFC 9111 but for what was overlooked.
   */
  lemma ServeSoundness(cfg: Config, states: seq<State>, actions: seq<Action>, i: nat, id: nat)
    requires Behaviour(cfg, states, actions) && i < |states| && id in states[i].answers
    ensures AnswerOk(cfg, states[i].sys, states[i].answers[id])
  {
    hide Behaviour, AnswerOk, JobOk, Shape, SysOk;
    RunsKeepInvariant(cfg, states, actions, i);
  }

  predicate SingleLines(h: Header) { forall name :: name in h ==> |h[name]| <= 1 }

  /** A request in which nothing can be overlooked: single field lines, and no preconditions. */
  predicate Simple(r: Request) {
    && SingleLines(r.header)
    && FieldAbsent(r.header, "If-None-Match") && FieldAbsent(r.header, "If-Modified-Since")
  }

  /** An exchange in which nothing can be overlooked: single lines, and a response that is plain and in time. */
  predicate SimpleExchange(cfg: Config, x: Exchange, at: int) {
    && SingleLines(x.request.header)
    && PlainResponse(cfg.dates, StoredHeader(x)) && OneCentury(cfg.dates, StoredHeader(x), x.start, at)
  }

  /**
   So if the client's request is simple, and so are the exchanges that the origin has answered, the
   exchange behind the entry that was sent satisfies section 4 of RFC 9111.
   */
  lemma SimpleExchangesMeetSection4(cfg: Config, states: seq<State>, actions: seq<Action>, i: nat, id: nat)
    requires Behaviour(cfg, states, actions) && i < |states| && id in states[i].answers
    requires var a := states[i].answers[id];
      a.FromStore? && Simple(a.r) && forall x :: x in states[i].sys.hist ==> SimpleExchange(cfg, x, a.at)
    ensures var s, a := states[i].sys, states[i].answers[id];
      && (a.check.Some? ==> a.check.value < |s.hist| && s.hist[a.check.value].reply.status == 304)
      && var sent := if a.check.None? then None else Some(s.hist[a.check.value].request);
         exists j: nat ::
           ChosenFor(cfg, s.hist, a.at, a.entry, a.r, j) && Section4(cfg, a.r, s.hist[j], a.at, sent)
  {
    hide Behaviour, ChosenFor, Section4, Overlooked, Unconditional, ConditionalRequest, StoredHeader, SimpleExchange,
         Simple;
    ServeSoundness(cfg, states, actions, i, id);
    var s, a := states[i].sys, states[i].answers[id];
    var sent := if a.check.None? then None else Some(s.hist[a.check.value].request);
    var j: nat :| ChosenFor(cfg, s.hist, a.at, a.entry, a.r, j) && Judged(cfg, a.r, s.hist[j], a.at, sent);
    NothingOverlooked(cfg, a.r, s.hist[j], a.at, sent.Some?);
    assert Judged(cfg, a.r, s.hist[j], a.at, sent);
    assert Section4(cfg, a.r, s.hist[j], a.at, sent);
  }

  lemma NothingOverlooked(cfg: Config, r: Request, x: Exchange, at: int, checked: bool)
    requires Simple(r) && SimpleExchange(cfg, x, at)
    ensures !Overlooked(cfg, r, x, at, checked)
  {
    hide CanonicalName, VaryList, StoredHeader, CC.WellSpaced, CC.Hidden, CC.Invented, PlainSeconds, SecondsMisread,
         AgeMisread, OneCentury, RfcStaleInstant, Values, FurtherLinesAgree;
    var h := StoredHeader(x);
    forall name ensures FurtherLinesAgree(r.header, x.request.header, name) {
      OneValue(r.header, name);
      OneValue(x.request.header, name);
      SingleLinesAgree(r.header, x.request.header, name);
    }
    PlainIsReadRight(cfg.dates, h);
    CC.WellSpacedIsReadRight(h, "safe");
    CC.WellSpacedIsReadRight(h, "no-cache");
  }

  lemma OneValue(h: Header, name: string)
    requires SingleLines(h)
    ensures |Values(h, name)| <= 1
  {
    hide CanonicalName;
  }

  lemma SingleLinesAgree(a: Header, b: Header, name: string)
    requires |Values(a, name)| <= 1 && |Values(b, name)| <= 1
    ensures FurtherLinesAgree(a, b, name)
  {
    hide CanonicalName, Values;
    var x, y := Values(a, name), Values(b, name);
    if x != [] && y != [] { assert x[1..] == [] && y[1..] == []; }
  }

  /**
   The entry invariant: in every run, every stored entry was made from an exchange that may be
   stored, under that exchange's own key, with request time not after its receipt.
   */
  lemma EntriesAreLegitimate(cfg: Config, states: seq<State>, actions: seq<Action>, i: nat, key: string)
    requires Behaviour(cfg, states, actions) && i < |states| && key in states[i].sys.store
    ensures var s := states[i].sys; var e := s.store[key];
      exists j: nat :: j < |s.hist| &&
        var x := s.hist[j];
        && e.key == key == WriteKey(cfg, x.request, x.reply.header)
        && e.bytes == Head(x.reply.status, x.reply.header) + x.reply.Body()
        && e.requestedAt == Floor(x.start) <= e.receivedAt <= s.now
        && StoredLegitimately(x.request, x.reply.status, x.reply.header)
  {
    hide Behaviour, AnswerOk, JobOk, Shape, WriteKey, Head, StoredLegitimately, MayStore, GetExpiration, ExchangeOk;
    RunsKeepInvariant(cfg, states, actions, i);
    var s := states[i].sys;
    assert Backed(cfg, s.hist, 0, s.now, s.store[key]);
    var j: nat, d, t :| 0 <= j < |s.hist| && Made(cfg, s.hist[j], d, t, s.store[key]) && t <= s.now;
    var x := s.hist[j];
    MayStoreIff(x.request, x.reply.status, x.reply.header);
    assert x.start <= x.end by { ExchangeTimes(x, s, j, cfg); }
    FloorMonotone(x.start, t);
    FloorBounds(t);
  }

  /**
   What was served unchecked was fresh by the RFC: if nothing about time was misread, it was sent
   before its stale instant, by the unbounded formula, the directives of the list members, and the
   instants at which the origin was asked and answered.
   */
  lemma UncheckedIsFreshByRfc(cfg: Config, states: seq<State>, actions: seq<Action>, i: nat, id: nat)
    requires Behaviour(cfg, states, actions) && i < |states| && id in states[i].answers
    requires var a := states[i].answers[id]; a.FromStore? && a.check.None?
    ensures var s, a := states[i].sys, states[i].answers[id];
      exists j: nat :: ChosenFor(cfg, s.hist, a.at, a.entry, a.r, j) &&
        var x := s.hist[j];
        var h := StoredHeader(x);
        !Misjudged(cfg.dates, h, x.start, a.at) ==> a.at < RfcStaleInstant(cfg.dates, h, x.end, x.start)
  {
    hide Behaviour, Selected, Made, StoredHeader, Judged, Misjudged, RfcStaleInstant, RfcFresh, SysOk, IsFresh,
         AnswerOk, Inv;
    ServeSoundness(cfg, states, actions, i, id);
    RunsKeepInvariant(cfg, states, actions, i);
    InvSys(cfg, states[i]);
    var s, a := states[i].sys, states[i].answers[id];
    var j := UncheckedSource(cfg, s, a);
    var x := s.hist[j];
    var d, t :| Made(cfg, x, d, t, a.entry) && t <= a.at;
    ExchangeTimes(x, s, j, cfg);
    MadeTimes(cfg, x, d, t, a.entry);
    RfcFreshUntilStale(cfg.dates, StoredHeader(x), x.end, x.start, a.at);
    if !Misjudged(cfg.dates, StoredHeader(x), x.start, a.at) {
      FreshMeansRfcFresh(cfg.dates, StoredHeader(x), x.start, x.end, t, a.at);
    }
  }

  lemma UncheckedSource(cfg: Config, s: Sys, a: Answer) returns (j: nat)
    requires AnswerOk(cfg, s, a) && a.FromStore? && a.check.None?
    ensures ChosenFor(cfg, s.hist, a.at, a.entry, a.r, j) && Unconditional(cfg, s.hist[j], a.entry, a.at)
  {
    hide ChosenFor, Unconditional, Judged;
    j :| ChosenFor(cfg, s.hist, a.at, a.entry, a.r, j) && Unconditional(cfg, s.hist[j], a.entry, a.at);
  }

  lemma MadeTimes(cfg: Config, x: Exchange, d: int, t: int, e: CacheEntry)
    requires Made(cfg, x, d, t, e)
    ensures x.end <= t && e.requestedAt == Floor(x.start) && e.receivedAt == Floor(t)
  {
    hide Storable, WriteKey, GetExpiration, Head, Floor;
  }

  lemma ExchangeTimes(x: Exchange, s: Sys, j: nat, cfg: Config)
    requires SysOk(cfg, s) && j < |s.hist| && x == s.hist[j]
    ensures x.start <= x.end
  {
    hide WellFormedRequest, Replayable, Backed;
    assert ExchangeOk(s.hist[j]);
  }

  /** A client has exactly one answer or exactly one job that will give it one; an answer never changes. */
  lemma ExactlyOneAnswer(cfg: Config, states: seq<State>, actions: seq<Action>, i: nat, id: nat)
    requires Behaviour(cfg, states, actions) && i < |states| && id in states[i].clients
    ensures var p := states[i];
      && id in p.threads
      && (id in p.answers <==> NoneServing(p.threads[id]))
      && (id !in p.answers ==> p.threads[id] != [] && Serving(p.threads[id][0]) && NoneServing(p.threads[id][1..]))
    ensures id in states[i].answers && i < |actions| ==>
      id in states[i + 1].answers && states[i + 1].answers[id] == states[i].answers[id]
  {
    hide AnswerOk, JobOk, SysOk, RunJob, Enabled, Serving;
    RunsKeepInvariant(cfg, states, actions, i);
    var p := states[i];
    assert Shape(p, id);
    if p.threads[id] != [] {
      assert p.threads[id] == [p.threads[id][0]] + p.threads[id][1..];
    }
    if i < |actions| { assert Steps(cfg, states[i], actions[i], states[i + 1]); }
    if id in p.answers && i < |actions| && actions[i].Move? { AnsweredStays(cfg, p, actions[i], id); }
  }

  lemma AnsweredStays(cfg: Config, p: State, a: Action, id: nat)
    requires Inv(cfg, p) && Enabled(cfg, p, a) && a.Move? && id in p.answers
    ensures var q := Next(cfg, p, a); id in q.answers && q.answers[id] == p.answers[id]
  {
    hide SysOk, AnswerOk, JobOk, RunJob, ChoiceOk;
    if a.id == id {
      assert Shape(p, id);
      InvSys(cfg, p);
      JobsOfThread(cfg, p, id);
      RunJobOk(cfg, p.sys, p.threads[id][0], a.choice);
    }
  }

  /* What single steps of a run do to the store and to the clock's due entries. */

  /** A goroutine that stores writes the reply exactly when it has any field and may legitimately be stored. */
  lemma StoreStepIff(cfg: Config, p: State, id: nat, choice: Choice)
    requires Inv(cfg, p) && Enabled(cfg, p, Move(id, choice)) && p.threads[id][0].StoreReply?
    ensures p.threads[id][0].i < |p.sys.hist|
    ensures var x, q := p.sys.hist[p.threads[id][0].i], Next(cfg, p, Move(id, choice));
      var k := WriteKey(cfg, x.request, x.reply.header);
      if x.reply.header != map[] && StoredLegitimately(x.request, x.reply.status, x.reply.header)
      then
        && k in q.sys.store && q.sys.store == p.sys.store[k := q.sys.store[k]]
        && Made(cfg, x, choice.decided, p.sys.now, q.sys.store[k])
      else q.sys.store == p.sys.store
  {
    hide Inv, SysOk, WriteKey, StoredLegitimately, Made, ReadEntry, U.KeepAt, RecordingOf, StoredHeader, ExchangeOk,
         Storable;
    JobsOfThread(cfg, p, id);
    InvSys(cfg, p);
    U.OriginIsId(cfg, p.sys);
    U.HistoryIsPast(cfg, p.sys, p.threads[id][0].i);
    U.KeepStoresIff(cfg, p.sys, p.sys.hist[p.threads[id][0].i], choice.decided);
  }

  /** The lifetime of the exchange's response, counted from `decided`, ends within a second. */
  predicate EndsWithinASecond(cfg: Config, x: Exchange, decided: int, now: int) {
    var ttl := FreshnessLifetime(cfg.dates, x.reply.header, decided);
    ttl != 0 && 1_000_000_000 <= decided + ttl <= now + 1_000_000_000
  }

  ghost predicate SomeIsDue(cfg: Config, s: Sys) {
    exists oldest :: R.Oldest(s.store, MethodPrefix(cfg.origin, "GET"), oldest) && R.Due(s, oldest)
  }

  /** In every run, a GET entry whose lifetime ends within a second makes some oldest entry due. */
  lemma EntriesFallDue(cfg: Config, states: seq<State>, actions: seq<Action>, i: nat, key: string)
    requires Behaviour(cfg, states, actions) && i < |states|
    requires key in states[i].sys.store && MethodPrefix(cfg.origin, "GET") <= key
    ensures var s := states[i].sys;
      exists j: nat, d, t :: j < |s.hist| && Made(cfg, s.hist[j], d, t, s.store[key]) && t <= s.now &&
        (EndsWithinASecond(cfg, s.hist[j], d, s.now) ==> SomeIsDue(cfg, s))
  {
    hide Behaviour, Inv, Made, FreshnessLifetime, MethodPrefix, R.Oldest, R.Due, SysOk;
    RunsKeepInvariant(cfg, states, actions, i);
    InvSys(cfg, states[i]);
    var s := states[i].sys;
    EntryIsBacked(cfg, s, key);
    var j: nat, d, t :| j < |s.hist| && Made(cfg, s.hist[j], d, t, s.store[key]) && t <= s.now;
    EntryTimes(cfg, s.hist[j], d, t, s.store[key]);
    R.SleepsOnlyWhenNothingIsDue(cfg, s);
  }

  /** And whichever oldest due entry the updater takes, it asks the origin for it at once. */
  lemma UpdaterTakesDue(cfg: Config, states: seq<State>, actions: seq<Action>, i: nat, choice: Choice)
    requires Behaviour(cfg, states, actions) && i < |states|
    requires R.Oldest(states[i].sys.store, MethodPrefix(cfg.origin, "GET"), choice.key)
    requires R.Due(states[i].sys, choice.key)
    ensures DecodeKey(cfg.origin, choice.key).Ok?
    ensures var s, r := states[i].sys, DecodeKey(cfg.origin, choice.key).request;
      RunJob(cfg, s, Poll, choice) == Effect(s, [AwaitSave(r, s.now, Updater(choice.key, false)), Poll], [], None)
  {
    hide Behaviour, Inv, MethodPrefix, R.Oldest, R.Due, SysOk, DecodeKey, RunJob, WellFormedRequest;
    RunsKeepInvariant(cfg, states, actions, i);
    InvSys(cfg, states[i]);
    OldestIsStored(states[i].sys.store, MethodPrefix(cfg.origin, "GET"), choice.key);
    U.StoredKeyDecodes(cfg, states[i].sys, choice.key);
    PollTakes(cfg, states[i].sys, choice);
  }

  lemma EntryIsBacked(cfg: Config, s: Sys, key: string)
    requires SysOk(cfg, s) && key in s.store
    ensures exists j: nat, d, t :: j < |s.hist| && Made(cfg, s.hist[j], d, t, s.store[key]) && t <= s.now
  {
    hide Made, ExchangeOk;
    assert Backed(cfg, s.hist, 0, s.now, s.store[key]);
  }

  lemma OldestIsStored(store: Store, prefix: string, key: string)
    requires R.Oldest(store, prefix, key)
    ensures key in store
  {}

  lemma PollTakes(cfg: Config, s: Sys, choice: Choice)
    requires R.Oldest(s.store, MethodPrefix(cfg.origin, "GET"), choice.key) && R.Due(s, choice.key)
    requires DecodeKey(cfg.origin, choice.key).Ok?
    ensures var r := DecodeKey(cfg.origin, choice.key).request;
      RunJob(cfg, s, Poll, choice) == Effect(s, [AwaitSave(r, s.now, Updater(choice.key, false)), Poll], [], None)
  {
    hide R.Oldest, R.Due, DecodeKey;
  }

  /** A key that does not decode is removed. */
  lemma PollRemovesUndecodable(cfg: Config, s: Sys, choice: Choice)
    requires R.Oldest(s.store, MethodPrefix(cfg.origin, "GET"), choice.key) && R.Due(s, choice.key)
    requires DecodeKey(cfg.origin, choice.key).Err?
    ensures RunJob(cfg, s, Poll, choice) == Effect(s, [Remove(choice.key), Poll], [], None)
    ensures RunJob(cfg, s, Remove(choice.key), choice).sys.store == s.store - {choice.key}
  {
    hide R.Oldest, R.Due, DecodeKey;
  }

  /* What the steps leave open. */

  /** A waiting job may be answered by any reply net/http delivers, and a goroutine may decide at any time it has. */
  lemma ChoicesAreFree(cfg: Config, p: State, id: nat, choice: Choice)
    requires Inv(cfg, p) && id in p.threads && p.threads[id] != []
    requires var job := p.threads[id][0];
      && (AsksOrigin(job) ==>
            Replayable(AskedOf(job).verb, choice.reply.status, choice.reply.header, choice.reply.Body()))
      && (job.StoreReply? && job.i < |p.sys.hist| ==> p.sys.hist[job.i].end <= choice.decided <= p.sys.now)
    ensures Enabled(cfg, p, Move(id, choice))
  {
    hide Inv, Replayable, JobOk;
    JobsOfThread(cfg, p, id);
  }

  /** Any request may arrive at any time, and sees what is stored for it in any order. */
  lemma ArrivalsAreFree(cfg: Config, p: State, r: Request, todo: seq<CacheEntry>)
    requires IsToken(r.verb) && ValidUri(r.uri) && WellFormed(r.header)
    requires forall i :: 0 <= i < |todo| ==>
      todo[i].key in p.sys.store && p.sys.store[todo[i].key] == todo[i] && Offered(cfg, r, todo[i].key)
    requires forall k :: k in p.sys.store && Offered(cfg, r, k) ==> p.sys.store[k] in todo
    requires forall i, j :: 0 <= i < j < |todo| ==> todo[i].key != todo[j].key
    ensures Enabled(cfg, p, Arrive(r, todo))
  {
    hide IsToken, ValidUri, WellFormed, Offered;
  }
}
