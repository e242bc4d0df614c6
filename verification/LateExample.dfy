/**
 One run in which a goroutine stores late: a client is served a response older than a write that was
 answered and followed up before the client came.
 */
module LateExample {
  import opened Text
  import opened Http
  import opened CacheKey
  import opened Freshness
  import opened StoreGate
  import opened Wire
  import opened System
  import opened Protocol
  import opened Sequential
  import opened Overlap
  import opened Example
  import CC = CacheControl
  import Selection
  import U = Updates
  import Y = ReadYourWrites

  const UPDATE: Header := map["Cache-Update" := ["/"]]
  const NEWER := Reply(200, FIELDS, ["world"])
  const WRITTEN := Reply(200, UPDATE, [])

  function Write(): Request { Request("DELETE", "/x", map[]) }

  /** The origin answers every GET anew, and every other request asks for an update of "/"; each takes a second. */
  function World(): U.Env {
    U.Env((n: nat, r: Request) => if r.verb == "GET" then NEWER else WRITTEN, (n: nat) => SECOND)
  }

  predicate UpdateSetting(cfg: Config) {
    Setting(cfg) && cfg.resolvePath("/x", "/") == "/" && cfg.delayOf("/") == 0
  }

  lemma UpdateIsHeader()
    ensures WellFormed(UPDATE) && Values(UPDATE, "Cache-Update") == ["/"]
    ensures Values(UPDATE, "Location") == [] && Values(UPDATE, "Content-Location") == []
    ensures CC.HeaderDirectives(UPDATE) == map[]
  {
    assert CanonicalName("Cache-Update") == "Cache-Update" && IsToken("Cache-Update") && IsFieldValue("/");
    assert |CanonicalName("Location")| == 8 && |CanonicalName("Content-Location")| == 16;
    assert |CanonicalName("Cache-Control")| == 13 && |"Cache-Update"| == 12;
    CC.NothingCollected();
  }

  lemma WorldIsOk()
    ensures U.EnvOk(World())
  {
    hide WellFormed, WellFormedRequest, UPDATE, FIELDS;
    NewerIsReplayable();
    forall verb: string ensures Replayable(verb, 200, UPDATE, WRITTEN.Body()) { WrittenIsReplayable(verb); }
  }

  lemma NewerIsReplayable()
    ensures Replayable("GET", 200, FIELDS, NEWER.Body())
  {
    hide WellFormed;
    FieldsRead();
    assert NEWER.Body() == "world" by { assert NEWER.chunks[..0] == []; }
    assert |"Transfer-Encoding"| == 17 && |"Content-Length"| == 14 && |"Date"| == 4 && |"Expires"| == 7;
  }

  lemma WrittenIsReplayable(verb: string)
    ensures Replayable(verb, 200, UPDATE, WRITTEN.Body())
  {
    hide WellFormed;
    UpdateIsHeader();
    assert |"Transfer-Encoding"| == 17 && |"Content-Length"| == 14 && |"Cache-Update"| == 12;
  }

  lemma WriteIsRequest()
    ensures WellFormedRequest(Write())
  {
    assert IsToken("DELETE");
  }

  /* What the write leads to. */

  function WriteExchange(): Exchange { Exchange(Write(), WRITTEN, 0, SECOND) }
  function UpdateExchange(): Exchange { Exchange(Ask(), NEWER, SECOND, 2 * SECOND) }

  function NewerEntry(cfg: Config): CacheEntry {
    Kept(MakeEntry(cfg, Ask(), RecordingOf(UpdateExchange()), 2 * SECOND, 2 * SECOND))
  }

  function Followed(cfg: Config): Sys {
    Sys(map[NewerEntry(cfg).key := NewerEntry(cfg)], 2 * SECOND, [First(), WriteExchange(), UpdateExchange()])
  }

  lemma WriteIsNotStored()
    ensures !Storable(Write(), 200, UPDATE)
  {
    hide CC.HeaderDirectives, Get, UPDATE;
    UpdateIsHeader();
  }

  lemma WriteLists(cfg: Config)
    requires UpdateSetting(cfg)
    ensures U.InvalidateUris(cfg, Write(), 200, UPDATE) == ["/x"]
    ensures U.CacheUpdates(cfg, Write(), UPDATE) == [U.CacheUpdate("/", 0)]
  {
    hide Values, UPDATE, Index;
    UpdateIsHeader();
    var none: seq<string> := [];
    assert ["/"][..0] == none && none + none == none;
    assert U.UpdatesOf(cfg, Write(), none) == [] && U.RequestUris(cfg, none) == [];
    assert Before("/", ";") == "/" by { SplitNone("/", ';'); }
  }

  lemma UpdateIsSaved(cfg: Config)
    ensures var clean := Sys(map[], SECOND, [First(), WriteExchange()]);
      U.SaveRequest(cfg, World(), clean, Ask()) == Followed(cfg)
  {
    hide Storable, U.KeepAt, RecordingOf, FIELDS, UPDATE, First, Ask, WriteExchange, Followed;
    var clean := Sys(map[], SECOND, [First(), WriteExchange()]);
    AskIs();
    assert U.NextExchange(World(), clean, Ask()) == UpdateExchange();
    var hist := [First(), WriteExchange(), UpdateExchange()];
    assert clean.hist + [UpdateExchange()] == hist;
    assert U.Fetch(World(), clean, Ask()) == Sys(map[], 2 * SECOND, hist);
    UpdateIsKept(cfg, hist);
  }

  lemma UpdateIsKept(cfg: Config, hist: seq<Exchange>)
    requires hist == [First(), WriteExchange(), UpdateExchange()]
    ensures U.KeepAt(cfg, Sys(map[], 2 * SECOND, hist), U.Job(Ask(), RecordingOf(UpdateExchange())), 2 * SECOND)
         == Followed(cfg)
  {
    hide Storable, WriteKey, GetExpiration, Head, FIELDS, UPDATE, First, Ask, ExchangeOk, WriteExchange;
    FirstIsExchange();
  }

  lemma AskIs()
    ensures Ask().verb == "GET" && Ask().uri == "/" && Ask() == U.Plain("/")
  {}

  lemma WriteIsFollowed(cfg: Config)
    requires UpdateSetting(cfg)
    ensures U.Handle(cfg, World(), Asked(), Write(), []) == Followed(cfg)
  {
    hide Storable, WriteKey, GetExpiration, Head, FIELDS, UPDATE, First, U.InvalidateUris, U.CacheUpdates,
         U.SaveRequest, U.PlainKey;
    WriteIsNotStored();
    WriteLists(cfg);
    UpdateIsSaved(cfg);
    AskIs();
    var clean := Sys(map[], SECOND, [First(), WriteExchange()]);
    assert U.NextExchange(World(), Asked(), Write()) == WriteExchange();
    assert [First()] + [WriteExchange()] == clean.hist;
    InvalidatesNothing(cfg, clean);
    UpdatesOne(cfg, clean);
  }

  lemma InvalidatesNothing(cfg: Config, s: Sys)
    requires s.store == map[]
    ensures U.Invalidate(cfg, s, ["/x"]) == s
  {
    hide U.PlainKey, ValidUri;
    assert ["/x"][1..] == [];
    assert s.store - {U.PlainKey(cfg, "/x")} == s.store;
  }

  lemma UpdatesOne(cfg: Config, s: Sys)
    ensures U.SaveUpdates(cfg, World(), s, [U.CacheUpdate("/", 0)]) == U.SaveRequest(cfg, World(), s, U.Plain("/"))
  {
    hide U.SaveRequest;
    var none: seq<U.CacheUpdate> := [];
    assert [U.CacheUpdate("/", 0)][1..] == none;
    assert ValidUri("/");
  }

  /* The late store. */

  /** The entry of the first exchange, stored two seconds late. */
  function LateEntry(cfg: Config): CacheEntry {
    Kept(MakeEntry(cfg, Ask(), RecordingOf(First()), 2 * SECOND, 2 * SECOND))
  }

  function Overwritten(cfg: Config): Sys { Followed(cfg).(store := map[LateEntry(cfg).key := LateEntry(cfg)]) }

  lemma LateIsStored(cfg: Config)
    ensures LateEntry(cfg).key == NewerEntry(cfg).key
    ensures U.KeepAt(cfg, Followed(cfg), U.Job(First().request, RecordingOf(First())), 2 * SECOND) == Overwritten(cfg)
    ensures MadeFrom(cfg, First(), LateEntry(cfg))
  {
    hide Storable, WriteKey, GetExpiration, Head, FIELDS, Ask, ExchangeOk;
    FirstIsExchange();
    assert Made(cfg, First(), 2 * SECOND, 2 * SECOND, LateEntry(cfg));
  }

  lemma LateIsServed(cfg: Config)
    requires Setting(cfg)
    ensures Decide(cfg, Ask(), LateEntry(cfg), 2 * SECOND) == Reuse
    ensures Lists(cfg, Overwritten(cfg).store, Ask(), [LateEntry(cfg)])
  {
    hide ExchangeOk, Decide, CC.HeaderDirectives, WriteKey, WellFormedRequest, Selected, VaryList, GetExpiration,
         FixPragma, Storable, IsFresh, FIELDS, Head, Offered;
    FirstIsExchange();
    FieldsRead();
    U.PlainIsWellFormed("/");
    Selection.OwnRequestSelects(First());
    OwnEntryIsOffered(cfg);
    FreshForAMinute(cfg, 2 * SECOND, 2 * SECOND);
    assert Floor(2 * SECOND) == 2 * SECOND && Floor(0) == 0;
    DecideIff(cfg, Ask(), First(), 2 * SECOND, 2 * SECOND, LateEntry(cfg), 2 * SECOND);
  }

  lemma LateEffect(cfg: Config)
    ensures var choice := ANY.(decided := 2 * SECOND);
      && ChoiceOk(Followed(cfg), StoreReply(0, Background), choice)
      && RunJob(cfg, Followed(cfg), StoreReply(0, Background), choice) == Effect(Overwritten(cfg), [], [], None)
  {
    hide Storable, WriteKey, GetExpiration, Head, FIELDS, Ask, U.KeepAt, RecordingOf;
    LateIsStored(cfg);
  }

  /** The run up to the write: the first client is answered, and the goroutine that stores has not begun. */
  lemma FirstSteps(cfg: Config)
    requires Setting(cfg)
    ensures var actions := [Arrive(Ask(), [])] + [Move(1, CHOICE)] + [Move(1, CHOICE)];
      RunsTo(cfg, S0(), actions, S3()) && Inv(cfg, S3())
  {
    hide Enabled, Next, RunsTo, S0, S1, S2, S3, CHOICE, Ask, Inv, Init;
    ArriveStep(cfg);
    MissStep(cfg);
    ReplyStep(cfg);
    RunsOne(cfg, S0(), Arrive(Ask(), []), S1());
    RunsOne(cfg, S1(), Move(1, CHOICE), S2());
    RunsOne(cfg, S2(), Move(1, CHOICE), S3());
    RunsCompose(cfg, S0(), [Arrive(Ask(), [])], S1(), [Move(1, CHOICE)], S2());
    RunsCompose(cfg, S0(), [Arrive(Ask(), [])] + [Move(1, CHOICE)], S2(), [Move(1, CHOICE)], S3());
    InitHasInvariant(cfg, S0());
    RunsToKeepsInvariant(cfg, S0(), [Arrive(Ask(), [])] + [Move(1, CHOICE)] + [Move(1, CHOICE)], S3());
  }

  /**
   A run from the empty cache: a GET is answered at 0, and its goroutine waits; a write is answered at
   one second and its update of "/" is stored at two; then the goroutine stores; and the next client
   is served, without contact with the origin, what was asked for before the write.
   */
  lemma OlderThanTheWrite(cfg: Config) returns (actions: seq<Action>, q: State, client: nat)
    requires UpdateSetting(cfg)
    ensures Init(cfg, S0()) && RunsTo(cfg, S0(), actions, q)
    ensures q.sys.hist == [First(), WriteExchange(), UpdateExchange()]
    ensures Y.AsksForUpdate(cfg, Write(), WRITTEN.header, "/") && First().end < WriteExchange().end
    ensures client in q.answers && q.answers[client] == FromStore(Ask(), LateEntry(cfg), 2 * SECOND, None)
    ensures MadeFrom(cfg, First(), LateEntry(cfg))
  {
    hide RunsTo, Inv, U.EnvOk, Enabled, Next, RunJob, ChoiceOk, Followed, Overwritten, LateEntry, First, Ask, UPDATE,
         WellFormedRequest, CHOICE, ANY, Init, S0, At, UpdateExchange, WriteExchange, World, Lists;
    FirstSteps(cfg);
    ArriveStep(cfg);
    actions := [Arrive(Ask(), [])] + [Move(1, CHOICE)] + [Move(1, CHOICE)];
    WorldIsOk();
    WriteIsRequest();
    NothingListed(cfg);
    var write, m := HandleRuns(cfg, World(), S3(), Write(), []);
    WriteIsFollowed(cfg);
    RunsCompose(cfg, S0(), actions, S3(), write, m);
    actions := actions + write;
    RunsToKeepsInvariant(cfg, S3(), write, m);
    var rest: seq<Action>;
    rest, q := LateSteps(cfg, m);
    RunsCompose(cfg, S0(), actions, m, rest, q);
    actions, client := actions + rest, m.next;
    AsksForRoot(cfg);
    LateIsStored(cfg);
    FollowedIs(cfg);
  }

  lemma NothingListed(cfg: Config)
    ensures S3().sys == Asked() && Lists(cfg, S3().sys.store, Write(), [])
    ensures 2 in S3().threads && S3().threads[2] == FollowJobs(0)
  {
    hide Offered, First;
  }

  lemma FollowedIs(cfg: Config)
    ensures Followed(cfg).hist == [First(), WriteExchange(), UpdateExchange()]
    ensures First().end < WriteExchange().end
    ensures Overwritten(cfg).hist == Followed(cfg).hist && Overwritten(cfg).now == 2 * SECOND == Followed(cfg).now
  {
    hide NewerEntry, LateEntry;
  }

  lemma AsksForRoot(cfg: Config)
    requires UpdateSetting(cfg)
    ensures Y.AsksForUpdate(cfg, Write(), WRITTEN.header, "/")
  {
    hide UPDATE, U.CacheUpdates;
    WriteLists(cfg);
    Y.AskedUpdateIsListed(cfg, Write(), UPDATE, "/", 0);
  }

  lemma LateSteps(cfg: Config, m: State) returns (actions: seq<Action>, q: State)
    requires UpdateSetting(cfg) && Inv(cfg, m) && m.sys == Followed(cfg)
    requires 2 in m.threads && m.threads[2] == FollowJobs(0)
    ensures RunsTo(cfg, m, actions, q) && q.sys == Overwritten(cfg)
    ensures m.next in q.answers && q.answers[m.next] == FromStore(Ask(), LateEntry(cfg), 2 * SECOND, None)
  {
    hide RunsTo, Inv, Enabled, RunJob, ChoiceOk, Followed, Overwritten, LateEntry, First, Ask, UPDATE,
         WellFormedRequest, CHOICE, ANY, Lists, PlanFor, Decide;
    var choice := ANY.(decided := 2 * SECOND);
    LateEffect(cfg);
    AtSelf(m, 2, FollowJobs(0));
    assert FollowJobs(0) == [StoreReply(0, Background)] + [Follow(0)] && [] + [Follow(0)] == [Follow(0)];
    Moves(cfg, m, 2, Followed(cfg), StoreReply(0, Background), [Follow(0)], choice, Overwritten(cfg), []);
    var late := At(m, 2, Overwritten(cfg), [Follow(0)]);
    var arrive := Arrive(Ask(), [LateEntry(cfg)]);
    LateIsServed(cfg);
    FollowedIs(cfg);
    U.PlainIsWellFormed("/");
    AskIs();
    var id := late.next;
    var base := late.(clients := late.clients + {id}, next := id + 1);
    EnabledArrival(cfg, late, Ask(), [LateEntry(cfg)]);
    RunsOne(cfg, late, arrive, At(base, id, late.sys, [Choose(Ask(), [LateEntry(cfg)])]));
    var choose := ChooseRuns(cfg, base, id, late.sys, Ask(), [LateEntry(cfg)]);
    PlanOfReuse(cfg, Ask(), LateEntry(cfg), 2 * SECOND);
    q := At(Answered(base, id, Some(FromStore(Ask(), LateEntry(cfg), 2 * SECOND, None))), id, late.sys, []);
    RunsCompose(cfg, m, [Move(2, choice)], late, [arrive], At(base, id, late.sys, [Choose(Ask(), [LateEntry(cfg)])]));
    RunsCompose(cfg, m, [Move(2, choice)] + [arrive], At(base, id, late.sys, [Choose(Ask(), [LateEntry(cfg)])]),
                choose, q);
    actions := [Move(2, choice)] + [arrive] + choose;
  }

  lemma EnabledArrival(cfg: Config, p: State, r: Request, todo: seq<CacheEntry>)
    requires WellFormedRequest(r) && Lists(cfg, p.sys.store, r, todo)
    ensures Enabled(cfg, p, Arrive(r, todo))
  {
    hide WellFormedRequest, Lists;
  }

  lemma PlanOfReuse(cfg: Config, r: Request, e: CacheEntry, now: int)
    requires Decide(cfg, r, e, now) == Reuse
    ensures PlanFor(cfg, r, [e], now) == Serve(e)
  {
    hide Decide;
  }
}
