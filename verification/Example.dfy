/**
 One run of the protocol from the empty cache, in which the second request is a hit; and requests
 that are answered from the store although they should not be.
 */
module Example {
  import opened Text
  import opened Http
  import opened CacheKey
  import opened Freshness
  import opened StoreGate
  import opened Wire
  import opened System
  import opened Protocol
  import Selection
  import U = Updates
  import CC = CacheControl

  const FIELDS: Header := map["Date" := ["D"], "Expires" := ["E"]]
  const GREETING := Reply(200, FIELDS, ["hello"])

  /** Updates are off, and the two dates lie a minute apart. */
  predicate Setting(cfg: Config) {
    && OriginId(cfg.origin) && !cfg.updating
    && cfg.dates("D") == Some(0) && cfg.dates("E") == Some(60 * SECOND)
  }

  function Ask(): Request { U.Plain("/") }

  function First(): Exchange { Exchange(Ask(), GREETING, 0, 0) }

  function Entry(cfg: Config): CacheEntry {
    Kept(MakeEntry(cfg, Ask(), RecordingOf(First()), 0, 0))
  }

  lemma DateIsCanonical()
    ensures CanonicalName("Date") == "Date" && IsToken("Date") && IsFieldValue("D")
  {}

  lemma ExpiresIsCanonical()
    ensures CanonicalName("Expires") == "Expires" && IsToken("Expires") && IsFieldValue("E")
  {}

  lemma OtherNames()
    ensures CanonicalName("Vary") == "Vary" && CanonicalName("Age") == "Age"
  {}

  lemma FieldsRead()
    ensures WellFormed(FIELDS) && FixPragma(FIELDS) == FIELDS
    ensures Get(FIELDS, "Date") == "D" && Get(FIELDS, "Expires") == "E" && Get(FIELDS, "Age") == ""
    ensures CC.HeaderDirectives(FIELDS) == map[] && VaryList(FIELDS) == []
  {
    hide CanonicalName, IsToken, IsFieldValue;
    DateIsCanonical();
    ExpiresIsCanonical();
    OtherNames();
    CacheControlIsCanonical();
    assert |"Cache-Control"| == 13 && "Age"[0] == 'A' && "Vary"[0] == 'V' && "Pragma"[0] == 'P' && "Date"[0] == 'D';
    CC.NothingCollected();
  }

  lemma FirstIsExchange()
    ensures ExchangeOk(First()) && Storable(Ask(), 200, FIELDS)
  {
    hide WellFormed, CC.HeaderDirectives, CanonicalName;
    FieldsRead();
    U.PlainIsWellFormed("/");
    assert GREETING.Body() == "hello" by { assert GREETING.chunks[..0] == []; }
    assert |"Transfer-Encoding"| == 17 && |"Content-Length"| == 14 && |"Date"| == 4 && |"Expires"| == 7;
  }

  /** The entry made from the first exchange is fresh at once, and its own request may be served it. */
  lemma EntryIsReused(cfg: Config)
    requires Setting(cfg)
    ensures Made(cfg, First(), 0, 0, Entry(cfg))
    ensures Decide(cfg, Ask(), Entry(cfg), 0) == Reuse
  {
    hide ExchangeOk, Decide, CC.HeaderDirectives, WriteKey, WellFormedRequest, Selected, VaryList, GetExpiration,
         FixPragma, Storable, IsFresh, FIELDS, Head, Offered;
    FirstIsExchange();
    FieldsRead();
    U.PlainIsWellFormed("/");
    Selection.OwnRequestSelects(First());
    OwnEntryIsOffered(cfg);
    FreshForAMinute(cfg, 0, 0);
    assert Floor(0) == 0;
    DecideIff(cfg, Ask(), First(), 0, 0, Entry(cfg), 0);
  }

  lemma FreshForAMinute(cfg: Config, received: int, now: int)
    requires Setting(cfg) && 0 <= received <= now <= 100 * SECOND
    ensures IsFresh(cfg.dates, FIELDS, received, 0, now) <==> now < 60 * SECOND
  {
    hide CC.HeaderDirectives, Get, FIELDS, DeltaSeconds, Index, FreshnessLifetime, AgeValue;
    FieldsRead();
    MinuteLifetime(cfg.dates, FIELDS, now);
    NoAge(FIELDS);
  }

  lemma MinuteLifetime(dates: DateParser, h: Header, now: int)
    requires "s-maxage" !in CC.HeaderDirectives(h) && "max-age" !in CC.HeaderDirectives(h)
    requires dates(Get(h, "Date")) == Some(0) && dates(Get(h, "Expires")) == Some(60 * SECOND)
    ensures FreshnessLifetime(dates, h, now) == 60 * SECOND
  {
    hide CC.HeaderDirectives, Get, DeltaSeconds;
  }

  lemma NoAge(h: Header)
    requires Get(h, "Age") == ""
    ensures AgeValue(h) == 0
  {
    hide Get, Index, DeltaSeconds;
  }

  lemma OwnEntryIsOffered(cfg: Config)
    requires OriginId(cfg.origin)
    ensures Offered(cfg, Ask(), Entry(cfg).key)
  {
    hide GetExpiration, KeyPrefix, FieldLines, Nominated;
  }

  /* The states of the run. */

  const IDLE: map<nat, Thread> := map[0 := []]

  function Empty(): Sys { Sys(map[], 0, []) }
  function Asked(): Sys { Sys(map[], 0, [First()]) }
  function Full(cfg: Config): Sys { Sys(map[Entry(cfg).key := Entry(cfg)], 0, [First()]) }

  function S0(): State { State(Empty(), IDLE, {}, 1, map[]) }
  function S1(): State { State(Empty(), IDLE[1 := [Choose(Ask(), [])]], {1}, 2, map[]) }
  function S2(): State { State(Empty(), IDLE[1 := [AwaitProxy(Ask(), 0)]], {1}, 2, map[]) }
  function S3(): State {
    State(Asked(), IDLE[1 := []][2 := FollowJobs(0)], {1}, 3, map[1 := FromOrigin(Ask(), 0)])
  }
  function S4(cfg: Config): State {
    State(Full(cfg), IDLE[1 := []][2 := [Follow(0)]], {1}, 3, map[1 := FromOrigin(Ask(), 0)])
  }
  function S5(cfg: Config): State {
    S4(cfg).(threads := IDLE[1 := []][2 := [Follow(0)]][3 := [Choose(Ask(), [Entry(cfg)])]],
             clients := {1, 3}, next := 4)
  }
  function S6(cfg: Config): State {
    S5(cfg).(threads := IDLE[1 := []][2 := [Follow(0)]][3 := []],
             answers := map[1 := FromOrigin(Ask(), 0), 3 := FromStore(Ask(), Entry(cfg), 0, None)])
  }

  const CHOICE := Choice(GREETING, 0, "")

  function Run(cfg: Config): seq<State> { [S0(), S1(), S2(), S3(), S4(cfg), S5(cfg), S6(cfg)] }

  function Actions(cfg: Config): seq<Action> {
    [Arrive(Ask(), []), Move(1, CHOICE), Move(1, CHOICE), Move(2, CHOICE), Arrive(Ask(), [Entry(cfg)]), Move(3, CHOICE)]
  }

  lemma ArriveStep(cfg: Config)
    requires Setting(cfg)
    ensures Init(cfg, S0()) && Steps(cfg, S0(), Arrive(Ask(), []), S1())
  {
    hide WellFormedRequest, KeyPrefix, FIELDS;
    U.PlainIsWellFormed("/");
    assert {} + {1} == {1};
  }

  lemma MissStep(cfg: Config)
    ensures Steps(cfg, S1(), Move(1, CHOICE), S2())
  {
    hide WellFormedRequest, Ask;
    var job := S1().threads[1][0];
    assert RunJob(cfg, S1().sys, job, CHOICE) == Effect(Empty(), [AwaitProxy(Ask(), 0)], [], None);
    assert [AwaitProxy(Ask(), 0)] + S1().threads[1][1..] == [AwaitProxy(Ask(), 0)];
    assert IDLE[1 := [Choose(Ask(), [])]][1 := [AwaitProxy(Ask(), 0)]] == S2().threads;
  }

  /** A step of a thread with one job, whose effect is known. */
  lemma StepWithEffect(cfg: Config, p: State, id: nat, job: Job, e: Effect, q: State)
    requires id in p.threads && p.threads[id] == [job] && ChoiceOk(p.sys, job, CHOICE)
    requires RunJob(cfg, p.sys, job, CHOICE) == e && q == AfterEffect(p, id, [], e)
    ensures Steps(cfg, p, Move(id, CHOICE), q)
  {
    hide RunJob, ChoiceOk, AfterEffect, CHOICE;
    assert p.threads[id][1..] == [];
  }

  lemma ProxyEffect(cfg: Config)
    ensures ChoiceOk(Empty(), AwaitProxy(Ask(), 0), CHOICE)
    ensures RunJob(cfg, Empty(), AwaitProxy(Ask(), 0), CHOICE)
         == Effect(Asked(), [], FollowJobs(0), Some(FromOrigin(Ask(), 0)))
  {
    hide WellFormedRequest, Replayable, Ask, FIELDS, RunFollow, RunStore, RunPoll, RunVisit, RunChoose, U.Purge,
         ValidUri;
    FirstIsExchange();
    assert [] + [First()] == [First()];
  }

  lemma ReplyStep(cfg: Config)
    ensures Steps(cfg, S2(), Move(1, CHOICE), S3())
  {
    hide RunJob, ChoiceOk, CHOICE, Empty, Asked, Ask;
    ProxyEffect(cfg);
    var e := Effect(Asked(), [], FollowJobs(0), Some(FromOrigin(Ask(), 0)));
    assert S3() == AfterEffect(S2(), 1, [], e) by {
      assert e.jobs + [] == [];
      assert S2().threads[1 := []][2 := FollowJobs(0)] == S3().threads;
    }
    StepWithEffect(cfg, S2(), 1, AwaitProxy(Ask(), 0), e, S3());
  }

  lemma StoreStep(cfg: Config)
    ensures Steps(cfg, S3(), Move(2, CHOICE), S4(cfg))
  {
    hide WellFormedRequest, Storable, WriteKey, GetExpiration, Head, FIELDS, Ask, U.KeepAt;
    var job := S3().threads[2][0];
    assert job == StoreReply(0, Background) && S3().threads[2][1..] == [Follow(0)];
    FirstIsStored(cfg);
    assert RunJob(cfg, Asked(), job, CHOICE) == Effect(Full(cfg), [], [], None);
    assert [] + [Follow(0)] == [Follow(0)];
    assert S3().threads[2 := [Follow(0)]] == S4(cfg).threads;
  }

  lemma FirstIsStored(cfg: Config)
    ensures U.KeepAt(cfg, Asked(), U.Job(First().request, RecordingOf(First())), 0) == Full(cfg)
  {
    hide WellFormedRequest, Storable, WriteKey, GetExpiration, Head, FIELDS, Ask, ExchangeOk;
    FirstIsExchange();
  }

  lemma ReturnStep(cfg: Config)
    requires Setting(cfg)
    ensures Steps(cfg, S4(cfg), Arrive(Ask(), [Entry(cfg)]), S5(cfg))
  {
    hide Entry, First, WellFormedRequest, KeyPrefix, Offered, FIELDS;
    U.PlainIsWellFormed("/");
    OwnEntryIsOffered(cfg);
    assert {1} + {3} == {1, 3};
  }

  lemma HitStep(cfg: Config)
    requires Setting(cfg)
    ensures Steps(cfg, S5(cfg), Move(3, CHOICE), S6(cfg))
  {
    hide RunJob, ChoiceOk, CHOICE, Full, Ask, Entry;
    HitEffect(cfg);
    var answer := FromStore(Ask(), Entry(cfg), 0, None);
    var e := Effect(Full(cfg), [], [], Some(answer));
    assert S6(cfg) == AfterEffect(S5(cfg), 3, [], e) by {
      assert e.jobs + [] == [];
      assert S5(cfg).threads[3 := []] == S6(cfg).threads;
      assert S5(cfg).answers[3 := answer] == S6(cfg).answers;
    }
    StepWithEffect(cfg, S5(cfg), 3, Choose(Ask(), [Entry(cfg)]), e, S6(cfg));
  }

  lemma HitEffect(cfg: Config)
    requires Setting(cfg)
    ensures ChoiceOk(Full(cfg), Choose(Ask(), [Entry(cfg)]), CHOICE)
    ensures RunJob(cfg, Full(cfg), Choose(Ask(), [Entry(cfg)]), CHOICE)
         == Effect(Full(cfg), [], [], Some(FromStore(Ask(), Entry(cfg), 0, None)))
  {
    hide Entry, First, Ask, Decide, RunJob, ChoiceOk, CHOICE;
    EntryIsReused(cfg);
    ReuseEffect(cfg, Full(cfg), Ask(), Entry(cfg));
  }

  lemma ReuseEffect(cfg: Config, s: Sys, r: Request, e: CacheEntry)
    requires Decide(cfg, r, e, s.now) == Reuse
    ensures ChoiceOk(s, Choose(r, [e]), CHOICE)
    ensures RunJob(cfg, s, Choose(r, [e]), CHOICE) == Effect(s, [], [], Some(FromStore(r, e, s.now, None)))
  {
    hide Decide, CHOICE, Replayable;
  }

  /** The run is a behaviour, and its second client is served the stored response unchecked. */
  lemma HitsHappen(cfg: Config)
    requires Setting(cfg)
    ensures Behaviour(cfg, Run(cfg), Actions(cfg))
    ensures Run(cfg)[6].answers[3] == FromStore(Ask(), Entry(cfg), 0, None)
    ensures Inv(cfg, Run(cfg)[6])
  {
    hide Steps, Init, Inv, Entry, S0, S1, S2, S3, S4, S5, Ask, FIELDS;
    ArriveStep(cfg);
    MissStep(cfg);
    ReplyStep(cfg);
    StoreStep(cfg);
    ReturnStep(cfg);
    HitStep(cfg);
    RunsKeepInvariant(cfg, Run(cfg), Actions(cfg), 6);
  }

  /* A Cache-Key does not isolate. */

  function Keyed(ck: string): Request { Request("GET", "/", map["Cache-Key" := [ck]]) }

  lemma KeyedIsRequest(ck: string)
    requires IsFieldValue(ck)
    ensures WellFormedRequest(Keyed(ck)) && Get(Keyed(ck).header, "Cache-Key") == ck
  {
    assert CanonicalName("Cache-Key") == "Cache-Key" && IsToken("Cache-Key");
  }

  function KeyedExchange(): Exchange { Exchange(Keyed("ab"), GREETING, 0, 0) }

  lemma KeyedIsExchange()
    ensures ExchangeOk(KeyedExchange()) && Storable(Keyed("ab"), 200, FIELDS)
  {
    hide WellFormed, CC.HeaderDirectives, CanonicalName, WellFormedRequest, Get;
    FirstIsExchange();
    FieldsRead();
    KeyedIsRequest("ab");
    NotAuthorized("ab");
  }

  lemma NotAuthorized(ck: string)
    ensures Get(Keyed(ck).header, "Authorization") == ""
  {
    assert |CanonicalName("Authorization")| == 13 && |"Cache-Key"| == 9;
  }

  /** A request with one `Cache-Key` is served, unchecked, a response stored under a longer one. */
  lemma CacheKeyDoesNotIsolate(cfg: Config)
    requires Setting(cfg)
    ensures var e := Kept(MakeEntry(cfg, Keyed("ab"), RecordingOf(KeyedExchange()), 0, 0));
      && Made(cfg, KeyedExchange(), 0, 0, e)
      && Get(Keyed("a").header, "Cache-Key") != Get(Keyed("ab").header, "Cache-Key")
      && Decide(cfg, Keyed("a"), e, 0) == Reuse
  {
    hide ExchangeOk, Decide, CC.HeaderDirectives, WellFormedRequest, VaryList, GetExpiration, FixPragma, Storable,
         IsFresh, FIELDS, Head, Get, FullKey, KeyPrefix;
    KeyedIsExchange();
    FieldsRead();
    KeyedIsRequest("a");
    KeyedIsRequest("ab");
    assert "a" <= "ab" && "a" != "ab";
    OfferedIff(cfg.origin, Keyed("a"), Keyed("ab"), VaryList(FIELDS));
    FreshForAMinute(cfg, 0, 0);
    assert Floor(0) == 0;
    var e := Kept(MakeEntry(cfg, Keyed("ab"), RecordingOf(KeyedExchange()), 0, 0));
    DecideIff(cfg, Keyed("a"), KeyedExchange(), 0, 0, e, 0);
  }

  /* A 304 to a precondition of the client's own. */

  function Tagged(): Request { Request("GET", "/", map["If-None-Match" := ["v2"]]) }

  lemma TaggedIsRequest()
    ensures WellFormedRequest(Tagged()) && !FieldAbsent(Tagged().header, "If-None-Match")
    ensures Get(Tagged().header, "Cache-Key") == ""
  {
    hide CanonicalName, IsToken;
    IfNoneMatchIsCanonical();
    CacheKeyIsShort();
    assert |"If-None-Match"| == 13;
    assert IsToken("GET") by { U.PlainIsWellFormed("/"); }
  }

  lemma CacheKeyIsShort()
    ensures |CanonicalName("Cache-Key")| == 9
  {}

  lemma NoValidators()
    ensures Get(FIELDS, "ETag") == "" && Get(FIELDS, "Last-Modified") == ""
  {
    assert |CanonicalName("Last-Modified")| == 13 && CanonicalName("ETag")[0] == 'E' && |CanonicalName("ETag")| == 4;
    assert "Date"[0] == 'D' && |"Expires"| == 7 && |"Date"| == 4;
  }

  lemma TaggedIsOffered(cfg: Config)
    requires OriginId(cfg.origin)
    ensures Offered(cfg, Tagged(), Entry(cfg).key)
  {
    hide GetExpiration, FieldLines, Nominated, Get, WellFormedRequest, KeyPrefix, FullKey;
    TaggedIsRequest();
    U.PlainIsWellFormed("/");
    OfferedIff(cfg.origin, Tagged(), Ask(), VaryList(FIELDS));
  }

  /**
   A client asks with an entity tag of its own after the stored response, which has no validators, has
   gone stale. Its request goes to the origin as it is, and the 304 that it draws sends the client the
   stale response, for which the 304 does not vouch.
   */
  lemma ForeignTagRevives(cfg: Config, s: Sys, reply: Reply)
    requires Setting(cfg) && s.now == 61 * SECOND && reply.status == 304
    ensures Decide(cfg, Tagged(), Entry(cfg), s.now) == Validate(Tagged())
    ensures RunJob(cfg, s, AwaitCheck(Tagged(), Entry(cfg), Tagged(), s.now), Choice(reply, 0, "")).answer
         == Some(FromStore(Tagged(), Entry(cfg), s.now, Some(|s.hist|)))
    ensures !Section4(cfg, Tagged(), First(), s.now, Some(Tagged()))
  {
    hide ExchangeOk, Decide, CC.HeaderDirectives, WellFormedRequest, VaryList, GetExpiration, FixPragma, IsFresh,
         FIELDS, Head, Get, Offered, KeyPrefix, FieldAbsent, Storable, WriteKey, Vouches;
    FirstIsExchange();
    FieldsRead();
    TaggedIsRequest();
    TaggedIsOffered(cfg);
    NoValidators();
    FreshForAMinute(cfg, 0, s.now);
    EntryIsReused(cfg);
    assert Floor(0) == 0;
    ForeignTagIsForwarded(cfg, Tagged(), First(), 0, 0, Entry(cfg), s.now);
  }

  /* Responses whose own fields are overlooked. */

  function Own(h: Header): Exchange { Exchange(Ask(), Reply(200, h, ["hello"]), 0, 0) }

  function OwnEntry(cfg: Config, h: Header): CacheEntry {
    Kept(MakeEntry(cfg, Ask(), RecordingOf(Own(h)), 0, 0))
  }

  predicate Bare(h: Header) {
    && WellFormed(h) && h != map[] && VaryList(h) == []
    && "Transfer-Encoding" !in h && "Content-Length" !in h && "Pragma" !in h
  }

  lemma OwnIsExchange(h: Header)
    requires Bare(h)
    ensures ExchangeOk(Own(h)) && StoredHeader(Own(h)) == h
  {
    hide WellFormed, VaryList;
    U.PlainIsWellFormed("/");
    assert ["hello"][..0] == [];
    assert Own(h).reply.Body() == "hello";
  }

  lemma OwnIsStored(h: Header)
    requires h != map[]
    requires forall name :: name in {"must-understand", "no-store", "private"} ==> name !in CC.HeaderDirectives(h)
    ensures Storable(Ask(), 200, h)
  {
    hide CC.HeaderDirectives;
  }

  /** A response without Vary is served for its own request as long as the machine takes it for fresh. */
  lemma OwnIsServed(cfg: Config, h: Header, now: int)
    requires OriginId(cfg.origin) && Bare(h) && Storable(Ask(), 200, h)
    requires "no-cache" !in CC.HeaderDirectives(h) && IsFresh(cfg.dates, h, 0, 0, now)
    ensures Made(cfg, Own(h), 0, 0, OwnEntry(cfg, h)) && Selected(Ask(), Own(h))
    ensures Decide(cfg, Ask(), OwnEntry(cfg, h), now) == Reuse
  {
    hide ExchangeOk, Decide, CC.HeaderDirectives, WriteKey, WellFormedRequest, VaryList, GetExpiration, StoredHeader,
         Storable, IsFresh, Head, Offered, Bare, HeaderFieldsMatch;
    OwnIsExchange(h);
    U.PlainIsWellFormed("/");
    BareHasNoVary(h);
    Selection.OwnRequestSelects(Own(h));
    assert Floor(0) == 0;
    OwnEntryOffered(cfg, h);
    DecideIff(cfg, Ask(), Own(h), 0, 0, OwnEntry(cfg, h), now);
  }

  lemma BareHasNoVary(h: Header)
    requires Bare(h)
    ensures VaryList(h) == []
  {}

  lemma OwnEntryOffered(cfg: Config, h: Header)
    ensures Offered(cfg, Ask(), OwnEntry(cfg, h).key)
  {
    hide GetExpiration, KeyPrefix, FieldLines, Nominated;
  }

  const SHY: Header := FIELDS["Cache-Control" := ["no-cache,public"]]

  lemma ShyRead()
    ensures Bare(SHY) && Get(SHY, "Date") == "D" && Get(SHY, "Expires") == "E" && Get(SHY, "Age") == ""
    ensures Values(SHY, "Cache-Control") == ["no-cache,public"]
  {
    hide CanonicalName, IsToken, IsFieldValue;
    DateIsCanonical();
    ExpiresIsCanonical();
    OtherNames();
    CacheControlIsCanonical();
    ShyValue();
    assert |"Cache-Control"| == 13 && "Age"[0] == 'A' && "Vary"[0] == 'V' && "Pragma"[0] == 'P' && "Date"[0] == 'D';
    assert |"Transfer-Encoding"| == 17 && |"Content-Length"| == 14 && |"Date"| == 4 && |"Expires"| == 7;
    assert Values(SHY, "Vary") == [];
    NoVary(SHY);
    assert "Cache-Control" in SHY;
  }

  lemma NoVary(h: Header)
    requires Values(h, "Vary") == []
    ensures VaryList(h) == []
  {
    hide Values;
  }

  lemma ShyValue()
    ensures IsFieldValue("no-cache,public") && IsToken("Cache-Control")
  {}

  lemma ShyDirectives()
    ensures CC.HeaderMembers(SHY) == ["no-cache", "public"] && CC.Hidden(SHY, "no-cache")
    ensures forall name :: name in CC.HeaderDirectives(SHY) ==> |name| == 15
  {
    hide CC.Parse, CC.AllMembers, CC.Names, SHY, Values;
    ShyRead();
    BareComma("no-cache", "public");
    assert "no-cache" + "," + "public" == "no-cache,public" && |ToLower("no-cache,public")| == 15;
    assert |"no-cache"| == 8;
  }

  /** A `no-cache` that a bare comma hides: the response is served unchecked, against section 4. */
  lemma HiddenNoCacheIsServed(cfg: Config)
    requires Setting(cfg)
    ensures Decide(cfg, Ask(), OwnEntry(cfg, SHY), 0) == Reuse
    ensures CC.Hidden(StoredHeader(Own(SHY)), "no-cache") && !Section4(cfg, Ask(), Own(SHY), 0, None)
  {
    hide Decide, CC.HeaderDirectives, CC.HeaderMembers, CC.Names, Bare, Storable, IsFresh, SHY, OwnEntry, Own, Get,
         FreshnessLifetime, AgeValue, StoredHeader, VaryMatches, RfcFresh;
    ShyRead();
    ShyDirectives();
    assert |"must-understand"| == 15 && |"no-store"| == 8 && |"private"| == 7 && |"s-maxage"| == 8 && |"max-age"| == 7;
    ShyIsNotEmpty();
    ShyWord();
    OwnIsStored(SHY);
    OwnIsExchange(SHY);
    MinuteLifetime(cfg.dates, SHY, 0);
    NoAge(SHY);
    FreshNow(cfg, SHY);
    OwnIsServed(cfg, SHY, 0);
  }

  lemma ShyIsNotEmpty()
    ensures SHY != map[]
  {
    assert "Cache-Control" in SHY;
  }

  lemma ShyWord()
    ensures "must-understand" !in CC.HeaderDirectives(SHY)
  {
    hide CC.Parse, CC.AllMembers, CC.Names, SHY, Values;
    ShyRead();
    BareComma("no-cache", "public");
    assert "no-cache" + "," + "public" == "no-cache,public";
    assert ToLower("no-cache,public")[0] == 'n' && "must-understand"[0] == 'm';
  }

  lemma FreshNow(cfg: Config, h: Header)
    requires Setting(cfg) && FreshnessLifetime(cfg.dates, h, 0) == 60 * SECOND && AgeValue(h) == 0
    requires Get(h, "Date") == "D"
    ensures IsFresh(cfg.dates, h, 0, 0, 0)
  {
    hide FreshnessLifetime, AgeValue, Get;
  }

  const UNDATED: Header := map["Cache-Control" := ["max-age=1"]]

  lemma UndatedRead()
    ensures Bare(UNDATED) && Get(UNDATED, "Date") == "" && Values(UNDATED, "Age") == []
    ensures Values(UNDATED, "Cache-Control") == ["max-age=1"]
  {
    hide CanonicalName, IsToken, IsFieldValue;
    DateIsCanonical();
    OtherNames();
    CacheControlIsCanonical();
    UndatedValue();
    assert |"Cache-Control"| == 13 && |"Age"| == 3 && |"Vary"| == 4 && |"Pragma"| == 6 && |"Date"| == 4;
    assert |"Transfer-Encoding"| == 17 && |"Content-Length"| == 14;
    assert Values(UNDATED, "Vary") == [];
    NoVary(UNDATED);
    assert "Cache-Control" in UNDATED;
  }

  lemma UndatedValue()
    ensures IsFieldValue("max-age=1") && IsToken("Cache-Control")
  {}

  lemma OneSecond()
    ensures CC.Pieces(["max-age=1"]) == ["max-age=1"] == CC.AllMembers(["max-age=1"])
    ensures CC.DirectiveName("max-age=1") == "max-age" && CC.DirectiveArgument("max-age=1") == "1"
  {
    hide CC.Pieces, CC.AllMembers, CC.Members, CC.DirectiveName, CC.DirectiveArgument;
    assert Trimmed("max-age=1", SPACES);
    CC.MemberAlone("max-age=1");
    MaxAgeOne();
  }

  lemma MaxAgeOne()
    ensures CC.DirectiveName("max-age=1") == "max-age" && CC.DirectiveArgument("max-age=1") == "1"
  {
    hide CC.DirectiveName, CC.DirectiveArgument;
    assert "max-age=1" == "max-age" + "=" + ("" + "1" + "");
    CC.ArgumentForms("max-age", "1", "");
    assert ToLower("max-age") == "max-age";
  }

  lemma UndatedLifetime(dates: DateParser, now: int)
    ensures FreshnessLifetime(dates, UNDATED, now) == SECOND == RfcLifetime(dates, UNDATED, now)
    ensures forall name :: name in CC.HeaderDirectives(UNDATED) <==> name == "max-age"
  {
    hide CC.Pieces, CC.AllMembers, CC.DirectiveName, CC.DirectiveArgument, UNDATED, Values, Get;
    UndatedRead();
    OneSecond();
    forall name ensures name in CC.HeaderDirectives(UNDATED) <==> name == "max-age" {
      CC.OnlyDirective("max-age=1", name);
    }
    assert "s-maxage" != "max-age" by { assert |"s-maxage"| == 8 && |"max-age"| == 7; }
    assert CC.HeaderDirectives(UNDATED)["max-age"] == "1" by { CC.LookupIsLast(["max-age=1"], "max-age"); }
    assert AllDigits("1") && DecimalValue("1") == 1 by { assert "1"[..0] == ""; }
    DeltaSecondsExactIff("1");
  }

  /** Without a Date, a response that may be kept for a second is served for a century, against section 4. */
  lemma UndatedIsServed(cfg: Config, now: int)
    requires Setting(cfg) && SECOND <= now <= CENTURY
    ensures Decide(cfg, Ask(), OwnEntry(cfg, UNDATED), now) == Reuse
    ensures !Section4(cfg, Ask(), Own(UNDATED), now, None)
  {
    hide Decide, CC.HeaderDirectives, CC.HeaderMembers, CC.Names, Bare, Storable, IsFresh, UNDATED, OwnEntry, Own, Get,
         FreshnessLifetime, RfcFresh, VaryMatches, StoredHeader, Values;
    UndatedRead();
    UndatedLifetime(cfg.dates, now);
    UndatedIsStored(cfg.dates);
    OwnIsExchange(UNDATED);
    DatelessFreshIff(cfg.dates, UNDATED, 0, 0, now);
    OwnIsServed(cfg, UNDATED, now);
    UndatedIsStale(cfg.dates, now);
    assert Own(UNDATED).end == 0 == Own(UNDATED).start by { OwnTimes(UNDATED); }
  }

  lemma OwnTimes(h: Header)
    ensures Own(h).end == 0 == Own(h).start
  {}

  lemma UndatedIsStored(dates: DateParser)
    ensures Storable(Ask(), 200, UNDATED) && "no-cache" !in CC.HeaderDirectives(UNDATED)
  {
    hide CC.HeaderDirectives, UNDATED, Storable, Values, FreshnessLifetime, RfcLifetime, Bare;
    UndatedRead();
    UndatedLifetime(dates, 0);
    assert |"must-understand"| == 15 && |"no-store"| == 8 && |"no-cache"| == 8 && |"max-age"| == 7;
    assert "private"[0] == 'p' && "max-age"[0] == 'm';
    assert UNDATED != map[] by { UndatedIsNotEmpty(); }
    OwnIsStored(UNDATED);
  }

  lemma UndatedIsNotEmpty()
    ensures UNDATED != map[]
  {
    assert "Cache-Control" in UNDATED;
  }

  lemma UndatedIsStale(dates: DateParser, now: int)
    requires now >= SECOND
    ensures !RfcFresh(dates, UNDATED, 0, 0, now)
  {
    hide RfcLifetime, UNDATED, RfcAgeValue, FreshnessLifetime, Get;
    UndatedRead();
    UndatedLifetime(dates, 0);
  }
}
