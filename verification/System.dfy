/**
 The cache's state and the decision on reuse. A store maps keys to entries; an entry is made from
 one exchange with the origin, and is read back when a request asks for its URI.
 */
module System {
  import opened Text
  import opened Http
  import opened CacheKey
  import opened Freshness
  import opened StoreGate
  import opened Wire
  import CC = CacheControl

  /** What the environment fixes: the origin's identifier, and parsers that are not modelled. */
  datatype Config = Config(
    origin: string,
    dates: DateParser,
    requestUri: string -> string,         // a URI reference in Location or Content-Location
    resolvePath: (string, string) -> string,  // a Cache-Update path against the request's URI
    delayOf: string -> nat,               // the delay directive of a Cache-Update value
    updating: bool)                       // whether automatic updates are on

  datatype CacheEntry = CacheEntry(key: string, expires: int, requestedAt: int, receivedAt: int, bytes: string)

  type Store = map<string, CacheEntry>

  /** The provider keeps whole seconds. */
  function Kept(e: CacheEntry): CacheEntry {
    e.(expires := Floor(e.expires), requestedAt := Floor(e.requestedAt), receivedAt := Floor(e.receivedAt))
  }

  /** One answered request to the origin. */
  datatype Exchange = Exchange(request: Request, reply: Reply, start: int, end: int)

  /** What the recorder holds after an exchange. */
  datatype Recording = Recording(status: int, header: Header, bytes: string, createdAt: int)

  function RecordingOf(x: Exchange): Recording {
    Recording(x.reply.status, x.reply.header, Head(x.reply.status, x.reply.header) + x.reply.Body(), x.start)
  }

  function VaryList(h: Header): seq<string> { ListHeader(h, "Vary") }

  function WriteKey(cfg: Config, r: Request, h: Header): string {
    FullKey(cfg.origin, r, VaryList(h))
  }

  function MakeEntry(cfg: Config, r: Request, rec: Recording, decided: int, received: int): CacheEntry {
    CacheEntry(WriteKey(cfg, r, rec.header), GetExpiration(cfg.dates, rec.header, decided),
               rec.createdAt, received, rec.bytes)
  }

  /* Reading an entry and deciding on it. */

  datatype Stored = Stored(request: Request, response: Response) | Unreadable

  function ReadEntry(cfg: Config, e: CacheEntry): Stored {
    var d := DecodeKey(cfg.origin, e.key);
    if d.Err? then Unreadable
    else
      var res := ReadResponse(e.bytes, d.request.verb);
      if res.Err? then Unreadable else Stored(d.request, res.response)
  }

  datatype Reason = Miss | Method | UriMiss | VaryMiss

  datatype Decision = Reuse | Validate(sent: Request) | Forward(reason: Reason) | Crash

  /** The client's request with the stored validators as preconditions. */
  function ConditionalRequest(r: Request, h: Header): Request {
    var modified := Get(h, "Last-Modified");
    var since := if modified != "" then Set(r.header, "If-Modified-Since", modified) else r.header;
    var match' := if Get(h, "ETag") != "" then Set(since, "If-None-Match", Get(h, "ETag")) else since;
    r.(header := match')
  }

  predicate WriteThrough(r: Request, cc: CC.Directives) { "safe" !in cc && UnsafeRequest(r) }

  function Decide(cfg: Config, r: Request, e: CacheEntry, now: int): Decision {
    var stored := ReadEntry(cfg, e);
    if stored.Unreadable? then Crash
    else
      var h, cc := stored.response.header, CC.HeaderDirectives(stored.response.header);
      if h == map[] || stored.response.status == 0 || stored.request.verb == "" then Forward(Miss)
      else if WriteThrough(r, cc) then Forward(Method)
      else if r.uri != stored.request.uri then Forward(UriMiss)
      else if !HeaderFieldsMatch(r.header, stored.request.header, VaryList(h)) then Forward(VaryMiss)
      else if "no-cache" in cc || !IsFresh(cfg.dates, h, e.receivedAt, e.requestedAt, now)
      then Validate(ConditionalRequest(r, h))
      else Reuse
  }

  /** What the loop over the offered entries settles on. */
  datatype Plan = Serve(entry: CacheEntry) | Check(entry: CacheEntry, sent: Request) | Pass | Panic

  function PlanFor(cfg: Config, r: Request, todo: seq<CacheEntry>, now: int): Plan {
    if todo == [] then Pass
    else
      match Decide(cfg, r, todo[0], now)
      case Reuse => Serve(todo[0])
      case Validate(sent) => Check(todo[0], sent)
      case Forward(_) => PlanFor(cfg, r, todo[1..], now)
      case Crash => Panic
  }

  predicate Offered(cfg: Config, r: Request, key: string) {
    KeyPrefix(cfg.origin, r) <= key
  }

  /** `todo` lists the offered entries of the store, each once, in some order. */
  ghost predicate Lists(cfg: Config, store: Store, r: Request, todo: seq<CacheEntry>) {
    && (forall i :: 0 <= i < |todo| ==>
          todo[i].key in store && store[todo[i].key] == todo[i] && Offered(cfg, r, todo[i].key))
    && (forall k :: k in store && Offered(cfg, r, k) ==> store[k] in todo)
    && (forall i, j :: 0 <= i < j < |todo| ==> todo[i].key != todo[j].key)
  }

  /* Entries and the exchanges behind them. */

  predicate ExchangeOk(x: Exchange) {
    && WellFormedRequest(x.request)
    && Replayable(x.request.verb, x.reply.status, x.reply.header, x.reply.Body())
    && x.start <= x.end
  }

  /** The entry was made from this exchange, its expiry computed and its time taken in that order. */
  predicate Made(cfg: Config, x: Exchange, decided: int, received: int, e: CacheEntry) {
    && x.end <= decided <= received
    && Storable(x.request, x.reply.status, x.reply.header)
    && e == Kept(MakeEntry(cfg, x.request, RecordingOf(x), decided, received))
  }

  /** Some exchange of the history, not before number `from`, is behind the entry. */
  ghost predicate Backed(cfg: Config, hist: seq<Exchange>, from: nat, now: int, e: CacheEntry) {
    exists i: nat, d, r :: from <= i < |hist| && Made(cfg, hist[i], d, r, e) && r <= now
  }

  datatype Sys = Sys(store: Store, now: int, hist: seq<Exchange>)

  ghost predicate SysOk(cfg: Config, s: Sys) {
    && OriginId(cfg.origin)
    && (forall i :: 0 <= i < |s.hist| ==> ExchangeOk(s.hist[i]) && s.hist[i].end <= s.now)
    && (forall k :: k in s.store ==> s.store[k].key == k && Backed(cfg, s.hist, 0, s.now, s.store[k]))
  }

  /** The header a stored response has when it is read back. */
  function StoredHeader(x: Exchange): Header { FixPragma(x.reply.header) }

  /** The cache's tests without those on freshness: the response may be chosen for the request. */
  predicate Selected(r: Request, x: Exchange) {
    && r.verb == x.request.verb
    && r.uri == x.request.uri
    && HeaderFieldsMatch(r.header, x.request.header, VaryList(x.reply.header))
    && (UnsafeRequest(r) ==> "safe" in CC.HeaderDirectives(StoredHeader(x)))
  }

  /** The clauses on freshness: no `no-cache`, and fresh at this instant. */
  predicate Unconditional(cfg: Config, x: Exchange, e: CacheEntry, now: int) {
    && "no-cache" !in CC.HeaderDirectives(StoredHeader(x))
    && IsFresh(cfg.dates, StoredHeader(x), e.receivedAt, e.requestedAt, now)
  }

  lemma FixPragmaKeepsVary(h: Header)
    ensures VaryList(FixPragma(h)) == VaryList(h)
    ensures h != map[] ==> FixPragma(h) != map[]
  {
    hide Items;
    var name := CanonicalName("Vary");
    assert name[0] == 'V';
    assert name != "Cache-Control";
  }

  /** Reading an entry gives the response of its exchange and a request that stands for its request. */
  lemma ReadMade(cfg: Config, x: Exchange, decided: int, received: int, e: CacheEntry)
    requires OriginId(cfg.origin) && ExchangeOk(x) && Made(cfg, x, decided, received, e)
    ensures var stored := ReadEntry(cfg, e);
      && stored.Stored?
      && stored.response == Response(x.reply.status, StoredHeader(x), x.reply.Body())
      && WellFormedRequest(stored.request)
      && stored.request.verb == x.request.verb && stored.request.uri == x.request.uri
      && (HeaderFieldsMatch(stored.request.header, x.request.header, VaryList(x.reply.header))
          <==> "*" !in VaryList(x.reply.header))
  {
    hide Replayable, WellFormed, Head, FullKey, DecodeKey, ReadResponse, CanonicalName, ListHeader, FixPragma;
    DecodedMatches(cfg.origin, x.request, VaryList(x.reply.header));
    ReplayIsFaithful(x.request.verb, x.reply.status, x.reply.header, x.reply.Body());
  }

  /**
   The times of a stored entry, in nanoseconds: the whole seconds in which the exchange was asked and
   the response received, and in which its lifetime ends, counted from the decision; an entry without
   lifetime never falls due.
   */
  lemma EntryTimes(cfg: Config, x: Exchange, decided: int, received: int, e: CacheEntry)
    requires Made(cfg, x, decided, received, e)
    ensures e.requestedAt <= x.start < e.requestedAt + 1_000_000_000 && e.requestedAt % 1_000_000_000 == 0
    ensures e.receivedAt <= received < e.receivedAt + 1_000_000_000 && e.receivedAt % 1_000_000_000 == 0
    ensures var ttl := FreshnessLifetime(cfg.dates, x.reply.header, decided);
      && (ttl == 0 ==> e.expires <= 0)
      && (ttl != 0 ==> e.expires <= decided + ttl < e.expires + 1_000_000_000 && e.expires % 1_000_000_000 == 0)
  {
    hide Storable, WriteKey, FreshnessLifetime, Head;
    FloorBounds(x.start);
    FloorBounds(received);
    FloorBounds(e.expires);
    FloorBounds(GetExpiration(cfg.dates, x.reply.header, decided));
  }

  /**
   How far the stored expiry lies from the stale instant of the RFC: it is later by the age that the
   response had when it was received, and by the time until the expiry was computed, up to a second.
   */
  lemma EntryExpiryGap(cfg: Config, x: Exchange, decided: int, received: int, e: CacheEntry)
    requires Made(cfg, x, decided, received, e)
    requires var h := x.reply.header;
      && Get(h, "Date") != "" && cfg.dates(Get(h, "Date")).Some?
      && !SecondsMisread(h, "s-maxage") && !SecondsMisread(h, "max-age")
      && RfcLifetime(cfg.dates, h, x.end) != 0
      && -0x8000_0000_0000_0000 <= RfcLifetime(cfg.dates, h, x.end) <= 0x7fff_ffff_ffff_ffff
    ensures var h := x.reply.header;
      var stale := RfcStaleInstant(cfg.dates, h, x.end, x.start);
      var age := RfcAge(RfcAgeValue(h) * 1_000_000_000, cfg.dates(Get(h, "Date")).value, x.end, x.start, x.end);
      e.expires <= stale + age + (decided - x.end) < e.expires + 1_000_000_000
  {
    hide Storable, WriteKey, FreshnessLifetime, RfcLifetime, Head, RfcAgeValue, SecondsMisread, Get;
    EntryTimes(cfg, x, decided, received, e);
    LifetimeWithinRange(cfg.dates, x.reply.header, x.end, decided);
  }

  /**
   The decision in terms of the exchange behind the entry: among offered entries, reuse means chosen and
   unconditional, validation means chosen but not unconditional, and nothing else is used.
   */
  lemma DecideIff(cfg: Config, r: Request, x: Exchange, decided: int, received: int, e: CacheEntry, now: int)
    requires OriginId(cfg.origin) && ExchangeOk(x) && Made(cfg, x, decided, received, e)
    requires WellFormedRequest(r) && Offered(cfg, r, e.key)
    ensures Decide(cfg, r, e, now) == Reuse <==> Selected(r, x) && Unconditional(cfg, x, e, now)
    ensures Decide(cfg, r, e, now).Validate? <==> Selected(r, x) && !Unconditional(cfg, x, e, now)
    ensures Decide(cfg, r, e, now).Validate? ==>
      Decide(cfg, r, e, now).sent == ConditionalRequest(r, StoredHeader(x))
    ensures Decide(cfg, r, e, now) != Crash
  {
    hide Replayable, WellFormed, Head, FullKey, ReadEntry, CanonicalName, ListHeader, FixPragma, IsFresh,
         CC.HeaderDirectives, KeyPrefix, ConditionalRequest, FieldAgrees;
    ReadMade(cfg, x, decided, received, e);
    FixPragmaKeepsVary(x.reply.header);
    var names := VaryList(x.reply.header);
    OfferedIff(cfg.origin, r, x.request, names);
    var d := ReadEntry(cfg, e).request;
    if HeaderFieldsMatch(r.header, d.header, names) {
      assert "*" !in names;
      MatchIsTransitive(r.header, d.header, x.request.header, names);
    }
    if HeaderFieldsMatch(r.header, x.request.header, names) {
      assert "*" !in names;
      MatchIsTransitive(d.header, x.request.header, x.request.header, names) by { MatchSelf(x.request.header, names); }
      MatchIsTransitive(r.header, x.request.header, d.header, names);
    }
    TokenHasNoSeparator(x.request.verb);
  }

  lemma MatchSelf(h: Header, names: seq<string>)
    requires "*" !in names
    ensures HeaderFieldsMatch(h, h, names)
  {
    hide CanonicalName;
  }

  /** The conditional request carries the stored validators and is otherwise the client's own. */
  lemma ConditionalCarriesValidators(r: Request, h: Header, name: string)
    ensures var sent := ConditionalRequest(r, h);
      && sent.verb == r.verb && sent.uri == r.uri
      && Values(sent.header, name) ==
         if CanonicalName(name) == "If-None-Match" && Get(h, "ETag") != "" then [Get(h, "ETag")]
         else if CanonicalName(name) == "If-Modified-Since" && Get(h, "Last-Modified") != ""
         then [Get(h, "Last-Modified")]
         else Values(r.header, name)
  {
    hide CanonicalName;
    IfNoneMatchIsCanonical();
    IfModifiedSinceIsCanonical();
    assert |"If-None-Match"| != |"If-Modified-Since"|;
  }

  /* What a 304 says. */

  /** The precondition an origin evaluates (section 13.2.2 of RFC 9110), with its field lines. */
  datatype Precondition = Tags(lines: seq<string>) | Since(lines: seq<string>) | Nothing

  function Evaluated(h: Header): Precondition {
    if !FieldAbsent(h, "If-None-Match") then Tags(Values(h, "If-None-Match"))
    else if !FieldAbsent(h, "If-Modified-Since") then Since(Values(h, "If-Modified-Since"))
    else Nothing
  }

  /**
   A 304 to this request says that the response with header `h` is still current: the precondition
   it answers is that response's validator. A request without precondition gets no 304.
   */
  predicate Vouches(sent: Request, h: Header) {
    match Evaluated(sent.header)
    case Tags(lines) => Get(h, "ETag") != "" && lines == [Get(h, "ETag")]
    case Since(lines) => Get(h, "Last-Modified") != "" && lines == [Get(h, "Last-Modified")]
    case Nothing => true
  }

  /** No precondition of the client's own is left to decide. */
  predicate ValidatorsDecide(client: Header, h: Header) {
    || Get(h, "ETag") != ""
    || (&& FieldAbsent(client, "If-None-Match")
        && (FieldAbsent(client, "If-Modified-Since") || Get(h, "Last-Modified") != ""))
  }

  /** The client's own preconditions stay in the request; a 304 vouches only where they are replaced or absent. */
  lemma VouchesIff(r: Request, h: Header)
    ensures Vouches(ConditionalRequest(r, h), h) <==> ValidatorsDecide(r.header, h)
  {
    hide CanonicalName, ConditionalRequest, Values, Get;
    var sent := ConditionalRequest(r, h);
    IfNoneMatchIsCanonical();
    IfModifiedSinceIsCanonical();
    assert |"If-None-Match"| != |"If-Modified-Since"|;
    ConditionalCarriesValidators(r, h, "If-None-Match");
    ConditionalCarriesValidators(r, h, "If-Modified-Since");
  }

  /**
   A client that sends an entity tag of its own, where the stored response has no validators: the
   request to the origin is the client's, and the stored response is sent if the tag still matches.
   */
  lemma ForeignTagIsForwarded(cfg: Config, r: Request, x: Exchange, decided: int, received: int, e: CacheEntry,
                              now: int)
    requires OriginId(cfg.origin) && ExchangeOk(x) && Made(cfg, x, decided, received, e)
    requires WellFormedRequest(r) && Offered(cfg, r, e.key)
    requires Selected(r, x) && !Unconditional(cfg, x, e, now)
    requires Get(StoredHeader(x), "ETag") == "" && Get(StoredHeader(x), "Last-Modified") == ""
    requires !FieldAbsent(r.header, "If-None-Match")
    ensures Decide(cfg, r, e, now) == Validate(r) && !Vouches(r, StoredHeader(x))
  {
    hide Decide, WellFormedRequest, Offered, Selected, Unconditional, StoredHeader, Made, ExchangeOk, Get, FieldAbsent;
    DecideIff(cfg, r, x, decided, received, e, now);
    UnchangedWithoutValidators(r, StoredHeader(x));
    VouchesIff(r, StoredHeader(x));
  }

  lemma UnchangedWithoutValidators(r: Request, h: Header)
    requires Get(h, "ETag") == "" && Get(h, "Last-Modified") == ""
    ensures ConditionalRequest(r, h) == r
  {
    hide Get;
  }

  /* Section 4 of RFC 9111, clause by clause. */

  /**
   What section 4 asks of the response of `x` when it is sent for `r`, unchecked or after a 304 to
   `sent`. Directives are list members, and freshness is that of the unbounded formulas, from these
   instants of response and request. `safe` is this cache's own extension for unsafe methods; stale
   responses are never allowed, and no heuristic is applied.
   */
  predicate Section4At(cfg: Config, r: Request, x: Exchange, responseTime: int, requestTime: int, at: int,
                       sent: Option<Request>) {
    var h := StoredHeader(x);
    && r.verb == x.request.verb
    && r.uri == x.request.uri
    && VaryMatches(r.header, x.request.header, VaryList(x.reply.header))
    && (UnsafeRequest(r) ==> CC.Names(CC.HeaderMembers(h), "safe"))
    && (sent.None? ==> !CC.Names(CC.HeaderMembers(h), "no-cache"))
    && (sent.None? ==> RfcFresh(cfg.dates, h, responseTime, requestTime, at))
    && (sent.Some? ==> Vouches(sent.value, h))
  }

  /** The same, from the instants at which the origin was asked and answered. */
  predicate Section4(cfg: Config, r: Request, x: Exchange, at: int, sent: Option<Request>) {
    Section4At(cfg, r, x, x.end, x.start, at, sent)
  }

  /**
   What the cache does not see: further lines of nominated fields; that `safe` is only a word in a
   quoted string, or `no-cache` a directive behind a bare comma; that the response is stale, where
   something about time is misread or out of range; and after a 304, preconditions of the client's own.
   */
  predicate Overlooked(cfg: Config, r: Request, x: Exchange, at: int, checked: bool) {
    var h := StoredHeader(x);
    || (exists name :: name in VaryList(x.reply.header) && !FurtherLinesAgree(r.header, x.request.header, name))
    || (UnsafeRequest(r) && CC.Invented(h, "safe"))
    || (!checked && CC.Hidden(h, "no-cache"))
    || (!checked && Misjudged(cfg.dates, h, x.start, at) && at >= RfcStaleInstant(cfg.dates, h, x.end, x.start))
    || (checked && !ValidatorsDecide(r.header, h))
  }

  /**
   Among the responses the cache sends, section 4 fails exactly where something was overlooked. As to
   time, what the equivalence says lies in the guard `Misjudged`: without it no response is sent at or
   after its stale instant, by `FreshMeansRfcFresh`.
   */
  lemma Section4Iff(cfg: Config, r: Request, x: Exchange, decided: int, received: int, e: CacheEntry, at: int,
                    sent: Option<Request>)
    requires Selected(r, x)
    requires sent.None? ==> Made(cfg, x, decided, received, e) && x.start <= x.end && received <= at
    requires sent.None? ==> Unconditional(cfg, x, e, at)
    requires sent.Some? ==> sent.value == ConditionalRequest(r, StoredHeader(x))
    ensures Section4(cfg, r, x, at, sent) <==> !Overlooked(cfg, r, x, at, sent.Some?)
  {
    hide StoredHeader, VaryList, CC.HeaderDirectives, CC.HeaderMembers, CC.Names, Vouches, ValidatorsDecide,
         ConditionalRequest, HeaderFieldsMatch, FurtherLinesAgree, VaryMatches, Misjudged, RfcFresh, RfcStaleInstant,
         IsFresh, Storable, GetExpiration, WriteKey, Head, Floor;
    var h := StoredHeader(x);
    MatchMeetsSection41Iff(r.header, x.request.header, VaryList(x.reply.header));
    VouchesIff(r, h);
    RfcFreshUntilStale(cfg.dates, h, x.end, x.start, at);
    if sent.None? && !Misjudged(cfg.dates, h, x.start, at) {
      FreshMeansRfcFresh(cfg.dates, h, x.start, x.end, received, at);
    }
  }

  /** Nothing is overlooked in a response that is plainly written, for requests with single lines. */
  lemma ReuseIsSection4(cfg: Config, r: Request, x: Exchange, decided: int, received: int, e: CacheEntry, now: int)
    requires OriginId(cfg.origin) && ExchangeOk(x) && Made(cfg, x, decided, received, e) && received <= now
    requires WellFormedRequest(r) && Offered(cfg, r, e.key)
    requires OneLine(r.header, VaryList(x.reply.header)) && OneLine(x.request.header, VaryList(x.reply.header))
    requires CC.WellSpaced(Values(StoredHeader(x), "Cache-Control"))
    requires !Misjudged(cfg.dates, StoredHeader(x), x.start, now)
    ensures Decide(cfg, r, e, now) == Reuse <==> Section4At(cfg, r, x, e.receivedAt, e.requestedAt, now, None)
    ensures Decide(cfg, r, e, now) == Reuse ==> Section4(cfg, r, x, now, None)
  {
    hide Decide, WellFormedRequest, Offered, StoredHeader, Replayable, VaryList, OneLine, HeaderFieldsMatch,
         VaryMatches, CC.HeaderDirectives, CC.HeaderMembers, CC.Names, CC.WellSpaced, Misjudged, RfcFresh, IsFresh,
         Storable, GetExpiration, WriteKey, Head, Floor, Values;
    var h := StoredHeader(x);
    DecideIff(cfg, r, x, decided, received, e, now);
    OneLineMatch(r.header, x.request.header, VaryList(x.reply.header));
    CC.WellSpacedIsReadRight(h, "no-cache");
    CC.WellSpacedIsReadRight(h, "safe");
    FreshIsRfcFreshIff(cfg.dates, h, x.start, received, now);
    if Decide(cfg, r, e, now) == Reuse {
      FreshMeansRfcFresh(cfg.dates, h, x.start, x.end, received, now);
    }
  }

  lemma IfNoneMatchIsCanonical()
    ensures CanonicalName("If-None-Match") == "If-None-Match" && IsToken("If-None-Match")
  {
    assert IsToken("If-None-Match");
  }

  lemma IfModifiedSinceIsCanonical()
    ensures CanonicalName("If-Modified-Since") == "If-Modified-Since"
  {
    assert IsToken("If-Modified-Since");
  }

  /**
   Combining the lines of Cache-Control and of Vary (section 5.3 of RFC 9110) changes neither what
   may be stored, nor for how long it is fresh, nor which requests it matches.
   */
  lemma CombiningChangesNothing(h: Header, g: Header, commas: seq<Comma>,
                                r: Request, status: int, dates: DateParser, now: int, other: Header)
    requires var cc, vary := Values(h, "Cache-Control"), Values(h, "Vary");
      && cc != [] && Values(g, "Cache-Control") == [Join(cc, ", ")]
      && |vary| == |commas| + 1 && Values(g, "Vary") == [Combined(vary, commas)]
    requires forall c :: c in commas ==> Only(c.left, SPACES) && Only(c.right, SPACES)
    requires Get(g, "Expires") == Get(h, "Expires") && Get(g, "Date") == Get(h, "Date")
    ensures MayStore(r, status, g) <==> MayStore(r, status, h)
    ensures FreshnessLifetime(dates, g, now) == FreshnessLifetime(dates, h, now)
    ensures HeaderFieldsMatch(r.header, other, VaryList(g)) <==> HeaderFieldsMatch(r.header, other, VaryList(h))
  {
    hide HeaderFieldsMatch, MayStore, FreshnessLifetime, CC.HeaderDirectives, VaryList, Only, Combined, Join, Get;
    SameDirectives(h, g);
    SameDecisions(h, g, r, status, dates, now);
    SameVaryList(h, g, commas);
  }

  lemma SameDirectives(h: Header, g: Header)
    requires var cc := Values(h, "Cache-Control"); cc != [] && Values(g, "Cache-Control") == [Join(cc, ", ")]
    ensures CC.HeaderDirectives(g) == CC.HeaderDirectives(h)
  {
    hide CC.Parse, Values, Join;
    CC.CombiningKeepsDirectives(Values(h, "Cache-Control"));
  }

  lemma SameVaryList(h: Header, g: Header, commas: seq<Comma>)
    requires var vary := Values(h, "Vary"); |vary| == |commas| + 1 && Values(g, "Vary") == [Combined(vary, commas)]
    requires forall c :: c in commas ==> Only(c.left, SPACES) && Only(c.right, SPACES)
    ensures VaryList(g) == VaryList(h)
  {
    hide Items, Values, Combined, Only;
    CombiningKeepsList(Values(h, "Vary"), commas);
  }

  lemma SameDecisions(h: Header, g: Header, r: Request, status: int, dates: DateParser, now: int)
    requires CC.HeaderDirectives(g) == CC.HeaderDirectives(h)
    requires Get(g, "Expires") == Get(h, "Expires") && Get(g, "Date") == Get(h, "Date")
    ensures MayStore(r, status, g) <==> MayStore(r, status, h)
    ensures FreshnessLifetime(dates, g, now) == FreshnessLifetime(dates, h, now)
  {
    hide CC.HeaderDirectives, Get, DirectiveSeconds;
  }
}
