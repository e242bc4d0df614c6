/** Which of several stored responses a request gets, and that it is the only one it could get. */
module Selection {
  import opened Text
  import opened Http
  import opened CacheKey
  import opened Freshness
  import opened Wire
  import opened System
  import opened StoreGate
  import CC = CacheControl

  /** The loop's outcome comes from an offered entry, decided on at that instant. */
  lemma {:induction false} PlanComesFromEntry(cfg: Config, r: Request, todo: seq<CacheEntry>, now: int)
    ensures var plan := PlanFor(cfg, r, todo, now);
      && (plan.Serve? ==> plan.entry in todo && Decide(cfg, r, plan.entry, now) == Reuse)
      && (plan.Check? ==> plan.entry in todo && Decide(cfg, r, plan.entry, now) == Validate(plan.sent))
      && (plan.Panic? ==> exists e :: e in todo && Decide(cfg, r, e, now) == Crash)
  {
    hide Decide;
    if todo != [] { PlanComesFromEntry(cfg, r, todo[1..], now); }
  }

  /** The first entry that is not passed over decides, and without one the request goes to the origin. */
  lemma {:induction false} FirstUsableDecides(cfg: Config, r: Request, todo: seq<CacheEntry>, now: int, j: nat)
    requires j <= |todo| && forall i :: 0 <= i < j ==> Decide(cfg, r, todo[i], now).Forward?
    requires j < |todo| ==> !Decide(cfg, r, todo[j], now).Forward?
    ensures PlanFor(cfg, r, todo, now) ==
      if j == |todo| then Pass
      else
        match Decide(cfg, r, todo[j], now)
        case Reuse => Serve(todo[j])
        case Validate(sent) => Check(todo[j], sent)
        case Forward(_) => Pass
        case Crash => Panic
  {
    hide Decide;
    if j > 0 { FirstUsableDecides(cfg, r, todo[1..], now, j - 1); }
  }

  lemma {:induction false} PlanOfOnly(cfg: Config, r: Request, todo: seq<CacheEntry>, now: int, j: nat)
    requires j < |todo|
    requires forall i :: 0 <= i < |todo| && i != j ==> Decide(cfg, r, todo[i], now).Forward?
    ensures Decide(cfg, r, todo[j], now) == Reuse ==> PlanFor(cfg, r, todo, now) == Serve(todo[j])
    ensures Decide(cfg, r, todo[j], now).Validate? ==>
      PlanFor(cfg, r, todo, now) == Check(todo[j], Decide(cfg, r, todo[j], now).sent)
    ensures Decide(cfg, r, todo[j], now).Forward? ==> PlanFor(cfg, r, todo, now) == Pass
  {
    hide Decide;
    if j > 0 {
      PlanOfOnly(cfg, r, todo[1..], now, j - 1);
    } else {
      PlanOfNone(cfg, r, todo[1..], now);
    }
  }

  lemma {:induction false} PlanOfNone(cfg: Config, r: Request, todo: seq<CacheEntry>, now: int)
    requires forall i :: 0 <= i < |todo| ==> Decide(cfg, r, todo[i], now).Forward?
    ensures PlanFor(cfg, r, todo, now) == Pass
  {
    hide Decide;
    if todo != [] { PlanOfNone(cfg, r, todo[1..], now); }
  }

  /** All responses stored for the request's URI have this Vary list, and no request for it had a `Cache-Key`. */
  ghost predicate Uniform(cfg: Config, s: Sys, r: Request, names: seq<string>) {
    forall k, i: nat, d, t ::
      k in s.store && Offered(cfg, r, k) && i < |s.hist| && Made(cfg, s.hist[i], d, t, s.store[k]) ==>
        VaryList(s.hist[i].reply.header) == names && Get(s.hist[i].request.header, "Cache-Key") == ""
  }

  lemma Backer(cfg: Config, s: Sys, k: string) returns (x: Exchange, decided: int, received: int)
    requires SysOk(cfg, s) && k in s.store
    ensures x in s.hist && ExchangeOk(x) && x.end <= s.now && received <= s.now
    ensures Made(cfg, x, decided, received, s.store[k])
    ensures forall r, names :: Uniform(cfg, s, r, names) && Offered(cfg, r, k) ==>
      VaryList(x.reply.header) == names && Get(x.request.header, "Cache-Key") == ""
  {
    hide Made, ExchangeOk, VaryList, Get, Offered;
    assert Backed(cfg, s.hist, 0, s.now, s.store[k]);
    var i: nat, d, t :| 0 <= i < |s.hist| && Made(cfg, s.hist[i], d, t, s.store[k]) && t <= s.now;
    x, decided, received := s.hist[i], d, t;
  }

  /** At most one stored response can be chosen for a request. */
  lemma UniqueSelection(cfg: Config, s: Sys, r: Request, names: seq<string>, k: string, l: string, now: int)
    requires SysOk(cfg, s) && WellFormedRequest(r) && Uniform(cfg, s, r, names)
    requires k in s.store && Offered(cfg, r, k) && !Decide(cfg, r, s.store[k], now).Forward?
    requires l in s.store && Offered(cfg, r, l) && !Decide(cfg, r, s.store[l], now).Forward?
    ensures k == l
  {
    hide Decide, Uniform, WellFormedRequest, Replayable, HeaderFieldsMatch, KeyPrefix, FullKey, Backed, Unconditional,
         ListHeader, CanonicalName;
    var x, dx, tx := Backer(cfg, s, k);
    var y, dy, ty := Backer(cfg, s, l);
    DecideIff(cfg, r, x, dx, tx, s.store[k], now);
    DecideIff(cfg, r, y, dy, ty, s.store[l], now);
    NoStar(r, x);
    MatchBack(r.header, x.request.header, names);
    MatchIsTransitive(x.request.header, r.header, y.request.header, names);
    KeyEqualityIsHeaderMatch(cfg.origin, x.request, y.request, names);
  }

  lemma NoStar(r: Request, x: Exchange)
    requires Selected(r, x)
    ensures "*" !in VaryList(x.reply.header)
  {
    hide ListHeader, FieldAgrees;
  }

  lemma MatchBack(a: Header, b: Header, names: seq<string>)
    requires HeaderFieldsMatch(a, b, names)
    ensures HeaderFieldsMatch(b, a, names) && "*" !in names
  {
    hide CanonicalName;
  }

  /** An offered entry that can be chosen decides the loop's outcome alone, wherever it stands in the list. */
  lemma PlanOfSelected(cfg: Config, s: Sys, r: Request, names: seq<string>, todo: seq<CacheEntry>, now: int, k: string)
    requires SysOk(cfg, s) && WellFormedRequest(r) && Uniform(cfg, s, r, names) && Lists(cfg, s.store, r, todo)
    requires k in s.store && Offered(cfg, r, k)
    requires !Decide(cfg, r, s.store[k], now).Forward?
    ensures PlanFor(cfg, r, todo, now) ==
      match Decide(cfg, r, s.store[k], now)
      case Reuse => Serve(s.store[k])
      case Validate(sent) => Check(s.store[k], sent)
      case Forward(_) => Pass
      case Crash => Panic
  {
    hide Decide, Uniform, WellFormedRequest, PlanFor, Offered, ExchangeOk, Made, Backed;
    var j :| 0 <= j < |todo| && todo[j] == s.store[k];
    forall i | 0 <= i < |todo| && i != j ensures Decide(cfg, r, todo[i], now).Forward? {
      assert todo[i].key != todo[j].key;
      if !Decide(cfg, r, todo[i], now).Forward? {
        UniqueSelection(cfg, s, r, names, todo[i].key, k, now);
      }
    }
    PlanOfOnly(cfg, r, todo, now, j);
    NeverCrashes(cfg, s, r, k, now);
  }

  lemma NeverCrashes(cfg: Config, s: Sys, r: Request, k: string, now: int)
    requires SysOk(cfg, s) && WellFormedRequest(r) && k in s.store && Offered(cfg, r, k)
    ensures Decide(cfg, r, s.store[k], now) != Crash
  {
    hide Decide, WellFormedRequest, Offered, ExchangeOk, Made, Backed, Selected, Unconditional;
    var x, d, t := Backer(cfg, s, k);
    DecideIff(cfg, r, x, d, t, s.store[k], now);
  }

  /** The outcome of the loop does not depend on the order in which the provider lists the entries. */
  lemma OrderDoesNotMatter(cfg: Config, s: Sys, r: Request, names: seq<string>,
                           todo: seq<CacheEntry>, other: seq<CacheEntry>, now: int)
    requires SysOk(cfg, s) && WellFormedRequest(r) && Uniform(cfg, s, r, names)
    requires Lists(cfg, s.store, r, todo) && Lists(cfg, s.store, r, other)
    ensures PlanFor(cfg, r, todo, now) == PlanFor(cfg, r, other, now)
  {
    hide Decide, Uniform, WellFormedRequest, PlanFor, Offered, ExchangeOk, Made, Backed, SysOk;
    if k :| k in s.store && Offered(cfg, r, k) && !Decide(cfg, r, s.store[k], now).Forward? {
      PlanOfSelected(cfg, s, r, names, todo, now, k);
      PlanOfSelected(cfg, s, r, names, other, now, k);
    } else {
      PlanOfNone(cfg, r, todo, now);
      PlanOfNone(cfg, r, other, now);
    }
  }

  /**
   Hit completeness: with one Vary list at the URI, a request is served an offered entry without
   contact with the origin exactly when the entry's response may be chosen for it, carries no
   `no-cache` and has not reached its stale instant.
   */
  lemma ServedIff(cfg: Config, s: Sys, r: Request, names: seq<string>, todo: seq<CacheEntry>,
                  x: Exchange, decided: int, received: int, k: string, lo: int)
    requires SysOk(cfg, s) && WellFormedRequest(r) && Uniform(cfg, s, r, names) && Lists(cfg, s.store, r, todo)
    requires k in s.store && Offered(cfg, r, k)
    requires x in s.hist && Made(cfg, x, decided, received, s.store[k])
    requires SaneResponse(cfg.dates, StoredHeader(x), lo, s.store[k].receivedAt, s.store[k].requestedAt, s.now)
    ensures PlanFor(cfg, r, todo, s.now) == Serve(s.store[k]) <==>
      && Selected(r, x)
      && "no-cache" !in CC.HeaderDirectives(StoredHeader(x))
      && s.now < StaleInstant(cfg.dates, StoredHeader(x), s.store[k].receivedAt, s.store[k].requestedAt)
  {
    hide Decide, Uniform, WellFormedRequest, PlanFor, Offered, Made, Backed, Selected, SaneResponse, StaleInstant,
         IsFresh, CC.HeaderDirectives, FixPragma;
    var e := s.store[k];
    assert ExchangeOk(x);
    DecideIff(cfg, r, x, decided, received, e, s.now);
    FreshUntilStale(cfg.dates, StoredHeader(x), lo, e.receivedAt, e.requestedAt, s.now);
    PlanComesFromEntry(cfg, r, todo, s.now);
    if Decide(cfg, r, e, s.now) == Reuse {
      PlanOfSelected(cfg, s, r, names, todo, s.now, k);
    }
  }

  /** A repeated request — same method, URI and header — may always be chosen its own response. */
  lemma OwnRequestSelects(x: Exchange)
    ensures Selected(x.request, x) <==>
      && "*" !in VaryList(x.reply.header)
      && (x.request.verb == "GET" || x.request.verb == "HEAD" || "safe" in CC.HeaderDirectives(StoredHeader(x)))
  {
    hide ListHeader, CC.HeaderDirectives, FixPragma;
    if "*" !in VaryList(x.reply.header) { MatchSelf(x.request.header, VaryList(x.reply.header)); }
  }

  /**
   The expiry index over stored entries: an entry with an explicit whole-second lifetime that is
   served unconditionally has not reached its stored expiry.
   */
  lemma ServedBeforeExpiry(cfg: Config, r: Request, x: Exchange, decided: int, received: int, e: CacheEntry,
                           lo: int, now: int)
    requires OriginId(cfg.origin) && ExchangeOk(x) && Made(cfg, x, decided, received, e) && received <= now
    requires WellFormedRequest(r) && Offered(cfg, r, e.key) && Decide(cfg, r, e, now) == Reuse
    requires SaneResponse(cfg.dates, x.reply.header, lo, e.receivedAt, e.requestedAt, now)
    requires var ttl := FreshnessLifetime(cfg.dates, x.reply.header, decided); ttl != 0 && ttl % SECOND == 0
    ensures now < e.expires
  {
    hide Decide, WellFormedRequest, Offered, Selected, SaneResponse, FreshnessLifetime, IsFresh, GetExpiration,
         CC.HeaderDirectives, Replayable;
    DecideIff(cfg, r, x, decided, received, e, now);
    NoCacheIsVisible(x.reply.header);
    ExpiryNotUndercut(cfg.dates, x.reply.header, lo, x.start, decided, received, now);
  }

  /** What net/http derives from Pragma is a `no-cache`; otherwise the header is untouched. */
  lemma NoCacheIsVisible(h: Header)
    ensures "no-cache" !in CC.HeaderDirectives(FixPragma(h)) ==> FixPragma(h) == h
  {
    hide CanonicalName, CC.Pieces, CC.Collect, CC.DirectiveName;
    var g := FixPragma(h);
    if g != h {
      CacheControlIsCanonical();
      assert Values(g, "Cache-Control") == ["no-cache"];
      NoCachePiece();
      CC.OnlyDirective("no-cache", "no-cache");
    }
  }

  lemma NoCachePiece()
    ensures CC.Pieces(["no-cache"]) == ["no-cache"] && CC.DirectiveName("no-cache") == "no-cache"
  {
    hide Index;
    var line := "no-cache";
    forall i: int ensures !OccursAt(line, ", ", i) && !OccursAt(line, "=", i) {
      if 0 <= i <= |line| - 2 { assert line[i..i + 2][0] == line[i] && line[i..i + 2][1] == line[i + 1]; }
      if 0 <= i <= |line| - 1 { assert line[i..i + 1][0] == line[i]; }
    }
    IndexIs(line, ", ", -1);
    IndexIs(line, "=", -1);
    CC.OnePiece(line);
    assert ToLower(line) == line;
  }
}
