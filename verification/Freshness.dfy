/**
 Age and freshness (sections 4.2.1 and 4.2.3 of RFC 9111) in the cache's own arithmetic: instants
 and durations in nanoseconds, `Time.Sub` saturating and `Duration` arithmetic wrapping at 64 bits.
 */
module Freshness {
  import opened Text
  import opened Http
  import CC = CacheControl

  const SECOND := 1_000_000_000
  const MAX_DURATION := 0x7fff_ffff_ffff_ffff
  const MIN_DURATION := -0x8000_0000_0000_0000
  /** Go's zero time, the first instant of year 1. */
  const ZERO_TIME := -62_135_596_800 * SECOND
  const CENTURY := 3_155_760_000 * SECOND

  /** HTTP-date parsing. */
  type DateParser = string -> Option<int>

  function Wrap(x: int): (r: int)
    ensures MIN_DURATION <= r <= MAX_DURATION
    ensures MIN_DURATION <= x <= MAX_DURATION ==> r == x
  {
    (x + 0x8000_0000_0000_0000) % 0x1_0000_0000_0000_0000 - 0x8000_0000_0000_0000
  }

  function Sub(t: int, u: int): (r: int)
    ensures MIN_DURATION <= r <= MAX_DURATION
  {
    if t - u > MAX_DURATION then MAX_DURATION
    else if t - u < MIN_DURATION then MIN_DURATION
    else t - u
  }

  function Max(a: int, b: int): int { if a > b then a else b }

  /** The whole second an instant lies in. */
  function Floor(t: int): int { t / SECOND * SECOND }

  /* Delta-seconds. */

  function DeltaSeconds(s: string): Option<int> {
    var n := ParseUint64(s);
    if n.None? then None else Some(Wrap(SECOND * Wrap(n.value)))
  }

  /** The conversion is exact precisely up to 9223372036 seconds; beyond that it wraps around. */
  lemma DeltaSecondsExactIff(digits: string)
    requires ParseUint64(digits).Some?
    ensures var n := ParseUint64(digits).value; DeltaSeconds(digits) == Some(n * SECOND) <==> n <= 9_223_372_036
  {}

  /**
   Past the limit, for another 292 years' worth of seconds, the lifetime is negative and not the
   large value section 1.2.2 asks for.
   */
  lemma DeltaSecondsTurnsNegative(digits: string)
    requires ParseUint64(digits).Some? && 9_223_372_036 < ParseUint64(digits).value <= 18_446_744_073
    ensures DeltaSeconds(digits).Some? && DeltaSeconds(digits).value < 0
  {}

  /* Section 4.2.3. */

  function AgeValue(h: Header): int {
    var first := Before(Before(Get(h, "Age"), ", "), ";");
    if first == "" then 0
    else var age := DeltaSeconds(first); if age.None? then 0 else age.value
  }

  function ParsedDate(dates: DateParser, h: Header): Option<int> {
    if Get(h, "Date") != "" then dates(Get(h, "Date")) else None
  }

  function DateValue(dates: DateParser, h: Header): int {
    var d := ParsedDate(dates, h);
    if d.None? then ZERO_TIME else d.value
  }

  function ApparentAge(date: int, responseTime: int): int {
    Max(0, Sub(responseTime, date))
  }

  function CorrectedAgeValue(age: int, responseTime: int, requestTime: int): int {
    Wrap(age + Sub(responseTime, requestTime))
  }

  function CorrectedInitialAge(age: int, date: int, responseTime: int, requestTime: int): int {
    Max(ApparentAge(date, responseTime), CorrectedAgeValue(age, responseTime, requestTime))
  }

  function CurrentAge(age: int, date: int, responseTime: int, requestTime: int, now: int): int {
    Wrap(CorrectedInitialAge(age, date, responseTime, requestTime) + Sub(now, responseTime))
  }

  /** The formula of section 4.2.3 over unbounded numbers. */
  function RfcAge(age: int, date: int, responseTime: int, requestTime: int, now: int): int {
    Max(Max(0, responseTime - date), age + (responseTime - requestTime)) + (now - responseTime)
  }

  predicate Within(lo: int, t: int) { lo <= t <= lo + CENTURY }

  /** All instants lie in one century and the received age is at most 2^31 seconds. */
  predicate Sane(lo: int, age: int, date: int, responseTime: int, requestTime: int, now: int) {
    && 0 <= age <= 0x8000_0000 * SECOND
    && Within(lo, date) && Within(lo, responseTime) && Within(lo, requestTime) && Within(lo, now)
  }

  lemma MachineAgeIsRfcAge(lo: int, age: int, date: int, responseTime: int, requestTime: int, now: int)
    requires Sane(lo, age, date, responseTime, requestTime, now)
    ensures CurrentAge(age, date, responseTime, requestTime, now)
         == RfcAge(age, date, responseTime, requestTime, now)
  {}

  /** With request before response before now, age is the largest of three elapsed times. */
  lemma RfcAgeIsMaximum(age: int, date: int, responseTime: int, requestTime: int, now: int)
    requires requestTime <= responseTime <= now
    ensures var a := RfcAge(age, date, responseTime, requestTime, now);
      && a >= now - responseTime && a >= now - date && a >= age + now - requestTime
      && (a == now - responseTime || a == now - date || a == age + now - requestTime)
  {}

  lemma FloorBounds(t: int)
    ensures Floor(t) <= t < Floor(t) + SECOND && Floor(t) % SECOND == 0
  {}

  lemma FloorMonotone(t: int, u: int)
    requires t <= u
    ensures Floor(t) <= Floor(u)
  {}

  /** Keeping whole seconds only makes a response older, by less than a second. */
  lemma PersistedAgeIsConservative(age: int, date: int, responseTime: int, requestTime: int, now: int)
    requires requestTime <= responseTime <= now
    ensures var exact := RfcAge(age, date, responseTime, requestTime, now);
      var kept := RfcAge(age, date, Floor(responseTime), Floor(requestTime), now);
      exact <= kept < exact + SECOND
  {
    FloorBounds(responseTime);
    FloorBounds(requestTime);
    FloorMonotone(requestTime, responseTime);
    RfcAgeIsMaximum(age, date, responseTime, requestTime, now);
    RfcAgeIsMaximum(age, date, Floor(responseTime), Floor(requestTime), now);
  }

  /* Section 4.2.1. */

  function DirectiveSeconds(cc: CC.Directives, name: string): Option<int> {
    if name in cc && cc[name] != "" then DeltaSeconds(cc[name]) else None
  }

  function FreshnessLifetime(dates: DateParser, h: Header, now: int): int {
    var cc := CC.HeaderDirectives(h);
    var sMaxAge := DirectiveSeconds(cc, "s-maxage");
    if sMaxAge.Some? then sMaxAge.value
    else
      var maxAge := DirectiveSeconds(cc, "max-age");
      if maxAge.Some? then maxAge.value
      else
        var expires := dates(Get(h, "Expires"));
        if expires.None? then 0
        else
          var date := dates(Get(h, "Date"));
          if date.Some? then Sub(expires.value, date.value) else Sub(expires.value, now)
  }

  /** Section 4.2.1 as the first match of its rules: s-maxage, then max-age, then Expires minus Date. */
  lemma LifetimeIsFirstMatch(dates: DateParser, h: Header, n: nat, now: int)
    requires n <= 9_223_372_036
    ensures var cc, lifetime := CC.HeaderDirectives(h), FreshnessLifetime(dates, h, now);
      var noAge := (name: string) => name !in cc || ParseUint64(cc[name]).None?;
      && ("s-maxage" in cc && ParseUint64(cc["s-maxage"]) == Some(n) ==> lifetime == n * SECOND)
      && (noAge("s-maxage") && "max-age" in cc && ParseUint64(cc["max-age"]) == Some(n) ==> lifetime == n * SECOND)
      && (noAge("s-maxage") && noAge("max-age") ==>
            var expires, date := dates(Get(h, "Expires")), dates(Get(h, "Date"));
            && (expires.None? ==> lifetime == 0)
            && (expires.Some? && date.Some? && -CENTURY <= expires.value - date.value <= CENTURY ==>
                  lifetime == expires.value - date.value)
            && (expires.Some? && date.None? && -CENTURY <= expires.value - now <= CENTURY ==>
                  lifetime == expires.value - now))
  {
    hide CC.HeaderDirectives, Get, ParseUint64;
    LifetimeOfDirective(CC.HeaderDirectives(h), "s-maxage", n);
    LifetimeOfDirective(CC.HeaderDirectives(h), "max-age", n);
  }

  lemma LifetimeOfDirective(cc: CC.Directives, name: string, n: nat)
    requires n <= 9_223_372_036
    ensures name in cc && ParseUint64(cc[name]) == Some(n) ==> DirectiveSeconds(cc, name) == Some(n * SECOND)
    ensures name !in cc || ParseUint64(cc[name]).None? ==> DirectiveSeconds(cc, name).None?
  {
    if name in cc && ParseUint64(cc[name]).Some? { DeltaSecondsExactIff(cc[name]); }
  }

  /** The first member of the Age field counts, up to its parameters. */
  lemma AgeOfDigits(h: Header, digits: string, rest: string)
    requires ParseUint64(digits).Some? && ParseUint64(digits).value <= 9_223_372_036
    requires rest == "" || rest[0] == ';' || ", " <= rest
    requires Get(h, "Age") == digits + rest
    ensures AgeValue(h) == ParseUint64(digits).value * SECOND
  {
    hide Get;
    DeltaSecondsExactIff(digits);
    DigitsBefore(digits, rest);
  }

  /** An Age that is missing, or whose first member is no number, counts as 0. */
  lemma AgeOfOtherText(h: Header)
    requires ParseUint64(Before(Before(Get(h, "Age"), ", "), ";")).None?
    ensures AgeValue(h) == 0
  {
    hide Get, Before, ParseUint64;
  }

  lemma DigitsBefore(digits: string, rest: string)
    requires digits != "" && AllDigits(digits) && (rest == "" || rest[0] == ';' || ", " <= rest)
    ensures Before(Before(digits + rest, ", "), ";") == digits
  {
    hide IndexFrom;
    var s := digits + rest;
    var i := Index(s, ", ");
    forall j | 0 <= j < |digits| ensures !OccursAt(s, ", ", j) {
      assert s[j] == digits[j] && IsDigit(digits[j]);
      assert j + 2 <= |s| ==> s[j..j + 2][0] == s[j];
    }
    if ", " <= rest {
      assert s[|digits|..|digits| + 2] == ", ";
      assert OccursAt(s, ", ", |digits|);
    }
    var head := Before(s, ", ");
    assert head == s[..|head|] && digits <= head;
    assert forall j :: 0 <= j < |digits| ==> head[j] == digits[j] && IsDigit(digits[j]);
    forall j | 0 <= j < |digits| ensures !OccursAt(head, ";", j) {
      assert head[j..j + 1][0] == head[j];
    }
    if |head| > |digits| {
      assert head[|digits|] == ';';
      assert head[|digits|..|digits| + 1] == ";";
      assert OccursAt(head, ";", |digits|);
      IndexIs(head, ";", |digits|);
    } else {
      assert head == digits;
      forall j: int ensures !OccursAt(head, ";", j) {}
    }
  }

  function GetExpiration(dates: DateParser, h: Header, now: int): int {
    var ttl := FreshnessLifetime(dates, h, now);
    if ttl != 0 then now + ttl else ZERO_TIME
  }

  function HeaderAge(dates: DateParser, h: Header, responseTime: int, requestTime: int, now: int): int {
    CurrentAge(AgeValue(h), DateValue(dates, h), responseTime, requestTime, now)
  }

  predicate IsFresh(dates: DateParser, h: Header, responseTime: int, requestTime: int, now: int) {
    FreshnessLifetime(dates, h, now) > HeaderAge(dates, h, responseTime, requestTime, now)
  }

  /** A response whose Date was understood, with all instants in one century. */
  predicate SaneResponse(dates: DateParser, h: Header, lo: int, responseTime: int, requestTime: int, now: int) {
    var d := dates(Get(h, "Date"));
    && Get(h, "Date") != "" && d.Some?
    && Sane(lo, AgeValue(h), d.value, responseTime, requestTime, now)
  }

  /** The age of a response is that of the formula, from the instant its Date field gives. */
  lemma AgeOfDatedResponse(dates: DateParser, h: Header, lo: int, responseTime: int, requestTime: int, now: int)
    requires SaneResponse(dates, h, lo, responseTime, requestTime, now)
    ensures var t := dates(Get(h, "Date")).value; var age := RfcAge(AgeValue(h), t, responseTime, requestTime, now);
      && HeaderAge(dates, h, responseTime, requestTime, now) == age
      && (IsFresh(dates, h, responseTime, requestTime, now) <==> FreshnessLifetime(dates, h, now) > age)
  {
    hide FreshnessLifetime, AgeValue, CurrentAge, RfcAge, Get;
    var t := dates(Get(h, "Date")).value;
    MachineAgeIsRfcAge(lo, AgeValue(h), t, responseTime, requestTime, now);
  }

  /** A Date that is missing or not understood counts as the first instant of the year 1. */
  lemma AgeOfUndatedResponse(dates: DateParser, h: Header, responseTime: int, requestTime: int, now: int)
    requires Get(h, "Date") == "" || dates(Get(h, "Date")).None?
    ensures HeaderAge(dates, h, responseTime, requestTime, now)
         == CurrentAge(AgeValue(h), -62_135_596_800 * 1_000_000_000, responseTime, requestTime, now)
  {
    hide AgeValue, CurrentAge, Get;
  }

  lemma LifetimeIsConstant(dates: DateParser, h: Header, t: int, u: int)
    requires dates(Get(h, "Date")).Some?
    ensures FreshnessLifetime(dates, h, t) == FreshnessLifetime(dates, h, u)
  {}

  /** The instant at which a response turns stale, by the unbounded formula and the lifetime the machine reads. */
  function StaleInstant(dates: DateParser, h: Header, responseTime: int, requestTime: int): int {
    FreshnessLifetime(dates, h, responseTime) + responseTime
    - Max(Max(0, responseTime - RfcDate(dates, h, responseTime)), AgeValue(h) + (responseTime - requestTime))
  }

  /** Section 6.6.1 of RFC 9110: without a Date, the time of receipt. */
  function RfcDate(dates: DateParser, h: Header, receipt: int): int {
    if Get(h, "Date") != "" && dates(Get(h, "Date")).Some? then dates(Get(h, "Date")).value else receipt
  }

  /** With the lifetime the machine reads, it decides freshness as the unbounded formula does. */
  lemma FreshUntilStale(dates: DateParser, h: Header, lo: int, responseTime: int, requestTime: int, now: int)
    requires SaneResponse(dates, h, lo, responseTime, requestTime, now)
    ensures IsFresh(dates, h, responseTime, requestTime, now) <==>
            now < StaleInstant(dates, h, responseTime, requestTime)
  {
    hide FreshnessLifetime, AgeValue, HeaderAge, IsFresh;
    LifetimeIsConstant(dates, h, now, responseTime);
    AgeOfDatedResponse(dates, h, lo, responseTime, requestTime, now);
  }

  lemma StaleStays(dates: DateParser, h: Header, lo: int, responseTime: int, requestTime: int, t: int, u: int)
    requires SaneResponse(dates, h, lo, responseTime, requestTime, t)
    requires SaneResponse(dates, h, lo, responseTime, requestTime, u)
    requires t <= u && !IsFresh(dates, h, responseTime, requestTime, t)
    ensures !IsFresh(dates, h, responseTime, requestTime, u)
  {
    hide FreshnessLifetime, AgeValue, CurrentAge, StaleInstant, IsFresh;
    FreshUntilStale(dates, h, lo, responseTime, requestTime, t);
    FreshUntilStale(dates, h, lo, responseTime, requestTime, u);
  }

  /** Fresh by the kept whole-second times implies fresh by the exact ones. */
  lemma FreshAfterReload(dates: DateParser, h: Header, lo: int, responseTime: int, requestTime: int, now: int)
    requires SaneResponse(dates, h, lo, responseTime, requestTime, now)
    requires Within(lo, Floor(responseTime)) && Within(lo, Floor(requestTime))
    requires requestTime <= responseTime <= now
    requires IsFresh(dates, h, Floor(responseTime), Floor(requestTime), now)
    ensures IsFresh(dates, h, responseTime, requestTime, now)
  {
    hide FreshnessLifetime, AgeValue, CurrentAge;
    var age, date := AgeValue(h), dates(Get(h, "Date")).value;
    MachineAgeIsRfcAge(lo, age, date, responseTime, requestTime, now);
    MachineAgeIsRfcAge(lo, age, date, Floor(responseTime), Floor(requestTime), now);
    PersistedAgeIsConservative(age, date, responseTime, requestTime, now);
  }

  /**
   The stored expiry never undercuts freshness: `start`, `decided` and `received` are the instants
   at which the request began, the expiry was computed and the entry was made.
   */
  lemma ExpiryNotUndercut(dates: DateParser, h: Header, lo: int, start: int, decided: int, received: int, now: int)
    requires start <= decided <= received <= now
    requires SaneResponse(dates, h, lo, Floor(received), Floor(start), now)
    requires FreshnessLifetime(dates, h, decided) != 0 && FreshnessLifetime(dates, h, decided) % SECOND == 0
    requires IsFresh(dates, h, Floor(received), Floor(start), now)
    ensures now < Floor(GetExpiration(dates, h, decided))
  {
    hide FreshnessLifetime, AgeValue, CurrentAge, IsFresh;
    FreshUntilStale(dates, h, lo, Floor(received), Floor(start), now);
    LifetimeIsConstant(dates, h, decided, Floor(received));
    FloorMonotone(start, decided);
    FloorOfSum(decided, FreshnessLifetime(dates, h, decided));
  }

  lemma FloorOfSum(t: int, whole: int)
    requires whole % SECOND == 0
    ensures Floor(t + whole) == Floor(t) + whole
  {
    var k := whole / SECOND;
    assert whole == k * SECOND;
    assert (t + k * SECOND) / SECOND == t / SECOND + k;
  }

  /** Without Age and with a Date after the request, the expiry is late by at most the response delay. */
  lemma ExpiryGap(dates: DateParser, h: Header, start: int, decided: int, received: int)
    requires start <= decided <= received
    requires Get(h, "Date") != "" && dates(Get(h, "Date")).Some?
    requires dates(Get(h, "Date")).value >= Floor(start) && AgeValue(h) == 0
    requires FreshnessLifetime(dates, h, decided) != 0 && FreshnessLifetime(dates, h, decided) % SECOND == 0
    ensures var gap := Floor(GetExpiration(dates, h, decided))
                     - StaleInstant(dates, h, Floor(received), Floor(start));
      0 <= gap <= Floor(received) - Floor(start)
  {
    hide FreshnessLifetime, AgeValue;
    LifetimeIsConstant(dates, h, decided, Floor(received));
    FloorMonotone(start, decided);
    FloorMonotone(decided, received);
    FloorOfSum(decided, FreshnessLifetime(dates, h, decided));
  }

  /* Freshness as the RFC defines it: unbounded numbers, and the list members of the fields. */

  predicate IsNumber(s: string) { s != "" && AllDigits(s) }

  /** The seconds of a directive: its first occurrence counts, and an invalid argument makes it zero. */
  function RfcSeconds(members: seq<string>, name: string): Option<nat> {
    var argument := CC.First(members, name);
    if argument.None? then None
    else Some(if IsNumber(argument.value) then DecimalValue(argument.value) else 0)
  }

  /** Section 4.2.1, without a heuristic: Expires counts only if neither directive is present. */
  function RfcLifetime(dates: DateParser, h: Header, receipt: int): int {
    var members := CC.HeaderMembers(h);
    var shared, own := RfcSeconds(members, "s-maxage"), RfcSeconds(members, "max-age");
    if shared.Some? then shared.value * SECOND
    else if own.Some? then own.value * SECOND
    else
      var expires := dates(Get(h, "Expires"));
      if expires.None? then 0 else expires.value - RfcDate(dates, h, receipt)
  }

  /** Section 5.1: the first member of Age; an invalid one is ignored. */
  function RfcAgeValue(h: Header): nat {
    var members := ListHeader(h, "Age");
    if members != [] && IsNumber(members[0]) then DecimalValue(members[0]) else 0
  }

  /** Section 4.2, with the formula of section 4.2.3. */
  predicate RfcFresh(dates: DateParser, h: Header, responseTime: int, requestTime: int, now: int) {
    RfcLifetime(dates, h, responseTime)
    > RfcAge(RfcAgeValue(h) * SECOND, RfcDate(dates, h, responseTime), responseTime, requestTime, now)
  }

  /** The instant at which a response turns stale by the RFC. */
  function RfcStaleInstant(dates: DateParser, h: Header, responseTime: int, requestTime: int): int {
    RfcLifetime(dates, h, responseTime) + responseTime
    - Max(Max(0, responseTime - RfcDate(dates, h, responseTime)),
          RfcAgeValue(h) * SECOND + (responseTime - requestTime))
  }

  lemma RfcFreshUntilStale(dates: DateParser, h: Header, responseTime: int, requestTime: int, now: int)
    ensures RfcFresh(dates, h, responseTime, requestTime, now) <==>
            now < RfcStaleInstant(dates, h, responseTime, requestTime)
  {
    hide RfcLifetime, RfcAgeValue, RfcDate;
  }

  /* Where the machine may judge otherwise. */

  function InNanoseconds(n: Option<nat>): Option<int> {
    if n.None? then None else Some(n.value * SECOND)
  }

  /** The machine reads another lifetime, or none: from another text, or by wrapping around. */
  predicate SecondsMisread(h: Header, name: string) {
    DirectiveSeconds(CC.HeaderDirectives(h), name) != InNanoseconds(RfcSeconds(CC.HeaderMembers(h), name))
  }

  predicate AgeMisread(h: Header) { AgeValue(h) != RfcAgeValue(h) * SECOND }

  /** Date, request and now lie within a century, and the received age is at most 2^31 seconds. */
  predicate OneCentury(dates: DateParser, h: Header, requestTime: int, now: int) {
    var date, start := RfcDate(dates, h, requestTime), Floor(requestTime);
    && AgeValue(h) <= 0x8000_0000 * SECOND
    && now - start <= CENTURY && now - date <= CENTURY && date - start <= CENTURY
  }

  /** The machine's freshness need not be the RFC's. */
  predicate Misjudged(dates: DateParser, h: Header, requestTime: int, now: int) {
    || SecondsMisread(h, "s-maxage") || SecondsMisread(h, "max-age") || AgeMisread(h)
    || Get(h, "Date") == "" || dates(Get(h, "Date")).None?
    || !OneCentury(dates, h, requestTime, now)
  }

  lemma LifetimeWithinRange(dates: DateParser, h: Header, responseTime: int, now: int)
    requires !SecondsMisread(h, "s-maxage") && !SecondsMisread(h, "max-age")
    requires Get(h, "Date") != "" && dates(Get(h, "Date")).Some?
    ensures var machine, rfc := FreshnessLifetime(dates, h, now), RfcLifetime(dates, h, responseTime);
      machine == if rfc > MAX_DURATION then MAX_DURATION else if rfc < MIN_DURATION then MIN_DURATION else rfc
  {
    hide CC.HeaderDirectives, CC.HeaderMembers, Get, RfcSeconds, DeltaSeconds;
    DirectiveInRange(CC.HeaderDirectives(h), "s-maxage");
    DirectiveInRange(CC.HeaderDirectives(h), "max-age");
  }

  lemma DirectiveInRange(cc: CC.Directives, name: string)
    ensures var d := DirectiveSeconds(cc, name); d.Some? ==> MIN_DURATION <= d.value <= MAX_DURATION
  {}

  /** Where nothing is misread, the machine's freshness is the RFC's, by the kept whole-second times. */
  lemma FreshIsRfcFreshIff(dates: DateParser, h: Header, start: int, received: int, now: int)
    requires start <= received <= now && !Misjudged(dates, h, start, now)
    ensures IsFresh(dates, h, Floor(received), Floor(start), now) <==>
            RfcFresh(dates, h, Floor(received), Floor(start), now)
  {
    hide FreshnessLifetime, RfcLifetime, AgeValue, RfcAgeValue, CurrentAge, SecondsMisread, Floor;
    FloorMonotone(start, received);
    FloorBounds(received);
    LifetimeWithinRange(dates, h, Floor(received), now);
    var date := dates(Get(h, "Date")).value;
    var lo := if date < Floor(start) then date else Floor(start);
    MachineAgeIsRfcAge(lo, AgeValue(h), date, Floor(received), Floor(start), now);
    RfcAgeIsMaximum(AgeValue(h), date, Floor(received), Floor(start), now);
  }

  /** Fresh by the kept times is fresh by the instants at which the request was sent and answered. */
  lemma KeptFreshIsFresh(dates: DateParser, h: Header, start: int, end: int, received: int, now: int)
    requires start <= end <= received <= now && Get(h, "Date") != "" && dates(Get(h, "Date")).Some?
    requires RfcFresh(dates, h, Floor(received), Floor(start), now)
    ensures RfcFresh(dates, h, end, start, now)
  {
    hide RfcSeconds, RfcAgeValue, CC.HeaderMembers, Get, Floor;
    FloorMonotone(start, received);
    FloorBounds(received);
    FloorBounds(start);
    var age, date := RfcAgeValue(h) * SECOND, RfcDate(dates, h, end);
    RfcAgeIsMaximum(age, date, Floor(received), Floor(start), now);
    RfcAgeIsMaximum(age, date, end, start, now);
  }

  /** What the machine takes for fresh is fresh by the RFC, unless something was misread. */
  lemma FreshMeansRfcFresh(dates: DateParser, h: Header, start: int, end: int, received: int, now: int)
    requires start <= end <= received <= now && !Misjudged(dates, h, start, now)
    requires IsFresh(dates, h, Floor(received), Floor(start), now)
    ensures RfcFresh(dates, h, end, start, now)
  {
    hide IsFresh, RfcFresh, SecondsMisread, AgeMisread, OneCentury, Floor;
    FreshIsRfcFreshIff(dates, h, start, received, now);
    KeptFreshIsFresh(dates, h, start, end, received, now);
  }

  /** A response that cannot be misread: one number for each lifetime and for Age, commas with spaces, a Date. */
  predicate PlainResponse(dates: DateParser, h: Header) {
    && CC.WellSpaced(Values(h, "Cache-Control"))
    && PlainSeconds(h, "s-maxage") && PlainSeconds(h, "max-age")
    && Get(h, "Date") != "" && dates(Get(h, "Date")).Some?
    && var ages := Values(h, "Age");
       ages == [] || (|ages| == 1 && IsNumber(ages[0]) && DecimalValue(ages[0]) <= 0x8000_0000)
  }

  predicate PlainSeconds(h: Header, name: string) {
    var cc := CC.HeaderDirectives(h);
    && CC.Once(CC.Pieces(Values(h, "Cache-Control")), name)
    && (name in cc ==> IsNumber(cc[name]) && DecimalValue(cc[name]) <= 9_223_372_036)
  }

  lemma PlainIsReadRight(dates: DateParser, h: Header)
    requires PlainResponse(dates, h)
    ensures !SecondsMisread(h, "s-maxage") && !SecondsMisread(h, "max-age") && !AgeMisread(h)
    ensures AgeValue(h) <= 0x8000_0000 * SECOND
  {
    hide SecondsMisread, PlainSeconds, AgeValue, RfcAgeValue, CC.WellSpaced, Values;
    PlainSecondsAreRead(h, "s-maxage");
    PlainSecondsAreRead(h, "max-age");
    if Values(h, "Age") == [] {
      NoAgeIsRead(h);
    } else {
      PlainAgeIsRead(h, Values(h, "Age")[0]);
    }
  }

  lemma PlainSecondsAreRead(h: Header, name: string)
    requires CC.WellSpaced(Values(h, "Cache-Control")) && PlainSeconds(h, name)
    ensures !SecondsMisread(h, name)
  {
    hide CC.WellSpaced, CC.Pieces, CC.AllMembers, CC.Collect, CC.First, CC.Once, Values;
    var lines := Values(h, "Cache-Control");
    CC.WellSpacedPieces(lines);
    CC.FirstIsLast(CC.Pieces(lines), name);
    if name in CC.HeaderDirectives(h) { DeltaSecondsExactIff(CC.HeaderDirectives(h)[name]); }
  }

  lemma NoAgeIsRead(h: Header)
    requires Values(h, "Age") == []
    ensures AgeValue(h) == 0 == RfcAgeValue(h)
  {
    hide Values, Index;
    assert Before("", ", ") == "" && Before("", ";") == "";
  }

  lemma PlainAgeIsRead(h: Header, age: string)
    requires Values(h, "Age") == [age] && IsNumber(age) && DecimalValue(age) <= 0x8000_0000
    ensures AgeValue(h) == DecimalValue(age) * SECOND && RfcAgeValue(h) == DecimalValue(age)
  {
    hide Values, Split, TrimSpace;
    assert age + "" == age;
    AgeOfDigits(h, age, "");
    ItemsOfOne(age);
    DigitsAreOneItem(age);
    TrimAllOne(age);
  }

  lemma DigitIsPlain(c: char)
    requires IsDigit(c)
    ensures c !in SPACES && c != ','
  {}

  lemma DigitsAreOneItem(digits: string)
    requires IsNumber(digits)
    ensures Split(digits, ",") == [digits] && TrimSpace(digits) == digits
  {
    hide Index, SPACES, IsDigit, Split, TrimSpace;
    forall i | 0 <= i < |digits| ensures digits[i] !in SPACES && digits[i] != ',' { DigitIsPlain(digits[i]); }
    SplitNone(digits, ',');
    CC.TrimSpaceFix(digits);
  }

  /* A response without a usable Date. */

  /**
   Without a Date the apparent age saturates and the sum wraps: the exact age the machine sees.
   The bounds on `responseTime` and `now` hold from the year 293 on, for 292 years after storing.
   */
  lemma DatelessAge(dates: DateParser, h: Header, responseTime: int, requestTime: int, now: int)
    requires Get(h, "Date") == "" || dates(Get(h, "Date")).None?
    requires responseTime - ZERO_TIME >= MAX_DURATION
    requires 0 <= now - responseTime <= MAX_DURATION
    ensures HeaderAge(dates, h, responseTime, requestTime, now)
         == if now == responseTime then MAX_DURATION else MIN_DURATION + (now - responseTime) - 1
  {
    hide AgeValue;
  }

  /**
   So such a response counts as fresh as soon as the clock has moved: forever if its lifetime is not
   negative, and otherwise until the wrapped age reaches the lifetime, which takes nearly as long.
   */
  lemma DatelessFreshIff(dates: DateParser, h: Header, responseTime: int, requestTime: int, now: int)
    requires Get(h, "Date") == "" || dates(Get(h, "Date")).None?
    requires responseTime - ZERO_TIME >= MAX_DURATION
    requires 0 <= now - responseTime <= MAX_DURATION
    ensures IsFresh(dates, h, responseTime, requestTime, now) <==>
            0 < now - responseTime <= FreshnessLifetime(dates, h, now) - MIN_DURATION
  {
    hide FreshnessLifetime, HeaderAge, AgeValue;
    DatelessAge(dates, h, responseTime, requestTime, now);
    LifetimeRange(dates, h, now);
  }

  lemma LifetimeRange(dates: DateParser, h: Header, now: int)
    ensures MIN_DURATION <= FreshnessLifetime(dates, h, now) <= MAX_DURATION
  {
    hide CC.HeaderDirectives, Get;
  }

  /* The Age field of a served response. */

  /** `%.f` of the duration in seconds: rounding to the nearest, ties to even. */
  function RoundSeconds(d: int): int {
    var q, rest := d / SECOND, d % SECOND;
    if 2 * rest < SECOND || (2 * rest == SECOND && q % 2 == 0) then q else q + 1
  }

  function AgeText(d: int): string { FormatInt(RoundSeconds(d)) }

  /** The text parses back to a number of seconds within half a second of the duration. */
  lemma AgeTextRounds(d: int)
    requires MIN_DURATION <= d <= MAX_DURATION
    ensures var n := ParseInt64(AgeText(d));
      && n.Some? && -1_000_000_000 <= 2 * (n.value * 1_000_000_000 - d) <= 1_000_000_000
      && (2 * d % 2_000_000_000 == 1_000_000_000 ==> n.value % 2 == 0)
  {
    var q, rest := d / SECOND, d % SECOND;
    assert d == q * SECOND + rest && 0 <= rest < SECOND;
    ParseFormatInt(RoundSeconds(d));
  }
}
