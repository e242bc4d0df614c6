/** Which responses may be stored: section 3 of RFC 9111 as the cache evaluates it. */
module StoreGate {
  import opened Text
  import opened Http
  import CC = CacheControl

  predicate UnsafeRequest(r: Request) { r.verb != "GET" && r.verb != "HEAD" }

  predicate MethodUnderstood(verb: string) { verb == "GET" || verb == "POST" }

  predicate StatusUnderstood(status: int) { status == 200 }

  predicate StatusFinal(status: int) { 200 <= status <= 599 }

  predicate StatusUnderstoodIfNeeded(status: int, cc: CC.Directives) {
    if status == 206 || status == 304 || "must-understand" in cc then StatusUnderstood(status) else true
  }

  /** Section 3.5: the directives that allow storing responses to authenticated requests. */
  predicate SharedExplicitly(cc: CC.Directives) { "public" in cc || "s-maxage" in cc }

  predicate HasFreshness(h: Header, cc: CC.Directives) {
    "public" in cc || Get(h, "Expires") != "" || "max-age" in cc || "s-maxage" in cc
  }

  /**
   The condition of `mustNotStore`, negated. The language groups `&&` before `||`, so the test on
   `Authorization` ends the first alternative and the one on freshness belongs to the second.
   */
  predicate MayStore(r: Request, status: int, h: Header) {
    var cc := CC.HeaderDirectives(h);
    || (MethodUnderstood(r.verb)
        && StatusFinal(status)
        && StatusUnderstoodIfNeeded(status, cc)
        && "no-store" !in cc
        && "private" !in cc
        && Get(r.header, "Authorization") == "")
    || (SharedExplicitly(cc) && HasFreshness(h, cc))
  }

  /** `MustNotStore`: the guards before the condition, then the condition. */
  predicate Storable(r: Request, status: int, h: Header) {
    h != map[] && status != 0 && r.verb != "" && MayStore(r, status, h)
  }

  /* Section 3 of RFC 9111, over the list members of Cache-Control. */

  /** Section 15.1 of RFC 9110. */
  predicate HeuristicallyCacheable(status: int) {
    status in {200, 203, 204, 206, 300, 301, 308, 404, 405, 410, 414, 501}
  }

  /** Section 3.5: the directives that allow a shared cache to store a response to an authenticated request. */
  predicate AllowedWhenAuthorized(h: Header) {
    var members := CC.HeaderMembers(h);
    CC.Names(members, "must-revalidate") || CC.Names(members, "public") || CC.Names(members, "s-maxage")
  }

  /** The tests on method, status and the directives that forbid storing. */
  predicate MayBeStored(r: Request, status: int, h: Header) {
    var members := CC.HeaderMembers(h);
    && MethodUnderstood(r.verb)
    && StatusFinal(status)
    && (status == 206 || status == 304 || CC.Names(members, "must-understand") ==> StatusUnderstood(status))
    && !CC.Names(members, "no-store") && !CC.Names(members, "private")
  }

  /** The response says how long it is fresh, or a heuristic may. */
  predicate FreshnessKnown(status: int, h: Header) {
    var members := CC.HeaderMembers(h);
    || CC.Names(members, "public") || !FieldAbsent(h, "Expires")
    || CC.Names(members, "max-age") || CC.Names(members, "s-maxage")
    || HeuristicallyCacheable(status)
  }

  /** The requirements of section 3 on a shared cache that stores responses as they are. */
  predicate Section3(r: Request, status: int, h: Header) {
    && MayBeStored(r, status, h)
    && (FieldAbsent(r.header, "Authorization") || AllowedWhenAuthorized(h))
    && FreshnessKnown(status, h)
  }

  /** What every stored response satisfies: it is shared explicitly, or it passed all the tests but freshness. */
  predicate StoredLegitimately(r: Request, status: int, h: Header) {
    var cc := CC.HeaderDirectives(h);
    || "public" in cc || "s-maxage" in cc
    || (&& (r.verb == "GET" || r.verb == "POST")
        && Get(r.header, "Authorization") == ""
        && 200 <= status <= 599
        && (status == 206 || status == 304 || "must-understand" in cc ==> status == 200)
        && "no-store" !in cc && "private" !in cc)
  }

  /** The operation's own decision: only a reply without any field is refused beyond that. */
  lemma StorableIff(r: Request, status: int, h: Header)
    requires status != 0 && r.verb != ""
    ensures Storable(r, status, h) <==> h != map[] && StoredLegitimately(r, status, h)
  {
    hide CC.HeaderDirectives, Get;
    MayStoreIff(r, status, h);
  }

  lemma MayStoreIff(r: Request, status: int, h: Header)
    ensures MayStore(r, status, h) <==> StoredLegitimately(r, status, h)
  {
    hide CC.HeaderDirectives, Get;
  }

  /** The tests of the first alternative of `MayStore`, without the one on Authorization. */
  predicate PassesTests(r: Request, status: int, h: Header) {
    var cc := CC.HeaderDirectives(h);
    && MethodUnderstood(r.verb) && StatusFinal(status) && StatusUnderstoodIfNeeded(status, cc)
    && "no-store" !in cc && "private" !in cc
  }

  /** A directive that forbids storing is a member, and the parser does not find it. */
  predicate RefusalHidden(status: int, h: Header) {
    || CC.Hidden(h, "no-store") || CC.Hidden(h, "private")
    || (CC.Hidden(h, "must-understand") && !StatusUnderstood(status))
  }

  /** The parser finds a directive that forbids storing, and it is no member. */
  predicate RefusalInvented(status: int, h: Header) {
    || CC.Invented(h, "no-store") || CC.Invented(h, "private")
    || (CC.Invented(h, "must-understand") && !StatusUnderstood(status))
  }

  /** The tests differ from those of section 3 exactly by misread directives. */
  lemma PassesTestsIff(r: Request, status: int, h: Header)
    ensures PassesTests(r, status, h) && !MayBeStored(r, status, h) <==>
            PassesTests(r, status, h) && RefusalHidden(status, h)
    ensures MayBeStored(r, status, h) && !PassesTests(r, status, h) <==>
            MayBeStored(r, status, h) && RefusalInvented(status, h)
  {
    hide CC.HeaderDirectives, CC.HeaderMembers, CC.Names;
  }

  /**
   Exactly when the code stores what section 3 forbids: an explicitly shared response fails a test; a
   directive that forbids storing is hidden; the Authorization is there but empty, or the directive
   that shares is no member; or nothing says how long the response is fresh. The last two cases name
   the clause that fails; for the tests, `PassesTestsIff` says by which misread directive they do.
   */
  lemma StoresTooMuchIff(r: Request, status: int, h: Header)
    ensures var cc := CC.HeaderDirectives(h);
      (MayStore(r, status, h) && !Section3(r, status, h)) <==>
      || (SharedExplicitly(cc) && !MayBeStored(r, status, h))
      || (PassesTests(r, status, h) && Get(r.header, "Authorization") == "" && RefusalHidden(status, h))
      || (MayStore(r, status, h) && !FieldAbsent(r.header, "Authorization") && !AllowedWhenAuthorized(h))
      || (MayStore(r, status, h) && !FreshnessKnown(status, h))
  {
    hide CC.HeaderDirectives, CC.HeaderMembers, CC.Names, Get, FreshnessKnown, AllowedWhenAuthorized, RefusalHidden,
         MayBeStored, FieldAbsent, StatusUnderstoodIfNeeded;
    PassesTestsIff(r, status, h);
  }

  /**
   Exactly when the code refuses what section 3 allows: the parser finds no `public` or `s-maxage`, and
   the request is authenticated or the parser finds a directive that forbids storing and is none.
   */
  lemma StoresTooLittleIff(r: Request, status: int, h: Header)
    ensures (Section3(r, status, h) && !MayStore(r, status, h)) <==>
      && Section3(r, status, h) && !SharedExplicitly(CC.HeaderDirectives(h))
      && (Get(r.header, "Authorization") != "" || RefusalInvented(status, h))
  {
    hide CC.HeaderDirectives, CC.HeaderMembers, CC.Names, Get, FreshnessKnown, AllowedWhenAuthorized, RefusalInvented,
         MayBeStored, FieldAbsent, StatusUnderstoodIfNeeded;
    PassesTestsIff(r, status, h);
  }

  /**
   With commas and spaces where the parser expects them, and an Authorization that is not empty if it
   is there, the differences are these: explicit sharing overrides the other tests, responses without
   freshness are stored, and `must-revalidate` does not let an authenticated response be stored.
   */
  lemma WellSpacedStoresIff(r: Request, status: int, h: Header)
    requires CC.WellSpaced(Values(h, "Cache-Control"))
    requires FieldAbsent(r.header, "Authorization") <==> Get(r.header, "Authorization") == ""
    ensures var cc := CC.HeaderDirectives(h);
      && ((MayStore(r, status, h) && !Section3(r, status, h)) <==>
            || (SharedExplicitly(cc) && !PassesTests(r, status, h))
            || (PassesTests(r, status, h) && Get(r.header, "Authorization") == "" && !FreshnessKnown(status, h)))
      && ((Section3(r, status, h) && !MayStore(r, status, h)) <==>
            && Section3(r, status, h) && Get(r.header, "Authorization") != "" && !SharedExplicitly(cc))
  {
    hide CC.WellSpaced, CC.HeaderDirectives, CC.HeaderMembers, CC.Names, Get, FieldAbsent, CC.Hidden, CC.Invented;
    WellSpacedNames(h);
    WellSpacedRefusals(status, h);
    PassesTestsIff(r, status, h);
  }

  lemma WellSpacedNames(h: Header)
    requires CC.WellSpaced(Values(h, "Cache-Control"))
    ensures var members, cc := CC.HeaderMembers(h), CC.HeaderDirectives(h);
      && (CC.Names(members, "public") <==> "public" in cc)
      && (CC.Names(members, "s-maxage") <==> "s-maxage" in cc)
  {
    hide CC.WellSpaced, CC.HeaderDirectives, CC.HeaderMembers, CC.Names;
    CC.WellSpacedIsReadRight(h, "public");
    CC.WellSpacedIsReadRight(h, "s-maxage");
  }

  lemma WellSpacedRefusals(status: int, h: Header)
    requires CC.WellSpaced(Values(h, "Cache-Control"))
    ensures !RefusalHidden(status, h) && !RefusalInvented(status, h)
  {
    hide CC.WellSpaced, CC.Hidden, CC.Invented;
    CC.WellSpacedIsReadRight(h, "no-store");
    CC.WellSpacedIsReadRight(h, "private");
    CC.WellSpacedIsReadRight(h, "must-understand");
  }

  lemma CacheControlIsCanonical()
    ensures CanonicalName("Cache-Control") == "Cache-Control"
  {
    assert IsToken("Cache-Control");
  }

  /** A header with Cache-Control alone, as its directives see it. */
  lemma OnlyCacheControl(lines: seq<string>)
    ensures var h: Header := map["Cache-Control" := lines];
      CC.HeaderDirectives(h) == CC.Parse(lines) && CC.HeaderMembers(h) == CC.AllMembers(lines)
  {
    hide CC.Parse, CC.AllMembers, CanonicalName;
    CacheControlIsCanonical();
  }

  lemma SharedIsStored(r: Request, status: int, h: Header)
    requires "public" in CC.HeaderDirectives(h)
    ensures MayStore(r, status, h)
  {
    hide CC.HeaderDirectives, Get;
  }

  lemma ForbiddenBySection3(r: Request, status: int, h: Header)
    requires CC.Names(CC.HeaderMembers(h), "no-store")
    ensures !Section3(r, status, h)
  {
    hide CC.HeaderMembers, CC.Names;
  }

  /** The words of the witnesses. */
  lemma OneWord(word: string)
    requires word == "public" || word == "no-store" || word == "private" || word == "no-cache"
    ensures CC.Pieces([word]) == [word] == CC.AllMembers([word]) == CC.Members(word) && CC.DirectiveName(word) == word
    ensures ToLower(word) == word
    ensures ',' !in word && '=' !in word && '"' !in word && Trimmed(word, SPACES) && word[0] != ' '
  {
    hide CC.Pieces, CC.AllMembers, CC.Members, CC.DirectiveName;
    assert Trimmed(word, SPACES);
    CC.MemberAlone(word);
    CC.WordIsItsName(word);
    assert ToLower(word) == word;
  }

  /** Two lines of one word each. */
  lemma TwoWords(a: string, b: string)
    requires CC.Pieces([a]) == [a] == CC.AllMembers([a]) && CC.Pieces([b]) == [b] && CC.Members(b) == [b]
    ensures CC.Pieces([a, b]) == [a, b] == CC.AllMembers([a, b])
  {
    hide CC.Pieces, CC.Members;
    assert [a] + [b] == [a, b] && [a, b][..1] == [a];
    CC.PiecesAppend([a], [b]);
  }

  /** For instance, `no-store` does not keep a response out that is also `public`. */
  lemma PublicNoStoreIsStored(r: Request, status: int)
    ensures var h: Header := map["Cache-Control" := ["public", "no-store"]];
      "no-store" in CC.HeaderDirectives(h) && MayStore(r, status, h) && !Section3(r, status, h)
  {
    hide CC.Pieces, CC.AllMembers, CC.Collect, CC.DirectiveName, CC.HeaderDirectives, CC.HeaderMembers, MayStore,
         Section3, Trimmed, ToLower;
    var lines := ["public", "no-store"];
    var h: Header := map["Cache-Control" := lines];
    OnlyCacheControl(lines);
    OneWord("public");
    OneWord("no-store");
    TwoWords("public", "no-store");
    WordsFound(lines);
    SharedIsStored(r, status, h);
    ForbiddenBySection3(r, status, h);
  }

  lemma WordsFound(lines: seq<string>)
    requires lines == ["public", "no-store"] && CC.DirectiveName("public") == "public"
    requires CC.DirectiveName("no-store") == "no-store"
    ensures "public" in CC.Collect(lines) && "no-store" in CC.Collect(lines) && CC.Names(lines, "no-store")
  {
    hide CC.Collect, CC.DirectiveName;
    CC.LookupIsLast(lines, "public");
    CC.LookupIsLast(lines, "no-store");
    assert CC.DirectiveName(lines[0]) == "public" && CC.DirectiveName(lines[1]) == "no-store";
  }

  /** Two words with a bare comma between them, which the parser reads as one. */
  lemma BareComma(a: string, b: string)
    requires (a == "private" && b == "no-store") || (a == "no-cache" && b == "public")
    ensures var line := a + "," + b;
      && CC.AllMembers([line]) == [a, b] && CC.Names([a, b], a) && CC.Names([a, b], b)
      && forall name :: name in CC.Parse([line]) <==> name == ToLower(line)
  {
    hide CC.Pieces, CC.AllMembers, CC.Members, CC.DirectiveName, ToLower, Trimmed, CC.Collect;
    var line := a + "," + b;
    OneWord(a);
    OneWord(b);
    CC.UnspacedMembers(a, b);
    CC.OneLineMembers(line);
    assert '=' !in line;
    CC.WordIsItsName(line);
    assert CC.DirectiveName([a, b][0]) == a && CC.DirectiveName([a, b][1]) == b;
    forall name ensures name in CC.Parse([line]) <==> name == ToLower(line) {
      CC.OnlyDirective(line, name);
    }
  }

  /** And a response that is meant to be `private` and `no-store` is stored if no space follows the comma. */
  lemma UnspacedPrivateIsStored(r: Request)
    requires r.verb == "GET" && Get(r.header, "Authorization") == ""
    ensures var h: Header := map["Cache-Control" := ["private,no-store"]];
      MayStore(r, 200, h) && !Section3(r, 200, h)
  {
    hide CC.HeaderDirectives, CC.HeaderMembers, Get, CC.Names, CC.Parse, CC.AllMembers;
    BareComma("private", "no-store");
    assert "private" + "," + "no-store" == "private,no-store";
    assert |ToLower("private,no-store")| == 16;
    OnlyCacheControl(["private,no-store"]);
    ForbiddenBySection3(r, 200, map["Cache-Control" := ["private,no-store"]]);
  }

  const HOUR := "max-age=3600"
  const HOUR_PUBLIC: Header := map["Cache-Control" := [HOUR + "," + "public"]]

  lemma HourAndPublic()
    ensures CC.HeaderMembers(HOUR_PUBLIC) == [HOUR, "public"]
    ensures forall name :: name in CC.HeaderDirectives(HOUR_PUBLIC) <==> name == "max-age"
  {
    hide CC.Pieces, CC.AllMembers, CC.Members, CC.DirectiveName, CC.HeaderDirectives, CC.HeaderMembers, CC.Collect;
    var line := HOUR + "," + "public";
    OneWord("public");
    assert ',' !in HOUR && '"' !in HOUR && Trimmed(HOUR, SPACES);
    CC.UnspacedMembers(HOUR, "public");
    CC.OneLineMembers(line);
    OnlyCacheControl([line]);
    HourIsMaxAge(",public");
    assert HOUR + ",public" == line;
    forall name ensures name in CC.HeaderDirectives(HOUR_PUBLIC) <==> name == "max-age" {
      CC.OnlyDirective(line, name);
    }
  }

  lemma HourIsMaxAge(rest: string)
    ensures CC.DirectiveName(HOUR + rest) == "max-age"
  {
    hide Index;
    assert HOUR + rest == "max-age" + "=" + ("3600" + rest);
    CutAt("max-age", '=', "3600" + rest);
    assert ToLower("max-age") == "max-age";
  }

  /** In the other direction, a bare comma hides `public`, and an authenticated response is not stored. */
  lemma UnspacedPublicIsRefused(r: Request)
    requires r.verb == "GET" && Get(r.header, "Authorization") != ""
    ensures Section3(r, 200, HOUR_PUBLIC) && !MayStore(r, 200, HOUR_PUBLIC)
  {
    hide Section3, MayStore, HOUR_PUBLIC, Get;
    SharesNothing();
    NamesPublic();
    RefusedWithoutSharing(r, HOUR_PUBLIC);
    AllowedWithPublic(r, HOUR_PUBLIC);
  }

  lemma SharesNothing()
    ensures !SharedExplicitly(CC.HeaderDirectives(HOUR_PUBLIC))
  {
    hide CC.HeaderDirectives, CC.HeaderMembers, HOUR_PUBLIC;
    HourAndPublic();
    assert |"public"| == 6 && |"max-age"| == 7 && |"s-maxage"| == 8;
  }

  lemma NamesPublic()
    ensures var members := CC.HeaderMembers(HOUR_PUBLIC);
      CC.Names(members, "public") && !CC.Names(members, "no-store") && !CC.Names(members, "private")
  {
    hide CC.HeaderMembers, CC.HeaderDirectives, HOUR_PUBLIC, HOUR, CC.DirectiveName, CC.Names, ToLower, Trimmed;
    HourAndPublic();
    OneWord("public");
    HourIsMaxAge("");
    assert HOUR + "" == HOUR;
    TwoNames(HOUR, "public", "public");
    TwoNames(HOUR, "public", "no-store");
    TwoNames(HOUR, "public", "private");
    DistinctWords();
  }

  lemma TwoNames(a: string, b: string, name: string)
    ensures CC.Names([a, b], name) <==> CC.DirectiveName(a) == name || CC.DirectiveName(b) == name
  {
    hide CC.DirectiveName;
    assert CC.DirectiveName([a, b][0]) == CC.DirectiveName(a) && CC.DirectiveName([a, b][1]) == CC.DirectiveName(b);
  }

  lemma DistinctWords()
    ensures "no-store" != "max-age" && "no-store" != "public" && "private" != "max-age" && "private" != "public"
  {
    assert |"public"| == 6 && |"max-age"| == 7 && |"no-store"| == 8;
    assert "private"[0] == 'p' && "max-age"[0] == 'm' && |"private"| == 7;
  }

  lemma RefusedWithoutSharing(r: Request, h: Header)
    requires Get(r.header, "Authorization") != "" && !SharedExplicitly(CC.HeaderDirectives(h))
    ensures !MayStore(r, 200, h)
  {
    hide CC.HeaderDirectives, Get;
  }

  lemma AllowedWithPublic(r: Request, h: Header)
    requires r.verb == "GET" && CC.Names(CC.HeaderMembers(h), "public")
    requires !CC.Names(CC.HeaderMembers(h), "no-store") && !CC.Names(CC.HeaderMembers(h), "private")
    ensures Section3(r, 200, h)
  {
    hide CC.HeaderMembers, CC.Names;
  }

  /**
   A response whose only directive has a quoted argument in which the word `public` stands between
   commas — `community="UCI, public, x"`, say — is stored whatever its request and status, though
   it carries no such directive.
   */
  lemma QuotedPublicIsStored(r: Request, status: int, name: string, left: string, right: string)
    requires '"' !in name && ',' !in name && '=' !in name && name != "" && Trimmed(name, SPACES)
    requires ToLower(name) != "public"
    requires var text := left + ", " + "public" + ", " + right; '"' !in text && '\\' !in text
    ensures var line := CC.Quoted(name, left + ", " + "public" + ", " + right);
      var h: Header := map["Cache-Control" := [line]];
      && CC.HeaderMembers(h) == [line]
      && CC.Invented(h, "public") && MayStore(r, status, h)
  {
    hide CC.Parse, CC.Collect, CC.Members, CC.HeaderDirectives, CC.HeaderMembers, MayStore, CC.Quoted, Trimmed,
         CC.AllMembers, CC.DirectiveName;
    var line := CC.Quoted(name, left + ", " + "public" + ", " + right);
    OneWord("public");
    CC.QuotedWordIsDirective(name, left, "public", right);
    CC.OneLineMembers(line);
    OnlyCacheControl([line]);
    CC.OnlyDirective(line, "public");
    SharedIsStored(r, status, map["Cache-Control" := [line]]);
  }
}
