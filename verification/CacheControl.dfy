/** Parsing of the Cache-Control field. */
module CacheControl {
  import opened Text
  import opened Http

  /** Directives with their arguments; a directive without one has the empty argument. */
  type Directives = map<string, string>

  function DirectiveName(piece: string): string {
    ToLower(Before(piece, "="))
  }

  function DirectiveArgument(piece: string): string {
    if Contains(piece, "=") then Trim(After(piece, "="), {'"'}) else ""
  }

  /** A directive without an argument reads as its name in lower case and no argument. */
  lemma NoArgument(name: string)
    requires '=' !in name
    ensures DirectiveName(name) == ToLower(name) && DirectiveArgument(name) == ""
  {
    hide Index, ToLower;
    CleanChar(name, '=');
  }

  /** A directive with an argument, as a token or quoted, reads as its name in lower case and the bare argument. */
  lemma ArgumentForms(name: string, argument: string, quotes: string)
    requires '=' !in name && (quotes == "" || quotes == "\"")
    requires '"' !in argument
    ensures var piece := name + "=" + (quotes + argument + quotes);
      DirectiveName(piece) == ToLower(name) && DirectiveArgument(piece) == argument
  {
    hide Index;
    CutAt(name, '=', quotes + argument + quotes);
    TrimPadded(quotes, argument, quotes, {'"'});
  }

  /** The texts between the separators ", " of all lines, in order. */
  function Pieces(lines: seq<string>): seq<string> {
    if lines == [] then []
    else Pieces(lines[..|lines| - 1]) + Split(lines[|lines| - 1], ", ")
  }

  function Collect(pieces: seq<string>): Directives {
    if pieces == [] then map[]
    else
      var last := pieces[|pieces| - 1];
      Collect(pieces[..|pieces| - 1])[DirectiveName(last) := DirectiveArgument(last)]
  }

  function Parse(lines: seq<string>): Directives {
    Collect(Pieces(lines))
  }

  function HeaderDirectives(h: Header): Directives {
    Parse(Values(h, "Cache-Control"))
  }

  method ParseCacheControl(headers: seq<string>) returns (m: Directives)
    ensures m == Parse(headers)
  {
    hide Split, DirectiveName, DirectiveArgument, Collect, Pieces;
    NothingCollected();
    m := map[];
    ghost var seen: seq<string> := [];
    for i := 0 to |headers|
      invariant seen == Pieces(headers[..i]) && m == Collect(seen)
    {
      var pieces := Split(headers[i], ", ");
      PiecesStep(headers, i);
      ghost var before := seen;
      assert before + pieces[..0] == before;
      for j := 0 to |pieces|
        invariant seen == before + pieces[..j] && m == Collect(seen)
      {
        CollectStep(seen, pieces[j]);
        m := m[DirectiveName(pieces[j]) := DirectiveArgument(pieces[j])];
        assert before + pieces[..j + 1] == seen + [pieces[j]];
        seen := seen + [pieces[j]];
      }
      assert pieces[..|pieces|] == pieces;
    }
    assert headers[..|headers|] == headers;
  }

  lemma NothingCollected()
    ensures Pieces([]) == [] && Collect([]) == map[]
  {}

  lemma PiecesStep(lines: seq<string>, i: nat)
    requires i < |lines|
    ensures Pieces(lines[..i + 1]) == Pieces(lines[..i]) + Split(lines[i], ", ")
  {
    hide Split;
    assert lines[..i + 1][..i] == lines[..i];
  }

  lemma CollectStep(pieces: seq<string>, piece: string)
    ensures Collect(pieces + [piece]) == Collect(pieces)[DirectiveName(piece) := DirectiveArgument(piece)]
  {
    hide DirectiveName, DirectiveArgument;
    assert (pieces + [piece])[..|pieces|] == pieces;
  }

  /** Looking a directive up finds its last occurrence, over all lines. */
  lemma {:induction false} LookupIsLast(pieces: seq<string>, name: string)
    ensures name in Collect(pieces) <==> exists k :: 0 <= k < |pieces| && DirectiveName(pieces[k]) == name
    ensures forall k :: 0 <= k < |pieces| && DirectiveName(pieces[k]) == name
                && (forall j :: k < j < |pieces| ==> DirectiveName(pieces[j]) != name)
              ==> Collect(pieces)[name] == DirectiveArgument(pieces[k])
  {
    hide DirectiveName, DirectiveArgument;
    if pieces != [] {
      var n := |pieces| - 1;
      LookupIsLast(pieces[..n], name);
      if DirectiveName(pieces[n]) != name {
        if name in Collect(pieces[..n]) {
          var k :| 0 <= k < n && DirectiveName(pieces[..n][k]) == name;
          assert DirectiveName(pieces[k]) == name;
        }
        if k :| 0 <= k < |pieces| && DirectiveName(pieces[k]) == name {
          assert pieces[..n][k] == pieces[k];
        }
        forall k | 0 <= k < |pieces| && DirectiveName(pieces[k]) == name
                && (forall j :: k < j < |pieces| ==> DirectiveName(pieces[j]) != name)
          ensures Collect(pieces)[name] == DirectiveArgument(pieces[k])
        {
          assert pieces[..n][k] == pieces[k];
          assert forall j :: k < j < n ==> pieces[..n][j] == pieces[j];
        }
      }
    }
  }

  /* Combining field lines. */

  lemma SeparatorIsUnbordered()
    ensures Unbordered(", ")
  {
    assert ", "[1..] == " " && ", "[..1] == ",";
  }

  lemma {:induction false} PiecesOfJoin(lines: seq<string>)
    requires lines != []
    ensures Pieces(lines) == Split(Join(lines, ", "), ", ")
  {
    hide Split;
    if |lines| == 1 {
      assert lines[..0] == [];
    } else {
      PiecesOfJoin(lines[1..]);
      SeparatorIsUnbordered();
      SplitAppend(lines[0], ", ", Join(lines[1..], ", "));
      PiecesAppend(lines[..1], lines[1..]);
      assert lines[..1][..0] == [];
      assert lines == lines[..1] + lines[1..];
    }
  }

  lemma {:induction false} PiecesAppend(a: seq<string>, b: seq<string>)
    ensures Pieces(a + b) == Pieces(a) + Pieces(b)
  {
    hide Split;
    if b == [] {
      assert a + b == a;
    } else {
      var n := |b| - 1;
      assert (a + b)[..|a + b| - 1] == a + b[..n];
      PiecesAppend(a, b[..n]);
    }
  }

  /** Combining the lines with ", " (section 5.3 of RFC 9110) changes no directive. */
  lemma CombiningKeepsDirectives(lines: seq<string>)
    requires lines != []
    ensures Parse([Join(lines, ", ")]) == Parse(lines)
  {
    hide Split, Collect;
    PiecesOfJoin(lines);
    PiecesOfJoin([Join(lines, ", ")]);
  }

  /* Case. */

  function LowerAll(texts: seq<string>): (r: seq<string>)
    ensures |r| == |texts|
  {
    if texts == [] then [] else LowerAll(texts[..|texts| - 1]) + [ToLower(texts[|texts| - 1])]
  }

  lemma LowerOccurs(s: string, sep: string, i: int)
    requires sep == ", " || sep == "="
    ensures OccursAt(ToLower(s), sep, i) <==> OccursAt(s, sep, i)
  {
    if 0 <= i <= |s| - |sep| {
      var t, u := s[i..i + |sep|], ToLower(s)[i..i + |sep|];
      forall k | 0 <= k < |sep| ensures u[k] == sep[k] <==> t[k] == sep[k] {
        assert u[k] == LowerChar(t[k]) && sep[k] < 'a';
      }
    }
  }

  lemma LowerIndex(s: string, sep: string)
    requires sep == ", " || sep == "="
    ensures Index(ToLower(s), sep) == Index(s, sep)
  {
    hide OccursAt, Index, ToLower;
    forall j: int ensures OccursAt(ToLower(s), sep, j) <==> OccursAt(s, sep, j) { LowerOccurs(s, sep, j); }
    IndexIs(ToLower(s), sep, Index(s, sep));
  }

  lemma LowerSlice(s: string, i: nat)
    requires i <= |s|
    ensures ToLower(s)[..i] == ToLower(s[..i]) && ToLower(s)[i..] == ToLower(s[i..])
  {}

  lemma LowerAllCons(head: string, rest: seq<string>)
    ensures LowerAll([head] + rest) == [ToLower(head)] + LowerAll(rest)
  {
    hide ToLower;
    if rest == [] {
      assert [head] + rest == [head];
      assert [head][..0] == [];
    } else {
      var n := |rest| - 1;
      assert ([head] + rest)[..|rest|] == [head] + rest[..n];
      LowerAllCons(head, rest[..n]);
    }
  }

  lemma {:induction false} LowerSplit(s: string)
    ensures Split(ToLower(s), ", ") == LowerAll(Split(s, ", "))
    decreases |s|
  {
    hide OccursAt, Index, ToLower, LowerAll;
    LowerIndex(s, ", ");
    var i := Index(s, ", ");
    if i < 0 {
      LowerAllCons(s, []);
      assert [s] + [] == [s] && LowerAll([]) == [] by { LowerNone(); }
    } else {
      LowerSlice(s, i);
      LowerSlice(s, i + 2);
      LowerSplit(s[i + 2..]);
      LowerAllCons(s[..i], Split(s[i + 2..], ", "));
    }
  }

  lemma LowerNone()
    ensures LowerAll([]) == []
  {}

  lemma LowerTwice(s: string)
    ensures ToLower(ToLower(s)) == ToLower(s)
  {}

  lemma LowerName(piece: string)
    ensures DirectiveName(ToLower(piece)) == DirectiveName(piece)
  {
    hide OccursAt, Index, ToLower;
    LowerIndex(piece, "=");
    var i := Index(piece, "=");
    if i >= 0 { LowerSlice(piece, i); LowerTwice(piece[..i]); } else { LowerTwice(piece); }
  }

  lemma {:induction false} LowerPieces(lines: seq<string>)
    ensures Pieces(LowerAll(lines)) == LowerAll(Pieces(lines))
  {
    hide Split, ToLower;
    if lines != [] {
      var n := |lines| - 1;
      LowerPieces(lines[..n]);
      LowerSplit(lines[n]);
      assert LowerAll(lines)[..n] == LowerAll(lines[..n]);
      LowerAllAppend(Pieces(lines[..n]), Split(lines[n], ", "));
    }
  }

  lemma {:induction false} LowerAllAppend(a: seq<string>, b: seq<string>)
    ensures LowerAll(a + b) == LowerAll(a) + LowerAll(b)
  {
    hide ToLower;
    if b == [] {
      assert a + b == a;
    } else {
      var n := |b| - 1;
      assert (a + b)[..|a + b| - 1] == a + b[..n];
      LowerAllAppend(a, b[..n]);
    }
  }

  lemma {:induction false} LowerKeys(pieces: seq<string>)
    ensures Collect(LowerAll(pieces)).Keys == Collect(pieces).Keys
  {
    hide ToLower, DirectiveName, DirectiveArgument;
    if pieces != [] {
      var n := |pieces| - 1;
      LowerKeys(pieces[..n]);
      LowerName(pieces[n]);
      CollectStep(LowerAll(pieces[..n]), ToLower(pieces[n]));
    }
  }

  /** Which directives a response has does not depend on the case of its Cache-Control lines. */
  lemma DirectivesIgnoreCase(a: seq<string>, b: seq<string>)
    requires LowerAll(a) == LowerAll(b)
    ensures Parse(a).Keys == Parse(b).Keys
  {
    hide Pieces, Collect, LowerAll;
    LowerPieces(a);
    LowerPieces(b);
    LowerKeys(Pieces(a));
    LowerKeys(Pieces(b));
  }

  /* Against the list syntax of section 5.6.1 of RFC 9110. */

  /** Where a text stands with respect to quoted strings (section 5.6.4 of RFC 9110). */
  datatype Quote = Outside | Inside | Escaped

  function Step(q: Quote, c: char): Quote {
    match q
    case Outside => if c == '"' then Inside else Outside
    case Inside => if c == '"' then Outside else if c == '\\' then Escaped else Inside
    case Escaped => Inside
  }

  function QuoteAfter(s: string, q: Quote): Quote {
    if s == "" then q else Step(QuoteAfter(s[..|s| - 1], q), s[|s| - 1])
  }

  /** A comma that separates members: one outside every quoted string. */
  predicate Separates(line: string, i: nat) {
    i < |line| && line[i] == ',' && QuoteAfter(line[..i], Outside).Outside?
  }

  /** The first separating comma from here on, or the length of the line. */
  function Separator(line: string, from: nat): (i: nat)
    requires from <= |line|
    ensures from <= i <= |line| && (i < |line| ==> Separates(line, i))
    ensures forall j: nat :: from <= j < i ==> !Separates(line, j)
    decreases |line| - from
  {
    if from == |line| || Separates(line, from) then from else Separator(line, from + 1)
  }

  function Elements(line: string): (parts: seq<string>)
    ensures parts != []
    decreases |line|
  {
    var i := Separator(line, 0);
    if i == |line| then [line] else [line[..i]] + Elements(line[i + 1..])
  }

  /** The list members of a field line. Empty ones, which a recipient ignores, are kept. */
  function Members(line: string): seq<string> { TrimAll(Elements(line)) }

  /** A comma that the parser splits at. */
  predicate SpacedAt(line: string, i: nat) {
    i + 1 < |line| && line[i] == ',' && line[i + 1] == ' '
  }

  /** The commas followed by a space are those outside quoted strings. */
  predicate SpacesMarkSeparators(line: string) {
    forall i: nat :: i < |line| ==> (Separates(line, i) <==> SpacedAt(line, i))
  }

  predicate AllTrimmed(parts: seq<string>) {
    forall part :: part in parts ==> Trimmed(part, SPACES)
  }

  lemma SpacedOccurs(line: string, i: int)
    ensures OccursAt(line, ", ", i) <==> i >= 0 && SpacedAt(line, i)
  {
    if 0 <= i <= |line| - 2 {
      assert line[i..i + 2][0] == line[i] && line[i..i + 2][1] == line[i + 1];
    }
  }

  lemma {:induction false} QuoteAfterAppend(a: string, b: string, q: Quote)
    ensures QuoteAfter(a + b, q) == QuoteAfter(b, QuoteAfter(a, q))
    decreases |b|
  {
    if b == "" {
      assert a + b == a;
    } else {
      var n := |b| - 1;
      assert (a + b)[..|a + b| - 1] == a + b[..n];
      QuoteAfterAppend(a, b[..n], q);
    }
  }

  /** Behind a text that ends outside quoted strings, the separators are those of the rest. */
  lemma SeparatesBehind(head: string, rest: string, k: nat)
    requires QuoteAfter(head, Outside).Outside?
    ensures Separates(head + rest, |head| + k) <==> Separates(rest, k)
  {
    if k < |rest| {
      assert (head + rest)[..|head| + k] == head + rest[..k];
      QuoteAfterAppend(head, rest[..k], Outside);
    }
  }

  lemma SeparatorIs(line: string, i: nat)
    requires i <= |line| && (i < |line| ==> Separates(line, i))
    requires forall j: nat :: j < i ==> !Separates(line, j)
    ensures Separator(line, 0) == i
  {
    hide Separates;
  }

  lemma AfterSeparator(line: string, i: nat)
    requires Separates(line, i)
    ensures QuoteAfter(line[..i + 1], Outside).Outside?
  {
    assert line[..i + 1][..i] == line[..i];
  }

  /** A blank in front changes no member. */
  lemma MembersAfterBlank(rest: string)
    ensures Members(" " + rest) == Members(rest)
  {
    hide Separates, TrimSpace;
    var line, j := " " + rest, Separator(rest, 0);
    assert QuoteAfter(" ", Outside).Outside? by { assert " "[..0] == ""; }
    forall k: nat ensures Separates(line, k + 1) <==> Separates(rest, k) { SeparatesBehind(" ", rest, k); }
    assert !Separates(line, 0) by { BlankIsNoSeparator(line); }
    forall k: nat | k < j + 1 ensures !Separates(line, k) {
      if k > 0 { assert !Separates(rest, k - 1); }
    }
    SeparatorIs(line, j + 1);
    BlankInFront(rest[..j]);
    if j == |rest| {
      assert rest[..j] == rest;
    } else {
      assert line[..j + 1] == " " + rest[..j] && line[j + 2..] == rest[j + 1..];
      TrimAllAppend([rest[..j]], Elements(rest[j + 1..]));
      TrimAllAppend([" " + rest[..j]], Elements(rest[j + 1..]));
    }
  }

  lemma BlankIsNoSeparator(line: string)
    requires line != "" && line[0] == ' '
    ensures !Separates(line, 0)
  {}

  lemma BlankInFront(s: string)
    ensures TrimAll([" " + s]) == TrimAll([s])
  {
    assert " " + s + "" == " " + s && ' ' in SPACES;
    TrimIgnoresPadding(" ", s, "", SPACES);
    TrimAllOne(s);
    TrimAllOne(" " + s);
  }

  lemma {:induction false} TrimRightKeeps(s: string, drop: set<char>, i: nat)
    requires i < |s| && s[i] !in drop
    ensures |TrimRight(s, drop)| > i
  {
    if s[|s| - 1] in drop { TrimRightKeeps(s[..|s| - 1], drop, i); }
  }

  lemma TrimLeftDrops(s: string, drop: set<char>)
    ensures TrimLeft(s, drop) == s || (s != "" && s[0] in drop)
  {}

  /** Trimming a text that goes on after position `i` leaves more, or less, than the part before. */
  lemma TrimmedGoesOn(s: string, i: nat)
    requires i < |s| && s[i] !in SPACES
    ensures TrimSpace(s) != s[..i]
  {
    hide SPACES;
    TrimRightKeeps(s, SPACES, i);
    var r := TrimRight(s, SPACES);
    var t := TrimLeft(r, SPACES);
    TrimLeftDrops(r, SPACES);
    assert r[0] == s[0];
    if t != r {
      assert i > 0 && s[..i][0] == s[0] && s[0] in SPACES;
    }
  }

  lemma FirstMember(line: string)
    ensures var j := Separator(line, 0);
      Members(line) != [] && Members(line)[0] == TrimSpace(line[..j]) && (j < |line| <==> |Members(line)| > 1)
  {
    hide Separates, TrimSpace;
    var j := Separator(line, 0);
    TrimAllLength(Elements(line));
    TrimAllOne(line[..j]);
    if j < |line| {
      MembersAtSeparator(line, j);
    } else {
      assert line[..j] == line;
    }
  }

  lemma FirstPiece(line: string)
    ensures var i := Index(line, ", ");
      if i < 0 then Split(line, ", ") == [line] else Split(line, ", ")[0] == line[..i] && |Split(line, ", ")| > 1
  {
    hide OccursAt, IndexFrom;
  }

  /** The two ways of splitting agree at their first separator, or nowhere. */
  lemma FirstDiffers(line: string)
    requires var i := Index(line, ", "); i != Separator(line, 0) && (i >= 0 || Separator(line, 0) < |line|)
    ensures Split(line, ", ") != Members(line) && !SpacesMarkSeparators(line)
  {
    hide OccursAt, IndexFrom, Separates, SpacedAt, Split, Members, TrimSpace;
    var i, j := Index(line, ", "), Separator(line, 0);
    FirstMember(line);
    FirstPiece(line);
    SpacedOccurs(line, i);
    SpacedOccurs(line, j);
    if 0 <= i < j {
      assert SpacedAt(line, i) && !Separates(line, i);
      SpacedIsComma(line, i);
      assert line[..i] == line[..j][..i];
      TrimmedGoesOn(line[..j], i);
    } else {
      assert Separates(line, j) && !SpacedAt(line, j);
      TrimNotLonger(line[..j]);
    }
  }

  lemma SpacedIsComma(line: string, i: nat)
    requires SpacedAt(line, i)
    ensures i + 2 <= |line| && line[i] == ',' && line[i] !in SPACES && line[i + 1] == ' '
  {}

  lemma TrimNotLonger(s: string)
    ensures |TrimSpace(s)| <= |s|
  {}

  lemma TrimAllLength(parts: seq<string>)
    ensures |TrimAll(parts)| == |parts|
  {}

  /** Past a separator that both ways of splitting have, the condition is that of the rest. */
  lemma SpacesMarkRest(line: string, i: nat)
    requires Separates(line, i) && SpacedAt(line, i)
    requires forall k: nat :: k < i ==> !Separates(line, k) && !SpacedAt(line, k)
    ensures SpacesMarkSeparators(line) <==> SpacesMarkSeparators(line[i + 2..])
  {
    hide Separates, SpacedAt;
    SpacedIsComma(line, i);
    var head, rest := line[..i + 2], line[i + 2..];
    AfterSeparator(line, i);
    assert head[..i + 1] == line[..i + 1];
    assert line == head + rest;
    forall k: nat ensures Separates(line, |head| + k) <==> Separates(rest, k) { SeparatesBehind(head, rest, k); }
    forall k: nat ensures SpacedAt(line, |head| + k) <==> SpacedAt(rest, k) { SpacedBehind(head, rest, k); }
    BlankAt(line, i + 1);
    if SpacesMarkSeparators(rest) {
      forall k: nat | k < |line| ensures Separates(line, k) <==> SpacedAt(line, k) {
        if k >= i + 2 {
          var m: nat := k - |head|;
          assert Separates(line, |head| + m) <==> Separates(rest, m);
          assert SpacedAt(line, |head| + m) <==> SpacedAt(rest, m);
        }
      }
    }
    if SpacesMarkSeparators(line) {
      forall k: nat | k < |rest| ensures Separates(rest, k) <==> SpacedAt(rest, k) {
        assert Separates(line, |head| + k) <==> SpacedAt(line, |head| + k);
      }
    }
  }

  lemma SpacedBehind(head: string, rest: string, k: nat)
    ensures SpacedAt(head + rest, |head| + k) <==> SpacedAt(rest, k)
  {}

  lemma BlankAt(line: string, i: nat)
    requires i < |line| && line[i] == ' '
    ensures !Separates(line, i) && !SpacedAt(line, i)
  {}

  lemma TrimSpaceFix(s: string)
    ensures TrimSpace(s) == s <==> Trimmed(s, SPACES)
  {
    if Trimmed(s, SPACES) {
      TrimPadded("", s, "", SPACES);
      assert "" + s + "" == s;
    }
  }

  lemma SamePieceFirst(head: string, parts: seq<string>, members: seq<string>)
    ensures [head] + parts == [TrimSpace(head)] + members <==> Trimmed(head, SPACES) && parts == members
    ensures AllTrimmed([head] + parts) <==> Trimmed(head, SPACES) && AllTrimmed(parts)
  {
    hide TrimSpace, Trimmed;
    TrimSpaceFix(head);
    var a, b := [head] + parts, [TrimSpace(head)] + members;
    assert a[0] == head && b[0] == TrimSpace(head) && a[1..] == parts && b[1..] == members;
    assert forall part :: part in a <==> part == head || part in parts;
  }

  /**
   The pieces the parser looks at are the list members of the field exactly when the commas followed
   by a space are those outside quoted strings, and no further blanks surround the members.
   */
  lemma {:induction false} PiecesAreMembersIff(line: string)
    ensures Split(line, ", ") == Members(line) <==> SpacesMarkSeparators(line) && AllTrimmed(Split(line, ", "))
    decreases |line|
  {
    hide OccursAt, Index, Separates, SpacedAt, TrimSpace, Trimmed, SpacesMarkSeparators, Members, AllTrimmed, Separator;
    var i, j := Index(line, ", "), Separator(line, 0);
    if i < 0 && j == |line| {
      NoSeparator(line);
      SamePieceFirst(line, [], []);
      assert [line] + [] == [line] && [TrimSpace(line)] + [] == [TrimSpace(line)];
      assert AllTrimmed([]) by { NoneTrimmed(); }
    } else if i == j {
      var rest := line[i + 2..];
      SplitsAtBoth(line, i);
      PiecesAreMembersIff(rest);
      SamePieceFirst(line[..i], Split(rest, ", "), Members(rest));
    } else {
      FirstDiffers(line);
    }
  }

  lemma NoneTrimmed()
    ensures AllTrimmed([])
  {}

  lemma NoSeparator(line: string)
    requires Index(line, ", ") < 0 && Separator(line, 0) == |line|
    ensures Split(line, ", ") == [line] && Members(line) == [TrimSpace(line)] && SpacesMarkSeparators(line)
  {
    hide OccursAt, IndexFrom, Separates, SpacedAt;
    TrimAllOne(line);
    forall k: nat | k < |line| ensures Separates(line, k) <==> SpacedAt(line, k) { SpacedOccurs(line, k); }
  }

  lemma MembersAtSeparator(line: string, i: nat)
    requires i == Separator(line, 0) && i < |line|
    ensures Members(line) == [TrimSpace(line[..i])] + Members(line[i + 1..])
  {
    hide Separates, TrimSpace, Separator;
    TrimAllAppend([line[..i]], Elements(line[i + 1..]));
    TrimAllOne(line[..i]);
  }

  lemma SplitAtIndex(line: string, i: nat)
    requires i == Index(line, ", ")
    ensures Split(line, ", ") == [line[..i]] + Split(line[i + 2..], ", ")
  {
    hide OccursAt, IndexFrom;
  }

  lemma FirstSpaced(line: string, i: nat)
    requires i == Index(line, ", ") == Separator(line, 0)
    ensures Separates(line, i) && SpacedAt(line, i)
    ensures forall k: nat :: k < i ==> !Separates(line, k) && !SpacedAt(line, k)
  {
    hide OccursAt, IndexFrom, Separates, SpacedAt;
    SpacedOccurs(line, i);
    SpacedIsComma(line, i);
    forall k: nat | k < i ensures !SpacedAt(line, k) { SpacedOccurs(line, k); }
  }

  lemma SplitsAtBoth(line: string, i: nat)
    requires i == Index(line, ", ") == Separator(line, 0)
    ensures i + 2 <= |line|
    ensures Split(line, ", ") == [line[..i]] + Split(line[i + 2..], ", ")
    ensures Members(line) == [TrimSpace(line[..i])] + Members(line[i + 2..])
    ensures SpacesMarkSeparators(line) <==> SpacesMarkSeparators(line[i + 2..])
  {
    hide OccursAt, Index, Split, Separates, TrimSpace, SpacesMarkSeparators, SpacedAt, Members, Separator;
    FirstSpaced(line, i);
    SpacedIsComma(line, i);
    SpacesMarkRest(line, i);
    SplitAtIndex(line, i);
    assert line[i + 1..] == " " + line[i + 2..];
    MembersAfterBlank(line[i + 2..]);
    MembersAtSeparator(line, i);
  }

  /* Quoted arguments. */

  lemma {:induction false} PlainTextStaysOutside(s: string)
    requires '"' !in s
    ensures QuoteAfter(s, Outside).Outside?
  {
    if s != "" { PlainTextStaysOutside(s[..|s| - 1]); }
  }

  lemma {:induction false} PlainTextStaysInside(s: string)
    requires '"' !in s && '\\' !in s
    ensures QuoteAfter(s, Inside).Inside?
  {
    if s != "" { PlainTextStaysInside(s[..|s| - 1]); }
  }

  function Quoted(name: string, text: string): string { name + "=\"" + text + "\"" }

  /** A directive with a quoted argument is one member, whatever the argument says. */
  lemma QuotedIsOneMember(name: string, text: string)
    requires '"' !in name && ',' !in name && '"' !in text && '\\' !in text
    ensures Elements(Quoted(name, text)) == [Quoted(name, text)]
  {
    var line, open := Quoted(name, text), name + "=\"";
    assert open[..|open| - 1] == name + "=";
    PlainTextStaysOutside(name + "=");
    forall k: nat | k < |line| ensures !Separates(line, k) {
      if |open| <= k < |open| + |text| {
        assert line[..k] == open + text[..k - |open|];
        QuoteAfterAppend(open, text[..k - |open|], Outside);
        PlainTextStaysInside(text[..k - |open|]);
      } else if k < |open| {
        assert line[k] == open[k] != ',';
      }
    }
    SeparatorIs(line, |line|);
  }

  /**
   But the parser reads a word between two commas of the argument as a directive of its own: the
   word is no member of the list, and is found all the same.
   */
  lemma QuotedWordIsDirective(name: string, left: string, word: string, right: string)
    requires '"' !in name && ',' !in name && '=' !in name && name != "" && Trimmed(name, SPACES)
    requires var text := left + ", " + word + ", " + right; '"' !in text && '\\' !in text
    requires '=' !in word && ',' !in word && ToLower(name) != ToLower(word)
    ensures var line := Quoted(name, left + ", " + word + ", " + right);
      && Members(line) == [line]
      && ToLower(word) !in Collect(Members(line))
      && ToLower(word) in Parse([line])
  {
    hide Collect, DirectiveName, ToLower, Members, Trimmed, Quoted, Pieces;
    var text := left + ", " + word + ", " + right;
    var line := Quoted(name, text);
    QuotedMembers(name, text);
    OnlyDirective(line, ToLower(word));
    QuotedName(name, text);
    QuotedWordIsPiece(name, left, word, right);
    WordIsItsName(word);
    LookupIsLast(Pieces([line]), ToLower(word));
  }

  lemma QuotedMembers(name: string, text: string)
    requires '"' !in name && ',' !in name && '"' !in text && '\\' !in text && name != "" && Trimmed(name, SPACES)
    ensures Members(Quoted(name, text)) == [Quoted(name, text)]
  {
    hide Elements, TrimSpace, Trimmed, Quoted;
    QuotedIsOneMember(name, text);
    TrimAllOne(Quoted(name, text));
    QuotedIsTrimmed(name, text);
  }

  lemma QuotedName(name: string, text: string)
    requires '=' !in name
    ensures DirectiveName(Quoted(name, text)) == ToLower(name)
  {
    hide Index, ToLower;
    assert Quoted(name, text) == name + "=" + ("\"" + text + "\"");
    CutAt(name, '=', "\"" + text + "\"");
  }

  lemma QuotedWordIsPiece(name: string, left: string, word: string, right: string)
    requires ',' !in word
    ensures word in Pieces([Quoted(name, left + ", " + word + ", " + right)])
  {
    hide Split;
    var line := Quoted(name, left + ", " + word + ", " + right);
    var none: seq<string> := [];
    assert [line][..0] == none && Pieces(none) == none;
    assert line == (name + "=\"" + left) + ", " + word + ", " + (right + "\"");
    MiddlePiece(name + "=\"" + left, word, right + "\"");
  }

  lemma QuotedIsTrimmed(name: string, text: string)
    requires name != "" && Trimmed(name, SPACES)
    ensures TrimSpace(Quoted(name, text)) == Quoted(name, text)
  {
    TrimSpaceFix(Quoted(name, text));
  }

  lemma OnlyDirective(piece: string, name: string)
    ensures name in Collect([piece]) <==> name == DirectiveName(piece)
  {
    hide DirectiveName, DirectiveArgument;
    LookupIsLast([piece], name);
  }

  lemma WordIsItsName(word: string)
    requires '=' !in word
    ensures DirectiveName(word) == ToLower(word)
  {
    hide Index, ToLower;
    CleanChar(word, '=');
  }

  lemma MiddlePiece(a: string, word: string, b: string)
    requires ',' !in word
    ensures word in Split(a + ", " + word + ", " + b, ", ")
  {
    hide Index, OccursAt, Split;
    SeparatorIsUnbordered();
    SplitAppend(a + ", " + word, ", ", b);
    SplitAppend(a, ", ", word);
    WordIsOnePiece(word);
    assert Split(a + ", " + word + ", " + b, ", ") == (Split(a, ", ") + [word]) + Split(b, ", ");
  }

  lemma WordIsOnePiece(word: string)
    requires ',' !in word
    ensures Split(word, ", ") == [word]
  {
    hide Index;
    forall i: int ensures !OccursAt(word, ", ", i) { SpacedOccurs(word, i); }
    IndexIs(word, ", ", -1);
  }

  /* The directives of the list members. */

  function AllMembers(lines: seq<string>): seq<string> {
    if lines == [] then []
    else AllMembers(lines[..|lines| - 1]) + Members(lines[|lines| - 1])
  }

  function HeaderMembers(h: Header): seq<string> { AllMembers(Values(h, "Cache-Control")) }

  /** Some member is this directive. */
  predicate Names(members: seq<string>, name: string) {
    exists k :: 0 <= k < |members| && DirectiveName(members[k]) == name
  }

  /** The argument of the first member that is this directive: the one section 4.2.1 of RFC 9111 uses. */
  function First(members: seq<string>, name: string): Option<string> {
    if members == [] then None
    else if DirectiveName(members[0]) == name then Some(DirectiveArgument(members[0]))
    else First(members[1..], name)
  }

  lemma {:induction false} FirstIff(members: seq<string>, name: string)
    ensures First(members, name).Some? <==> Names(members, name)
  {
    hide DirectiveName, DirectiveArgument;
    if members != [] {
      FirstIff(members[1..], name);
      if DirectiveName(members[0]) != name && Names(members, name) {
        var k :| 0 <= k < |members| && DirectiveName(members[k]) == name;
        assert DirectiveName(members[1..][k - 1]) == name;
      }
      if Names(members[1..], name) {
        var k :| 0 <= k < |members[1..]| && DirectiveName(members[1..][k]) == name;
        assert DirectiveName(members[k + 1]) == name;
      }
    }
  }

  /** The directive is a member of the field, but the parser does not find it. */
  predicate Hidden(h: Header, name: string) { Names(HeaderMembers(h), name) && name !in HeaderDirectives(h) }

  /** The parser finds the directive, but it is no member of the field. */
  predicate Invented(h: Header, name: string) { !Names(HeaderMembers(h), name) && name in HeaderDirectives(h) }

  /** Every line is written so that the parser sees its members, by the condition of `PiecesAreMembersIff`. */
  predicate WellSpaced(lines: seq<string>) {
    forall line :: line in lines ==> SpacesMarkSeparators(line) && AllTrimmed(Split(line, ", "))
  }

  lemma {:induction false} WellSpacedPieces(lines: seq<string>)
    requires WellSpaced(lines)
    ensures Pieces(lines) == AllMembers(lines)
  {
    hide Split, Members, SpacesMarkSeparators, AllTrimmed;
    if lines != [] {
      var n := |lines| - 1;
      assert lines[n] in lines;
      forall line | line in lines[..n] ensures line in lines {}
      WellSpacedPieces(lines[..n]);
      PiecesAreMembersIff(lines[n]);
    }
  }

  /** Then nothing is hidden and nothing invented. */
  lemma WellSpacedIsReadRight(h: Header, name: string)
    requires WellSpaced(Values(h, "Cache-Control"))
    ensures !Hidden(h, name) && !Invented(h, name)
  {
    hide Pieces, AllMembers, WellSpaced, DirectiveName, Values, Collect;
    WellSpacedPieces(Values(h, "Cache-Control"));
    LookupIsLast(Pieces(Values(h, "Cache-Control")), name);
  }

  /** The directive stands only once among the pieces. */
  predicate Once(pieces: seq<string>, name: string) {
    forall j, k :: 0 <= j < k < |pieces| ==> DirectiveName(pieces[j]) != name || DirectiveName(pieces[k]) != name
  }

  /** Then its first argument is its last. */
  lemma {:induction false} FirstIsLast(pieces: seq<string>, name: string)
    requires Once(pieces, name)
    ensures First(pieces, name) == if name in Collect(pieces) then Some(Collect(pieces)[name]) else None
    decreases |pieces|
  {
    hide DirectiveName, DirectiveArgument, Collect;
    LookupIsLast(pieces, name);
    FirstIff(pieces, name);
    if First(pieces, name).Some? {
      var k := FirstAt(pieces, name);
      assert forall j :: k < j < |pieces| ==> DirectiveName(pieces[j]) != name;
    }
  }

  lemma {:induction false} FirstAt(members: seq<string>, name: string) returns (k: nat)
    requires First(members, name).Some?
    ensures k < |members| && DirectiveName(members[k]) == name
    ensures First(members, name) == Some(DirectiveArgument(members[k]))
    decreases |members|
  {
    hide DirectiveName, DirectiveArgument;
    if DirectiveName(members[0]) == name {
      k := 0;
    } else {
      k := FirstAt(members[1..], name);
      k := k + 1;
    }
  }

  /** Two directives with a bare comma between them are two members, but one piece. */
  lemma UnspacedMembers(a: string, b: string)
    requires '"' !in a && ',' !in a && '"' !in b && ',' !in b
    requires Trimmed(a, SPACES) && Trimmed(b, SPACES) && (b == "" || b[0] != ' ')
    ensures Members(a + "," + b) == [a, b] && Pieces([a + "," + b]) == [a + "," + b]
  {
    hide Separates, TrimSpace, Trimmed, SPACES, TrimAll, Index, Split;
    var line := a + "," + b;
    CommaAtOnly(a, b);
    SeparatorIs(line, |a|);
    assert line[..|a|] == a && line[|a| + 1..] == b;
    NoSeparatorIn(b);
    SeparatorIs(b, |b|);
    TrimAllOne(a);
    TrimAllOne(b);
    TrimAllAppend([a], [b]);
    TrimSpaceFix(a);
    TrimSpaceFix(b);
    assert Elements(line) == [a] + Elements(b) && Elements(b) == [b];
    assert [a] + [b] == [a, b];
    NoSpacedComma(a, b);
    OnePiece(line);
  }

  /** A text without commas and quotes is one piece and one member. */
  lemma MemberAlone(text: string)
    requires ',' !in text && '"' !in text && Trimmed(text, SPACES)
    ensures Pieces([text]) == [text] && AllMembers([text]) == [text] == Members(text)
  {
    hide Separates, TrimSpace, Trimmed, SPACES, Index, Split, TrimAll;
    NoSeparatorIn(text);
    SeparatorIs(text, |text|);
    TrimAllOne(text);
    TrimSpaceFix(text);
    WordIsOnePiece(text);
    var none: seq<string> := [];
    assert [text][..0] == none && Pieces(none) == none && AllMembers(none) == none;
  }

  lemma OneLineMembers(line: string)
    ensures AllMembers([line]) == Members(line)
  {
    hide Members;
    var none: seq<string> := [];
    assert [line][..0] == none && AllMembers(none) == none;
  }

  lemma NoSeparatorIn(b: string)
    requires ',' !in b
    ensures forall k: nat :: !Separates(b, k)
  {}

  lemma CommaAtOnly(a: string, b: string)
    requires '"' !in a && ',' !in a
    ensures Separates(a + "," + b, |a|) && forall k: nat :: k < |a| ==> !Separates(a + "," + b, k)
  {
    var line := a + "," + b;
    assert line[..|a|] == a;
    PlainTextStaysOutside(a);
    assert forall k :: 0 <= k < |a| ==> line[k] == a[k];
  }

  lemma NoSpacedComma(a: string, b: string)
    requires ',' !in a && ',' !in b && (b == "" || b[0] != ' ')
    ensures Index(a + "," + b, ", ") < 0
  {
    hide Index, OccursAt;
    var line := a + "," + b;
    forall i: int ensures !OccursAt(line, ", ", i) {
      SpacedOccurs(line, i);
      if 0 <= i < |line| - 1 && i != |a| { assert line[i] == if i < |a| then a[i] else b[i - |a| - 1]; }
    }
    IndexIs(line, ", ", -1);
  }

  /** Without the space two directives are read as one, and neither is found. */
  lemma UnspacedCommaHidesDirectives()
    ensures "no-store" !in Parse(["private,no-store"]) && "private" !in Parse(["private,no-store"])
  {
    hide Parse, Index;
    var line := "private,no-store";
    forall i: int ensures !OccursAt(line, ", ", i) && !OccursAt(line, "=", i) {
      if 0 <= i <= |line| - 2 { assert line[i..i + 2][0] == line[i] && line[i..i + 2][1] == line[i + 1]; }
      if 0 <= i <= |line| - 1 { assert line[i..i + 1][0] == line[i]; }
    }
    IndexIs(line, ", ", -1);
    IndexIs(line, "=", -1);
    OneDirective(line, "no-store");
    OneDirective(line, "private");
  }

  lemma OneDirective(line: string, name: string)
    requires Index(line, ", ") < 0 && Index(line, "=") < 0
    ensures name in Parse([line]) <==> name == ToLower(line)
  {
    hide Index, OccursAt, ToLower;
    OnePiece(line);
    LookupIsLast([line], name);
  }

  lemma OnePiece(line: string)
    requires Index(line, ", ") < 0
    ensures Pieces([line]) == [line]
  {
    var none: seq<string> := [];
    assert [line][..0] == none;
  }
}
