/**
 Composite cache keys: `origin:METHOD:uri<TAB>cache-key`, then one line for every request field
 that the response's Vary field nominates and the request carries. Keys are printed when a
 response is stored, searched by prefix, and parsed to rebuild the request they stand for.
 */
module CacheKey {
  import opened Text
  import opened Http

  /* Section 4.1 of RFC 9111. */

  /** Section 5.2 of RFC 9110: the value of a field is that of its lines in order, combined with commas. */
  function CombinedValue(h: Header, name: string): string { Join(Values(h, name), ", ") }

  /** The field matches: present in both or in neither, with the same combined value. */
  predicate FieldMatches(a: Header, b: Header, name: string) {
    CombinedValue(a, name) == CombinedValue(b, name) && (FieldAbsent(a, name) <==> FieldAbsent(b, name))
  }

  /** The rule for the fields a Vary list nominates, without normalisation that needs their syntax. */
  predicate VaryMatches(a: Header, b: Header, names: seq<string>) {
    "*" !in names && forall name :: name in names ==> FieldMatches(a, b, name)
  }

  /* The cache's own test, which looks at first lines only. */

  predicate FieldAgrees(a: Header, b: Header, name: string) {
    Get(a, name) == Get(b, name) && (FieldAbsent(a, name) <==> FieldAbsent(b, name))
  }

  predicate HeaderFieldsMatch(a: Header, b: Header, names: seq<string>) {
    forall name :: name in names ==> FieldAgrees(a, b, name) && name != "*"
  }

  /** What the test leaves out: the lines after the first. */
  predicate FurtherLinesAgree(a: Header, b: Header, name: string) {
    var x, y := Values(a, name), Values(b, name);
    x != [] && y != [] ==> (|x| == 1 <==> |y| == 1) && Join(x[1..], ", ") == Join(y[1..], ", ")
  }

  predicate OneLine(h: Header, names: seq<string>) {
    forall name :: name in names ==> |Values(h, name)| <= 1
  }

  lemma JoinSplitsOff(x: seq<string>)
    requires x != []
    ensures Join(x, ", ") == if |x| == 1 then x[0] else (x[0] + ", ") + Join(x[1..], ", ")
  {}

  /** Equal first lines make equal values exactly when the other lines agree. */
  lemma FieldMatchesIff(a: Header, b: Header, name: string)
    requires FieldAgrees(a, b, name)
    ensures FieldMatches(a, b, name) <==> FurtherLinesAgree(a, b, name)
  {
    hide CanonicalName, Values, Join;
    var x, y := Values(a, name), Values(b, name);
    if x != [] && y != [] {
      JoinSplitsOff(x);
      JoinSplitsOff(y);
      assert x[0] == y[0];
      if |x| > 1 && |y| > 1 { SameTail(x[0] + ", ", Join(x[1..], ", "), Join(y[1..], ", ")); }
      if |x| == 1 && |y| == 1 { assert x[1..] == y[1..]; }
      assert |x| > 1 ==> |Join(x, ", ")| > |x[0]|;
      assert |y| > 1 ==> |Join(y, ", ")| > |y[0]|;
    }
  }

  lemma SameTail(head: string, x: string, y: string)
    ensures head + x == head + y <==> x == y
  {
    assert (head + x)[|head|..] == x && (head + y)[|head|..] == y;
  }

  /** When the cache's test keeps section 4.1: the further lines of every nominated field agree too. */
  lemma MatchMeetsSection41Iff(a: Header, b: Header, names: seq<string>)
    requires HeaderFieldsMatch(a, b, names)
    ensures VaryMatches(a, b, names) <==> forall name :: name in names ==> FurtherLinesAgree(a, b, name)
  {
    hide CanonicalName, FieldAgrees, FieldMatches, FurtherLinesAgree;
    forall name | name in names ensures FieldMatches(a, b, name) <==> FurtherLinesAgree(a, b, name) {
      FieldMatchesIff(a, b, name);
    }
  }

  /** With at most one line for each nominated field, the test is the rule of section 4.1. */
  lemma OneLineMatch(a: Header, b: Header, names: seq<string>)
    requires OneLine(a, names) && OneLine(b, names)
    ensures HeaderFieldsMatch(a, b, names) <==> VaryMatches(a, b, names)
  {
    hide CanonicalName, Values;
    forall name | name in names ensures FieldAgrees(a, b, name) <==> FieldMatches(a, b, name) {
      assert |Values(a, name)| <= 1 && |Values(b, name)| <= 1;
    }
  }

  function FirstLines(h: Header): Header { map k | k in h && h[k] != [] :: [h[k][0]] }

  lemma FirstLinesAgree(h: Header, names: seq<string>)
    requires WellFormed(h) && "*" !in names
    ensures var g := FirstLines(h); WellFormed(g) && OneLine(g, names) && HeaderFieldsMatch(h, g, names)
  {
    hide CanonicalName, IsToken, IsFieldValue;
  }

  /**
   For a request, the test accepts only what section 4.1 accepts, whatever it is compared with that
   has single lines, exactly when the request has single lines itself.
   */
  lemma OneLineIff(a: Header, names: seq<string>)
    requires WellFormed(a) && "*" !in names
    ensures OneLine(a, names) <==>
      forall b :: WellFormed(b) && OneLine(b, names) && HeaderFieldsMatch(a, b, names) ==> VaryMatches(a, b, names)
  {
    hide CanonicalName, WellFormed, HeaderFieldsMatch;
    if OneLine(a, names) {
      forall b | WellFormed(b) && OneLine(b, names) && HeaderFieldsMatch(a, b, names) ensures VaryMatches(a, b, names) {
        OneLineMatch(a, b, names);
      }
    } else {
      var name :| name in names && |Values(a, name)| > 1;
      var b := FirstLines(a);
      FirstLinesAgree(a, names);
      JoinSplitsOff(Values(a, name));
      FirstValue(a, name);
      assert Join(Values(b, name), ", ") == Values(a, name)[0];
      assert !FieldMatches(a, b, name);
    }
  }

  lemma FirstValue(h: Header, name: string)
    requires Values(h, name) != []
    ensures Values(FirstLines(h), name) == [Values(h, name)[0]]
  {
    hide CanonicalName;
  }

  lemma MatchIsTransitive(a: Header, b: Header, c: Header, names: seq<string>)
    requires HeaderFieldsMatch(a, b, names) && HeaderFieldsMatch(b, c, names)
    ensures HeaderFieldsMatch(a, c, names) && HeaderFieldsMatch(b, a, names)
  {
    hide CanonicalName;
  }

  /* Printing. */

  /** URIs with control characters do not parse. */
  predicate ValidUri(uri: string) { forall c :: c in uri ==> c >= ' ' && c != '\U{007F}' }

  predicate WellFormedRequest(r: Request) {
    IsToken(r.verb) && ValidUri(r.uri) && WellFormed(r.header)
  }

  /** An origin identifier is a URL: it holds no line break. */
  predicate OriginId(origin: string) { '\n' !in origin }

  function MethodPrefix(origin: string, verb: string): string {
    origin + ":" + verb + ":"
  }

  function KeyPrefix(origin: string, r: Request): string {
    MethodPrefix(origin, r.verb) + r.uri + "\t" + Get(r.header, "Cache-Key")
  }

  /** The request fields that `names` nominates and `h` carries, names in lower case. */
  function Nominated(h: Header, names: seq<string>): seq<Field> {
    if names == [] then []
    else (if FieldAbsent(h, names[0]) then [] else [Field(ToLower(names[0]), Get(h, names[0]))])
         + Nominated(h, names[1..])
  }

  function Line(f: Field): string { f.name + ": " + f.value }

  function FieldLines(fields: seq<Field>): string {
    if fields == [] then "" else "\n" + (Line(fields[0]) + FieldLines(fields[1..]))
  }

  function FullKey(origin: string, r: Request, names: seq<string>): string {
    KeyPrefix(origin, r) + FieldLines(Nominated(r.header, names))
  }

  /** The loop that extends a key prefix line by line builds exactly `FullKey`. */
  method AddVaryKeys(origin: string, r: Request, response: Header) returns (key: string)
    ensures key == FullKey(origin, r, ListHeader(response, "Vary"))
  {
    hide CanonicalName, TrimSpace, Split, Nominated, KeyPrefix;
    var names := GetListHeader(response, "Vary");
    key := KeyPrefix(origin, r);
    assert names[0..] == names;
    for i := 0 to |names|
      invariant FullKey(origin, r, names) == key + FieldLines(Nominated(r.header, names[i..]))
    {
      NominatedStep(r.header, names, i, key);
      if !FieldAbsent(r.header, names[i]) {
        key := key + ("\n" + (ToLower(names[i]) + ": " + Get(r.header, names[i])));
      }
    }
    assert Nominated(r.header, names[|names|..]) == [] by { NominatedNone(r.header, names[|names|..]); }
  }

  lemma NominatedNone(h: Header, names: seq<string>)
    requires names == []
    ensures Nominated(h, names) == []
  {}

  lemma NominatedStep(h: Header, names: seq<string>, i: nat, key: string)
    requires i < |names|
    ensures key + FieldLines(Nominated(h, names[i..])) ==
      (if FieldAbsent(h, names[i]) then key
       else key + ("\n" + (ToLower(names[i]) + ": " + Get(h, names[i]))))
      + FieldLines(Nominated(h, names[i + 1..]))
  {
    hide CanonicalName, FieldLines;
    var rest := Nominated(h, names[i + 1..]);
    assert names[i..][1..] == names[i + 1..];
    if FieldAbsent(h, names[i]) {
      assert [] + rest == rest;
    } else {
      var f := Field(ToLower(names[i]), Get(h, names[i]));
      LinesStep(f, rest);
      Associate(key, "\n" + Line(f), FieldLines(rest));
    }
  }

  lemma LinesStep(f: Field, rest: seq<Field>)
    ensures FieldLines([f] + rest) == "\n" + Line(f) + FieldLines(rest)
  {
    assert ([f] + rest)[1..] == rest;
  }

  lemma Associate(a: string, b: string, c: string)
    ensures a + (b + c) == a + b + c
  {}

  /* Parsing. */

  datatype KeyError = OriginMismatch | Malformed | BadMethod | BadUri | NoFieldSeparator

  datatype Decoded = Ok(request: Request) | Err(error: KeyError)

  /** The fields of the key's lines; a line without ": " has none (indexing it would panic). */
  function FieldsOf(lines: seq<string>): Option<seq<Field>> {
    if lines == [] then Some([])
    else if !Contains(lines[0], ": ") then None
    else
      var rest := FieldsOf(lines[1..]);
      if rest.None? then None
      else Some([Field(Before(lines[0], ": "), After(lines[0], ": "))] + rest.value)
  }

  function VaryHeaders(key: string): Option<Header> {
    var fields := FieldsOf(Split(key, "\n")[1..]);
    if fields.None? then None else Some(AddAll(map[], fields.value))
  }

  method GetVaryHeaders(key: string) returns (header: Option<Header>)
    ensures header == VaryHeaders(key)
  {
    hide CanonicalName, Split, Before, After, Contains;
    var h: Header := map[];
    var lines := Split(key, "\n");
    for i := 1 to |lines|
      invariant var rest := FieldsOf(lines[i..]);
        VaryHeaders(key) == if rest.None? then None else Some(AddAll(h, rest.value))
    {
      assert lines[i..][1..] == lines[i + 1..];
      if !Contains(lines[i], ": ") { return None; }
      h := Add(h, Before(lines[i], ": "), After(lines[i], ": "));
    }
    return Some(h);
  }

  function DecodeKey(origin: string, key: string): Decoded {
    if !(origin + ":" <= key) then Err(OriginMismatch)
    else
      var noOrigin := key[|origin| + 1..];
      if !Contains(noOrigin, "\t") then Err(Malformed)
      else
        var noVary := Before(noOrigin, "\t");
        if !Contains(noVary, ":") then Err(Malformed)
        else
          var verb := if Before(noVary, ":") == "" then "GET" else Before(noVary, ":");
          if !IsToken(verb) then Err(BadMethod)
          else if !ValidUri(After(noVary, ":")) then Err(BadUri)
          else
            var header := VaryHeaders(key);
            if header.None? then Err(NoFieldSeparator)
            else Ok(Request(verb, After(noVary, ":"), header.value))
  }

  /** Keys of another origin, without a tab, or without a colon before it, do not decode; no method means GET. */
  lemma OddKeysDoNotDecode(origin: string, key: string, rest: string)
    ensures !(origin + ":" <= key) ==> DecodeKey(origin, key) == Err(OriginMismatch)
    ensures key == origin + ":" + rest && '\t' !in rest ==> DecodeKey(origin, key) == Err(Malformed)
    ensures key == origin + ":" + rest && '\t' in rest && ':' !in Before(rest, "\t") ==>
      DecodeKey(origin, key) == Err(Malformed)
    ensures key == origin + ":" + rest && ":/" <= rest && '\t' in rest && DecodeKey(origin, key).Ok? ==>
      DecodeKey(origin, key).request.verb == "GET"
  {
    hide After, VaryHeaders, Index;
    if key == origin + ":" + rest {
      assert key[|origin| + 1..] == rest;
      CleanChar(rest, '\t');
      CleanChar(Before(rest, "\t"), ':');
      if ":/" <= rest && '\t' in rest { EmptyMethod(rest); }
    }
  }

  lemma EmptyMethod(rest: string)
    requires ":/" <= rest && '\t' in rest
    ensures Before(Before(rest, "\t"), ":") == ""
  {
    hide IndexFrom;
    CleanChar(rest, '\t');
    var i := Index(rest, "\t");
    assert rest[i..i + 1] == "\t" && rest[0] == ':' && rest[1] == '/';
    var kv := Before(rest, "\t");
    assert i > 0 && kv == "" + ":" + kv[1..];
    CutAt("", ':', kv[1..]);
  }

  /* Decoding what was printed. */

  ghost predicate KeyFields(fields: seq<Field>) {
    forall f :: f in fields ==> IsToken(f.name) && IsFieldValue(f.value)
  }

  lemma {:induction false} NominatedAreKeyFields(h: Header, names: seq<string>)
    requires WellFormed(h)
    ensures KeyFields(Nominated(h, names))
  {
    hide CanonicalName, WellFormed;
    if names != [] {
      NominatedAreKeyFields(h, names[1..]);
      if !FieldAbsent(h, names[0]) {
        PresentIsToken(h, names[0]);
        LowerIsSameField(names[0]);
      }
    }
  }

  lemma LineSplits(f: Field)
    requires IsToken(f.name)
    ensures Contains(Line(f), ": ") && Before(Line(f), ": ") == f.name && After(Line(f), ": ") == f.value
  {
    assert Clean(f.name, ": ") by {
      forall i | 0 <= i < |f.name| ensures !OccursAt(f.name + ": ", ": ", i) {
        assert (f.name + ": ")[i] == f.name[i] != ':';
        assert (f.name + ": ")[i..i + 2][0] == (f.name + ": ")[i];
      }
    }
    IndexFirst(f.name, ": ", f.value);
    assert Line(f)[..|f.name|] == f.name;
    assert Line(f)[|f.name| + 2..] == f.value;
  }

  lemma {:induction false} LinesParse(head: string, fields: seq<Field>)
    requires '\n' !in head && KeyFields(fields)
    ensures var lines := Split(head + FieldLines(fields), "\n");
      lines[0] == head && FieldsOf(lines[1..]) == Some(fields)
    decreases |fields|
  {
    hide OccursAt, Index, Split, Before, After, Contains, CanonicalName, Line;
    if fields == [] {
      assert head + "" == head;
      SplitNone(head, '\n');
    } else {
      var f, rest := fields[0], FieldLines(fields[1..]);
      assert f in fields;
      LineSplits(f);
      LineIsOneLine(f);
      CleanChar(head, '\n');
      Associate(head, "\n", Line(f) + rest);
      SplitFirst(head, "\n", Line(f) + rest);
      LinesParse(Line(f), fields[1..]);
      var lines := Split(Line(f) + rest, "\n");
      assert ([head] + lines)[1..] == lines;
      assert fields == [f] + fields[1..];
    }
  }

  lemma LineIsOneLine(f: Field)
    requires IsToken(f.name) && IsFieldValue(f.value)
    ensures '\n' !in Line(f)
  {}

  lemma TokenHasNoSeparator(s: string)
    requires IsToken(s)
    ensures ':' !in s && '\t' !in s && '\n' !in s && s != ""
  {}

  lemma CacheKeyIsOneLine(r: Request)
    requires WellFormedRequest(r)
    ensures '\n' !in Get(r.header, "Cache-Key")
  {
    hide CanonicalName;
    if !FieldAbsent(r.header, "Cache-Key") { PresentIsToken(r.header, "Cache-Key"); }
  }

  lemma PrefixIsOneLine(origin: string, r: Request)
    requires OriginId(origin) && WellFormedRequest(r)
    ensures '\n' !in KeyPrefix(origin, r)
  {
    hide CanonicalName, WellFormed;
    TokenHasNoSeparator(r.verb);
    CacheKeyIsOneLine(r);
  }

  /** Decoding a stored key always succeeds, and says exactly what request comes back. */
  lemma DecodeEncode(origin: string, r: Request, names: seq<string>)
    requires OriginId(origin) && WellFormedRequest(r)
    ensures DecodeKey(origin, FullKey(origin, r, names))
         == Ok(Request(r.verb, r.uri, AddAll(map[], Nominated(r.header, names))))
  {
    hide CanonicalName, WellFormed, IsToken, Before, After, Contains, Nominated, FieldLines, VaryHeaders;
    var fields := Nominated(r.header, names);
    VaryHeadersParse(origin, r, names);
    TokenHasNoSeparator(r.verb);
    var kv, tail := r.verb + ":" + r.uri, Get(r.header, "Cache-Key") + FieldLines(fields);
    KeyShape(origin, r.verb, r.uri, Get(r.header, "Cache-Key"), FieldLines(fields));
    DropHead(origin + ":", kv + "\t" + tail);
    CutAt(kv, '\t', tail);
    CutAt(r.verb, ':', r.uri);
  }

  /** A key whose URI would break a line or the key does not decode, and one without such characters does. */
  lemma UriDecodesIff(origin: string, verb: string, uri: string)
    requires OriginId(origin) && IsToken(verb) && '\t' !in uri && '\n' !in uri
    ensures DecodeKey(origin, origin + ":" + verb + ":" + uri + "\t").Ok? <==>
            forall i :: 0 <= i < |uri| ==> uri[i] >= ' ' && uri[i] as int != 127
  {
    hide IsToken, Before, After, Contains, VaryHeaders, ValidUri;
    var key := origin + ":" + verb + ":" + uri + "\t";
    TokenHasNoSeparator(verb);
    KeyShape(origin, verb, uri, "", "");
    var kv := verb + ":" + uri;
    assert key == (origin + ":") + (kv + "\t" + "");
    DropHead(origin + ":", kv + "\t" + "");
    CutAt(kv, '\t', "");
    CutAt(verb, ':', uri);
    NoVaryLines(key);
    ControlFree(uri);
  }

  lemma ControlFree(uri: string)
    ensures ValidUri(uri) <==> forall i :: 0 <= i < |uri| ==> uri[i] >= ' ' && uri[i] as int != 127
  {
    if forall i :: 0 <= i < |uri| ==> uri[i] >= ' ' && uri[i] as int != 127 {
      forall c | c in uri ensures c >= ' ' && c != '\U{007F}' {
        var i :| 0 <= i < |uri| && uri[i] == c;
      }
    }
    forall i | 0 <= i < |uri| && ValidUri(uri) ensures uri[i] >= ' ' && uri[i] as int != 127 {
      assert uri[i] in uri && uri[i] != '\U{007F}';
    }
  }

  lemma NoVaryLines(key: string)
    requires '\n' !in key
    ensures VaryHeaders(key) == Some(map[])
  {
    SplitNone(key, '\n');
    assert [key][1..] == [];
  }

  lemma VaryHeadersParse(origin: string, r: Request, names: seq<string>)
    requires OriginId(origin) && WellFormedRequest(r)
    ensures VaryHeaders(FullKey(origin, r, names)) == Some(AddAll(map[], Nominated(r.header, names)))
  {
    hide CanonicalName, WellFormed, IsToken, Split, KeyPrefix, FieldLines, AddAll, FieldsOf, Nominated;
    NominatedAreKeyFields(r.header, names);
    PrefixIsOneLine(origin, r);
    LinesParse(KeyPrefix(origin, r), Nominated(r.header, names));
  }

  lemma KeyShape(origin: string, verb: string, uri: string, ck: string, lines: string)
    ensures MethodPrefix(origin, verb) + uri + "\t" + ck + lines
         == (origin + ":") + ((verb + ":" + uri) + "\t" + (ck + lines))
  {}

  lemma DropHead(a: string, b: string)
    ensures a <= a + b && (a + b)[|a|..] == b
  {}

  function Copies(value: string, n: nat): seq<string> {
    if n == 0 then [] else [value] + Copies(value, n - 1)
  }

  /** How often the list names the field. */
  function Mentions(names: seq<string>, field: string): nat {
    if names == [] then 0
    else (if CanonicalName(names[0]) == CanonicalName(field) then 1 else 0) + Mentions(names[1..], field)
  }

  lemma {:induction false} MentionedAtLeastOnce(names: seq<string>, name: string)
    requires name in names
    ensures Mentions(names, name) >= 1
  {
    hide CanonicalName;
    if names[0] != name { MentionedAtLeastOnce(names[1..], name); }
  }

  lemma SelectCons(f: Field, rest: seq<Field>, name: string)
    ensures Select([f] + rest, name) ==
            (if CanonicalName(f.name) == CanonicalName(name) then [f.value] else []) + Select(rest, name)
  {
    hide CanonicalName;
    assert ([f] + rest)[1..] == rest;
  }

  lemma NominatedFirst(h: Header, names: seq<string>, name: string)
    requires WellFormed(h) && names != []
    ensures Select(Nominated(h, names), name) ==
            (if !FieldAbsent(h, names[0]) && CanonicalName(names[0]) == CanonicalName(name) then [Get(h, name)] else [])
            + Select(Nominated(h, names[1..]), name)
  {
    hide CanonicalName, WellFormed, Select;
    var rest := Nominated(h, names[1..]);
    if FieldAbsent(h, names[0]) {
      assert Nominated(h, names) == rest;
    } else {
      PresentIsToken(h, names[0]);
      LowerIsSameField(names[0]);
      SelectCons(Field(ToLower(names[0]), Get(h, names[0])), rest, name);
    }
  }

  lemma {:induction false} NominatedCopies(h: Header, names: seq<string>, name: string)
    requires WellFormed(h)
    ensures Select(Nominated(h, names), name) ==
            if FieldAbsent(h, name) then [] else Copies(Get(h, name), Mentions(names, name))
    decreases |names|
  {
    hide CanonicalName, WellFormed, Get, ToLower;
    if names != [] {
      hide Nominated, Select;
      NominatedCopies(h, names[1..], name);
      NominatedFirst(h, names, name);
      if CanonicalName(names[0]) == CanonicalName(name) { SameAbsence(h, names[0], name); }
    }
  }

  lemma SameAbsence(h: Header, a: string, b: string)
    requires CanonicalName(a) == CanonicalName(b)
    ensures FieldAbsent(h, a) <==> FieldAbsent(h, b)
  {
    hide CanonicalName;
  }

  /** What the decoded header holds for any field: its first line, as often as the list names it. */
  lemma DecodedValues(h: Header, names: seq<string>, name: string)
    requires WellFormed(h)
    ensures Values(AddAll(map[], Nominated(h, names)), name) ==
            if FieldAbsent(h, name) then [] else Copies(Get(h, name), Mentions(names, name))
  {
    hide CanonicalName, WellFormed, Nominated, Mentions, Copies;
    AddAllValues(map[], Nominated(h, names), name);
    NominatedCopies(h, names, name);
    assert Values(map[], name) == [];
  }

  lemma DecodedField(h: Header, names: seq<string>, name: string)
    requires WellFormed(h) && name in names
    ensures FieldAgrees(AddAll(map[], Nominated(h, names)), h, name)
  {
    hide CanonicalName, WellFormed, Nominated, Mentions, AddAll;
    DecodedValues(h, names, name);
    MentionedAtLeastOnce(names, name);
  }

  /** The decoded request stands for the original in the cache's own test. */
  lemma DecodedMatches(origin: string, r: Request, names: seq<string>)
    requires OriginId(origin) && WellFormedRequest(r)
    ensures var d := DecodeKey(origin, FullKey(origin, r, names));
      && d.Ok? && WellFormedRequest(d.request)
      && d.request.verb == r.verb && d.request.uri == r.uri
      && (HeaderFieldsMatch(d.request.header, r.header, names) <==> "*" !in names)
  {
    hide CanonicalName, WellFormed, IsToken, DecodeKey, FullKey;
    DecodeEncode(origin, r, names);
    NominatedAreKeyFields(r.header, names);
    AddAllWellFormed(map[], Nominated(r.header, names)) by { assert WellFormed(map[]) by { EmptyIsWellFormed(); } }
    forall name | name in names
      ensures FieldAgrees(AddAll(map[], Nominated(r.header, names)), r.header, name)
    {
      DecodedField(r.header, names, name);
    }
  }

  lemma EmptyIsWellFormed()
    ensures WellFormed(map[])
  {}

  /* Equality of keys. */

  lemma {:induction false} AgreeingNominated(a: Header, b: Header, names: seq<string>)
    requires forall name :: name in names ==> FieldAgrees(a, b, name)
    ensures Nominated(a, names) == Nominated(b, names)
  {
    hide CanonicalName;
    if names != [] {
      assert names[0] in names;
      assert FieldAgrees(a, b, names[0]);
      AgreeingNominated(a, b, names[1..]);
    }
  }

  lemma CaseOfName(h: Header, a: string, b: string)
    requires WellFormed(h) && ToLower(a) == ToLower(b)
    ensures FieldAbsent(h, a) <==> FieldAbsent(h, b)
    ensures Get(h, a) == Get(h, b)
  {
    hide CanonicalName, IsFieldValue;
    if IsToken(a) {
      TokenCase(a, b);
      SameField(a, b);
    } else {
      if IsToken(b) { TokenCase(b, a); }
      assert FieldAbsent(h, a) by { if !FieldAbsent(h, a) { PresentIsToken(h, a); } }
      assert FieldAbsent(h, b) by { if !FieldAbsent(h, b) { PresentIsToken(h, b); } }
    }
  }

  lemma TokenCase(a: string, b: string)
    requires ToLower(a) == ToLower(b) && IsToken(a)
    ensures IsToken(b)
  {
    var l := ToLower(a);
    assert |a| == |l| == |ToLower(b)| == |b|;
    forall i | 0 <= i < |b| ensures IsTokenChar(b[i]) {
      assert LowerChar(b[i]) == ToLower(b)[i] == l[i] == LowerChar(a[i]);
    }
  }

  /** The case in which a response spells its Vary names makes no difference to the key. */
  lemma KeyIgnoresVaryCase(origin: string, r: Request, names: seq<string>, others: seq<string>)
    requires WellFormedRequest(r) && |names| == |others|
    requires forall i :: 0 <= i < |names| ==> ToLower(names[i]) == ToLower(others[i])
    ensures FullKey(origin, r, names) == FullKey(origin, r, others)
  {
    hide CanonicalName, ToLower, KeyPrefix, FieldLines, WellFormed, Nominated;
    NominatedIgnoresCase(r.header, names, others);
  }

  lemma {:induction false} NominatedIgnoresCase(h: Header, names: seq<string>, others: seq<string>)
    requires WellFormed(h) && |names| == |others|
    requires forall i :: 0 <= i < |names| ==> ToLower(names[i]) == ToLower(others[i])
    ensures Nominated(h, names) == Nominated(h, others)
    decreases |names|
  {
    hide CanonicalName, ToLower, WellFormed;
    if names != [] {
      CaseOfName(h, names[0], others[0]);
      NominatedIgnoresCase(h, names[1..], others[1..]);
    }
  }

  lemma SamePrefix(origin: string, a: Request, b: Request)
    requires WellFormedRequest(a) && WellFormedRequest(b)
    ensures KeyPrefix(origin, a) == KeyPrefix(origin, b) <==>
      a.verb == b.verb && a.uri == b.uri && Get(a.header, "Cache-Key") == Get(b.header, "Cache-Key")
  {
    hide CanonicalName, WellFormed;
    TokenHasNoSeparator(a.verb);
    TokenHasNoSeparator(b.verb);
    var ca, cb := Get(a.header, "Cache-Key"), Get(b.header, "Cache-Key");
    KeyShape(origin, a.verb, a.uri, ca, "");
    KeyShape(origin, b.verb, b.uri, cb, "");
    assert ca + "" == ca && cb + "" == cb;
    if KeyPrefix(origin, a) == KeyPrefix(origin, b) {
      DropHead(origin + ":", (a.verb + ":" + a.uri) + "\t" + ca);
      DropHead(origin + ":", (b.verb + ":" + b.uri) + "\t" + cb);
      CutAt(a.verb + ":" + a.uri, '\t', ca);
      CutAt(b.verb + ":" + b.uri, '\t', cb);
      CutAt(a.verb, ':', a.uri);
      CutAt(b.verb, ':', b.uri);
    }
  }

  /** A printed key can be taken apart in one way only. */
  lemma KeyParts(origin: string, a: Request, names: seq<string>, b: Request, others: seq<string>)
    requires OriginId(origin) && WellFormedRequest(a) && WellFormedRequest(b)
    ensures FullKey(origin, a, names) == FullKey(origin, b, others) <==>
      KeyPrefix(origin, a) == KeyPrefix(origin, b) && Nominated(a.header, names) == Nominated(b.header, others)
  {
    hide CanonicalName, WellFormed, IsToken, Split, KeyPrefix, FieldLines, FieldsOf, Nominated;
    PrefixIsOneLine(origin, a);
    PrefixIsOneLine(origin, b);
    NominatedAreKeyFields(a.header, names);
    NominatedAreKeyFields(b.header, others);
    LinesParse(KeyPrefix(origin, a), Nominated(a.header, names));
    LinesParse(KeyPrefix(origin, b), Nominated(b.header, others));
  }

  /**
   Two requests have the same key exactly when method, URI and `Cache-Key` agree and the cache's test
   accepts the nominated fields.
   */
  lemma KeyEqualityIsHeaderMatch(origin: string, a: Request, b: Request, names: seq<string>)
    requires OriginId(origin) && WellFormedRequest(a) && WellFormedRequest(b)
    requires "*" !in names
    ensures FullKey(origin, a, names) == FullKey(origin, b, names) <==>
      && a.verb == b.verb && a.uri == b.uri
      && Get(a.header, "Cache-Key") == Get(b.header, "Cache-Key")
      && HeaderFieldsMatch(a.header, b.header, names)
  {
    hide CanonicalName, WellFormed, IsToken, KeyPrefix, FullKey, Nominated;
    SamePrefix(origin, a, b);
    KeyParts(origin, a, names, b, names);
    if HeaderFieldsMatch(a.header, b.header, names) {
      AgreeingNominated(a.header, b.header, names);
    }
    if Nominated(a.header, names) == Nominated(b.header, names) {
      forall name | name in names ensures FieldAgrees(a.header, b.header, name) {
        DecodedField(a.header, names, name);
        DecodedField(b.header, names, name);
      }
    }
  }

  /**
   The string key against section 4.1 of RFC 9111: requests that have single lines for the nominated
   fields have the same key exactly when method, URI and `Cache-Key` agree and the fields match; and
   of any two requests with the same key, the fields match exactly when the further lines agree.
   */
  lemma KeyEqualityIsVaryMatching(origin: string, a: Request, b: Request, names: seq<string>)
    requires OriginId(origin) && WellFormedRequest(a) && WellFormedRequest(b)
    requires "*" !in names
    ensures OneLine(a.header, names) && OneLine(b.header, names) ==>
      (FullKey(origin, a, names) == FullKey(origin, b, names) <==>
        && a.verb == b.verb && a.uri == b.uri
        && Get(a.header, "Cache-Key") == Get(b.header, "Cache-Key")
        && VaryMatches(a.header, b.header, names))
    ensures FullKey(origin, a, names) == FullKey(origin, b, names) ==>
      (VaryMatches(a.header, b.header, names) <==>
        forall name :: name in names ==> FurtherLinesAgree(a.header, b.header, name))
  {
    hide CanonicalName, FullKey, WellFormedRequest, FurtherLinesAgree, HeaderFieldsMatch, VaryMatches, OneLine;
    KeyEqualityIsHeaderMatch(origin, a, b, names);
    if OneLine(a.header, names) && OneLine(b.header, names) { OneLineMatch(a.header, b.header, names); }
    if HeaderFieldsMatch(a.header, b.header, names) { MatchMeetsSection41Iff(a.header, b.header, names); }
  }

  const LANGUAGE := "Accept-Language"

  lemma LanguageRequest(second: string)
    requires IsFieldValue(second)
    ensures var r := Request("GET", "/", map[LANGUAGE := ["en", second]]);
      && WellFormedRequest(r) && Values(r.header, LANGUAGE) == ["en", second]
      && Get(r.header, "Cache-Key") == ""
  {
    assert CanonicalName(LANGUAGE) == LANGUAGE && IsToken(LANGUAGE);
    assert |CanonicalName("Cache-Key")| == 9 && |LANGUAGE| == 15;
  }

  /** Two requests that differ in a second line of a nominated field have one key, though they do not match. */
  lemma FurtherLinesAreIgnored(origin: string)
    requires OriginId(origin)
    ensures var a := Request("GET", "/", map[LANGUAGE := ["en", "fr"]]);
      var b := Request("GET", "/", map[LANGUAGE := ["en", "de"]]);
      && WellFormedRequest(a) && WellFormedRequest(b)
      && FullKey(origin, a, [LANGUAGE]) == FullKey(origin, b, [LANGUAGE])
      && HeaderFieldsMatch(a.header, b.header, [LANGUAGE]) && !VaryMatches(a.header, b.header, [LANGUAGE])
  {
    hide CanonicalName, FullKey, WellFormedRequest, Values;
    var a, b := Request("GET", "/", map[LANGUAGE := ["en", "fr"]]), Request("GET", "/", map[LANGUAGE := ["en", "de"]]);
    LanguageRequest("fr");
    LanguageRequest("de");
    assert LANGUAGE != "*" by { assert |LANGUAGE| == 15; }
    KeyEqualityIsHeaderMatch(origin, a, b, [LANGUAGE]);
    assert ["en", "fr"][1..] == ["fr"] && ["en", "de"][1..] == ["de"];
    assert !FurtherLinesAgree(a.header, b.header, LANGUAGE);
    FieldMatchesIff(a.header, b.header, LANGUAGE);
  }

  /* What decoding restores of a nominated field. */

  /** The field's value is its first line, as often as the list names it. */
  predicate Restorable(h: Header, names: seq<string>, name: string) {
    FieldAbsent(h, name) || CombinedValue(h, name) == Join(Copies(Get(h, name), Mentions(names, name)), ", ")
  }

  /** A decoded request stands for the original under section 4.1 exactly when every nominated field is restorable. */
  lemma DecodedMeetsSection41Iff(origin: string, r: Request, names: seq<string>)
    requires OriginId(origin) && WellFormedRequest(r)
    ensures var d := DecodeKey(origin, FullKey(origin, r, names));
      d.Ok? && (VaryMatches(d.request.header, r.header, names) <==>
                "*" !in names && forall name :: name in names ==> Restorable(r.header, names, name))
  {
    hide CanonicalName, WellFormed, IsToken, DecodeKey, FullKey, Nominated, Restorable;
    DecodeEncode(origin, r, names);
    var h := AddAll(map[], Nominated(r.header, names));
    forall name | name in names ensures FieldMatches(h, r.header, name) <==> Restorable(r.header, names, name) {
      RestoredField(r.header, names, name);
    }
  }

  lemma RestoredField(h: Header, names: seq<string>, name: string)
    requires WellFormed(h) && name in names
    ensures FieldMatches(AddAll(map[], Nominated(h, names)), h, name) <==> Restorable(h, names, name)
  {
    hide CanonicalName, WellFormed, Nominated, Join, AddAll, Mentions;
    DecodedValues(h, names, name);
    MentionedAtLeastOnce(names, name);
  }

  /** A field that the list names once is restorable exactly when it has no second line. */
  lemma RestorableIff(h: Header, names: seq<string>, name: string)
    requires Mentions(names, name) == 1
    ensures Restorable(h, names, name) <==> |Values(h, name)| <= 1
  {
    hide CanonicalName, Mentions;
    assert Copies(Get(h, name), 1) == [Get(h, name)] by { assert Copies(Get(h, name), 0) == []; }
    if Values(h, name) != [] { JoinSplitsOff(Values(h, name)); }
  }

  ghost predicate Nominates(names: seq<string>, field: string) {
    exists name :: name in names && CanonicalName(name) == CanonicalName(field)
  }

  lemma {:induction false} NotMentioned(names: seq<string>, field: string)
    requires !Nominates(names, field)
    ensures Mentions(names, field) == 0
  {
    hide CanonicalName;
    if names != [] {
      assert names[0] in names;
      forall name | name in names[1..] ensures name in names {}
      NotMentioned(names[1..], field);
    }
  }

  /** The `Cache-Key` that a decoded request carries: none, unless the Vary list names that field. */
  lemma DecodedCacheKey(h: Header, names: seq<string>)
    requires WellFormed(h)
    ensures Get(AddAll(map[], Nominated(h, names)), "Cache-Key")
         == if Nominates(names, "Cache-Key") then Get(h, "Cache-Key") else ""
  {
    hide CanonicalName, WellFormed;
    if Nominates(names, "Cache-Key") {
      var name :| name in names && CanonicalName(name) == CanonicalName("Cache-Key");
      DecodedField(h, names, name);
    } else {
      DecodedValues(h, names, "Cache-Key");
      NotMentioned(names, "Cache-Key");
    }
  }

  /**
   Encoding a decoded request again gives the same key exactly when the request had no `Cache-Key`
   or the response nominates that very field: decoding does not restore it otherwise.
   */
  lemma ReencodeIff(origin: string, r: Request, names: seq<string>)
    requires OriginId(origin) && WellFormedRequest(r)
    ensures var key := FullKey(origin, r, names);
      var d := DecodeKey(origin, key);
      d.Ok? && (FullKey(origin, d.request, names) == key <==>
                Get(r.header, "Cache-Key") == "" || Nominates(names, "Cache-Key"))
  {
    hide CanonicalName, WellFormed, IsToken, KeyPrefix, FullKey, DecodeKey, Nominated, Nominates;
    DecodedMatches(origin, r, names);
    DecodeEncode(origin, r, names);
    var d := DecodeKey(origin, FullKey(origin, r, names)).request;
    DecodedCacheKey(r.header, names);
    SamePrefix(origin, d, r);
    KeyParts(origin, d, names, r, names);
    forall name | name in names ensures FieldAgrees(d.header, r.header, name) {
      DecodedField(r.header, names, name);
    }
    AgreeingNominated(d.header, r.header, names);
  }

  /**
   When a refetch of the decoded request is answered with the Vary list `others`, the key it is
   stored under is the old one exactly when the `Cache-Key` survives decoding and the answer
   nominates the same present fields in the same order.
   */
  lemma RefreshKeyIff(origin: string, r: Request, names: seq<string>, others: seq<string>)
    requires OriginId(origin) && WellFormedRequest(r)
    ensures var key := FullKey(origin, r, names);
      var d := DecodeKey(origin, key);
      d.Ok? && (FullKey(origin, d.request, others) == key <==>
                && (Get(r.header, "Cache-Key") == "" || Nominates(names, "Cache-Key"))
                && Nominated(d.request.header, others) == Nominated(r.header, names))
  {
    hide CanonicalName, WellFormed, IsToken, KeyPrefix, FullKey, DecodeKey, Nominated, Nominates;
    DecodedMatches(origin, r, names);
    DecodeEncode(origin, r, names);
    var d := DecodeKey(origin, FullKey(origin, r, names)).request;
    DecodedCacheKey(r.header, names);
    SamePrefix(origin, d, r);
    KeyParts(origin, d, others, r, names);
  }

  /* Prefix search. */

  lemma LinesStartWithBreak(fields: seq<Field>)
    ensures FieldLines(fields) == "" || FieldLines(fields)[0] == '\n'
  {}

  lemma PrefixBeforeBreak(c: string, d: string, lines: string)
    requires '\n' !in c && (lines == "" || lines[0] == '\n')
    ensures c <= d + lines <==> c <= d
  {
    if c <= d + lines && lines != "" {
      assert (d + lines)[|d|] == '\n';
      assert forall i :: 0 <= i < |c| ==> (d + lines)[i] == c[i] != '\n';
      assert |c| <= |d|;
    }
  }

  /**
   Which stored keys a request is offered: those of the same method and URI whose `Cache-Key`
   starts with the request's own.
   */
  lemma OfferedIff(origin: string, r: Request, e: Request, names: seq<string>)
    requires OriginId(origin) && WellFormedRequest(r) && WellFormedRequest(e)
    ensures KeyPrefix(origin, r) <= FullKey(origin, e, names) <==>
      r.verb == e.verb && r.uri == e.uri && Get(r.header, "Cache-Key") <= Get(e.header, "Cache-Key")
  {
    hide CanonicalName, WellFormed, Nominated, FieldLines;
    var c, d, lines := Get(r.header, "Cache-Key"), Get(e.header, "Cache-Key"), FieldLines(Nominated(e.header, names));
    TokenHasNoSeparator(r.verb);
    TokenHasNoSeparator(e.verb);
    KeyShape(origin, r.verb, r.uri, c, "");
    assert c + "" == c;
    KeyShape(origin, e.verb, e.uri, d, lines);
    SameHead(origin + ":", (r.verb + ":" + r.uri) + "\t" + c, (e.verb + ":" + e.uri) + "\t" + (d + lines));
    CutPrefix(r.verb + ":" + r.uri, '\t', c, e.verb + ":" + e.uri, d + lines);
    LinesStartWithBreak(Nominated(e.header, names));
    CacheKeyIsOneLine(r);
    PrefixBeforeBreak(c, d, lines);
    CutAt(r.verb, ':', r.uri);
    CutAt(e.verb, ':', e.uri);
  }

  lemma SameHead(a: string, x: string, y: string)
    ensures a + x <= a + y <==> x <= y
  {
    if a + x <= a + y {
      assert x == (a + x)[|a|..] && y == (a + y)[|a|..];
    }
  }

  /** The method prefix selects exactly the keys of that method. */
  lemma MethodPrefixIff(origin: string, verb: string, e: Request, names: seq<string>)
    requires IsToken(verb) && WellFormedRequest(e)
    ensures MethodPrefix(origin, verb) <= FullKey(origin, e, names) <==> verb == e.verb
  {
    hide CanonicalName, WellFormed, Nominated, FieldLines;
    var rest := e.uri + "\t" + (Get(e.header, "Cache-Key") + FieldLines(Nominated(e.header, names)));
    TokenHasNoSeparator(verb);
    TokenHasNoSeparator(e.verb);
    var d, lines := Get(e.header, "Cache-Key"), FieldLines(Nominated(e.header, names));
    KeyShape(origin, e.verb, e.uri, d, lines);
    assert (e.verb + ":" + e.uri) + "\t" + (d + lines) == e.verb + ":" + rest;
    assert MethodPrefix(origin, verb) == (origin + ":") + (verb + ":" + "");
    SameHead(origin + ":", verb + ":" + "", e.verb + ":" + rest);
    CutPrefix(verb, ':', "", e.verb, rest);
  }
}
