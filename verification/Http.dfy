/** HTTP messages and header fields, with Go's `http.Header` operations. */
module Http {
  import opened Text

  /** Field names in canonical form, each with its field lines in order. */
  type Header = map<string, seq<string>>

  datatype Request = Request(verb: string, uri: string, header: Header)

  /** An origin's answer: the body arrives as any number of writes. */
  datatype Reply = Reply(status: int, header: Header, chunks: seq<string>) {
    function Body(): string { Concat(chunks) }
  }

  /** A whole message, as read back from stored bytes. */
  datatype Response = Response(status: int, header: Header, body: string)

  function Concat(chunks: seq<string>): string {
    if chunks == [] then "" else Concat(chunks[..|chunks| - 1]) + chunks[|chunks| - 1]
  }

  /* Field names. */

  predicate IsTokenChar(c: char) {
    'a' <= c <= 'z' || 'A' <= c <= 'Z' || '0' <= c <= '9'
    || c == '!' || c == '#' || c == '$' || c == '%' || c == '&' || c == '\'' || c == '*' || c == '+'
    || c == '-' || c == '.' || c == '^' || c == '_' || c == '`' || c == '|' || c == '~'
  }

  /** Section 5.6.2 of RFC 9110: the visible ASCII characters but the delimiters. */
  lemma TokenCharIff(c: char)
    ensures IsTokenChar(c) <==>
      '!' <= c <= '~' && c !in {'"', '(', ')', ',', '/', ':', ';', '<', '=', '>', '?', '@', '[', '\\', ']', '{', '}'}
  {}

  predicate IsToken(s: string) {
    s != "" && forall i :: 0 <= i < |s| ==> IsTokenChar(s[i])
  }

  /** The form under which a field name is looked up; a name that is no token stays as it is. */
  function CanonicalName(name: string): string {
    if IsToken(name) then
      seq(|name|, i requires 0 <= i < |name| =>
        if i == 0 || name[i - 1] == '-' then UpperChar(name[i]) else LowerChar(name[i]))
    else name
  }

  /** The canonical form has capitals at the start and behind hyphens, and nowhere else. */
  lemma CanonicalCase(name: string, i: nat)
    requires IsToken(name) && i < |name|
    ensures |CanonicalName(name)| == |name| && LowerChar(CanonicalName(name)[i]) == LowerChar(name[i])
    ensures var c, start := CanonicalName(name)[i], i == 0 || name[i - 1] == '-';
      && ('A' <= c <= 'Z' ==> start) && ('a' <= c <= 'z' ==> !start)
  {
    CaseOfChar(name[i], name[i]);
  }

  /** Two tokens are the same field exactly when they agree without case. */
  lemma SameField(a: string, b: string)
    requires IsToken(a) && IsToken(b)
    ensures CanonicalName(a) == CanonicalName(b) <==> ToLower(a) == ToLower(b)
  {
    if CanonicalName(a) == CanonicalName(b) {
      var c := CanonicalName(a);
      forall i | 0 <= i < |a| ensures LowerChar(a[i]) == LowerChar(b[i]) {
        assert c[i] == CanonicalName(b)[i];
        CaseOfChar(a[i], b[i]);
        CaseOfChar(b[i], a[i]);
      }
      assert ToLower(a) == ToLower(b);
    }
    if ToLower(a) == ToLower(b) {
      assert |a| == |ToLower(a)| == |b|;
      forall i | 0 <= i < |a| ensures LowerChar(a[i]) == LowerChar(b[i]) {
        assert ToLower(a)[i] == ToLower(b)[i];
      }
      forall i | 0 <= i < |a| ensures CanonicalName(a)[i] == CanonicalName(b)[i] {
        CaseOfChar(a[i], b[i]);
        if i > 0 { CaseOfChar(a[i - 1], b[i - 1]); }
      }
      assert CanonicalName(a) == CanonicalName(b);
    }
  }

  lemma LowerIsSameField(a: string)
    requires IsToken(a)
    ensures IsToken(ToLower(a)) && CanonicalName(ToLower(a)) == CanonicalName(a)
  {
    var l := ToLower(a);
    assert ToLower(l) == l;
    SameField(l, a);
  }

  /* Reading and changing headers. */

  function Values(h: Header, name: string): seq<string> {
    var c := CanonicalName(name);
    if c in h then h[c] else []
  }

  function Get(h: Header, name: string): string {
    var vs := Values(h, name);
    if vs == [] then "" else vs[0]
  }

  function Add(h: Header, name: string, value: string): Header {
    h[CanonicalName(name) := Values(h, name) + [value]]
  }

  function Set(h: Header, name: string, value: string): Header {
    h[CanonicalName(name) := [value]]
  }

  function Del(h: Header, name: string): Header {
    h - {CanonicalName(name)}
  }

  predicate FieldAbsent(h: Header, name: string) {
    |Values(h, name)| == 0
  }

  const BLANKS: set<char> := {' ', '\t'}

  /** A field value as the HTTP parser delivers it: one line, without blanks around it. */
  predicate IsFieldValue(v: string) {
    '\n' !in v && '\r' !in v && Trimmed(v, BLANKS)
  }

  /** A header as the HTTP parser delivers it. */
  predicate WellFormed(h: Header) {
    forall k :: k in h ==>
      IsToken(k) && CanonicalName(k) == k && h[k] != [] && forall v :: v in h[k] ==> IsFieldValue(v)
  }

  /** `Present` names are tokens, because the header's own keys are. */
  lemma PresentIsToken(h: Header, name: string)
    requires WellFormed(h) && !FieldAbsent(h, name)
    ensures IsToken(name) && IsFieldValue(Get(h, name))
  {
    assert Get(h, name) in h[CanonicalName(name)];
  }

  /* Header fields as a list of lines. */

  datatype Field = Field(name: string, value: string)

  /** Adds the fields one by one, in order. */
  function AddAll(h: Header, fields: seq<Field>): Header
    decreases |fields|
  {
    if fields == [] then h
    else AddAll(Add(h, fields[0].name, fields[0].value), fields[1..])
  }

  /** The values of one field, in order. */
  function Select(fields: seq<Field>, name: string): seq<string> {
    if fields == [] then []
    else (if CanonicalName(fields[0].name) == CanonicalName(name) then [fields[0].value] else [])
         + Select(fields[1..], name)
  }

  lemma AddValues(h: Header, field: string, value: string, name: string)
    ensures Values(Add(h, field, value), name) ==
            Values(h, name) + if CanonicalName(field) == CanonicalName(name) then [value] else []
  {}

  lemma {:induction false} AddAllValues(h: Header, fields: seq<Field>, name: string)
    ensures Values(AddAll(h, fields), name) == Values(h, name) + Select(fields, name)
    decreases |fields|
  {
    hide CanonicalName;
    if fields != [] {
      var f := fields[0];
      AddValues(h, f.name, f.value, name);
      AddAllValues(Add(h, f.name, f.value), fields[1..], name);
    }
  }

  lemma {:induction false} AddAllWellFormed(h: Header, fields: seq<Field>)
    requires WellFormed(h)
    requires forall f :: f in fields ==> IsToken(f.name) && IsFieldValue(f.value)
    ensures WellFormed(AddAll(h, fields))
    decreases |fields|
  {
    if fields != [] {
      var f := fields[0];
      assert f in fields;
      var g := Add(h, f.name, f.value);
      CanonicalIsCanonical(f.name);
      AddAllWellFormed(g, fields[1..]);
    }
  }

  lemma CanonicalIsCanonical(name: string)
    requires IsToken(name)
    ensures IsToken(CanonicalName(name)) && CanonicalName(CanonicalName(name)) == CanonicalName(name)
  {
    var c := CanonicalName(name);
    forall i | 0 <= i < |name|
      ensures IsTokenChar(c[i]) && LowerChar(c[i]) == LowerChar(name[i])
    {
      CaseOfChar(name[i], name[i]);
    }
    assert ToLower(c) == ToLower(name);
    SameField(c, name);
  }

  /* Comma-separated lists. */

  function TrimAll(parts: seq<string>): seq<string> {
    if parts == [] then []
    else TrimAll(parts[..|parts| - 1]) + [TrimSpace(parts[|parts| - 1])]
  }

  /** The members of a list that is spread over field lines. */
  function Items(lines: seq<string>): seq<string> {
    if lines == [] then []
    else Items(lines[..|lines| - 1]) + TrimAll(Split(lines[|lines| - 1], ","))
  }

  function ListHeader(h: Header, name: string): seq<string> {
    Items(Values(h, name))
  }

  lemma TrimAllStep(parts: seq<string>, j: nat)
    requires j < |parts|
    ensures TrimAll(parts[..j + 1]) == TrimAll(parts[..j]) + [TrimSpace(parts[j])]
  {
    assert parts[..j + 1][..j] == parts[..j];
  }

  lemma ItemsStep(lines: seq<string>, i: nat)
    requires i < |lines|
    ensures Items(lines[..i + 1]) == Items(lines[..i]) + TrimAll(Split(lines[i], ","))
  {
    assert lines[..i + 1][..i] == lines[..i];
  }

  method GetListHeader(h: Header, name: string) returns (list: seq<string>)
    ensures list == ListHeader(h, name)
  {
    hide TrimSpace, Split, CanonicalName;
    list := [];
    var lines := Values(h, name);
    for i := 0 to |lines|
      invariant list == Items(lines[..i])
    {
      ItemsStep(lines, i);
      var items := Split(lines[i], ",");
      ghost var before := list;
      for j := 0 to |items|
        invariant list == before + TrimAll(items[..j])
      {
        TrimAllStep(items, j);
        list := list + [TrimSpace(items[j])];
      }
      assert items[..|items|] == items;
    }
    assert lines[..|lines|] == lines;
  }

  lemma TrimAllOne(part: string)
    ensures TrimAll([part]) == [TrimSpace(part)]
  {
    assert [part][..0] == [];
  }

  lemma {:induction false} TrimAllAppend(a: seq<string>, b: seq<string>)
    ensures TrimAll(a + b) == TrimAll(a) + TrimAll(b)
  {
    hide TrimSpace;
    if b == [] {
      assert a + b == a;
    } else {
      var n := |b| - 1;
      assert (a + b)[..|a + b| - 1] == a + b[..n];
      TrimAllAppend(a, b[..n]);
    }
  }

  lemma SpacesHaveNoComma(pad: string)
    requires Only(pad, SPACES)
    ensures ',' !in pad
  {}

  /** Blanks around a list line change no member. */
  lemma {:induction false} BlanksAroundLine(left: string, line: string, right: string)
    requires Only(left, SPACES) && Only(right, SPACES)
    ensures TrimAll(Split(left + line + right, ",")) == TrimAll(Split(line, ","))
    decreases |line|
  {
    hide OccursAt, Index, Split, Trim, TrimAll, SPACES;
    SpacesHaveNoComma(left);
    SpacesHaveNoComma(right);
    CleanChar(line, ',');
    var i := Index(line, ",");
    assert Contains(line, ",") <==> i >= 0;
    if i < 0 {
      SplitNone(line, ',');
      SplitNone(left + line + right, ',');
      TrimIgnoresPadding(left, line, right, SPACES);
      TrimAllOne(line);
      TrimAllOne(left + line + right);
    } else {
      var head, tail := line[..i], line[i + 1..];
      SplitAround(left, line, i, right);
      assert "" + tail + right == tail + right;
      BlanksAroundLine("", tail, right);
      assert left + head + "" == left + head;
      TrimIgnoresPadding(left, head, "", SPACES);
      TrimAllOne(head);
      TrimAllOne(left + head);
      TrimAllAppend([head], Split(tail, ","));
      TrimAllAppend([left + head], Split(tail + right, ","));
    }
  }

  lemma SplitAround(left: string, line: string, i: nat, right: string)
    requires ',' !in left && i == Index(line, ",")
    ensures i < |line|
    ensures Split(line, ",") == [line[..i]] + Split(line[i + 1..], ",")
    ensures Split(left + line + right, ",") == [left + line[..i]] + Split(line[i + 1..] + right, ",")
  {
    hide IndexFrom;
    var head, tail := line[..i], line[i + 1..];
    assert line[i..i + 1] == ",";
    forall k | 0 <= k < i ensures head[k] != ',' {
      assert !OccursAt(line, ",", k) && line[k..k + 1] == [line[k]];
    }
    CleanChar(left + head, ',');
    assert left + line + right == (left + head) + "," + (tail + right);
    SplitFirst(left + head, ",", tail + right);
  }

  /** How a recipient may join two field lines of one list: a comma with blanks around it. */
  datatype Comma = Comma(left: string, right: string)

  function Combined(lines: seq<string>, commas: seq<Comma>): string
    requires |lines| == |commas| + 1
  {
    if commas == [] then lines[0]
    else
      var n := |commas|;
      Combined(lines[..n], commas[..n - 1]) + commas[n - 1].left + "," + commas[n - 1].right + lines[n]
  }

  /**
   Section 5.3 of RFC 9110: combining the lines of a list field, with any blanks around the
   commas, leaves its members as they were.
   */
  lemma {:induction false} CombiningKeepsList(lines: seq<string>, commas: seq<Comma>)
    requires |lines| == |commas| + 1
    requires forall c :: c in commas ==> Only(c.left, SPACES) && Only(c.right, SPACES)
    ensures Items([Combined(lines, commas)]) == Items(lines)
    decreases |lines|
  {
    var whole := Combined(lines, commas);
    ItemsOfOne(whole);
    if commas == [] {
      assert lines == [whole];
    } else {
      var n := |commas|;
      var c := commas[n - 1];
      assert c in commas;
      var init := Combined(lines[..n], commas[..n - 1]);
      CombiningKeepsList(lines[..n], commas[..n - 1]);
      ItemsOfOne(init);
      CombineTwo(init, c, lines[n]);
    }
  }

  /** Optional whitespace (section 5.6.3 of RFC 9110) around the members of a list is dropped, and nothing else. */
  lemma MembersWithoutWhitespace(left: string, member: string, right: string)
    requires forall c :: c in left + right ==> c == ' ' || c == '\t'
    requires member != "" && ',' !in member
    requires '!' <= member[0] <= '~' && '!' <= member[|member| - 1] <= '~'
    ensures Items([left + member + right]) == [member]
  {
    hide Index, Split, Trim, SPACES, Items, TrimAll;
    BlanksAreSpaces(left, left + right);
    BlanksAreSpaces(right, left + right);
    VisibleIsNoSpace(member[0]);
    VisibleIsNoSpace(member[|member| - 1]);
    TrimPadded(left, member, right, SPACES);
    SpacesHaveNoComma(left);
    SpacesHaveNoComma(right);
    OneMember(left + member + right, member);
  }

  lemma OneMember(line: string, member: string)
    requires ',' !in line && TrimSpace(line) == member
    ensures Items([line]) == [member]
  {
    hide Index, Split, TrimSpace;
    SplitNone(line, ',');
    ItemsOfOne(line);
    TrimAllOne(line);
  }

  lemma BlanksAreSpaces(part: string, s: string)
    requires forall c :: c in s ==> c == ' ' || c == '\t'
    requires forall c :: c in part ==> c in s
    ensures Only(part, SPACES)
  {
    forall i | 0 <= i < |part| ensures part[i] in SPACES { assert part[i] in part; }
  }

  lemma VisibleIsNoSpace(c: char)
    requires '!' <= c <= '~'
    ensures c !in SPACES
  {}

  lemma ItemsOfOne(line: string)
    ensures Items([line]) == TrimAll(Split(line, ","))
  {
    assert [line][..0] == [];
  }

  lemma CombineTwo(a: string, c: Comma, b: string)
    requires Only(c.left, SPACES) && Only(c.right, SPACES)
    ensures TrimAll(Split(a + c.left + "," + c.right + b, ",")) == TrimAll(Split(a, ",")) + TrimAll(Split(b, ","))
  {
    assert a + c.left + "," + c.right + b == (a + c.left) + "," + (c.right + b);
    SplitAppend(a + c.left, ",", c.right + b);
    assert "" + a + c.left == a + c.left && c.right + b + "" == c.right + b;
    BlanksAroundLine("", a, c.left);
    BlanksAroundLine(c.right, b, "");
    TrimAllAppend(Split(a + c.left, ","), Split(c.right + b, ","));
  }
}
