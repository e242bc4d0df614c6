/**
 The stored form of a response: the recorder prints a status line, the header and the body; the
 reader is net/http's `ReadResponse`.
 */
module Wire {
  import opened Text
  import opened Http

  /* Header fields are written in the order of their names. */

  predicate Less(a: string, b: string) {
    b != "" && (a == "" || a[0] < b[0] || (a[0] == b[0] && Less(a[1..], b[1..])))
  }

  predicate IsLeast(k: string, ks: set<string>) {
    forall other :: other in ks && other != k ==> Less(k, other)
  }

  lemma {:induction false} LessIsTotal(a: string, b: string)
    ensures a != b ==> Less(a, b) || Less(b, a)
    ensures !(Less(a, b) && Less(b, a))
  {
    if a != "" && b != "" && a[0] == b[0] {
      LessIsTotal(a[1..], b[1..]);
      assert a == [a[0]] + a[1..] && b == [b[0]] + b[1..];
    }
  }

  lemma {:induction false} LessIsTransitive(a: string, b: string, c: string)
    requires Less(a, b) && Less(b, c)
    ensures Less(a, c)
  {
    if a != "" && a[0] == b[0] == c[0] {
      LessIsTransitive(a[1..], b[1..], c[1..]);
    }
  }

  lemma {:induction false} LeastExists(ks: set<string>)
    requires ks != {}
    ensures exists k :: k in ks && IsLeast(k, ks)
    decreases ks
  {
    var x :| x in ks;
    if ks == {x} {
      assert IsLeast(x, ks);
    } else {
      LeastExists(ks - {x});
      var y :| y in ks - {x} && IsLeast(y, ks - {x});
      LessIsTotal(x, y);
      if Less(x, y) {
        forall other | other in ks && other != x ensures Less(x, other) {
          if other != y { LessIsTransitive(x, y, other); }
        }
        assert IsLeast(x, ks);
      } else {
        assert IsLeast(y, ks);
      }
    }
  }

  function Least(ks: set<string>): (k: string)
    requires ks != {}
    ensures k in ks && IsLeast(k, ks)
  {
    LeastExists(ks);
    assert forall a, b :: IsLeast(a, ks) && IsLeast(b, ks) && a in ks && b in ks ==> a == b by {
      forall a, b | IsLeast(a, ks) && IsLeast(b, ks) && a in ks && b in ks ensures a == b {
        LessIsTotal(a, b);
      }
    }
    var k :| k in ks && IsLeast(k, ks);
    k
  }

  function SortedKeys(ks: set<string>): (order: seq<string>)
    ensures forall k :: k in order <==> k in ks
    ensures forall i, j :: 0 <= i < j < |order| ==> order[i] != order[j]
  {
    if ks == {} then [] else var k := Least(ks); [k] + SortedKeys(ks - {k})
  }

  /* Printing. */

  function KeyFields(k: string, values: seq<string>): seq<Field> {
    if values == [] then [] else [Field(k, values[0])] + KeyFields(k, values[1..])
  }

  function FieldList(order: seq<string>, h: Header): seq<Field>
    requires forall k :: k in order ==> k in h
  {
    if order == [] then [] else KeyFields(order[0], h[order[0]]) + FieldList(order[1..], h)
  }

  /** `Header.Write` turns line breaks into spaces and trims. */
  function PrintedValue(v: string): string {
    Trim(seq(|v|, i requires 0 <= i < |v| => if v[i] == '\n' || v[i] == '\r' then ' ' else v[i]), BLANKS)
  }

  function PrintFields(fields: seq<Field>): string {
    if fields == [] then ""
    else fields[0].name + ": " + PrintedValue(fields[0].value) + "\r\n" + PrintFields(fields[1..])
  }

  function HeaderBlock(h: Header): string {
    PrintFields(FieldList(SortedKeys(h.Keys), h))
  }

  /** Reason phrases of the codes the cache itself mentions; a reader discards the phrase. */
  function StatusText(status: int): string {
    match status
    case 200 => "OK"
    case 206 => "Partial Content"
    case 301 => "Moved Permanently"
    case 302 => "Found"
    case 303 => "See Other"
    case 304 => "Not Modified"
    case 307 => "Temporary Redirect"
    case 308 => "Permanent Redirect"
    case _ => ""
  }

  function StatusLine(status: int): string {
    "HTTP/1.1 " + FormatInt(status) + " " + StatusText(status) + "\n"
  }

  /** The head of a recorded response: what is written before the body. */
  function Head(status: int, h: Header): string {
    StatusLine(status) + HeaderBlock(h) + "\n"
  }

  /* Reading. */

  datatype Read = Ok(response: Response) | Err

  datatype HeaderRead = Fields(header: Header, rest: string) | BadHeader

  /** A line without its break: "\n", or "\r\n". */
  function FirstLine(s: string): string {
    var line := Before(s, "\n");
    if line != "" && line[|line| - 1] == '\r' then line[..|line| - 1] else line
  }

  function ReadHeader(s: string, h: Header): HeaderRead
    decreases |s|
  {
    if !Contains(s, "\n") then BadHeader
    else
      var line, rest := FirstLine(s), After(s, "\n");
      if line == "" then Fields(h, rest)
      else if !Contains(line, ":") || !IsToken(Before(line, ":")) then BadHeader
      else ReadHeader(rest, Add(h, Before(line, ":"), Trim(After(line, ":"), BLANKS)))
  }

  function ReadStatus(line: string): Option<int> {
    var version, rest := Before(line, " "), TrimLeft(After(line, " "), {' '});
    var code := Before(rest, " ");
    if !Contains(line, " ") || (version != "HTTP/1.1" && version != "HTTP/1.0") then None
    else if |code| != 3 || !AllDigits(code) then None
    else Some(DecimalValue(code))
  }

  /** Replies that carry no body whatever their fields say. */
  predicate NoBody(verb: string, status: int) {
    verb == "HEAD" || 100 <= status < 200 || status == 204 || status == 304
  }

  /** net/http adds `Cache-Control: no-cache` to a response that has only the old Pragma. */
  function FixPragma(h: Header): Header {
    if "Pragma" in h && |h["Pragma"]| > 0 && h["Pragma"][0] == "no-cache" && "Cache-Control" !in h
    then h["Cache-Control" := ["no-cache"]] else h
  }

  function ReadBody(verb: string, status: int, h: Header, rest: string): Option<string> {
    if NoBody(verb, status) then Some("")
    else if "Transfer-Encoding" in h then None
    else if "Content-Length" !in h || h["Content-Length"] == [] then Some(rest)
    else
      var lengths := h["Content-Length"];
      var n := ParseUint64(lengths[0]);
      if (exists i :: 0 <= i < |lengths| && lengths[i] != lengths[0]) || n.None? then None
      else Some(if n.value <= |rest| then rest[..n.value] else rest)
  }

  function ReadResponse(bytes: string, verb: string): Read {
    if !Contains(bytes, "\n") then Err
    else
      var status := ReadStatus(FirstLine(bytes));
      if status.None? then Err
      else
        var fields := ReadHeader(After(bytes, "\n"), map[]);
        if fields.BadHeader? then Err
        else
          var h := FixPragma(fields.header);
          var body := ReadBody(verb, status.value, h, fields.rest);
          if body.None? then Err else Ok(Response(status.value, h, body.value))
  }

  /* The header survives. */

  lemma {:induction false} AddAllAppend(h: Header, a: seq<Field>, b: seq<Field>)
    ensures AddAll(h, a + b) == AddAll(AddAll(h, a), b)
    decreases |a|
  {
    hide CanonicalName, Add;
    if a == [] {
      assert a + b == b;
    } else {
      assert (a + b)[1..] == a[1..] + b;
      AddAllAppend(Add(h, a[0].name, a[0].value), a[1..], b);
    }
  }

  lemma {:induction false} AddKeyFields(h: Header, k: string, values: seq<string>)
    requires CanonicalName(k) == k && values != []
    ensures AddAll(h, KeyFields(k, values)) == h[k := Values(h, k) + values]
    decreases |values|
  {
    hide CanonicalName, Values, Add;
    var v, rest := values[0], values[1..];
    var g := Add(h, k, v);
    AddAtKey(h, k, v);
    assert values == [v] + rest;
    assert KeyFields(k, values)[1..] == KeyFields(k, rest);
    assert Values(g, k) + rest == Values(h, k) + values;
    if rest == [] {
      assert values == [v] && KeyFields(k, rest) == [];
      NothingAdded(g);
    } else {
      AddKeyFields(g, k, rest);
    }
  }

  lemma AddAtKey(h: Header, k: string, v: string)
    requires CanonicalName(k) == k
    ensures Values(Add(h, k, v), k) == Values(h, k) + [v]
    ensures Add(h, k, v) == h[k := Values(h, k) + [v]]
  {
    hide CanonicalName;
  }

  lemma {:induction false} AddFieldList(acc: Header, order: seq<string>, h: Header)
    requires WellFormed(h)
    requires forall k :: k in order ==> k in h && k !in acc
    requires forall i, j :: 0 <= i < j < |order| ==> order[i] != order[j]
    ensures AddAll(acc, FieldList(order, h)) == acc + map k | k in order :: h[k]
    decreases |order|
  {
    hide CanonicalName, WellFormed, AddAll, KeyFields, Values, IsToken, IsFieldValue;
    if order != [] {
      var k := order[0];
      assert k in h;
      var next := acc[k := h[k]];
      AddOneKey(acc, k, FieldList(order[1..], h), h);
      forall x | x in order[1..] ensures x in h && x !in next {
        assert x in order && x != k;
      }
      AddFieldList(next, order[1..], h);
      MapByOrder(acc, order, h);
    } else {
      NothingAdded(acc);
    }
  }

  lemma MapByOrder(acc: Header, order: seq<string>, h: Header)
    requires order != [] && forall k :: k in order ==> k in h
    ensures acc[order[0] := h[order[0]]] + (map k | k in order[1..] :: h[k]) == acc + map k | k in order :: h[k]
  {
    assert forall x :: x in order <==> x == order[0] || x in order[1..];
  }

  lemma NothingAdded(acc: Header)
    ensures AddAll(acc, []) == acc
  {}

  lemma AddOneKey(acc: Header, k: string, rest: seq<Field>, h: Header)
    requires WellFormed(h) && k in h && k !in acc
    ensures AddAll(acc, KeyFields(k, h[k]) + rest) == AddAll(acc[k := h[k]], rest)
  {
    hide CanonicalName, AddAll, KeyFields;
    AddAllAppend(acc, KeyFields(k, h[k]), rest);
    AddKeyFields(acc, k, h[k]);
    assert [] + h[k] == h[k];
  }

  lemma FieldsRebuildHeader(h: Header)
    requires WellFormed(h)
    ensures AddAll(map[], FieldList(SortedKeys(h.Keys), h)) == h
  {
    hide WellFormed, AddAll, FieldList;
    var order := SortedKeys(h.Keys);
    AddFieldList(map[], order, h);
    assert map[] + (map k | k in order :: h[k]) == h;
  }

  /** Fields that come back from the reader as they were printed. */
  ghost predicate GoodFields(fields: seq<Field>) {
    forall f :: f in fields ==> IsToken(f.name) && IsFieldValue(f.value)
  }

  lemma {:induction false} FieldListIsGood(order: seq<string>, h: Header)
    requires WellFormed(h) && forall k :: k in order ==> k in h
    ensures GoodFields(FieldList(order, h))
  {
    hide CanonicalName, IsFieldValue, IsToken;
    if order != [] {
      KeyFieldsIn(order[0], h[order[0]]);
      assert order[0] in h;
      FieldListIsGood(order[1..], h);
    }
  }

  lemma {:induction false} KeyFieldsIn(k: string, values: seq<string>)
    ensures forall f :: f in KeyFields(k, values) ==> f.name == k && f.value in values
  {
    if values != [] { KeyFieldsIn(k, values[1..]); }
  }

  lemma PrintedValueIsValue(v: string)
    requires IsFieldValue(v)
    ensures PrintedValue(v) == v
  {
    var cleaned := seq(|v|, i requires 0 <= i < |v| => if v[i] == '\n' || v[i] == '\r' then ' ' else v[i]);
    assert cleaned == v;
    assert "" + v + "" == v;
    TrimPadded("", v, "", BLANKS);
  }

  lemma ReadFieldLine(f: Field, rest: string, h: Header)
    requires IsToken(f.name) && IsFieldValue(f.value)
    ensures ReadHeader(f.name + ": " + f.value + "\r\n" + rest, h) == ReadHeader(rest, Add(h, f.name, f.value))
  {
    hide CanonicalName, Index, Trim, Add, IsToken;
    TokenCharacters(f.name);
    var line := f.name + ": " + f.value;
    var s := f.name + ": " + f.value + "\r\n" + rest;
    assert s == (line + "\r") + "\n" + rest;
    CutAt(line + "\r", '\n', rest);
    assert (line + "\r")[..|line|] == line;
    assert FirstLine(s) == line;
    assert line == f.name + ":" + (" " + f.value);
    CutAt(f.name, ':', " " + f.value);
    TrimOneSpace(f.value);
  }

  lemma TokenCharacters(s: string)
    requires IsToken(s)
    ensures s != "" && ':' !in s && '\n' !in s && '\r' !in s
  {}

  lemma TrimOneSpace(v: string)
    requires Trimmed(v, BLANKS)
    ensures Trim(" " + v, BLANKS) == v
  {
    assert " " + v + "" == " " + v;
    TrimPadded(" ", v, "", BLANKS);
  }

  lemma ReadBlankLine(body: string, h: Header)
    ensures ReadHeader("\n" + body, h) == Fields(h, body)
  {
    assert "" + "\n" + body == "\n" + body;
    CutAt("", '\n', body);
  }

  lemma {:induction false} ReadPrintedFields(fields: seq<Field>, h: Header, body: string)
    requires GoodFields(fields)
    ensures ReadHeader(PrintFields(fields) + "\n" + body, h) == Fields(AddAll(h, fields), body)
    decreases |fields|
  {
    hide CanonicalName, ReadHeader, Add, PrintedValue, IsToken, IsFieldValue;
    if fields == [] {
      assert "" + "\n" + body == "\n" + body;
      ReadBlankLine(body, h);
    } else {
      var f := fields[0];
      assert f in fields;
      PrintedValueIsValue(f.value);
      var rest := PrintFields(fields[1..]) + "\n" + body;
      Regroup(f.name + ": " + f.value + "\r\n", PrintFields(fields[1..]), body);
      ReadFieldLine(f, rest, h);
      ReadPrintedFields(fields[1..], Add(h, f.name, f.value), body);
    }
  }

  lemma Regroup(a: string, b: string, c: string)
    ensures a + b + "\n" + c == a + (b + "\n" + c)
  {}

  /* The status line survives. */

  lemma ThreeDigits(n: nat)
    requires 100 <= n <= 999
    ensures |Decimal(n)| == 3
  {
    assert Decimal(n) == Decimal(n / 10) + [DigitChar(n % 10)];
    assert Decimal(n / 10) == Decimal(n / 10 / 10) + [DigitChar(n / 10 % 10)];
    assert |Decimal(n / 10 / 10)| == 1;
  }

  lemma ReadPrintedStatus(status: int)
    requires 100 <= status <= 999
    ensures ReadStatus("HTTP/1.1 " + FormatInt(status) + " " + StatusText(status)) == Some(status)
  {
    hide StatusText, Decimal, ReadStatus;
    ThreeDigits(status);
    DecimalRoundTrip(status);
    var code, text := Decimal(status), StatusText(status);
    StatusParts(code, text);
    assert "HTTP/1.1 " + code + " " + text == "HTTP/1.1" + [' '] + (code + [' '] + text);
  }

  lemma StatusParts(code: string, text: string)
    requires |code| == 3 && AllDigits(code)
    ensures ReadStatus("HTTP/1.1" + [' '] + (code + [' '] + text)) == Some(DecimalValue(code))
  {
    hide Index, DecimalValue, TrimLeft;
    CutAt("HTTP/1.1", ' ', code + [' '] + text);
    DigitsHaveNoSpace(code);
    NothingToTrim(code + [' '] + text);
    CutAt(code, ' ', text);
  }

  lemma DigitsHaveNoSpace(code: string)
    requires AllDigits(code)
    ensures ' ' !in code
  {}

  lemma NothingToTrim(s: string)
    requires s != "" && s[0] != ' '
    ensures TrimLeft(s, {' '}) == s
  {}

  ghost predicate Unbroken(s: string) { '\n' !in s && '\r' !in s }

  lemma ShortPhrasesArePlain()
    ensures Unbroken("OK") && Unbroken("Found") && Unbroken("See Other") && Unbroken("")
  {}

  lemma NotModifiedIsPlain()
    ensures Unbroken("Not Modified") && Unbroken("Partial Content")
  {}

  lemma MovedIsPlain()
    ensures Unbroken("Moved Permanently")
  {}

  lemma TemporaryIsPlain()
    ensures Unbroken("Temporary Redirect")
  {}

  lemma PermanentIsPlain()
    ensures Unbroken("Permanent Redirect")
  {}

  lemma StatusTextIsPlain(status: int)
    ensures Unbroken(StatusText(status))
  {
    hide Unbroken;
    ShortPhrasesArePlain();
    NotModifiedIsPlain();
    MovedIsPlain();
    TemporaryIsPlain();
    PermanentIsPlain();
  }

  lemma DigitsArePlain(s: string)
    requires AllDigits(s)
    ensures '\n' !in s && '\r' !in s
  {}

  lemma ReadFirstLine(status: int, rest: string)
    requires 100 <= status <= 999
    ensures var s := StatusLine(status) + rest;
      Contains(s, "\n") && ReadStatus(FirstLine(s)) == Some(status) && After(s, "\n") == rest
  {
    hide StatusText, Index, ReadStatus;
    var line := "HTTP/1.1 " + FormatInt(status) + " " + StatusText(status);
    StatusTextIsPlain(status);
    DigitsArePlain(Decimal(status));
    assert '\n' !in line && '\r' !in line;
    assert StatusLine(status) + rest == line + "\n" + rest;
    CutAt(line, '\n', rest);
    ReadPrintedStatus(status);
  }

  /* The whole message survives. */

  /** Content-Length, if there is one, gives the length of the body; a bodiless reply has none. */
  predicate LengthIsRight(verb: string, status: int, h: Header, body: string) {
    if NoBody(verb, status) then body == ""
    else "Content-Length" in h ==> h["Content-Length"] == [Decimal(|body|)]
  }

  predicate Replayable(verb: string, status: int, h: Header, body: string) {
    && 100 <= status <= 999
    && WellFormed(h)
    && "Transfer-Encoding" !in h
    && |body| < 0x1_0000_0000_0000_0000
    && LengthIsRight(verb, status, h, body)
  }

  /** Any status of three digits and any fields and body will do, if there is no length, or the right one. */
  lemma RepliesAreFree(verb: string, status: int, h: Header, body: string)
    requires 100 <= status <= 999 && "Transfer-Encoding" !in h && |body| < 0x1_0000_0000_0000_0000
    requires forall k :: k in h ==>
      IsToken(k) && CanonicalName(k) == k && h[k] != [] &&
      forall v :: v in h[k] ==> '\n' !in v && '\r' !in v && Trimmed(v, {' ', '\t'})
    requires "Content-Length" !in h || h["Content-Length"] == [Decimal(|body|)]
    requires verb == "HEAD" || 100 <= status <= 199 || status == 204 || status == 304 ==> body == ""
    ensures Replayable(verb, status, h, body)
  {
    hide CanonicalName, IsToken;
  }

  /** Reading a recorded response back gives its status, its header and its body. */
  lemma ReplayIsFaithful(verb: string, status: int, h: Header, body: string)
    requires Replayable(verb, status, h, body)
    ensures ReadResponse(Head(status, h) + body, verb) == Ok(Response(status, FixPragma(h), body))
  {
    hide StatusLine, ReadStatus, ReadHeader, AddAll, FieldList, PrintFields, WellFormed, FirstLine, Contains, After;
    var order := SortedKeys(h.Keys);
    var fields := FieldList(order, h);
    FieldListIsGood(order, h);
    var tail := PrintFields(fields) + "\n" + body;
    assert Head(status, h) + body == StatusLine(status) + tail;
    ReadFirstLine(status, tail);
    ReadPrintedFields(fields, map[], body);
    FieldsRebuildHeader(h);
    ReadRecordedBody(verb, status, h, body);
  }

  /** Replies to HEAD and replies with these statuses have no body, whatever their fields say. */
  lemma BodilessReplies(verb: string, status: int, h: Header, rest: string)
    requires verb == "HEAD" || 100 <= status <= 199 || status == 204 || status == 304
    ensures ReadBody(verb, status, h, rest) == Some("")
  {}

  /** Without a length the body goes on to the end. */
  lemma BodyToTheEnd(verb: string, status: int, h: Header, rest: string)
    requires verb != "HEAD" && !(100 <= status <= 199) && status != 204 && status != 304
    requires "Transfer-Encoding" !in h && "Content-Length" !in h
    ensures ReadBody(verb, status, h, rest) == Some(rest)
  {}

  /** The only field a reader adds: `Cache-Control: no-cache`, to a response that has the old Pragma alone. */
  lemma PragmaIsNoCache(h: Header, name: string)
    requires WellFormed(h) && CanonicalName(name) == name
    ensures Values(FixPragma(h), name) ==
            if name == "Cache-Control" && Get(h, "Pragma") == "no-cache" && FieldAbsent(h, "Cache-Control")
            then ["no-cache"] else Values(h, name)
  {
    hide CanonicalName, IsToken, IsFieldValue;
    PragmaIsCanonical();
    ControlIsCanonical();
  }

  lemma PragmaIsCanonical()
    ensures CanonicalName("Pragma") == "Pragma"
  {
    assert IsToken("Pragma");
  }

  lemma ControlIsCanonical()
    ensures CanonicalName("Cache-Control") == "Cache-Control"
  {
    assert IsToken("Cache-Control");
  }

  lemma ReadRecordedBody(verb: string, status: int, h: Header, body: string)
    requires Replayable(verb, status, h, body)
    ensures ReadBody(verb, status, FixPragma(h), body) == Some(body)
  {
    var g := FixPragma(h);
    if !NoBody(verb, status) && "Content-Length" in g {
      ParseUintDecimal(|body|);
      assert body[..|body|] == body;
    }
  }
}
