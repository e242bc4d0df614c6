/**
 The serialized form of a timed response: the request and the response, each as net/http writes
 it, around a delimiter, with two bookkeeping fields for the times.
 */
module Serializer {
  import opened Text
  import opened Http
  import opened Freshness

  const DELIM := "\r\n\r\n----\r\n\r\n"
  const RESPONSE_TIME := "Acache-Response-Time"
  const REQUEST_TIME := "Acache-Request-Time"

  /** net/http's writer and reader of responses. */
  datatype Codec = Codec(write: Response -> string, read: string -> Option<Response>)

  datatype Timed = Timed(response: Response, requestTime: int, responseTime: int)

  datatype Loaded = Ok(timed: Timed) | Err | Panic

  function Unix(t: int): int { t / SECOND }

  function Stamp(h: Header, responseTime: int, requestTime: int): Header {
    Set(Set(h, RESPONSE_TIME, FormatInt(Unix(responseTime))), REQUEST_TIME, FormatInt(Unix(requestTime)))
  }

  function Unstamp(h: Header): Header { Del(Del(h, RESPONSE_TIME), REQUEST_TIME) }

  function ToBytes(codec: Codec, request: string, t: Timed): string {
    request + DELIM + codec.write(t.response.(header := Stamp(t.response.header, t.responseTime, t.requestTime)))
  }

  function FromBytes(codec: Codec, bytes: string): Loaded {
    var parts := Split(bytes, DELIM);
    if |parts| < 2 then Panic
    else
      var res := codec.read(parts[1]);
      if res.None? then Err
      else
        var h := res.value.header;
        var responseTime, requestTime := ParseInt64(Get(h, RESPONSE_TIME)), ParseInt64(Get(h, REQUEST_TIME));
        if responseTime.None? || requestTime.None? then Err
        else Ok(Timed(res.value.(header := Unstamp(h)), requestTime.value * SECOND, responseTime.value * SECOND))
  }

  /** A response whose header is changed in place while it is written. */
  class Message {
    var status: int
    var header: Header
    var body: string

    constructor (status: int, header: Header, body: string)
      ensures this.status == status && this.header == header && this.body == body
    {
      this.status, this.header, this.body := status, header, body;
    }

    function Value(): Response reads this { Response(status, header, body) }

    method StoredResponseToBytes(codec: Codec, request: string, requestTime: int, responseTime: int)
      returns (bytes: string)
      modifies this`header
      ensures bytes == ToBytes(codec, request, Timed(old(Value()), requestTime, responseTime))
      ensures header == Unstamp(Stamp(old(header), responseTime, requestTime))
    {
      var buffer := request;
      buffer := buffer + DELIM;
      header := Set(header, RESPONSE_TIME, FormatInt(Unix(responseTime)));
      header := Set(header, REQUEST_TIME, FormatInt(Unix(requestTime)));
      var written := codec.write(Value());
      header := Del(header, RESPONSE_TIME);
      header := Del(header, REQUEST_TIME);
      bytes := buffer + written;
    }
  }

  predicate EndsWith(s: string, tail: string) {
    |tail| <= |s| && s[|s| - |tail|..] == tail
  }

  /** The delimiter overlaps itself in two ways. */
  lemma Borders(j: nat)
    requires 0 < j < |DELIM|
    ensures DELIM[j..] == DELIM[..|DELIM| - j] <==> j == 8 || j == 10
  {
    var d := DELIM;
    var a, b := d[j..], d[..|d| - j];
    assert a[0] == d[j] && b[0] == '\r';
    if j == 2 { assert a[2] == '-' && b[2] == '\r'; }
    if j == 8 { assert a == b; }
    if j == 10 { assert a == b; }
  }

  lemma OccursAtEnd(a: string, j: nat)
    requires (j == 8 || j == 10) && EndsWith(a, DELIM[..j])
    ensures OccursAt(a + DELIM, DELIM, |a| - j)
  {
    var d := DELIM;
    Borders(j);
    var i := |a| - j;
    assert (a + d)[i..i + |d|] == a[i..] + d[..|d| - j];
    assert d == d[..j] + d[j..];
  }

  /** Which request parts leave the delimiter where it was put. */
  lemma CleanIff(a: string)
    ensures Clean(a, DELIM) <==>
      !Contains(a, DELIM) && !EndsWith(a, "\r\n\r\n----") && !EndsWith(a, "\r\n\r\n----\r\n")
  {
    hide Index, OccursAt;
    var d := DELIM;
    assert d[..8] == "\r\n\r\n----" && d[..10] == "\r\n\r\n----\r\n";
    if EndsWith(a, d[..8]) { OccursAtEnd(a, 8); }
    if EndsWith(a, d[..10]) { OccursAtEnd(a, 10); }
    if Contains(a, d) { ContainedStays(a, Index(a, d)); }
    if !Contains(a, d) && !EndsWith(a, d[..8]) && !EndsWith(a, d[..10]) {
      forall i | 0 <= i < |a| ensures !OccursAt(a + d, d, i) {
        NotAt(a, i);
      }
    }
  }

  lemma ContainedStays(a: string, i: nat)
    requires OccursAt(a, DELIM, i)
    ensures i < |a| && OccursAt(a + DELIM, DELIM, i)
  {
    assert (a + DELIM)[i..i + |DELIM|] == a[i..i + |DELIM|];
  }

  lemma NotAt(a: string, i: nat)
    requires i < |a| && !OccursAt(a, DELIM, i)
    requires !EndsWith(a, DELIM[..8]) && !EndsWith(a, DELIM[..10])
    ensures !OccursAt(a + DELIM, DELIM, i)
  {
    var d := DELIM;
    assert i + |d| <= |a| ==> (a + d)[i..i + |d|] == a[i..i + |d|];
    if OccursAt(a + d, d, i) {
      Straddle(a, d, i);
      Borders(|a| - i);
    }
  }

  /** Splitting recovers the two parts exactly when neither hides nor completes a delimiter. */
  lemma SplitRecoversIff(request: string, response: string)
    ensures Split(request + DELIM + response, DELIM) == [request, response] <==>
      && !Contains(request, DELIM)
      && !EndsWith(request, "\r\n\r\n----") && !EndsWith(request, "\r\n\r\n----\r\n")
      && !Contains(response, DELIM)
  {
    hide OccursAt, IndexFrom, EndsWith;
    CleanIff(request);
    var s := request + DELIM + response;
    if Clean(request, DELIM) {
      SplitFirst(request, DELIM, response);
      assert [request] + Split(response, DELIM) == [request, response] <==> Split(response, DELIM) == [response];
      SplitOne(response);
    } else if Split(s, DELIM) == [request, response] {
      FirstPart(request, response);
    }
  }

  lemma SplitOne(s: string)
    ensures Split(s, DELIM) == [s] <==> !Contains(s, DELIM)
  {
    hide OccursAt, IndexFrom;
    if Contains(s, DELIM) {
      assert |Split(s[Index(s, DELIM) + |DELIM|..], DELIM)| >= 1;
    }
  }

  lemma FirstPart(request: string, response: string)
    requires Split(request + DELIM + response, DELIM)[0] == request
    ensures Clean(request, DELIM)
  {
    hide IndexFrom;
    var s := request + DELIM + response;
    var n := |request|;
    assert s[n..n + |DELIM|] == DELIM;
    assert OccursAt(s, DELIM, n);
    assert Index(s, DELIM) == n by {
      assert Index(s, DELIM) >= 0;
      assert s[..Index(s, DELIM)] == request;
    }
    forall i | 0 <= i < n ensures !OccursAt(request + DELIM, DELIM, i) {
      assert !OccursAt(s, DELIM, i);
      assert s[..n + |DELIM|] == request + DELIM;
      assert s[i..i + |DELIM|] == (request + DELIM)[i..i + |DELIM|];
    }
  }

  /** A POST as `Request.Write` prints it, whose body of eight bytes begins the delimiter. */
  const REQUEST_LINES := "POST / HTTP/1.1\r\nHost: h\r\n"
  const AGENT_LINE := "User-Agent: a\r\n"
  const LENGTH_LINE := "Content-Length: 8\r\n\r\n"
  const DASHES := "\r\n\r\n----"
  const POSTED := REQUEST_LINES + (AGENT_LINE + (LENGTH_LINE + DASHES))

  predicate FourDashesAt(s: string, i: nat) {
    i + 4 <= |s| && s[i] == '-' && s[i + 1] == '-' && s[i + 2] == '-' && s[i + 3] == '-'
  }

  /** No four dashes before the end. */
  ghost predicate DashesOnlyLast(s: string) {
    forall i: nat :: FourDashesAt(s, i) ==> i + 4 == |s|
  }

  ghost predicate SingleDashes(line: string) {
    && line != "" && line[|line| - 1] != '-'
    && forall i :: 0 <= i < |line| - 1 ==> line[i] != '-' || line[i + 1] != '-'
  }

  lemma NotInLine(line: string, s: string, i: nat)
    requires SingleDashes(line) && i < |line|
    ensures !FourDashesAt(line + s, i)
  {
    var t := line + s;
    assert t[i] == line[i];
    assert i + 1 < |line| ==> t[i + 1] == line[i + 1];
  }

  lemma BehindLine(line: string, s: string, i: nat)
    ensures FourDashesAt(line + s, |line| + i) <==> FourDashesAt(s, i)
  {}

  lemma DashesStayLast(line: string, s: string)
    requires DashesOnlyLast(s) && SingleDashes(line)
    ensures DashesOnlyLast(line + s)
  {
    hide FourDashesAt, SingleDashes;
    forall i: nat | FourDashesAt(line + s, i) ensures i + 4 == |line + s| {
      if i < |line| { NotInLine(line, s, i); } else { BehindLine(line, s, i - |line|); }
    }
  }

  lemma PostedHasNoDelimiter()
    ensures DashesOnlyLast(POSTED) && EndsWith(POSTED, DASHES)
  {
    hide DashesOnlyLast;
    assert DashesOnlyLast(DASHES) by { LastDashes(); }
    DashesStayLast(LENGTH_LINE, DASHES);
    DashesStayLast(AGENT_LINE, LENGTH_LINE + DASHES);
    DashesStayLast(REQUEST_LINES, AGENT_LINE + (LENGTH_LINE + DASHES));
    assert POSTED == (REQUEST_LINES + (AGENT_LINE + LENGTH_LINE)) + DASHES;
  }

  lemma LastDashes()
    ensures DashesOnlyLast(DASHES)
  {}

  lemma DelimiterHasDashes(s: string, i: int)
    ensures OccursAt(s, DELIM, i) ==> i >= 0 && i + 12 <= |s| && FourDashesAt(s, i + 4)
  {
    if OccursAt(s, DELIM, i) {
      var part := s[i..i + 12];
      assert part[4] == s[i + 4] && part[5] == s[i + 5] && part[6] == s[i + 6] && part[7] == s[i + 7];
    }
  }

  /** A request that ends like the delimiter's beginning breaks the format, though it contains no delimiter. */
  lemma DashesBreakTheFormat(response: string)
    ensures !Contains(POSTED, DELIM) && Split(POSTED + DELIM + response, DELIM) != [POSTED, response]
  {
    hide POSTED, OccursAt, FourDashesAt;
    PostedHasNoDelimiter();
    forall i: int ensures !OccursAt(POSTED, DELIM, i) { DelimiterHasDashes(POSTED, i); }
    IndexIs(POSTED, DELIM, -1);
    SplitRecoversIff(POSTED, response);
  }

  lemma BookkeepingNames()
    ensures CanonicalName(RESPONSE_TIME) != CanonicalName(REQUEST_TIME)
  {
    assert |CanonicalName(RESPONSE_TIME)| == 20 && |CanonicalName(REQUEST_TIME)| == 19;
  }

  /** The two bookkeeping fields, by name. */
  lemma StampedFields(h: Header, responseTime: int, requestTime: int)
    ensures var g := Stamp(h, responseTime, requestTime);
      && Get(g, "Acache-Response-Time") == FormatInt(Unix(responseTime))
      && Get(g, "Acache-Request-Time") == FormatInt(Unix(requestTime))
      && FieldAbsent(Unstamp(g), "Acache-Response-Time") && FieldAbsent(Unstamp(g), "Acache-Request-Time")
  {
    hide CanonicalName;
    BookkeepingNames();
  }

  lemma StampedTimes(h: Header, responseTime: int, requestTime: int)
    ensures var g := Stamp(h, responseTime, requestTime);
      && Get(g, RESPONSE_TIME) == FormatInt(Unix(responseTime))
      && Get(g, REQUEST_TIME) == FormatInt(Unix(requestTime))
      && Unstamp(g) == Unstamp(h)
  {
    hide CanonicalName;
    BookkeepingNames();
  }

  /**
   Round trip: the response comes back with its times in whole seconds and without the bookkeeping
   fields, if the parts are free of delimiters and net/http reads back the response it wrote.
   */
  lemma SerializerRoundTrip(codec: Codec, request: string, t: Timed)
    requires var stamped := t.response.(header := Stamp(t.response.header, t.responseTime, t.requestTime));
      && codec.read(codec.write(stamped)) == Some(stamped)
      && !Contains(codec.write(stamped), DELIM)
    requires !Contains(request, DELIM) && !EndsWith(request, "\r\n\r\n----") && !EndsWith(request, "\r\n\r\n----\r\n")
    requires -0x8000_0000_0000_0000 <= Unix(t.requestTime) < 0x8000_0000_0000_0000
    requires -0x8000_0000_0000_0000 <= Unix(t.responseTime) < 0x8000_0000_0000_0000
    ensures FromBytes(codec, ToBytes(codec, request, t))
         == Ok(Timed(t.response.(header := Unstamp(t.response.header)), Floor(t.requestTime), Floor(t.responseTime)))
  {
    hide CanonicalName, Split, Contains, EndsWith, Stamp, Unstamp, Get, ParseInt64, FormatInt;
    var stamped := t.response.(header := Stamp(t.response.header, t.responseTime, t.requestTime));
    SplitRecoversIff(request, codec.write(stamped));
    StampedTimes(t.response.header, t.responseTime, t.requestTime);
    ParseFormatInt(Unix(t.responseTime));
    ParseFormatInt(Unix(t.requestTime));
  }
}
