/**
 The response recorder: a writer with two sinks, the client and a buffer, where one status code may
 be filtered away from the client.
 */
module Tee {
  import opened Http
  import opened Wire

  /* The client's response writer, as net/http specifies it. */

  /** `status` is 0 until a status is sent; `calls` counts the attempts to send one. */
  datatype Sink = Sink(header: Header, status: int, sent: Header, body: string, calls: nat)

  const FRESH_SINK := Sink(map[], 0, map[], "", 0)

  function SinkWriteHeader(w: Sink, code: int): Sink {
    if w.status == 0 then w.(status := code, sent := w.header, calls := w.calls + 1)
    else w.(calls := w.calls + 1)
  }

  function SinkWrite(w: Sink, bytes: string): Sink {
    var v := if w.status == 0 then SinkWriteHeader(w, 200) else w;
    v.(body := v.body + bytes)
  }

  /** A header as `Add` and `Set` build it. */
  predicate Built(h: Header) { forall k :: k in h ==> CanonicalName(k) == k && h[k] != [] }

  /** Every field line of `src` appended to `dst`. */
  function Merge(dst: Header, src: Header): Header {
    map k | k in dst.Keys + src.Keys ::
      (if k in dst then dst[k] else []) + (if k in src then src[k] else [])
  }

  lemma MergeStep(dst: Header, src: Header, k: string, lines: seq<string>)
    requires k !in src && CanonicalName(k) == k
    ensures var h := Merge(dst, src); h[k := Values(h, k) + lines] == Merge(dst, src[k := lines])
  {
    hide CanonicalName;
    var h, g := Merge(dst, src), Merge(dst, src[k := lines]);
    var v := if k in dst then dst[k] else [];
    assert v + [] == v;
    assert Values(h, k) == v;
    assert (h[k := Values(h, k) + lines]).Keys == g.Keys;
  }

  lemma MergeNothing(dst: Header)
    ensures Merge(dst, map[]) == dst
  {
    assert forall k :: k in dst ==> dst[k] + [] == dst[k];
  }

  class ResponseWriter {
    var header: Header
    var status: int
    var sent: Header
    var body: string
    var calls: nat

    constructor ()
      ensures State() == FRESH_SINK
    {
      header, status, sent, body, calls := map[], 0, map[], "", 0;
    }

    function State(): Sink reads this { Sink(header, status, sent, body, calls) }

    method WriteHeader(code: int)
      modifies this
      ensures State() == SinkWriteHeader(old(State()), code)
    {
      if status == 0 { status, sent := code, header; }
      calls := calls + 1;
    }

    method Write(bytes: string)
      modifies this
      ensures State() == SinkWrite(old(State()), bytes)
    {
      if status == 0 { WriteHeader(200); }
      body := body + bytes;
    }

    method AddField(name: string, value: string)
      modifies this
      ensures State() == old(State()).(header := Add(old(header), name, value))
    {
      header := Add(header, name, value);
    }

    /** `copyHeader`: adds the lines of `src` one by one, field after field in any order. */
    method CopyHeader(src: Header, omit: set<string>)
      requires Built(src)
      modifies this
      ensures State() == old(State()).(header := Merge(old(header), src - omit))
    {
      hide CanonicalName, Merge, AddAll, KeyFields;
      ghost var before, copied: Header := header, map[];
      MergeNothing(header);
      var todo := src.Keys;
      while todo != {}
        invariant todo <= src.Keys
        invariant copied == map k | k in src && k !in todo && k !in omit :: src[k]
        invariant header == Merge(before, copied)
        invariant State() == old(State()).(header := header)
      {
        var k :| k in todo;
        if k !in omit {
          MergeStep(before, copied, k, src[k]);
          AddLines(k, src[k]);
          copied := copied[k := src[k]];
        }
        todo := todo - {k};
      }
      assert copied == src - omit;
    }

    method AddLines(k: string, lines: seq<string>)
      requires CanonicalName(k) == k && lines != []
      modifies this
      ensures State() == old(State()).(header := old(header)[k := Values(old(header), k) + lines])
    {
      hide CanonicalName, Values, Add;
      ghost var start := header;
      AddKeyFields(header, k, lines);
      assert lines[0..] == lines;
      for i := 0 to |lines|
        invariant AddAll(header, KeyFields(k, lines[i..])) == AddAll(start, KeyFields(k, lines))
        invariant State() == old(State()).(header := header)
      {
        assert lines[i..][1..] == lines[i + 1..];
        assert KeyFields(k, lines[i..])[1..] == KeyFields(k, lines[i + 1..]);
        header := Add(header, k, lines[i]);
      }
    }
  }

  /* The recorder. */

  /** `connected` says whether the client is still written to. */
  datatype Saver = Saver(client: Sink, connected: bool, buffer: string, header: Header,
                         status: int, wroteHeaders: bool, filter: int)

  function SaveHeader(t: Saver, code: int): Saver {
    var connected := t.connected && code != t.filter;
    t.(connected := connected,
       wroteHeaders := true,
       status := code,
       buffer := t.buffer + Head(code, t.header),
       client := if connected then SinkWriteHeader(t.client.(header := Merge(t.client.header, t.header)), code)
                 else t.client)
  }

  function SaveWrite(t: Saver, bytes: string): Saver {
    var u := if t.wroteHeaders then t else SaveHeader(t, 200);
    u.(buffer := u.buffer + bytes,
       client := if u.connected then SinkWrite(u.client, bytes) else u.client)
  }

  class ResponseSaver {
    var rw: ResponseWriter?
    var b: string
    var header: Header
    var status: int
    var wroteHeaders: bool
    var statusFilter: int
    const createdAt: int
    ghost const client: ResponseWriter?

    constructor (w: ResponseWriter?, filter: int, now: int)
      ensures client == w && rw == w && createdAt == now
      ensures State() == Saver(if w == null then FRESH_SINK else w.State(), w != null, "", map[], 0, false, filter)
    {
      rw, client, b, header, status, wroteHeaders, statusFilter := w, w, "", map[], 0, false, filter;
      createdAt := now;
    }

    ghost predicate Valid() reads this { rw == null || rw == client }

    ghost function State(): Saver reads this, client {
      Saver(if client == null then FRESH_SINK else client.State(), rw != null, b, header, status, wroteHeaders,
            statusFilter)
    }

    method WriteHeader(code: int)
      requires Valid() && Built(header)
      modifies this, client
      ensures Valid() && State() == SaveHeader(old(State()), code)
    {
      hide CanonicalName, HeaderBlock, Merge, StatusLine;
      if code == statusFilter { rw := null; }
      wroteHeaders, status := true, code;
      b := b + StatusLine(code);
      b := b + HeaderBlock(header);
      b := b + "\n";
      Append3(old(b), StatusLine(code), HeaderBlock(header), "\n");
      if rw != null {
        assert header - {} == header;
        rw.CopyHeader(header, {});
        rw.WriteHeader(code);
      }
    }

    method Write(bytes: string)
      requires Valid() && Built(header)
      modifies this, client
      ensures Valid() && State() == SaveWrite(old(State()), bytes)
    {
      if !wroteHeaders { WriteHeader(200); }
      if rw != null { rw.Write(bytes); }
      b := b + bytes;
    }

    method Response() returns (bytes: string)
      ensures bytes == b
    {
      bytes := b;
    }
  }

  lemma Append3(a: string, x: string, y: string, z: string)
    ensures a + x + y + z == a + (x + y + z)
  {}

  /* Every sequence of calls. */

  datatype Call = WriteHeader(code: int) | Write(bytes: string)

  function Step(t: Saver, call: Call): Saver {
    match call
    case WriteHeader(code) => SaveHeader(t, code)
    case Write(bytes) => SaveWrite(t, bytes)
  }

  function Run(t: Saver, calls: seq<Call>): Saver {
    if calls == [] then t else Step(Run(t, calls[..|calls| - 1]), calls[|calls| - 1])
  }

  /** All bytes passed to `Write`. */
  function Written(calls: seq<Call>): string {
    if calls == [] then ""
    else
      var last := calls[|calls| - 1];
      Written(calls[..|calls| - 1]) + if last.Write? then last.bytes else ""
  }

  /** How many heads the calls put into the buffer: the explicit ones, and one for a write without any. */
  function Heads(calls: seq<Call>): nat {
    if calls == [] then 0
    else
      var n := Heads(calls[..|calls| - 1]);
      if calls[|calls| - 1].WriteHeader? || n == 0 then n + 1 else n
  }

  lemma LastCall(t: Saver, calls: seq<Call>, call: Call)
    ensures Run(t, calls + [call]) == Step(Run(t, calls), call)
    ensures Written(calls + [call]) == Written(calls) + if call.Write? then call.bytes else ""
    ensures Heads(calls + [call]) ==
      if call.WriteHeader? || Heads(calls) == 0 then Heads(calls) + 1 else Heads(calls)
  {
    hide Step;
    assert (calls + [call])[..|calls|] == calls;
  }

  predicate FreshSaver(t: Saver) {
    t.buffer == "" && !t.wroteHeaders && t.status == 0 && t.client.status == 0
  }

  lemma HeadIsNotEmpty(code: int, h: Header)
    ensures |Head(code, h)| > 0
  {}

  /** What the recorder holds after any calls; the buffer is one head and the writes only if there was one head. */
  lemma {:induction false} RunRecords(t: Saver, calls: seq<Call>)
    requires FreshSaver(t)
    ensures var u := Run(t, calls);
      && u.header == t.header && u.filter == t.filter
      && (u.wroteHeaders <==> Heads(calls) > 0)
      && (Heads(calls) == 0 ==> calls == [])
      && (Heads(calls) == 1 ==> u.buffer == Head(u.status, t.header) + Written(calls))
      && (Heads(calls) > 1 ==> |u.buffer| > |Head(u.status, t.header)| + |Written(calls)|)
  {
    hide Head, Run, Written, Heads;
    if calls == [] {
      NoCalls(t);
    } else {
      var init, last := calls[..|calls| - 1], calls[|calls| - 1];
      assert calls == init + [last];
      RunRecords(t, init);
      LastCall(t, init, last);
      var v, u := Run(t, init), Run(t, calls);
      HeadIsNotEmpty(v.status, t.header);
      HeadIsNotEmpty(u.status, t.header);
      if Heads(init) == 0 {
        NoCalls(t);
        assert "" + Head(u.status, t.header) == Head(u.status, t.header) + "" == Head(u.status, t.header);
        assert "" + (if last.Write? then last.bytes else "") == if last.Write? then last.bytes else "";
      } else if Heads(init) == 1 && last.Write? {
        Regroup3(Head(v.status, t.header), Written(init), last.bytes);
      }
    }
  }

  lemma NoCalls(t: Saver)
    ensures Run(t, []) == t && Written([]) == "" && Heads([]) == 0
  {}

  lemma Regroup3(a: string, b: string, c: string)
    ensures a + b + c == a + (b + c)
  {}

  /** The buffer is the recording of one response exactly when one head was written. */
  lemma BufferIsOneResponseIff(t: Saver, calls: seq<Call>)
    requires FreshSaver(t) && calls != []
    ensures var u := Run(t, calls);
      u.buffer == Head(u.status, t.header) + Written(calls) <==> Heads(calls) == 1
  {
    hide Head, Run;
    RunRecords(t, calls);
  }

  /**
   With one head the two sinks agree: the client got the recorded status, the merged header and all
   the writes, or nothing at all if the status was filtered or there is no client.
   */
  lemma {:induction false} SinksAgree(t: Saver, calls: seq<Call>)
    requires FreshSaver(t) && t.client.body == "" && Heads(calls) <= 1
    requires forall call :: call in calls && call.WriteHeader? ==> call.code >= 100
    ensures var u := Run(t, calls);
      && (Heads(calls) == 0 ==> u == t)
      && (Heads(calls) == 1 && t.connected && u.status != t.filter ==>
            && u.connected
            && u.client.status == u.status >= 100
            && u.client.sent == u.client.header == Merge(t.client.header, t.header)
            && u.client.body == Written(calls)
            && u.client.calls == t.client.calls + 1)
      && (Heads(calls) == 1 && !(t.connected && u.status != t.filter) ==>
            !u.connected && u.client == t.client)
  {
    hide Head, Merge, Run, Written, Heads;
    if calls == [] {
      NoCalls(t);
    } else {
      var init, last := calls[..|calls| - 1], calls[|calls| - 1];
      assert calls == init + [last];
      assert last in calls && forall call :: call in init ==> call in calls;
      LastCall(t, init, last);
      SinksAgree(t, init);
      RunRecords(t, init);
      if Heads(init) == 0 { NoCalls(t); }
    }
  }
}
