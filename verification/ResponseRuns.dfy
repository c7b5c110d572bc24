/**
  What `HttpResponseWriter` puts on a connection from one Begin on, whatever it was used for before:
  a writer serves one response after the other on a connection that is kept alive.
 */
module ResponseRuns {
  import opened Wrappers
  import opened Chunked
  import opened EventStream
  import opened ResponseWriter

  // ---------- What was written before plays no part ----------

  /** The writer with more written before. */
  function Behind(w: Writer, earlier: seq<Piece>): Writer {
    w.(out := earlier + w.out)
  }

  lemma WriteBehind(w: Writer, piece: Piece, earlier: seq<Piece>)
    ensures Write(Behind(w, earlier), piece) == Behind(Write(w, piece), earlier)
  {
    assert earlier + w.out + [piece] == earlier + (w.out + [piece]);
  }

  lemma DumpBehind(w: Writer, r: Response, withHead: bool, withBody: bool, earlier: seq<Piece>)
    ensures WriteDump(Behind(w, earlier), r, withHead, withBody) == Behind(WriteDump(w, r, withHead, withBody), earlier)
  {
    WriteBehind(w, Head(r), earlier);
    var w1 := if withHead then Write(w, Head(r)) else w;
    WriteBehind(w1, Raw(r.body), earlier);
  }

  lemma EndHeadersBehind(w: Writer, header: Option<(string, string)>, earlier: seq<Piece>)
    ensures EndHeadersStep(Behind(w, earlier), header) == Behind(EndHeadersStep(w, header), earlier)
  {
    if w.state == SendBegin {
      var r := if header.Some? then
        w.response.(headers := w.response.headers[header.value.0 := header.value.1])
      else w.response;
      DumpBehind(w.(response := r, state := SendHeader), r, true, false, earlier);
    }
  }

  lemma ChunkBytesBehind(w: Writer, bytes: Bytes, earlier: seq<Piece>)
    ensures ChunkBytes(Behind(w, earlier), bytes) == Behind(ChunkBytes(w, bytes), earlier)
  {
    var size := Raw(Hex(|bytes|) + CRLF);
    WriteBehind(w, size, earlier);
    var w1 := Write(w, size);
    WriteBehind(w1.(state := SendChunked), Raw(bytes), earlier);
    var w2 := if bytes != [] then Write(w1.(state := SendChunked), Raw(bytes)) else w1.(state := SendChunkedEnd);
    WriteBehind(w2, Raw(CRLF), earlier);
  }

  lemma ChunkedBehind(w: Writer, data: Option<Bytes>, earlier: seq<Piece>)
    ensures WriteChunkedStep(Behind(w, earlier), data) == Behind(WriteChunkedStep(w, data), earlier)
  {
    EndHeadersBehind(w, Some(CHUNKED_HEADER), earlier);
    ChunkBytesBehind(if w.state == SendBegin then EndHeadersStep(w, Some(CHUNKED_HEADER)) else w, Given(data), earlier);
  }

  lemma BodyBehind(lib: Library, w: Writer, data: Bytes, earlier: seq<Piece>)
    ensures WriteBodyStep(lib, Behind(w, earlier), data) == Behind(WriteBodyStep(lib, w, data), earlier)
  {
    ChunkedBehind(w, Some(data), earlier);
    WriteBehind(w.(state := SendBody), Raw(data), earlier);
  }

  lemma EventBehind(w: Writer, data: Bytes, event: Bytes, earlier: seq<Piece>)
    ensures SSEventStep(Behind(w, earlier), data, event) == Behind(SSEventStep(w, data, event), earlier)
  {
    EndHeadersBehind(w, Some(SSE_HEADER), earlier);
    var w1 := if w.state == SendBegin then EndHeadersStep(w, Some(SSE_HEADER)) else w;
    WriteBehind(w1.(state := SendBody), Raw(EventMessage(data, event)), earlier);
  }

  lemma DoBehind(lib: Library, w: Writer, c: Call, earlier: seq<Piece>)
    ensures Do(lib, Behind(w, earlier), c) == Behind(Do(lib, w, c), earlier)
  {
    match c
    case EndHeaders(h) => EndHeadersBehind(w, h, earlier);
    case WriteChunked(d) => ChunkedBehind(w, d, earlier);
    case WriteBody(b) => BodyBehind(lib, w, b, earlier);
    case WriteResponse(r) =>
      if r.Some? {
        DumpBehind(w, r.value, w.state == SendBegin, true, earlier);
      }
    case SSEvent(data, event) => EventBehind(w, data, event, earlier);
    case _ =>
  }

  lemma {:induction false} RunBehind(lib: Library, w: Writer, calls: seq<Call>, earlier: seq<Piece>)
    ensures Run(lib, Behind(w, earlier), calls) == Behind(Run(lib, w, calls), earlier)
    decreases |calls|
  {
    if calls != [] {
      RunBehind(lib, w, calls[..|calls| - 1], earlier);
      DoBehind(lib, Run(lib, w, calls[..|calls| - 1]), calls[|calls| - 1], earlier);
    }
  }

  lemma ClosedBehind(w: Writer, data: Option<Bytes>, earlier: seq<Piece>)
    ensures ChunksClosed(Behind(w, earlier), data) == Behind(ChunksClosed(w, data), earlier)
  {
    ChunkedBehind(w, data, earlier);
    ChunkedBehind(if data.Some? then WriteChunkedStep(w, data) else w, None, earlier);
  }

  /** What End does before it looks at the link. */
  function Finished(lib: Library, w: Writer, data: Option<Bytes>): Writer {
    if w.state == SendChunked then ChunksClosed(w, data)
    else
      var w1 := if data.Some? then WriteBodyStep(lib, w, data.value) else w;
      if w1.state == SendBody then w1
      else WriteDump(w1, w1.response, w1.state != SendHeader, true).(state := SendBody)
  }

  lemma EndFinishes(lib: Library, w: Writer, data: Option<Bytes>)
    requires w.link.Connected? && !w.ended
    ensures var w1 := Finished(lib, w.(ended := true), data);
            EndStep(lib, w, data) == if lib.isKeepAlive(w.response.headers) then w1 else w1.(link := Closed)
  {
  }

  lemma FinishedBehind(lib: Library, w: Writer, data: Option<Bytes>, earlier: seq<Piece>)
    ensures Finished(lib, Behind(w, earlier), data) == Behind(Finished(lib, w, data), earlier)
  {
    ClosedBehind(w, data, earlier);
    if data.Some? {
      BodyBehind(lib, w, data.value, earlier);
    }
    var w1 := if data.Some? then WriteBodyStep(lib, w, data.value) else w;
    DumpBehind(w1, w1.response, w1.state != SendHeader, true, earlier);
  }

  lemma EndBehind(lib: Library, w: Writer, data: Option<Bytes>, earlier: seq<Piece>)
    ensures EndStep(lib, Behind(w, earlier), data) == Behind(EndStep(lib, w, data), earlier)
  {
    if w.link.Connected? && !w.ended {
      EndFinishes(lib, w, data);
      EndFinishes(lib, Behind(w, earlier), data);
      FinishedBehind(lib, w.(ended := true), data, earlier);
    }
  }

  /** What was written since w. */
  function Since(w: Writer, w': Writer): seq<Piece> {
    if |w.out| <= |w'.out| then w'.out[|w.out|..] else []
  }

  /**
    However a writer was used before, as long as its connection is up: Begin makes it as good as a
    new one, and all it wrote before stays in front.
   */
  lemma BeginStartsAfresh(lib: Library, w: Writer, calls: seq<Call>, data: Option<Bytes>)
    requires w.link.Connected?
    ensures Run(lib, BeginStep(w), calls) == Behind(Run(lib, New(w.response), calls), w.out)
    ensures var end, plain := EndStep(lib, Run(lib, BeginStep(w), calls), data),
                              EndStep(lib, Run(lib, New(w.response), calls), data);
            end == Behind(plain, w.out) && Since(w, end) == plain.out
  {
    assert BeginStep(w) == Behind(New(w.response), w.out);
    RunBehind(lib, New(w.response), calls, w.out);
    EndBehind(lib, Run(lib, New(w.response), calls), data, w.out);
  }

  // ---------- The link ----------

  /** Once the connection is closed nothing goes out. */
  lemma DoUnwritable(lib: Library, w: Writer, c: Call)
    requires !Writable(w.link)
    ensures Do(lib, w, c).out == w.out
  {
  }

  lemma {:induction false} RunUnwritable(lib: Library, w: Writer, calls: seq<Call>)
    requires !Writable(w.link)
    ensures Run(lib, w, calls).out == w.out && Run(lib, w, calls).link == w.link
    decreases |calls|
  {
    RunKeepsLink(lib, w, calls);
    if calls != [] {
      RunUnwritable(lib, w, calls[..|calls| - 1]);
      DoUnwritable(lib, Run(lib, w, calls[..|calls| - 1]), calls[|calls| - 1]);
    }
  }

  /** End leaves the connection up exactly if the response it is called with is kept alive. */
  lemma EndKeepsLinkIffAlive(lib: Library, w: Writer, data: Option<Bytes>)
    requires w.link.Connected? && !w.ended
    ensures EndStep(lib, w, data).link == if lib.isKeepAlive(w.response.headers) then Connected else Closed
  {
    var w0 := w.(ended := true);
    ChunkKeepsLink(w0, data);
    ChunkKeepsLink(if data.Some? then WriteChunkedStep(w0, data) else w0, None);
    if data.Some? {
      DoKeepsLink(lib, w0, WriteBody(data.value));
    }
  }

  /** Without a connection, or a second time, End does nothing but note that it was called. */
  lemma EndNeedsConnection(lib: Library, w: Writer, data: Option<Bytes>)
    ensures EndStep(lib, w, data) == w.(ended := true) || (w.link.Connected? && !w.ended)
  {
  }

  /**
    One response after the other: after an End, Begin and any calls and End write what a new writer
    would exactly if the first response is kept alive; otherwise nothing, the connection being closed.
   */
  lemma NextResponse(lib: Library, w: Writer, data: Option<Bytes>, calls: seq<Call>, again: Option<Bytes>)
    requires w.link.Connected? && !w.ended
    ensures var w1 := EndStep(lib, w, data);
            var w2 := EndStep(lib, Run(lib, BeginStep(w1), calls), again);
            if lib.isKeepAlive(w.response.headers) then
              w2.out == w1.out + EndStep(lib, Run(lib, New(w1.response), calls), again).out
            else w2.out == w1.out
  {
    var w1 := EndStep(lib, w, data);
    EndKeepsLinkIffAlive(lib, w, data);
    if lib.isKeepAlive(w.response.headers) {
      BeginStartsAfresh(lib, w1, calls, again);
    } else {
      RunUnwritable(lib, BeginStep(w1), calls);
    }
  }

  // ---------- Header blocks ----------

  /** On a connected channel, whatever was called between Begin and End and before. */
  lemma HeadWrittenOnceIffNotRepeated(lib: Library, w: Writer, calls: seq<Call>, data: Option<Bytes>)
    requires w.link.Connected?
    ensures var before := Run(lib, BeginStep(w), calls);
            Heads(Since(w, EndStep(lib, before, data))) == 1 <==> !RepeatsHead(lib, before, data)
  {
    BeginStartsAfresh(lib, w, calls, data);
    NewHeadOnce(lib, w.response, calls, data);
  }

  /** An explicit last chunk, then End: two header blocks. */
  lemma HeadCanGoOutTwice(lib: Library, w: Writer)
    requires w.link.Connected?
    ensures Heads(Since(w, EndStep(lib, Run(lib, BeginStep(w), [WriteChunked(None)]), None))) == 2
  {
    BeginStartsAfresh(lib, w, [WriteChunked(None)], None);
    NewHeadTwice(lib, w.response);
  }

  // ---------- Chunked responses ----------

  lemma ChunkedRunBehind(lib: Library, w: Writer, early: bool, parts: seq<Bytes>, data: Option<Bytes>)
    requires w.link.Connected?
    ensures Since(w, ChunkedRun(lib, BeginStep(w), early, parts, data))
         == ChunkedRun(lib, New(w.response), early, parts, data).out
  {
    var plain := New(w.response);
    var w1 := if early then EndHeadersStep(plain, Some(CHUNKED_HEADER)) else plain;
    assert BeginStep(w) == Behind(plain, w.out);
    EndHeadersBehind(plain, Some(CHUNKED_HEADER), w.out);
    RunBehind(lib, w1, ChunkCalls(parts), w.out);
    EndBehind(lib, Run(lib, w1, ChunkCalls(parts)), data, w.out);
  }

  /**
    Begin, one or more non-empty WriteChunked, End(data): the header block once, then bytes that
    decode to exactly the writes and data, with nothing left over. `early`: EndHeaders was called
    with the Transfer-Encoding header before the first write.
   */
  lemma ChunkedRoundTrip(lib: Library, w: Writer, early: bool, parts: seq<Bytes>, data: Option<Bytes>)
    requires w.link.Connected? && parts != [] && forall i :: 0 <= i < |parts| ==> parts[i] != []
    ensures var out := Since(w, ChunkedRun(lib, BeginStep(w), early, parts, data));
            var head := lib.headerBlock(AsChunked(w.response));
            && Heads(out) == 1 && head <= Wire(lib, out)
            && Decode(Wire(lib, out)[|head|..]) == Some((Concat(parts) + Given(data), []))
  {
    ChunkedRunBehind(lib, w, early, parts, data);
    NewChunkedRoundTrip(lib, w.response, early, parts, data);
  }

  /**
    Whatever is written: the client decodes the header block's body to exactly the writes and the
    data of End, with nothing left over, exactly if there was a WriteChunked and none was empty.
   */
  lemma ChunkedBodyIsCompleteIffNoneEmpty(
      lib: Library, w: Writer, early: bool, parts: seq<Bytes>, data: Option<Bytes>)
    requires w.link.Connected? && (early || parts != [])
    requires w.response.body == [] && SpeaksHttp(lib, AsChunked(w.response))
    ensures var wire := Wire(lib, Since(w, ChunkedRun(lib, BeginStep(w), early, parts, data)));
            var head := lib.headerBlock(AsChunked(w.response));
            && head <= wire
            && (Decode(wire[|head|..]) == Some((Concat(parts) + Given(data), [])) <==>
                  parts != [] && AllNonEmpty(parts))
  {
    ChunkedRunBehind(lib, w, early, parts, data);
    NewChunkedBody(lib, w.response, early, parts, data);
  }

  /** With no chunk written, End leaves a chunked response without its terminator. */
  lemma NoChunkNoTerminator(lib: Library, w: Writer)
    requires w.link.Connected? && w.response.body == []
    ensures Wire(lib, Since(w, ChunkedRun(lib, BeginStep(w), true, [], None))) == lib.headerBlock(AsChunked(w.response))
    ensures Decode([]).None?
  {
    ChunkedRunBehind(lib, w, true, [], None);
    NewNoChunk(lib, w.response);
  }

  // ---------- The other documented runs ----------

  lemma SplitRunBehind(
      lib: Library, w: Writer, header: (string, string), before: seq<Bytes>, after: seq<Bytes>)
    requires w.link.Connected?
    ensures Since(w, SplitRun(lib, BeginStep(w), header, before, after))
         == SplitRun(lib, New(w.response), header, before, after).out
  {
    var plain := New(w.response);
    assert BeginStep(w) == Behind(plain, w.out);
    RunBehind(lib, plain, BodyCalls(before), w.out);
    var w1 := Run(lib, plain, BodyCalls(before));
    EndHeadersBehind(w1, Some(header), w.out);
    var w2 := EndHeadersStep(w1, Some(header));
    RunBehind(lib, w2, BodyCalls(after), w.out);
    EndBehind(lib, Run(lib, w2, BodyCalls(after)), None, w.out);
  }

  /**
    Any body writes before EndHeaders, any after it: what the client gets as body is all of it
    exactly if one side is empty; otherwise what was written before EndHeaders is lost.
   */
  lemma BodyArrivesIffNotSplit(
      lib: Library, w: Writer, header: (string, string), before: seq<Bytes>, after: seq<Bytes>)
    requires w.link.Connected? && w.response.body == []
    requires !lib.isChunked(w.response.headers) && !lib.isChunked(w.response.headers[header.0 := header.1])
    ensures var wire := Wire(lib, Since(w, SplitRun(lib, BeginStep(w), header, before, after)));
            var head := lib.headerBlock(SplitResponse(w.response, header, before));
            && wire == head + (if after == [] then Concat(before) else Concat(after))
            && ((wire == head + (Concat(before) + Concat(after))) <==> (after == [] || Concat(before) == []))
  {
    SplitRunBehind(lib, w, header, before, after);
    NewSplit(lib, w.response, header, before, after);
  }

  // ---------- A response built by calls ----------

  /** The calls that build the response and send nothing. */
  predicate Builds(c: Call) {
    c.WriteStatus? || c.WriteHeader? || c.WriteCookie? || c.WriteBody?
  }

  /** The status last given, if any. */
  function LastStatus(status: int, calls: seq<Call>): int {
    if calls == [] then status
    else if calls[|calls| - 1].WriteStatus? then calls[|calls| - 1].status
    else LastStatus(status, calls[..|calls| - 1])
  }

  /** The value last given for a header, if any. */
  function LastValue(headers: Headers, calls: seq<Call>, key: string): Option<string> {
    if calls == [] then if key in headers then Some(headers[key]) else None
    else
      var last := calls[|calls| - 1];
      if last.WriteHeader? && last.key == key then Some(last.value)
      else LastValue(headers, calls[..|calls| - 1], key)
  }

  function AllCookies(calls: seq<Call>): seq<string> {
    if calls == [] then []
    else AllCookies(calls[..|calls| - 1]) + if calls[|calls| - 1].WriteCookie? then [calls[|calls| - 1].cookie] else []
  }

  function AllBody(calls: seq<Call>): Bytes {
    if calls == [] then []
    else AllBody(calls[..|calls| - 1]) + if calls[|calls| - 1].WriteBody? then calls[|calls| - 1].body else []
  }

  /** r' is r with what the calls say. */
  ghost predicate Built(r: Response, calls: seq<Call>, r': Response) {
    && r'.status == LastStatus(r.status, calls)
    && (forall key :: LastValue(r.headers, calls, key) == if key in r'.headers then Some(r'.headers[key]) else None)
    && r'.cookies == r.cookies + AllCookies(calls)
    && r'.body == r.body + AllBody(calls)
  }

  lemma BuildOne(lib: Library, r: Response, calls: seq<Call>, w: Writer)
    requires calls != [] && Builds(calls[|calls| - 1]) && w.state == SendBegin
    requires Built(r, calls[..|calls| - 1], w.response)
    requires calls[|calls| - 1].WriteBody? ==> !lib.isChunked(w.response.headers)
    ensures var w' := Do(lib, w, calls[|calls| - 1]);
            Built(r, calls, w'.response) && w' == w.(response := w'.response)
  {
    var w', c := Do(lib, w, calls[|calls| - 1]), calls[|calls| - 1];
    if c.WriteCookie? {
      assert r.cookies + AllCookies(calls[..|calls| - 1]) + [c.cookie] == r.cookies + AllCookies(calls);
    }
    if c.WriteBody? {
      Associative(r.body, AllBody(calls[..|calls| - 1]), c.body);
    }
  }

  /** Each body write finds the response not chunked. */
  ghost predicate Unchunked(lib: Library, w: Writer, calls: seq<Call>) {
    forall i :: 0 <= i < |calls| && calls[i].WriteBody? ==> !lib.isChunked(Run(lib, w, calls[..i]).response.headers)
  }

  lemma {:induction false} BuildAll(lib: Library, r: Response, calls: seq<Call>)
    requires (forall i :: 0 <= i < |calls| ==> Builds(calls[i])) && Unchunked(lib, New(r), calls)
    ensures var w := Run(lib, New(r), calls);
            Built(r, calls, w.response) && w == New(w.response)
    decreases |calls|
  {
    if calls == [] {
      assert r.cookies + [] == r.cookies && r.body + [] == r.body;
    } else {
      var before := calls[..|calls| - 1];
      assert forall i :: 0 <= i < |before| ==> before[i] == calls[i] && before[..i] == calls[..i];
      BuildAll(lib, r, before);
      BuildOne(lib, r, calls, Run(lib, New(r), before));
    }
  }

  /**
    Begin, any calls that build the response, in any order, End: what goes out is the header block
    and the body of the response they build. The last status and the last value of each header
    count, cookies and body pieces add up, and what none of them touches stays.
   */
  lemma BuiltResponseArrives(lib: Library, w: Writer, calls: seq<Call>)
    requires w.link.Connected? && (forall i :: 0 <= i < |calls| ==> Builds(calls[i]))
    requires Unchunked(lib, New(w.response), calls)
    ensures exists r :: Built(w.response, calls, r) &&
              Since(w, EndStep(lib, Run(lib, BeginStep(w), calls), None)) == [Head(r), Raw(r.body)]
  {
    BeginStartsAfresh(lib, w, calls, None);
    BuildAll(lib, w.response, calls);
    var r := Run(lib, New(w.response), calls).response;
    assert EndStep(lib, New(r), None).out == [Head(r), Raw(r.body)];
  }

  /** Body writes without EndHeaders: End prints the header block of the whole and then the whole. */
  lemma WholeBodyArrives(lib: Library, w: Writer, parts: seq<Bytes>)
    requires w.link.Connected? && w.response.body == [] && !lib.isChunked(w.response.headers)
    ensures Since(w, EndStep(lib, Run(lib, BeginStep(w), BodyCalls(parts)), None))
         == [Head(w.response.(body := Concat(parts))), Raw(Concat(parts))]
  {
    BeginStartsAfresh(lib, w, BodyCalls(parts), None);
    NewWholeBody(lib, w.response, parts);
  }

  /** Begin, WriteResponse, End: the given response, whole; for a null one what there is, with status 500. */
  lemma GivenResponseArrives(lib: Library, w: Writer, given: Option<Response>)
    requires w.link.Connected?
    ensures var r := if given.Some? then given.value else w.response.(status := 500);
            Since(w, EndStep(lib, Run(lib, BeginStep(w), [WriteResponse(given)]), None)) == [Head(r), Raw(r.body)]
  {
    var calls, plain := [WriteResponse(given)], New(w.response);
    BeginStartsAfresh(lib, w, calls, None);
    assert calls[..0] == [];
    assert Run(lib, plain, []) == plain;
    assert Run(lib, plain, calls) == WriteResponseStep(plain, given);
  }

  // ---------- Event streams ----------

  function EventCalls(events: seq<Event>): seq<Call> {
    seq(|events|, i requires 0 <= i < |events| => SSEvent(events[i].data, events[i].name))
  }

  /** The response with the header that makes it an event stream. */
  function AsEvents(r: Response): Response {
    r.(headers := r.headers[SSE_HEADER.0 := SSE_HEADER.1])
  }

  lemma LastEventCall(lib: Library, w: Writer, events: seq<Event>)
    requires events != []
    ensures var last := events[|events| - 1];
            Run(lib, w, EventCalls(events)) ==
              SSEventStep(Run(lib, w, EventCalls(events[..|events| - 1])), last.data, last.name)
  {
    var front, last := events[..|events| - 1], events[|events| - 1];
    RunLast(lib, w, EventCalls(front), SSEvent(last.data, last.name));
    assert EventCalls(events) == EventCalls(front) + [SSEvent(last.data, last.name)];
  }

  lemma FirstEvent(lib: Library, r: Response, event: Event)
    ensures var w := SSEventStep(New(r), event.data, event.name);
            && w.state == SendBody && w.link.Connected?
            && Wire(lib, w.out) == lib.headerBlock(AsEvents(r)) + EventMessage(event.data, event.name)
  {
    var w1 := EndHeadersStep(New(r), Some(SSE_HEADER));
    HeadAloneOnWire(lib, w1, AsEvents(r));
    WireAppend(lib, w1.out, Raw(EventMessage(event.data, event.name)));
  }

  lemma LastMessage(events: seq<Event>)
    requires events != []
    ensures var last := events[|events| - 1];
            Messages(events) == Messages(events[..|events| - 1]) + EventMessage(last.data, last.name)
  {
    var front, last := events[..|events| - 1], events[|events| - 1];
    assert events == front + [last];
    MessagesJoin(front, [last]);
    assert [last][1..] == [];
    assert EventMessage(last.data, last.name) + [] == EventMessage(last.data, last.name);
  }

  lemma {:induction false} EventsOnWire(lib: Library, r: Response, events: seq<Event>)
    requires events != []
    ensures var w := Run(lib, New(r), EventCalls(events));
            && w.state == SendBody && w.link.Connected?
            && Wire(lib, w.out) == lib.headerBlock(AsEvents(r)) + Messages(events)
  {
    var front, last := events[..|events| - 1], events[|events| - 1];
    LastEventCall(lib, New(r), events);
    LastMessage(events);
    if front == [] {
      assert Run(lib, New(r), EventCalls(front)) == New(r);
      FirstEvent(lib, r, last);
      assert [] + EventMessage(last.data, last.name) == EventMessage(last.data, last.name);
    } else {
      EventsOnWire(lib, r, front);
      var w := Run(lib, New(r), EventCalls(front));
      WireAppend(lib, w.out, Raw(EventMessage(last.data, last.name)));
      Associative(lib.headerBlock(AsEvents(r)), Messages(front), EventMessage(last.data, last.name));
    }
  }

  /** Begin and one or more SSEvents of single lines: one header block, then what a parser reads back as them. */
  lemma EventStreamReadsBack(lib: Library, w: Writer, events: seq<Event>)
    requires w.link.Connected? && events != []
    requires forall i :: 0 <= i < |events| ==> OneLine(events[i].name) && OneLine(events[i].data)
    ensures var wire := Wire(lib, Since(w, Run(lib, BeginStep(w), EventCalls(events))));
            var head := lib.headerBlock(AsEvents(w.response));
            head <= wire && ParseStream(wire[|head|..]) == events
  {
    BeginStartsAfresh(lib, w, EventCalls(events), None);
    EventsOnWire(lib, w.response, events);
    StreamReadsBack(events);
  }
}
