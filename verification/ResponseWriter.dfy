/**
  `HttpResponseWriter`: a state machine that writes one response, whole, streamed or chunked.

  What only the prebuilt library defines is a parameter: the header block of a response, and
  whether its headers make it chunked and keep-alive. What goes to the connection is recorded
  piece by piece, so header blocks can be told from body bytes.
 */
module ResponseWriter {
  import opened Wrappers
  import opened Chunked
  import opened EventStream

  type Headers = map<string, string>

  datatype Response = Response(status: int, headers: Headers, cookies: seq<string>, body: Bytes)

  datatype Library = Library(
    headerBlock: Response -> Bytes,
    isChunked: Headers -> bool,
    isKeepAlive: Headers -> bool)

  datatype State = SendBegin | SendHeader | SendBody | SendChunked | SendChunkedEnd

  /** Channel::status; the socket itself is open as long as it is not Closed. */
  datatype Link = Opened | Connecting | Connected | Disconnected | Closed

  datatype Piece = Head(of: Response) | Raw(bytes: Bytes)

  datatype Writer = Writer(state: State, ended: bool, response: Response, link: Link, out: seq<Piece>)

  predicate Writable(link: Link) {
    link.Opened? || link.Connecting? || link.Connected?
  }

  /** SocketChannel::write: nothing happens on a channel that is not open. */
  function Write(w: Writer, piece: Piece): Writer {
    if Writable(w.link) then w.(out := w.out + [piece]) else w
  }

  /** Dump(true or false, true or false) of a response, written in one go. */
  function WriteDump(w: Writer, r: Response, withHead: bool, withBody: bool): Writer {
    var w1 := if withHead then Write(w, Head(r)) else w;
    if withBody then Write(w1, Raw(r.body)) else w1
  }

  function BeginStep(w: Writer): Writer {
    w.(state := SendBegin, ended := false)
  }

  /** The state a constructor and Begin leave behind. */
  function New(r: Response): Writer {
    Writer(SendBegin, false, r, Connected, [])
  }

  function EndHeadersStep(w: Writer, header: Option<(string, string)>): Writer {
    if w.state != SendBegin then w
    else
      var r := if header.Some? then
        w.response.(headers := w.response.headers[header.value.0 := header.value.1])
      else w.response;
      WriteDump(w.(response := r, state := SendHeader), r, true, false)
  }

  const CHUNKED_HEADER := ("Transfer-Encoding", "chunked")
  const SSE_HEADER := ("Content-Type", "text/event-stream")

  /** The bytes behind a pointer; None is the null pointer with length 0. */
  function Given(data: Option<Bytes>): Bytes {
    if data.Some? then data.value else []
  }

  function ChunkBytes(w: Writer, bytes: Bytes): Writer {
    var w1 := Write(w, Raw(Hex(|bytes|) + CRLF));
    var w2 := if bytes != [] then Write(w1.(state := SendChunked), Raw(bytes)) else w1.(state := SendChunkedEnd);
    Write(w2, Raw(CRLF))
  }

  function WriteChunkedStep(w: Writer, data: Option<Bytes>): Writer {
    ChunkBytes(if w.state == SendBegin then EndHeadersStep(w, Some(CHUNKED_HEADER)) else w, Given(data))
  }

  function WriteBodyStep(lib: Library, w: Writer, data: Bytes): Writer {
    if lib.isChunked(w.response.headers) then WriteChunkedStep(w, Some(data))
    else if w.state == SendBegin then w.(response := w.response.(body := w.response.body + data))
    else Write(w.(state := SendBody), Raw(data))
  }

  /** None is a null response. */
  function WriteResponseStep(w: Writer, r: Option<Response>): Writer {
    if r.None? then w.(response := w.response.(status := 500))
    else WriteDump(w, r.value, w.state == SendBegin, true).(state := SendBody)
  }

  function SSEventStep(w: Writer, data: Bytes, event: Bytes): Writer {
    var w1 := if w.state == SendBegin then EndHeadersStep(w, Some(SSE_HEADER)) else w;
    Write(w1.(state := SendBody), Raw(EventMessage(data, event)))
  }

  /** End after chunks: its own data as one more chunk, then the last chunk unless that was it. */
  function ChunksClosed(w: Writer, data: Option<Bytes>): Writer {
    var w1 := if data.Some? then WriteChunkedStep(w, data) else w;
    if w1.state == SendChunked then WriteChunkedStep(w1, None) else w1
  }

  function EndStep(lib: Library, w: Writer, data: Option<Bytes>): Writer {
    if w.ended then w
    else
      var w0 := w.(ended := true);
      if !w0.link.Connected? then w0
      else
        var w2 :=
          if w0.state == SendChunked then ChunksClosed(w0, data)
          else
            var w1 := if data.Some? then WriteBodyStep(lib, w0, data.value) else w0;
            if w1.state == SendBody then w1
            else WriteDump(w1, w1.response, w1.state != SendHeader, true).(state := SendBody);
        if lib.isKeepAlive(w.response.headers) then w2 else w2.(link := Closed)
  }

  // ---------- What End comes down to ----------

  /** What a caller can look at before calling End to see that the buffered body will not go out. */
  predicate LosesBuffer(lib: Library, w: Writer, data: Option<Bytes>) {
    || w.state == SendChunked
    || (if data.None? then w.state == SendBody else !lib.isChunked(w.response.headers) && w.state != SendBegin)
  }

  /** The writer End has when it comes to decide whether to dump, no chunk being open. */
  function BeforeDump(lib: Library, w: Writer, data: Option<Bytes>): Writer {
    if data.Some? then WriteBodyStep(lib, w.(ended := true), data.value) else w.(ended := true)
  }

  lemma EndByBuffer(lib: Library, w: Writer, data: Option<Bytes>)
    requires w.link.Connected? && !w.ended && w.state != SendChunked
    ensures var w1 := BeforeDump(lib, w, data);
            && (LosesBuffer(lib, w, data) <==> w1.state == SendBody)
            && EndStep(lib, w, data).out ==
                 if w1.state == SendBody then w1.out else WriteDump(w1, w1.response, w1.state != SendHeader, true).out
  {
  }

  lemma EndByChunks(lib: Library, w: Writer, data: Option<Bytes>)
    requires w.link.Connected? && !w.ended && w.state == SendChunked
    ensures EndStep(lib, w, data).out == ChunksClosed(w.(ended := true), data).out
  {
  }

  // ---------- Runs ----------

  datatype Call =
    | WriteStatus(status: int)
    | WriteHeader(key: string, value: string)
    | WriteCookie(cookie: string)
    | Edit(response: Response)                      // the caller changes the response by hand
    | EndHeaders(header: Option<(string, string)>)
    | WriteChunked(chunk: Option<Bytes>)
    | WriteBody(body: Bytes)
    | WriteResponse(whole: Option<Response>)
    | SSEvent(data: Bytes, event: Bytes)

  function Do(lib: Library, w: Writer, c: Call): Writer {
    match c
    case WriteStatus(status) => w.(response := w.response.(status := status))
    case WriteHeader(key, value) => w.(response := w.response.(headers := w.response.headers[key := value]))
    case WriteCookie(cookie) => w.(response := w.response.(cookies := w.response.cookies + [cookie]))
    case Edit(r) => w.(response := r)
    case EndHeaders(h) => EndHeadersStep(w, h)
    case WriteChunked(d) => WriteChunkedStep(w, d)
    case WriteBody(b) => WriteBodyStep(lib, w, b)
    case WriteResponse(r) => WriteResponseStep(w, r)
    case SSEvent(data, event) => SSEventStep(w, data, event)
  }

  function Run(lib: Library, w: Writer, calls: seq<Call>): Writer
    decreases |calls|
  {
    if calls == [] then w else Do(lib, Run(lib, w, calls[..|calls| - 1]), calls[|calls| - 1])
  }

  /** The bytes on the wire. */
  function Wire(lib: Library, out: seq<Piece>): Bytes {
    if out == [] then []
    else
      Wire(lib, out[..|out| - 1]) +
      match out[|out| - 1]
      case Head(r) => lib.headerBlock(r)
      case Raw(bytes) => bytes
  }

  lemma WireAppend(lib: Library, out: seq<Piece>, piece: Piece)
    ensures Wire(lib, out + [piece]) == Wire(lib, out) + if piece.Head? then lib.headerBlock(piece.of) else piece.bytes
  {
    assert (out + [piece])[..|out|] == out;
  }

  // ---------- The header block goes out once ----------

  function Heads(out: seq<Piece>): nat {
    if out == [] then 0 else Heads(out[..|out| - 1]) + if out[|out| - 1].Head? then 1 else 0
  }

  lemma HeadsAppend(out: seq<Piece>, piece: Piece)
    ensures Heads(out + [piece]) == Heads(out) + if piece.Head? then 1 else 0
  {
    assert (out + [piece])[..|out|] == out;
  }

  lemma WriteHeads(w: Writer, piece: Piece)
    requires Writable(w.link)
    ensures Heads(Write(w, piece).out) == Heads(w.out) + if piece.Head? then 1 else 0
  {
    HeadsAppend(w.out, piece);
  }

  lemma DumpHeads(w: Writer, r: Response, withHead: bool, withBody: bool)
    requires Writable(w.link)
    ensures Heads(WriteDump(w, r, withHead, withBody).out) == Heads(w.out) + if withHead then 1 else 0
  {
    WriteHeads(w, Head(r));
    WriteHeads(if withHead then Write(w, Head(r)) else w, Raw(r.body));
  }

  lemma ChunkHeads(w: Writer, data: Option<Bytes>)
    requires Writable(w.link)
    ensures Heads(WriteChunkedStep(w, data).out) == Heads(w.out) + if w.state == SendBegin then 1 else 0
  {
    var w1 := if w.state == SendBegin then EndHeadersStep(w, Some(CHUNKED_HEADER)) else w;
    if w.state == SendBegin {
      EndHeadersHeads(w, Some(CHUNKED_HEADER));
    }
    var bytes := Given(data);
    var w2 := Write(w1, Raw(Hex(|bytes|) + CRLF));
    WriteHeads(w1, Raw(Hex(|bytes|) + CRLF));
    var w3 := if bytes != [] then Write(w2.(state := SendChunked), Raw(bytes)) else w2.(state := SendChunkedEnd);
    WriteHeads(w2.(state := SendChunked), Raw(bytes));
    WriteHeads(w3, Raw(CRLF));
  }

  lemma EndHeadersHeads(w: Writer, header: Option<(string, string)>)
    requires Writable(w.link)
    ensures Heads(EndHeadersStep(w, header).out) == Heads(w.out) + if w.state == SendBegin then 1 else 0
  {
    if w.state == SendBegin {
      var r := EndHeadersStep(w, header).response;
      DumpHeads(w.(response := r, state := SendHeader), r, true, false);
    }
  }

  lemma BodyHeads(lib: Library, w: Writer, data: Bytes)
    requires Writable(w.link)
    ensures Heads(WriteBodyStep(lib, w, data).out) ==
              Heads(w.out) + if w.state == SendBegin && lib.isChunked(w.response.headers) then 1 else 0
  {
    ChunkHeads(w, Some(data));
    WriteHeads(w.(state := SendBody), Raw(data));
  }

  /** The block is out exactly if the writer is past SEND_BEGIN. */
  ghost predicate HeadIffBegun(w: Writer) {
    Writable(w.link) && Heads(w.out) == if w.state == SendBegin then 0 else 1
  }

  lemma DoKeepsHead(lib: Library, w: Writer, c: Call)
    requires HeadIffBegun(w)
    ensures HeadIffBegun(Do(lib, w, c)) && Do(lib, w, c).link == w.link && Do(lib, w, c).ended == w.ended
  {
    match c
    case WriteStatus(_) =>
    case WriteHeader(_, _) =>
    case WriteCookie(_) =>
    case Edit(_) =>
    case EndHeaders(h) => EndHeadersHeads(w, h);
    case WriteChunked(d) => ChunkHeads(w, d);
    case WriteBody(b) => BodyHeads(lib, w, b);
    case WriteResponse(r) =>
      if r.Some? {
        DumpHeads(w, r.value, w.state == SendBegin, true);
      }
    case SSEvent(data, event) =>
      if w.state == SendBegin {
        EndHeadersHeads(w, Some(SSE_HEADER));
      }
      var w1 := if w.state == SendBegin then EndHeadersStep(w, Some(SSE_HEADER)) else w;
      WriteHeads(w1.(state := SendBody), Raw(EventMessage(data, event)));
  }

  lemma {:induction false} RunKeepsHead(lib: Library, w: Writer, calls: seq<Call>)
    requires HeadIffBegun(w)
    ensures var w' := Run(lib, w, calls);
            HeadIffBegun(w') && w'.link == w.link && w'.ended == w.ended
    decreases |calls|
  {
    if calls != [] {
      RunKeepsHead(lib, w, calls[..|calls| - 1]);
      DoKeepsHead(lib, Run(lib, w, calls[..|calls| - 1]), calls[|calls| - 1]);
    }
  }

  /** What a caller can look at before calling End to see that it will print the headers again. */
  predicate RepeatsHead(lib: Library, w: Writer, data: Option<Bytes>) {
    w.state != SendChunked &&
    if data.Some? then lib.isChunked(w.response.headers) else w.state == SendChunkedEnd
  }

  /** On a connected channel, whatever was called between Begin and End. */
  lemma NewHeadOnce(lib: Library, r: Response, calls: seq<Call>, data: Option<Bytes>)
    ensures var w := Run(lib, New(r), calls);
            Heads(EndStep(lib, w, data).out) == 1 <==> !RepeatsHead(lib, w, data)
  {
    var w0 := New(r);
    RunKeepsHead(lib, w0, calls);
    EndHeads(lib, Run(lib, w0, calls), data);
  }

  /** An explicit last chunk, then End: two header blocks. */
  lemma NewHeadTwice(lib: Library, r: Response)
    ensures var w := Run(lib, New(r), [WriteChunked(None)]);
            Heads(EndStep(lib, w, None).out) == 2
  {
    var w0 := New(r);
    var calls := [WriteChunked(None)];
    assert calls[..0] == [];
    assert Run(lib, w0, []) == w0;
    RunKeepsHead(lib, w0, calls);
    EndHeads(lib, Run(lib, w0, calls), None);
  }

  lemma EndHeads(lib: Library, w: Writer, data: Option<Bytes>)
    requires HeadIffBegun(w) && w.link.Connected? && !w.ended
    ensures Heads(EndStep(lib, w, data).out) == if RepeatsHead(lib, w, data) then 2 else 1
  {
    var w0 := w.(ended := true);
    if w.state == SendChunked {
      EndByChunks(lib, w, data);
      EndHeadsChunked(w0, data);
    } else {
      EndByBuffer(lib, w, data);
      EndHeadsOther(lib, w0, data);
      BodyState(lib, w0, data);
    }
  }

  /** Where WriteBody leaves the state machine. */
  lemma BodyState(lib: Library, w: Writer, data: Option<Bytes>)
    requires Writable(w.link) && w.state != SendChunked
    ensures var w1 := if data.Some? then WriteBodyStep(lib, w, data.value) else w;
            && (data.Some? && lib.isChunked(w.response.headers) ==>
                  w1.state == SendChunked || w1.state == SendChunkedEnd)
            && (data.Some? && !lib.isChunked(w.response.headers) ==>
                  w1.state == if w.state == SendBegin then SendBegin else SendBody)
  {
  }

  lemma EndHeadsChunked(w: Writer, data: Option<Bytes>)
    requires Writable(w.link) && w.state == SendChunked
    ensures Heads(ChunksClosed(w, data).out) == Heads(w.out)
  {
    ChunkHeads(w, data);
    ChunkHeads(WriteChunkedStep(w, data), None);
    ChunkHeads(w, None);
  }

  lemma EndHeadsOther(lib: Library, w: Writer, data: Option<Bytes>)
    requires Writable(w.link) && w.state != SendChunked
    ensures var w1 := if data.Some? then WriteBodyStep(lib, w, data.value) else w;
            && Heads(w1.out) == Heads(w.out) +
                 (if data.Some? && w.state == SendBegin && lib.isChunked(w.response.headers) then 1 else 0)
            && Heads(WriteDump(w1, w1.response, w1.state != SendHeader, true).out) ==
                 Heads(w1.out) + if w1.state != SendHeader then 1 else 0
  {
    if data.Some? {
      BodyHeads(lib, w, data.value);
    }
    var w1 := if data.Some? then WriteBodyStep(lib, w, data.value) else w;
    DumpHeads(w1, w1.response, w1.state != SendHeader, true);
  }

  // ---------- The chunked run ----------

  function ChunkPieces(bytes: Bytes): seq<Piece> {
    [Raw(Hex(|bytes|) + CRLF)] + (if bytes != [] then [Raw(bytes)] else []) + [Raw(CRLF)]
  }

  lemma ChunkWrites(w: Writer, data: Option<Bytes>)
    requires Writable(w.link) && w.state != SendBegin
    ensures var bytes := Given(data);
            WriteChunkedStep(w, data) ==
              w.(out := w.out + ChunkPieces(bytes), state := if bytes != [] then SendChunked else SendChunkedEnd)
  {
    var bytes := Given(data);
    if bytes != [] {
      assert w.out + [Raw(Hex(|bytes|) + CRLF)] + [Raw(bytes)] + [Raw(CRLF)] == w.out + ChunkPieces(bytes);
    } else {
      assert w.out + [Raw(Hex(|bytes|) + CRLF)] + [Raw(CRLF)] == w.out + ChunkPieces(bytes);
    }
  }

  lemma WireAppend2(lib: Library, out: seq<Piece>, a: Bytes, c: Bytes)
    ensures Wire(lib, out + [Raw(a)] + [Raw(c)]) == Wire(lib, out) + (a + c)
  {
    var first := out + [Raw(a)];
    WireAppend(lib, out, Raw(a));
    WireAppend(lib, first, Raw(c));
    Associative(Wire(lib, out), a, c);
  }

  lemma WireAppend3(lib: Library, out: seq<Piece>, a: Bytes, b: Bytes, c: Bytes)
    ensures Wire(lib, out + [Raw(a)] + [Raw(b)] + [Raw(c)]) == Wire(lib, out) + (a + b + c)
  {
    var first := out + [Raw(a)] + [Raw(b)];
    WireAppend2(lib, out, a, b);
    WireAppend(lib, first, Raw(c));
    Associative(Wire(lib, out), a + b, c);
  }

  lemma ChunkPiecesOnWire(lib: Library, out: seq<Piece>, bytes: Bytes)
    ensures Wire(lib, out + ChunkPieces(bytes)) == Wire(lib, out) + Chunk(bytes)
  {
    var size := Hex(|bytes|) + CRLF;
    if bytes != [] {
      WireAppend3(lib, out, size, bytes, CRLF);
      assert out + [Raw(size)] + [Raw(bytes)] + [Raw(CRLF)] == out + ChunkPieces(bytes);
    } else {
      WireAppend2(lib, out, size, CRLF);
      assert out + [Raw(size)] + [Raw(CRLF)] == out + ChunkPieces(bytes);
      assert size + bytes == size;
    }
  }

  lemma ChunkOnWire(lib: Library, w: Writer, data: Option<Bytes>)
    requires Writable(w.link) && w.state != SendBegin
    ensures var w' := WriteChunkedStep(w, data);
            var bytes := Given(data);
            && Wire(lib, w'.out) == Wire(lib, w.out) + Chunk(bytes)
            && w' == w.(out := w'.out, state := if bytes != [] then SendChunked else SendChunkedEnd)
  {
    ChunkWrites(w, data);
    ChunkPiecesOnWire(lib, w.out, Given(data));
  }

  function ChunkCalls(parts: seq<Bytes>): seq<Call> {
    seq(|parts|, i requires 0 <= i < |parts| => WriteChunked(Some(parts[i])))
  }

  lemma LastChunkCall(lib: Library, w: Writer, parts: seq<Bytes>)
    requires parts != []
    ensures Run(lib, w, ChunkCalls(parts)) ==
              WriteChunkedStep(Run(lib, w, ChunkCalls(parts[..|parts| - 1])), Some(parts[|parts| - 1]))
  {
    RunLast(lib, w, ChunkCalls(parts[..|parts| - 1]), WriteChunked(Some(parts[|parts| - 1])));
    assert ChunkCalls(parts) == ChunkCalls(parts[..|parts| - 1]) + [WriteChunked(Some(parts[|parts| - 1]))];
  }

  lemma RunLast(lib: Library, w: Writer, calls: seq<Call>, c: Call)
    ensures Run(lib, w, calls + [c]) == Do(lib, Run(lib, w, calls), c)
  {
    assert (calls + [c])[..|calls|] == calls;
  }

  /** Where WriteChunked calls after the header block leave the state machine. */
  function ChunkState(parts: seq<Bytes>): State {
    if parts == [] then SendHeader else if parts[|parts| - 1] != [] then SendChunked else SendChunkedEnd
  }

  /** Writing chunks after the header block is out prints just the chunks. */
  lemma {:induction false} ChunksOnWire(lib: Library, w: Writer, parts: seq<Bytes>)
    requires Writable(w.link) && w.state == SendHeader
    ensures var w' := Run(lib, w, ChunkCalls(parts));
            && Wire(lib, w'.out) == Wire(lib, w.out) + Chunks(parts)
            && w' == w.(out := w'.out, state := ChunkState(parts))
  {
    if parts == [] {
      assert Wire(lib, w.out) + [] == Wire(lib, w.out);
    } else {
      var front, last := parts[..|parts| - 1], parts[|parts| - 1];
      ChunksOnWire(lib, w, front);
      LastChunkCall(lib, w, parts);
      ChunkOnWire(lib, Run(lib, w, ChunkCalls(front)), Some(last));
      Associative(Wire(lib, w.out), Chunks(front), Chunk(last));
    }
  }

  /** The first WriteChunked ends the headers itself: the run is as if the caller had done so. */
  lemma {:induction false} HeadersEndThemselves(lib: Library, w: Writer, parts: seq<Bytes>)
    requires w.state == SendBegin && parts != []
    ensures Run(lib, w, ChunkCalls(parts)) == Run(lib, EndHeadersStep(w, Some(CHUNKED_HEADER)), ChunkCalls(parts))
  {
    var front := parts[..|parts| - 1];
    assert ChunkCalls(parts)[..|parts| - 1] == ChunkCalls(front);
    if front != [] {
      HeadersEndThemselves(lib, w, front);
    }
  }

  /** What End adds after chunks: its own data as one more chunk, if it has any, and the last chunk. */
  function Closing(data: Option<Bytes>): Bytes {
    (if data.Some? && data.value != [] then Chunk(data.value) else []) + Chunk([])
  }

  lemma ClosedOnWire(lib: Library, w: Writer, data: Option<Bytes>)
    requires Writable(w.link) && w.state == SendChunked
    ensures Wire(lib, ChunksClosed(w, data).out) == Wire(lib, w.out) + Closing(data)
  {
    ChunkOnWire(lib, w, data);
    if data.Some? && data.value != [] {
      ChunkOnWire(lib, WriteChunkedStep(w, data), None);
      Associative(Wire(lib, w.out), Chunk(data.value), Chunk([]));
    } else {
      ChunkOnWire(lib, w, None);
      assert Closing(data) == Chunk([]);
    }
  }

  lemma EndClosesChunks(lib: Library, w: Writer, data: Option<Bytes>)
    requires w.link.Connected? && w.state == SendChunked && !w.ended
    ensures Wire(lib, EndStep(lib, w, data).out) == Wire(lib, w.out) + Closing(data)
  {
    EndByChunks(lib, w, data);
    ClosedOnWire(lib, w.(ended := true), data);
  }

  /**
    Begin, one or more non-empty WriteChunked, End(data): the header block once, then bytes that
    decode to exactly the writes and data, with nothing left over. `early`: EndHeaders was called
    with the Transfer-Encoding header before the first write.
   */
  lemma NewChunkedRoundTrip(lib: Library, r: Response, early: bool, parts: seq<Bytes>, data: Option<Bytes>)
    requires parts != [] && forall i :: 0 <= i < |parts| ==> parts[i] != []
    ensures var w0 := New(r);
            var w := ChunkedRun(lib, w0, early, parts, data);
            var head := lib.headerBlock(r.(headers := r.headers[CHUNKED_HEADER.0 := CHUNKED_HEADER.1]));
            && Heads(w.out) == 1
            && |head| <= |Wire(lib, w.out)| && Wire(lib, w.out)[..|head|] == head
            && Decode(Wire(lib, w.out)[|head|..])
                 == Some((Concat(parts) + Given(data), []))
  {
    var w0 := New(r);
    var w1 := EndHeadersStep(w0, Some(CHUNKED_HEADER));
    HeadersEndThemselves(lib, w0, parts);
    var wn := Run(lib, w1, ChunkCalls(parts));
    HeadAloneOnWire(lib, w1, w1.response);
    RunKeepsHead(lib, w0, ChunkCalls(parts));
    ChunksOnWire(lib, w1, parts);
    EndHeads(lib, wn, data);
    EndClosesChunks(lib, wn, data);
    ClosedChunksDecode(parts, data);
    Associative(lib.headerBlock(w1.response), Chunks(parts), Closing(data));
  }

  lemma HeadAloneOnWire(lib: Library, w: Writer, r: Response)
    requires w.out == [] + [Head(r)]
    ensures Wire(lib, w.out) == lib.headerBlock(r)
  {
    WireAppend(lib, [], Head(r));
    assert Wire(lib, []) + lib.headerBlock(r) == lib.headerBlock(r);
  }

  lemma ClosingDecodes(data: Option<Bytes>)
    ensures Decode(Closing(data)) == Some((Given(data), []))
  {
    DecodeLastChunk([]);
    assert Chunk([]) + [] == Chunk([]);
    if data.Some? && data.value != [] {
      DecodeOneChunk(data.value, Chunk([]));
      assert data.value + [] == data.value;
    } else {
      assert [] + Chunk([]) == Chunk([]);
    }
  }

  lemma ClosedChunksDecode(parts: seq<Bytes>, data: Option<Bytes>)
    requires forall i :: 0 <= i < |parts| ==> parts[i] != []
    ensures Decode(Chunks(parts) + Closing(data)) ==
              Some((Concat(parts) + Given(data), []))
  {
    ClosingDecodes(data);
    RoundTrip(parts, Given(data), Closing(data), []);
  }

  // ---------- Exactly when a chunked response is complete ----------

  /** The response with the header that makes it chunked. */
  function AsChunked(r: Response): Response {
    r.(headers := r.headers[CHUNKED_HEADER.0 := CHUNKED_HEADER.1])
  }

  /** The library knows that header, and a header block begins with no hex digit (it begins with "HTTP/"). */
  predicate SpeaksHttp(lib: Library, r: Response) {
    && lib.isChunked(r.headers)
    && lib.headerBlock(r) != [] && HexValue(lib.headerBlock(r)[0]).None?
  }

  lemma DumpOnWire(lib: Library, w: Writer, r: Response, withHead: bool)
    requires Writable(w.link) && r.body == []
    ensures Wire(lib, WriteDump(w, r, withHead, true).out) ==
              Wire(lib, w.out) + if withHead then lib.headerBlock(r) else []
  {
    var w1 := if withHead then Write(w, Head(r)) else w;
    WireAppend(lib, w.out, Head(r));
    WireAppend(lib, w1.out, Raw([]));
    assert Wire(lib, w1.out) + [] == Wire(lib, w1.out);
    assert Wire(lib, w.out) + [] == Wire(lib, w.out);
  }

  /** What End prints when no chunk is open: all or part of the response once more. */
  lemma EndDumps(lib: Library, w: Writer)
    requires w.link.Connected? && !w.ended && w.response.body == []
    requires w.state == SendHeader || w.state == SendChunkedEnd
    ensures Wire(lib, EndStep(lib, w, None).out) ==
              Wire(lib, w.out) + if w.state == SendHeader then [] else lib.headerBlock(w.response)
  {
    var w0 := w.(ended := true);
    assert EndStep(lib, w, None).out == WriteDump(w0, w.response, w.state != SendHeader, true).out;
    DumpOnWire(lib, w0, w.response, w.state != SendHeader);
  }

  /** The same with data, which goes out as a chunk first. */
  lemma EndDumpsAfter(lib: Library, w: Writer, data: Bytes)
    requires w.link.Connected? && !w.ended && w.response.body == [] && lib.isChunked(w.response.headers)
    requires w.state == SendHeader || w.state == SendChunkedEnd
    ensures Wire(lib, EndStep(lib, w, Some(data)).out) ==
              Wire(lib, w.out) + (Chunk(data) + lib.headerBlock(w.response))
  {
    var w1 := WriteChunkedStep(w.(ended := true), Some(data));
    ChunkOnWire(lib, w.(ended := true), Some(data));
    DumpOnWire(lib, w1, w.response, true);
    assert EndStep(lib, w, Some(data)).out == WriteDump(w1, w1.response, true, true).out;
    Associative(Wire(lib, w.out), Chunk(data), lib.headerBlock(w.response));
  }

  /** EndHeaders with the chunked header unless the first write does it, WriteChunked calls, End. */
  function ChunkedRun(lib: Library, w0: Writer, early: bool, parts: seq<Bytes>, data: Option<Bytes>): Writer {
    var w1 := if early then EndHeadersStep(w0, Some(CHUNKED_HEADER)) else w0;
    EndStep(lib, Run(lib, w1, ChunkCalls(parts)), data)
  }

  /** What follows the chunks of the calls. */
  function Tail(lib: Library, r: Response, parts: seq<Bytes>, data: Option<Bytes>): Bytes {
    if parts != [] && parts[|parts| - 1] != [] then Closing(data)
    else if data.Some? then Chunk(data.value) + lib.headerBlock(r)
    else if parts == [] then []
    else lib.headerBlock(r)
  }

  lemma ChunkedRunOnWire(lib: Library, r: Response, early: bool, parts: seq<Bytes>, data: Option<Bytes>)
    requires (early || parts != []) && r.body == [] && lib.isChunked(AsChunked(r).headers)
    ensures Wire(lib, ChunkedRun(lib, New(r), early, parts, data).out) ==
              lib.headerBlock(AsChunked(r)) + (Chunks(parts) + Tail(lib, AsChunked(r), parts, data))
  {
    var w0 := New(r);
    var w1 := EndHeadersStep(w0, Some(CHUNKED_HEADER));
    if !early {
      HeadersEndThemselves(lib, w0, parts);
    }
    HeadAloneOnWire(lib, w1, w1.response);
    ChunksOnWire(lib, w1, parts);
    var w := Run(lib, w1, ChunkCalls(parts));
    if w.state == SendChunked {
      EndClosesChunks(lib, w, data);
    } else if data.Some? {
      EndDumpsAfter(lib, w, data.value);
    } else {
      EndDumps(lib, w);
    }
    Associative(lib.headerBlock(w1.response), Chunks(parts), Tail(lib, w1.response, parts, data));
  }

  lemma NoChunkNeverDecodes(lib: Library, r: Response, data: Option<Bytes>)
    requires SpeaksHttp(lib, r)
    ensures Decode(Tail(lib, r, [], data)) != Some((Given(data), []))
  {
    if data.Some? {
      var head := lib.headerBlock(r);
      if data.value == [] {
        DecodeLastChunk(head);
      } else {
        DecodeOneChunk(data.value, head);
      }
    }
  }

  /**
    Whatever is written: the client decodes the header block's body to exactly the writes and the
    data of End, with nothing left over, exactly if there was a WriteChunked and none was empty.
   */
  lemma NewChunkedBody(
      lib: Library, r: Response, early: bool, parts: seq<Bytes>, data: Option<Bytes>)
    requires (early || parts != []) && r.body == [] && SpeaksHttp(lib, AsChunked(r))
    ensures var wire := Wire(lib, ChunkedRun(lib, New(r), early, parts, data).out);
            var head := lib.headerBlock(AsChunked(r));
            && head <= wire
            && (Decode(wire[|head|..]) == Some((Concat(parts) + Given(data), [])) <==>
                  parts != [] && AllNonEmpty(parts))
  {
    ChunkedRunOnWire(lib, r, early, parts, data);
    var tail := Tail(lib, AsChunked(r), parts, data);
    if parts == [] {
      NoChunkNeverDecodes(lib, AsChunked(r), data);
      assert Chunks(parts) + tail == tail && Concat(parts) + Given(data) == Given(data);
    } else if AllNonEmpty(parts) {
      ClosedChunksDecode(parts, data);
    } else {
      EmptyPieceSpoils(parts, tail);
    }
  }

  /** With no chunk written, End leaves a chunked response without its terminator. */
  lemma NewNoChunk(lib: Library, r: Response)
    requires r.body == []
    ensures var w0 := New(r);
            var w := EndStep(lib, EndHeadersStep(w0, Some(CHUNKED_HEADER)), None);
            var head := lib.headerBlock(r.(headers := r.headers[CHUNKED_HEADER.0 := CHUNKED_HEADER.1]));
            Wire(lib, w.out) == head && Decode([]).None?
  {
    var w1 := EndHeadersStep(New(r), Some(CHUNKED_HEADER));
    HeadAloneOnWire(lib, w1, w1.response);
    EndPlain(lib, w1);
    assert Wire(lib, w1.out) + [] == Wire(lib, w1.out);
  }

  /** A second End, with or without data, writes nothing. */
  lemma SecondEndIsSilent(lib: Library, w: Writer, data: Option<Bytes>, again: Option<Bytes>)
    ensures var w' := EndStep(lib, w, data);
            EndStep(lib, w', again) == w'
  {
    var w0 := w.(ended := true);
    if !w.ended && w.link.Connected? && data.Some? {
      EndedStays(lib, w0, data.value);
      EndedStays(lib, WriteChunkedStep(w0, data), []);
    }
  }

  lemma EndedStays(lib: Library, w: Writer, data: Bytes)
    ensures WriteChunkedStep(w, Some(data)).ended == w.ended && WriteBodyStep(lib, w, data).ended == w.ended
    ensures WriteChunkedStep(w, None).ended == w.ended
  {
  }

  // ---------- The other documented runs ----------

  function BodyCalls(parts: seq<Bytes>): seq<Call> {
    seq(|parts|, i requires 0 <= i < |parts| => WriteBody(parts[i]))
  }

  lemma LastBodyCall(lib: Library, w: Writer, parts: seq<Bytes>)
    requires parts != []
    ensures Run(lib, w, BodyCalls(parts)) ==
              WriteBodyStep(lib, Run(lib, w, BodyCalls(parts[..|parts| - 1])), parts[|parts| - 1])
  {
    RunLast(lib, w, BodyCalls(parts[..|parts| - 1]), WriteBody(parts[|parts| - 1]));
    assert BodyCalls(parts) == BodyCalls(parts[..|parts| - 1]) + [WriteBody(parts[|parts| - 1])];
  }

  lemma BuffersOne(lib: Library, w: Writer, body: Bytes, data: Bytes)
    requires w.state == SendBegin && !lib.isChunked(w.response.headers)
    ensures WriteBodyStep(lib, w.(response := w.response.(body := body)), data)
              == w.(response := w.response.(body := body + data))
  {
  }

  lemma {:induction false} BuffersWhileBegun(lib: Library, w: Writer, parts: seq<Bytes>)
    requires w.state == SendBegin && !lib.isChunked(w.response.headers)
    ensures Run(lib, w, BodyCalls(parts)) ==
              w.(response := w.response.(body := w.response.body + Concat(parts)))
  {
    if parts == [] {
      assert w.response.body + [] == w.response.body;
    } else {
      var front, last := parts[..|parts| - 1], parts[|parts| - 1];
      BuffersWhileBegun(lib, w, front);
      LastBodyCall(lib, w, parts);
      BuffersOne(lib, w, w.response.body + Concat(front), last);
      Associative(w.response.body, Concat(front), last);
    }
  }

  lemma {:induction false} StreamsAfterHeaders(lib: Library, w: Writer, parts: seq<Bytes>)
    requires w.state == SendHeader && Writable(w.link) && !lib.isChunked(w.response.headers)
    ensures var w' := Run(lib, w, BodyCalls(parts));
            && Wire(lib, w'.out) == Wire(lib, w.out) + Concat(parts)
            && w' == w.(out := w'.out, state := if parts == [] then SendHeader else SendBody)
  {
    if parts == [] {
      assert Wire(lib, w.out) + [] == Wire(lib, w.out);
    } else {
      var front, last := parts[..|parts| - 1], parts[|parts| - 1];
      StreamsAfterHeaders(lib, w, front);
      LastBodyCall(lib, w, parts);
      WireAppend(lib, Run(lib, w, BodyCalls(front)).out, Raw(last));
      Associative(Wire(lib, w.out), Concat(front), last);
    }
  }

  /** Body writes, EndHeaders, more body writes, End. */
  function SplitRun(
      lib: Library, w0: Writer, header: (string, string), before: seq<Bytes>, after: seq<Bytes>): Writer
  {
    var w1 := EndHeadersStep(Run(lib, w0, BodyCalls(before)), Some(header));
    EndStep(lib, Run(lib, w1, BodyCalls(after)), None)
  }

  /** The response whose header block that run prints. */
  function SplitResponse(r: Response, header: (string, string), before: seq<Bytes>): Response {
    r.(body := r.body + Concat(before), headers := r.headers[header.0 := header.1])
  }

  lemma EndPlain(lib: Library, w: Writer)
    requires w.link.Connected? && !w.ended && (w.state == SendHeader || w.state == SendBody)
    ensures Wire(lib, EndStep(lib, w, None).out) ==
              Wire(lib, w.out) + if w.state == SendHeader then w.response.body else []
  {
    WireAppend(lib, w.out, Raw(w.response.body));
    assert Wire(lib, w.out) + [] == Wire(lib, w.out);
  }

  lemma SplitRunOnWire(lib: Library, r: Response, header: (string, string), before: seq<Bytes>, after: seq<Bytes>)
    requires r.body == []
    requires !lib.isChunked(r.headers) && !lib.isChunked(r.headers[header.0 := header.1])
    ensures Wire(lib, SplitRun(lib, New(r), header, before, after).out) ==
              lib.headerBlock(SplitResponse(r, header, before))
              + (if after == [] then Concat(before) else Concat(after))
  {
    var w0 := New(r);
    BuffersWhileBegun(lib, w0, before);
    var w1 := EndHeadersStep(Run(lib, w0, BodyCalls(before)), Some(header));
    HeadAloneOnWire(lib, w1, w1.response);
    StreamsAfterHeaders(lib, w1, after);
    EndPlain(lib, Run(lib, w1, BodyCalls(after)));
    var head := lib.headerBlock(w1.response);
    assert [] + Concat(before) == Concat(before);
    assert head + Concat(after) + [] == head + Concat(after);
    if after == [] {
      assert head + [] == head;
    }
  }

  /**
    Any body writes before EndHeaders, any after it: what the client gets as body is all of it
    exactly if one side is empty; otherwise what was written before EndHeaders is lost.
   */
  lemma NewSplit(
      lib: Library, r: Response, header: (string, string), before: seq<Bytes>, after: seq<Bytes>)
    requires r.body == []
    requires !lib.isChunked(r.headers) && !lib.isChunked(r.headers[header.0 := header.1])
    ensures var wire := Wire(lib, SplitRun(lib, New(r), header, before, after).out);
            var head := lib.headerBlock(SplitResponse(r, header, before));
            && wire == head + (if after == [] then Concat(before) else Concat(after))
            && ((wire == head + (Concat(before) + Concat(after))) <==> (after == [] || Concat(before) == []))
  {
    SplitRunOnWire(lib, r, header, before, after);
    LongerDiffers(lib.headerBlock(SplitResponse(r, header, before)), Concat(before), Concat(after));
    assert Concat(before) + [] == Concat(before);
  }

  lemma LongerDiffers(head: Bytes, a: Bytes, b: Bytes)
    ensures head + b == head + (a + b) <==> a == []
  {
    assert a == [] ==> a + b == b;
    assert |head + (a + b)| == |head| + |a| + |b|;
  }

  /** Body writes without EndHeaders: End prints the header block of the whole and then the whole. */
  lemma NewWholeBody(lib: Library, r: Response, parts: seq<Bytes>)
    requires r.body == [] && !lib.isChunked(r.headers)
    ensures var w0 := New(r);
            var w := EndStep(lib, Run(lib, w0, BodyCalls(parts)), None);
            w.out == [Head(r.(body := Concat(parts))), Raw(Concat(parts))]
  {
    BuffersWhileBegun(lib, New(r), parts);
    assert [] + Concat(parts) == Concat(parts);
  }

  // ---------- When buffered body bytes are lost ----------

  /** The bytes written outside header blocks. */
  function Raws(out: seq<Piece>): Bytes {
    if out == [] then []
    else Raws(out[..|out| - 1]) + if out[|out| - 1].Raw? then out[|out| - 1].bytes else []
  }

  lemma RawsAppend(out: seq<Piece>, piece: Piece)
    ensures Raws(out + [piece]) == Raws(out) + if piece.Raw? then piece.bytes else []
  {
    assert (out + [piece])[..|out|] == out;
  }

  /** Two writers that differ in the buffered body alone, and in the header blocks printed from it. */
  ghost predicate SameButBody(w1: Writer, w2: Writer) {
    && w1.link == w2.link && Writable(w1.link)
    && w1.state == w2.state && w1.ended == w2.ended && Raws(w1.out) == Raws(w2.out)
    && w1.response == w2.response.(body := w1.response.body)
  }

  lemma SameWrite(w1: Writer, w2: Writer, p1: Piece, p2: Piece)
    requires SameButBody(w1, w2) && (p1 == p2 || (p1.Head? && p2.Head?))
    ensures SameButBody(Write(w1, p1), Write(w2, p2))
  {
    RawsAppend(w1.out, p1);
    RawsAppend(w2.out, p2);
  }

  lemma SameEndHeaders(w1: Writer, w2: Writer, header: Option<(string, string)>)
    requires SameButBody(w1, w2)
    ensures SameButBody(EndHeadersStep(w1, header), EndHeadersStep(w2, header))
    ensures EndHeadersStep(w1, header).response.body == w1.response.body
  {
    if w1.state == SendBegin {
      var r1, r2 := EndHeadersStep(w1, header).response, EndHeadersStep(w2, header).response;
      SameWrite(w1.(response := r1, state := SendHeader), w2.(response := r2, state := SendHeader), Head(r1), Head(r2));
    }
  }

  lemma SameChunk(w1: Writer, w2: Writer, data: Option<Bytes>)
    requires SameButBody(w1, w2)
    ensures SameButBody(WriteChunkedStep(w1, data), WriteChunkedStep(w2, data))
    ensures WriteChunkedStep(w1, data).response.body == w1.response.body
  {
    SameEndHeaders(w1, w2, Some(CHUNKED_HEADER));
    var v1 := if w1.state == SendBegin then EndHeadersStep(w1, Some(CHUNKED_HEADER)) else w1;
    var v2 := if w2.state == SendBegin then EndHeadersStep(w2, Some(CHUNKED_HEADER)) else w2;
    SameChunkBytes(v1, v2, Given(data));
  }

  lemma SameChunkBytes(w1: Writer, w2: Writer, bytes: Bytes)
    requires SameButBody(w1, w2)
    ensures SameButBody(ChunkBytes(w1, bytes), ChunkBytes(w2, bytes))
  {
    var size := Raw(Hex(|bytes|) + CRLF);
    SameWrite(w1, w2, size, size);
    var v1, v2 := Write(w1, size).(state := SendChunked), Write(w2, size).(state := SendChunked);
    SameWrite(v1, v2, Raw(bytes), Raw(bytes));
    if bytes != [] {
      SameWrite(Write(v1, Raw(bytes)), Write(v2, Raw(bytes)), Raw(CRLF), Raw(CRLF));
    } else {
      SameWrite(v1.(state := SendChunkedEnd), v2.(state := SendChunkedEnd), Raw(CRLF), Raw(CRLF));
    }
  }

  lemma SameBody(lib: Library, w1: Writer, w2: Writer, data: Bytes)
    requires SameButBody(w1, w2)
    ensures SameButBody(WriteBodyStep(lib, w1, data), WriteBodyStep(lib, w2, data))
    ensures BodyGap(WriteBodyStep(lib, w1, data), WriteBodyStep(lib, w2, data)) == BodyGap(w1, w2)
  {
    SameChunk(w1, w2, Some(data));
    SameChunk(w2, w1, Some(data));
    SameStream(w1, w2, data);
  }

  /** How much longer the first buffer is. */
  function BodyGap(w1: Writer, w2: Writer): int {
    |w1.response.body| - |w2.response.body|
  }

  /** No call reveals the buffered body: the writers stay the same but for it. */
  lemma SameDo(lib: Library, w1: Writer, w2: Writer, c: Call)
    requires SameButBody(w1, w2) && !c.Edit?
    ensures SameButBody(Do(lib, w1, c), Do(lib, w2, c))
    ensures BodyGap(Do(lib, w1, c), Do(lib, w2, c)) == BodyGap(w1, w2)
  {
    match c
    case WriteStatus(_) =>
    case WriteHeader(_, _) =>
    case WriteCookie(_) =>
    case EndHeaders(h) => SameEndHeaders(w1, w2, h); SameEndHeaders(w2, w1, h);
    case WriteChunked(d) => SameChunk(w1, w2, d); SameChunk(w2, w1, d);
    case WriteBody(b) => SameBody(lib, w1, w2, b);
    case WriteResponse(r) => SameWhole(w1, w2, r);
    case SSEvent(data, event) => SameEvent(w1, w2, data, event);
  }

  lemma SameWhole(w1: Writer, w2: Writer, r: Option<Response>)
    requires SameButBody(w1, w2)
    ensures SameButBody(WriteResponseStep(w1, r), WriteResponseStep(w2, r))
    ensures BodyGap(WriteResponseStep(w1, r), WriteResponseStep(w2, r)) == BodyGap(w1, w2)
  {
    if r.Some? {
      SameDump(w1, w2, r.value, r.value, w1.state == SendBegin);
    }
  }

  lemma SameDump(w1: Writer, w2: Writer, r1: Response, r2: Response, withHead: bool)
    requires SameButBody(w1, w2) && r1.body == r2.body
    ensures SameButBody(WriteDump(w1, r1, withHead, true), WriteDump(w2, r2, withHead, true))
  {
    SameWrite(w1, w2, Head(r1), Head(r2));
    var v1 := if withHead then Write(w1, Head(r1)) else w1;
    var v2 := if withHead then Write(w2, Head(r2)) else w2;
    SameWrite(v1, v2, Raw(r1.body), Raw(r2.body));
  }

  lemma SameEvent(w1: Writer, w2: Writer, data: Bytes, event: Bytes)
    requires SameButBody(w1, w2)
    ensures SameButBody(SSEventStep(w1, data, event), SSEventStep(w2, data, event))
    ensures BodyGap(SSEventStep(w1, data, event), SSEventStep(w2, data, event)) == BodyGap(w1, w2)
  {
    SameEndHeaders(w1, w2, Some(SSE_HEADER));
    SameEndHeaders(w2, w1, Some(SSE_HEADER));
    var v1 := if w1.state == SendBegin then EndHeadersStep(w1, Some(SSE_HEADER)) else w1;
    var v2 := if w2.state == SendBegin then EndHeadersStep(w2, Some(SSE_HEADER)) else w2;
    SameStream(v1, v2, EventMessage(data, event));
  }

  lemma SameStream(w1: Writer, w2: Writer, bytes: Bytes)
    requires SameButBody(w1, w2)
    ensures var s1, s2 := Write(w1.(state := SendBody), Raw(bytes)), Write(w2.(state := SendBody), Raw(bytes));
            SameButBody(s1, s2) && s1.response == w1.response && s2.response == w2.response
  {
    SameWrite(w1.(state := SendBody), w2.(state := SendBody), Raw(bytes), Raw(bytes));
  }

  lemma {:induction false} SameRun(lib: Library, w1: Writer, w2: Writer, calls: seq<Call>)
    requires SameButBody(w1, w2)
    requires forall i :: 0 <= i < |calls| ==> !calls[i].Edit?
    ensures SameButBody(Run(lib, w1, calls), Run(lib, w2, calls))
    ensures BodyGap(Run(lib, w1, calls), Run(lib, w2, calls)) == BodyGap(w1, w2)
    decreases |calls|
  {
    if calls != [] {
      var before := calls[..|calls| - 1];
      SameRun(lib, w1, w2, before);
      SameDo(lib, Run(lib, w1, before), Run(lib, w2, before), calls[|calls| - 1]);
    }
  }

  lemma SameClosed(w1: Writer, w2: Writer, data: Option<Bytes>)
    requires SameButBody(w1, w2)
    ensures SameButBody(ChunksClosed(w1, data), ChunksClosed(w2, data))
  {
    SameChunk(w1, w2, data);
    SameChunk(w1, w2, None);
    SameChunk(WriteChunkedStep(w1, data), WriteChunkedStep(w2, data), None);
  }

  lemma EndHidesBuffer(lib: Library, w1: Writer, w2: Writer, data: Option<Bytes>)
    requires SameButBody(w1, w2) && w1.link.Connected? && !w1.ended && LosesBuffer(lib, w1, data)
    ensures Raws(EndStep(lib, w1, data).out) == Raws(EndStep(lib, w2, data).out)
  {
    var v1, v2 := w1.(ended := true), w2.(ended := true);
    if w1.state == SendChunked {
      EndByChunks(lib, w1, data);
      EndByChunks(lib, w2, data);
      SameClosed(v1, v2, data);
    } else {
      EndByBuffer(lib, w1, data);
      EndByBuffer(lib, w2, data);
      if data.Some? {
        SameBody(lib, v1, v2, data.value);
      }
    }
  }

  lemma DumpRaws(w: Writer, r: Response, withHead: bool)
    requires Writable(w.link)
    ensures Raws(WriteDump(w, r, withHead, true).out) == Raws(w.out) + r.body
  {
    RawsAppend(w.out, Head(r));
    var w1 := if withHead then Write(w, Head(r)) else w;
    assert Raws(w.out) + [] == Raws(w.out);
    RawsAppend(w1.out, Raw(r.body));
  }

  lemma EndShowsBuffer(lib: Library, w1: Writer, w2: Writer, data: Option<Bytes>)
    requires SameButBody(w1, w2) && w1.link.Connected? && !w1.ended && !LosesBuffer(lib, w1, data)
    ensures |Raws(EndStep(lib, w1, data).out)| - |Raws(EndStep(lib, w2, data).out)| == BodyGap(w1, w2)
  {
    EndByBuffer(lib, w1, data);
    EndByBuffer(lib, w2, data);
    var v1, v2 := w1.(ended := true), w2.(ended := true);
    if data.Some? {
      SameBody(lib, v1, v2, data.value);
    }
    var d1, d2 := BeforeDump(lib, w1, data), BeforeDump(lib, w2, data);
    DumpRaws(d1, d1.response, d1.state != SendHeader);
    DumpRaws(d2, d2.response, d2.state != SendHeader);
  }

  /**
    A WriteBody that is buffered, then any calls, then End: what the client gets outside header
    blocks is as if the write had never been made exactly if it wrote nothing or LosesBuffer holds.
   */
  lemma BufferedWriteIsLostIff(lib: Library, w: Writer, written: Bytes, calls: seq<Call>, data: Option<Bytes>)
    requires w.link.Connected? && !w.ended && w.state == SendBegin && !lib.isChunked(w.response.headers)
    requires forall i :: 0 <= i < |calls| ==> !calls[i].Edit?
    ensures var with := Run(lib, WriteBodyStep(lib, w, written), calls);
            var without := Run(lib, w, calls);
            (Raws(EndStep(lib, with, data).out) == Raws(EndStep(lib, without, data).out))
              <==> (written == [] || LosesBuffer(lib, without, data))
  {
    var w1 := WriteBodyStep(lib, w, written);
    SameRun(lib, w1, w, calls);
    RunKeepsLink(lib, w1, calls);
    var with, without := Run(lib, w1, calls), Run(lib, w, calls);
    if written == [] {
      assert w.response.body + [] == w.response.body;
    } else if LosesBuffer(lib, without, data) {
      EndHidesBuffer(lib, with, without, data);
    } else {
      EndShowsBuffer(lib, with, without, data);
    }
  }

  lemma {:induction false} RunKeepsLink(lib: Library, w: Writer, calls: seq<Call>)
    ensures Run(lib, w, calls).link == w.link && Run(lib, w, calls).ended == w.ended
    decreases |calls|
  {
    if calls != [] {
      RunKeepsLink(lib, w, calls[..|calls| - 1]);
      DoKeepsLink(lib, Run(lib, w, calls[..|calls| - 1]), calls[|calls| - 1]);
    }
  }

  lemma DoKeepsLink(lib: Library, w: Writer, c: Call)
    ensures Do(lib, w, c).link == w.link && Do(lib, w, c).ended == w.ended
  {
    match c
    case WriteChunked(d) => ChunkKeepsLink(w, d);
    case WriteBody(b) => ChunkKeepsLink(w, Some(b));
    case SSEvent(data, event) => assert EndHeadersStep(w, Some(SSE_HEADER)).link == w.link;
    case _ =>
  }

  lemma ChunkKeepsLink(w: Writer, data: Option<Bytes>)
    ensures WriteChunkedStep(w, data).link == w.link && WriteChunkedStep(w, data).ended == w.ended
  {
    var w1 := if w.state == SendBegin then EndHeadersStep(w, Some(CHUNKED_HEADER)) else w;
    assert WriteChunkedStep(w, data) == ChunkBytes(w1, Given(data));
  }

  // ---------- The class ----------

  class HttpResponseWriter {
    const lib: Library
    var state: State
    var ended: bool
    var response: Response
    var link: Link
    var out: seq<Piece>

    ghost function View(): Writer
      reads this
    {
      Writer(state, ended, response, link, out)
    }

    constructor (lib: Library, response: Response, link: Link)
      ensures this.lib == lib && View() == Writer(SendBegin, false, response, link, [])
    {
      this.lib, this.response, this.link := lib, response, link;
      state, ended, out := SendBegin, false, [];
    }

    method Put(piece: Piece)
      modifies this`out
      ensures View() == Write(old(View()), piece)
    {
      if link.Opened? || link.Connecting? || link.Connected? {
        out := out + [piece];
      }
    }

    method PutDump(r: Response, withHead: bool, withBody: bool)
      modifies this`out
      ensures View() == WriteDump(old(View()), r, withHead, withBody)
    {
      if withHead {
        Put(Head(r));
      }
      if withBody {
        Put(Raw(r.body));
      }
    }

    method Begin()
      modifies this`state, this`ended
      ensures View() == BeginStep(old(View()))
    {
      state, ended := SendBegin, false;
    }

    method WriteStatus(status: int)
      modifies this`response
      ensures View() == Do(lib, old(View()), Call.WriteStatus(status))
    {
      response := response.(status := status);
    }

    method WriteHeader(key: string, value: string)
      modifies this`response
      ensures View() == Do(lib, old(View()), Call.WriteHeader(key, value))
    {
      response := response.(headers := response.headers[key := value]);
    }

    method WriteCookie(cookie: string)
      modifies this`response
      ensures View() == Do(lib, old(View()), Call.WriteCookie(cookie))
    {
      response := response.(cookies := response.cookies + [cookie]);
    }

    method EndHeaders(header: Option<(string, string)>)
      modifies this`state, this`response, this`out
      ensures View() == EndHeadersStep(old(View()), header)
    {
      if state != SendBegin {
        return;
      }
      if header.Some? {
        response := response.(headers := response.headers[header.value.0 := header.value.1]);
      }
      state := SendHeader;
      PutDump(response, true, false);
    }

    method WriteChunked(data: Option<Bytes>)
      modifies this`state, this`response, this`out
      ensures View() == WriteChunkedStep(old(View()), data)
    {
      if state == SendBegin {
        EndHeaders(Some(CHUNKED_HEADER));
      }
      var bytes := Given(data);
      Put(Raw(Hex(|bytes|) + CRLF));
      if bytes != [] {
        state := SendChunked;
        Put(Raw(bytes));
      } else {
        state := SendChunkedEnd;
      }
      Put(Raw(CRLF));
    }

    method WriteBody(data: Bytes)
      modifies this`state, this`response, this`out
      ensures View() == WriteBodyStep(lib, old(View()), data)
    {
      if lib.isChunked(response.headers) {
        WriteChunked(Some(data));
        return;
      }
      if state == SendBegin {
        response := response.(body := response.body + data);
      } else {
        state := SendBody;
        Put(Raw(data));
      }
    }

    method WriteResponse(r: Option<Response>)
      modifies this`state, this`response, this`out
      ensures View() == WriteResponseStep(old(View()), r)
    {
      if r.None? {
        response := response.(status := 500);
        return;
      }
      PutDump(r.value, state == SendBegin, true);
      state := SendBody;
    }

    method SSEvent(data: Bytes, event: Bytes)
      modifies this`state, this`response, this`out
      ensures View() == SSEventStep(old(View()), data, event)
    {
      if state == SendBegin {
        EndHeaders(Some(SSE_HEADER));
      }
      var message := Text("event: ") + event + Text("\n");
      message := message + Text("data: ") + data + Text("\n\n");
      assert message == EventMessage(data, event);
      state := SendBody;
      Put(Raw(message));
    }

    method End(data: Option<Bytes>)
      modifies this`state, this`ended, this`response, this`link, this`out
      ensures View() == EndStep(lib, old(View()), data)
    {
      if ended {
        return;
      }
      ended := true;
      if link != Connected {
        return;
      }
      var keepAlive := lib.isKeepAlive(response.headers);
      if state == SendChunked {
        if data.Some? {
          WriteChunked(data);
        }
        if state == SendChunked {
          WriteChunked(None);
        }
      } else {
        if data.Some? {
          WriteBody(data.value);
        }
        if state != SendBody {
          PutDump(response, state != SendHeader, true);
          state := SendBody;
        }
      }
      if !keepAlive {
        link := Closed;
      }
    }
  }
}
