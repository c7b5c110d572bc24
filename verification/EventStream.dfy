/**
  The event stream format of section 9.2.6 of the HTML Standard: how `SSEvent` prints an event, and
  an independent parser for the fields event and data.
 */
module EventStream {
  import opened Wrappers
  import opened Chunked

  /** The bytes of an ASCII literal. */
  function Text(s: string): Bytes {
    seq(|s|, i requires 0 <= i < |s| => (s[i] as int % 256) as byte)
  }

  function EventMessage(data: Bytes, event: Bytes): Bytes {
    Text("event: ") + event + Text("\n") + Text("data: ") + data + Text("\n\n")
  }

  // ---------- Parsing ----------

  const COLON: byte := 58
  const SPACE: byte := 32

  /** How many bytes there are before the end of the line. */
  function LineLength(bs: Bytes): (n: nat)
    ensures n <= |bs|
    ensures forall i :: 0 <= i < n ==> bs[i] != CR && bs[i] != LF
    ensures n < |bs| ==> bs[n] == CR || bs[n] == LF
  {
    if bs == [] || bs[0] == CR || bs[0] == LF then 0 else 1 + LineLength(bs[1..])
  }

  /** What follows the line: CR, LF and CR LF end one. */
  function AfterLine(bs: Bytes): (rest: Bytes)
    requires LineLength(bs) < |bs|
    ensures LineLength(bs) + 1 + |rest| <= |bs|
  {
    var n := LineLength(bs);
    if bs[n] == CR && n + 1 < |bs| && bs[n + 1] == LF then bs[n + 2..] else bs[n + 1..]
  }

  function FieldLength(line: Bytes): (n: nat)
    ensures n <= |line|
  {
    if line == [] || line[0] == COLON then 0 else 1 + FieldLength(line[1..])
  }

  /** What follows the colon, without one leading space; nothing if there is no colon. */
  function FieldValue(line: Bytes): (value: Bytes)
    ensures FieldLength(line) + |value| <= |line|
    ensures forall i :: 0 <= i < |value| ==> value[i] in line
  {
    var n := FieldLength(line);
    if n == |line| then []
    else if n + 1 < |line| && line[n + 1] == SPACE then line[n + 2..]
    else line[n + 1..]
  }

  datatype Event = Event(name: Bytes, data: Bytes)

  /** The buffers of the parser, changed by one line. */
  function Field(line: Bytes, buffer: Event): Event {
    var name := line[..FieldLength(line)];
    if name == Text("event") then buffer.(name := FieldValue(line))
    else if name == Text("data") then buffer.(data := buffer.data + FieldValue(line) + [LF])
    else buffer
  }

  const EMPTY := Event([], [])

  /** The next event and what follows it; None if the stream ends before. An event without data is none. */
  function NextEvent(bs: Bytes, buffer: Event): Option<(Event, Bytes)>
    decreases |bs|
  {
    var n := LineLength(bs);
    if n == |bs| then None
    else if n > 0 then NextEvent(AfterLine(bs), Field(bs[..n], buffer))
    else if buffer.data == [] then NextEvent(AfterLine(bs), EMPTY)
    else Some((Event(buffer.name, buffer.data[..|buffer.data| - 1]), AfterLine(bs)))
  }

  // ---------- What is printed reads back ----------

  predicate OneLine(bs: Bytes) {
    forall i :: 0 <= i < |bs| ==> bs[i] != CR && bs[i] != LF
  }

  lemma {:induction false} LineIs(line: Bytes, rest: Bytes)
    requires OneLine(line)
    ensures LineLength(line + [LF] + rest) == |line| && AfterLine(line + [LF] + rest) == rest
  {
    if line == [] {
      assert ([LF] + rest)[1..] == rest;
    } else {
      LineIs(line[1..], rest);
      assert (line + [LF] + rest)[1..] == line[1..] + [LF] + rest;
    }
  }

  lemma {:induction false} FieldIs(name: Bytes, value: Bytes)
    requires forall i :: 0 <= i < |name| ==> name[i] != COLON
    ensures var line := name + [COLON, SPACE] + value;
            FieldLength(line) == |name| && FieldValue(line) == value && line[..|name|] == name
  {
    var line := name + [COLON, SPACE] + value;
    if name != [] {
      FieldIs(name[1..], value);
      assert line[1..] == name[1..] + [COLON, SPACE] + value;
    }
    assert FieldLength(line) == |name|;
    assert line[|name| + 2..] == value;
  }

  /** One line with a field, as the writer prints it. */
  function FieldLine(name: Bytes, value: Bytes): Bytes {
    name + [COLON, SPACE] + value
  }

  lemma ReadField(name: Bytes, value: Bytes, rest: Bytes, buffer: Event)
    requires name == Text("event") || name == Text("data")
    requires OneLine(value)
    ensures NextEvent(FieldLine(name, value) + [LF] + rest, buffer) ==
              NextEvent(rest, if name == Text("event") then buffer.(name := value)
                              else buffer.(data := buffer.data + value + [LF]))
  {
    var line := FieldLine(name, value);
    FieldIs(name, value);
    assert OneLine(line);
    LineIs(line, rest);
    assert (line + [LF] + rest)[..|line|] == line;
  }

  lemma MessageLines(data: Bytes, event: Bytes, rest: Bytes)
    ensures EventMessage(data, event) + rest ==
              FieldLine(Text("event"), event) + [LF] + (FieldLine(Text("data"), data) + [LF] + ([LF] + rest))
  {
    assert Text("event: ") == Text("event") + [COLON, SPACE];
    assert Text("data: ") == Text("data") + [COLON, SPACE];
    assert Text("\n") == [LF] && Text("\n\n") == [LF] + [LF];
  }

  lemma ReadBlank(rest: Bytes, buffer: Event)
    requires buffer.data != []
    ensures NextEvent([LF] + rest, buffer) == Some((Event(buffer.name, buffer.data[..|buffer.data| - 1]), rest))
  {
    LineIs([], rest);
    assert [] + [LF] + rest == [LF] + rest;
  }

  /** An event of single lines reads back, and exactly its bytes are used. */
  lemma LinesReadBack(data: Bytes, event: Bytes, rest: Bytes)
    requires OneLine(data) && OneLine(event)
    ensures NextEvent(EventMessage(data, event) + rest, EMPTY) == Some((Event(event, data), rest))
  {
    MessageLines(data, event, rest);
    ReadField(Text("event"), event, FieldLine(Text("data"), data) + [LF] + ([LF] + rest), EMPTY);
    ReadField(Text("data"), data, [LF] + rest, Event(event, []));
    ReadBlank(rest, Event(event, [] + data + [LF]));
    assert ([] + data + [LF])[..|data|] == data;
  }

  // ---------- Line ends in an event ----------

  /** A name the parser finds is a single line, unless it was there before. */
  lemma {:induction false} NameIsALine(bs: Bytes, buffer: Event)
    requires OneLine(buffer.name) && NextEvent(bs, buffer).Some?
    ensures OneLine(NextEvent(bs, buffer).value.0.name)
    decreases |bs|
  {
    var n := LineLength(bs);
    if n > 0 {
      FieldKeepsLines(bs[..n], buffer);
      NameIsALine(AfterLine(bs), Field(bs[..n], buffer));
    } else if buffer.data == [] {
      NameIsALine(AfterLine(bs), EMPTY);
    }
  }

  predicate NoReturn(bs: Bytes) {
    forall i :: 0 <= i < |bs| ==> bs[i] != CR
  }

  lemma FieldKeepsLines(line: Bytes, buffer: Event)
    requires OneLine(line)
    ensures OneLine(buffer.name) ==> OneLine(Field(line, buffer).name)
    ensures NoReturn(buffer.data) ==> NoReturn(Field(line, buffer).data)
    ensures |Field(line, buffer).data| <= |buffer.data| + |line| - 3 || Field(line, buffer).data == buffer.data
  {
    assert OneLine(FieldValue(line));
  }

  /** Data the parser finds has no CR in it. */
  lemma {:induction false} DataHasNoReturn(bs: Bytes, buffer: Event)
    requires NoReturn(buffer.data) && NextEvent(bs, buffer).Some?
    ensures NoReturn(NextEvent(bs, buffer).value.0.data)
    decreases |bs|
  {
    var n := LineLength(bs);
    if n > 0 {
      FieldKeepsLines(bs[..n], buffer);
      DataHasNoReturn(AfterLine(bs), Field(bs[..n], buffer));
    } else if buffer.data == [] {
      DataHasNoReturn(AfterLine(bs), EMPTY);
    }
  }

  /** Either no further data line is read, or the data is shorter than what was read for it. */
  lemma {:induction false} FurtherDataIsShort(bs: Bytes, buffer: Event)
    requires buffer.data != [] && NextEvent(bs, buffer).Some?
    ensures var (ev, rest) := NextEvent(bs, buffer).value;
            || (ev.data == buffer.data[..|buffer.data| - 1] && |rest| < |bs|)
            || |ev.data| + |rest| + 5 <= |buffer.data| + |bs|
    decreases |bs|
  {
    var n := LineLength(bs);
    if n > 0 {
      FieldKeepsLines(bs[..n], buffer);
      FurtherDataIsShort(AfterLine(bs), Field(bs[..n], buffer));
    }
  }

  /** The data up to its first line feed and behind it. */
  lemma SplitAtLine(data: Bytes) returns (first: Bytes, more: Bytes)
    requires NoReturn(data) && !OneLine(data)
    ensures OneLine(first) && data == first + [LF] + more
  {
    var n := LineLength(data);
    first, more := data[..n], data[n + 1..];
  }

  /** Data of several lines is cut off at its first, or loses the field names in it. */
  lemma SeveralLinesDiffer(data: Bytes, event: Bytes, rest: Bytes)
    requires OneLine(event) && NoReturn(data) && !OneLine(data)
    ensures NextEvent(EventMessage(data, event) + rest, EMPTY) != Some((Event(event, data), rest))
  {
    var first, more := SplitAtLine(data);
    var behind := more + [LF] + ([LF] + rest);
    MessageLines(data, event, rest);
    assert FieldLine(Text("data"), data) + [LF] + ([LF] + rest) == FieldLine(Text("data"), first) + [LF] + behind;
    ReadField(Text("event"), event, FieldLine(Text("data"), first) + [LF] + behind, EMPTY);
    ReadField(Text("data"), first, behind, Event(event, []));
    var buffer := Event(event, [] + first + [LF]);
    if NextEvent(behind, buffer).Some? {
      FurtherDataIsShort(behind, buffer);
      assert buffer.data[..|buffer.data| - 1] == first;
    }
  }

  /** What is printed reads back as that event exactly if neither its name nor its data has a line end in it. */
  lemma ReadsBackIffLines(data: Bytes, event: Bytes, rest: Bytes)
    ensures NextEvent(EventMessage(data, event) + rest, EMPTY) == Some((Event(event, data), rest)) <==>
              OneLine(data) && OneLine(event)
  {
    var read := NextEvent(EventMessage(data, event) + rest, EMPTY);
    if OneLine(data) && OneLine(event) {
      LinesReadBack(data, event, rest);
    } else if read.Some? {
      NameIsALine(EventMessage(data, event) + rest, EMPTY);
      DataHasNoReturn(EventMessage(data, event) + rest, EMPTY);
      if OneLine(event) && NoReturn(data) {
        SeveralLinesDiffer(data, event, rest);
      }
    }
  }

  // ---------- Streams ----------

  function Messages(events: seq<Event>): Bytes {
    if events == [] then [] else EventMessage(events[0].data, events[0].name) + Messages(events[1..])
  }

  /** All events of a stream, up to where no further one is complete. */
  function ParseStream(bs: Bytes): (events: seq<Event>)
    decreases |bs|
  {
    match NextEvent(bs, EMPTY)
    case None => []
    case Some((event, rest)) =>
      NextEventUses(bs, EMPTY);
      [event] + ParseStream(rest)
  }

  lemma {:induction false} NextEventUses(bs: Bytes, buffer: Event)
    requires NextEvent(bs, buffer).Some?
    ensures |NextEvent(bs, buffer).value.1| < |bs|
    decreases |bs|
  {
    var n := LineLength(bs);
    if n > 0 {
      NextEventUses(AfterLine(bs), Field(bs[..n], buffer));
    } else if buffer.data == [] {
      NextEventUses(AfterLine(bs), EMPTY);
    }
  }

  /** Events of single lines, printed one after the other, read back as they were. */
  lemma {:induction false} StreamReadsBack(events: seq<Event>)
    requires forall i :: 0 <= i < |events| ==> OneLine(events[i].name) && OneLine(events[i].data)
    ensures ParseStream(Messages(events)) == events
  {
    if events != [] {
      LinesReadBack(events[0].data, events[0].name, Messages(events[1..]));
      StreamReadsBack(events[1..]);
    }
  }

  lemma {:induction false} MessagesJoin(a: seq<Event>, b: seq<Event>)
    ensures Messages(a + b) == Messages(a) + Messages(b)
  {
    if a == [] {
      assert a + b == b;
    } else {
      assert (a + b)[1..] == a[1..] + b;
      MessagesJoin(a[1..], b);
    }
  }
}
