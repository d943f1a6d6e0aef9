// What a streamed reply is read as (src/ws_collab/language_chat.py, `_sse`): the payloads of the events that were
// written, however they were written and however the stream is cut.
module StreamedEvents {
  import opened Sequences
  import SpeechChunks
  import opened ServerSentEvents

  /** A line of an event: data, with or without a space after the colon, or another field. A line may end in carriage
      returns. */
  datatype Line =
    | Data(text: string, space: bool, extra: nat)
    | Other(text: string, extra: nat)

  /** Without what would make it another line. */
  predicate LineOk(line: Line) {
    && '\n' !in line.text && (line.text == "" || line.text[|line.text| - 1] != '\r')
    && match line
       case Data(text, space, _) => !space ==> text == "" || text[0] != ' '
       case Other(text, _) => text != "" && !("data:" <= text)
  }

  function Returns(n: nat): string {
    seq(n, _ => '\r')
  }

  /** The line but for what ends it. */
  function Bare(line: Line): string {
    match line
    case Data(text, space, _) => "data:" + (if space then " " else "") + text
    case Other(text, _) => text
  }

  /** The line as it is written, but for its newline. */
  function Raw(line: Line): string {
    Bare(line) + Returns(line.extra)
  }

  function Lines(lines: seq<Line>): string {
    if lines == [] then "" else Raw(lines[0]) + "\n" + Lines(lines[1..])
  }

  /** An event is written as its lines and a blank line, which may hold carriage returns too. */
  datatype Event = Event(lines: seq<Line>, extra: nat)

  function Events(events: seq<Event>): string {
    if events == [] then "" else Lines(events[0].lines) + Returns(events[0].extra) + "\n" + Events(events[1..])
  }

  /** The data of an event, line by line. */
  function DataOf(lines: seq<Line>): seq<string> {
    if lines == [] then []
    else (if lines[0].Data? then [lines[0].text] else []) + DataOf(lines[1..])
  }

  /** An event within the limits: its lines and its data are not too long. */
  predicate LinesOk(lines: seq<Line>) {
    (forall line | line in lines :: LineOk(line) && |Raw(line)| <= MAX_LINE) && Total(DataOf(lines)) <= MAX_EVENT
  }

  predicate EventOk(event: Event) {
    LinesOk(event.lines) && event.extra <= MAX_LINE
  }

  // ---------------------------------------------------------------- line by line

  lemma {:induction false} ReturnsStripped(bare: string, n: nat)
    requires bare == "" || bare[|bare| - 1] != '\r'
    ensures WithoutReturns(bare + Returns(n)) == bare
  {
    var line := bare + Returns(n);
    if n == 0 {
      assert line == bare;
    } else {
      assert line[..|line| - 1] == bare + Returns(n - 1);
      ReturnsStripped(bare, n - 1);
    }
  }

  lemma RawIs(line: Line)
    requires LineOk(line)
    ensures forall i | 0 <= i < |Raw(line)| :: Raw(line)[i] != '\n'
    ensures Bare(line) != "" && WithoutReturns(Raw(line)) == Bare(line)
  {
    ReturnsStripped(Bare(line), line.extra);
    assert forall i | 0 <= i < |line.text| :: line.text[i] in line.text;
  }

  /** A line is received as what it was written for. */
  lemma {:induction false} LineReceived(h: Handler, event: seq<string>, sent: seq<string>, line: Line)
    requires LineOk(line) && Total(event + DataOf([line])) <= MAX_EVENT
    ensures Received(h, event, sent, Raw(line)) == Going(event + DataOf([line]), sent)
  {
    RawIs(line);
    assert [line][1..] == [];
    var raw := Bare(line);
    match line
    case Data(text, space, _) =>
      assert "data:" <= raw && DataOf([line]) == [text];
      assert space ==> raw[5] == ' ' && raw[6..] == text;
      assert !space ==> raw[5..] == text;
    case Other(text, _) => assert DataOf([line]) == [] && raw == text;
  }

  lemma {:induction false} LineRead(h: Handler, p: Progress, line: string, rest: string)
    requires p.Going? && forall i | 0 <= i < |line| :: line[i] != '\n'
    ensures Consume(h, p, line + "\n" + rest) == Consume(h, Received(h, p.event, p.sent, line), rest)
    ensures |line| <= MAX_LINE && ShortLines(h, Received(h, p.event, p.sent, line), rest) ==>
              ShortLines(h, p, line + "\n" + rest)
  {
    var text := line + "\n" + rest;
    NewlineIs(text, |line|);
    assert text[..|line|] == line && text[|line| + 1..] == rest;
    LineConsumed(h, p, text, |line|, line, rest);
  }

  lemma {:induction false} TotalConcat(a: seq<string>, b: seq<string>)
    ensures Total(a + b) == Total(a) + Total(b)
  {
    if a == [] {
      assert a + b == b;
    } else {
      assert (a + b)[1..] == a[1..] + b;
      TotalConcat(a[1..], b);
    }
  }

  lemma {:induction false} DataFirst(line: Line, rest: seq<Line>)
    ensures DataOf([line] + rest) == DataOf([line]) + DataOf(rest)
  {
    assert [line][1..] == [] && ([line] + rest)[1..] == rest;
  }

  /** The lines of an event leave their data to be dispatched. */
  lemma {:induction false} LinesRead(h: Handler, event: seq<string>, sent: seq<string>, lines: seq<Line>, rest: string)
    requires forall line | line in lines :: LineOk(line) && |Raw(line)| <= MAX_LINE
    requires Total(event + DataOf(lines)) <= MAX_EVENT
    ensures Consume(h, Going(event, sent), Lines(lines) + rest) == Consume(h, Going(event + DataOf(lines), sent), rest)
    ensures ShortLines(h, Going(event + DataOf(lines), sent), rest) ==>
              ShortLines(h, Going(event, sent), Lines(lines) + rest)
    decreases |lines|
  {
    if lines == [] {
      assert Lines(lines) + rest == rest && event + DataOf(lines) == event;
    } else {
      var line, more := lines[0], lines[1..];
      var data := event + DataOf([line]);
      assert lines == [line] + more;
      DataFirst(line, more);
      Associates(event, DataOf([line]), DataOf(more));
      TotalConcat(data, DataOf(more));
      LineReceived(h, event, sent, line);
      RawIs(line);
      assert Lines(lines) + rest == Raw(line) + "\n" + (Lines(more) + rest);
      LineRead(h, Going(event, sent), Raw(line), Lines(more) + rest);
      LinesRead(h, data, sent, more, rest);
    }
  }

  lemma {:induction false} TotalIs(lines: seq<string>)
    requires lines != []
    ensures Total(lines) + |lines| == |JoinedLines(lines)| + 1
  {
    if |lines| > 1 {
      TotalIs(lines[1..]);
    } else {
      assert lines[1..] == [];
    }
  }

  lemma {:induction false} OversizedRead(h: Handler, event: seq<string>, sent: seq<string>, lines: seq<Line>,
                                         rest: string)
    requires (forall line | line in lines :: LineOk(line)) && Total(event) <= MAX_EVENT < Total(event + DataOf(lines))
    ensures Consume(h, Going(event, sent), Lines(lines) + rest).progress == Over(sent, Failed(EventTooLarge))
    decreases |lines|
  {
    assert DataOf(lines) == [] ==> event + DataOf(lines) == event;
    if lines != [] {
      var line, more := lines[0], lines[1..];
      var data := event + DataOf([line]);
      assert lines == [line] + more && line in lines;
      DataFirst(line, more);
      Associates(event, DataOf([line]), DataOf(more));
      RawIs(line);
      assert Lines(lines) + rest == Raw(line) + "\n" + (Lines(more) + rest);
      LineRead(h, Going(event, sent), Raw(line), Lines(more) + rest);
      if Total(data) <= MAX_EVENT {
        LineReceived(h, event, sent, line);
        OversizedRead(h, data, sent, more, rest);
      } else {
        OversizedLine(h, event, sent, line);
      }
    }
  }

  lemma {:induction false} OversizedLine(h: Handler, event: seq<string>, sent: seq<string>, line: Line)
    requires LineOk(line) && Total(event) <= MAX_EVENT < Total(event + DataOf([line]))
    ensures Received(h, event, sent, Raw(line)) == Over(sent, Failed(EventTooLarge))
  {
    RawIs(line);
    assert [line][1..] == [];
    assert event + [] == event;
    var raw, text := Bare(line), line.text;
    assert line.Data? && DataOf([line]) == [text] && "data:" <= raw;
    assert line.space ==> raw[5] == ' ' && raw[6..] == text;
    assert !line.space ==> raw[5..] == text;
  }

  /** An event whose payload would be too long, its newlines not counted, ends the reading. */
  lemma {:induction false} OversizedFails(h: Handler, sent: seq<string>, lines: seq<Line>, rest: string)
    requires forall line | line in lines :: LineOk(line)
    requires DataOf(lines) != [] && |JoinedLines(DataOf(lines))| - (|DataOf(lines)| - 1) > MAX_EVENT
    ensures Whole(h, Going([], sent), Lines(lines) + rest) == Over(sent, Failed(EventTooLarge))
  {
    TotalIs(DataOf(lines));
    assert [] + DataOf(lines) == DataOf(lines);
    OversizedRead(h, [], sent, lines, rest);
  }

  /** An event is read and dispatched. */
  lemma {:induction false} EventRead(h: Handler, sent: seq<string>, event: Event, rest: string)
    requires EventOk(event)
    ensures var p := Dispatch(h, DataOf(event.lines), sent);
            && Consume(h, Going([], sent), Events([event]) + rest) == Consume(h, p, rest)
            && (ShortLines(h, p, rest) ==> ShortLines(h, Going([], sent), Events([event]) + rest))
  {
    var blank, data := Returns(event.extra) + "\n" + rest, DataOf(event.lines);
    EventText(event, rest);
    assert [] + data == data;
    LinesRead(h, [], sent, event.lines, blank);
    BlankRead(h, data, sent, event.extra, rest);
  }

  lemma EventText(event: Event, rest: string)
    ensures Events([event]) + rest == Lines(event.lines) + (Returns(event.extra) + "\n" + rest)
  {
    assert [event][1..] == [];
    assert Events([event]) == Lines(event.lines) + Returns(event.extra) + "\n" + "";
  }

  lemma {:induction false} BlankRead(h: Handler, data: seq<string>, sent: seq<string>, extra: nat, rest: string)
    requires extra <= MAX_LINE
    ensures var p := Dispatch(h, data, sent);
            && Consume(h, Going(data, sent), Returns(extra) + "\n" + rest) == Consume(h, p, rest)
            && (ShortLines(h, p, rest) ==> ShortLines(h, Going(data, sent), Returns(extra) + "\n" + rest))
  {
    ReturnsStripped("", extra);
    assert "" + Returns(extra) == Returns(extra);
    LineRead(h, Going(data, sent), Returns(extra), rest);
  }

  // ---------------------------------------------------------------- payloads

  /** An event that carries data other than one empty line. */
  predicate Sends(lines: seq<Line>) {
    DataOf(lines) != [] && DataOf(lines) != [""]
  }

  /** The payloads are, split into lines, the data of the events that carry any. `last` is the event at the end of the
      stream, which needs no blank line after it. */
  predicate Carries(events: seq<Event>, last: seq<Line>, payloads: seq<string>)
    decreases |events|
  {
    var lines := if events == [] then last else events[0].lines;
    && (Sends(lines) ==> payloads != [] && SplitLines(payloads[0]) == DataOf(lines))
    && var rest := if Sends(lines) then payloads[1..] else payloads;
       if events == [] then rest == [] else Carries(events[1..], last, rest)
  }

  lemma {:induction false} NoNewlineInData(lines: seq<Line>)
    requires forall line | line in lines :: LineOk(line)
    ensures forall data | data in DataOf(lines) :: '\n' !in data
  {
    if lines != [] {
      assert LineOk(lines[0]);
      assert forall line | line in lines[1..] :: line in lines;
      NoNewlineInData(lines[1..]);
    }
  }

  /** The first of several joined lines. */
  lemma {:induction false} FirstJoined(line: string, rest: string)
    requires '\n' !in line
    ensures SplitLines(line + "\n" + rest) == [line] + SplitLines(rest)
  {
    var text := line + "\n" + rest;
    assert forall i | 0 <= i < |line| :: text[i] == line[i] && line[i] in line;
    NewlineIs(text, |line|);
    assert text[..|line|] == line && text[|line| + 1..] == rest;
  }

  /** Lines joined by newlines split into the same lines. */
  lemma {:induction false} SplitJoined(lines: seq<string>)
    requires lines != [] && forall line | line in lines :: '\n' !in line
    ensures SplitLines(JoinedLines(lines)) == lines
    ensures JoinedLines(lines) == "" <==> lines == [""]
  {
    assert lines[0] in lines;
    if |lines| == 1 {
      assert forall i | 0 <= i < |lines[0]| :: lines[0][i] in lines[0];
      NoNewline(lines[0]);
    } else {
      SplitJoined(lines[1..]);
      FirstJoined(lines[0], JoinedLines(lines[1..]));
    }
  }

  /** A text is its lines joined by newlines. */
  lemma {:induction false} JoinedSplit(text: string)
    ensures JoinedLines(SplitLines(text)) == text
    decreases |text|
  {
    var n := Newline(text);
    if n < |text| {
      var line, rest := text[..n], text[n + 1..];
      JoinedSplit(rest);
      JoinedFirst(line, SplitLines(rest));
      assert text == line + "\n" + rest;
    }
  }

  lemma {:induction false} JoinedFirst(line: string, rest: seq<string>)
    requires rest != []
    ensures JoinedLines([line] + rest) == line + "\n" + JoinedLines(rest)
  {
    assert ([line] + rest)[1..] == rest;
  }

  /** There are always such payloads. */
  lemma {:induction false} PayloadsOf(events: seq<Event>, last: seq<Line>) returns (payloads: seq<string>)
    requires AllOk(events, last)
    ensures Carries(events, last, payloads)
    decreases |events|
  {
    var lines := if events == [] then last else events[0].lines;
    var rest := [];
    if events != [] {
      assert events[0] in events;
      rest := PayloadsOf(events[1..], last);
    }
    if Sends(lines) {
      NoNewlineInData(lines);
      SplitJoined(DataOf(lines));
      payloads := [JoinedLines(DataOf(lines))] + rest;
      assert payloads[1..] == rest;
    } else {
      payloads := rest;
    }
  }

  predicate AllOk(events: seq<Event>, last: seq<Line>) {
    (forall event | event in events :: EventOk(event)) && LinesOk(last)
  }

  /** The marker that ends a stream, or a payload on which the handler ends. */
  predicate EndsAt(h: Handler, payloads: seq<string>, k: nat)
    requires k < |payloads|
  {
    SpeechChunks.Strip(payloads[k]) == "[DONE]" || h(payloads[..k + 1]).Some?
  }

  predicate FirstEnd(h: Handler, payloads: seq<string>, k: nat)
    requires k < |payloads|
  {
    EndsAt(h, payloads, k) && forall j | 0 <= j < k :: !EndsAt(h, payloads, j)
  }

  /** Reading ends with the first payload that ends it, or else too early. */
  ghost predicate ReadsAs(h: Handler, payloads: seq<string>, r: Progress) {
    || (exists k | 0 <= k < |payloads| :: FirstEnd(h, payloads, k) && EndedAt(h, payloads, k, r))
    || ((forall k | 0 <= k < |payloads| :: !EndsAt(h, payloads, k)) && r == Over(payloads, Failed(EndedEarly)))
  }

  predicate EndedAt(h: Handler, payloads: seq<string>, k: nat, r: Progress)
    requires k < |payloads| && EndsAt(h, payloads, k)
  {
    r == Over(payloads[..k + 1],
              if SpeechChunks.Strip(payloads[k]) == "[DONE]" then Finished(Stop) else h(payloads[..k + 1]).value)
  }

  /** Dispatching an event gives its payload. */
  lemma {:induction false} EventDispatched(h: Handler, lines: seq<Line>, payloads: seq<string>, n: nat)
    requires LinesOk(lines) && n <= |payloads|
    requires Sends(lines) ==> n < |payloads| && SplitLines(payloads[n]) == DataOf(lines)
    ensures var p := Dispatch(h, DataOf(lines), payloads[..n]);
            if !Sends(lines) then p == Going([], payloads[..n])
            else if EndsAt(h, payloads, n) then p.Over? && EndedAt(h, payloads, n, p)
            else p == Going([], payloads[..n + 1])
  {
    if Sends(lines) {
      NoNewlineInData(lines);
      SplitJoined(DataOf(lines));
      JoinedSplit(payloads[n]);
      assert payloads[..n] + [payloads[n]] == payloads[..n + 1];
    }
  }

  /** These events are left to be read when the first n payloads have been dispatched. */
  predicate Left(h: Handler, events: seq<Event>, last: seq<Line>, payloads: seq<string>, n: nat) {
    && AllOk(events, last) && n <= |payloads| && Carries(events, last, payloads[n..])
    && forall k | 0 <= k < n :: !EndsAt(h, payloads, k)
  }

  /** Reading goes on with a text as it should. */
  ghost predicate GoesOn(h: Handler, payloads: seq<string>, n: nat, text: string)
    requires n <= |payloads|
  {
    ReadsAs(h, payloads, Whole(h, Going([], payloads[..n]), text)) && ShortLines(h, Going([], payloads[..n]), text)
  }

  /** The event at the end of the stream. */
  lemma {:induction false} LastRead(h: Handler, last: seq<Line>, payloads: seq<string>, n: nat)
    requires Left(h, [], last, payloads, n)
    ensures GoesOn(h, payloads, n, Lines(last))
  {
    LastDispatched(h, last, payloads[..n]);
    LastReadsAs(h, last, payloads, n, Dispatch(h, DataOf(last), payloads[..n]));
  }

  lemma {:induction false} LastReadsAs(h: Handler, last: seq<Line>, payloads: seq<string>, n: nat, p: Progress)
    requires Left(h, [], last, payloads, n) && p == Dispatch(h, DataOf(last), payloads[..n])
    ensures ReadsAs(h, payloads, if p.Going? then Over(p.sent, Failed(EndedEarly)) else p)
  {
    LastCarried(last, payloads, n);
    EventDispatched(h, last, payloads, n);
    assert payloads[..|payloads|] == payloads;
    if Sends(last) && EndsAt(h, payloads, n) {
      assert FirstEnd(h, payloads, n);
    }
  }

  lemma {:induction false} LastCarried(last: seq<Line>, payloads: seq<string>, n: nat)
    requires n <= |payloads| && Carries([], last, payloads[n..])
    ensures |payloads| == if Sends(last) then n + 1 else n
    ensures Sends(last) ==> SplitLines(payloads[n]) == DataOf(last)
  {
  }

  lemma {:induction false} LastDispatched(h: Handler, last: seq<Line>, sent: seq<string>)
    requires LinesOk(last)
    ensures var p := Dispatch(h, DataOf(last), sent);
            Whole(h, Going([], sent), Lines(last)) == if p.Going? then Over(p.sent, Failed(EndedEarly)) else p
    ensures ShortLines(h, Going([], sent), Lines(last))
  {
    var data := DataOf(last);
    assert [] + data == data && Lines(last) + "" == Lines(last);
    LinesRead(h, [], sent, last, "");
    assert Consume(h, Going(data, sent), "") == Consumed(Going(data, sent), "");
  }

  lemma {:induction false} FirstCarried(events: seq<Event>, last: seq<Line>, payloads: seq<string>, n: nat)
    requires AllOk(events, last) && events != [] && n <= |payloads| && Carries(events, last, payloads[n..])
    ensures AllOk(events[1..], last) && LinesOk(events[0].lines)
    ensures Sends(events[0].lines) ==> n < |payloads| && SplitLines(payloads[n]) == DataOf(events[0].lines)
    ensures Carries(events[1..], last, payloads[if Sends(events[0].lines) then n + 1 else n..])
  {
    assert events[0] in events;
    assert n < |payloads| ==> payloads[n..][1..] == payloads[n + 1..];
  }

  /** The next event ends the reading. */
  lemma {:induction false} EndsNow(h: Handler, events: seq<Event>, last: seq<Line>, payloads: seq<string>, n: nat)
    requires events != [] && Left(h, events, last, payloads, n) && Sends(events[0].lines) && EndsAt(h, payloads, n)
    ensures GoesOn(h, payloads, n, Events(events) + Lines(last))
  {
    FirstCarried(events, last, payloads, n);
    EventDispatched(h, events[0].lines, payloads, n);
    FirstEvent(h, events, last, payloads[..n]);
    assert FirstEnd(h, payloads, n);
  }

  /** The next event leaves the others to be read. */
  lemma {:induction false} LeavesOthers(h: Handler, events: seq<Event>, last: seq<Line>, payloads: seq<string>,
                                        n: nat, m: nat)
    requires events != [] && Left(h, events, last, payloads, n) && m == if Sends(events[0].lines) then n + 1 else n
    requires Sends(events[0].lines) ==> !EndsAt(h, payloads, n)
    ensures Left(h, events[1..], last, payloads, m)
    ensures Dispatch(h, DataOf(events[0].lines), payloads[..n]) == Going([], payloads[..m])
  {
    FirstCarried(events, last, payloads, n);
    EventDispatched(h, events[0].lines, payloads, n);
    assert forall k | 0 <= k < m :: !EndsAt(h, payloads, k);
  }

  lemma {:induction false} OthersFollow(h: Handler, events: seq<Event>, last: seq<Line>, payloads: seq<string>,
                                        n: nat, m: nat)
    requires events != [] && AllOk(events, last) && n <= |payloads| && m <= |payloads|
    requires Dispatch(h, DataOf(events[0].lines), payloads[..n]) == Going([], payloads[..m])
    requires GoesOn(h, payloads, m, Events(events[1..]) + Lines(last))
    ensures GoesOn(h, payloads, n, Events(events) + Lines(last))
  {
    FirstEvent(h, events, last, payloads[..n]);
  }

  /** The events that are left, after the first n payloads. */
  lemma {:induction false} EventsRead(h: Handler, events: seq<Event>, last: seq<Line>, payloads: seq<string>, n: nat)
    requires Left(h, events, last, payloads, n)
    ensures GoesOn(h, payloads, n, Events(events) + Lines(last))
    decreases |events|
  {
    if events == [] {
      assert Events(events) + Lines(last) == Lines(last);
      LastRead(h, last, payloads, n);
    } else {
      var m := if Sends(events[0].lines) then n + 1 else n;
      if m > n && EndsAt(h, payloads, n) {
        EndsNow(h, events, last, payloads, n);
      } else {
        LeavesOthers(h, events, last, payloads, n, m);
        EventsRead(h, events[1..], last, payloads, m);
        OthersFollow(h, events, last, payloads, n, m);
      }
    }
  }

  lemma {:induction false} EventsText(events: seq<Event>, tail: string)
    requires events != []
    ensures Events(events) + tail == Events([events[0]]) + (Events(events[1..]) + tail)
  {
    var one := [events[0]];
    assert one[1..] == [] && Events(one[1..]) == "";
    var written := Lines(events[0].lines) + Returns(events[0].extra) + "\n";
    assert Events(one) == written + "" == written;
    Associates(written, Events(events[1..]), tail);
  }

  lemma {:induction false} FirstEvent(h: Handler, events: seq<Event>, last: seq<Line>, sent: seq<string>)
    requires AllOk(events, last) && events != []
    ensures var p, rest := Dispatch(h, DataOf(events[0].lines), sent), Events(events[1..]) + Lines(last);
            && Whole(h, Going([], sent), Events(events) + Lines(last)) == Whole(h, p, rest)
            && (ShortLines(h, p, rest) ==> ShortLines(h, Going([], sent), Events(events) + Lines(last)))
            && (p.Over? ==> Whole(h, p, rest) == p && ShortLines(h, p, rest))
  {
    var event, rest := events[0], Events(events[1..]) + Lines(last);
    assert event in events && EventOk(event);
    EventsText(events, Lines(last));
    EventRead(h, sent, event, rest);
  }

  /** A stream is read as what was written: however its events are written and however it is cut, the payloads are those
      of its events in order, up to the first that ends it; and if none does it ends too early. */
  lemma {:induction false} ReadsWhatWasWritten(h: Handler, events: seq<Event>, last: seq<Line>, payloads: seq<string>,
                                               chunks: seq<Chunk>)
    requires AllOk(events, last) && Carries(events, last, payloads)
    requires Text(chunks) == Events(events) + Lines(last) && Bytes(chunks) <= MAX_WIRE
    ensures ReadsAs(h, payloads, Chunked(h, Going([], []), "", 0, chunks))
  {
    assert payloads[..0] == [] && payloads[0..] == payloads;
    EventsRead(h, events, last, payloads, 0);
    assert "" + Text(chunks) == Text(chunks);
    CutIsWhole(h, Going([], []), "", 0, chunks);
  }

  /** A reply whose handler never ends is finished by the marker. */
  lemma {:induction false} MarkerFinishes(h: Handler, events: seq<Event>, last: seq<Line>, payloads: seq<string>,
                                          chunks: seq<Chunk>)
    requires AllOk(events, last) && Carries(events, last, payloads + ["[DONE]"])
    requires Text(chunks) == Events(events) + Lines(last) && Bytes(chunks) <= MAX_WIRE
    requires forall k | 0 <= k < |payloads| :: SpeechChunks.Strip(payloads[k]) != "[DONE]" && h(payloads[..k + 1]).None?
    ensures Chunked(h, Going([], []), "", 0, chunks) == Over(payloads + ["[DONE]"], Finished(Stop))
  {
    var all := payloads + ["[DONE]"];
    ReadsWhatWasWritten(h, events, last, all, chunks);
    forall k | 0 <= k < |payloads|
      ensures !EndsAt(h, all, k)
    {
      assert all[..k + 1] == payloads[..k + 1];
    }
    assert SpeechChunks.Strip("[DONE]") == "[DONE]";
    assert FirstEnd(h, all, |payloads|) && all[..|payloads| + 1] == all;
  }
}
