// Reading a streamed reply (src/ws_collab/language_chat.py, `_sse`): the result does not depend on how the
// stream is cut into chunks, exactly when no line that is read is too long.
module ServerSentEvents {
  import opened Sequences
  import opened SpeechChunks

  const MAX_WIRE: nat := 1048576
  const MAX_LINE: nat := 65536
  const MAX_EVENT: nat := 65536

  datatype Finish = Stop | Length
  datatype Failure = WireTooLarge | LineTooLong | EventTooLarge | BadEvent | EndedEarly
  datatype End = Finished(finish: Finish) | Failed(failure: Failure)

  /** What a payload leads to, given every payload dispatched so far, this one last. */
  type Handler = seq<string> -> Option<End>

  /** The data lines of the event being read and the payloads dispatched; or the payloads and the end. */
  datatype Progress = Going(event: seq<string>, sent: seq<string>) | Over(sent: seq<string>, end: End)

  /** A piece of the stream: its size on the wire and the text it decodes to. */
  datatype Chunk = Chunk(size: nat, text: string)

  // ---------------------------------------------------------------- events and lines

  function JoinedLines(lines: seq<string>): string {
    if lines == [] then "" else if |lines| == 1 then lines[0] else lines[0] + "\n" + JoinedLines(lines[1..])
  }

  function Dispatch(h: Handler, event: seq<string>, sent: seq<string>): Progress {
    var payload := JoinedLines(event);
    if payload == "" then Going([], sent)
    else if Strip(payload) == "[DONE]" then Over(sent + [payload], Finished(Stop))
    else
      match h(sent + [payload])
      case None => Going([], sent + [payload])
      case Some(end) => Over(sent + [payload], end)
  }

  function WithoutReturns(line: string): string {
    if line != "" && line[|line| - 1] == '\r' then WithoutReturns(line[..|line| - 1]) else line
  }

  function Total(lines: seq<string>): nat {
    if lines == [] then 0 else |lines[0]| + Total(lines[1..])
  }

  /** One line: a blank one ends the event, a data line joins it, any other is ignored. */
  function Received(h: Handler, event: seq<string>, sent: seq<string>, raw: string): Progress {
    var line := WithoutReturns(raw);
    if line == "" then Dispatch(h, event, sent)
    else if "data:" <= line then
      var data := if |line| > 5 && line[5] == ' ' then line[6..] else line[5..];
      if Total(event + [data]) > MAX_EVENT then Over(sent, Failed(EventTooLarge)) else Going(event + [data], sent)
    else Going(event, sent)
  }

  /** The offset of the first newline, or the length of the text. */
  function Newline(text: string): (at: nat)
    ensures at <= |text|
    ensures forall i | 0 <= i < at :: text[i] != '\n'
    ensures at < |text| ==> text[at] == '\n'
  {
    if text == "" || text[0] == '\n' then 0
    else
      var rest := Newline(text[1..]);
      assert forall i | 1 <= i < 1 + rest :: text[i] == text[1..][i - 1];
      1 + rest
  }

  datatype Consumed = Consumed(progress: Progress, rest: string)

  /** Reads the complete lines of the text until the end is known. */
  function Consume(h: Handler, p: Progress, text: string): (c: Consumed)
    ensures c.progress.Going? ==> Newline(c.rest) == |c.rest|
    decreases |text|
  {
    var n := Newline(text);
    if p.Over? || n == |text| then Consumed(p, text)
    else Consume(h, Received(h, p.event, p.sent, text[..n]), text[n + 1..])
  }

  /** The end of the stream: the last line and the last event need no newline. */
  function AtEnd(h: Handler, p: Progress, rest: string): (r: Progress)
    ensures r.Over?
  {
    var q := if p.Going? && rest != "" then Received(h, p.event, p.sent, rest) else p;
    var r := if q.Going? then Dispatch(h, q.event, q.sent) else q;
    if r.Going? then Over(r.sent, Failed(EndedEarly)) else r
  }

  /** Reading the whole text at once. */
  function Whole(h: Handler, p: Progress, text: string): (r: Progress)
    ensures r.Over?
  {
    var c := Consume(h, p, text);
    AtEnd(h, c.progress, c.rest)
  }

  /** The lines of a text; the last one has no newline and may be empty. */
  function SplitLines(text: string): (lines: seq<string>)
    ensures lines != []
    decreases |text|
  {
    var n := Newline(text);
    if n == |text| then [text] else [text[..n]] + SplitLines(text[n + 1..])
  }

  function ReceivedAll(h: Handler, p: Progress, lines: seq<string>): Progress
    decreases |lines|
  {
    if p.Over? || lines == [] then p else ReceivedAll(h, Received(h, p.event, p.sent, lines[0]), lines[1..])
  }

  /** Reading a text is receiving its lines one by one, the last without its newline. */
  lemma {:induction false} WholeIsLineByLine(h: Handler, p: Progress, text: string)
    ensures var lines := SplitLines(text);
            Whole(h, p, text) == AtEnd(h, ReceivedAll(h, p, lines[..|lines| - 1]), lines[|lines| - 1])
    decreases |text|
  {
    var n := Newline(text);
    if p.Going? && n < |text| {
      WholeIsLineByLine(h, Received(h, p.event, p.sent, text[..n]), text[n + 1..]);
      LineInFront(h, p, text[..n], SplitLines(text[n + 1..]));
    }
  }

  lemma {:induction false} LineInFront(h: Handler, p: Progress, line: string, rest: seq<string>)
    requires p.Going? && rest != []
    ensures var lines := [line] + rest;
            && lines[|lines| - 1] == rest[|rest| - 1]
            && ReceivedAll(h, p, lines[..|lines| - 1])
               == ReceivedAll(h, Received(h, p.event, p.sent, line), rest[..|rest| - 1])
  {
    var lines := [line] + rest;
    assert lines[..|lines| - 1][1..] == rest[..|rest| - 1];
  }

  /** The last line and the last event need no newline: one more changes nothing. */
  lemma {:induction false} EndNeedsNoNewline(h: Handler, p: Progress, text: string)
    ensures Whole(h, p, text) == Whole(h, p, text + "\n")
    decreases |text|
  {
    var n, more := Newline(text), text + "\n";
    if p.Going? {
      if n < |text| {
        FirstLineOf(text, "\n");
        EndNeedsNoNewline(h, Received(h, p.event, p.sent, text[..n]), text[n + 1..]);
      } else {
        NewlineIs(more, n);
        assert more[..n] == text && more[n + 1..] == "";
        LastLine(h, p, text, more);
      }
    }
  }

  lemma {:induction false} LastLine(h: Handler, p: Progress, text: string, more: string)
    requires p.Going? && Newline(text) == |text| && Newline(more) == |text| < |more|
    requires more[..|text|] == text && more[|text| + 1..] == ""
    ensures Whole(h, p, text) == Whole(h, p, more)
  {
    var q := Received(h, p.event, p.sent, text);
    assert Consume(h, p, more) == Consume(h, q, "");
    assert Consume(h, q, "") == Consumed(q, "");
  }

  // ---------------------------------------------------------------- chunk by chunk

  /** Reading the rest of the stream as it arrives. */
  function Chunked(h: Handler, p: Progress, buffer: string, total: nat, chunks: seq<Chunk>): (r: Progress)
    ensures r.Over?
    decreases |chunks|
  {
    if p.Over? || chunks == [] then AtEnd(h, p, buffer)
    else if total + chunks[0].size > MAX_WIRE then Over(p.sent, Failed(WireTooLarge))
    else
      var c := Consume(h, p, buffer + chunks[0].text);
      if c.progress.Going? && |c.rest| > MAX_LINE then Over(c.progress.sent, Failed(LineTooLong))
      else Chunked(h, c.progress, c.rest, total + chunks[0].size, chunks[1..])
  }

  method ReadStream(h: Handler, chunks: seq<Chunk>) returns (r: Progress)
    ensures r == Chunked(h, Going([], []), "", 0, chunks)
  {
    var buffer, event, sent, total := "", [], [], 0;
    for i := 0 to |chunks|
      invariant 0 <= total
      invariant Chunked(h, Going(event, sent), buffer, total, chunks[i..]) == Chunked(h, Going([], []), "", 0, chunks)
    {
      assert chunks[i..][0] == chunks[i] && chunks[i..][1..] == chunks[i + 1..];
      total := total + chunks[i].size;
      if total > MAX_WIRE {
        return Over(sent, Failed(WireTooLarge));
      }
      ghost var whole := Consume(h, Going(event, sent), buffer + chunks[i].text);
      buffer := buffer + chunks[i].text;
      while '\n' in buffer
        invariant Consume(h, Going(event, sent), buffer) == whole
        decreases |buffer|
      {
        var n := Newline(buffer);
        var p := Received(h, event, sent, buffer[..n]);
        buffer := buffer[n + 1..];
        if p.Over? {
          return p;
        }
        event, sent := p.event, p.sent;
      }
      if |buffer| > MAX_LINE {
        return Over(sent, Failed(LineTooLong));
      }
    }
    if buffer != "" {
      var p := Received(h, event, sent, buffer);
      if p.Over? {
        return p;
      }
      event, sent := p.event, p.sent;
    }
    var last := Dispatch(h, event, sent);
    return if last.Over? then last else Over(last.sent, Failed(EndedEarly));
  }

  // ---------------------------------------------------------------- cutting changes nothing

  function Bytes(chunks: seq<Chunk>): nat {
    if chunks == [] then 0 else chunks[0].size + Bytes(chunks[1..])
  }

  function Text(chunks: seq<Chunk>): string {
    if chunks == [] then "" else chunks[0].text + Text(chunks[1..])
  }

  /** Every line the reader gets to, the last partial one included, is short enough. */
  predicate ShortLines(h: Handler, p: Progress, text: string)
    decreases |text|
  {
    var n := Newline(text);
    p.Going? ==>
      && n <= MAX_LINE
      && (n < |text| ==> ShortLines(h, Received(h, p.event, p.sent, text[..n]), text[n + 1..]))
  }

  lemma {:induction false} NewlineIs(text: string, n: nat)
    requires n < |text| && text[n] == '\n' && forall i | 0 <= i < n :: text[i] != '\n'
    ensures Newline(text) == n
  {
  }

  lemma {:induction false} NoNewline(text: string)
    requires forall i | 0 <= i < |text| :: text[i] != '\n'
    ensures Newline(text) == |text|
  {
  }

  /** More text does not change the first line. */
  lemma {:induction false} FirstLineOf(a: string, b: string)
    requires Newline(a) < |a|
    ensures var n := Newline(a);
            Newline(a + b) == n && (a + b)[..n] == a[..n] && (a + b)[n + 1..] == a[n + 1..] + b
  {
    NewlineIs(a + b, Newline(a));
  }

  /** Reading a text in two parts is reading it in one. */
  lemma {:induction false} ConsumeInParts(h: Handler, p: Progress, a: string, b: string)
    ensures var c := Consume(h, p, a);
            if c.progress.Over? then Consume(h, p, a + b).progress == c.progress
            else Consume(h, p, a + b) == Consume(h, c.progress, c.rest + b)
    decreases |a|
  {
    if p.Going? && Newline(a) < |a| {
      var q, rest := ConsumeFirst(h, p, a, b);
      ConsumeInParts(h, q, rest, b);
    }
  }

  lemma ConsumeFirst(h: Handler, p: Progress, a: string, b: string) returns (q: Progress, rest: string)
    requires p.Going? && Newline(a) < |a|
    ensures |rest| < |a| && Consume(h, p, a) == Consume(h, q, rest) && Consume(h, p, a + b) == Consume(h, q, rest + b)
  {
    FirstLineOf(a, b);
    q, rest := Received(h, p.event, p.sent, a[..Newline(a)]), a[Newline(a) + 1..];
    LineConsumed(h, p, a, Newline(a), a[..Newline(a)], rest);
    LineConsumed(h, p, a + b, Newline(a), a[..Newline(a)], rest + b);
  }

  lemma {:induction false} LineConsumed(h: Handler, p: Progress, text: string, n: nat, line: string, rest: string)
    requires p.Going? && n == Newline(text) && n < |text| && line == text[..n] && rest == text[n + 1..]
    ensures Consume(h, p, text) == Consume(h, Received(h, p.event, p.sent, line), rest)
  {
  }

  /** What is left of a text whose lines are short is short, and so are its lines with more text. */
  lemma {:induction false} RestIsShort(h: Handler, p: Progress, a: string, b: string)
    requires ShortLines(h, p, a + b)
    ensures var c := Consume(h, p, a);
            c.progress.Going? ==> |c.rest| <= MAX_LINE && ShortLines(h, c.progress, c.rest + b)
    decreases |a|
  {
    var n := Newline(a);
    if p.Going? {
      if n < |a| {
        FirstLineOf(a, b);
        RestIsShort(h, Received(h, p.event, p.sent, a[..n]), a[n + 1..], b);
      } else {
        NewlineAfter(a, b);
      }
    }
  }

  lemma {:induction false} NewlineAfter(a: string, b: string)
    requires Newline(a) == |a|
    ensures |a| <= Newline(a + b)
  {
    assert forall i | 0 <= i < |a| :: (a + b)[i] == a[i];
  }

  /** Once the end is known the rest of the text does not matter. */
  lemma {:induction false} WholeInParts(h: Handler, p: Progress, a: string, b: string)
    ensures var c := Consume(h, p, a); Whole(h, p, a + b) == Whole(h, c.progress, c.rest + b)
  {
    ConsumeInParts(h, p, a, b);
  }

  /** However a stream with short lines is cut, reading it chunk by chunk is reading it whole. */
  lemma {:induction false} CutIsWhole(h: Handler, p: Progress, buffer: string, total: nat, chunks: seq<Chunk>)
    requires p.Going? ==> Newline(buffer) == |buffer|
    requires total + Bytes(chunks) <= MAX_WIRE
    requires ShortLines(h, p, buffer + Text(chunks))
    ensures Chunked(h, p, buffer, total, chunks) == Whole(h, p, buffer + Text(chunks))
    decreases |chunks|
  {
    if chunks == [] {
      assert buffer + Text(chunks) == buffer;
    } else if p.Going? {
      var text, more := buffer + chunks[0].text, Text(chunks[1..]);
      Associates(buffer, chunks[0].text, more);
      assert buffer + Text(chunks) == text + more;
      RestIsShort(h, p, text, more);
      WholeInParts(h, p, text, more);
      var c := Consume(h, p, text);
      CutIsWhole(h, c.progress, c.rest, total + chunks[0].size, chunks[1..]);
      NextChunk(h, p, buffer, total, chunks, c);
    }
  }

  lemma NextChunk(h: Handler, p: Progress, buffer: string, total: nat, chunks: seq<Chunk>, c: Consumed)
    requires p.Going? && chunks != [] && total + chunks[0].size <= MAX_WIRE
    requires c == Consume(h, p, buffer + chunks[0].text) && (c.progress.Going? ==> |c.rest| <= MAX_LINE)
    ensures Chunked(h, p, buffer, total, chunks) == Chunked(h, c.progress, c.rest, total + chunks[0].size, chunks[1..])
  {
  }

  /** Where to cut a text with a long line so that the reader meets its beginning alone. */
  function BadCut(h: Handler, p: Progress, text: string): (at: nat)
    requires !ShortLines(h, p, text)
    ensures at <= |text|
    decreases |text|
  {
    var n := Newline(text);
    if n > MAX_LINE then MAX_LINE + 1
    else n + 1 + BadCut(h, Received(h, p.event, p.sent, text[..n]), text[n + 1..])
  }

  lemma {:induction false} BadCutStops(h: Handler, p: Progress, text: string)
    requires !ShortLines(h, p, text)
    ensures var c := Consume(h, p, text[..BadCut(h, p, text)]); c.progress.Going? && |c.rest| > MAX_LINE
    decreases |text|
  {
    var n, at := Newline(text), BadCut(h, p, text);
    if n > MAX_LINE {
      NoNewline(text[..at]);
    } else {
      NewlineIs(text[..at], n);
      var next, tail := Received(h, p.event, p.sent, text[..n]), text[n + 1..];
      assert text[..at][..n] == text[..n] && text[..at][n + 1..] == tail[..BadCut(h, next, tail)];
      BadCutStops(h, next, tail);
    }
  }

  ghost predicate SameForEveryCut(h: Handler, text: string) {
    forall chunks | Text(chunks) == text && Bytes(chunks) <= MAX_WIRE ::
      Chunked(h, Going([], []), "", 0, chunks) == Whole(h, Going([], []), text)
  }

  /** Reading whole never ends for a line that is too long. */
  lemma {:induction false} ConsumeAnyLine(h: Handler, p: Progress, text: string)
    requires forall sent :: h(sent) != Some(Failed(LineTooLong))
    requires p.Over? ==> p.end != Failed(LineTooLong)
    ensures Consume(h, p, text).progress.Over? ==> Consume(h, p, text).progress.end != Failed(LineTooLong)
    decreases |text|
  {
    var n := Newline(text);
    if p.Going? && n < |text| {
      ConsumeAnyLine(h, Received(h, p.event, p.sent, text[..n]), text[n + 1..]);
    }
  }

  /** A text in two chunks, of one byte a character. */
  function Halves(text: string, at: nat): seq<Chunk>
    requires at <= |text|
  {
    [Chunk(at, text[..at]), Chunk(|text| - at, text[at..])]
  }

  lemma TwoChunks(a: Chunk, b: Chunk)
    ensures Text([a, b]) == a.text + b.text && Bytes([a, b]) == a.size + b.size
  {
    var last := [b];
    assert [a, b][1..] == last && last[1..] == [];
    assert Text(last) == b.text + "" == b.text;
    assert Bytes(last) == b.size + Bytes(last[1..]) == b.size;
  }

  lemma HalvesAreText(text: string, at: nat)
    requires at <= |text|
    ensures Text(Halves(text, at)) == text && Bytes(Halves(text, at)) == |text|
  {
    TwoChunks(Chunk(at, text[..at]), Chunk(|text| - at, text[at..]));
    assert text[..at] + text[at..] == text;
  }

  /** Cut where the first half ends inside a long line, the stream fails. */
  lemma HalvesFail(h: Handler, text: string, at: nat)
    requires at <= |text| <= MAX_WIRE
    requires var c := Consume(h, Going([], []), text[..at]); c.progress.Going? && |c.rest| > MAX_LINE
    ensures Chunked(h, Going([], []), "", 0, Halves(text, at)).end == Failed(LineTooLong)
  {
    assert "" + text[..at] == text[..at];
  }

  lemma WholeAnyLine(h: Handler, text: string)
    requires forall sent :: h(sent) != Some(Failed(LineTooLong))
    ensures Whole(h, Going([], []), text).end != Failed(LineTooLong)
  {
    ConsumeAnyLine(h, Going([], []), text);
  }

  lemma {:induction false} ShortIsSame(h: Handler, text: string)
    requires ShortLines(h, Going([], []), text)
    ensures SameForEveryCut(h, text)
  {
    forall chunks | Text(chunks) == text && Bytes(chunks) <= MAX_WIRE
      ensures Chunked(h, Going([], []), "", 0, chunks) == Whole(h, Going([], []), text)
    {
      assert "" + Text(chunks) == text;
      CutIsWhole(h, Going([], []), "", 0, chunks);
    }
  }

  /** A stream gives the same result however it is cut exactly when no line the reader gets to is too long. */
  lemma {:induction false} CutDoesNotMatterIff(h: Handler, text: string)
    requires |text| <= MAX_WIRE
    requires forall sent :: h(sent) != Some(Failed(LineTooLong))
    ensures SameForEveryCut(h, text) <==> ShortLines(h, Going([], []), text)
  {
    if ShortLines(h, Going([], []), text) {
      ShortIsSame(h, text);
    } else {
      var at := BadCut(h, Going([], []), text);
      BadCutStops(h, Going([], []), text);
      HalvesAreText(text, at);
      HalvesFail(h, text, at);
      WholeAnyLine(h, text);
    }
  }
}
