// Cutting a streamed reply into pieces to be spoken
// (src/ws_collab/language_chat.py, `_sentences_locked`).
module SpeechChunks {
  import opened Sequences

  const MAX_SPEECH_CHARS: nat := 320

  /** White space as Python's strip and \s see it. */
  predicate IsSpace(c: char) {
    var n := c as int;
    || 9 <= n <= 13 || 28 <= n <= 32 || n == 0x85 || n == 0xA0 || n == 0x1680
    || 0x2000 <= n <= 0x200A || n == 0x2028 || n == 0x2029 || n == 0x202F || n == 0x205F || n == 0x3000
  }

  predicate Blank(text: string) {
    forall i | 0 <= i < |text| :: IsSpace(text[i])
  }

  function StripLeft(text: string): string {
    if text != "" && IsSpace(text[0]) then StripLeft(text[1..]) else text
  }

  function StripRight(text: string): string {
    if text != "" && IsSpace(text[|text| - 1]) then StripRight(text[..|text| - 1]) else text
  }

  function Strip(text: string): string {
    StripRight(StripLeft(text))
  }

  /** The text without its white space. */
  function Squeezed(text: string): string {
    if text == "" then ""
    else if IsSpace(text[0]) then Squeezed(text[1..])
    else [text[0]] + Squeezed(text[1..])
  }

  lemma {:induction false} SqueezedConcat(a: string, b: string)
    ensures Squeezed(a + b) == Squeezed(a) + Squeezed(b)
  {
    if a == "" {
      assert a + b == b;
    } else {
      var all, rest := a + b, a[1..];
      assert all[0] == a[0] && all[1..] == rest + b;
      SqueezedConcat(rest, b);
      Associates([a[0]], Squeezed(rest), Squeezed(b));
    }
  }

  lemma {:induction false} SqueezedBlank(text: string)
    ensures Squeezed(text) == "" <==> Blank(text)
  {
    if text != "" {
      SqueezedBlank(text[1..]);
      assert Blank(text) <==> IsSpace(text[0]) && Blank(text[1..]);
    }
  }

  lemma {:induction false} StripLeftKeeps(text: string)
    ensures Squeezed(StripLeft(text)) == Squeezed(text)
    ensures |StripLeft(text)| <= |text|
  {
    if text != "" && IsSpace(text[0]) {
      StripLeftKeeps(text[1..]);
    }
  }

  lemma {:induction false} StripRightKeeps(text: string)
    ensures Squeezed(StripRight(text)) == Squeezed(text)
    ensures |StripRight(text)| <= |text|
  {
    if text != "" && IsSpace(text[|text| - 1]) {
      var front, last := text[..|text| - 1], text[|text| - 1..];
      StripRightKeeps(front);
      assert text == front + last;
      SqueezedConcat(front, last);
      assert last[1..] == "";
    }
  }

  lemma {:induction false} StripKeeps(text: string)
    ensures Squeezed(Strip(text)) == Squeezed(text)
    ensures |Strip(text)| <= |text|
    ensures Strip(text) == "" <==> Blank(text)
  {
    StripLeftKeeps(text);
    StripRightKeeps(StripLeft(text));
    SqueezedBlank(text);
    if Blank(text) {
      StripLeftOfBlank(text);
    }
  }

  lemma {:induction false} StripLeftOfBlank(text: string)
    requires Blank(text)
    ensures StripLeft(text) == ""
  {
    if text != "" {
      StripLeftOfBlank(text[1..]);
    }
  }

  lemma StripShortens(text: string)
    ensures |Strip(text)| <= |text|
  {
    StripKeeps(text);
  }

  // ---------------------------------------------------------------- where to cut

  predicate IsStop(c: char) {
    c == '.' || c == '!' || c == '?'
  }

  predicate IsCloser(c: char) {
    c == '"' || c == '\'' || c == ')' || c == ']'
  }

  /** The offset past the closing marks from `at` on. */
  function PastClosers(text: string, at: nat): (end: nat)
    requires at <= |text|
    ensures at <= end <= |text|
    decreases |text| - at
  {
    if at < |text| && IsCloser(text[at]) then PastClosers(text, at + 1) else at
  }

  /** The end of the first sentence from `at` on: a stop and its closing marks, with white space after.
      Zero if there is none. */
  function SentenceEnd(text: string, at: nat): (end: nat)
    requires at <= |text|
    ensures end <= |text| && (end > 0 ==> at < end)
    decreases |text| - at
  {
    if at == |text| then 0
    else if IsStop(text[at]) && PastClosers(text, at + 1) < |text| && IsSpace(text[PastClosers(text, at + 1)]) then
      PastClosers(text, at + 1)
    else SentenceEnd(text, at + 1)
  }

  /** A sentence that stops at `stop` and ends, with its closing marks, at `end`, where white space follows. */
  predicate EndsSentence(text: string, stop: nat, end: nat) {
    && stop < end < |text| && IsStop(text[stop]) && IsSpace(text[end])
    && forall k | stop < k < end :: IsCloser(text[k])
  }

  ghost predicate NoSentence(text: string, from: nat, to: nat) {
    forall stop, end | from <= stop < to :: !EndsSentence(text, stop, end)
  }

  lemma {:induction false} PastClosersIs(text: string, at: nat, end: nat)
    requires at <= end < |text| && IsSpace(text[end]) && forall k | at <= k < end :: IsCloser(text[k])
    ensures PastClosers(text, at) == end
    decreases end - at
  {
    if at < end {
      PastClosersIs(text, at + 1, end);
    }
  }

  lemma {:induction false} PastClosersAre(text: string, at: nat)
    requires at <= |text|
    ensures forall k | at <= k < PastClosers(text, at) :: IsCloser(text[k])
    decreases |text| - at
  {
    if at < |text| && IsCloser(text[at]) {
      PastClosersAre(text, at + 1);
    }
  }

  /** The end found is that of the first sentence, if there is one. */
  lemma {:induction false} SentenceEndIsFirst(text: string, at: nat) returns (stop: nat)
    requires at <= |text|
    ensures SentenceEnd(text, at) == 0 ==> NoSentence(text, at, |text|)
    ensures SentenceEnd(text, at) > 0 ==>
              at <= stop && EndsSentence(text, stop, SentenceEnd(text, at)) && NoSentence(text, at, stop)
    decreases |text| - at
  {
    stop := at;
    if at < |text| {
      PastClosersAre(text, at + 1);
      if SentenceEnd(text, at) == 0 || SentenceEnd(text, at) != PastClosers(text, at + 1)
         || !EndsSentence(text, at, SentenceEnd(text, at)) {
        stop := SentenceEndIsFirst(text, at + 1);
        forall end | at < end < |text|
          ensures !EndsSentence(text, at, end)
        {
          if EndsSentence(text, at, end) {
            PastClosersIs(text, at + 1, end);
          }
        }
      }
    }
  }

  /** The offset of the last space before `limit`, or zero. */
  function LastSpace(text: string, limit: nat): (at: nat)
    requires limit <= |text|
    ensures at < limit || at == 0
    decreases limit
  {
    if limit == 0 then 0 else if text[limit - 1] == ' ' then limit - 1 else LastSpace(text, limit - 1)
  }

  /** How far a space to cut at is looked for. */
  function Reach(buffer: string): (n: nat)
    ensures n <= |buffer| && n <= MAX_SPEECH_CHARS + 1
  {
    if |buffer| > MAX_SPEECH_CHARS then MAX_SPEECH_CHARS + 1 else |buffer|
  }

  /** How much of a nonempty buffer to speak next; zero to wait for more. */
  function CutAt(buffer: string, final: bool): (cut: nat)
    ensures cut <= |buffer| && cut <= MAX_SPEECH_CHARS
    ensures final && buffer != "" ==> cut > 0
  {
    var sentence := SentenceEnd(buffer, 0);
    if 0 < sentence <= MAX_SPEECH_CHARS then sentence
    else if |buffer| > MAX_SPEECH_CHARS then
      var space := LastSpace(buffer, Reach(buffer));
      if space > 0 then space else MAX_SPEECH_CHARS
    else if final then |buffer| else 0
  }

  /** The pieces spoken, blank ones left out, and what stays in the buffer. */
  datatype Cut = Cut(chunks: seq<string>, rest: string)

  function Chunk(text: string): seq<string> {
    if Strip(text) == "" then [] else [Strip(text)]
  }

  function Chunked(buffer: string, final: bool): Cut
    decreases |buffer|
  {
    var cut := CutAt(buffer, final);
    if cut == 0 then Cut([], buffer)
    else
      StripLeftKeeps(buffer[cut..]);
      var more := Chunked(StripLeft(buffer[cut..]), final);
      Cut(Chunk(buffer[..cut]) + more.chunks, more.rest)
  }

  function Joined(chunks: seq<string>): string {
    if chunks == [] then "" else chunks[0] + Joined(chunks[1..])
  }

  lemma {:induction false} JoinedConcat(a: seq<string>, b: seq<string>)
    ensures Joined(a + b) == Joined(a) + Joined(b)
  {
    if a == [] {
      assert a + b == b;
    } else {
      var all, rest := a + b, a[1..];
      assert all[0] == a[0] && all[1..] == rest + b;
      JoinedConcat(rest, b);
      Associates(a[0], Joined(rest), Joined(b));
    }
  }

  /** A piece that may be spoken. */
  predicate Speakable(chunk: string) {
    !Blank(chunk) && |chunk| <= MAX_SPEECH_CHARS
  }

  lemma {:induction false} ChunkKeeps(text: string)
    requires |text| <= MAX_SPEECH_CHARS
    ensures Squeezed(Joined(Chunk(text))) == Squeezed(text)
    ensures forall chunk | chunk in Chunk(text) :: Speakable(chunk)
  {
    StripKeeps(text);
    SqueezedBlank(text);
    SqueezedBlank(Strip(text));
    assert Joined([Strip(text)]) == Strip(text) + Joined([Strip(text)][1..]) == Strip(text);
  }

  /** What `cut` says, white space left out: the pieces in order and then the buffer. */
  function Said(cut: Cut): string {
    Squeezed(Joined(cut.chunks)) + Squeezed(cut.rest)
  }

  lemma {:induction false} SaidAfter(first: seq<string>, more: Cut)
    ensures Said(Cut(first + more.chunks, more.rest)) == Squeezed(Joined(first)) + Said(more)
  {
    JoinedConcat(first, more.chunks);
    SqueezedConcat(Joined(first), Joined(more.chunks));
    Associates(Squeezed(Joined(first)), Squeezed(Joined(more.chunks)), Squeezed(more.rest));
  }

  /** One more piece in front. */
  lemma {:induction false} PieceInFront(head: string, tail: string, more: Cut)
    requires |head| <= MAX_SPEECH_CHARS && Said(more) == Squeezed(tail)
    requires forall chunk | chunk in more.chunks :: Speakable(chunk)
    ensures Said(Cut(Chunk(head) + more.chunks, more.rest)) == Squeezed(head + tail)
    ensures forall chunk | chunk in Chunk(head) + more.chunks :: Speakable(chunk)
  {
    ChunkKeeps(head);
    SaidAfter(Chunk(head), more);
    SqueezedConcat(head, tail);
  }

  /** Cutting a buffer loses nothing but white space, and every piece can be spoken. */
  lemma {:induction false} ChunkedKeeps(buffer: string, final: bool)
    ensures Said(Chunked(buffer, final)) == Squeezed(buffer)
    ensures forall chunk | chunk in Chunked(buffer, final).chunks :: Speakable(chunk)
    ensures final ==> Chunked(buffer, final).rest == ""
    decreases |buffer|
  {
    var cut := CutAt(buffer, final);
    if cut > 0 {
      var head, tail := buffer[..cut], buffer[cut..];
      StripLeftKeeps(tail);
      ChunkedKeeps(StripLeft(tail), final);
      PieceInFront(head, tail, Chunked(StripLeft(tail), final));
      assert buffer == head + tail;
    }
  }

  /** The pieces spoken while the deltas of a reply arrive one by one, and the buffer left over. */
  function Streamed(buffer: string, deltas: seq<string>): Cut
    decreases |deltas|
  {
    if deltas == [] then Cut([], buffer)
    else
      var first := Chunked(buffer + deltas[0], false);
      var more := Streamed(first.rest, deltas[1..]);
      Cut(first.chunks + more.chunks, more.rest)
  }

  /** One piece of text cut as `first` says, then the rest as `more` says. */
  lemma {:induction false} DeltaKeeps(text: string, first: Cut, more: Cut, rest: string)
    requires Said(first) == Squeezed(text)
    requires Said(more) == Squeezed(first.rest + rest)
    ensures Said(Cut(first.chunks + more.chunks, more.rest)) == Squeezed(text + rest)
  {
    var spoken, held, later := Squeezed(Joined(first.chunks)), Squeezed(first.rest), Squeezed(rest);
    SaidAfter(first.chunks, more);
    SqueezedConcat(first.rest, rest);
    SqueezedConcat(text, rest);
    Associates(spoken, held, later);
  }

  /** However a reply is cut into deltas, the pieces spoken so far and then the buffer hold it in order, up to
      white space. */
  lemma {:induction false} StreamedKeeps(buffer: string, deltas: seq<string>)
    ensures Said(Streamed(buffer, deltas)) == Squeezed(buffer + Joined(deltas))
    decreases |deltas|
  {
    if deltas == [] {
      assert buffer + Joined(deltas) == buffer;
    } else {
      var text, rest := buffer + deltas[0], Joined(deltas[1..]);
      var first := Chunked(text, false);
      var more := Streamed(first.rest, deltas[1..]);
      assert Streamed(buffer, deltas) == Cut(first.chunks + more.chunks, more.rest);
      ChunkedKeeps(text, false);
      StreamedKeeps(first.rest, deltas[1..]);
      DeltaKeeps(text, first, more, rest);
      assert buffer + Joined(deltas) == text + rest by {
        Associates(buffer, deltas[0], rest);
      }
    }
  }

  /** Every piece is nonblank and at most 320 characters. */
  lemma {:induction false} StreamedSpeakable(buffer: string, deltas: seq<string>)
    ensures forall chunk | chunk in Streamed(buffer, deltas).chunks :: Speakable(chunk)
    decreases |deltas|
  {
    if deltas != [] {
      ChunkedKeeps(buffer + deltas[0], false);
      StreamedSpeakable(Chunked(buffer + deltas[0], false).rest, deltas[1..]);
    }
  }

  /** When the reply is finished the pieces alone hold all of it. */
  lemma {:induction false} FinishedKeeps(deltas: seq<string>)
    ensures var cut := Streamed("", deltas);
            Squeezed(Joined(cut.chunks + Chunked(cut.rest, true).chunks)) == Squeezed(Joined(deltas))
  {
    var cut := Streamed("", deltas);
    StreamedKeeps("", deltas);
    assert "" + Joined(deltas) == Joined(deltas);
    ChunkedKeeps(cut.rest, true);
    SaidAfter(cut.chunks, Chunked(cut.rest, true));
  }

  // ---------------------------------------------------------------- a text of many sentences

  /** The shortest text of n + 1 sentences. */
  function Sentences(n: nat): (text: string)
    ensures |text| == 3 * n + 2 && text[..2] == "a." && text[|text| - 1] == '.'
  {
    if n == 0 then "a." else "a. " + Sentences(n - 1)
  }

  lemma SentencesCut(n: nat)
    ensures CutAt(Sentences(n), true) == 2
    ensures StripLeft(Sentences(n)[2..]) == if n == 0 then "" else Sentences(n - 1)
  {
    var text := Sentences(n);
    assert text[0] == 'a' && text[1] == '.';
    if n > 0 {
      assert text[2] == ' ' && text[3..] == Sentences(n - 1);
      assert text[2..][1..] == Sentences(n - 1);
      assert SentenceEnd(text, 0) == SentenceEnd(text, 1) == 2;
    } else {
      assert SentenceEnd(text, 0) == SentenceEnd(text, 1) == SentenceEnd(text, 2) == 0;
    }
  }

  lemma {:induction false} ChunkedStep(buffer: string, final: bool, cut: nat, rest: string)
    requires cut == CutAt(buffer, final) && cut > 0 && rest == StripLeft(buffer[cut..])
    ensures Chunked(buffer, final).chunks == Chunk(buffer[..cut]) + Chunked(rest, final).chunks
  {
    StripLeftKeeps(buffer[cut..]);
  }

  lemma SentenceChunk()
    ensures Chunk("a.") == ["a."]
  {
    assert StripLeft("a.") == "a.";
    assert StripRight("a.") == "a.";
  }

  lemma {:induction false} SentencesStripped(n: nat)
    ensures Strip(Sentences(n)) == Sentences(n)
  {
    assert Sentences(n)[0] == Sentences(n)[..2][0] == 'a';
  }

  function PieceCount(text: string, final: bool): nat {
    |Chunked(text, final).chunks|
  }

  lemma OneSentence(final: bool)
    requires final
    ensures PieceCount(Sentences(0), final) == 1
  {
    SentencesCut(0);
    SentenceChunk();
    ChunkedStep("a.", final, 2, "");
  }

  lemma OneSentenceMore(n: nat, final: bool)
    requires final && n > 0
    ensures PieceCount(Sentences(n), final) == 1 + PieceCount(Sentences(n - 1), final)
  {
    SentencesCut(n);
    SentenceChunk();
    ChunkedStep(Sentences(n), final, 2, Sentences(n - 1));
  }

  predicate CountsOn(count: nat -> nat, k: nat) {
    count(k + 1) == 1 + count(k)
  }

  lemma {:induction false} CountsUp(count: nat -> nat, n: nat)
    requires count(0) == 1 && forall k :: CountsOn(count, k)
    ensures count(n) == n + 1
  {
    if n > 0 {
      assert CountsOn(count, n - 1);
      CountsUp(count, n - 1);
    }
  }

  /** Each of its sentences is a piece. */
  lemma {:induction false} SentencesChunked(n: nat, final: bool)
    requires final
    ensures PieceCount(Sentences(n), final) == n + 1
  {
    var count := (k: nat) => PieceCount(Sentences(k), final);
    OneSentence(final);
    forall k: nat
      ensures CountsOn(count, k)
    {
      OneSentenceMore(k + 1, final);
    }
    CountsUp(count, n);
  }

  // ---------------------------------------------------------------- what is stripped, and where it is cut

  lemma {:induction false} StripLeftIs(text: string) returns (k: nat)
    ensures k <= |text| && StripLeft(text) == text[k..] && Blank(text[..k])
    ensures StripLeft(text) != "" ==> !IsSpace(StripLeft(text)[0])
  {
    if text != "" && IsSpace(text[0]) {
      var i := StripLeftIs(text[1..]);
      k := i + 1;
      assert text[1..][i..] == text[k..] && forall j | 1 <= j < k :: text[j] == text[1..][..i][j - 1];
    } else {
      k := 0;
    }
  }

  lemma {:induction false} StripRightIs(text: string) returns (k: nat)
    ensures k <= |text| && StripRight(text) == text[..k] && Blank(text[k..])
    ensures StripRight(text) != "" ==> !IsSpace(StripRight(text)[|StripRight(text)| - 1])
  {
    k := |text|;
    if text != "" && IsSpace(text[k - 1]) {
      var front := text[..k - 1];
      var i := StripRightIs(front);
      assert front[..i] == text[..i] && forall j | i <= j < |front| :: text[j] == front[i..][j - i];
      k := i;
    }
  }

  /** Stripping takes the white space off both ends and no more. */
  lemma StripIs(text: string) returns (from: nat, to: nat)
    ensures from <= to <= |text| && Strip(text) == text[from..to]
    ensures Blank(text[..from]) && Blank(text[to..])
    ensures from < to ==> !IsSpace(text[from]) && !IsSpace(text[to - 1])
  {
    from := StripLeftIs(text);
    var n := StripRightIs(text[from..]);
    to := from + n;
    assert text[from..][..n] == text[from..to] && text[from..][n..] == text[to..];
    if from < to {
      assert text[from..to][0] == StripLeft(text)[0];
    }
  }

  lemma {:induction false} LastSpaceIs(text: string, limit: nat)
    requires limit <= |text|
    ensures var at := LastSpace(text, limit);
            (at > 0 ==> text[at] == ' ') && forall i | at < i < limit :: text[i] != ' '
  {
    if limit > 0 && text[limit - 1] != ' ' {
      LastSpaceIs(text, limit - 1);
    }
  }

  /** Where a sentence that stops at `stop` is cut off: it is the first one, and short enough to be spoken. */
  ghost predicate FirstSentence(buffer: string, stop: nat, end: nat) {
    EndsSentence(buffer, stop, end) && NoSentence(buffer, 0, stop) && end <= MAX_SPEECH_CHARS
  }

  /** Of a long buffer: the last space that leaves a piece short enough, if there is one after the first character. */
  predicate CutsLong(buffer: string, cut: nat) {
    && 0 < cut <= MAX_SPEECH_CHARS < |buffer|
    && (forall i | cut < i <= MAX_SPEECH_CHARS :: buffer[i] != ' ')
    && (buffer[cut] == ' ' || (cut == MAX_SPEECH_CHARS && forall i | 0 < i <= MAX_SPEECH_CHARS :: buffer[i] != ' '))
  }

  /** Where a buffer is cut: after its first sentence, if that can be spoken at once; or else, if it is too long, at a
      space; or else, at the end of the reply, nowhere. */
  lemma {:induction false} CutIs(buffer: string, final: bool)
    ensures var cut := CutAt(buffer, final);
            || (exists stop :: FirstSentence(buffer, stop, cut))
            || ((forall stop, end :: !FirstSentence(buffer, stop, end))
                && if |buffer| > MAX_SPEECH_CHARS then CutsLong(buffer, cut)
                   else cut == if final then |buffer| else 0)
  {
    var stop := SentenceEndIsFirst(buffer, 0);
    var end, cut := SentenceEnd(buffer, 0), CutAt(buffer, final);
    LastSpaceIs(buffer, Reach(buffer));
    if 0 < end <= MAX_SPEECH_CHARS {
      assert FirstSentence(buffer, stop, cut);
    } else {
      forall s, e
        ensures !FirstSentence(buffer, s, e)
      {
        if FirstSentence(buffer, s, e) {
          OneFirstSentence(buffer, stop, end, s, e);
        }
      }
    }
  }

  /** There is one first sentence. */
  lemma {:induction false} OneFirstSentence(buffer: string, stop: nat, end: nat, s: nat, e: nat)
    requires SentenceEnd(buffer, 0) == end && (end > 0 ==> EndsSentence(buffer, stop, end) && NoSentence(buffer, 0, stop))
    requires end == 0 ==> NoSentence(buffer, 0, |buffer|)
    requires FirstSentence(buffer, s, e)
    ensures end == e
  {
    assert end > 0;
    assert s == stop;
    PastClosersIs(buffer, s + 1, e);
    PastClosersIs(buffer, s + 1, end);
  }

  lemma {:induction false} EndIs(text: string, stop: nat, end: nat)
    requires EndsSentence(text, stop, end) && NoSentence(text, 0, stop)
    ensures SentenceEnd(text, 0) == end
  {
    var s := SentenceEndIsFirst(text, 0);
    assert s == stop;
    PastClosersIs(text, stop + 1, end);
    PastClosersIs(text, stop + 1, SentenceEnd(text, 0));
  }

  /** A sentence stops at a full stop, an exclamation or a question mark, and its closing marks belong to it. */
  lemma StopsAndClosers(stop: char, closer: char)
    ensures IsStop(stop) <==> stop in ".!?"
    ensures IsCloser(closer) <==> closer in "\"')]"
    ensures stop in ".!?" && closer in "\"')]" ==> SentenceEnd(['a', stop, closer, ' ', 'b'], 0) == 3
    ensures stop in ".!?" ==> SentenceEnd(['a', stop, ' ', 'b'], 0) == 2
  {
    if stop in ".!?" && closer in "\"')]" {
      EndIs(['a', stop, closer, ' ', 'b'], 1, 3);
    }
    if stop in ".!?" {
      EndIs(['a', stop, ' ', 'b'], 1, 2);
    }
  }
}
