// Publishing captions: the deterministic idempotency keys and the appends made for one item
// (src/ws_collab/service.py, `publish`, `_publish_captioner_item` and `_finalize`).
module Publication {
  import opened Sequences
  import opened EventLog
  import opened LogAppend
  import opened LogCrash
  import opened LogRuns

  datatype Alignment = InterimPrefix | BetweenUtterances | ApproximatePosition

  /** A silence: `id` stands for its start, end and duration. */
  datatype Pause = Pause(id: string, alignment: Alignment, afterChar: nat)

  /** A validated caption envelope; fields the protocol never looks at are left out. */
  datatype Item = Item(session: string, utterance: string, seqNo: nat, revision: nat,
                       text: string, isFinal: bool, pauses: seq<Pause>)

  const MAX_SESSION_CHARS: nat := 128
  const MAX_UTTERANCE_CHARS: nat := 160
  const MAX_SAFE_INTEGER: nat := 9007199254740991

  // ---------------------------------------------------------------- keys

  function DecimalDigit(d: nat): char
    requires d < 10
  {
    "0123456789"[d]
  }

  /** Decimal notation. */
  function Decimal(n: nat): string {
    if n < 10 then [DecimalDigit(n)] else Decimal(n / 10) + [DecimalDigit(n % 10)]
  }

  /** `_finalization_key`. */
  function FinalKey(item: Item): string {
    item.session + ":" + Decimal(item.seqNo) + ":" + item.utterance + ":" + Decimal(item.revision)
  }

  function ResultKey(item: Item): string {
    "captioner:" + FinalKey(item) + ":" + (if item.isFinal then "1" else "0")
  }

  function SuppressedKey(item: Item, reason: string): string {
    ResultKey(item) + ":suppressed:" + reason
  }

  function StageKey(item: Item, stage: string): string {
    "captioner-final:" + FinalKey(item) + ":" + stage
  }

  lemma {:induction false} DecimalDigits(n: nat)
    ensures |Decimal(n)| >= 1
    ensures forall i | 0 <= i < |Decimal(n)| :: Decimal(n)[i] != ':'
  {
    if n >= 10 {
      DecimalDigits(n / 10);
    }
  }

  /** The number a text of digits stands for. */
  function Value(text: string): int {
    if text == "" then 0 else Value(text[..|text| - 1]) * 10 + (text[|text| - 1] as int - '0' as int)
  }

  lemma {:induction false} ValueOfDecimal(n: nat)
    ensures Value(Decimal(n)) == n
  {
    var text, front := Decimal(n), if n < 10 then "" else Decimal(n / 10);
    assert text == front + [DecimalDigit(n % 10)];
    assert text[..|text| - 1] == front;
    if n >= 10 {
      ValueOfDecimal(n / 10);
    }
  }

  lemma {:induction false} DecimalInjective(m: nat, n: nat)
    requires Decimal(m) == Decimal(n)
    ensures m == n
  {
    ValueOfDecimal(m);
    ValueOfDecimal(n);
  }

  /** Texts without a colon before the first colon are equal when the wholes are. */
  lemma SplitFirst(a: string, x: string, b: string, y: string)
    requires forall i | 0 <= i < |a| :: a[i] != ':'
    requires forall i | 0 <= i < |b| :: b[i] != ':'
    requires a + ":" + x == b + ":" + y
    ensures a == b && x == y
  {
    var s, t := a + ":" + x, b + ":" + y;
    assert s[|a|] == ':' && t[|b|] == ':';
    assert forall i | 0 <= i < |a| :: s[i] == a[i];
    assert forall i | 0 <= i < |b| :: t[i] == b[i];
    assert |a| == |b|;
    assert a == s[..|a|] && b == t[..|b|];
    assert x == s[|a| + 1..] && y == t[|b| + 1..];
  }

  /** Likewise for texts without a colon after the last colon. */
  lemma SplitLast(x: string, a: string, y: string, b: string)
    requires forall i | 0 <= i < |a| :: a[i] != ':'
    requires forall i | 0 <= i < |b| :: b[i] != ':'
    requires x + ":" + a == y + ":" + b
    ensures x == y && a == b
  {
    var s, t := x + ":" + a, y + ":" + b;
    assert s[|x|] == ':' && t[|y|] == ':';
    assert forall i | 0 <= i < |a| :: s[|x| + 1 + i] == a[i];
    assert forall i | 0 <= i < |b| :: t[|y| + 1 + i] == b[i];
    assert |x| == |y|;
    assert x == s[..|x|] && y == t[..|y|];
    assert a == s[|x| + 1..] && b == t[|y| + 1..];
  }

  function TailOf(item: Item): string {
    item.utterance + ":" + Decimal(item.revision)
  }

  lemma KeyParts(item: Item)
    ensures FinalKey(item) == item.session + ":" + (Decimal(item.seqNo) + ":" + TailOf(item))
  {
  }

  lemma TailIdentifies(p: Item, q: Item)
    requires TailOf(p) == TailOf(q)
    ensures p.utterance == q.utterance && p.revision == q.revision
  {
    DecimalDigits(p.revision);
    DecimalDigits(q.revision);
    SplitLast(p.utterance, Decimal(p.revision), q.utterance, Decimal(q.revision));
    DecimalInjective(p.revision, q.revision);
  }

  /** Items of one session share a key only if they agree on seq, utterance and revision. */
  lemma KeyIdentifies(p: Item, q: Item)
    requires p.session == q.session && FinalKey(p) == FinalKey(q)
    ensures p.seqNo == q.seqNo && p.utterance == q.utterance && p.revision == q.revision
  {
    KeyParts(p);
    KeyParts(q);
    var stem := p.session + ":";
    assert FinalKey(p)[|stem|..] == Decimal(p.seqNo) + ":" + TailOf(p);
    assert FinalKey(q)[|stem|..] == Decimal(q.seqNo) + ":" + TailOf(q);
    DecimalDigits(p.seqNo);
    DecimalDigits(q.seqNo);
    SplitFirst(Decimal(p.seqNo), TailOf(p), Decimal(q.seqNo), TailOf(q));
    TailIdentifies(p, q);
    DecimalInjective(p.seqNo, q.seqNo);
  }

  /** An id as validation leaves it: not empty, bounded, without white space at its ends. */
  predicate IdValid(space: char -> bool, id: string, limit: nat) {
    0 < |id| <= limit && !space(id[0]) && !space(id[|id| - 1])
  }

  /** What validation asks of the fields a key is made of. */
  predicate Validated(space: char -> bool, item: Item) {
    && IdValid(space, item.session, MAX_SESSION_CHARS) && IdValid(space, item.utterance, MAX_UTTERANCE_CHARS)
    && 1 <= item.seqNo <= MAX_SAFE_INTEGER && item.revision <= MAX_SAFE_INTEGER
  }

  /** The second id is the first one, a colon and the number n; and perhaps a colon and more, which does not begin
      with white space. */
  predicate ContinuesBy(space: char -> bool, s: string, t: string, n: nat) {
    var stem := s + ":" + Decimal(n);
    t == stem || (stem + ":" <= t && (|t| > |stem| + 1 ==> !space(t[|stem| + 1])))
  }

  /** The second id begins with the first one and a seq. */
  ghost predicate Continues(space: char -> bool, s: string, t: string) {
    exists n | 1 <= n <= MAX_SAFE_INTEGER :: ContinuesBy(space, s, t, n)
  }

  /** Of two sessions whose items share a key, the longer id continues the shorter one. */
  lemma SharedContinues(space: char -> bool, p: Item, q: Item)
    requires Validated(space, p) && FinalKey(p) == FinalKey(q)
    requires p.session != q.session && |p.session| <= |q.session|
    ensures ContinuesBy(space, p.session, q.session, p.seqNo)
  {
    var s, t, key := p.session, q.session, FinalKey(p);
    var stem := s + ":" + Decimal(p.seqNo);
    KeyParts(p);
    KeyParts(q);
    DecimalDigits(p.seqNo);
    assert key[..|s|] == s && key[..|t|] == t && key[|t|] == ':';
    assert key[..|stem| + 1] == stem + ":";
    assert |t| > |s|;
    forall i | |s| < i < |stem|
      ensures key[i] != ':'
    {
      assert key[i] == stem[i] == Decimal(p.seqNo)[i - |s| - 1];
    }
    assert |t| > |stem| + 1 ==> t[|stem| + 1] == key[|stem| + 1] == p.utterance[0];
  }

  /** Items of two sessions, the second id of which continues the first, with one key. */
  lemma ContinuesShared(space: char -> bool, s: string, t: string, n: nat) returns (p: Item, q: Item)
    requires IdValid(space, s, MAX_SESSION_CHARS) && IdValid(space, t, MAX_SESSION_CHARS) && 1 <= n <= MAX_SAFE_INTEGER
    requires !space(':') && !space('1') && !space('u')
    requires ContinuesBy(space, s, t, n)
    ensures p.session == s && q.session == t && SharesKey(space, p, q)
  {
    var stem := s + ":" + Decimal(n);
    var utterance := if t == stem then "1:u" else t[|stem| + 1..] + ":1:u";
    p := Item(s, utterance, n, 0, "first", true, []);
    q := Item(t, "u", 1, 0, "second", true, []);
    assert Decimal(1) == "1";
    assert FinalKey(p) == stem + ":" + utterance + ":" + Decimal(0);
    if t != stem {
      assert t == stem + ":" + t[|stem| + 1..];
    }
    assert FinalKey(q) == t + ":1:u:" + Decimal(0);
  }

  predicate SharesKey(space: char -> bool, p: Item, q: Item) {
    Validated(space, p) && Validated(space, q) && FinalKey(p) == FinalKey(q) && ResultKey(p) == ResultKey(q)
  }

  /** Two sessions have items that share every key exactly when the id of one continues that of the other. */
  lemma SharedKeyIff(space: char -> bool, s: string, t: string)
    requires IdValid(space, s, MAX_SESSION_CHARS) && IdValid(space, t, MAX_SESSION_CHARS) && s != t
    requires !space(':') && !space('1') && !space('u')
    ensures (exists p: Item, q: Item :: p.session == s && q.session == t && SharesKey(space, p, q))
       <==> Continues(space, s, t) || Continues(space, t, s)
  {
    if p: Item, q: Item :| p.session == s && q.session == t && SharesKey(space, p, q) {
      if |s| <= |t| {
        SharedContinues(space, p, q);
      } else {
        SharedContinues(space, q, p);
      }
    }
    if n :| 1 <= n <= MAX_SAFE_INTEGER && ContinuesBy(space, s, t, n) {
      var p, q := ContinuesShared(space, s, t, n);
    } else if n :| 1 <= n <= MAX_SAFE_INTEGER && ContinuesBy(space, t, s, n) {
      var q, p := ContinuesShared(space, t, s, n);
      assert SharesKey(space, p, q);
    }
  }

  /** Two such finals, which the log and the captioner take for one. */
  lemma SharedKeyInput()
    ensures var p, q := Item("a", "7:u", 5, 1, "one", true, []), Item("a:5", "u", 7, 1, "two", true, []);
            FinalKey(p) == FinalKey(q) == "a:5:7:u:1" && ResultKey(p) == ResultKey(q)
  {
    assert Decimal(5) == "5" && Decimal(7) == "7" && Decimal(1) == "1";
  }

  // ---------------------------------------------------------------- the appends of one item

  /** The streams captions are published to, and the others. */
  datatype Stream = Transcripts | Audio | Tts | Audit | Other(name: string)
  {
    function Name(): string {
      match this
      case Transcripts => "stt_transcripts"
      case Audio => "translated_audio"
      case Tts => "tts_queue"
      case Audit => "system_audit"
      case Other(name) => name
    }
  }

  type Logs = map<Stream, State>
  type Histories = map<Stream, seq<Event>>

  datatype Publication = Publication(stream: Stream, event: Event)

  /** What the surroundings decide about one attempt to publish: whether policy suppresses the item, how
      the speech is classified, the fresh event ids, and after how many appends the attempt fails. */
  datatype Attempt = Attempt(suppress: Option<string>, echo: bool, expected: bool, id: string, succeeding: nat)

  function Keyed(stream: Stream, key: string, item: Item, attempt: Attempt): Publication {
    Publication(stream, Event(0, attempt.id, key, item.text))
  }

  /** The appends of one attempt, in order (`_publish_captioner_item`, `_finalize`). */
  function Plan(item: Item, attempt: Attempt): seq<Publication> {
    match attempt.suppress
    case Some(reason) => [Keyed(Audit, SuppressedKey(item, reason), item, attempt)]
    case None =>
      [Keyed(Transcripts, ResultKey(item), item, attempt)] +
      if !item.isFinal then []
      else
        [Keyed(Transcripts, StageKey(item, "resolved"), item, attempt)]
        + (if !attempt.echo then []
           else
             [Keyed(Audio, StageKey(item, "echo-detected"), item, attempt)]
             + (if attempt.expected then [Keyed(Tts, StageKey(item, "accuracy"), item, attempt)] else [])
             + [Keyed(Audio, StageKey(item, "filtered"), item, attempt)])
        + [Keyed(Audio, StageKey(item, "heard"), item, attempt)]
  }

  predicate Succeeds(item: Item, attempt: Attempt) {
    attempt.succeeding >= |Plan(item, attempt)|
  }

  /** The appends an attempt gets done. */
  function Done(item: Item, attempt: Attempt): seq<Publication> {
    var plan := Plan(item, attempt);
    if Succeeds(item, attempt) then plan else plan[..attempt.succeeding]
  }

  /** An attempt that fails has got as many appends done, from the first on, as went through before that. */
  lemma DoneIs(item: Item, attempt: Attempt)
    ensures var plan, done := Plan(item, attempt), Done(item, attempt);
            && done <= plan
            && |done| == (if attempt.succeeding < |plan| then attempt.succeeding else |plan|)
            && (Succeeds(item, attempt) <==> done == plan)
  {
  }

  // ---------------------------------------------------------------- effect on the streams

  predicate Hosts(logs: Logs) {
    Transcripts in logs && Audio in logs && Tts in logs && Audit in logs
  }

  /** One append (`publish`); a stream that is not hosted takes nothing. */
  function Published(c: Codec, cfg: Config, logs: Logs, p: Publication): Logs {
    if p.stream !in logs then logs
    else logs[p.stream := Append(c, cfg.(name := p.stream.Name()), logs[p.stream], p.event).0]
  }

  function PublishedHistory(logs: Logs, hs: Histories, p: Publication): Histories
    requires hs.Keys == logs.Keys
  {
    if p.stream !in logs || Duplicate(logs[p.stream], p.event) then hs
    else hs[p.stream := hs[p.stream] + [Stamped(logs[p.stream], p.event)]]
  }

  /** Every stream is in a good state with respect to its history. */
  ghost predicate LogsOk(c: Codec, logs: Logs, hs: Histories) {
    hs.Keys == logs.Keys && Hosts(logs) && Each(Good(c), logs, hs)
  }

  ghost function Good(c: Codec): (State, seq<Event>) -> bool {
    (s: State, h: seq<Event>) => Inv(c, s, h)
  }

  ghost predicate EachAt<K, A, B>(ok: (A, B) -> bool, m: map<K, A>, n: map<K, B>, k: K) {
    k in m && k in n ==> ok(m[k], n[k])
  }

  ghost predicate Each<K(!new), A, B>(ok: (A, B) -> bool, m: map<K, A>, n: map<K, B>) {
    forall k :: EachAt(ok, m, n, k)
  }

  lemma EachUpdated<K(!new), A, B>(ok: (A, B) -> bool, m: map<K, A>, n: map<K, B>, k: K, a: A, b: B)
    requires Each(ok, m, n) && ok(a, b)
    ensures Each(ok, m[k := a], n[k := b])
  {
    var m', n' := m[k := a], n[k := b];
    forall other
      ensures EachAt(ok, m', n', other)
    {
      assert EachAt(ok, m, n, other);
    }
  }

  /** The stream has at some time taken a record with this key. */
  ghost predicate Ever(hs: Histories, stream: Stream, key: string) {
    stream in hs && exists e :: e in hs[stream] && e.key == key
  }

  /** Histories only grow. */
  ghost predicate Extends(hs: Histories, later: Histories) {
    hs.Keys == later.Keys && forall stream | stream in hs :: hs[stream] <= later[stream]
  }

  lemma ExtendsKeepsEver(hs: Histories, later: Histories, stream: Stream, key: string)
    requires Extends(hs, later) && Ever(hs, stream, key)
    ensures Ever(later, stream, key)
  {
    var e :| e in hs[stream] && e.key == key;
    var i :| 0 <= i < |hs[stream]| && hs[stream][i] == e;
    assert later[stream][i] == e;
  }

  /** After an append of a keyed event some record of the history has that key. */
  lemma AppendRecordsKey(c: Codec, s: State, h: seq<Event>, e: Event)
    requires Sound(c) && Inv(c, s, h)
    ensures e.key != "" ==> exists x :: x in (if Duplicate(s, e) then h else h + [Stamped(s, e)]) && x.key == e.key
  {
    if Duplicate(s, e) {
      var r :| r in Retained(c, s) && r.event.key == e.key;
      var i :| 0 <= i < |Retained(c, s)| && Retained(c, s)[i] == r;
      RetainedSeqs(c, s, h);
      assert r.event in h;
    } else {
      assert (h + [Stamped(s, e)])[|h|] == Stamped(s, e);
    }
  }

  lemma AppendGood(c: Codec, cfg: Config, s: State, h: seq<Event>, e: Event)
    requires Sound(c) && Inv(c, s, h)
    ensures Good(c)(Append(c, cfg, s, e).0, if Duplicate(s, e) then h else h + [Stamped(s, e)])
  {
    AppendKeeps(c, cfg, s, h, e);
  }

  /** One append to one stream keeps the streams good. */
  lemma PublishedOk(c: Codec, cfg: Config, logs: Logs, hs: Histories, p: Publication)
    requires Sound(c) && LogsOk(c, logs, hs)
    ensures LogsOk(c, Published(c, cfg, logs, p), PublishedHistory(logs, hs, p))
  {
    if p.stream in logs {
      var s, h, named := logs[p.stream], hs[p.stream], cfg.(name := p.stream.Name());
      var h' := if Duplicate(s, p.event) then h else h + [Stamped(s, p.event)];
      assert Good(c)(Append(c, named, s, p.event).0, h') by {
        StreamGood(c, logs, hs, p.stream);
        AppendGood(c, named, s, h, p.event);
      }
      SameEntry(hs, p.stream);
      LogsUpdated(c, logs, hs, p.stream, Append(c, named, s, p.event).0, h');
    }
  }

  lemma SameEntry(hs: Histories, stream: Stream)
    requires stream in hs
    ensures hs[stream := hs[stream]] == hs
  {
  }

  /** After an append its key is in the history, whether it wrote a record or found one. */
  lemma PublishedRecords(c: Codec, logs: Logs, hs: Histories, p: Publication)
    requires Sound(c) && LogsOk(c, logs, hs)
    ensures Extends(hs, PublishedHistory(logs, hs, p))
    ensures p.stream in logs && p.event.key != "" ==> Ever(PublishedHistory(logs, hs, p), p.stream, p.event.key)
  {
    if p.stream in logs {
      StreamGood(c, logs, hs, p.stream);
      AppendRecordsKey(c, logs[p.stream], hs[p.stream], p.event);
      if !Duplicate(logs[p.stream], p.event) {
        HistoryExtended(hs, p.stream, hs[p.stream] + [Stamped(logs[p.stream], p.event)]);
      }
    }
  }

  lemma StreamGood(c: Codec, logs: Logs, hs: Histories, stream: Stream)
    requires LogsOk(c, logs, hs) && stream in logs
    ensures Inv(c, logs[stream], hs[stream])
  {
    assert EachAt(Good(c), logs, hs, stream);
  }

  lemma KeysUpdated(logs: Logs, hs: Histories, stream: Stream, t: State, h: seq<Event>)
    requires hs.Keys == logs.Keys && Hosts(logs) && stream in logs
    ensures hs[stream := h].Keys == logs[stream := t].Keys && Hosts(logs[stream := t])
  {
    assert hs[stream := h].Keys == hs.Keys;
    assert logs[stream := t].Keys == logs.Keys;
  }

  lemma LogsUpdated(c: Codec, logs: Logs, hs: Histories, stream: Stream, t: State, h: seq<Event>)
    requires LogsOk(c, logs, hs) && stream in logs && Good(c)(t, h)
    ensures LogsOk(c, logs[stream := t], hs[stream := h])
  {
    EachUpdated(Good(c), logs, hs, stream, t, h);
    KeysUpdated(logs, hs, stream, t, h);
  }

  lemma HistoryExtended(hs: Histories, stream: Stream, h: seq<Event>)
    requires stream in hs && hs[stream] <= h
    ensures Extends(hs, hs[stream := h])
  {
  }

  function PublishedAll(c: Codec, cfg: Config, logs: Logs, ps: seq<Publication>): Logs
    decreases |ps|
  {
    if ps == [] then logs else PublishedAll(c, cfg, Published(c, cfg, logs, ps[0]), ps[1..])
  }

  function PublishedAllHistory(c: Codec, cfg: Config, logs: Logs, hs: Histories, ps: seq<Publication>): Histories
    requires hs.Keys == logs.Keys
    decreases |ps|
  {
    if ps == [] then hs
    else PublishedAllHistory(c, cfg, Published(c, cfg, logs, ps[0]), PublishedHistory(logs, hs, ps[0]), ps[1..])
  }

  lemma {:induction false} PublishedAllKeeps(c: Codec, cfg: Config, logs: Logs, hs: Histories, ps: seq<Publication>)
    requires Sound(c) && LogsOk(c, logs, hs)
    ensures LogsOk(c, PublishedAll(c, cfg, logs, ps), PublishedAllHistory(c, cfg, logs, hs, ps))
    ensures Extends(hs, PublishedAllHistory(c, cfg, logs, hs, ps))
    ensures forall p | p in ps && p.stream in logs && p.event.key != "" ::
              Ever(PublishedAllHistory(c, cfg, logs, hs, ps), p.stream, p.event.key)
    decreases |ps|
  {
    if ps != [] {
      PublishedOk(c, cfg, logs, hs, ps[0]);
      PublishedRecords(c, logs, hs, ps[0]);
      var logs', hs' := Published(c, cfg, logs, ps[0]), PublishedHistory(logs, hs, ps[0]);
      PublishedAllKeeps(c, cfg, logs', hs', ps[1..]);
      var final := PublishedAllHistory(c, cfg, logs, hs, ps);
      forall p | p in ps && p.stream in logs && p.event.key != ""
        ensures Ever(final, p.stream, p.event.key)
      {
        if p == ps[0] {
          ExtendsKeepsEver(hs', final, p.stream, p.event.key);
        }
      }
    }
  }

  /** The item is in the log: its result, its resolved transcript and the heard speech; or an audit
      record says policy suppressed it. */
  ghost predicate Settled(hs: Histories, item: Item) {
    || (&& Ever(hs, Transcripts, ResultKey(item))
        && (item.isFinal ==> Ever(hs, Transcripts, StageKey(item, "resolved")) && Ever(hs, Audio, StageKey(item, "heard"))))
    || exists reason :: Ever(hs, Audit, SuppressedKey(item, reason))
  }

  lemma ExtendsKeepsSettled(hs: Histories, later: Histories, item: Item)
    requires Extends(hs, later) && Settled(hs, item)
    ensures Settled(later, item)
  {
    if reason :| Ever(hs, Audit, SuppressedKey(item, reason)) {
      ExtendsKeepsEver(hs, later, Audit, SuppressedKey(item, reason));
    } else {
      ExtendsKeepsEver(hs, later, Transcripts, ResultKey(item));
      if item.isFinal {
        ExtendsKeepsEver(hs, later, Transcripts, StageKey(item, "resolved"));
        ExtendsKeepsEver(hs, later, Audio, StageKey(item, "heard"));
      }
    }
  }

  /** The records a full plan includes. */
  lemma PlanCovers(item: Item, attempt: Attempt)
    ensures match attempt.suppress
            case Some(reason) => Keyed(Audit, SuppressedKey(item, reason), item, attempt) in Plan(item, attempt)
            case None =>
              && Keyed(Transcripts, ResultKey(item), item, attempt) in Plan(item, attempt)
              && (item.isFinal ==>
                    && Keyed(Transcripts, StageKey(item, "resolved"), item, attempt) in Plan(item, attempt)
                    && Keyed(Audio, StageKey(item, "heard"), item, attempt) in Plan(item, attempt))
  {
    var plan := Plan(item, attempt);
    assert plan[0] in plan;
    if attempt.suppress.None? && item.isFinal {
      assert plan[1] == Keyed(Transcripts, StageKey(item, "resolved"), item, attempt);
      assert plan[|plan| - 1] == Keyed(Audio, StageKey(item, "heard"), item, attempt);
    }
  }

  lemma KeysNonempty(item: Item, suffix: string)
    ensures ResultKey(item) != "" && SuppressedKey(item, suffix) != "" && StageKey(item, suffix) != ""
  {
    assert |ResultKey(item)| > 0 && |SuppressedKey(item, suffix)| > 0 && |StageKey(item, suffix)| > 0;
  }

  /** A successful attempt settles its item, however much of it earlier attempts had done. */
  lemma {:induction false} SuccessSettles(c: Codec, cfg: Config, logs: Logs, hs: Histories, item: Item,
                                          attempt: Attempt)
    requires Sound(c) && LogsOk(c, logs, hs) && Succeeds(item, attempt)
    ensures Settled(PublishedAllHistory(c, cfg, logs, hs, Done(item, attempt)), item)
  {
    var final := PublishedAllHistory(c, cfg, logs, hs, Plan(item, attempt));
    PublishedAllKeeps(c, cfg, logs, hs, Plan(item, attempt));
    PlanCovers(item, attempt);
    match attempt.suppress
    case Some(reason) =>
      KeysNonempty(item, reason);
      assert Ever(final, Audit, SuppressedKey(item, reason));
    case None =>
      KeysNonempty(item, "resolved");
      KeysNonempty(item, "heard");
      assert Ever(final, Transcripts, ResultKey(item));
      if item.isFinal {
        assert Ever(final, Transcripts, StageKey(item, "resolved"));
        assert Ever(final, Audio, StageKey(item, "heard"));
      }
  }

  // ---------------------------------------------------------------- which stages are published

  /** An append of this key to this stream is planned. */
  ghost predicate Plans(item: Item, attempt: Attempt, stream: Stream, key: string) {
    exists p :: p in Plan(item, attempt) && p.stream == stream && p.event.key == key
  }

  lemma PlansIff(item: Item, attempt: Attempt, stream: Stream, key: string, i: nat)
    requires i < |Plan(item, attempt)|
    requires Plan(item, attempt)[i].stream == stream && Plan(item, attempt)[i].event.key == key
    ensures Plans(item, attempt, stream, key)
  {
    assert Plan(item, attempt)[i] in Plan(item, attempt);
  }

  lemma StagesDiffer(item: Item, a: string, b: string)
    requires StageKey(item, a) == StageKey(item, b)
    ensures a == b
  {
    var n := |StageKey(item, "")|;
    assert StageKey(item, a)[n..] == a && StageKey(item, b)[n..] == b;
  }

  /** The first append is the item's result, and for a partial it is the only one; all have the item's text. */
  lemma ResultPlanned(item: Item, attempt: Attempt)
    requires attempt.suppress == None
    ensures forall p | p in Plan(item, attempt) :: p.event.body == item.text && p.event.id == attempt.id
    ensures Plan(item, attempt)[0].stream == Transcripts && Plan(item, attempt)[0].event.key == ResultKey(item)
    ensures !item.isFinal ==> |Plan(item, attempt)| == 1
  {
  }

  /** Of a final it is also published how it was resolved, and last of all what was heard; and exactly when it is an echo
      that it was detected and filtered out, and exactly when that echo was expected how accurate it was. */
  lemma StagesPlannedIff(item: Item, attempt: Attempt)
    requires attempt.suppress == None && item.isFinal
    ensures Plans(item, attempt, Transcripts, StageKey(item, "resolved"))
    ensures var last := Plan(item, attempt)[|Plan(item, attempt)| - 1];
            last.stream == Audio && last.event.key == StageKey(item, "heard")
    ensures Plans(item, attempt, Audio, StageKey(item, "echo-detected")) <==> attempt.echo
    ensures Plans(item, attempt, Audio, StageKey(item, "filtered")) <==> attempt.echo
    ensures Plans(item, attempt, Tts, StageKey(item, "accuracy")) <==> attempt.echo && attempt.expected
    ensures |Plan(item, attempt)|
         == 3 + (if attempt.echo then 2 else 0) + (if attempt.echo && attempt.expected then 1 else 0)
  {
    if attempt.echo {
      EchoPlanned(item, attempt);
    } else {
      NoEchoPlanned(item, attempt);
    }
  }

  lemma EchoPlanned(item: Item, attempt: Attempt)
    requires attempt.suppress == None && item.isFinal && attempt.echo
    ensures Plans(item, attempt, Transcripts, StageKey(item, "resolved"))
    ensures Plans(item, attempt, Audio, StageKey(item, "echo-detected"))
    ensures Plans(item, attempt, Audio, StageKey(item, "filtered"))
    ensures Plans(item, attempt, Tts, StageKey(item, "accuracy")) <==> attempt.expected
  {
    PlansIff(item, attempt, Transcripts, StageKey(item, "resolved"), 1);
    PlansIff(item, attempt, Audio, StageKey(item, "echo-detected"), 2);
    FilteredPlanned(item, attempt);
    AccuracyPlanned(item, attempt);
  }

  lemma FilteredPlanned(item: Item, attempt: Attempt)
    requires attempt.suppress == None && item.isFinal && attempt.echo
    ensures Plans(item, attempt, Audio, StageKey(item, "filtered"))
  {
    PlansIff(item, attempt, Audio, StageKey(item, "filtered"), if attempt.expected then 4 else 3);
  }

  lemma AccuracyPlanned(item: Item, attempt: Attempt)
    requires attempt.suppress == None && item.isFinal && attempt.echo
    ensures Plans(item, attempt, Tts, StageKey(item, "accuracy")) <==> attempt.expected
  {
    if attempt.expected {
      PlansIff(item, attempt, Tts, StageKey(item, "accuracy"), 3);
    } else {
      assert forall p | p in Plan(item, attempt) :: p.stream != Tts;
    }
  }

  lemma NoEchoPlanned(item: Item, attempt: Attempt)
    requires attempt.suppress == None && item.isFinal && !attempt.echo
    ensures !Plans(item, attempt, Audio, StageKey(item, "echo-detected"))
    ensures !Plans(item, attempt, Audio, StageKey(item, "filtered"))
    ensures Plans(item, attempt, Transcripts, StageKey(item, "resolved"))
    ensures !Plans(item, attempt, Tts, StageKey(item, "accuracy"))
  {
    PlansIff(item, attempt, Transcripts, StageKey(item, "resolved"), 1);
    forall p | p in Plan(item, attempt) && p.stream == Audio
      ensures p.event.key == StageKey(item, "heard")
    {
    }
    if StageKey(item, "heard") == StageKey(item, "echo-detected") {
      StagesDiffer(item, "heard", "echo-detected");
    }
    if StageKey(item, "heard") == StageKey(item, "filtered") {
      StagesDiffer(item, "heard", "filtered");
    }
  }

  /** What is published of a suppressed item is its suppression alone. */
  lemma SuppressedPlanIs(item: Item, attempt: Attempt, reason: string)
    requires attempt.suppress == Some(reason)
    ensures |Plan(item, attempt)| == 1
    ensures Plan(item, attempt)[0] == Publication(Audit, Event(0, attempt.id, SuppressedKey(item, reason), item.text))
  {
  }

  /** The keys of an item, as an example. */
  lemma KeysAre()
    ensures var p := Item("a", "7:u", 5, 1, "one", true, []);
            && ResultKey(p) == "captioner:a:5:7:u:1:1" && StageKey(p, "heard") == "captioner-final:a:5:7:u:1:heard"
            && SuppressedKey(p, "paused") == "captioner:a:5:7:u:1:1:suppressed:paused"
  {
    SharedKeyInput();
  }
}
