// What every run of a conversation keeps (src/ws_collab/language_chat.py): one message to a generation, a
// speech queue that only moves forward, and a reply that is spoken whole.
module ChatRuns {
  import opened Sequences
  import opened SpeechChunks
  import opened Chat

  // ---------------------------------------------------------------- the invariant

  ghost predicate HistoryOk(h: History) {
    && h.dropped <= |h.log|
    && Fits(h)
    && forall i | 0 <= i < |h.log| :: |h.log[i].content| <= MAX_OUTPUT
  }

  /** The current message is the last one, and no other message is streaming. */
  ghost predicate CurrentOk(s: State) {
    && (s.current.Some? ==>
          && s.active
          && s.current.value == |s.history.log| - 1
          && s.history.dropped <= s.current.value
          && s.history.log[s.current.value].role.Assistant?
          && s.generation in s.owners && s.owners[s.generation] == s.current.value)
    && forall i | 0 <= i < |s.history.log| :: s.history.log[i].status.Streaming? ==> s.current == Some(i)
  }

  /** Generations with a message, each message with one generation. */
  ghost predicate OwnersOk(s: State) {
    && (forall g | g in s.owners :: g <= s.generation && s.owners[g] < |s.history.log|)
    && (forall g, k | g in s.owners && k in s.owners && g < k :: s.owners[g] < s.owners[k])
  }

  /** Pieces that have ended come before live ones, and only the first live one may be playing. */
  ghost predicate Ordered(items: seq<Item>) {
    forall i, j | 0 <= i < j < |items| && Live(items[i]) :: items[j].status.Pending?
  }

  /** Every piece belongs to the message of its generation; live ones to the current generation. */
  ghost predicate Owned(items: seq<Item>, generation: nat, owners: map<nat, nat>) {
    forall i | 0 <= i < |items| ::
      && items[i].generation in owners && owners[items[i].generation] == items[i].message
      && (Live(items[i]) ==> items[i].generation == generation)
  }

  ghost predicate QueueOk(p: Speech) {
    && p.evicted <= |p.items| <= p.evicted + MAX_QUEUE
    && (forall i | 0 <= i < p.evicted :: !Live(p.items[i]))
    && Ordered(p.items)
  }

  function Texts(items: seq<Item>, from: nat): seq<string>
    requires from <= |items|
  {
    seq(|items| - from, i requires 0 <= i < |items| - from => items[from + i].text)
  }

  /** What has been queued since `from` and what waits to be cut, white space left out. */
  function Uttered(p: Speech, from: nat): string
    requires from <= |p.items|
  {
    Squeezed(Joined(Texts(p.items, from))) + Squeezed(p.buffer)
  }

  /** While all of the current reply is to be spoken, the pieces queued for it and the buffer hold it. */
  ghost predicate SpokenWhole(s: State) {
    s.current.Some? && s.whole ==>
      && s.first <= |s.speech.items|
      && s.current.value < |s.history.log|
      && Uttered(s.speech, s.first) == Squeezed(s.history.log[s.current.value].content)
  }

  ghost predicate Ok(s: State) {
    && HistoryOk(s.history)
    && CurrentOk(s)
    && OwnersOk(s)
    && QueueOk(s.speech)
    && Owned(s.speech.items, s.generation, s.owners)
    && SpokenWhole(s)
    && |s.pending| <= MAX_TEXT
    && (!s.active ==> !AnyLive(s.speech.items))
  }

  // ---------------------------------------------------------------- what a step may change

  ghost predicate MessageMoves(a: Message, b: Message) {
    && a.role == b.role
    && a.content <= b.content
    && (b.status.Streaming? ==> a.status.Streaming?)
  }

  function Rank(status: Playback): nat {
    match status
    case Pending => 0
    case Playing => 1
    case _ => 2
  }

  ghost predicate ItemMoves(a: Item, b: Item) {
    && a.message == b.message && a.text == b.text && a.generation == b.generation
    && (a.status == b.status || Rank(a.status) < Rank(b.status))
  }

  /** Messages only grow, and none but the current one changes. */
  ghost predicate LogMoves(s: State, t: State) {
    && |s.history.log| <= |t.history.log|
    && s.history.dropped <= t.history.dropped
    && forall i | 0 <= i < |s.history.log| ::
      && MessageMoves(s.history.log[i], t.history.log[i])
      && (s.current != Some(i) ==> s.history.log[i] == t.history.log[i])
  }

  /** Pieces keep their place and text and only move forward. */
  ghost predicate ItemsMove(a: seq<Item>, b: seq<Item>) {
    |a| <= |b| && forall i | 0 <= i < |a| :: ItemMoves(a[i], b[i])
  }

  /** Messages get their generations once. */
  ghost predicate OwnersMove(s: State, t: State) {
    && s.generation <= t.generation
    && (forall g | g in s.owners :: g in t.owners && t.owners[g] == s.owners[g])
    && (forall g | g in t.owners && g !in s.owners :: s.generation < g && |s.history.log| <= t.owners[g])
  }

  /** A new current message is a new message under a new generation. */
  ghost predicate CurrentMoves(s: State, t: State) {
    t.current.Some? ==>
      || (t.current == s.current && t.generation == s.generation)
      || (|s.history.log| <= t.current.value && s.generation < t.generation)
  }

  ghost predicate Moves(s: State, t: State) {
    && LogMoves(s, t)
    && ItemsMove(s.speech.items, t.speech.items)
    && s.speech.evicted <= t.speech.evicted
    && OwnersMove(s, t)
    && CurrentMoves(s, t)
  }

  lemma ItemsMoveOn(a: seq<Item>, b: seq<Item>, c: seq<Item>)
    requires ItemsMove(a, b) && ItemsMove(b, c)
    ensures ItemsMove(a, c)
  {
    forall i | 0 <= i < |a|
      ensures ItemMoves(a[i], c[i])
    {
      assert ItemMoves(a[i], b[i]) && ItemMoves(b[i], c[i]);
    }
  }

  lemma MovesOn(s: State, t: State, u: State)
    requires Moves(s, t) && Moves(t, u)
    ensures Moves(s, u)
  {
    ItemsMoveOn(s.speech.items, t.speech.items, u.speech.items);
    forall i | 0 <= i < |s.history.log|
      ensures MessageMoves(s.history.log[i], u.history.log[i])
      ensures s.current != Some(i) ==> s.history.log[i] == u.history.log[i]
    {
      assert MessageMoves(s.history.log[i], t.history.log[i]) && MessageMoves(t.history.log[i], u.history.log[i]);
    }
  }

  lemma StaysPut(s: State)
    ensures Moves(s, s)
  {
  }

  // ---------------------------------------------------------------- history steps

  lemma {:induction false} CharsSame(a: seq<Message>, b: seq<Message>, from: nat)
    requires from <= |a| == |b|
    requires forall i | from <= i < |a| :: a[i].content == b[i].content
    ensures Chars(a, from) == Chars(b, from)
    decreases |a| - from
  {
    if from < |a| {
      CharsSame(a, b, from + 1);
    }
  }

  lemma {:induction false} CharsShift(a: seq<Message>, b: seq<Message>, from: nat)
    requires from <= |b|
    ensures Chars(a + b, |a| + from) == Chars(b, from)
    decreases |b| - from
  {
    if from < |b| {
      CharsShift(a, b, from + 1);
    }
  }

  /** Trimming never removes the last message: alone it fits. */
  lemma {:induction false} TrimmedKeepsLast(h: History)
    requires h.dropped < |h.log|
    requires |h.log[|h.log| - 1].content| <= MAX_OUTPUT
    ensures Trimmed(h).dropped < |h.log|
    decreases |h.log| - h.dropped
  {
    if h.dropped + 1 == |h.log| {
      assert Chars(h.log, h.dropped) == |h.log[h.dropped].content| + Chars(h.log, h.dropped + 1);
      assert Fits(h);
    } else if !Fits(h) {
      TrimmedKeepsLast(h.(dropped := h.dropped + 1));
    }
  }

  // ---------------------------------------------------------------- queue steps

  lemma QuietKeeps(p: Speech, generation: nat, later: nat, owners: map<nat, nat>)
    requires QueueOk(p) && Owned(p.items, generation, owners)
    ensures QueueOk(Quiet(p)) && Owned(Quiet(p).items, later, owners)
    ensures ItemsMove(p.items, Quiet(p).items) && !AnyLive(Quiet(p).items)
  {
  }

  lemma NoneLive(items: seq<Item>)
    requires !AnyLive(items)
    ensures forall i | 0 <= i < |items| :: !Live(items[i])
  {
  }

  /** A new generation may begin when nothing is live. */
  lemma OwnedLater(items: seq<Item>, generation: nat, owners: map<nat, nat>, later: nat, more: map<nat, nat>)
    requires Owned(items, generation, owners) && !AnyLive(items)
    requires forall g | g in owners :: g in more && more[g] == owners[g]
    ensures Owned(items, later, more)
  {
    NoneLive(items);
  }

  lemma TextsAppend(items: seq<Item>, item: Item, from: nat)
    requires from <= |items|
    ensures Texts(items + [item], from) == Texts(items, from) + [item.text]
  {
  }

  lemma JoinedOne(text: string)
    ensures Joined([text]) == text
  {
    assert [text][1..] == [];
  }

  /** Cutting one piece off the buffer and queueing it leaves what is heard as it was. */
  lemma PieceHeard(p: Speech, q: Speech, item: Item, cut: nat, from: nat)
    requires from <= |p.items| && cut <= |p.buffer|
    requires item.text == Strip(p.buffer[..cut])
    requires q.buffer == StripLeft(p.buffer[cut..])
    requires q.items == (if item.text == "" then p.items else p.items + [item])
    ensures Uttered(q, from) == Uttered(p, from)
  {
    var head, tail := p.buffer[..cut], p.buffer[cut..];
    var queued := Joined(Texts(p.items, from));
    assert p.buffer == head + tail;
    SqueezedConcat(head, tail);
    StripKeeps(head);
    StripLeftKeeps(tail);
    if item.text == "" {
      assert Squeezed(head) == "" by {
        SqueezedBlank(item.text);
      }
    } else {
      TextsAppend(p.items, item, from);
      JoinedConcat(Texts(p.items, from), [item.text]);
      JoinedOne(item.text);
      SqueezedConcat(queued, item.text);
    }
    Associates(Squeezed(queued), Squeezed(head), Squeezed(tail));
  }

  lemma QueuedKeeps(p: Speech, item: Item, generation: nat, owners: map<nat, nat>)
    requires QueueOk(p) && Owned(p.items, generation, owners)
    requires item.status.Pending? && item.generation == generation
    requires generation in owners && owners[generation] == item.message
    ensures Queued(p, item).None? <==> |p.items| == p.evicted + MAX_QUEUE && Live(p.items[p.evicted])
    ensures Queued(p, item).Some? ==>
              var q := Queued(p, item).value;
              q.items == p.items + [item] && QueueOk(q) && Owned(q.items, generation, owners) && p.evicted <= q.evicted
  {
  }

  /** Queueing sentences keeps the queue in order and loses nothing: pieces are only added at the end, and the
      new pieces with what is left in the buffer hold what was in the buffer. */
  lemma {:induction false} VoiceKeeps(p: Speech, message: nat, generation: nat, final: bool, owners: map<nat, nat>,
                                      from: nat)
    requires QueueOk(p) && Owned(p.items, generation, owners) && from <= |p.items|
    requires generation in owners && owners[generation] == message
    ensures var v := Voice(p, message, generation, final);
            && QueueOk(v.speech) && Owned(v.speech.items, generation, owners)
            && p.items <= v.speech.items && p.evicted <= v.speech.evicted
            && Uttered(v.speech, from) == Uttered(p, from)
            && (final && v.ok ==> v.speech.buffer == "")
    decreases |p.buffer|
  {
    var cut := CutAt(p.buffer, final);
    if cut > 0 {
      var item := Item(message, Strip(p.buffer[..cut]), generation, Pending);
      var queued := if item.text == "" then Some(p) else Queued(p, item);
      QueuedKeeps(p, item, generation, owners);
      if queued.Some? {
        var q := queued.value.(buffer := StripLeft(p.buffer[cut..]));
        StripLeftKeeps(p.buffer[cut..]);
        PieceHeard(p, q, item, cut, from);
        VoiceKeeps(q, message, generation, final, owners, from);
      }
    }
  }

  // ---------------------------------------------------------------- calls

  lemma ClosedKeeps(s: State, status: Status)
    requires Ok(s) && !status.Streaming?
    ensures HistoryOk(Closed(s, status).history) && LogMoves(s, Closed(s, status))
    ensures CurrentOk(Closed(s, status))
  {
    if s.current.Some? {
      CharsSame(s.history.log, Closed(s, status).history.log, s.history.dropped);
    }
  }

  lemma CutShortKeeps(s: State, now: int)
    requires Ok(s)
    ensures Ok(CutShort(s, now)) && Moves(s, CutShort(s, now))
    ensures !Busy(CutShort(s, now))
  {
    ClosedKeeps(s, Interrupted);
    QuietKeeps(s.speech, s.generation, s.generation + 1, s.owners);
  }

  lemma StoppedKeeps(s: State, now: int)
    requires Ok(s)
    ensures Ok(Stopped(s, now)) && Moves(s, Stopped(s, now))
  {
    CutShortKeeps(s, now);
  }

  lemma AbortedKeeps(s: State, now: int)
    requires Ok(s)
    ensures Ok(Aborted(s, now)) && Moves(s, Aborted(s, now))
  {
    CutShortKeeps(s, now);
  }

  lemma AdmittedKeeps(s: State, client: string, now: int)
    requires Ok(s)
    ensures var t := Admitted(s, client, now).state; Ok(t) && Moves(s, t)
  {
    if !s.active {
      OwnedLater(s.speech.items, s.generation, s.owners, s.generation + 1, s.owners);
    }
  }

  lemma StartedKeeps(s: State, client: string, ready: bool, now: int, saved: bool)
    requires Ok(s)
    ensures var t := Started(s, client, ready, now, saved).state; Ok(t) && Moves(s, t)
  {
    var t := Stopped(s, now);
    StoppedKeeps(s, now);
    AdmittedKeeps(s, client, now);
    AdmittedKeeps(t, client, now);
    MovesOn(s, t, Admitted(t, client, now).state);
  }

  lemma AddedKeeps(h: History, message: Message)
    requires HistoryOk(h) && |message.content| <= MAX_OUTPUT
    ensures HistoryOk(Added(h, message)) && Added(h, message).dropped < |Added(h, message).log|
  {
    TrimmedKeepsLast(h.(log := h.log + [message]));
  }

  lemma NothingHeard(items: seq<Item>, evicted: nat)
    ensures Uttered(Speech(items, evicted, ""), |items|) == ""
  {
    assert Texts(items, |items|) == [];
  }

  lemma AskedKeeps(s: State, text: string)
    requires Ok(s) && !Busy(s) && |text| <= MAX_OUTPUT
    ensures var t := s.(history := Added(s.history, Message(User, text, Complete)), pending := "");
            Ok(t) && Moves(s, t)
  {
    AddedKeeps(s.history, Message(User, text, Complete));
  }

  lemma ReplyingKeeps(s: State)
    requires Ok(s) && !Busy(s) && s.active
    ensures var t := Replying(s.(generation := s.generation + 1)); Ok(t) && Moves(s, t)
  {
    var t := Replying(s.(generation := s.generation + 1));
    AddedKeeps(s.history, Message(Assistant, "", Streaming));
    OwnedLater(s.speech.items, s.generation, s.owners, t.generation, t.owners);
    NothingHeard(s.speech.items, s.speech.evicted);
  }

  lemma BumpedKeeps(s: State)
    requires Ok(s) && !Busy(s)
    ensures var t := s.(generation := s.generation + 1); Ok(t) && Moves(s, t)
  {
    OwnedLater(s.speech.items, s.generation, s.owners, s.generation + 1, s.owners);
  }

  lemma BegunKeeps(s: State, saved: bool)
    requires Ok(s) && !Busy(s) && s.active
    ensures Ok(Begun(s, saved).state) && Moves(s, Begun(s, saved).state)
  {
    StaysPut(s);
    StripShortens(s.pending);
    if Strip(s.pending) != "" {
      RequestedKeeps(s, Strip(s.pending), saved);
    }
  }

  lemma RequestedKeeps(s: State, text: string, saved: bool)
    requires Ok(s) && !Busy(s) && s.active && |text| <= MAX_OUTPUT
    ensures Ok(Requested(s, text, saved)) && Moves(s, Requested(s, text, saved))
  {
    if saved {
      var asked := s.(history := Added(s.history, Message(User, text, Complete)), pending := "");
      AskedKeeps(s, text);
      ReplyingKeeps(asked);
      MovesOn(s, asked, Requested(s, text, saved));
    } else {
      BumpedKeeps(s);
    }
  }

  lemma ResumedKeeps(s: State, pending: string, now: int, cancelSaved: bool, saved: bool)
    requires Ok(s) && s.active && |pending| <= MAX_TEXT
    ensures var t := Resumed(s, pending, now, cancelSaved, saved).state; Ok(t) && Moves(s, t)
  {
    if Busy(s) {
      var cut := CutShort(s, now);
      CutShortKeeps(s, now);
      if CancelSaves(s, cancelSaved) {
        BegunKeeps(cut.(pending := pending), saved);
        MovesOn(s, cut.(pending := pending), Begun(cut.(pending := pending), saved).state);
      }
    } else {
      BegunKeeps(s.(pending := pending), saved);
    }
  }

  /** Queueing speech of the message that owns the generation. */
  lemma VoicedKeeps(s: State, message: nat, final: bool)
    requires Ok(s) && s.active && s.generation in s.owners && s.owners[s.generation] == message
    ensures var t := Voicing(s, message, final).state; Ok(t) && Moves(s, t)
  {
    var from := if s.first <= |s.speech.items| then s.first else 0;
    VoiceKeeps(s.speech, message, s.generation, final, s.owners, from);
  }

  lemma SaidKeeps(s: State, text: string)
    requires Ok(s) && !Busy(s) && |text| <= MAX_OUTPUT
    ensures Ok(WithAgentMessage(s, text)) && Moves(s, WithAgentMessage(s, text))
  {
    var t := WithAgentMessage(s, text);
    AddedKeeps(s.history, Message(Assistant, text, Complete));
    OwnedLater(s.speech.items, s.generation, s.owners, t.generation, t.owners);
  }

  lemma AgentSpokenKeeps(s: State, text: string, now: int, saved: bool)
    requires Ok(s)
    ensures var t := AgentSpoken(s, text, now, saved).state; Ok(t) && Moves(s, t)
  {
    if IsText(text) && InputLive(s, now) && !Busy(s) && s.speakReplies && saved {
      StripKeeps(text);
      var said := WithAgentMessage(s, Strip(text));
      SaidKeeps(s, Strip(text));
      VoicedKeeps(said, |s.history.log|, true);
      MovesOn(s, said, AgentSpoken(s, text, now, saved).state);
    }
  }

  lemma MarkedKeeps(s: State, id: nat, status: Playback)
    requires Ok(s) && id == FirstLive(s.speech.items) && id < |s.speech.items|
    requires !status.Pending? && (status.Playing? ==> s.speech.items[id].status.Pending?)
    ensures Ok(Marked(s, id, status)) && Moves(s, Marked(s, id, status))
  {
    var t := Marked(s, id, status);
    assert forall i | 0 <= i < |t.speech.items| && i != id :: t.speech.items[i] == s.speech.items[i];
    if s.current.Some? && s.whole {
      assert Texts(t.speech.items, s.first) == Texts(s.speech.items, s.first);
    }
  }

  lemma PieceEndedKeeps(s: State, id: nat, report: Report, now: int)
    requires Ok(s) && id == FirstLive(s.speech.items) && id < |s.speech.items|
    requires report.Finished? || report.Broken?
    ensures var t := PieceEnded(s, id, report, now); Ok(t) && Moves(s, t)
  {
    var ended := Marked(s, id, Ended(report)).(listenAfter := now + ECHO_TAIL);
    MarkedKeeps(s, id, Ended(report));
    StoppedKeeps(ended, now);
    MovesOn(s, ended, Stopped(ended, now));
  }

  lemma BeatKeeps(s: State, t: State, now: int)
    requires Ok(t) && Moves(s, t)
    ensures Ok(t.(heartbeatAt := now)) && Moves(s, t.(heartbeatAt := now))
  {
  }

  lemma ActedKeeps(s: State, id: nat, report: Report, now: int)
    requires Ok(s) && id < |s.speech.items| && InOrder(s.speech.items, id, report)
    ensures var t := Acted(s, id, report, now); Ok(t) && Moves(s, t)
  {
    if Plays(s.speech.items[id], report) {
      MarkedKeeps(s, id, Playing);
    } else if Ends(s.speech.items[id], report) {
      PieceEndedKeeps(s, id, report, now);
    } else {
      StaysPut(s);
    }
  }

  lemma ReportedKeeps(s: State, id: nat, report: Report, now: int, saved: bool)
    requires Ok(s) && id < |s.speech.items|
    ensures var t := Reported(s, id, report, now, saved).state; Ok(t) && Moves(s, t)
  {
    StaysPut(s);
    if InOrder(s.speech.items, id, report) {
      ActedKeeps(s, id, report, now);
      BeatKeeps(s, Acted(s, id, report, now), now);
    }
  }

  lemma HeardKeeps(s: State, client: string, report: Report, id: Option<nat>, now: int, saved: bool)
    requires Ok(s)
    ensures var t := Heard(s, client, report, id, now, saved).state; Ok(t) && Moves(s, t)
  {
    StaysPut(s);
    BeatKeeps(s, s, now);
    if id.Some? && id.value < |s.speech.items| {
      ReportedKeeps(s, id.value, report, now, saved);
    }
  }

  lemma MutedKeeps(s: State, speakReplies: bool, saved: bool)
    requires Ok(s)
    ensures var t := Muted(s, speakReplies, saved).state; Ok(t) && Moves(s, t)
  {
    QuietKeeps(s.speech, s.generation, s.generation, s.owners);
  }

  lemma ReplacedKeeps(s: State, texts: seq<(Role, string)>, saved: bool)
    requires Ok(s)
    ensures var t := Replaced(s, texts, saved).state; Ok(t) && Moves(s, t)
  {
    CharsShift(s.history.log, Entries(texts), 0);
  }

  /** What a failing step leaves, and then the end of the session. */
  lemma ThenAborted(s: State, t: State, now: int)
    requires Ok(t) && Moves(s, t)
    ensures Ok(Aborted(t, now)) && Moves(s, Aborted(t, now))
  {
    AbortedKeeps(t, now);
    MovesOn(s, t, Aborted(t, now));
  }

  lemma ExpiredKeeps(s: State, now: int)
    requires Ok(s)
    ensures Ok(Stopped(s, now)) && Moves(s, Stopped(s, now))
    ensures Ok(Aborted(Stopped(s, now), now)) && Moves(s, Aborted(Stopped(s, now), now))
  {
    StoppedKeeps(s, now);
    ThenAborted(s, Stopped(s, now), now);
  }

  lemma TurnKeeps(s: State, now: int, saved: bool)
    requires Ok(s) && !Busy(s) && s.active
    ensures var t := Begun(s, saved).state; Ok(t) && Moves(s, t) && Ok(Aborted(t, now)) && Moves(s, Aborted(t, now))
  {
    BegunKeeps(s, saved);
    ThenAborted(s, Begun(s, saved).state, now);
  }

  lemma TickedKeeps(s: State, quiet: bool, now: int, saved: bool)
    requires Ok(s)
    ensures Ok(Ticked(s, quiet, now, saved)) && Moves(s, Ticked(s, quiet, now, saved))
  {
    StaysPut(s);
    if s.active {
      if now - s.heartbeatAt >= LEASE {
        ExpiredKeeps(s, now);
      } else if !Busy(s) {
        TurnKeeps(s, now, saved);
      }
    }
  }

  /** The reply and the buffer grow by the same text. */
  lemma GrownKeeps(s: State, text: string)
    requires Ok(s) && s.current.Some?
    requires |s.history.log[s.current.value].content| + |text| <= MAX_OUTPUT
    ensures Ok(Grown(s, text).(whole := false))
    ensures var t := Grown(s, text).(speech := s.speech.(buffer := s.speech.buffer + text)); Ok(t) && Moves(s, t)
  {
    var m := s.current.value;
    var message := s.history.log[m].(content := s.history.log[m].content + text);
    TrimmedKeepsLast(s.history.(log := s.history.log[m := message]));
    SqueezedConcat(s.history.log[m].content, text);
    SqueezedConcat(s.speech.buffer, text);
    if s.whole {
      Associates(Squeezed(Joined(Texts(s.speech.items, s.first))), Squeezed(s.speech.buffer), Squeezed(text));
    }
  }

  lemma ExtendedKeeps(s: State, generation: nat, text: string)
    requires Ok(s)
    ensures var t := Extended(s, generation, text).state; Ok(t) && Moves(s, t)
  {
    if Valid(s, generation) && |s.history.log[s.current.value].content| + |text| <= MAX_OUTPUT {
      var grown := Grown(s, text).(speech := s.speech.(buffer := s.speech.buffer + text));
      GrownKeeps(s, text);
      if s.speakReplies {
        VoicedKeeps(grown, s.current.value, false);
        MovesOn(s, grown, Extended(s, generation, text).state);
      }
    }
  }

  lemma SettledKeeps(s: State, status: Status, saved: bool)
    requires Ok(s) && s.current.Some? && !status.Streaming?
    ensures Ok(Settled(s, status, saved)) && Moves(s, Settled(s, status, saved))
  {
    ClosedKeeps(s, status);
  }

  lemma CompletedKeeps(s: State, generation: nat, truncated: bool, saved: bool)
    requires Ok(s)
    ensures var t := Completed(s, generation, truncated, saved).state; Ok(t) && Moves(s, t)
  {
    StaysPut(s);
    if Valid(s, generation) && !Blank(s.history.log[s.current.value].content) {
      var voiced, status := Voicing(s, s.current.value, true), if truncated then Truncated else Complete;
      VoicedKeeps(s, s.current.value, true);
      if voiced.ok {
        SettledKeeps(voiced.state, status, saved);
        MovesOn(s, voiced.state, Settled(voiced.state, status, saved));
      }
    }
  }

  lemma FailedKeeps(s: State, generation: nat, saved: bool)
    requires Ok(s)
    ensures Ok(FailedWith(s, generation, saved)) && Moves(s, FailedWith(s, generation, saved))
  {
    ClosedKeeps(s, Failed);
    QuietKeeps(s.speech, s.generation, s.generation + 1, s.owners);
  }

  // ---------------------------------------------------------------- every run

  const FRESH: State := State(false, None, 0, None, History([], 0), Speech([], 0, ""), "", true, 0, 0, 0, map[], 0, false)

  lemma FreshOk()
    ensures Ok(FRESH)
  {
  }

  lemma StoppedByKeeps(s: State, client: string, now: int, saved: bool)
    requires Ok(s)
    ensures var t := StoppedBy(s, client, now, saved).state; Ok(t) && Moves(s, t)
  {
    StoppedKeeps(s, now);
  }

  lemma InterruptedByKeeps(s: State, client: string, now: int, saved: bool)
    requires Ok(s)
    ensures var t := InterruptedBy(s, client, now, saved).state; Ok(t) && Moves(s, t)
  {
    CutShortKeeps(s, now);
  }

  lemma SubmittedKeeps(s: State, client: string, text: string, now: int, cancelSaved: bool, saved: bool)
    requires Ok(s)
    ensures var t := Submitted(s, client, text, now, cancelSaved, saved).state; Ok(t) && Moves(s, t)
  {
    if IsText(Combined(s.pending, Strip(text))) && s.active {
      ResumedKeeps(s, Combined(s.pending, Strip(text)), now, cancelSaved, saved);
    }
  }

  lemma SentKeeps(s: State, client: string, now: int, cancelSaved: bool, saved: bool)
    requires Ok(s)
    ensures var t := Sent(s, client, now, cancelSaved, saved).state; Ok(t) && Moves(s, t)
  {
    if s.active {
      ResumedKeeps(s, s.pending, now, cancelSaved, saved);
    }
  }

  lemma CaptionedKeeps(s: State, text: string, now: int)
    requires Ok(s)
    ensures var t := Captioned(s, text, now).state; Ok(t) && Moves(s, t)
  {
  }

  predicate FromBrowser(call: Call) {
    call.Start? || call.Stop? || call.Interrupt? || call.Submit? || call.Send? || call.Heartbeat? || call.Mute?
    || call.SetHistory?
  }

  lemma BrowserStepKeeps(s: State, call: Call)
    requires Ok(s) && FromBrowser(call)
    ensures Ok(Step(s, call)) && Moves(s, Step(s, call))
  {
    match call
    case Start(client, ready, now, saved) => StartedKeeps(s, client, ready, now, saved);
    case Stop(client, now, saved) => StoppedByKeeps(s, client, now, saved);
    case Interrupt(client, now, saved) => InterruptedByKeeps(s, client, now, saved);
    case Submit(client, text, now, cancelSaved, saved) => SubmittedKeeps(s, client, text, now, cancelSaved, saved);
    case Send(client, now, cancelSaved, saved) => SentKeeps(s, client, now, cancelSaved, saved);
    case Heartbeat(client, report, id, now, saved) => HeardKeeps(s, client, report, id, now, saved);
    case Mute(speakReplies, saved) => MutedKeeps(s, speakReplies, saved);
    case SetHistory(texts, saved) => ReplacedKeeps(s, texts, saved);
  }

  lemma StepKeeps(s: State, call: Call)
    requires Ok(s)
    ensures Ok(Step(s, call)) && Moves(s, Step(s, call))
  {
    match call
    case SpeakAgent(text, now, saved) => AgentSpokenKeeps(s, text, now, saved);
    case Caption(text, now) => CaptionedKeeps(s, text, now);
    case Tick(quiet, now, saved) => TickedKeeps(s, quiet, now, saved);
    case Abort(now) => AbortedKeeps(s, now);
    case Delta(generation, text) => ExtendedKeeps(s, generation, text);
    case Finish(generation, truncated, saved) => CompletedKeeps(s, generation, truncated, saved);
    case Fail(generation, saved) => FailedKeeps(s, generation, saved);
    case _ => BrowserStepKeeps(s, call);
  }

  /** The invariant holds over every run, and a run moves as one step may. */
  lemma {:induction false} RunKeeps(s: State, calls: seq<Call>)
    requires Ok(s)
    ensures Ok(Run(s, calls)) && Moves(s, Run(s, calls))
    decreases |calls|
  {
    if calls != [] {
      var t := Step(s, calls[0]);
      StepKeeps(s, calls[0]);
      RunKeeps(t, calls[1..]);
      MovesOn(s, t, Run(s, calls));
    }
  }

  /** Generation isolation: once a request may no longer act it never may again, whatever happens; its deltas,
      its completion and its failure then change nothing at all. */
  lemma {:induction false} StaleForever(s: State, generation: nat, calls: seq<Call>, late: Call)
    requires Ok(s) && generation <= s.generation && !Valid(s, generation)
    requires OfRequest(late, generation)
    ensures !Valid(Run(s, calls), generation)
    ensures Step(Run(s, calls), late) == Run(s, calls)
  {
    RunKeeps(s, calls);
  }

  /** A step of a request touches at most the one message its generation ever had. */
  lemma {:induction false} RequestTouchesItsOwn(s: State, generation: nat, late: Call, calls: seq<Call>, i: nat)
    requires Ok(s) && OfRequest(late, generation) && i < |s.history.log|
    requires generation in s.owners ==> s.owners[generation] != i
    ensures var u := Run(s, calls);
            && i < |u.history.log| <= |Step(u, late).history.log|
            && Step(u, late).history.log[i] == u.history.log[i]
  {
    RunKeeps(s, calls);
    TouchesNoOther(Run(s, calls), generation, late, i);
  }

  lemma TouchesNoOther(s: State, generation: nat, late: Call, i: nat)
    requires Ok(s) && OfRequest(late, generation) && i < |s.history.log|
    requires generation in s.owners ==> s.owners[generation] != i
    ensures |s.history.log| <= |Step(s, late).history.log| && Step(s, late).history.log[i] == s.history.log[i]
  {
    StepKeeps(s, late);
  }

  /** A generation keeps its message and shares it with no other, and every piece queued under the generation
      is of that message. */
  lemma {:induction false} OneMessageToAGeneration(s: State, calls: seq<Call>, g: nat, k: nat)
    requires Ok(s) && g in s.owners
    ensures var u := Run(s, calls);
            && g in u.owners && u.owners[g] == s.owners[g]
            && (k in u.owners && u.owners[k] == u.owners[g] ==> k == g)
            && (forall i | 0 <= i < |u.speech.items| && u.speech.items[i].generation == g ::
                  u.speech.items[i].message == s.owners[g])
  {
    RunKeeps(s, calls);
  }

  /** A message that is not current is settled: no run changes it. */
  lemma {:induction false} SettledForever(s: State, calls: seq<Call>, i: nat)
    requires Ok(s) && i < |s.history.log| && s.current != Some(i)
    ensures i < |Run(s, calls).history.log| && Run(s, calls).history.log[i] == s.history.log[i]
  {
    RunKeeps(s, calls);
  }

  /** The streaming message is always the last one stored. */
  lemma {:induction false} StreamingIsLast(s: State, calls: seq<Call>, i: nat)
    requires Ok(s)
    requires i < |Run(s, calls).history.log| && Run(s, calls).history.log[i].status.Streaming?
    ensures var u := Run(s, calls);
            u.history.dropped <= i == |u.history.log| - 1 && u.current == Some(i) && Valid(u, u.generation)
  {
    RunKeeps(s, calls);
  }

  /** The speech queue over every run: pieces stay where they are and only move forward, live pieces are in the
      queue, the ended ones before them, and at most one, the first live one, is playing. */
  lemma {:induction false} PlaybackInOrder(s: State, calls: seq<Call>)
    requires Ok(s)
    ensures var items, later := s.speech.items, Run(s, calls).speech.items;
            && |items| <= |later|
            && (forall i | 0 <= i < |items| :: ItemMoves(items[i], later[i]))
            && (forall i | 0 <= i < |later| && Live(later[i]) :: Run(s, calls).speech.evicted <= i)
            && (forall i, j | 0 <= i < j < |later| && Live(later[i]) :: later[j].status.Pending?)
            && |later| - Run(s, calls).speech.evicted <= MAX_QUEUE
  {
    RunKeeps(s, calls);
  }

  // ---------------------------------------------------------------- what single calls promise

  lemma RequestedIs(s: State, text: string)
    requires s.Formed()
    ensures var t, n := Requested(s, text, true), |s.history.log|;
            && t.history.log == s.history.log + [Message(User, text, Complete)] + [Message(Assistant, "", Streaming)]
            && t.current == Some(n + 1) && t.pending == "" && t.generation == s.generation + 1
            && t.speech.items == s.speech.items
  {
  }

  /** Submitted text becomes the question of a new request, joined to what was pending; a reply in the way is
      interrupted and nothing is left to be spoken. */
  lemma SubmittedIsAsked(s: State, client: string, text: string, now: int, cancelSaved: bool, saved: bool)
    requires Ok(s) && Submitted(s, client, text, now, cancelSaved, saved).ok
    ensures var t, n := Submitted(s, client, text, now, cancelSaved, saved).state, |s.history.log|;
            && |t.history.log| == n + 2
            && t.history.log[n] == Message(User, Strip(Combined(s.pending, Strip(text))), Complete)
            && t.history.log[n + 1] == Message(Assistant, "", Streaming)
            && t.current == Some(n + 1) && t.pending == "" && s.generation < t.generation
            && !AnyLive(t.speech.items)
            && (s.current.Some? ==> t.history.log[s.current.value] == s.history.log[s.current.value].(status := Interrupted))
  {
    var pending := Combined(s.pending, Strip(text));
    var u := (if Busy(s) then CutShort(s, now) else s).(pending := pending);
    CutShortKeeps(s, now);
    RequestedIs(u, Strip(pending));
  }

  /** When the request cannot be stored the text stays pending. */
  lemma UnstoredStaysPending(s: State, client: string, text: string, now: int, cancelSaved: bool)
    requires Ok(s) && IsText(text) && Owns(s, client, now) && IsText(Combined(s.pending, Strip(text)))
    requires Busy(s) ==> CancelSaves(s, cancelSaved)
    ensures var r := Submitted(s, client, text, now, cancelSaved, false);
            !r.ok && r.state.pending == Combined(s.pending, Strip(text)) && r.state.current.None?
  {
    StripKeeps(Combined(s.pending, Strip(text)));
  }

  /** A piece ends only when every piece before it has; otherwise the report is refused and changes nothing. */
  lemma EndsInOrder(s: State, client: string, report: Report, id: nat, now: int)
    requires Ok(s) && Owns(s, client, now) && Current(s.speech, id, s.generation) && Ends(s.speech.items[id], report)
    ensures var r, first := Heard(s, client, report, Some(id), now, true), forall i | 0 <= i < id :: !Live(s.speech.items[i]);
            && (r.ok <==> first)
            && (r.ok ==> id < |r.state.speech.items| && r.state.speech.items[id].status == Ended(report))
            && (!r.ok ==> r.state == s)
  {
    if forall i | 0 <= i < id :: !Live(s.speech.items[i]) {
      FirstLiveIs(s.speech.items, id);
    }
  }

  /** A report that goes through is acknowledged exactly when its piece is then in the state it says. */
  lemma AcknowledgedIff(s: State, client: string, report: Report, id: nat, now: int, saved: bool)
    requires Ok(s) && Current(s.speech, id, s.generation)
    requires Heard(s, client, report, Some(id), now, saved).ok
    ensures var items := Heard(s, client, report, Some(id), now, saved).state.speech.items;
            && |items| == |s.speech.items|
            && (Confirms(s.speech.items[id], report) <==> Says(report) == Some(items[id].status))
  {
  }

  // ---------------------------------------------------------------- a reply is spoken whole

  predicate LeavesSpeechOn(call: Call) {
    call.Mute? ==> call.speakReplies
  }

  ghost predicate StaysWhole(s: State, t: State) {
    t.speakReplies && (t.current == s.current ==> t.whole && t.first == s.first)
  }

  lemma RequestStaysWhole(s: State, pending: string, now: int, cancelSaved: bool, saved: bool)
    requires s.Formed() && s.speakReplies && s.current.Some? && s.whole
    ensures StaysWhole(s, Resumed(s, pending, now, cancelSaved, saved).state)
  {
    assert |CutShort(s, now).history.log| == |s.history.log|;
  }

  lemma ReplyStaysWhole(s: State, call: Call)
    requires s.Formed() && s.speakReplies && s.current.Some? && s.whole
    requires call.Delta? || call.Finish? || call.Fail?
    ensures StaysWhole(s, Step(s, call))
  {
  }

  lemma NoRequestStaysWhole(s: State, call: Call)
    requires s.Formed() && s.speakReplies && LeavesSpeechOn(call) && s.current.Some? && s.whole
    requires call.Mute? || call.SetHistory? || call.Caption? || call.SpeakAgent? || call.Heartbeat?
    ensures StaysWhole(s, Step(s, call))
  {
  }

  lemma WholeStays(s: State, call: Call)
    requires s.Formed() && s.speakReplies && LeavesSpeechOn(call)
    requires s.current.Some? && s.whole
    ensures StaysWhole(s, Step(s, call))
  {
    match call
    case Submit(client, text, now, cancelSaved, saved) =>
      RequestStaysWhole(s, Combined(s.pending, Strip(text)), now, cancelSaved, saved);
    case Send(client, now, cancelSaved, saved) => RequestStaysWhole(s, s.pending, now, cancelSaved, saved);
    case Delta(generation, text) => ReplyStaysWhole(s, call);
    case Finish(generation, truncated, saved) => ReplyStaysWhole(s, call);
    case Fail(generation, saved) => ReplyStaysWhole(s, call);
    case Start(client, ready, now, saved) =>
    case Stop(client, now, saved) =>
    case Interrupt(client, now, saved) =>
    case Abort(now) =>
    case Tick(quiet, now, saved) => TickStaysWhole(s, quiet, now, saved);
    case _ => NoRequestStaysWhole(s, call);
  }

  lemma TickStaysWhole(s: State, quiet: bool, now: int, saved: bool)
    requires s.Formed() && s.speakReplies && s.current.Some? && s.whole
    ensures StaysWhole(s, Ticked(s, quiet, now, saved))
  {
  }

  lemma {:induction false} WholeRun(s: State, calls: seq<Call>)
    requires Ok(s) && s.speakReplies && s.current.Some? && s.whole
    requires forall i | 0 <= i < |calls| :: LeavesSpeechOn(calls[i])
    requires Run(s, calls).current == s.current
    ensures Run(s, calls).whole && Run(s, calls).first == s.first
    decreases |calls|
  {
    if calls != [] {
      var t := Step(s, calls[0]);
      StepKeeps(s, calls[0]);
      WholeStays(s, calls[0]);
      RunKeeps(t, calls[1..]);
      assert LeavesSpeechOn(calls[0]);
      assert t.current == s.current;
      WholeRun(t, calls[1..]);
    }
  }

  /** However a reply arrives, if speech is left on and the reply completes, the pieces queued since it began
      hold all of it in order, up to white space. */
  lemma ReplySpokenWhole(s: State, calls: seq<Call>, truncated: bool, saved: bool)
    requires Ok(s) && s.active && !Busy(s) && s.speakReplies && Begun(s, saved).ok
    requires forall i | 0 <= i < |calls| :: LeavesSpeechOn(calls[i])
    requires Run(Begun(s, saved).state, calls).current == Begun(s, saved).state.current
    requires Completed(Run(Begun(s, saved).state, calls), s.generation + 1, truncated, true).ok
    ensures var u := Completed(Run(Begun(s, saved).state, calls), s.generation + 1, truncated, true).state;
            var m := Begun(s, saved).state.current.value;
            && u.current.None? && m < |u.history.log| && |s.speech.items| <= |u.speech.items|
            && Squeezed(Joined(Texts(u.speech.items, |s.speech.items|))) == Squeezed(u.history.log[m].content)
  {
    var begun := Begun(s, saved).state;
    var t := Run(begun, calls);
    BegunKeeps(s, saved);
    RunKeeps(begun, calls);
    WholeRun(begun, calls);
    CompletedSpoken(t, s.generation + 1, truncated);
  }

  /** A completion queues the end of a reply that has been spoken whole so far. */
  lemma CompletedSpoken(t: State, generation: nat, truncated: bool)
    requires Ok(t) && t.current.Some? && t.whole && Valid(t, generation)
    requires Completed(t, generation, truncated, true).ok
    ensures var u, m := Completed(t, generation, truncated, true).state, t.current.value;
            && u.current.None? && m < |u.history.log| && t.first <= |u.speech.items|
            && Squeezed(Joined(Texts(u.speech.items, t.first))) == Squeezed(u.history.log[m].content)
  {
    VoiceKeeps(t.speech, t.current.value, t.generation, true, t.owners, t.first);
  }

  // ---------------------------------------------------------------- when speech fits the queue

  /** How many more pieces the queue can take before one must be played. */
  function Room(p: Speech): int {
    MAX_QUEUE - (|p.items| - FirstLive(p.items))
  }

  function Pieces(chunks: seq<string>, message: nat, generation: nat): seq<Item> {
    seq(|chunks|, i requires 0 <= i < |chunks| => Item(message, chunks[i], generation, Pending))
  }

  lemma {:induction false} FirstLiveIs(items: seq<Item>, first: nat)
    requires first <= |items| && (forall i | 0 <= i < first :: !Live(items[i]))
    requires first < |items| ==> Live(items[first])
    ensures FirstLive(items) == first
  {
  }

  lemma QueuedRoom(p: Speech, item: Item)
    requires QueueOk(p) && item.status.Pending?
    ensures Room(p) >= 0
    ensures Queued(p, item).Some? <==> Room(p) > 0
    ensures Room(p) > 0 ==>
              var q := Queued(p, item).value;
              QueueOk(q) && q.items == p.items + [item] && Room(q) == Room(p) - 1
  {
    if Room(p) > 0 {
      FirstLiveIs(p.items + [item], FirstLive(p.items));
    }
  }

  /** The pieces that fit are queued in order: all of them exactly when there is room. */
  predicate QueuesChunks(items: seq<Item>, room: int, v: Voiced, cut: Cut, message: nat, generation: nat) {
    && (v.ok <==> |cut.chunks| <= room)
    && (v.ok ==> v.speech.buffer == cut.rest && v.speech.items == items + Pieces(cut.chunks, message, generation))
    && (!v.ok ==> 0 <= room && v.speech.items == items + Pieces(cut.chunks[..room], message, generation))
  }

  lemma OnePieceMore(items: seq<Item>, room: nat, v: Voiced, text: string, cut: Cut, message: nat, generation: nat)
    requires QueuesChunks(items + [Item(message, text, generation, Pending)], room, v, cut, message, generation)
    ensures QueuesChunks(items, room + 1, v, Cut([text] + cut.chunks, cut.rest), message, generation)
  {
    var item := Item(message, text, generation, Pending);
    var chunks := [text] + cut.chunks;
    if v.ok {
      assert Pieces(chunks, message, generation) == [item] + Pieces(cut.chunks, message, generation);
    } else {
      assert chunks[..room + 1] == [text] + cut.chunks[..room];
      assert Pieces(chunks[..room + 1], message, generation) == [item] + Pieces(cut.chunks[..room], message, generation);
    }
  }

  lemma NoPieceMore(items: seq<Item>, v: Voiced, cut: Cut, message: nat, generation: nat)
    requires !v.ok && v.speech.items == items && |cut.chunks| > 0
    ensures QueuesChunks(items, 0, v, cut, message, generation)
  {
    assert Pieces(cut.chunks[..0], message, generation) == [];
  }

  lemma NoPieces(items: seq<Item>, room: nat, v: Voiced, message: nat, generation: nat)
    requires v.ok && v.speech.items == items
    ensures QueuesChunks(items, room, v, Cut([], v.speech.buffer), message, generation)
  {
    assert Pieces([], message, generation) == [];
  }

  lemma {:induction false} ChunkedNext(buffer: string, final: bool, cut: nat)
    requires cut == CutAt(buffer, final) > 0
    ensures |StripLeft(buffer[cut..])| < |buffer|
    ensures var text, later := Strip(buffer[..cut]), Chunked(StripLeft(buffer[cut..]), final);
            Chunked(buffer, final) == if text == "" then later else Cut([text] + later.chunks, later.rest)
  {
    StripLeftKeeps(buffer[cut..]);
  }

  lemma {:induction false} VoiceQueuesChunks(p: Speech, message: nat, generation: nat, final: bool)
    requires QueueOk(p)
    ensures QueuesChunks(p.items, Room(p), Voice(p, message, generation, final), Chunked(p.buffer, final), message, generation)
    decreases |p.buffer|
  {
    var cut := CutAt(p.buffer, final);
    var v := Voice(p, message, generation, final);
    if cut == 0 {
      QueuedRoom(p, Item(message, "", generation, Pending));
      NoPieces(p.items, Room(p), v, message, generation);
    } else {
      var text, rest := Strip(p.buffer[..cut]), StripLeft(p.buffer[cut..]);
      var item := Item(message, text, generation, Pending);
      ChunkedNext(p.buffer, final, cut);
      QueuedRoom(p, item);
      if text == "" {
        VoiceQueuesChunks(p.(buffer := rest), message, generation, final);
      } else if Room(p) > 0 {
        var q := Queued(p, item).value.(buffer := rest);
        VoiceQueuesChunks(q, message, generation, final);
        OnePieceMore(p.items, Room(q), v, text, Chunked(rest, final), message, generation);
      } else {
        NoPieceMore(p.items, v, Chunked(p.buffer, final), message, generation);
      }
    }
  }

  /** Speech of another agent is accepted exactly when it makes at most 128 pieces; a longer one is refused with
      its message stored and its first 128 pieces already queued. */
  lemma AgentSpeechFits(s: State, text: string, now: int)
    requires Ok(s) && IsText(text) && InputLive(s, now) && !Busy(s) && s.speakReplies
    ensures var r, chunks := AgentSpoken(s, text, now, true), Chunked(Strip(text), true).chunks;
            && (r.ok <==> |chunks| <= MAX_QUEUE)
            && r.state.history.log == s.history.log + [Message(Assistant, Strip(text), Complete)]
            && r.state.speech.items == s.speech.items
               + Pieces(if r.ok then chunks else chunks[..MAX_QUEUE], |s.history.log|, s.generation + 1)
  {
    NoneLive(s.speech.items);
    FirstLiveIs(s.speech.items, |s.speech.items|);
    VoiceQueuesChunks(s.speech.(buffer := Strip(text)), |s.history.log|, s.generation + 1, true);
  }

  /** A text that is refused so: 129 sentences. */
  lemma ManySentencesRefused(s: State, now: int)
    requires Ok(s) && InputLive(s, now) && !Busy(s) && s.speakReplies
    ensures IsText(Sentences(MAX_QUEUE))
    ensures var r := AgentSpoken(s, Sentences(MAX_QUEUE), now, true);
            !r.ok && |r.state.speech.items| == |s.speech.items| + MAX_QUEUE
  {
    var text := Sentences(MAX_QUEUE);
    assert text[0] == text[..2][0];
    SentencesStripped(MAX_QUEUE);
    SentencesChunked(MAX_QUEUE, true);
    AgentSpeechFits(s, text, now);
  }
}
