// The conversation of src/ws_collab/language_chat.py as values: what each public call and each step of a
// request to the model does to it. The class in LanguageChat.dfy updates the same state in place and is proved
// against these functions.
module Chat {
  import opened Sequences
  import opened SpeechChunks

  const MAX_TEXT: nat := 16384
  const MAX_OUTPUT: nat := 32768
  const MAX_HISTORY_CHARS: nat := 131072
  const MAX_MESSAGES: nat := 100
  const MAX_QUEUE: nat := 128
  /** Times are whole milliseconds. */
  const LEASE: int := 15000
  const ECHO_TAIL: int := 500
  const SETTLE: int := 350

  // ---------------------------------------------------------------- history

  datatype Role = User | Assistant
  datatype Status = Streaming | Complete | Interrupted | Failed | Truncated
  datatype Message = Message(role: Role, content: string, status: Status)

  /** Every message there ever was, in order. The first `dropped` of them have been trimmed away or replaced;
      the stored history is the rest. A message is known by its position. */
  datatype History = History(log: seq<Message>, dropped: nat)

  function Chars(log: seq<Message>, from: nat): nat
    requires from <= |log|
    decreases |log| - from
  {
    if from == |log| then 0 else |log[from].content| + Chars(log, from + 1)
  }

  predicate Fits(h: History)
    requires h.dropped <= |h.log|
  {
    |h.log| - h.dropped <= MAX_MESSAGES && Chars(h.log, h.dropped) <= MAX_HISTORY_CHARS
  }

  /** Drops messages from the front until the rest fits. */
  function Trimmed(h: History): (t: History)
    requires h.dropped <= |h.log|
    ensures t.log == h.log && h.dropped <= t.dropped <= |t.log| && Fits(t)
    decreases |h.log| - h.dropped
  {
    if Fits(h) then h else Trimmed(h.(dropped := h.dropped + 1))
  }

  function Added(h: History, message: Message): (t: History)
    requires h.dropped <= |h.log|
    ensures h.dropped <= t.dropped <= |t.log| && t.log == h.log + [message] && Fits(t)
  {
    Trimmed(h.(log := h.log + [message]))
  }

  // ---------------------------------------------------------------- speech queue

  datatype Playback = Pending | Playing | Done | Errored | Cancelled

  /** A piece of speech: the message it belongs to and the generation that queued it. */
  datatype Item = Item(message: nat, text: string, generation: nat, status: Playback)

  predicate Live(item: Item) {
    item.status.Pending? || item.status.Playing?
  }

  /** Every piece ever queued, in order, and the text waiting to be cut. The first `evicted` pieces have left
      the queue; the queue is the rest. A piece is known by its position. */
  datatype Speech = Speech(items: seq<Item>, evicted: nat, buffer: string)

  predicate AnyLive(items: seq<Item>) {
    exists i :: 0 <= i < |items| && Live(items[i])
  }

  /** The position of the first live piece, or the number of pieces. */
  function FirstLive(items: seq<Item>): (first: nat)
    ensures first <= |items|
    ensures forall i | 0 <= i < first :: !Live(items[i])
    ensures first < |items| ==> Live(items[first])
  {
    if items == [] then 0
    else if Live(items[0]) then 0
    else
      var rest := FirstLive(items[1..]);
      assert forall i | 1 <= i < 1 + rest :: items[i] == items[1..][i - 1];
      1 + rest
  }

  function Silenced(item: Item): Item {
    if Live(item) then item.(status := Cancelled) else item
  }

  function AllSilenced(items: seq<Item>): seq<Item> {
    seq(|items|, i requires 0 <= i < |items| => Silenced(items[i]))
  }

  /** Puts a piece at the end, evicting the first piece of a full queue if it has ended. Nothing if it has not. */
  function Queued(p: Speech, item: Item): Option<Speech>
    requires p.evicted <= |p.items|
  {
    if |p.items| - p.evicted < MAX_QUEUE then Some(p.(items := p.items + [item]))
    else if Live(p.items[p.evicted]) then None
    else Some(p.(items := p.items + [item], evicted := p.evicted + 1))
  }

  /** What became of the speech, and whether there was room for all of it. */
  datatype Voiced = Voiced(speech: Speech, ok: bool)

  /** Queues the sentences of the buffer; when `final`, all of it. */
  function Voice(p: Speech, message: nat, generation: nat, final: bool): (v: Voiced)
    requires p.evicted <= |p.items|
    ensures v.speech.evicted <= |v.speech.items|
    decreases |p.buffer|
  {
    var cut := CutAt(p.buffer, final);
    if cut == 0 then Voiced(p, true)
    else
      var text := Strip(p.buffer[..cut]);
      var queued := if text == "" then Some(p) else Queued(p, Item(message, text, generation, Pending));
      match queued
      case None => Voiced(p, false)
      case Some(q) =>
        StripLeftKeeps(p.buffer[cut..]);
        Voice(q.(buffer := StripLeft(p.buffer[cut..])), message, generation, final)
  }

  // ---------------------------------------------------------------- state

  /** `owners` tells which message each generation that had one belongs to. `first` is the number of pieces
      queued before the current message began, and `whole` holds while all of it was to be spoken. */
  datatype State = State(
    active: bool, client: Option<string>, generation: nat, current: Option<nat>,
    history: History, speech: Speech, pending: string, speakReplies: bool,
    heartbeatAt: int, listenAfter: int, lastInputAt: int,
    owners: map<nat, nat>, first: nat, whole: bool)
  {
    /** What every function below needs to read the state. */
    predicate Formed() {
      && history.dropped <= |history.log|
      && speech.evicted <= |speech.items|
      && (current.Some? ==> current.value < |history.log|)
    }
  }

  /** The state after a call, and whether the call succeeded or raised. */
  datatype Reply = Reply(state: State, ok: bool)

  predicate Busy(s: State) {
    s.current.Some? || AnyLive(s.speech.items)
  }

  predicate InputLive(s: State, now: int) {
    s.active && now - s.heartbeatAt < LEASE
  }

  predicate InputReady(s: State, now: int) {
    s.active && !Busy(s) && now >= s.listenAfter
  }

  predicate Owns(s: State, client: string, now: int) {
    InputLive(s, now) && s.client == Some(client)
  }

  /** Whether a step of the request of a generation may still act. */
  predicate Valid(s: State, generation: nat) {
    s.active && generation == s.generation && s.current.Some?
  }

  /** The pending text with more text after it. */
  function Combined(pending: string, text: string): string {
    if pending == "" then text else if text == "" then pending else pending + " " + text
  }

  // ---------------------------------------------------------------- ending a reply

  function Closed(s: State, status: Status): (t: State)
    requires s.Formed()
    ensures t.Formed()
  {
    if s.current.None? then s
    else
      var m := s.current.value;
      s.(current := None, history := s.history.(log := s.history.log[m := s.history.log[m].(status := status)]))
  }

  function Quiet(p: Speech): Speech {
    Speech(AllSilenced(p.items), p.evicted, "")
  }

  function CutShort(s: State, now: int): (t: State)
    requires s.Formed()
    ensures t.Formed()
  {
    Closed(s, Interrupted).(generation := s.generation + 1, speech := Quiet(s.speech), listenAfter := now + ECHO_TAIL)
  }

  /** Cancelling stores the history only if it closed a message. */
  predicate CancelSaves(s: State, saved: bool) {
    s.current.Some? ==> saved
  }

  function Stopped(s: State, now: int): (t: State)
    requires s.Formed()
    ensures t.Formed()
  {
    CutShort(s, now).(active := false, client := None, pending := "")
  }

  /** A failed callback or a failed tick. */
  function Aborted(s: State, now: int): (t: State)
    requires s.Formed()
    ensures t.Formed()
  {
    CutShort(s, now).(active := false, client := None)
  }

  // ---------------------------------------------------------------- calls from the browser

  /** Starting when no lease has run out: the owner goes on, another browser is refused. */
  function Admitted(s: State, client: string, now: int): (r: Reply)
    requires s.Formed()
    ensures r.state.Formed()
  {
    if s.active then
      if s.client == Some(client) then Reply(s.(heartbeatAt := now), true) else Reply(s, false)
    else
      Reply(s.(active := true, client := Some(client), pending := "", generation := s.generation + 1,
               heartbeatAt := now), true)
  }

  function Started(s: State, client: string, ready: bool, now: int, saved: bool): (r: Reply)
    requires s.Formed()
    ensures r.state.Formed()
  {
    if !ready then Reply(s, false)
    else if s.active && now - s.heartbeatAt >= LEASE then
      if CancelSaves(s, saved) then Admitted(Stopped(s, now), client, now) else Reply(Stopped(s, now), false)
    else Admitted(s, client, now)
  }

  function StoppedBy(s: State, client: string, now: int, saved: bool): (r: Reply)
    requires s.Formed()
    ensures r.state.Formed()
  {
    if !s.active then Reply(s, true)
    else if s.client != Some(client) then Reply(s, false)
    else Reply(Stopped(s, now), CancelSaves(s, saved))
  }

  function InterruptedBy(s: State, client: string, now: int, saved: bool): (r: Reply)
    requires s.Formed()
    ensures r.state.Formed()
  {
    if !Owns(s, client, now) then Reply(s, false)
    else if !CancelSaves(s, saved) then Reply(CutShort(s, now), false)
    else Reply(CutShort(s, now).(pending := ""), true)
  }

  /** An empty reply enters the history and belongs to the generation. */
  function Replying(s: State): (t: State)
    requires s.Formed()
    ensures t.Formed()
  {
    var reply := |s.history.log|;
    s.(history := Added(s.history, Message(Assistant, "", Streaming)), current := Some(reply),
       speech := s.speech.(buffer := ""), owners := s.owners[s.generation := reply],
       first := |s.speech.items|, whole := true)
  }

  /** A request: the user's message and an empty reply enter the history. When the history cannot be stored
      only the generation moves on. */
  function Requested(s: State, text: string, saved: bool): (t: State)
    requires s.Formed()
    ensures t.Formed()
  {
    var t := s.(generation := s.generation + 1);
    if !saved then t
    else Replying(t.(history := Added(s.history, Message(User, text, Complete)), pending := ""))
  }

  /** A request for the pending text. */
  function Begun(s: State, saved: bool): (r: Reply)
    requires s.Formed()
    ensures r.state.Formed()
  {
    if Strip(s.pending) == "" then Reply(s, false) else Reply(Requested(s, Strip(s.pending), saved), saved)
  }

  /** Begins, cancelling first if a reply is in the way. */
  function Resumed(s: State, pending: string, now: int, cancelSaved: bool, saved: bool): (r: Reply)
    requires s.Formed()
    ensures r.state.Formed()
  {
    if Busy(s) then
      if !CancelSaves(s, cancelSaved) then Reply(CutShort(s, now), false)
      else Begun(CutShort(s, now).(pending := pending), saved)
    else Begun(s.(pending := pending), saved)
  }

  predicate IsText(text: string) {
    |text| <= MAX_TEXT && !Blank(text)
  }

  function Submitted(s: State, client: string, text: string, now: int, cancelSaved: bool, saved: bool): (r: Reply)
    requires s.Formed()
    ensures r.state.Formed()
  {
    if !IsText(text) || !Owns(s, client, now) || !IsText(Combined(s.pending, Strip(text))) then Reply(s, false)
    else Resumed(s, Combined(s.pending, Strip(text)), now, cancelSaved, saved)
  }

  function Sent(s: State, client: string, now: int, cancelSaved: bool, saved: bool): (r: Reply)
    requires s.Formed()
    ensures r.state.Formed()
  {
    if !Owns(s, client, now) || Strip(s.pending) == "" then Reply(s, false)
    else Resumed(s, s.pending, now, cancelSaved, saved)
  }

  /** Hands the buffer to the queue for a message of the current generation. */
  function Voicing(s: State, message: nat, final: bool): (r: Reply)
    requires s.Formed()
    ensures r.state.Formed()
  {
    var v := Voice(s.speech, message, s.generation, final);
    Reply(s.(speech := v.speech), v.ok)
  }

  /** The complete message of another agent, under a new generation, and its text to be spoken. */
  function WithAgentMessage(s: State, text: string): (t: State)
    requires s.Formed()
    ensures t.Formed()
  {
    s.(generation := s.generation + 1, history := Added(s.history, Message(Assistant, text, Complete)),
       speech := s.speech.(buffer := text), owners := s.owners[s.generation + 1 := |s.history.log|],
       first := |s.speech.items|)
  }

  /** Speech of another agent: a complete message and its pieces. When they do not all fit the call fails,
      but the message and the pieces that did fit stay. */
  function AgentSpoken(s: State, text: string, now: int, saved: bool): (r: Reply)
    requires s.Formed()
    ensures r.state.Formed()
  {
    if !IsText(text) || !InputLive(s, now) || Busy(s) || !s.speakReplies || !saved then Reply(s, false)
    else Voicing(WithAgentMessage(s, Strip(text)), |s.history.log|, true)
  }

  /** What the browser says it is doing with a piece. */
  datatype Report = Idle | Speaking | Finished | Broken

  function Ended(report: Report): Playback
    requires report.Finished? || report.Broken?
  {
    if report.Finished? then Done else Errored
  }

  function Marked(s: State, id: nat, status: Playback): (t: State)
    requires id < |s.speech.items| && s.Formed()
    ensures t.Formed()
  {
    s.(speech := s.speech.(items := s.speech.items[id := s.speech.items[id].(status := status)]))
  }

  /** The first live piece has ended, well or with an error that stops the session. */
  function PieceEnded(s: State, id: nat, report: Report, now: int): (t: State)
    requires s.Formed() && id < |s.speech.items| && (report.Finished? || report.Broken?)
    ensures t.Formed()
  {
    var ended := Marked(s, id, Ended(report)).(listenAfter := now + ECHO_TAIL);
    if report.Broken? then Stopped(ended, now) else ended
  }

  predicate Plays(item: Item, report: Report) {
    report.Speaking? && item.status.Pending?
  }

  predicate Ends(item: Item, report: Report) {
    (report.Finished? || report.Broken?) && Live(item)
  }

  function Acted(s: State, id: nat, report: Report, now: int): (t: State)
    requires s.Formed() && id < |s.speech.items|
    ensures t.Formed()
  {
    if Plays(s.speech.items[id], report) then Marked(s, id, Playing)
    else if Ends(s.speech.items[id], report) then PieceEnded(s, id, report, now)
    else s
  }

  /** Pieces are played and ended in order. */
  predicate InOrder(items: seq<Item>, id: nat, report: Report)
    requires id < |items|
  {
    Plays(items[id], report) || Ends(items[id], report) ==> FirstLive(items) == id
  }

  /** The state a report says its piece is in. */
  function Says(report: Report): Option<Playback> {
    match report
    case Idle => None
    case Speaking => Some(Playing)
    case Finished => Some(Done)
    case Broken => Some(Errored)
  }

  /** A report that moves its piece on, or repeats what is known. */
  predicate Confirms(item: Item, report: Report) {
    Plays(item, report) || Ends(item, report) || Says(report) == Some(item.status)
  }

  /** When what ended cannot be stored the heartbeat does not count. */
  function Acknowledged(s: State, id: nat, report: Report, now: int, saved: bool): (r: Reply)
    requires s.Formed() && id < |s.speech.items|
    ensures r.state.Formed()
  {
    var t := Acted(s, id, report, now);
    if Ends(s.speech.items[id], report) && !saved then Reply(t, false) else Reply(t.(heartbeatAt := now), true)
  }

  /** A report about a piece in the queue. */
  function Reported(s: State, id: nat, report: Report, now: int, saved: bool): (r: Reply)
    requires s.Formed() && id < |s.speech.items|
    ensures r.state.Formed()
  {
    if InOrder(s.speech.items, id, report) then Acknowledged(s, id, report, now, saved) else Reply(s, false)
  }

  /** A piece in the queue that the current generation queued. */
  predicate Current(p: Speech, id: nat, generation: nat) {
    p.evicted <= id < |p.items| && p.items[id].generation == generation
  }

  /** A report of the owner, about a piece or not. */
  function Answered(s: State, report: Report, id: Option<nat>, now: int, saved: bool): (r: Reply)
    requires s.Formed()
    ensures r.state.Formed()
  {
    if id.Some? && Current(s.speech, id.value, s.generation) then Reported(s, id.value, report, now, saved)
    else Reply(s.(heartbeatAt := now), true)
  }

  function Heard(s: State, client: string, report: Report, id: Option<nat>, now: int, saved: bool): (r: Reply)
    requires s.Formed()
    ensures r.state.Formed()
  {
    if !Owns(s, client, now) || (id.None? && !report.Idle?) then Reply(s, false)
    else Answered(s, report, id, now, saved)
  }

  /** Turning spoken replies on or off, which may be done while active. */
  function Muted(s: State, speakReplies: bool, saved: bool): (r: Reply)
    requires s.Formed()
    ensures r.state.Formed()
  {
    if !saved then Reply(s, false)
    else if s.active && !speakReplies then
      Reply(s.(speakReplies := false, speech := Quiet(s.speech), whole := false), true)
    else Reply(s.(speakReplies := speakReplies), true)
  }

  function Entries(texts: seq<(Role, string)>): seq<Message> {
    seq(|texts|, i requires 0 <= i < |texts| => Message(texts[i].0, texts[i].1, Complete))
  }

  /** A history that may be stored in place of the present one. */
  predicate Storable(texts: seq<(Role, string)>) {
    && |texts| <= MAX_MESSAGES
    && (forall i | 0 <= i < |texts| :: |texts[i].1| <= MAX_OUTPUT && !Blank(texts[i].1))
    && Chars(Entries(texts), 0) <= MAX_HISTORY_CHARS
  }

  function Replaced(s: State, texts: seq<(Role, string)>, saved: bool): (r: Reply)
    requires s.Formed()
    ensures r.state.Formed()
  {
    if !Storable(texts) || s.active || !saved then Reply(s, false)
    else Reply(s.(history := History(s.history.log + Entries(texts), |s.history.log|)), true)
  }

  // ---------------------------------------------------------------- captions and the clock

  /** A caption the other gates (time stamp, repeated utterance, echo) let through. */
  function Captioned(s: State, text: string, now: int): (r: Reply)
    requires s.Formed()
    ensures r.state.Formed()
  {
    var combined := Combined(s.pending, Strip(text));
    if Blank(text) || !InputLive(s, now) || !InputReady(s, now) || |combined| > MAX_TEXT then Reply(s, false)
    else Reply(s.(pending := combined, lastInputAt := now), true)
  }

  /** One tick; `quiet` says the microphone has been silent long enough. */
  function Ticked(s: State, quiet: bool, now: int, saved: bool): (t: State)
    requires s.Formed()
    ensures t.Formed()
  {
    if !s.active then s
    else if now - s.heartbeatAt >= LEASE then
      if CancelSaves(s, saved) then Stopped(s, now) else Aborted(Stopped(s, now), now)
    else if s.pending != "" && InputReady(s, now) && now - s.lastInputAt >= SETTLE && quiet then
      var begun := Begun(s, saved);
      if begun.ok then begun.state else Aborted(begun.state, now)
    else s
  }

  // ---------------------------------------------------------------- the request to the model

  /** More text at the end of the current message. */
  function Grown(s: State, text: string): (t: State)
    requires s.Formed() && s.current.Some?
    ensures t.Formed()
  {
    var log, m := s.history.log, s.current.value;
    s.(history := Trimmed(s.history.(log := log[m := log[m].(content := log[m].content + text)])))
  }

  /** A piece of the reply to the request of a generation. */
  function Extended(s: State, generation: nat, text: string): (r: Reply)
    requires s.Formed()
    ensures r.state.Formed()
  {
    if !Valid(s, generation) || |s.history.log[s.current.value].content| + |text| > MAX_OUTPUT then Reply(s, false)
    else
      var t := Grown(s, text);
      if !s.speakReplies then Reply(t.(whole := false), true)
      else Voicing(t.(speech := s.speech.(buffer := s.speech.buffer + text)), s.current.value, false)
  }

  /** The reply has its last status; it stays current if it could not be stored. */
  function Settled(s: State, status: Status, saved: bool): (t: State)
    requires s.Formed()
    ensures t.Formed()
  {
    if saved then Closed(s, status) else Closed(s, status).(current := s.current)
  }

  /** The end of the reply. When storing it fails the reply stays current, for the failure step that follows. */
  function Completed(s: State, generation: nat, truncated: bool, saved: bool): (r: Reply)
    requires s.Formed()
    ensures r.state.Formed()
  {
    if !Valid(s, generation) then Reply(s, true)
    else if Blank(s.history.log[s.current.value].content) then Reply(s, false)
    else
      var voiced := Voicing(s, s.current.value, true);
      if !voiced.ok then voiced
      else Reply(Settled(voiced.state, if truncated then Truncated else Complete, saved), saved)
  }

  function FailedWith(s: State, generation: nat, saved: bool): (t: State)
    requires s.Formed()
    ensures t.Formed()
  {
    if !Valid(s, generation) then s
    else
      var failed := Closed(s, Failed).(generation := s.generation + 1, speech := Quiet(s.speech));
      if saved then failed else failed.(active := false, client := None)
  }

  // ---------------------------------------------------------------- every step

  datatype Call =
    | Start(client: string, ready: bool, now: int, saved: bool)
    | Stop(client: string, now: int, saved: bool)
    | Interrupt(client: string, now: int, saved: bool)
    | Submit(client: string, text: string, now: int, cancelSaved: bool, saved: bool)
    | Send(client: string, now: int, cancelSaved: bool, saved: bool)
    | SpeakAgent(text: string, now: int, saved: bool)
    | Heartbeat(client: string, report: Report, id: Option<nat>, now: int, saved: bool)
    | Mute(speakReplies: bool, saved: bool)
    | SetHistory(texts: seq<(Role, string)>, saved: bool)
    | Caption(text: string, now: int)
    | Tick(quiet: bool, now: int, saved: bool)
    | Abort(now: int)
    | Delta(generation: nat, text: string)
    | Finish(generation: nat, truncated: bool, saved: bool)
    | Fail(generation: nat, saved: bool)

  /** Steps of a request to the model carry the generation it was started for and may come at any time. */
  predicate OfRequest(call: Call, generation: nat) {
    (call.Delta? || call.Finish? || call.Fail?) && call.generation == generation
  }

  function Step(s: State, call: Call): (t: State)
    requires s.Formed()
    ensures t.Formed()
  {
    match call
    case Start(client, ready, now, saved) => Started(s, client, ready, now, saved).state
    case Stop(client, now, saved) => StoppedBy(s, client, now, saved).state
    case Interrupt(client, now, saved) => InterruptedBy(s, client, now, saved).state
    case Submit(client, text, now, cancelSaved, saved) => Submitted(s, client, text, now, cancelSaved, saved).state
    case Send(client, now, cancelSaved, saved) => Sent(s, client, now, cancelSaved, saved).state
    case SpeakAgent(text, now, saved) => AgentSpoken(s, text, now, saved).state
    case Heartbeat(client, report, id, now, saved) => Heard(s, client, report, id, now, saved).state
    case Mute(speakReplies, saved) => Muted(s, speakReplies, saved).state
    case SetHistory(texts, saved) => Replaced(s, texts, saved).state
    case Caption(text, now) => Captioned(s, text, now).state
    case Tick(quiet, now, saved) => Ticked(s, quiet, now, saved)
    case Abort(now) => Aborted(s, now)
    case Delta(generation, text) => Extended(s, generation, text).state
    case Finish(generation, truncated, saved) => Completed(s, generation, truncated, saved).state
    case Fail(generation, saved) => FailedWith(s, generation, saved)
  }

  function Run(s: State, calls: seq<Call>): (t: State)
    requires s.Formed()
    ensures t.Formed()
    decreases |calls|
  {
    if calls == [] then s else Run(Step(s, calls[0]), calls[1..])
  }
}
