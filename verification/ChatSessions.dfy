// Who may act in a conversation and when (src/ws_collab/language_chat.py): the browser that owns the session while its
// lease runs, the turn that begins when the speaker has paused, and what stopping, interrupting and muting do.
module ChatSessions {
  import opened Sequences
  import opened SpeechChunks
  import opened Chat
  import opened ChatRuns

  // ---------------------------------------------------------------- the owner and its lease

  predicate LeaseRuns(s: State, now: int) {
    now < s.heartbeatAt + LEASE
  }

  /** Calls that only the browser that owns the session may make. */
  function ByClient(s: State, call: Call): Reply
    requires s.Formed() && (call.Stop? || call.Interrupt? || call.Submit? || call.Send? || call.Heartbeat?)
  {
    match call
    case Stop(client, now, saved) => StoppedBy(s, client, now, saved)
    case Interrupt(client, now, saved) => InterruptedBy(s, client, now, saved)
    case Submit(client, text, now, cancelSaved, saved) => Submitted(s, client, text, now, cancelSaved, saved)
    case Send(client, now, cancelSaved, saved) => Sent(s, client, now, cancelSaved, saved)
    case Heartbeat(client, report, id, now, saved) => Heard(s, client, report, id, now, saved)
  }

  /** Another browser is refused, and so is the owner once its lease has run out; it may still stop. */
  lemma OthersRefused(s: State, call: Call)
    requires s.Formed() && s.active
    requires call.Stop? || call.Interrupt? || call.Submit? || call.Send? || call.Heartbeat?
    requires s.client != Some(call.client) || (!call.Stop? && !LeaseRuns(s, call.now))
    ensures ByClient(s, call) == Reply(s, false)
  {
  }

  /** A session that is not active cannot be acted in; stopping it changes nothing. */
  lemma InactiveRefused(s: State, call: Call)
    requires s.Formed() && !s.active
    requires call.Stop? || call.Interrupt? || call.Submit? || call.Send? || call.Heartbeat?
    ensures ByClient(s, call) == Reply(s, call.Stop?)
  {
  }

  /** Starting: an idle session is given to whoever asks; the owner goes on; and another browser, or the owner too late,
      gets a session whose lease has run out, if what that one was doing can be stored. */
  lemma StartsIff(s: State, client: string, ready: bool, now: int, saved: bool)
    requires Ok(s)
    ensures var r := Started(s, client, ready, now, saved);
            && (r.ok <==> ready && (!s.active || (LeaseRuns(s, now) && s.client == Some(client))
                                    || (!LeaseRuns(s, now) && (s.current.Some? ==> saved))))
            && (r.ok ==>
                  && r.state.active && r.state.client == Some(client) && r.state.heartbeatAt == now
                  && if s.active && LeaseRuns(s, now) then r.state == s.(heartbeatAt := now)
                     else
                       && r.state.pending == "" && r.state.current.None? && !AnyLive(r.state.speech.items)
                       && s.generation < r.state.generation)
            && (!r.ok && (!ready || LeaseRuns(s, now)) ==> r.state == s)
  {
    if s.active && !LeaseRuns(s, now) {
      StoppedKeeps(s, now);
      CutShortKeeps(s, now);
    }
  }

  /** A heartbeat of the owner that goes through renews the lease, unless it reports an error that ends the session. */
  lemma HeartbeatRenews(s: State, client: string, report: Report, id: Option<nat>, now: int, later: int)
    requires Ok(s) && Heard(s, client, report, id, now, true).ok
    ensures var t := Heard(s, client, report, id, now, true).state;
            && (t.active ==> (LeaseRuns(t, later) <==> later - now < LEASE))
            && (!t.active ==> report.Broken?)
  {
  }

  /** A piece that has left the queue, or is of a request that was cancelled. */
  predicate Unknown(s: State, id: nat) {
    id < s.speech.evicted || |s.speech.items| <= id || s.speech.items[id].generation != s.generation
  }

  /** A heartbeat about no piece, which must then be idle, or about a piece unknown renews the lease and does nothing
      else. */
  lemma IdleIs(s: State, client: string, report: Report, id: Option<nat>, now: int, saved: bool)
    requires Ok(s) && s.active && s.client == Some(client) && LeaseRuns(s, now)
    requires id.Some? ==> Unknown(s, id.value)
    ensures Heard(s, client, report, id, now, saved)
         == if id.None? && report != Report.Idle then Reply(s, false) else Reply(s.(heartbeatAt := now), true)
  {
  }

  function WithStatus(s: State, id: nat, status: Playback): State
    requires id < |s.speech.items|
  {
    s.(speech := s.speech.(items := s.speech.items[id := s.speech.items[id].(status := status)]))
  }

  ghost predicate AllEndedBefore(s: State, id: nat)
    requires id < |s.speech.items|
  {
    forall i | 0 <= i < id :: s.speech.items[i].status != Pending && s.speech.items[i].status != Playing
  }

  /** What a report about a known piece does. One that is waiting begins to play; one that is waiting or playing ends,
      after which nothing is heard for the time of an echo; either only if all before it have ended, or else the report
      is refused. When what ended cannot be stored the lease is not renewed. Any other report renews it and does nothing
      else. (What a speech error of the first live piece does is stated next.) */
  lemma ReportIs(s: State, client: string, report: Report, id: nat, now: int, saved: bool)
    requires Ok(s) && s.active && s.client == Some(client) && LeaseRuns(s, now) && !Unknown(s, id)
    requires report == Broken && Live(s.speech.items[id]) ==> !AllEndedBefore(s, id)
    ensures var r, was := Heard(s, client, report, Some(id), now, saved), s.speech.items[id].status;
            if report == Speaking && was == Pending then
              r == if AllEndedBefore(s, id) then Reply(WithStatus(s, id, Playing).(heartbeatAt := now), true)
                   else Reply(s, false)
            else if (report == Report.Finished || report == Broken) && (was == Pending || was == Playing) then
              if AllEndedBefore(s, id) then
                var t := WithStatus(s, id, Done).(listenAfter := now + ECHO_TAIL);
                r == if saved then Reply(t.(heartbeatAt := now), true) else Reply(t, false)
              else r == Reply(s, false)
            else r == Reply(s.(heartbeatAt := now), true)
  {
    if Live(s.speech.items[id]) {
      LiveReportIs(s, client, report, id, now, saved);
    }
  }

  lemma LiveReportIs(s: State, client: string, report: Report, id: nat, now: int, saved: bool)
    requires s.Formed() && s.active && s.client == Some(client) && LeaseRuns(s, now) && !Unknown(s, id)
    requires Live(s.speech.items[id]) && (report == Broken ==> !AllEndedBefore(s, id))
    ensures var r, was := Heard(s, client, report, Some(id), now, saved), s.speech.items[id].status;
            if report == Report.Idle || (report == Speaking && was == Playing) then r == Reply(s.(heartbeatAt := now), true)
            else if !AllEndedBefore(s, id) then r == Reply(s, false)
            else if report == Speaking then r == Reply(WithStatus(s, id, Playing).(heartbeatAt := now), true)
            else
              var t := WithStatus(s, id, Done).(listenAfter := now + ECHO_TAIL);
              r == if saved then Reply(t.(heartbeatAt := now), true) else Reply(t, false)
  {
    assert Heard(s, client, report, Some(id), now, saved) == Reported(s, id, report, now, saved);
    if AllEndedBefore(s, id) {
      FirstLiveIs(s.speech.items, id);
    }
  }

  /** A report of a speech error of the first live piece ends the session, with the piece marked and nothing left to be
      spoken. */
  lemma BrokenEnds(s: State, client: string, id: nat, now: int, saved: bool)
    requires Ok(s) && s.active && s.client == Some(client) && LeaseRuns(s, now)
    requires s.speech.evicted <= id < |s.speech.items| && Live(s.speech.items[id])
    requires s.speech.items[id].generation == s.generation && forall i | 0 <= i < id :: !Live(s.speech.items[i])
    ensures var r := Heard(s, client, Broken, Some(id), now, saved);
            && r.ok == saved && !r.state.active && r.state.client.None? && r.state.pending == "" && r.state.current.None?
            && |r.state.speech.items| == |s.speech.items| && r.state.speech.items[id].status == Errored
            && forall i | 0 <= i < |s.speech.items| && i != id ::
                 r.state.speech.items[i] == EndedItem(s.speech.items[i])
  {
    FirstLiveIs(s.speech.items, id);
    BrokenStops(s, client, id, now, saved);
  }

  lemma BrokenStops(s: State, client: string, id: nat, now: int, saved: bool)
    requires s.Formed() && s.active && s.client == Some(client) && LeaseRuns(s, now)
    requires id == FirstLive(s.speech.items) && s.speech.evicted <= id < |s.speech.items|
    requires s.speech.items[id].generation == s.generation
    ensures var t := Stopped(WithStatus(s, id, Errored).(listenAfter := now + ECHO_TAIL), now);
            Heard(s, client, Broken, Some(id), now, saved) == Reply(if saved then t.(heartbeatAt := now) else t, saved)
  {
  }

  // ---------------------------------------------------------------- stopping, interrupting and muting

  /** A piece that is waiting or playing is cancelled; any other stays as it is. */
  function EndedItem(item: Item): Item {
    if item.status == Pending || item.status == Playing then item.(status := Cancelled) else item
  }

  /** Nothing is left to be spoken. */
  ghost predicate FallsSilent(s: State, t: State) {
    && t.speech.buffer == "" && t.speech.evicted == s.speech.evicted && |t.speech.items| == |s.speech.items|
    && forall i | 0 <= i < |s.speech.items| :: t.speech.items[i] == EndedItem(s.speech.items[i])
  }

  /** The reply in progress, if there is one, keeps its text and is marked. */
  predicate ReplyEnds(s: State, t: State, status: Status)
    requires s.current.Some? ==> s.current.value < |s.history.log|
  {
    && t.current.None? && s.generation < t.generation
    && t.history == if s.current.None? then s.history
                    else s.history.(log := s.history.log[s.current.value :=
                                      s.history.log[s.current.value].(status := status)])
  }

  /** The owner interrupts: the reply is marked, the speech falls silent, and nothing is heard for the time of an echo.
      The pending text goes too, unless what was interrupted cannot be stored. */
  lemma InterruptIs(s: State, client: string, now: int, saved: bool)
    requires Ok(s) && s.active && s.client == Some(client) && LeaseRuns(s, now)
    ensures var r := InterruptedBy(s, client, now, saved);
            && (r.ok <==> s.current.None? || saved)
            && ReplyEnds(s, r.state, Status.Interrupted) && FallsSilent(s, r.state)
            && r.state.active && r.state.client == s.client && r.state.listenAfter == now + ECHO_TAIL
            && r.state.pending == if r.ok then "" else s.pending
  {
  }

  /** The owner stops: the session ends besides, even when the history cannot be stored. */
  lemma StopIs(s: State, client: string, now: int, saved: bool)
    requires Ok(s) && s.active && s.client == Some(client)
    ensures var r := StoppedBy(s, client, now, saved);
            && (r.ok <==> s.current.None? || saved)
            && ReplyEnds(s, r.state, Status.Interrupted) && FallsSilent(s, r.state)
            && !r.state.active && r.state.client.None? && r.state.pending == ""
  {
  }

  /** A callback that raises ends the session, but for the pending text. */
  lemma AbortIs(s: State, now: int)
    requires Ok(s)
    ensures var t := Aborted(s, now);
            && ReplyEnds(s, t, Status.Interrupted) && FallsSilent(s, t)
            && !t.active && t.client.None? && t.pending == s.pending
  {
  }

  /** Muting silences an active session and leaves its reply to go on in writing; it does nothing else. */
  lemma MuteIs(s: State, speakReplies: bool, saved: bool)
    requires Ok(s)
    ensures var r := Muted(s, speakReplies, saved);
            && r.ok == saved && (!saved ==> r.state == s)
            && (saved ==>
                  && r.state.speakReplies == speakReplies && r.state.history == s.history && r.state.current == s.current
                  && r.state.generation == s.generation && r.state.pending == s.pending && r.state.active == s.active
                  && if s.active && !speakReplies then FallsSilent(s, r.state) else r.state.speech == s.speech)
  {
  }

  // ---------------------------------------------------------------- captions and turns

  /** Text after what is pending, with a blank between. */
  function After(pending: string, text: string): string {
    if pending == "" then text else pending + " " + text
  }

  /** No reply is in progress, nothing is being spoken or about to be, and the echo of what was has died down. */
  ghost predicate Listens(s: State, now: int) {
    && s.active && s.current.None? && now >= s.listenAfter
    && forall i | 0 <= i < |s.speech.items| :: s.speech.items[i].status != Pending && s.speech.items[i].status != Playing
  }

  lemma ReadyIff(s: State, now: int)
    ensures InputReady(s, now) <==> Listens(s, now)
  {
  }

  /** A caption is taken exactly when the session listens, its lease runs and there is room; it then follows what is
      pending, and the pause before the next turn begins anew. */
  lemma CaptionTakenIff(s: State, text: string, now: int)
    requires Ok(s)
    ensures var r, joined := Captioned(s, text, now), After(s.pending, Strip(text));
            && (r.ok <==> !Blank(text) && Listens(s, now) && LeaseRuns(s, now) && |joined| <= MAX_TEXT)
            && r.state == if r.ok then s.(pending := joined, lastInputAt := now) else s
  {
    ReadyIff(s, now);
    StripKeeps(text);
  }

  /** A tick asks what is pending exactly when the session listens and its lease runs, the speaker has paused long enough
      and the request can be stored; what is asked is the pending text. */
  lemma TurnBeginsIff(s: State, quiet: bool, now: int, saved: bool)
    requires Ok(s) && s.active && LeaseRuns(s, now)
    ensures var t, n := Ticked(s, quiet, now, saved), |s.history.log|;
            var due := Listens(s, now) && s.pending != "" && now - s.lastInputAt >= SETTLE && quiet;
            && (t.current != s.current <==> due && saved && !Blank(s.pending))
            && (t.current != s.current ==>
                  && |t.history.log| == n + 2 && t.history.log[n] == Message(User, Strip(s.pending), Complete)
                  && t.history.log[n + 1] == Message(Assistant, "", Streaming)
                  && t.current == Some(n + 1) && t.pending == "" && t.active)
            && (!due ==> t == s)
            && (due && t.current == s.current ==> !t.active && t.pending == s.pending && t.history == s.history)
  {
    ReadyIff(s, now);
    StripKeeps(s.pending);
    if Strip(s.pending) != "" {
      RequestedIs(s, Strip(s.pending));
    }
  }

  /** A tick after the lease has run out ends the session. */
  lemma TickEnds(s: State, quiet: bool, now: int, saved: bool)
    requires Ok(s) && s.active && !LeaseRuns(s, now)
    ensures var t := Ticked(s, quiet, now, saved);
            && !t.active && t.client.None? && t.pending == "" && FallsSilent(s, t)
            && ReplyEnds(s, t, Status.Interrupted)
  {
  }

  /** No reply is in progress and nothing is being spoken or about to be. */
  ghost predicate Idles(s: State) {
    && s.current.None?
    && forall i | 0 <= i < |s.speech.items| :: s.speech.items[i].status != Pending && s.speech.items[i].status != Playing
  }

  lemma IdlesIff(s: State)
    ensures Idles(s) <==> !Busy(s)
  {
  }

  lemma AgentRefused(s: State, text: string, now: int, saved: bool)
    requires s.Formed()
    requires !(IsText(text) && InputLive(s, now) && !Busy(s) && s.speakReplies && saved)
    ensures AgentSpoken(s, text, now, saved) == Reply(s, false)
  {
  }

  /** Another agent is heard exactly when the lease runs, nothing else is being said, spoken replies are on, its message
      can be stored and makes at most 128 pieces. Only for the last of these reasons does a refusal change anything. */
  lemma AgentHeardIff(s: State, text: string, now: int, saved: bool)
    requires Ok(s)
    ensures var r := AgentSpoken(s, text, now, saved);
            var may := && !Blank(text) && |text| <= MAX_TEXT && s.active && LeaseRuns(s, now) && Idles(s)
                       && s.speakReplies && saved;
            && (r.ok <==> may && |Chunked(Strip(text), true).chunks| <= MAX_QUEUE)
            && (!may ==> r.state == s)
  {
    IdlesIff(s);
    if IsText(text) && InputLive(s, now) && !Busy(s) && s.speakReplies && saved {
      AgentSpeechFits(s, text, now);
    } else {
      AgentRefused(s, text, now, saved);
    }
  }

  /** What is pending is sent exactly when its browser owns the session, it is not blank and it can be stored. */
  lemma SendsIff(s: State, client: string, now: int, cancelSaved: bool, saved: bool)
    requires Ok(s)
    ensures Sent(s, client, now, cancelSaved, saved).ok
       <==> && s.active && s.client == Some(client) && LeaseRuns(s, now) && !Blank(s.pending) && saved
            && (s.current.Some? ==> cancelSaved)
  {
    StripKeeps(s.pending);
  }

  /** It is then asked, and a reply in the way is interrupted. */
  lemma SentIsAsked(s: State, client: string, now: int, cancelSaved: bool, saved: bool)
    requires Ok(s) && Sent(s, client, now, cancelSaved, saved).ok
    ensures var t, n := Sent(s, client, now, cancelSaved, saved).state, |s.history.log|;
            && |t.history.log| == n + 2
            && t.history.log[n] == Message(User, Strip(s.pending), Complete)
            && t.history.log[n + 1] == Message(Assistant, "", Streaming)
            && t.current == Some(n + 1) && t.pending == "" && !AnyLive(t.speech.items)
  {
    var u := if Busy(s) then CutShort(s, now) else s;
    CutShortKeeps(s, now);
    RequestedIs(u.(pending := s.pending), Strip(s.pending));
  }

  /** Text is submitted exactly when its browser owns the session, it is text, alone and after what is pending, and it can
      be stored. */
  lemma SubmitsIff(s: State, client: string, text: string, now: int, cancelSaved: bool, saved: bool)
    requires Ok(s)
    ensures Submitted(s, client, text, now, cancelSaved, saved).ok
       <==> && s.active && s.client == Some(client) && LeaseRuns(s, now)
            && !Blank(text) && |text| <= MAX_TEXT && |After(s.pending, Strip(text))| <= MAX_TEXT
            && (s.current.Some? ==> cancelSaved) && saved
  {
    StripKeeps(text);
    if !Blank(text) {
      SqueezedBlank(text);
      SqueezedBlank(Strip(text));
      AfterIsText(s.pending, Strip(text));
      StripKeeps(After(s.pending, Strip(text)));
    }
  }

  lemma AfterIsText(pending: string, text: string)
    requires !Blank(text)
    ensures !Blank(After(pending, text)) && Combined(pending, text) == After(pending, text)
  {
    var i :| 0 <= i < |text| && !IsSpace(text[i]);
    var all := After(pending, text);
    assert all[|all| - |text| + i] == text[i];
  }

  // ---------------------------------------------------------------- the history

  /** The history of a stopped session can be replaced by messages within the limits, which are then all it holds. */
  lemma {:induction false} HistoryReplacedIff(s: State, texts: seq<(Role, string)>, saved: bool)
    requires Ok(s)
    ensures var r := Replaced(s, texts, saved);
            && (r.ok <==> && !s.active && saved && |texts| <= MAX_MESSAGES && Total(texts) <= MAX_HISTORY_CHARS
                          && forall i | 0 <= i < |texts| :: |texts[i].1| <= MAX_OUTPUT && !Blank(texts[i].1))
            && (!r.ok ==> r.state == s)
            && (r.ok ==>
                  && |r.state.history.log| == r.state.history.dropped + |texts|
                  && forall i | 0 <= i < |texts| ::
                       r.state.history.log[r.state.history.dropped + i] == Message(texts[i].0, texts[i].1, Complete))
  {
    TotalIs(texts, 0);
  }

  function Total(texts: seq<(Role, string)>): nat {
    if texts == [] then 0 else |texts[0].1| + Total(texts[1..])
  }

  lemma {:induction false} TotalIs(texts: seq<(Role, string)>, from: nat)
    requires from <= |texts|
    ensures Chars(Entries(texts), from) == Total(texts[from..])
    decreases |texts| - from
  {
    if from < |texts| {
      TotalIs(texts, from + 1);
      assert texts[from..][1..] == texts[from + 1..];
    }
  }

  /** Trimming drops as few messages as it can, from the front: with one more they would not fit. */
  lemma {:induction false} TrimmedLeast(h: History, dropped: nat)
    requires h.dropped <= |h.log| && h.dropped <= dropped < Trimmed(h).dropped
    ensures !Fits(h.(dropped := dropped))
    decreases |h.log| - h.dropped
  {
    if dropped > h.dropped {
      TrimmedLeast(h.(dropped := h.dropped + 1), dropped);
    }
  }

  /** A full queue gives up only its oldest piece, and that only once it has ended. */
  lemma QueuedIs(p: Speech, item: Item)
    requires QueueOk(p)
    ensures var full := |p.items| - p.evicted == MAX_QUEUE;
            match Queued(p, item)
            case None => full && Live(p.items[p.evicted])
            case Some(q) =>
              && q.items == p.items + [item] && q.buffer == p.buffer
              && q.evicted == (if full then p.evicted + 1 else p.evicted)
              && (full ==> !Live(p.items[p.evicted]))
  {
  }
}
