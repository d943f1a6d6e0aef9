// What becomes of a reply (src/ws_collab/language_chat.py, `_delta`, `_run` and `_fail`): it holds what the model sent,
// and ends with the status it should.
module ChatReplies {
  import opened Sequences
  import opened SpeechChunks
  import opened Chat
  import opened ChatRuns

  /** What the deltas of a generation add up to: each that still fits within a reply is added at the end. */
  function Gathered(generation: nat, so: string, calls: seq<Call>): string
    decreases |calls|
  {
    if calls == [] then so else Gathered(generation, Taken(generation, so, calls[0]), calls[1..])
  }

  function Taken(generation: nat, so: string, call: Call): string {
    if call.Delta? && call.generation == generation && |so| + |call.text| <= MAX_OUTPUT then so + call.text else so
  }

  function Content(s: State): string
    requires s.current.Some? && s.current.value < |s.history.log|
  {
    s.history.log[s.current.value].content
  }

  /** A delta is stored exactly when its request may act and the reply does not get too long; and it goes through when,
      besides, spoken replies are off or there is room for the pieces it completes. */
  lemma {:induction false} DeltaGoesThroughIff(s: State, generation: nat, text: string)
    requires Ok(s)
    ensures var r := Extended(s, generation, text);
            var taken := && s.active && generation == s.generation && s.current.Some?
                         && |Content(s)| + |text| <= MAX_OUTPUT;
            && r.state.history.log
               == (if taken then
                     s.history.log[s.current.value := s.history.log[s.current.value].(content := Content(s) + text)]
                   else s.history.log)
            && (r.ok <==> taken
                          && (s.speakReplies ==> |Chunked(s.speech.buffer + text, false).chunks| <= Room(s.speech)))
  {
    VoiceQueuesChunks(s.speech.(buffer := s.speech.buffer + text), if s.current.Some? then s.current.value else 0,
                      s.generation, false);
  }

  /** Nothing was added to the current reply, unless it ended. */
  ghost predicate Same(s: State, t: State)
    requires s.current.Some? && s.current.value < |s.history.log|
  {
    t.current == s.current ==> s.current.value < |t.history.log| && Content(t) == Content(s)
  }

  lemma HeardSame(s: State, client: string, report: Report, id: Option<nat>, now: int, saved: bool)
    requires Ok(s) && s.current.Some?
    ensures Same(s, Heard(s, client, report, id, now, saved).state)
  {
  }

  lemma FinishSame(s: State, generation: nat, truncated: bool, saved: bool)
    requires Ok(s) && s.current.Some?
    ensures Same(s, Completed(s, generation, truncated, saved).state)
  {
  }

  lemma TickSame(s: State, quiet: bool, now: int, saved: bool)
    requires Ok(s) && s.current.Some?
    ensures Same(s, Ticked(s, quiet, now, saved))
  {
  }

  lemma StartSame(s: State, client: string, ready: bool, now: int, saved: bool)
    requires Ok(s) && s.current.Some?
    ensures Same(s, Started(s, client, ready, now, saved).state)
  {
  }

  lemma EndsSame(s: State, call: Call)
    requires Ok(s) && s.current.Some? && (call.Stop? || call.Interrupt? || call.Abort? || call.Fail?)
    ensures Same(s, Step(s, call))
  {
  }

  lemma OthersSame(s: State, call: Call)
    requires Ok(s) && s.current.Some? && (call.Mute? || call.SetHistory? || call.SpeakAgent? || call.Caption?)
    ensures Same(s, Step(s, call))
  {
  }

  lemma RequestSame(s: State, call: Call)
    requires Ok(s) && s.current.Some? && (call.Submit? || call.Send?)
    ensures Same(s, Step(s, call))
  {
    match call
    case Submit(client, text, now, cancelSaved, saved) =>
      ResumedEnds(s, Combined(s.pending, Strip(text)), now, cancelSaved, saved);
    case Send(client, now, cancelSaved, saved) => ResumedEnds(s, s.pending, now, cancelSaved, saved);
  }

  /** A step that leaves a reply current adds to it what the step brings. */
  lemma StepGathers(s: State, call: Call)
    requires Ok(s) && s.current.Some? && Step(s, call).current == s.current
    ensures Step(s, call).generation == s.generation && s.current.value < |Step(s, call).history.log|
    ensures Content(Step(s, call)) == Taken(s.generation, Content(s), call)
  {
    CurrentStays(s, call);
    match call
    case Delta(generation, text) => DeltaGoesThroughIff(s, generation, text);
    case Finish(generation, truncated, saved) => FinishSame(s, generation, truncated, saved);
    case Tick(quiet, now, saved) => TickSame(s, quiet, now, saved);
    case Start(client, ready, now, saved) => StartSame(s, client, ready, now, saved);
    case Heartbeat(client, report, id, now, saved) => HeardSame(s, client, report, id, now, saved);
    case Submit(client, text, now, cancelSaved, saved) => RequestSame(s, call);
    case Send(client, now, cancelSaved, saved) => RequestSame(s, call);
    case Mute(speakReplies, saved) => OthersSame(s, call);
    case SetHistory(texts, saved) => OthersSame(s, call);
    case SpeakAgent(text, now, saved) => OthersSame(s, call);
    case Caption(text, now) => OthersSame(s, call);
    case _ => EndsSame(s, call);
  }

  lemma CurrentStays(s: State, call: Call)
    requires Ok(s) && s.current.Some? && Step(s, call).current == s.current
    ensures Step(s, call).generation == s.generation && s.current.value < |Step(s, call).history.log|
  {
    StepKeeps(s, call);
  }

  lemma ResumedEnds(s: State, pending: string, now: int, cancelSaved: bool, saved: bool)
    requires Ok(s) && s.current.Some?
    ensures Resumed(s, pending, now, cancelSaved, saved).state.current != s.current
  {
    assert |CutShort(s, now).history.log| == |s.history.log|;
  }

  lemma {:induction false} RunGathers(s: State, calls: seq<Call>)
    requires Ok(s) && s.current.Some? && Run(s, calls).current == s.current
    ensures s.current.value < |Run(s, calls).history.log|
    ensures Content(Run(s, calls)) == Gathered(s.generation, Content(s), calls)
    decreases |calls|
  {
    RunKeeps(s, calls);
    if calls != [] {
      var t := Step(s, calls[0]);
      StepKeeps(s, calls[0]);
      RunKeeps(t, calls[1..]);
      assert t.current == s.current;
      StepGathers(s, calls[0]);
      RunGathers(t, calls[1..]);
    }
  }

  /** A completion goes through exactly when there is something in the reply and room for its last pieces; the reply
      then keeps its content, has its status and is no longer current. */
  lemma CompletedIff(s: State, generation: nat, truncated: bool)
    requires Ok(s) && s.active && generation == s.generation && s.current.Some?
    ensures var r, m := Completed(s, generation, truncated, true), s.current.value;
            && (r.ok <==> !Blank(Content(s)) && |Chunked(s.speech.buffer, true).chunks| <= Room(s.speech))
            && (r.ok ==>
                  && r.state.current.None?
                  && r.state.history.log
                     == s.history.log[m := s.history.log[m].(status := if truncated then Truncated else Complete)])
  {
    VoiceQueuesChunks(s.speech, s.current.value, s.generation, true);
  }

  /** A completion that cannot be stored raises, and the failure that follows marks the reply: none is left as complete
      that is not stored. */
  lemma UnstoredFails(s: State, generation: nat, truncated: bool, saved: bool)
    requires Ok(s) && s.active && generation == s.generation && s.current.Some?
    ensures var r, m := Completed(s, generation, truncated, false), s.current.value;
            && !r.ok && r.state.current == s.current && r.state.active && r.state.generation == s.generation
            && var t := FailedWith(r.state, generation, saved);
               && t.current.None? && t.history.log == s.history.log[m := s.history.log[m].(status := Failed)]
  {
    UnstoredIs(s, generation, truncated);
  }

  lemma UnstoredIs(s: State, generation: nat, truncated: bool)
    requires s.Formed() && s.active && generation == s.generation && s.current.Some?
    ensures var r, m := Completed(s, generation, truncated, false), s.current.value;
            && !r.ok && r.state.current == s.current && r.state.active && r.state.generation == s.generation
            && |r.state.history.log| == |s.history.log| && r.state.history.log[m].content == s.history.log[m].content
            && r.state.history.log[m].role == s.history.log[m].role
            && forall i | 0 <= i < |s.history.log| && i != m :: r.state.history.log[i] == s.history.log[i]
  {
  }

  /** A failure leaves what there is of the reply, marked as failed, and ends its generation. */
  lemma FailedIs(s: State, generation: nat, saved: bool)
    requires Ok(s) && s.active && generation == s.generation && s.current.Some?
    ensures var t, m := FailedWith(s, generation, saved), s.current.value;
            && t.current.None? && t.history.log == s.history.log[m := s.history.log[m].(status := Failed)]
            && s.generation < t.generation && !AnyLive(t.speech.items) && t.active == saved
  {
    QuietKeeps(s.speech, s.generation, s.generation + 1, s.owners);
  }

  /** A reply is what the model sent: from the beginning of a request, over any run in which its message stays current,
      with spoken replies turned on or off at will, the message holds the texts of the deltas of its generation, in
      order; and so does the message that is stored when the reply completes. */
  lemma {:induction false} ReplyHoldsDeltas(s: State, saved: bool, calls: seq<Call>, truncated: bool)
    requires Ok(s) && s.active && !Busy(s) && Begun(s, saved).ok
    requires Run(Begun(s, saved).state, calls).current == Begun(s, saved).state.current
    ensures var begun := Begun(s, saved).state;
            var t, m, sent := Run(begun, calls), |s.history.log| + 1, Gathered(s.generation + 1, "", calls);
            && begun.current == Some(m) && m < |t.history.log|
            && t.history.log[m].content == sent
            && var u := Completed(t, s.generation + 1, truncated, true);
               (u.ok ==>
                  && m < |u.state.history.log|
                  && u.state.history.log[m] == Message(Assistant, sent, if truncated then Truncated else Complete))
  {
    var begun := Begun(s, saved).state;
    BegunKeeps(s, saved);
    RequestedIs(s, Strip(s.pending));
    RunKeeps(begun, calls);
    RunGathers(begun, calls);
    CompletedIff(Run(begun, calls), s.generation + 1, truncated);
  }
}
