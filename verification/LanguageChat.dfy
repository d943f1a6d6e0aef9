// The conversation object of src/ws_collab/language_chat.py. Every method is proved to do to the fields what
// the function of module Chat does to the state, so the results of module ChatRuns are about this object.
module LanguageChats {
  import opened Sequences
  import opened SpeechChunks
  import opened Chat
  import opened ChatRuns

  /** A stored message. It is one object in the history and, while it is being written, the current one. */
  class ChatMessage {
    const id: nat
    const role: Role
    var content: string
    var status: Status

    constructor (id: nat, role: Role, content: string, status: Status)
      ensures this.id == id && this.role == role && this.content == content && this.status == status
    {
      this.id, this.role, this.content, this.status := id, role, content, status;
    }
  }

  class LanguageChat {
    var active: bool
    var client: Option<string>
    var generation: nat
    var current: ChatMessage?
    var messages: seq<ChatMessage>
    var nextId: nat
    var queue: seq<Item>
    var evicted: nat
    var buffer: string
    var pending: string
    var speakReplies: bool
    var heartbeatAt: int
    var listenAfter: int
    var lastInputAt: int

    ghost var log: seq<Message>
    ghost var dropped: nat
    ghost var gone: seq<Item>
    ghost var owners: map<nat, nat>
    ghost var first: nat
    ghost var whole: bool

    ghost function Stored(): History
      reads this
    {
      History(log, dropped)
    }

    ghost function Spoken(): Speech
      reads this
    {
      Speech(gone + queue, |gone|, buffer)
    }

    ghost function View(): State
      reads this
    {
      State(active, client, generation, if current == null then None else Some(current.id), Stored(), Spoken(),
            pending, speakReplies, heartbeatAt, listenAfter, lastInputAt, owners, first, whole)
    }

    /** The stored messages are the end of the log, each known by its position, and pieces are known by theirs. */
    ghost predicate Indexed()
      reads this, messages
    {
      && nextId == |log| == dropped + |messages|
      && evicted == |gone|
      && forall i | 0 <= i < |messages| ::
        var m := messages[i];
        m.id == dropped + i && Message(m.role, m.content, m.status) == log[dropped + i]
    }

    /** The current message is the object at the end of the history. */
    ghost predicate CurrentLast()
      reads this
    {
      current != null ==> messages != [] && current == messages[|messages| - 1]
    }

    ghost predicate GoneEnded()
      reads this
    {
      forall i | 0 <= i < |gone| :: !Live(gone[i])
    }

    ghost predicate Valid()
      reads this, messages
    {
      && Indexed()
      && CurrentLast()
      && Ok(View())
    }

    constructor ()
      ensures Valid() && View() == FRESH && fresh(this) && messages == []
    {
      active, client, generation, current, messages, nextId := false, None, 0, null, [], 0;
      queue, evicted, buffer, pending, speakReplies := [], 0, "", "", true;
      heartbeatAt, listenAfter, lastInputAt := 0, 0, 0;
      log, dropped, gone, owners, first, whole := [], 0, [], map[], 0, false;
      new;
      FreshOk();
    }

    // -------------------------------------------------------------- helpers
    // One step each, so that what every longer method does to the state can be read off its calls.

    method AdvanceLocked()
      modifies `generation
      ensures View() == old(View()).(generation := old(generation) + 1)
    {
      generation := generation + 1;
    }

    method PutPendingLocked(text: string)
      modifies `pending
      ensures View() == old(View()).(pending := text)
    {
      pending := text;
    }

    method PutBufferLocked(text: string)
      modifies `buffer
      ensures View() == old(View()).(speech := old(Spoken()).(buffer := text)) && Spoken().items == old(Spoken()).items
    {
      buffer := text;
    }

    method BeatLocked(now: int)
      modifies `heartbeatAt
      ensures View() == old(View()).(heartbeatAt := now)
    {
      heartbeatAt := now;
    }

    method ReleaseLocked()
      modifies `active, `client
      ensures View() == old(View()).(active := false, client := None)
    {
      active, client := false, None;
    }

    method TailLocked(now: int)
      modifies `listenAfter
      ensures View() == old(View()).(listenAfter := now + ECHO_TAIL)
    {
      listenAfter := now + ECHO_TAIL;
    }

    ghost method BreakLocked()
      modifies `whole
      ensures View() == old(View()).(whole := false)
    {
      whole := false;
    }

    method CountChars() returns (chars: nat)
      requires Indexed()
      ensures chars == Chars(log, dropped)
    {
      chars := 0;
      for i := |messages| downto 0
        invariant chars == Chars(log, dropped + i)
      {
        chars := chars + |messages[i].content|;
      }
    }

    /** Drops the first message of a history that does not fit. */
    method DropFirst()
      requires Indexed() && !Fits(Stored())
      modifies `messages, `dropped
      ensures Indexed() && dropped == old(dropped) + 1 && messages == old(messages)[1..]
      ensures Trimmed(Stored()) == old(Trimmed(Stored()))
    {
      messages := messages[1..];
      dropped := dropped + 1;
    }

    /** One message less while the history is too long. */
    method TrimOne(chars: nat) returns (left: nat)
      requires Indexed() && messages != [] && chars == Chars(log, dropped)
      requires |messages| > MAX_MESSAGES || chars > MAX_HISTORY_CHARS
      modifies `messages, `dropped
      ensures Indexed() && messages == old(messages)[1..] && left == Chars(log, dropped)
      ensures Trimmed(Stored()) == Trimmed(old(Stored()))
    {
      left := chars - |messages[0].content|;
      DropFirst();
    }

    method TrimLocked()
      requires Indexed()
      modifies `messages, `dropped
      ensures Indexed() && Stored() == Trimmed(old(Stored()))
      ensures dropped < |log| ==> messages[|messages| - 1] == old(messages)[|old(messages)| - 1]
    {
      var chars := CountChars();
      ghost var before := Trimmed(Stored());
      while |messages| > MAX_MESSAGES || chars > MAX_HISTORY_CHARS
        invariant Indexed() && log == old(log)
        invariant messages != [] ==> old(messages) != [] && messages[|messages| - 1] == old(messages)[|old(messages)| - 1]
        invariant chars == Chars(log, dropped)
        invariant Trimmed(Stored()) == before
        decreases |messages|
      {
        chars := TrimOne(chars);
      }
    }

    method SilenceLocked()
      modifies `queue
      ensures queue == AllSilenced(old(queue))
    {
      for i := 0 to |queue|
        invariant |queue| == |old(queue)|
        invariant forall k | 0 <= k < |queue| :: queue[k] == if k < i then Silenced(old(queue)[k]) else old(queue)[k]
      {
        if Live(queue[i]) {
          queue := queue[i := queue[i].(status := Cancelled)];
        }
      }
    }

    /** The place in the queue of the first live piece, or the length of the queue. */
    method FirstLiveLocked() returns (k: nat)
      ensures k <= |queue|
      ensures forall i | 0 <= i < k :: !Live(queue[i])
      ensures k < |queue| ==> Live(queue[k])
    {
      k := 0;
      while k < |queue| && !Live(queue[k])
        invariant k <= |queue| && forall i | 0 <= i < k :: !Live(queue[i])
      {
        k := k + 1;
      }
    }

    method BusyLocked() returns (busy: bool)
      requires GoneEnded()
      ensures busy == Busy(View())
    {
      var k := FirstLiveLocked();
      busy := current != null || k < |queue|;
      if k < |queue| {
        assert Spoken().items[|gone| + k] == queue[k];
      }
    }

    /** Gives the current message its last status and lets go of it. */
    method CloseLocked(last: Status)
      requires Indexed() && CurrentLast()
      modifies `current, `log, current
      ensures Indexed() && current == null && messages == old(messages) && View() == Closed(old(View()), last)
    {
      ghost var before := View();
      if current != null {
        log := log[current.id := log[current.id].(status := last)];
        current.status := last;
        current := null;
      }
    }

    /** Cancels what is still to be spoken and forgets the text not yet cut. */
    method QuietLocked()
      requires GoneEnded()
      modifies `queue, `buffer
      ensures Spoken() == Quiet(old(Spoken()))
    {
      ghost var items := Spoken().items;
      SilenceLocked();
      buffer := "";
      assert Spoken().items == AllSilenced(items);
    }

    lemma GoneHaveEnded()
      requires QueueOk(Spoken())
      ensures GoneEnded()
    {
      assert forall i | 0 <= i < |gone| :: Spoken().items[i] == gone[i];
    }

    method CutShortLocked(now: int)
      requires Indexed() && CurrentLast() && GoneEnded()
      modifies this, current
      ensures Indexed() && current == null && GoneEnded()
      ensures View() == CutShort(old(View()), now)
    {
      CloseLocked(Interrupted);
      QuietLocked();
      TurnOnLocked(now);
    }

    /** A new generation, which does not listen before the echo has died away. */
    method TurnOnLocked(now: int)
      modifies `generation, `listenAfter
      ensures View() == old(View()).(generation := old(generation) + 1, listenAfter := now + ECHO_TAIL)
    {
      AdvanceLocked();
      TailLocked(now);
    }

    /** Queues one piece, unless it is blank; false if every piece in a full queue is still live. */
    method EnqueueLocked(chunk: string) returns (ok: bool)
      requires QueueOk(Spoken()) && evicted == |gone| && current != null
      modifies `queue, `gone, `evicted
      ensures evicted == |gone|
      ensures var text, p := Strip(chunk), old(Spoken());
              var queued := if text == "" then Some(p) else Queued(p, Item(current.id, text, generation, Pending));
              ok == queued.Some? && Spoken() == if ok then queued.value else p
    {
      var text := Strip(chunk);
      if text == "" {
        return true;
      }
      ghost var p := Spoken();
      assert Spoken().items[|gone|..] == queue;
      while |queue| >= MAX_QUEUE
        invariant QueueOk(Spoken()) && evicted == |gone| && Spoken().items == p.items
        invariant |gone| == p.evicted
               || (|gone| == p.evicted + 1 && |queue| < MAX_QUEUE && |p.items| == p.evicted + MAX_QUEUE
                   && !Live(p.items[p.evicted]))
        decreases |queue|
      {
        var k := 0;
        while k < |queue| && Live(queue[k])
          invariant k <= |queue| && forall i | 0 <= i < k :: Live(queue[i])
        {
          k := k + 1;
        }
        if k == |queue| {
          assert Live(p.items[p.evicted]);
          return false;
        }
        assert Spoken().items[|gone|] == queue[0];
        assert Spoken().items[|gone| + k] == queue[k];
        assert k == 0;
        assert gone + [queue[0]] + queue[1..] == gone + queue;
        assert p.items[p.evicted] == queue[0];
        gone, evicted := gone + [queue[k]], evicted + 1;
        queue := queue[..k] + queue[k + 1..];
      }
      var item := Item(current.id, text, generation, Pending);
      assert gone + queue + [item] == gone + (queue + [item]);
      queue := queue + [item];
      return true;
    }

    method SentencesLocked(final: bool) returns (ok: bool)
      requires QueueOk(Spoken()) && evicted == |gone| && current != null
      modifies `queue, `gone, `evicted, `buffer
      ensures evicted == |gone|
      ensures Voiced(Spoken(), ok) == Voice(old(Spoken()), current.id, generation, final)
    {
      ghost var p := Spoken();
      while buffer != ""
        invariant QueueOk(Spoken()) && evicted == |gone|
        invariant Voice(Spoken(), current.id, generation, final) == Voice(p, current.id, generation, final)
        decreases |buffer|
      {
        var cut := CutAt(buffer, final);
        if cut == 0 {
          return true;
        }
        QueuedRoom(Spoken(), Item(current.id, Strip(buffer[..cut]), generation, Pending));
        var queued := EnqueueLocked(buffer[..cut]);
        if !queued {
          return false;
        }
        StripLeftKeeps(buffer[cut..]);
        buffer := StripLeft(buffer[cut..]);
      }
      return true;
    }

    /** Adds a message to the end of the history and trims it. */
    method PushLocked(message: ChatMessage)
      requires Indexed() && |message.content| <= MAX_OUTPUT && message.id == nextId
      modifies `messages, `log, `dropped, `nextId
      ensures Indexed() && Stored() == Added(old(Stored()), Message(message.role, message.content, message.status))
      ensures messages != [] && messages[|messages| - 1] == message
    {
      log := log + [Message(message.role, message.content, message.status)];
      messages := messages + [message];
      nextId := nextId + 1;
      TrimmedKeepsLast(Stored());
      TrimLocked();
    }

    method AddLocked(role: Role, content: string, status: Status) returns (message: ChatMessage)
      requires Indexed() && |content| <= MAX_OUTPUT
      modifies `messages, `log, `dropped, `nextId
      ensures Indexed() && View() == old(View()).(history := Added(old(Stored()), Message(role, content, status)))
      ensures fresh(message) && message.id == |old(log)| && messages != [] && messages[|messages| - 1] == message
    {
      message := new ChatMessage(nextId, role, content, status);
      PushLocked(message);
    }

    /** Adds a message that is complete, or puts the history back when it cannot be stored. */
    method StoreLocked(role: Role, text: string, saved: bool) returns (message: ChatMessage)
      requires Indexed() && |text| <= MAX_OUTPUT
      modifies `messages, `log, `dropped, `nextId
      ensures Indexed()
      ensures View() == if saved then old(View()).(history := Added(old(Stored()), Message(role, text, Complete)))
                        else old(View())
      ensures saved ==> fresh(message) && message.id == |old(log)| && messages != [] && messages[|messages| - 1] == message
      ensures !saved ==> messages == old(messages)
    {
      var previous, id := messages, nextId;
      ghost var before, start := log, dropped;
      message := AddLocked(role, text, Complete);
      if !saved {
        PutBackLocked(previous, id, before, start);
      }
    }

    /** The stored messages as they were. */
    method PutBackLocked(previous: seq<ChatMessage>, id: nat, ghost before: seq<Message>, ghost start: nat)
      modifies `messages, `log, `dropped, `nextId
      ensures messages == previous && nextId == id && log == before && dropped == start
    {
      messages, nextId, log, dropped := previous, id, before, start;
    }

    /** Adds the empty reply and makes it current. */
    method AddReplyLocked()
      requires Indexed() && current == null
      modifies `messages, `log, `dropped, `nextId, `current
      ensures Indexed() && CurrentLast() && current != null && fresh(current)
      ensures View() == old(View()).(history := Added(old(Stored()), Message(Assistant, "", Streaming)),
                                     current := Some(|old(log)|))
    {
      var reply := AddLocked(Assistant, "", Streaming);
      current := reply;
    }

    /** The next message will be the reply of the generation. */
    ghost method OwnLocked()
      modifies `first, `whole, `owners
      ensures View() == old(View()).(owners := old(owners)[generation := |log|], first := |gone + queue|, whole := true)
    {
      owners, first, whole := owners[generation := |log|], |gone + queue|, true;
    }

    method TurnLocked()
      modifies `pending, `buffer, `first, `whole, `owners
      ensures View() == old(View()).(pending := "", speech := old(Spoken()).(buffer := ""),
                                     owners := old(owners)[generation := |log|], first := |gone + queue|, whole := true)
    {
      PutPendingLocked("");
      PutBufferLocked("");
      OwnLocked();
    }

    /** Stores the user's message and starts the reply. When the history cannot be stored it is put back, but
        the generation is not. */
    method RequestLocked(text: string, saved: bool)
      requires Indexed() && current == null && |text| <= MAX_OUTPUT
      modifies `generation, `messages, `log, `dropped, `nextId, `current, `pending, `buffer, `first, `whole, `owners
      ensures Indexed() && CurrentLast()
      ensures View() == Requested(old(View()), text, saved)
      ensures if saved then current != null && fresh(current) else current == null
    {
      AdvanceLocked();
      var user := StoreLocked(User, text, saved);
      if saved {
        TurnLocked();
        AddReplyLocked();
      }
    }

    method BeginLocked(saved: bool) returns (ok: bool)
      requires Indexed() && current == null && |pending| <= MAX_TEXT
      modifies `generation, `messages, `log, `dropped, `nextId, `current, `pending, `buffer, `first, `whole, `owners
      ensures Indexed() && CurrentLast()
      ensures var r := Begun(old(View()), saved); View() == r.state && ok == r.ok
      ensures if ok then current != null && fresh(current) else current == null
    {
      var text := Strip(pending);
      if text == "" {
        return false;
      }
      StripShortens(pending);
      RequestLocked(text, saved);
      return saved;
    }

    // -------------------------------------------------------------- calls from the browser

    /** Cancels and lets go of the browser; false if the history could not be stored. */
    method StopLocked(now: int, saved: bool) returns (ok: bool)
      requires Indexed() && CurrentLast() && GoneEnded()
      modifies this, current
      ensures Indexed() && current == null && GoneEnded()
      ensures View() == Stopped(old(View()), now) && ok == CancelSaves(old(View()), saved)
    {
      ok := current == null || saved;
      CutShortLocked(now);
      ReleaseLocked();
      PutPendingLocked("");
    }

    method AbortLocked(now: int)
      requires Indexed() && CurrentLast() && GoneEnded()
      modifies this, current
      ensures Indexed() && current == null
      ensures View() == Aborted(old(View()), now)
    {
      CutShortLocked(now);
      ReleaseLocked();
    }

    method ActivateLocked(client: string, now: int)
      modifies `active, `client, `pending, `generation, `heartbeatAt
      ensures View() == old(View()).(active := true, client := Some(client), pending := "",
                                     generation := old(generation) + 1, heartbeatAt := now)
    {
      active, this.client := true, Some(client);
      PutPendingLocked("");
      AdvanceLocked();
      BeatLocked(now);
    }

    method AdmitLocked(client: string, now: int) returns (ok: bool)
      requires Indexed() && CurrentLast() && View().Formed()
      modifies `active, `client, `pending, `generation, `heartbeatAt
      ensures Indexed() && CurrentLast()
      ensures var r := Admitted(old(View()), client, now); View() == r.state && ok == r.ok
    {
      if !active {
        ActivateLocked(client, now);
        return true;
      }
      if this.client != Some(client) {
        return false;
      }
      BeatLocked(now);
      return true;
    }

    method StartLocked(client: string, ready: bool, now: int, saved: bool) returns (ok: bool)
      requires Indexed() && CurrentLast() && GoneEnded() && View().Formed()
      modifies this, current
      ensures Indexed() && CurrentLast()
      ensures var r := Started(old(View()), client, ready, now, saved); View() == r.state && ok == r.ok
    {
      if !ready {
        return false;
      }
      if active && now - heartbeatAt >= LEASE {
        var stopped := StopLocked(now, saved);
        if !stopped {
          return false;
        }
      }
      ok := AdmitLocked(client, now);
    }

    method Start(client: string, ready: bool, now: int, saved: bool) returns (ok: bool)
      requires Valid()
      modifies this, current
      ensures Valid()
      ensures var r := Started(old(View()), client, ready, now, saved); View() == r.state && ok == r.ok
    {
      StartedKeeps(View(), client, ready, now, saved);
      GoneHaveEnded();
      ok := StartLocked(client, ready, now, saved);
    }

    method Stop(client: string, now: int, saved: bool) returns (ok: bool)
      requires Valid()
      modifies this, current
      ensures Valid()
      ensures var r := StoppedBy(old(View()), client, now, saved); View() == r.state && ok == r.ok
    {
      StoppedByKeeps(View(), client, now, saved);
      GoneHaveEnded();
      if !active {
        return true;
      }
      if this.client != Some(client) {
        return false;
      }
      ok := StopLocked(now, saved);
    }

    /** Whether this browser owns the session and its lease has not run out. */
    predicate OwnedBy(client: string, now: int)
      reads this
    {
      active && this.client == Some(client) && now - heartbeatAt < LEASE
    }

    method InterruptLocked(now: int, saved: bool) returns (ok: bool)
      requires Indexed() && CurrentLast() && GoneEnded()
      modifies this, current
      ensures Indexed() && current == null && ok == CancelSaves(old(View()), saved)
      ensures View() == if ok then CutShort(old(View()), now).(pending := "") else CutShort(old(View()), now)
    {
      ok := current == null || saved;
      CutShortLocked(now);
      if ok {
        PutPendingLocked("");
      }
    }

    method Interrupt(client: string, now: int, saved: bool) returns (ok: bool)
      requires Valid()
      modifies this, current
      ensures Valid()
      ensures var r := InterruptedBy(old(View()), client, now, saved); View() == r.state && ok == r.ok
    {
      InterruptedByKeeps(View(), client, now, saved);
      GoneHaveEnded();
      if !OwnedBy(client, now) {
        return false;
      }
      ok := InterruptLocked(now, saved);
    }

    method ResumeLocked(text: string, now: int, cancelSaved: bool, saved: bool) returns (ok: bool)
      requires Indexed() && CurrentLast() && GoneEnded() && View().Formed() && |text| <= MAX_TEXT
      modifies this, current
      ensures Indexed() && CurrentLast()
      ensures var r := Resumed(old(View()), text, now, cancelSaved, saved); View() == r.state && ok == r.ok
    {
      var busy := BusyLocked();
      if busy {
        var stored := current == null || cancelSaved;
        CutShortLocked(now);
        if !stored {
          return false;
        }
      }
      PutPendingLocked(text);
      ok := BeginLocked(saved);
    }

    method SubmitText(client: string, text: string, now: int, cancelSaved: bool, saved: bool) returns (ok: bool)
      requires Valid()
      modifies this, current
      ensures Valid()
      ensures var r := Submitted(old(View()), client, text, now, cancelSaved, saved); View() == r.state && ok == r.ok
    {
      SubmittedKeeps(View(), client, text, now, cancelSaved, saved);
      GoneHaveEnded();
      var combined := Combined(pending, Strip(text));
      if !IsText(text) || !OwnedBy(client, now) || !IsText(combined) {
        return false;
      }
      ok := ResumeLocked(combined, now, cancelSaved, saved);
    }

    method SendNow(client: string, now: int, cancelSaved: bool, saved: bool) returns (ok: bool)
      requires Valid()
      modifies this, current
      ensures Valid()
      ensures var r := Sent(old(View()), client, now, cancelSaved, saved); View() == r.state && ok == r.ok
    {
      SentKeeps(View(), client, now, cancelSaved, saved);
      GoneHaveEnded();
      if !OwnedBy(client, now) || Strip(pending) == "" {
        return false;
      }
      ok := ResumeLocked(pending, now, cancelSaved, saved);
    }

    /** Hands the buffer to the queue for the message that owns the generation. */
    method VoiceLocked(final: bool) returns (ok: bool)
      requires Indexed() && CurrentLast() && View().Formed() && QueueOk(Spoken()) && current != null
      modifies `queue, `gone, `evicted, `buffer
      ensures Indexed() && CurrentLast()
      ensures var r := Voicing(old(View()), current.id, final); View() == r.state && ok == r.ok
    {
      ok := SentencesLocked(final);
    }

    method PutCurrentLocked(message: ChatMessage?)
      modifies `current
      ensures current == message
      ensures View() == old(View()).(current := if message == null then None else Some(message.id))
    {
      current := message;
    }

    /** The complete message of another agent enters the history under a new generation. */
    method SayLocked(text: string, saved: bool)
      requires Indexed() && current == null && |text| <= MAX_OUTPUT
      modifies this
      ensures Indexed() && current == null
      ensures View() == if saved then WithAgentMessage(old(View()), text) else old(View())
      ensures saved ==> messages != [] && messages[|messages| - 1].id + 1 == nextId
    {
      var message := StoreLocked(Assistant, text, saved);
      if saved {
        AnnounceLocked(text);
      }
    }

    /** The last message is what is spoken next, under a new generation. */
    method AnnounceLocked(text: string)
      requires log != []
      modifies `generation, `buffer, `first, `owners
      ensures View() == old(View()).(generation := old(generation) + 1, speech := old(Spoken()).(buffer := text),
                                     owners := old(owners)[old(generation) + 1 := |log| - 1], first := |gone + queue|)
    {
      AdvanceLocked();
      PutBufferLocked(text);
      GiveLocked();
    }

    /** The generation belongs to the last message. */
    ghost method GiveLocked()
      requires log != []
      modifies `first, `owners
      ensures View() == old(View()).(owners := old(owners)[generation := |log| - 1], first := |gone + queue|)
    {
      owners, first := owners[generation := |log| - 1], |gone + queue|;
    }

    /** Queues the text of the last message, which is current only meanwhile. */
    method SpeakLastLocked() returns (ok: bool)
      requires Indexed() && current == null && messages != [] && View().Formed() && QueueOk(Spoken())
      modifies this
      ensures Indexed() && current == null
      ensures var r := Voicing(old(View()), |old(log)| - 1, true); View() == r.state && ok == r.ok
    {
      PutCurrentLocked(messages[|messages| - 1]);
      ok := VoiceLocked(true);
      PutCurrentLocked(null);
    }

    method SpeakTextLocked(text: string, saved: bool) returns (ok: bool)
      requires Indexed() && current == null && |text| <= MAX_OUTPUT && View().Formed() && QueueOk(Spoken())
      modifies this
      ensures Indexed() && current == null
      ensures var r := if saved then Voicing(WithAgentMessage(old(View()), text), |old(log)|, true)
                       else Reply(old(View()), false);
              View() == r.state && ok == r.ok
    {
      SayLocked(text, saved);
      if !saved {
        return false;
      }
      ok := SpeakLastLocked();
    }

    method SpeakAgent(text: string, now: int, saved: bool) returns (ok: bool)
      requires Valid()
      modifies this, current
      ensures Valid()
      ensures var r := AgentSpoken(old(View()), text, now, saved); View() == r.state && ok == r.ok
    {
      AgentSpokenKeeps(View(), text, now, saved);
      GoneHaveEnded();
      var busy := BusyLocked();
      if !IsText(text) || !(active && now - heartbeatAt < LEASE) || busy || !speakReplies {
        return false;
      }
      StripShortens(text);
      ok := SpeakTextLocked(Strip(text), saved);
    }

    method MarkLocked(k: nat, status: Playback)
      requires k < |queue| && View().Formed()
      modifies `queue
      ensures View() == Marked(old(View()), |gone| + k, status)
    {
      ghost var items := Spoken().items;
      queue := queue[k := queue[k].(status := status)];
      assert Spoken().items == items[|gone| + k := items[|gone| + k].(status := status)];
    }

    method EndLocked(k: nat, report: Report, now: int)
      requires Indexed() && CurrentLast() && GoneEnded() && View().Formed()
      requires k < |queue| && (report.Finished? || report.Broken?)
      modifies this, current
      ensures Indexed() && CurrentLast()
      ensures View() == PieceEnded(old(View()), |old(gone)| + k, report, now)
    {
      MarkLocked(k, Ended(report));
      TailLocked(now);
      if report.Broken? {
        var stopped := StopLocked(now, true);
      }
    }

    method InOrderLocked(k: nat, report: Report) returns (ordered: bool)
      requires GoneEnded() && k < |queue|
      ensures ordered == InOrder(Spoken().items, |gone| + k, report)
    {
      var live := FirstLiveLocked();
      FirstLiveIs(Spoken().items, |gone| + live);
      assert Spoken().items[|gone| + k] == queue[k];
      ordered := Plays(queue[k], report) || Ends(queue[k], report) ==> live == k;
    }

    /** The place in the queue of a piece of the current generation, or -1. */
    method FindLocked(id: nat) returns (k: int)
      requires evicted == |gone|
      ensures -1 <= k < |queue| && (k >= 0 <==> Current(Spoken(), id, generation)) && (k >= 0 ==> id == |gone| + k)
    {
      k := -1;
      if evicted <= id < evicted + |queue| {
        assert Spoken().items[id] == queue[id - evicted];
        if queue[id - evicted].generation == generation {
          k := id - evicted;
        }
      }
    }

    method ActLocked(k: nat, report: Report, now: int)
      requires Indexed() && CurrentLast() && GoneEnded() && View().Formed() && k < |queue|
      modifies this, current
      ensures Indexed() && CurrentLast()
      ensures View() == Acted(old(View()), |old(gone)| + k, report, now)
    {
      assert Spoken().items[|gone| + k] == queue[k];
      if Plays(queue[k], report) {
        MarkLocked(k, Playing);
      } else if Ends(queue[k], report) {
        EndLocked(k, report, now);
      }
    }

    method AcknowledgeLocked(k: nat, report: Report, now: int, saved: bool) returns (ok: bool)
      requires Indexed() && CurrentLast() && GoneEnded() && View().Formed() && k < |queue|
      modifies this, current
      ensures Indexed() && CurrentLast()
      ensures var r := Acknowledged(old(View()), |old(gone)| + k, report, now, saved); View() == r.state && ok == r.ok
    {
      assert Spoken().items[|gone| + k] == queue[k];
      ok := Ends(queue[k], report) ==> saved;
      ActLocked(k, report, now);
      if ok {
        BeatLocked(now);
      }
    }

    /** A report about the piece at place `k` of the queue. */
    method ReportLocked(k: nat, report: Report, now: int, saved: bool) returns (ok: bool)
      requires Indexed() && CurrentLast() && GoneEnded() && View().Formed() && k < |queue|
      modifies this, current
      ensures Indexed() && CurrentLast()
      ensures View() == Reported(old(View()), |old(gone)| + k, report, now, saved).state
      ensures ok == Reported(old(View()), |old(gone)| + k, report, now, saved).ok
    {
      ok := InOrderLocked(k, report);
      if ok {
        ok := AcknowledgeLocked(k, report, now, saved);
      }
    }

    method HeartbeatLocked(client: string, report: Report, id: Option<nat>, now: int, saved: bool) returns (ok: bool)
      requires Indexed() && CurrentLast() && GoneEnded() && View().Formed()
      modifies this, current
      ensures Indexed() && CurrentLast()
      ensures var r := Heard(old(View()), client, report, id, now, saved); View() == r.state && ok == r.ok
    {
      if !OwnedBy(client, now) || (id.None? && !report.Idle?) {
        return false;
      }
      if id.Some? {
        ok := AnswerLocked(report, id.value, now, saved);
      } else {
        BeatLocked(now);
        ok := true;
      }
    }

    /** A report of the owner about a piece. */
    method AnswerLocked(report: Report, id: nat, now: int, saved: bool) returns (ok: bool)
      requires Indexed() && CurrentLast() && GoneEnded() && View().Formed()
      modifies this, current
      ensures Indexed() && CurrentLast()
      ensures var s := old(View());
              var r := if Current(s.speech, id, s.generation) then Reported(s, id, report, now, saved)
                       else Reply(s.(heartbeatAt := now), true);
              View() == r.state && ok == r.ok
    {
      var k := FindLocked(id);
      if k >= 0 {
        ok := ReportLocked(k, report, now, saved);
      } else {
        BeatLocked(now);
        ok := true;
      }
    }

    /** Whether the answer to a report is to acknowledge it. */
    method ConfirmsLocked(report: Report, id: Option<nat>) returns (confirms: bool)
      requires evicted == |gone|
      ensures confirms <==>
              id.Some? && Current(Spoken(), id.value, generation) && Confirms(Spoken().items[id.value], report)
    {
      if id.None? {
        return false;
      }
      var k := FindLocked(id.value);
      assert k >= 0 ==> Spoken().items[id.value] == queue[k];
      confirms := k >= 0 && Confirms(queue[k], report);
    }

    method Heartbeat(client: string, report: Report, id: Option<nat>, now: int, saved: bool)
      returns (ok: bool, acknowledged: bool)
      requires Valid()
      modifies this, current
      ensures Valid()
      ensures var r := Heard(old(View()), client, report, id, now, saved); View() == r.state && ok == r.ok
      ensures var p := old(Spoken());
              acknowledged <==>
              ok && id.Some? && Current(p, id.value, old(generation)) && Confirms(p.items[id.value], report)
    {
      HeardKeeps(View(), client, report, id, now, saved);
      GoneHaveEnded();
      var confirms := ConfirmsLocked(report, id);
      ok := HeartbeatLocked(client, report, id, now, saved);
      acknowledged := ok && confirms;
    }

    method PutSpeakReplies(speakReplies: bool)
      modifies `speakReplies
      ensures View() == old(View()).(speakReplies := speakReplies)
    {
      this.speakReplies := speakReplies;
    }

    method MuteLocked(speakReplies: bool)
      requires Indexed() && CurrentLast() && GoneEnded()
      modifies `speakReplies, `queue, `buffer, `whole
      ensures Indexed() && CurrentLast()
      ensures View() == Muted(old(View()), speakReplies, true).state
    {
      PutSpeakReplies(speakReplies);
      if active && !speakReplies {
        HushLocked();
      }
    }

    /** Nothing live is left to be spoken. */
    method HushLocked()
      requires Indexed() && CurrentLast() && GoneEnded()
      modifies `queue, `buffer, `whole
      ensures Indexed() && CurrentLast()
      ensures View() == old(View()).(speech := Quiet(old(Spoken())), whole := false)
    {
      BreakLocked();
      QuietLocked();
    }

    /** Turning spoken replies on or off. */
    method Configure(speakReplies: bool, saved: bool) returns (ok: bool)
      requires Valid()
      modifies this
      ensures Valid()
      ensures var r := Muted(old(View()), speakReplies, saved); View() == r.state && ok == r.ok
    {
      MutedKeeps(View(), speakReplies, saved);
      GoneHaveEnded();
      if saved {
        MuteLocked(speakReplies);
      }
      return saved;
    }

    static method MayStore(texts: seq<(Role, string)>) returns (ok: bool)
      ensures ok == Storable(texts)
    {
      if |texts| > MAX_MESSAGES {
        return false;
      }
      var chars := 0;
      ghost var entries := Entries(texts);
      for i := |texts| downto 0
        invariant chars == Chars(entries, i)
        invariant forall k | i <= k < |texts| :: |texts[k].1| <= MAX_OUTPUT && !Blank(texts[k].1)
      {
        if |texts[i].1| > MAX_OUTPUT || Blank(texts[i].1) {
          return false;
        }
        chars := chars + |texts[i].1|;
      }
      return chars <= MAX_HISTORY_CHARS;
    }

    /** New messages for these texts, numbered from `id`. */
    static method MakeMessages(texts: seq<(Role, string)>, id: nat) returns (made: seq<ChatMessage>)
      ensures |made| == |texts|
      ensures forall i | 0 <= i < |made| ::
                var m := made[i];
                fresh(m) && m.id == id + i && Message(m.role, m.content, m.status) == Entries(texts)[i]
    {
      made := [];
      for i := 0 to |texts|
        invariant |made| == i
        invariant forall k | 0 <= k < i ::
                    var m := made[k];
                    fresh(m) && m.id == id + k && Message(m.role, m.content, m.status) == Entries(texts)[k]
      {
        var message := new ChatMessage(id + i, texts[i].0, texts[i].1, Complete);
        made := made + [message];
      }
    }

    method ReplaceLocked(texts: seq<(Role, string)>)
      requires Indexed() && current == null
      modifies `messages, `log, `dropped, `nextId
      ensures Indexed()
      ensures View() == old(View()).(history := History(old(log) + Entries(texts), |old(log)|))
    {
      var made := MakeMessages(texts, nextId);
      InstallLocked(texts, made);
    }

    method InstallLocked(texts: seq<(Role, string)>, made: seq<ChatMessage>)
      requires Indexed() && |made| == |texts|
      requires forall i | 0 <= i < |made| ::
                 var m := made[i];
                 m.id == nextId + i && Message(m.role, m.content, m.status) == Entries(texts)[i]
      modifies `messages, `log, `dropped, `nextId
      ensures Indexed()
      ensures Stored() == History(old(log) + Entries(texts), |old(log)|)
    {
      messages, dropped := made, |log|;
      log := log + Entries(texts);
      nextId := nextId + |texts|;
    }

    /** Replaces the history of a stopped session. */
    method SetHistory(texts: seq<(Role, string)>, saved: bool) returns (ok: bool)
      requires Valid()
      modifies this
      ensures Valid()
      ensures var r := Replaced(old(View()), texts, saved); View() == r.state && ok == r.ok
    {
      ReplacedKeeps(View(), texts, saved);
      ok := MayStore(texts);
      ok := ok && !active && saved;
      if ok {
        ReplaceLocked(texts);
      }
    }

    // -------------------------------------------------------------- captions and the clock

    method CaptionLocked(text: string, now: int)
      modifies `pending, `lastInputAt
      ensures View() == old(View()).(pending := text, lastInputAt := now)
    {
      pending, lastInputAt := text, now;
    }

    /** A caption the other gates let through; false if it is not taken up. */
    method OnCaption(text: string, now: int) returns (ok: bool)
      requires Valid()
      modifies this
      ensures Valid()
      ensures var r := Captioned(old(View()), text, now); View() == r.state && ok == r.ok
    {
      CaptionedKeeps(View(), text, now);
      GoneHaveEnded();
      var busy := BusyLocked();
      if Blank(text) || !(active && now - heartbeatAt < LEASE) || busy || now < listenAfter {
        return false;
      }
      var combined := Combined(pending, Strip(text));
      if |combined| > MAX_TEXT {
        return false;
      }
      CaptionLocked(combined, now);
      return true;
    }

    method ExpireLocked(now: int, saved: bool)
      requires Indexed() && CurrentLast() && GoneEnded()
      modifies this, current
      ensures Indexed() && current == null
      ensures View() == if CancelSaves(old(View()), saved) then Stopped(old(View()), now)
                        else Aborted(Stopped(old(View()), now), now)
    {
      var stopped := StopLocked(now, saved);
      if !stopped {
        AbortLocked(now);
      }
    }

    /** Begins; a request that cannot be made ends the session. */
    method TurnOrAbortLocked(now: int, saved: bool)
      requires Indexed() && current == null && GoneEnded() && |pending| <= MAX_TEXT
      modifies this
      ensures Indexed() && CurrentLast()
      ensures var begun := Begun(old(View()), saved);
              View() == if begun.ok then begun.state else Aborted(begun.state, now)
    {
      var ok := BeginLocked(saved);
      if !ok {
        AbortLocked(now);
      }
    }

    method TickLocked(quiet: bool, now: int, saved: bool)
      requires Indexed() && CurrentLast() && GoneEnded() && View().Formed() && |pending| <= MAX_TEXT
      modifies this, current
      ensures Indexed() && CurrentLast()
      ensures View() == Ticked(old(View()), quiet, now, saved)
    {
      var busy := BusyLocked();
      if active {
        if now - heartbeatAt >= LEASE {
          ExpireLocked(now, saved);
        } else if pending != "" && !busy && now >= listenAfter && now - lastInputAt >= SETTLE && quiet {
          TurnOrAbortLocked(now, saved);
        }
      }
    }

    /** One tick; a tick that fails stops the session. */
    method TickOnce(quiet: bool, now: int, saved: bool)
      requires Valid()
      modifies this, current
      ensures Valid() && View() == Ticked(old(View()), quiet, now, saved)
    {
      TickedKeeps(View(), quiet, now, saved);
      GoneHaveEnded();
      TickLocked(quiet, now, saved);
    }

    // -------------------------------------------------------------- the request to the model

    method ExtendLocked(text: string)
      requires Indexed() && CurrentLast() && current != null
      modifies `log, current
      ensures Indexed() && CurrentLast()
      ensures log == old(log)[current.id := old(log)[current.id].(content := old(log)[current.id].content + text)]
      ensures current.content == old(current.content) + text
    {
      log := log[current.id := log[current.id].(content := log[current.id].content + text)];
      current.content := current.content + text;
    }

    method GrowLocked(text: string)
      requires Indexed() && CurrentLast() && View().Formed() && current != null
      requires |current.content| + |text| <= MAX_OUTPUT
      modifies `log, `messages, `dropped, current
      ensures Indexed() && CurrentLast()
      ensures View() == Grown(old(View()), text)
    {
      ExtendLocked(text);
      TrimmedKeepsLast(Stored());
      TrimLocked();
    }

    method SpeakDeltaLocked(text: string) returns (ok: bool)
      requires Indexed() && CurrentLast() && View().Formed() && QueueOk(Spoken()) && current != null
      modifies `queue, `gone, `evicted, `buffer
      ensures Indexed() && CurrentLast()
      ensures var r := Voicing(old(View()).(speech := old(Spoken()).(buffer := old(buffer) + text)), current.id, false);
              View() == r.state && ok == r.ok
    {
      PutBufferLocked(buffer + text);
      ok := VoiceLocked(false);
    }

    method DeltaLocked(generation: nat, text: string) returns (ok: bool)
      requires Indexed() && CurrentLast() && View().Formed() && QueueOk(Spoken())
      modifies this, current
      ensures Indexed() && CurrentLast()
      ensures var r := Extended(old(View()), generation, text); View() == r.state && ok == r.ok
    {
      if !active || generation != this.generation || current == null {
        return false;
      }
      if |current.content| + |text| > MAX_OUTPUT {
        return false;
      }
      GrowLocked(text);
      if !speakReplies {
        BreakLocked();
        return true;
      }
      ok := SpeakDeltaLocked(text);
    }

    method Delta(generation: nat, text: string) returns (ok: bool)
      requires Valid()
      modifies this, current
      ensures Valid()
      ensures var r := Extended(old(View()), generation, text); View() == r.state && ok == r.ok
    {
      ExtendedKeeps(View(), generation, text);
      ok := DeltaLocked(generation, text);
    }

    method MarkCurrentLocked(status: Status)
      requires Indexed() && CurrentLast() && current != null
      modifies `log, current
      ensures Indexed() && CurrentLast()
      ensures View() == Closed(old(View()), status).(current := Some(current.id))
      ensures queue == old(queue) && gone == old(gone)
    {
      log := log[current.id := log[current.id].(status := status)];
      current.status := status;
    }

    /** Everything has been queued: the reply gets its status and, once stored, is no longer current. */
    method SettleLocked(truncated: bool, saved: bool)
      requires Indexed() && CurrentLast() && View().Formed() && current != null
      modifies this, current
      ensures Indexed() && CurrentLast()
      ensures View() == Settled(old(View()), if truncated then Truncated else Complete, saved)
    {
      MarkCurrentLocked(if truncated then Truncated else Complete);
      if saved {
        PutCurrentLocked(null);
      }
    }

    method FinishLocked(generation: nat, truncated: bool, saved: bool) returns (ok: bool)
      requires Indexed() && CurrentLast() && View().Formed() && QueueOk(Spoken())
      modifies this, current
      ensures Indexed() && CurrentLast()
      ensures var r := Completed(old(View()), generation, truncated, saved); View() == r.state && ok == r.ok
    {
      if !active || generation != this.generation || current == null {
        return true;
      }
      if Blank(current.content) {
        return false;
      }
      ok := VoiceLocked(true);
      if ok {
        SettleLocked(truncated, saved);
        ok := saved;
      }
    }

    /** The request to the model has come to its end. */
    method Finish(generation: nat, truncated: bool, saved: bool) returns (ok: bool)
      requires Valid()
      modifies this, current
      ensures Valid()
      ensures var r := Completed(old(View()), generation, truncated, saved); View() == r.state && ok == r.ok
    {
      CompletedKeeps(View(), generation, truncated, saved);
      ok := FinishLocked(generation, truncated, saved);
    }

    method EndCurrentLocked()
      requires Indexed() && CurrentLast() && GoneEnded() && View().Formed()
      modifies this, current
      ensures Indexed() && current == null
      ensures View() == Closed(old(View()), Failed).(generation := old(generation) + 1, speech := Quiet(old(Spoken())))
    {
      CloseLocked(Failed);
      QuietLocked();
      AdvanceLocked();
    }

    method FailLocked(generation: nat, saved: bool)
      requires Indexed() && CurrentLast() && GoneEnded() && View().Formed()
      modifies this, current
      ensures Indexed() && CurrentLast()
      ensures View() == FailedWith(old(View()), generation, saved)
    {
      if !active || generation != this.generation || current == null {
        return;
      }
      EndCurrentLocked();
      if !saved {
        ReleaseLocked();
      }
    }

    method Fail(generation: nat, saved: bool)
      requires Valid()
      modifies this, current
      ensures Valid() && View() == FailedWith(old(View()), generation, saved)
    {
      FailedKeeps(View(), generation, saved);
      GoneHaveEnded();
      FailLocked(generation, saved);
    }

    /** A callback that raises ends the session. */
    method Abort(now: int)
      requires Valid()
      modifies this, current
      ensures Valid() && View() == Aborted(old(View()), now)
    {
      AbortedKeeps(View(), now);
      GoneHaveEnded();
      AbortLocked(now);
    }
  }
}
