// The order in which captions are accepted, over every run and despite the bounded windows of a session;
// what an acknowledgement means, and what a failed delivery leaves to its retry
// (src/ws_collab/captioner.py, `BrowserCaptioner.ingest`).
module CaptionOrder {
  import opened Sequences
  import opened EventLog
  import opened Publication
  import opened Captions
  import opened CaptionRuns

  // ---------------------------------------------------------------- one session

  predicate Ascending(xs: seq<nat>) {
    forall i, j | 0 <= i < j < |xs| :: xs[i] < xs[j]
  }

  /** The window ends with the highest seq. */
  predicate SessionOk(session: Session) {
    && Ascending(session.processed)
    && (if session.processed == [] then session.highest == 0
        else session.processed[|session.processed| - 1] == session.highest)
  }

  lemma AscendingPush(xs: seq<nat>, x: nat)
    requires Ascending(xs) && (xs != [] ==> xs[|xs| - 1] < x)
    ensures Ascending(xs + [x])
  {
  }

  lemma {:induction false} InsertAscending(xs: seq<nat>, x: nat)
    requires Ascending(xs)
    ensures Ascending(Insert(xs, x))
    ensures Insert(xs, x) != [] && Insert(xs, x)[|Insert(xs, x)| - 1] == if xs == [] then x else Max(xs[|xs| - 1], x)
  {
    if xs != [] && xs[|xs| - 1] > x {
      InsertAscending(xs[..|xs| - 1], x);
      AscendingPush(Insert(xs[..|xs| - 1], x), xs[|xs| - 1]);
    }
  }

  lemma LastAscending(xs: seq<nat>, n: nat)
    requires Ascending(xs) && 0 < n
    ensures Ascending(LastN(xs, n))
    ensures xs != [] ==> LastN(xs, n) != [] && LastN(xs, n)[|LastN(xs, n)| - 1] == xs[|xs| - 1]
  {
    var last := LastN(xs, n);
    if last != xs {
      assert last == xs[|xs| - n..];
    }
  }

  lemma MarkedOk(session: Session, seqNo: nat, now: int)
    requires SessionOk(session) && 1 <= seqNo
    ensures SessionOk(Marked(session, seqNo, now))
  {
    InsertAscending(session.processed, seqNo);
    LastAscending(Insert(session.processed, seqNo), MAX_PROCESSED);
  }

  lemma AcceptExceedsHighest(session: Session, item: Item)
    requires SessionOk(session) && 1 <= item.seqNo && Judge(session, item, None, false) == Accept
    ensures session.highest < item.seqNo
  {
    var n := |session.processed|;
    assert n > 0 ==> session.processed[n - 1] in session.processed;
  }

  lemma {:induction false} FindPut(us: seq<Utterance>, u: Utterance, id: string)
    ensures Find(Put(us, u), id) == if id == u.id then Some(u) else Find(us, id)
  {
    if us != [] && us[0].id != u.id {
      FindPut(us[1..], u, id);
      assert Put(us, u)[1..] == Put(us[1..], u);
    }
  }

  predicate IdsDistinct(us: seq<Utterance>) {
    forall i, j | 0 <= i < j < |us| :: us[i].id != us[j].id
  }

  lemma {:induction false} PutDistinct(us: seq<Utterance>, u: Utterance)
    requires IdsDistinct(us)
    ensures IdsDistinct(Put(us, u))
    ensures forall v | v in Put(us, u) :: v == u || v in us
  {
    if us != [] && us[0].id != u.id {
      var rest := Put(us[1..], u);
      assert IdsDistinct(us[1..]);
      PutDistinct(us[1..], u);
      forall j | 0 <= j < |rest|
        ensures rest[j].id != us[0].id
      {
        assert rest[j] in rest;
      }
    }
  }

  lemma {:induction false} FindIn(us: seq<Utterance>, id: string)
    ensures match Find(us, id)
            case None => forall u | u in us :: u.id != id
            case Some(u) => u in us && u.id == id
  {
    if us != [] && us[0].id != id {
      FindIn(us[1..], id);
    }
  }

  /** Trimming either drops an utterance or leaves it as it is. */
  lemma {:induction false} FindTrimmed(us: seq<Utterance>, n: nat, id: string)
    requires IdsDistinct(us)
    ensures Find(LastN(us, n), id) == None || Find(LastN(us, n), id) == Find(us, id)
  {
    FindIn(us, id);
    FindIn(LastN(us, n), id);
    if Find(LastN(us, n), id).Some? {
      var u := Find(LastN(us, n), id).value;
      var k :| 0 <= k < |LastN(us, n)| && LastN(us, n)[k] == u;
      assert us[|us| - |LastN(us, n)| + k] == u;
    }
  }

  /** What is kept of an utterance once u was said: u itself, or a later revision if u was not final. */
  predicate SameOrLater(u: Utterance, v: Utterance) {
    v == u || (!u.final && u.revision < v.revision)
  }

  /** Nothing new is said: an utterance is as it was or dropped. */
  ghost predicate Narrows(s: Session, t: Session) {
    && s.highest <= t.highest
    && forall id :: Find(t.utterances, id) == None || Find(t.utterances, id) == Find(s.utterances, id)
  }

  /** An utterance in both is the same or a later revision. */
  ghost predicate Advances(s: Session, t: Session) {
    && s.highest <= t.highest
    && forall id | Find(s.utterances, id).Some? && Find(t.utterances, id).Some? ::
         SameOrLater(Find(s.utterances, id).value, Find(t.utterances, id).value)
  }

  predicate SessionFine(session: Session) {
    SessionOk(session) && IdsDistinct(session.utterances)
  }

  lemma MarkFine(session: Session, seqNo: nat, now: int)
    requires SessionFine(session) && 1 <= seqNo
    ensures SessionFine(Marked(session, seqNo, now)) && Narrows(session, Marked(session, seqNo, now))
    ensures Marked(session, seqNo, now).highest == Max(session.highest, seqNo)
  {
    MarkedOk(session, seqNo, now);
  }

  lemma TrimFine(session: Session)
    requires SessionFine(session)
    ensures SessionFine(Trimmed(session)) && Narrows(session, Trimmed(session))
    ensures Trimmed(session).highest == session.highest
  {
    LastAscending(session.processed, MAX_PROCESSED);
    forall id
      ensures Find(Trimmed(session).utterances, id) == None
           || Find(Trimmed(session).utterances, id) == Find(session.utterances, id)
    {
      FindTrimmed(session.utterances, MAX_UTTERANCES, id);
    }
  }

  /** Saying what the checks let through. */
  lemma SpokenFine(session: Session, u: Utterance)
    requires SessionFine(session)
    requires var current := Find(session.utterances, u.id);
             current.Some? ==> !current.value.final && current.value.revision < u.revision
    ensures SessionFine(Spoken(session, u)) && Advances(session, Spoken(session, u))
    ensures Find(Spoken(session, u).utterances, u.id) == Some(u)
  {
    PutDistinct(session.utterances, u);
    forall id
      ensures Find(Spoken(session, u).utterances, id) == if id == u.id then Some(u) else Find(session.utterances, id)
    {
      FindPut(session.utterances, u, id);
    }
  }

  lemma AdvancesThenNarrows(s: Session, t: Session, z: Session)
    requires Advances(s, t) && Narrows(t, z)
    ensures Advances(s, z)
  {
    forall id | Find(s.utterances, id).Some? && Find(z.utterances, id).Some?
      ensures SameOrLater(Find(s.utterances, id).value, Find(z.utterances, id).value)
    {
      assert Find(z.utterances, id) == Find(t.utterances, id);
    }
  }

  // ---------------------------------------------------------------- one step

  /** A finalization is a final, under its own key. */
  predicate FinalFine(key: string, final: Final) {
    final.item.isFinal && 1 <= final.item.seqNo && FinalKey(final.item) == key
  }

  ghost predicate Orderly(d: Data) {
    && (forall id | id in d.sessions :: SessionFine(d.sessions[id]))
    && (forall key | key in d.finals :: FinalFine(key, d.finals[key]))
  }

  /** A state that keeps the order of the session `id`, if it keeps the session, which was s. */
  ghost predicate Stage(s: Session, id: string, d: Data) {
    Orderly(d) && (id in d.sessions ==> Advances(s, d.sessions[id]))
  }

  /** So does every state along a reaction. */
  ghost predicate Stages(s: Session, id: string, r: Reaction) {
    Stage(s, id, r.data) && forall d | Saves(d) in r.effects :: Stage(s, id, d)
  }

  lemma PrunedStage(s: Session, id: string, d: Data, keep: Keep)
    requires Stage(s, id, d)
    ensures Stage(s, id, Pruned(d, keep))
  {
    forall other | other in Pruned(d, keep).sessions
      ensures SessionFine(Pruned(d, keep).sessions[other])
    {
      TrimFine(d.sessions[other]);
    }
    if id in Pruned(d, keep).sessions {
      TrimFine(d.sessions[id]);
      AdvancesThenNarrows(s, d.sessions[id], Trimmed(d.sessions[id]));
    }
  }

  lemma MarkedStage(s: Session, id: string, d: Data, sessionId: string, seqNo: nat, now: int)
    requires Stage(s, id, d) && 1 <= seqNo
    ensures Stage(s, id, MarkIn(d, sessionId, seqNo, now))
  {
    if sessionId in d.sessions {
      var t := d.sessions[sessionId];
      MarkFine(t, seqNo, now);
      if sessionId == id {
        AdvancesThenNarrows(s, t, Marked(t, seqNo, now));
      }
    }
  }

  lemma CompleteStages(s: Session, id: string, d: Data, key: string, sessionId: string, env: Env, keep: Keep,
                       verdict: Verdict)
    requires Stage(s, id, d) && key in d.finals
    ensures Stages(s, id, Complete(d, key, sessionId, env, keep, verdict))
  {
    var record, r := d.finals[key], Complete(d, key, sessionId, env, keep, verdict);
    assert FinalFine(key, record);
    if Succeeds(record.item, env.attempt) {
      var marked := MarkIn(d, sessionId, record.item.seqNo, env.now);
      MarkedStage(s, id, d, sessionId, record.item.seqNo, env.now);
      var completed := marked.(finals := marked.finals[key := record.(completed := true, updatedAt := env.now)]);
      PrunedStage(s, id, completed, keep);
    } else {
      var failed := record.(attempts := record.attempts + 1, updatedAt := env.now);
      PrunedStage(s, id, d.(finals := d.finals[key := failed]), keep);
    }
    OnlySave(Done(record.item, env.attempt), r.data);
  }

  lemma OnlySave(ps: seq<Publication>, saved: Data)
    ensures forall d | Saves(d) in PublishEffects(ps) + [Saves(saved)] :: d == saved
    ensures forall d | Saves(d) in [Saves(saved)] + PublishEffects(ps) :: d == saved
    ensures forall d :: Saves(d) !in PublishEffects(ps)
  {
  }

  lemma HeardStage(s: Session, id: string, d: Data, item: Item, merged: Item)
    requires Stage(s, id, d) && item.session in d.sessions && (id == item.session ==> s == d.sessions[id])
    requires merged == item.(pauses := merged.pauses)
    requires Judge(d.sessions[item.session], item, None, false) == Accept
    ensures Stage(s, id, Heard(d, item, merged))
  {
    SpokenFine(d.sessions[item.session], SaidAs(merged));
  }

  lemma AcceptedStages(s: Session, id: string, d: Data, item: Item, env: Env)
    requires Orderly(d) && item.session in d.sessions && 1 <= item.seqNo
    requires match Merged(d, item, env)
             case None => Stage(s, id, d)
             case Some(merged) => Stage(s, id, Heard(d, item, merged))
    ensures Stages(s, id, Accepted(d, item, env))
  {
    if Merged(d, item, env).Some? {
      var merged, key := Merged(d, item, env).value, FinalKey(item);
      var heard := Heard(d, item, merged);
      if !item.isFinal {
        OnlySave(Done(merged, env.attempt), Pruned(MarkIn(heard, item.session, item.seqNo, env.now), env.first));
        MarkedStage(s, id, heard, item.session, item.seqNo, env.now);
        PrunedStage(s, id, MarkIn(heard, item.session, item.seqNo, env.now), env.first);
      } else if key in heard.finals {
        CompleteStages(s, id, heard, key, item.session, env, env.second, Accept);
      } else {
        var seen := PendingSaved(heard, item, merged, env);
        PendingStage(s, id, heard, item, merged, env);
        CompleteStages(s, id, seen, key, item.session, env, env.second, Accept);
        var rest := Complete(seen, key, item.session, env, env.second, Accept);
        assert Accepted(d, item, env) == rest.(effects := [Saves(seen)] + rest.effects);
      }
    }
  }

  /** A new final is saved as pending. */
  function PendingSaved(heard: Data, item: Item, merged: Item, env: Env): Data
    requires item.session in heard.sessions
  {
    Pruned(Noted(heard, item, merged, env.now), env.first)
  }

  lemma PendingStage(s: Session, id: string, heard: Data, item: Item, merged: Item, env: Env)
    requires Stage(s, id, heard) && item.session in heard.sessions
    requires merged == item.(pauses := merged.pauses) && item.isFinal && 1 <= item.seqNo
    ensures Stage(s, id, PendingSaved(heard, item, merged, env))
    ensures FinalKey(item) in PendingSaved(heard, item, merged, env).finals
  {
    PrunedStage(s, id, Data(heard.sessions[item.session := heard.sessions[item.session].(lastSeen := env.now)],
                            heard.finals[FinalKey(item) := Final(merged, false, 0, env.now)]), env.first);
  }

  lemma WithSessionStage(d: Data, id: string, other: string, now: int)
    requires Orderly(d)
    ensures Stage(Before(d, id, now), id, WithSession(d, other, now))
  {
  }

  /** Validated items: seqs start at 1. */
  predicate ActValid(act: Act) {
    act.Deliver? ==> 1 <= act.item.seqNo
  }

  /** Whatever a step does, every state along it keeps the order of every session. */
  lemma ReactStages(d: Data, act: Act, env: Env, id: string)
    requires Orderly(d) && ActValid(act)
    ensures Stages(Before(d, id, env.now), id, React(d, act, env))
  {
    var s := Before(d, id, env.now);
    WithSessionStage(d, id, id, env.now);
    match act
    case Flush =>
      PrunedStage(s, id, d, env.first);
    case Resume(key) =>
      if key in d.finals && !d.finals[key].completed {
        var record := d.finals[key];
        if SpeechPauses.PausesValid(record.item.text, record.item.pauses) {
          WithSessionStage(d, id, record.item.session, env.now);
          CompleteStages(s, id, WithSession(d, record.item.session, env.now), key, record.item.session, env, env.first,
                         Retry);
        } else {
          PrunedStage(s, id, d.(finals := d.finals[key := record.(updatedAt := env.now)]), env.first);
        }
      }
    case Deliver(item) => DeliveredStages(d, item, env, id);
  }

  lemma DeliveredStages(d: Data, item: Item, env: Env, id: string)
    requires Orderly(d) && 1 <= item.seqNo
    ensures Stages(Before(d, id, env.now), id, Delivered(d, item, env))
  {
    var s, known := Before(d, id, env.now), WithSession(d, item.session, env.now);
    WithSessionStage(d, id, item.session, env.now);
    match VerdictOn(d, item, env)
    case Duplicate =>
    case StaleSeq =>
    case FinalImmutable =>
    case StaleRevision =>
    case Suppress(reason) =>
      MarkedStage(s, id, known, item.session, item.seqNo, env.now);
      var saved := Pruned(MarkIn(known, item.session, item.seqNo, env.now), env.first);
      PrunedStage(s, id, MarkIn(known, item.session, item.seqNo, env.now), env.first);
      OnlySave(Done(item, SuppressAttempt(env.attempt, reason)), saved);
    case Retry => CompleteStages(s, id, known, FinalKey(item), item.session, env, env.first, Retry);
    case Accept =>
      if Merged(known, item, env).Some? {
        HeardStage(s, id, known, item, Merged(known, item, env).value);
      }
      AcceptedStages(s, id, known, item, env);
  }

  // ---------------------------------------------------------------- what one delivery leaves behind

  /** The item whose place a delivered item takes: of a final, the one already held under its key. */
  function HeldItem(d: Data, item: Item): Item {
    if item.isFinal && FinalKey(item) in d.finals then d.finals[FinalKey(item)].item else item
  }

  lemma CompleteMarks(d: Data, key: string, sessionId: string, env: Env, keep: Keep, verdict: Verdict)
    requires key in d.finals
    ensures var r := Complete(d, key, sessionId, env, keep, verdict);
            r.status.Acknowledged? && sessionId in r.data.sessions ==>
              && sessionId in d.sessions
              && r.data.sessions[sessionId].highest == Max(d.sessions[sessionId].highest, d.finals[key].item.seqNo)
  {
  }

  /** An acknowledged delivery marks the seq of the item whose place it takes. */
  lemma AcceptedMarks(d: Data, item: Item, env: Env)
    requires item.session in d.sessions
    ensures var r := Accepted(d, item, env);
            r.status.Acknowledged? && item.session in r.data.sessions ==>
              r.data.sessions[item.session].highest == Max(d.sessions[item.session].highest, HeldItem(d, item).seqNo)
  {
    if Merged(d, item, env).Some? && item.isFinal {
      var merged, key := Merged(d, item, env).value, FinalKey(item);
      var heard := Heard(d, item, merged);
      if key in heard.finals {
        CompleteMarks(heard, key, item.session, env, env.second, Accept);
      } else {
        CompleteMarks(PendingSaved(heard, item, merged, env), key, item.session, env, env.second, Accept);
      }
    }
  }

  lemma {:induction false} LastSave(disk: Data, ps: seq<Publication>, saved: Data)
    ensures DiskAfter(disk, PublishEffects(ps) + [Saves(saved)]) == saved
    ensures DiskAfter(disk, [Saves(saved)] + PublishEffects(ps)) == saved
  {
    SaveAfter(disk, ps, [Saves(saved)]);
    assert [Saves(saved)][1..] == [];
    assert DiskAfter(disk, [Saves(saved)]) == DiskAfter(saved, []);
    assert ([Saves(saved)] + PublishEffects(ps))[1..] == PublishEffects(ps) + [];
    SaveAfter(saved, ps, []);
  }

  lemma {:induction false} SaveAfter(disk: Data, ps: seq<Publication>, rest: seq<Effect>)
    ensures DiskAfter(disk, PublishEffects(ps) + rest) == DiskAfter(disk, rest)
    decreases |ps|
  {
    if ps == [] {
      assert PublishEffects(ps) + rest == rest;
    } else {
      assert (PublishEffects(ps) + rest)[1..] == PublishEffects(ps[1..]) + rest;
      SaveAfter(disk, ps[1..], rest);
    }
  }

  lemma {:induction false} CompleteSaved(disk: Data, d: Data, key: string, sessionId: string, env: Env, keep: Keep,
                                         verdict: Verdict)
    requires key in d.finals
    ensures var r := Complete(d, key, sessionId, env, keep, verdict); DiskAfter(disk, r.effects) == r.data
  {
    LastSave(disk, Done(d.finals[key].item, env.attempt), Complete(d, key, sessionId, env, keep, verdict).data);
  }

  /** What is on disk after an accepted item: memory, unless a partial was not published. */
  lemma {:induction false} AcceptedSaved(disk: Data, d: Data, item: Item, env: Env)
    requires item.session in d.sessions
    ensures var r := Accepted(d, item, env);
            r.status.Acknowledged? || (item.isFinal && !r.status.TooManyPauses?) ==> DiskAfter(disk, r.effects) == r.data
  {
    if Merged(d, item, env).Some? {
      var merged, key := Merged(d, item, env).value, FinalKey(item);
      var heard := Heard(d, item, merged);
      if !item.isFinal {
        LastSave(disk, Done(merged, env.attempt), Accepted(d, item, env).data);
      } else if key in heard.finals {
        CompleteSaved(disk, heard, key, item.session, env, env.second, Accept);
      } else {
        var seen := PendingSaved(heard, item, merged, env);
        var rest := Complete(seen, key, item.session, env, env.second, Accept);
        CompleteSaved(seen, seen, key, item.session, env, env.second, Accept);
        assert ([Saves(seen)] + rest.effects)[1..] == rest.effects;
      }
    }
  }

  /** The verdicts by which an item is taken up. */
  predicate TakesUp(verdict: Verdict) {
    verdict.Accept? || verdict.Retry? || verdict.Suppress?
  }

  /** The seq that an item taken up leaves marked: its own, but for a final that shares its key. */
  function MarkedSeq(d: Data, item: Item, env: Env): nat {
    if env.suppression.Some? then item.seqNo else HeldItem(d, item).seqNo
  }

  /** An item taken up and acknowledged is on disk, and its seq is marked. */
  lemma {:induction false} TakenUp(disk: Data, d: Data, item: Item, env: Env)
    requires Orderly(d) && TakesUp(VerdictOn(d, item, env)) && Delivered(d, item, env).status.Acknowledged?
    ensures var r := Delivered(d, item, env);
            && DiskAfter(disk, r.effects) == r.data
            && (item.session in r.data.sessions ==>
                  r.data.sessions[item.session].highest
                  == Max(Before(d, item.session, env.now).highest, MarkedSeq(d, item, env)))
  {
    var known := WithSession(d, item.session, env.now);
    match VerdictOn(d, item, env)
    case Suppress(reason) =>
      LastSave(disk, Done(item, SuppressAttempt(env.attempt, reason)), Delivered(d, item, env).data);
    case Retry =>
      CompleteMarks(known, FinalKey(item), item.session, env, env.first, Retry);
      CompleteSaved(disk, known, FinalKey(item), item.session, env, env.first, Retry);
    case Accept =>
      AcceptedMarks(known, item, env);
      AcceptedSaved(disk, known, item, env);
  }

  /** An accepted item is what its utterance is kept as. */
  lemma Said(d: Data, item: Item, env: Env)
    requires Orderly(d) && 1 <= item.seqNo && VerdictOn(d, item, env) == Accept
    requires !Delivered(d, item, env).status.TooManyPauses?
    ensures var merged := Merged(WithSession(d, item.session, env.now), item, env);
            merged.Some? && Holds(Delivered(d, item, env).data, item.session, SaidAs(merged.value))
  {
    var known := WithSession(d, item.session, env.now);
    WithSessionStage(d, item.session, item.session, env.now);
    SaidFrom(known, item, env, Merged(known, item, env).value);
  }

  lemma SaidFrom(d: Data, item: Item, env: Env, merged: Item)
    requires Orderly(d) && item.session in d.sessions && 1 <= item.seqNo && Merged(d, item, env) == Some(merged)
    requires Judge(d.sessions[item.session], item, None, false) == Accept
    ensures Holds(Accepted(d, item, env).data, item.session, SaidAs(merged))
  {
    var spoken := Spoken(d.sessions[item.session], SaidAs(merged));
    SpokenFine(d.sessions[item.session], SaidAs(merged));
    assert Stage(spoken, item.session, Heard(d, item, merged));
    AcceptedStages(spoken, item.session, d, item, env);
    StageHolds(spoken, item.session, Accepted(d, item, env).data, SaidAs(merged));
  }

  predicate KeepsUtterance(d: Data, id: string, utterance: string) {
    id in d.sessions && Find(d.sessions[id].utterances, utterance).Some?
  }

  /** If the session is kept with the utterance, it is u or a later revision. */
  predicate Holds(d: Data, id: string, u: Utterance) {
    KeepsUtterance(d, id, u.id) ==> SameOrLater(u, Find(d.sessions[id].utterances, u.id).value)
  }

  lemma StageHolds(s: Session, id: string, d: Data, u: Utterance)
    requires Stage(s, id, d) && Find(s.utterances, u.id) == Some(u)
    ensures Holds(d, id, u)
  {
    if KeepsUtterance(d, id, u.id) {
      assert SameOrLater(u, Find(d.sessions[id].utterances, u.id).value);
    }
  }

  // ---------------------------------------------------------------- runs

  ghost predicate OrderlyWorld(w: World) {
    Orderly(w.data) && Orderly(w.disk)
  }

  predicate StepValid(step: Step) {
    match step
    case Does(act, env) => ActValid(act)
    case Crashes(act, env, after, cut, keep) => ActValid(act)
    case Others(p) => true
  }

  ghost predicate StepsValid(steps: seq<Step>) {
    forall k | 0 <= k < |steps| :: StepValid(steps[k])
  }

  /** The state file is what it was, or was saved along the way. */
  lemma {:induction false} DiskIsSaved(disk: Data, effects: seq<Effect>)
    ensures DiskAfter(disk, effects) == disk || Saves(DiskAfter(disk, effects)) in effects
    decreases |effects|
  {
    if effects != [] {
      DiskIsSaved(if effects[0].Saves? then effects[0].data else disk, effects[1..]);
      assert effects[0] in effects;
    }
  }

  /** A later state of the session comes from the one in memory, or from the one on disk. */
  ghost predicate ComesFrom(w: World, id: string, d: Data) {
    id in d.sessions ==>
      || (id in w.data.sessions && Advances(w.data.sessions[id], d.sessions[id]))
      || (id in w.disk.sessions && Narrows(w.disk.sessions[id], d.sessions[id]))
  }

  /** A step keeps the order of every session it keeps, in memory and on disk. */
  lemma StepKeepsOrder(c: Codec, cfg: Config, w: World, step: Step, id: string)
    requires OrderlyWorld(w) && StepValid(step)
    ensures OrderlyWorld(Next(c, cfg, w, step))
    ensures id in w.data.sessions ==>
              ComesFrom(w, id, Next(c, cfg, w, step).data) && ComesFrom(w, id, Next(c, cfg, w, step).disk)
  {
    match step
    case Does(act, env) =>
      ReactStages(w.data, act, env, id);
      DiskIsSaved(w.disk, React(w.data, act, env).effects);
    case Crashes(act, env, after, cut, keep) =>
      var r := React(w.data, act, env);
      ReactStages(w.data, act, env, id);
      DiskIsSaved(w.disk, CaptionRuns.Cut(r, after));
      ReloadedKeepsOrder(w, DiskAfter(w.disk, CaptionRuns.Cut(r, after)), id, Before(w.data, id, env.now), keep);
    case Others(p) =>
  }

  lemma ReloadedKeepsOrder(w: World, disk: Data, id: string, s: Session, keep: Keep)
    requires OrderlyWorld(w) && (disk == w.disk || Stage(s, id, disk))
    requires id in w.data.sessions ==> s == w.data.sessions[id]
    ensures Orderly(Pruned(disk, keep))
    ensures id in w.data.sessions ==> ComesFrom(w, id, Pruned(disk, keep)) && ComesFrom(w, id, disk)
  {
    if Stage(s, id, disk) {
      PrunedStage(s, id, disk, keep);
    } else {
      PrunedStage(NewSession(0), id, disk, keep);
      if id in Pruned(disk, keep).sessions {
        TrimFine(disk.sessions[id]);
      }
    }
  }

  /** The world after the first k steps. */
  function At(c: Codec, cfg: Config, w: World, steps: seq<Step>, k: nat): World
    requires k <= |steps|
  {
    if k == 0 then w else Next(c, cfg, At(c, cfg, w, steps, k - 1), steps[k - 1])
  }

  lemma {:induction false} RunOrderly(c: Codec, cfg: Config, w: World, steps: seq<Step>, k: nat)
    requires OrderlyWorld(w) && StepsValid(steps) && k <= |steps|
    ensures OrderlyWorld(At(c, cfg, w, steps, k))
  {
    if k > 0 {
      RunOrderly(c, cfg, w, steps, k - 1);
      StepKeepsOrder(c, cfg, At(c, cfg, w, steps, k - 1), steps[k - 1], "");
    }
  }

  lemma FreshOrderly()
    ensures OrderlyWorld(FreshWorld())
  {
  }

  /** From the a-th to the b-th step the session is kept. */
  ghost predicate SessionKept(c: Codec, cfg: Config, w: World, steps: seq<Step>, a: nat, b: nat, id: string)
    requires b <= |steps|
  {
    forall k | a < k <= b :: SessionKeptAt(c, cfg, w, steps, k, id)
  }

  predicate SessionKeptAt(c: Codec, cfg: Config, w: World, steps: seq<Step>, k: nat, id: string)
    requires k <= |steps|
  {
    id in At(c, cfg, w, steps, k).data.sessions
  }

  /** The a-th step is a delivery of this item, taken up and acknowledged. */
  predicate TakesUpAt(c: Codec, cfg: Config, w: World, steps: seq<Step>, a: nat, item: Item)
    requires a < |steps|
  {
    var d := At(c, cfg, w, steps, a).data;
    && steps[a].Does? && steps[a].act == Deliver(item)
    && TakesUp(VerdictOn(d, item, steps[a].env)) && Delivered(d, item, steps[a].env).status.Acknowledged?
  }

  /** The b-th step is a delivery of this item, and it is freshly accepted. */
  predicate AcceptsAt(c: Codec, cfg: Config, w: World, steps: seq<Step>, b: nat, item: Item)
    requires b < |steps|
  {
    && steps[b].Does? && steps[b].act == Deliver(item)
    && VerdictOn(At(c, cfg, w, steps, b).data, item, steps[b].env) == Accept
  }

  /** In memory and, if it is there, on disk the session has got as far as seq n. */
  predicate GotTo(w: World, id: string, n: nat) {
    && (id in w.data.sessions ==> n <= w.data.sessions[id].highest)
    && (id in w.disk.sessions ==> n <= w.disk.sessions[id].highest)
  }

  predicate GotToAt(c: Codec, cfg: Config, w: World, steps: seq<Step>, k: nat, id: string, n: nat)
    requires k <= |steps|
  {
    GotTo(At(c, cfg, w, steps, k), id, n)
  }

  lemma {:induction false} SessionKeptBefore(c: Codec, cfg: Config, w: World, steps: seq<Step>, a: nat, b: nat,
                                             id: string)
    requires a + 1 < b <= |steps| && SessionKept(c, cfg, w, steps, a, b, id)
    ensures SessionKept(c, cfg, w, steps, a, b - 1, id) && SessionKeptAt(c, cfg, w, steps, b - 1, id)
  {
  }

  lemma {:induction false} StaysThere(c: Codec, cfg: Config, w: World, steps: seq<Step>, a: nat, b: nat, id: string,
                                      n: nat)
    requires OrderlyWorld(w) && StepsValid(steps) && a < b <= |steps| && SessionKept(c, cfg, w, steps, a, b, id)
    requires GotToAt(c, cfg, w, steps, a + 1, id, n)
    ensures GotToAt(c, cfg, w, steps, b, id, n)
  {
    if b > a + 1 {
      SessionKeptBefore(c, cfg, w, steps, a, b, id);
      StaysThere(c, cfg, w, steps, a, b - 1, id, n);
      StepStaysThere(c, cfg, w, steps, b - 1, id, n);
    }
  }

  lemma StepStaysThere(c: Codec, cfg: Config, w: World, steps: seq<Step>, k: nat, id: string, n: nat)
    requires OrderlyWorld(w) && StepsValid(steps) && k < |steps|
    requires SessionKeptAt(c, cfg, w, steps, k, id) && GotToAt(c, cfg, w, steps, k, id, n)
    ensures GotToAt(c, cfg, w, steps, k + 1, id, n)
  {
    RunOrderly(c, cfg, w, steps, k);
    assert StepValid(steps[k]);
    StepKeepsOrder(c, cfg, At(c, cfg, w, steps, k), steps[k], id);
    StillThere(At(c, cfg, w, steps, k), Next(c, cfg, At(c, cfg, w, steps, k), steps[k]), id, n);
  }

  lemma StillThere(w: World, v: World, id: string, n: nat)
    requires id in w.data.sessions && GotTo(w, id, n) && ComesFrom(w, id, v.data) && ComesFrom(w, id, v.disk)
    ensures GotTo(v, id, n)
  {
  }

  /** Over every run, with crashes and restarts: while a session is kept, an item is freshly accepted only if its seq
      exceeds that of every item taken up before, those pushed out of the window included; but for a final that took
      the place of one with a smaller seq under a shared key. */
  lemma {:induction false} AcceptedSeqIsNew(c: Codec, cfg: Config, w: World, steps: seq<Step>, a: nat, b: nat,
                                            p: Item, q: Item)
    requires OrderlyWorld(w) && StepsValid(steps) && a < b < |steps|
    requires TakesUpAt(c, cfg, w, steps, a, p) && AcceptsAt(c, cfg, w, steps, b, q)
    requires p.session == q.session && SessionKept(c, cfg, w, steps, a, b, p.session)
    requires p.seqNo <= MarkedSeq(At(c, cfg, w, steps, a).data, p, steps[a].env)
    ensures p.seqNo < q.seqNo
  {
    var u, v := At(c, cfg, w, steps, a), At(c, cfg, w, steps, b);
    RunOrderly(c, cfg, w, steps, a);
    RunOrderly(c, cfg, w, steps, b);
    TakenUp(u.disk, u.data, p, steps[a].env);
    StaysThere(c, cfg, w, steps, a, b, p.session, p.seqNo);
    assert SessionKeptAt(c, cfg, w, steps, b, q.session);
    assert StepValid(steps[b]);
    AcceptExceedsHighest(v.data.sessions[q.session], q);
  }

  /** From the a-th to the b-th step the session is kept with this utterance. */
  ghost predicate UtteranceKept(c: Codec, cfg: Config, w: World, steps: seq<Step>, a: nat, b: nat, id: string,
                                utterance: string)
    requires b <= |steps|
  {
    forall k | a < k <= b :: UtteranceKeptAt(c, cfg, w, steps, k, id, utterance)
  }

  predicate UtteranceKeptAt(c: Codec, cfg: Config, w: World, steps: seq<Step>, k: nat, id: string, utterance: string)
    requires k <= |steps|
  {
    KeepsUtterance(At(c, cfg, w, steps, k).data, id, utterance)
  }

  /** The a-th step accepts this item, and saves it: acknowledged, or a final that is at least pending. */
  predicate AcceptsForGoodAt(c: Codec, cfg: Config, w: World, steps: seq<Step>, a: nat, item: Item)
    requires a < |steps|
  {
    && AcceptsAt(c, cfg, w, steps, a, item)
    && var status := Delivered(At(c, cfg, w, steps, a).data, item, steps[a].env).status;
       status.Acknowledged? || (item.isFinal && !status.TooManyPauses?)
  }

  predicate HoldsIn(w: World, id: string, u: Utterance) {
    Holds(w.data, id, u) && Holds(w.disk, id, u)
  }

  predicate HoldsAt(c: Codec, cfg: Config, w: World, steps: seq<Step>, k: nat, id: string, u: Utterance)
    requires k <= |steps|
  {
    HoldsIn(At(c, cfg, w, steps, k), id, u)
  }

  lemma {:induction false} UtteranceKeptBefore(c: Codec, cfg: Config, w: World, steps: seq<Step>, a: nat, b: nat,
                                               id: string, utterance: string)
    requires a + 1 < b <= |steps| && UtteranceKept(c, cfg, w, steps, a, b, id, utterance)
    ensures UtteranceKept(c, cfg, w, steps, a, b - 1, id, utterance)
    ensures UtteranceKeptAt(c, cfg, w, steps, b - 1, id, utterance)
  {
  }

  lemma {:induction false} HoldsOn(c: Codec, cfg: Config, w: World, steps: seq<Step>, a: nat, b: nat, id: string,
                                   u: Utterance)
    requires OrderlyWorld(w) && StepsValid(steps) && a < b <= |steps| && UtteranceKept(c, cfg, w, steps, a, b, id, u.id)
    requires HoldsAt(c, cfg, w, steps, a + 1, id, u)
    ensures HoldsAt(c, cfg, w, steps, b, id, u)
  {
    if b > a + 1 {
      UtteranceKeptBefore(c, cfg, w, steps, a, b, id, u.id);
      HoldsOn(c, cfg, w, steps, a, b - 1, id, u);
      StepHoldsAt(c, cfg, w, steps, b - 1, id, u);
    }
  }

  lemma StepHoldsAt(c: Codec, cfg: Config, w: World, steps: seq<Step>, k: nat, id: string, u: Utterance)
    requires OrderlyWorld(w) && StepsValid(steps) && k < |steps|
    requires UtteranceKeptAt(c, cfg, w, steps, k, id, u.id) && HoldsAt(c, cfg, w, steps, k, id, u)
    ensures HoldsAt(c, cfg, w, steps, k + 1, id, u)
  {
    RunOrderly(c, cfg, w, steps, k);
    assert StepValid(steps[k]);
    StepHolds(c, cfg, At(c, cfg, w, steps, k), steps[k], id, u);
  }

  lemma StepHolds(c: Codec, cfg: Config, w: World, step: Step, id: string, u: Utterance)
    requires OrderlyWorld(w) && StepValid(step)
    requires KeepsUtterance(w.data, id, u.id) && HoldsIn(w, id, u)
    ensures HoldsIn(Next(c, cfg, w, step), id, u)
  {
    StepKeepsOrder(c, cfg, w, step, id);
    StillHolds(w, id, u, Next(c, cfg, w, step).data);
    StillHolds(w, id, u, Next(c, cfg, w, step).disk);
  }

  lemma StillHolds(w: World, id: string, u: Utterance, d: Data)
    requires KeepsUtterance(w.data, id, u.id) && Holds(w.data, id, u) && Holds(w.disk, id, u) && ComesFrom(w, id, d)
    ensures Holds(d, id, u)
  {
    if KeepsUtterance(d, id, u.id) {
      if Advances(w.data.sessions[id], d.sessions[id]) {
        var v := Find(w.data.sessions[id].utterances, u.id).value;
        assert SameOrLater(v, Find(d.sessions[id].utterances, u.id).value);
      } else {
        assert Find(d.sessions[id].utterances, u.id) == Find(w.disk.sessions[id].utterances, u.id);
      }
    }
  }

  /** Over every run: while an utterance is kept, what it shows is an accepted item itself, with its merged silences,
      or a later revision; and a final is never replaced. */
  lemma KeptAdvances(c: Codec, cfg: Config, w: World, steps: seq<Step>, a: nat, b: nat, item: Item)
    returns (u: Utterance)
    requires OrderlyWorld(w) && StepsValid(steps) && a < b <= |steps| && AcceptsForGoodAt(c, cfg, w, steps, a, item)
    requires UtteranceKept(c, cfg, w, steps, a, b, item.session, item.utterance)
    ensures u == SaidAs(item.(pauses := u.pauses))
    ensures Holds(At(c, cfg, w, steps, b).data, item.session, u)
  {
    var v, env := At(c, cfg, w, steps, a), steps[a].env;
    var known := WithSession(v.data, item.session, env.now);
    RunOrderly(c, cfg, w, steps, a);
    assert StepValid(steps[a]);
    Said(v.data, item, env);
    AcceptedSaved(v.disk, known, item, env);
    u := SaidAs(Merged(known, item, env).value);
    FindIsNamed(At(c, cfg, w, steps, a + 1).data, item.session, item.utterance);
    HoldsOn(c, cfg, w, steps, a, b, item.session, u);
  }

  lemma {:induction false} FindIsNamed(d: Data, id: string, utterance: string)
    ensures KeepsUtterance(d, id, utterance) ==> Find(d.sessions[id].utterances, utterance).value.id == utterance
  {
    if KeepsUtterance(d, id, utterance) {
      FindIn(d.sessions[id].utterances, utterance);
    }
  }

  /** Over every run: while an utterance is kept, accepted revisions strictly increase and nothing is accepted after a
      final; shared keys do not matter here. */
  lemma AcceptedRevisionsIncrease(c: Codec, cfg: Config, w: World, steps: seq<Step>, a: nat, b: nat, p: Item, q: Item)
    requires OrderlyWorld(w) && StepsValid(steps) && a < b < |steps|
    requires AcceptsForGoodAt(c, cfg, w, steps, a, p) && AcceptsAt(c, cfg, w, steps, b, q)
    requires p.session == q.session && p.utterance == q.utterance
    requires UtteranceKept(c, cfg, w, steps, a, b, p.session, p.utterance)
    ensures !p.isFinal && p.revision < q.revision
  {
    var u := KeptAdvances(c, cfg, w, steps, a, b, p);
    assert UtteranceKeptAt(c, cfg, w, steps, b, p.session, p.utterance);
  }

  // ---------------------------------------------------------------- when the order breaks

  /** An id that none of the utterances has. */
  function NewId(us: seq<Utterance>): string {
    if us == [] then "x" else us[0].id + NewId(us[1..])
  }

  lemma {:induction false} NewIdIsLonger(us: seq<Utterance>)
    ensures |NewId(us)| >= 1 && forall u | u in us :: |u.id| < |NewId(us)|
  {
    if us != [] {
      NewIdIsLonger(us[1..]);
      forall u | u in us
        ensures |u.id| < |NewId(us)|
      {
        assert u == us[0] || u in us[1..];
      }
    }
  }

  /** The session would freshly accept this partial. */
  predicate Fresh(session: Session, item: Item) {
    1 <= item.seqNo && !item.isFinal && Judge(session, item, None, false) == Accept
  }

  /** After an accepted delivery everything accepted next is later, exactly when the delivered item does not take the
      place of one with a smaller seq. */
  lemma OrderHoldsIff(d: Data, item: Item, env: Env)
    requires Orderly(d) && 1 <= item.seqNo && VerdictOn(d, item, env) == Accept
    requires Delivered(d, item, env).status.Acknowledged?
    requires item.session in Delivered(d, item, env).data.sessions
    ensures var session := Delivered(d, item, env).data.sessions[item.session];
            (forall next | Fresh(session, next) :: item.seqNo < next.seqNo) <==> item.seqNo <= HeldItem(d, item).seqNo
  {
    ReactStages(d, Deliver(item), env, item.session);
    TakenUp(d, d, item, env);
    WithSessionStage(d, item.session, item.session, env.now);
    AcceptExceedsHighest(Before(d, item.session, env.now), item);
    FreshIff(Delivered(d, item, env).data.sessions[item.session], item.seqNo);
  }

  lemma FreshIff(session: Session, n: nat)
    requires SessionOk(session) && 1 <= n
    ensures (forall next | Fresh(session, next) :: n < next.seqNo) <==> n <= session.highest
  {
    if n <= session.highest {
      forall next | Fresh(session, next)
        ensures n < next.seqNo
      {
        AcceptExceedsHighest(session, next);
      }
    } else {
      var next := Item("", NewId(session.utterances), n, 0, "next", false, []);
      NewIdIsLonger(session.utterances);
      FindIn(session.utterances, next.utterance);
      assert Fresh(session, next);
    }
  }

  /** It never does within one session. */
  lemma OwnSessionKeepsPlace(d: Data, item: Item)
    requires Orderly(d) && HeldItem(d, item).session == item.session
    ensures HeldItem(d, item).seqNo == item.seqNo
  {
    if item.isFinal && FinalKey(item) in d.finals {
      KeyIdentifies(HeldItem(d, item), item);
    }
  }

  /** Nor between sessions neither of whose ids continues the other. */
  lemma UnrelatedKeepPlace(space: char -> bool, d: Data, item: Item)
    requires Orderly(d) && Validated(space, item) && Validated(space, HeldItem(d, item))
    requires var other := HeldItem(d, item).session;
             !Continues(space, item.session, other) && !Continues(space, other, item.session)
    ensures HeldItem(d, item).session == item.session && HeldItem(d, item).seqNo == item.seqNo
  {
    var held := HeldItem(d, item);
    if held.session != item.session {
      if |held.session| <= |item.session| {
        SharedContinues(space, held, item);
      } else {
        SharedContinues(space, item, held);
      }
    } else {
      OwnSessionKeepsPlace(d, item);
    }
  }

  /** What an accepted or retried final publishes and leaves recorded is the item held under its key: its own text is
      recorded only if that is the text held. */
  lemma RecordsHeldText(d: Data, item: Item, env: Env)
    requires Orderly(d) && item.isFinal && 1 <= item.seqNo
    requires VerdictOn(d, item, env) == Accept || VerdictOn(d, item, env) == Retry
    ensures var r := Delivered(d, item, env);
            && (forall p | Publishes(p) in r.effects :: p.event.body == HeldItem(d, item).text)
            && (r.status.Acknowledged? ==> exists p :: Publishes(p) in r.effects)
            && (FinalKey(item) in r.data.finals ==> r.data.finals[FinalKey(item)].item.text == HeldItem(d, item).text)
  {
    var known, key := WithSession(d, item.session, env.now), FinalKey(item);
    if VerdictOn(d, item, env) == Retry {
      CompleteText(known, key, item.session, env, env.first, Retry);
    } else if Merged(known, item, env).Some? {
      var merged := Merged(known, item, env).value;
      var heard := Heard(known, item, merged);
      if key in heard.finals {
        CompleteText(heard, key, item.session, env, env.second, Accept);
      } else {
        var seen := PendingSaved(heard, item, merged, env);
        CompleteText(seen, key, item.session, env, env.second, Accept);
        var rest := Complete(seen, key, item.session, env, env.second, Accept);
        assert Accepted(known, item, env).effects == [Saves(seen)] + rest.effects;
      }
    }
  }

  lemma CompleteText(d: Data, key: string, sessionId: string, env: Env, keep: Keep, verdict: Verdict)
    requires key in d.finals
    ensures var r, text := Complete(d, key, sessionId, env, keep, verdict), d.finals[key].item.text;
            && (forall p | Publishes(p) in r.effects :: p.event.body == text)
            && (r.status.Acknowledged? ==> exists p :: Publishes(p) in r.effects)
            && (key in r.data.finals ==> r.data.finals[key].item.text == text)
  {
    var item, r := d.finals[key].item, Complete(d, key, sessionId, env, keep, verdict);
    forall p | p in Plan(item, env.attempt)
      ensures p.event.body == item.text
    {
    }
    if r.status.Acknowledged? {
      assert r.effects[0] == Publishes(Plan(item, env.attempt)[0]);
    }
  }

  /** A final accepted under a key that is taken: it is acknowledged when the item held there is published. */
  lemma TakenKeyAcknowledged(d: Data, item: Item, env: Env)
    requires VerdictOn(d, item, env) == Accept && item.isFinal && FinalKey(item) in d.finals
    requires item.pauses == [] && item.session !in d.sessions && Succeeds(d.finals[FinalKey(item)].item, env.attempt)
    ensures Delivered(d, item, env).status.Acknowledged?
    ensures var r, known := Delivered(d, item, env), WithSession(d, item.session, env.now);
            && Merged(known, item, env).Some?
            && (item.session in env.second.sessions ==>
                  && item.session in r.data.sessions
                  && r.data.sessions[item.session]
                     == Trimmed(Marked(Spoken(NewSession(env.now), SaidAs(Merged(known, item, env).value)),
                                       d.finals[FinalKey(item)].item.seqNo, env.now)))
  {
    var known := WithSession(d, item.session, env.now);
    assert Merged(known, item, env).Some?;
    var heard := Heard(known, item, Merged(known, item, env).value);
    assert Delivered(d, item, env) == Complete(heard, FinalKey(item), item.session, env, env.second, Accept);
  }

  const FIRST: Item := Item("a", "7:u", 5, 1, "one", true, [])
  const SECOND: Item := Item("a:5", "u", 7, 1, "two", true, [])
  const THIRD: Item := Item("a:5", "v", 6, 1, "three", false, [])

  /** The final of session "a" has been completed, and session "a:5" is new. */
  function Colliding(now: int): Data {
    Data(map[], map["a:5:7:u:1" := Final(FIRST, true, 0, now)])
  }

  /** A delivery for which all this goes wrong: session "a:5" delivers its seq 7 under the key of a final of session
      "a"; it is acknowledged, seq 5 is marked instead, its text is recorded nowhere, and seq 6 is accepted next. */
  lemma SharedKeyBreaksOrder(env: Env)
    requires env.suppression == None && Succeeds(FIRST, env.attempt) && SECOND.session in env.second.sessions
    ensures var d := Colliding(env.now);
            var r := Delivered(d, SECOND, env);
            && Orderly(d)
            && VerdictOn(d, SECOND, env) == Accept && r.status.Acknowledged? && SECOND.session in r.data.sessions
            && r.data.sessions[SECOND.session].highest == FIRST.seqNo
            && (forall p | Publishes(p) in r.effects :: p.event.body == FIRST.text)
            && Judge(r.data.sessions[SECOND.session], THIRD, None, false) == Accept
  {
    var d := Colliding(env.now);
    var r := Delivered(d, SECOND, env);
    SharedKeyInput();
    TakenKeyAcknowledged(d, SECOND, env);
    RecordsHeldText(d, SECOND, env);
    assert Find(r.data.sessions[SECOND.session].utterances, THIRD.utterance) == None by {
      FindIn(r.data.sessions[SECOND.session].utterances, THIRD.utterance);
    }
    assert r.data.sessions[SECOND.session].processed == [5];
  }

  // ---------------------------------------------------------------- what an acknowledgement means

  lemma SameKeySettled(hs: Histories, p: Item, q: Item)
    requires FinalKey(p) == FinalKey(q) && p.isFinal == q.isFinal && Settled(hs, p)
    ensures Settled(hs, q)
  {
    assert ResultKey(p) == ResultKey(q);
    assert StageKey(p, "resolved") == StageKey(q, "resolved") && StageKey(p, "heard") == StageKey(q, "heard");
    if reason :| Ever(hs, Audit, SuppressedKey(p, reason)) {
      assert SuppressedKey(p, reason) == SuppressedKey(q, reason);
    }
  }

  lemma {:induction false} PublishedSettles(c: Codec, cfg: Config, logs: Logs, hs: Histories, item: Item,
                                            attempt: Attempt, saved: Data)
    requires Sound(c) && LogsOk(c, logs, hs) && Succeeds(item, attempt)
    ensures Settled(HistoriesAfter(c, cfg, logs, hs, PublishEffects(Done(item, attempt)) + [Saves(saved)]), item)
  {
    PublishFirst(c, cfg, logs, hs, map[], Done(item, attempt), [Saves(saved)]);
    SuccessSettles(c, cfg, logs, hs, item, attempt);
    assert [Saves(saved)][1..] == [];
  }

  lemma {:induction false} CompleteSettles(c: Codec, cfg: Config, logs: Logs, hs: Histories, d: Data, key: string,
                                           sessionId: string, env: Env, keep: Keep, verdict: Verdict)
    requires Sound(c) && LogsOk(c, logs, hs) && key in d.finals
    ensures var r := Complete(d, key, sessionId, env, keep, verdict);
            r.status.Acknowledged? ==> Settled(HistoriesAfter(c, cfg, logs, hs, r.effects), d.finals[key].item)
  {
    if Succeeds(d.finals[key].item, env.attempt) {
      PublishedSettles(c, cfg, logs, hs, d.finals[key].item, env.attempt,
                       Complete(d, key, sessionId, env, keep, verdict).data);
    }
  }

  lemma {:induction false} AcceptedSettles(c: Codec, cfg: Config, logs: Logs, hs: Histories, d: Data, item: Item,
                                           env: Env)
    requires Sound(c) && LogsOk(c, logs, hs) && Orderly(d) && item.session in d.sessions
    requires Accepted(d, item, env).status.Acknowledged?
    ensures Settled(HistoriesAfter(c, cfg, logs, hs, Accepted(d, item, env).effects), item)
  {
    var merged, key := Merged(d, item, env).value, FinalKey(item);
    var heard := Heard(d, item, merged);
    if !item.isFinal {
      PublishedSettles(c, cfg, logs, hs, merged, env.attempt, Accepted(d, item, env).data);
      SameKeySettled(HistoriesAfter(c, cfg, logs, hs, Accepted(d, item, env).effects), merged, item);
    } else if key in heard.finals {
      CompleteSettles(c, cfg, logs, hs, heard, key, item.session, env, env.second, Accept);
      SameKeySettled(HistoriesAfter(c, cfg, logs, hs, Accepted(d, item, env).effects), d.finals[key].item, item);
    } else {
      var seen := PendingSaved(heard, item, merged, env);
      var rest := Complete(seen, key, item.session, env, env.second, Accept);
      CompleteSettles(c, cfg, logs, hs, seen, key, item.session, env, env.second, Accept);
      assert ([Saves(seen)] + rest.effects)[1..] == rest.effects;
      SameKeySettled(HistoriesAfter(c, cfg, logs, hs, Accepted(d, item, env).effects), merged, item);
    }
  }

  /** When a delivered item is acknowledged as accepted or retried, the log holds every record of its key. */
  lemma {:induction false} AcknowledgedSettles(c: Codec, cfg: Config, logs: Logs, hs: Histories, d: Data, item: Item,
                                               env: Env)
    requires Sound(c) && LogsOk(c, logs, hs) && Orderly(d)
    requires VerdictOn(d, item, env) == Accept || VerdictOn(d, item, env) == Retry
    requires Delivered(d, item, env).status.Acknowledged?
    ensures Settled(HistoriesAfter(c, cfg, logs, hs, Delivered(d, item, env).effects), item)
  {
    var known, key := WithSession(d, item.session, env.now), FinalKey(item);
    WithSessionStage(d, item.session, item.session, env.now);
    if VerdictOn(d, item, env) == Retry {
      CompleteSettles(c, cfg, logs, hs, known, key, item.session, env, env.first, Retry);
      SameKeySettled(HistoriesAfter(c, cfg, logs, hs, Delivered(d, item, env).effects), d.finals[key].item, item);
    } else {
      AcceptedSettles(c, cfg, logs, hs, known, item, env);
    }
  }

  /** So the browser may stop retrying: from an acknowledgement on, over every later run, the item is in the log or
      policy has suppressed it. */
  lemma AcknowledgedForGood(c: Codec, cfg: Config, w: World, hs: Histories, item: Item, env: Env, steps: seq<Step>)
    returns (later: Histories)
    requires Sound(c) && WorldOk(c, w, hs) && Orderly(w.data)
    requires VerdictOn(w.data, item, env) == Accept || VerdictOn(w.data, item, env) == Retry
    requires Delivered(w.data, item, env).status.Acknowledged?
    requires RunAllowed(c, cfg, Next(c, cfg, w, Does(Deliver(item), env)), steps)
    ensures WorldOk(c, Run(c, cfg, Next(c, cfg, w, Does(Deliver(item), env)), steps), later)
    ensures Extends(hs, later) && Settled(later, item)
  {
    var step := Does(Deliver(item), env);
    DoesSafe(c, cfg, w, hs, Deliver(item), env);
    AcknowledgedSettles(c, cfg, w.logs, hs, w.data, item, env);
    var mid := NextHistories(c, cfg, w, hs, step);
    later := ExactlyOnce(c, cfg, Next(c, cfg, w, step), mid, steps);
    ExtendsKeepsSettled(mid, later, item);
    ExtendsTrans(hs, mid, later);
  }

  // ---------------------------------------------------------------- what a delivery that failed leaves to a retry

  /** A partial that could not be published is kept in memory as said, and nothing of it is in the log. */
  lemma UnpublishedPartial(d: Data, item: Item, env: Env)
    requires VerdictOn(d, item, env) == Accept && !item.isFinal && Delivered(d, item, env).status == Unpublished
    ensures var r, known := Delivered(d, item, env), WithSession(d, item.session, env.now);
            && r.effects == []
            && exists merged :: Merged(known, item, env) == Some(merged) && r.data == Heard(known, item, merged)
  {
    var known := WithSession(d, item.session, env.now);
    var merged := Merged(known, item, env).value;
    assert Done(merged, env.attempt) == [];
    assert Delivered(d, item, env).data == Heard(known, item, merged);
  }

  /** A new final that could not be published is pending. */
  lemma UnpublishedFinal(d: Data, item: Item, env: Env)
    requires VerdictOn(d, item, env) == Accept && item.isFinal && FinalKey(item) !in d.finals
    requires Delivered(d, item, env).status == Unpublished
    ensures var after, key := Delivered(d, item, env).data, FinalKey(item);
            key in after.finals && !after.finals[key].completed
  {
    var known := WithSession(d, item.session, env.now);
    var heard := Heard(known, item, Merged(known, item, env).value);
    assert Delivered(d, item, env) == FinalDone(heard, item, Merged(known, item, env).value, env);
  }

  /** A final under a taken key leaves that key completed, or dropped. */
  lemma UnpublishedTaken(d: Data, item: Item, env: Env)
    requires VerdictOn(d, item, env) == Accept && item.isFinal && FinalKey(item) in d.finals
    requires Delivered(d, item, env).status == Unpublished
    ensures var after, key := Delivered(d, item, env).data, FinalKey(item);
            key in after.finals ==> after.finals[key].completed
  {
    var known := WithSession(d, item.session, env.now);
    var heard := Heard(known, item, Merged(known, item, env).value);
    assert Delivered(d, item, env) == Complete(heard, FinalKey(item), item.session, env, env.second, Accept);
  }

  /** Nothing is marked by a delivery that could not be published. */
  lemma UnpublishedMarksNothing(d: Data, item: Item, env: Env)
    requires VerdictOn(d, item, env) == Accept && Delivered(d, item, env).status == Unpublished
    ensures var after := Delivered(d, item, env).data;
            item.session in after.sessions ==>
              var session := after.sessions[item.session];
              item.seqNo !in session.processed && session.highest <= item.seqNo
  {
    var known := WithSession(d, item.session, env.now);
    var heard := Heard(known, item, Merged(known, item, env).value);
    assert item.seqNo !in heard.sessions[item.session].processed;
  }

  /** What a retry of an accepted item is told when it could not be published: a partial is refused as no longer new; a
      new final is retried; and a final under a taken key is refused as long as its utterance is kept. */
  lemma UnpublishedRetry(d: Data, item: Item, env: Env, again: Env)
    requires Orderly(d) && 1 <= item.seqNo && VerdictOn(d, item, env) == Accept
    requires Delivered(d, item, env).status == Unpublished && again.suppression == None
    ensures var after := Delivered(d, item, env).data;
            VerdictOn(after, item, again)
            == if !item.isFinal then StaleRevision
               else if FinalKey(item) !in d.finals then Retry
               else if KeepsUtterance(after, item.session, item.utterance) then FinalImmutable
               else Accept
  {
    UnpublishedMarksNothing(d, item, env);
    if !item.isFinal {
      var known := WithSession(d, item.session, env.now);
      var merged := Merged(known, item, env).value;
      UnpublishedPartial(d, item, env);
      FindPut(known.sessions[item.session].utterances, SaidAs(merged), item.utterance);
    } else if FinalKey(item) !in d.finals {
      UnpublishedFinal(d, item, env);
    } else {
      UnpublishedTaken(d, item, env);
      Said(d, item, env);
    }
  }

  /** So a retry does what the failed delivery was to do exactly when the item is a final, and its key was free or its
      utterance is no longer kept; otherwise it is acknowledged and does nothing. */
  lemma RetryTakesUpIff(d: Data, item: Item, env: Env, again: Env)
    requires Orderly(d) && 1 <= item.seqNo && VerdictOn(d, item, env) == Accept
    requires Delivered(d, item, env).status == Unpublished && again.suppression == None
    ensures var after := Delivered(d, item, env).data;
            && (TakesUp(VerdictOn(after, item, again))
                <==> item.isFinal
                     && (FinalKey(item) !in d.finals || !KeepsUtterance(after, item.session, item.utterance)))
            && (!TakesUp(VerdictOn(after, item, again)) ==>
                  Delivered(after, item, again)
                  == Reaction(after, [], Acknowledged(VerdictOn(after, item, again), None)))
  {
    UnpublishedRetry(d, item, env, again);
  }

  /** A partial that is acknowledged though it was never published. */
  lemma PartialNeverPublished(env: Env, again: Env)
    requires env.suppression == None && env.attempt.succeeding == 0 && again.suppression == None
    ensures var d := Data(map[], map[]);
            var first := Delivered(d, THIRD, env);
            var second := Delivered(first.data, THIRD, again);
            && first.status == Unpublished && second.status == Acknowledged(StaleRevision, None)
            && first.effects == [] && second.effects == []
  {
    var d := Data(map[], map[]);
    assert Merged(WithSession(d, THIRD.session, env.now), THIRD, env).Some?;
    UnpublishedPartial(d, THIRD, env);
    RetryTakesUpIff(d, THIRD, env, again);
    UnpublishedRetry(d, THIRD, env, again);
  }
}
