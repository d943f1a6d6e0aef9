// What is taken up of the captions that are delivered (src/ws_collab/captioner.py, `BrowserCaptioner.ingest`): which
// items are accepted, what is then published and kept, and that every later revision of an utterance is.
module CaptionUptake {
  import opened Sequences
  import opened EventLog
  import opened Publication
  import opened SpeechPauses
  import opened Captions
  import opened CaptionRuns
  import opened CaptionOrder

  // ---------------------------------------------------------------- which items are accepted

  /** The item is later than everything said of its utterance, which has not been finished. */
  predicate NewerRevision(us: seq<Utterance>, item: Item) {
    forall u | u in us && u.id == item.utterance :: !u.final && u.revision < item.revision
  }

  /** A final held under the item's key that has not been published yet. */
  predicate IsPending(d: Data, item: Item) {
    item.isFinal && FinalKey(item) in d.finals && !d.finals[FinalKey(item)].completed
  }

  lemma {:induction false} NewerRevisionIff(us: seq<Utterance>, item: Item)
    requires IdsDistinct(us)
    ensures NewerRevision(us, item)
       <==> (Find(us, item.utterance) == None
             || var u := Find(us, item.utterance).value; !u.final && u.revision < item.revision)
  {
    FindIn(us, item.utterance);
    if Find(us, item.utterance).Some? {
      var v := Find(us, item.utterance).value;
      var i :| 0 <= i < |us| && us[i] == v;
      assert forall j | 0 <= j < |us| && us[j].id == v.id :: j == i;
    }
  }

  /** An item of a session is accepted exactly when policy lets it through, it is not the retry of a pending final, its
      seq exceeds every seq of the session, and it is a newer revision. */
  lemma AcceptsIff(d: Data, item: Item, env: Env)
    requires Orderly(d) && item.session in d.sessions && 1 <= item.seqNo
    ensures VerdictOn(d, item, env) == Accept
       <==> && env.suppression == None && !IsPending(d, item)
            && item.seqNo > d.sessions[item.session].highest
            && NewerRevision(d.sessions[item.session].utterances, item)
  {
    var session := d.sessions[item.session];
    NewerRevisionIff(session.utterances, item);
    BeyondHighest(session, item.seqNo);
  }

  /** A seq beyond the highest is in no window. */
  lemma BeyondHighest(session: Session, seqNo: nat)
    requires SessionOk(session) && 1 <= seqNo
    ensures seqNo > session.highest ==> seqNo !in session.processed
    ensures seqNo == session.highest ==> seqNo in session.processed
  {
    var n := |session.processed|;
    assert n > 0 ==> session.processed[n - 1] in session.processed;
  }

  /** The first item of a session is accepted, unless policy suppresses it or it is a pending final. */
  lemma FirstAccepted(d: Data, item: Item, env: Env)
    requires item.session !in d.sessions
    ensures VerdictOn(d, item, env) == Accept <==> env.suppression == None && !IsPending(d, item)
  {
  }

  // ---------------------------------------------------------------- what is published and kept

  /** How many silences the merged item has: those sent, and those from before that are not sent again. */
  function SilencesKept(us: seq<Utterance>, item: Item): nat {
    match Find(us, item.utterance)
    case None => |item.pauses|
    case Some(u) => |Dropped(u.pauses, item.pauses)| + |item.pauses|
  }

  /** Its key is free, and there is room for its silences. */
  predicate Fits(d: Data, item: Item) {
    && (item.isFinal ==> FinalKey(item) !in d.finals)
    && SilencesKept(if item.session in d.sessions then d.sessions[item.session].utterances else [], item) <= MAX_PAUSES
  }

  /** How many appends publishing takes. */
  function Appends(item: Item, attempt: Attempt): nat {
    if attempt.suppress.Some? || !item.isFinal then 1
    else if !attempt.echo then 3
    else if attempt.expected then 6
    else 5
  }

  lemma AppendsIs(item: Item, attempt: Attempt)
    ensures |Plan(item, attempt)| == Appends(item, attempt)
  {
  }

  /** The text has been published as a result, or its suppression has been recorded. */
  ghost predicate Recorded(effects: seq<Effect>, item: Item, attempt: Attempt) {
    exists p ::
      && Publishes(p) in effects && p.event.body == item.text
      && (if attempt.suppress.Some? then p.stream == Audit && p.event.key == SuppressedKey(item, attempt.suppress.value)
          else p.stream == Transcripts && p.event.key == ResultKey(item))
  }

  /** If the session is kept, the seq is its highest; and if the utterance is, it shows this item. */
  predicate Shows(d: Data, item: Item) {
    item.session in d.sessions ==>
      var session := d.sessions[item.session];
      && session.highest == item.seqNo
      && (forall u | u in session.utterances && u.id == item.utterance ::
            u.text == item.text && u.revision == item.revision && u.final == item.isFinal)
  }

  lemma PublishedIsRecorded(item: Item, merged: Item, attempt: Attempt, before: seq<Effect>, after: seq<Effect>)
    requires merged == item.(pauses := merged.pauses) && Succeeds(merged, attempt)
    ensures Recorded(before + PublishEffects(Done(merged, attempt)) + after, item, attempt)
  {
    var p, effects := Plan(merged, attempt)[0], before + PublishEffects(Done(merged, attempt)) + after;
    assert effects[|before|] == Publishes(p);
  }

  /** The save on its own. */
  lemma AcceptedRecorded(d: Data, item: Item, env: Env, merged: Item)
    requires item.session in d.sessions && Merged(d, item, env) == Some(merged) && Succeeds(merged, env.attempt)
    requires item.isFinal ==> FinalKey(item) !in d.finals
    ensures var r := Accepted(d, item, env);
            r.status == Acknowledged(Accept, env.attempt.suppress) && Recorded(r.effects, item, env.attempt)
  {
    var heard, r := Heard(d, item, merged), Accepted(d, item, env);
    if item.isFinal {
      var saved := PendingSaved(heard, item, merged, env);
      PublishedIsRecorded(item, merged, env.attempt, [Saves(saved)], [Saves(r.data)]);
      assert r.effects == [Saves(saved)] + PublishEffects(Done(merged, env.attempt)) + [Saves(r.data)];
    } else {
      PublishedIsRecorded(item, merged, env.attempt, [], [Saves(r.data)]);
      assert r.effects == [] + PublishEffects(Done(merged, env.attempt)) + [Saves(r.data)];
    }
  }

  /** Saving only trims the utterances. */
  lemma AcceptedUtterances(d: Data, item: Item, env: Env, merged: Item)
    requires item.session in d.sessions && Merged(d, item, env) == Some(merged) && Succeeds(merged, env.attempt)
    requires item.isFinal ==> FinalKey(item) !in d.finals
    ensures var r := Accepted(d, item, env);
            item.session in r.data.sessions ==>
              r.data.sessions[item.session].utterances
              == LastN(Put(d.sessions[item.session].utterances, SaidAs(merged)), MAX_UTTERANCES)
  {
    var heard := Heard(d, item, merged);
    if item.isFinal {
      var saved := PendingSaved(heard, item, merged, env);
      assert Accepted(d, item, env).data == Complete(saved, FinalKey(item), item.session, env, env.second, Accept).data;
    }
  }

  lemma InLast(xs: seq<Utterance>, n: nat, x: Utterance)
    requires x in LastN(xs, n)
    ensures x in xs
  {
    var k :| 0 <= k < |LastN(xs, n)| && LastN(xs, n)[k] == x;
    assert xs[|xs| - |LastN(xs, n)| + k] == x;
  }

  lemma SameIdSame(us: seq<Utterance>, u: Utterance, v: Utterance)
    requires IdsDistinct(us) && u in us && v in us && u.id == v.id
    ensures u == v
  {
  }

  /** What is kept of the utterances shows what was said last. */
  lemma {:induction false} SaidIsShown(us: seq<Utterance>, u: Utterance, n: nat, v: Utterance)
    requires IdsDistinct(us) && v in LastN(Put(us, u), n) && v.id == u.id
    ensures v == u
  {
    PutDistinct(us, u);
    FindPut(us, u, u.id);
    FindIn(Put(us, u), u.id);
    InLast(Put(us, u), n, v);
    SameIdSame(Put(us, u), u, v);
  }

  lemma AcceptedShows(d: Data, item: Item, env: Env, merged: Item)
    requires Orderly(d) && item.session in d.sessions && Merged(d, item, env) == Some(merged)
    requires Succeeds(merged, env.attempt) && item.seqNo >= d.sessions[item.session].highest
    requires item.isFinal ==> FinalKey(item) !in d.finals
    ensures Shows(Accepted(d, item, env).data, item)
  {
    var r := Accepted(d, item, env);
    AcceptedMarks(d, item, env);
    AcceptedUtterances(d, item, env, merged);
    AcceptedRecorded(d, item, env, merged);
    if item.session in r.data.sessions {
      forall u | u in r.data.sessions[item.session].utterances && u.id == item.utterance
        ensures u == SaidAs(merged)
      {
        SaidIsShown(d.sessions[item.session].utterances, SaidAs(merged), MAX_UTTERANCES, u);
      }
    }
  }

  lemma MergedIfFits(d: Data, item: Item, env: Env)
    requires item.session in d.sessions
    ensures var merged := Merged(d, item, env);
            && (merged.Some? <==> SilencesKept(d.sessions[item.session].utterances, item) <= MAX_PAUSES)
            && (merged.Some? ==> merged.value == item.(pauses := merged.value.pauses))
  {
    var none: seq<Pause> := [];
    assert Dropped(none, item.pauses) == [];
  }

  /** What a delivery needs to be taken up: policy lets it through, it is no retry, and it is later than all that was
      said in its session and of its utterance. */
  predicate IsNew(d: Data, item: Item, env: Env) {
    && 1 <= item.seqNo && env.suppression == None && !IsPending(d, item)
    && (item.session in d.sessions ==>
          && item.seqNo > d.sessions[item.session].highest
          && NewerRevision(d.sessions[item.session].utterances, item))
  }

  /** A new item that fits and can be published is acknowledged as accepted, recorded, and shown while its utterance is
      kept: a later revision of an utterance as well as its first. */
  lemma {:induction false} NewIsTakenUp(d: Data, item: Item, env: Env)
    requires Orderly(d) && IsNew(d, item, env) && Fits(d, item) && env.attempt.succeeding >= Appends(item, env.attempt)
    ensures var r := Delivered(d, item, env);
            && r.status == Acknowledged(Accept, env.attempt.suppress)
            && Recorded(r.effects, item, env.attempt) && Shows(r.data, item)
  {
    if item.session in d.sessions {
      AcceptsIff(d, item, env);
    } else {
      FirstAccepted(d, item, env);
    }
    var known := WithSession(d, item.session, env.now);
    WithSessionStage(d, item.session, item.session, env.now);
    MergedIfFits(known, item, env);
    var merged := Merged(known, item, env).value;
    AppendsIs(merged, env.attempt);
    AcceptedRecorded(known, item, env, merged);
    AcceptedShows(known, item, env, merged);
  }

  /** The silences an item gets: its own, and those carried over from what was said of its utterance before. */
  ghost predicate HasSilences(d: Data, item: Item, unicode: Unicode, pauses: seq<Pause>) {
    if item.session in d.sessions && exists u :: u in d.sessions[item.session].utterances && u.id == item.utterance then
      exists u :: u in d.sessions[item.session].utterances && u.id == item.utterance
                  && Preserved(unicode, u.pauses, u.text, item) == Some(pauses)
    else pauses == item.pauses
  }

  lemma {:induction false} NothingBefore(unicode: Unicode, item: Item)
    requires |item.pauses| <= MAX_PAUSES
    ensures Preserved(unicode, [], "", item) == Some(item.pauses)
  {
    var none: seq<Pause> := [];
    assert Dropped(none, item.pauses) == [];
    assert Preserved(unicode, none, "", item).value == item.pauses;
  }

  lemma MergedHasSilences(d: Data, item: Item, env: Env, known: Data)
    requires known == WithSession(d, item.session, env.now) && Merged(known, item, env).Some?
    ensures HasSilences(d, item, env.unicode, Merged(known, item, env).value.pauses)
  {
    var us := known.sessions[item.session].utterances;
    FindIn(us, item.utterance);
    if Find(us, item.utterance) == None {
      NothingBefore(env.unicode, item);
    }
  }

  /** The silences of an accepted item are kept with its utterance; and those of a new final with the finalization too,
      from when it is saved as pending. */
  lemma {:induction false} SilencesAreKept(d: Data, item: Item, env: Env) returns (pauses: seq<Pause>)
    requires Orderly(d) && IsNew(d, item, env) && Fits(d, item)
    ensures HasSilences(d, item, env.unicode, pauses)
    ensures var r := Delivered(d, item, env);
            && (env.attempt.succeeding >= Appends(item, env.attempt) && item.session in r.data.sessions ==>
                  forall u | u in r.data.sessions[item.session].utterances && u.id == item.utterance :: u.pauses == pauses)
            && (item.isFinal && FinalKey(item) in r.data.finals ==>
                  r.data.finals[FinalKey(item)].item == item.(pauses := pauses))
            && (item.isFinal ==>
                  && r.effects != []
                  && exists saved :: Saves(saved) == r.effects[0] && FinalKey(item) in saved.finals
                                     && saved.finals[FinalKey(item)] == Final(item.(pauses := pauses), false, 0, env.now))
  {
    if item.session in d.sessions {
      AcceptsIff(d, item, env);
    } else {
      FirstAccepted(d, item, env);
    }
    var known := WithSession(d, item.session, env.now);
    WithSessionStage(d, item.session, item.session, env.now);
    MergedIfFits(known, item, env);
    MergedHasSilences(d, item, env, known);
    var merged := Merged(known, item, env).value;
    pauses := merged.pauses;
    AppendsIs(merged, env.attempt);
    if env.attempt.succeeding >= Appends(item, env.attempt) {
      SilencesShown(known, item, env, merged);
    }
    if item.isFinal {
      FinalIsHeld(known, item, env, merged);
    }
  }

  lemma SilencesShown(d: Data, item: Item, env: Env, merged: Item)
    requires Orderly(d) && item.session in d.sessions && Merged(d, item, env) == Some(merged)
    requires Succeeds(merged, env.attempt) && (item.isFinal ==> FinalKey(item) !in d.finals)
    ensures var after := Accepted(d, item, env).data;
            item.session in after.sessions ==>
              forall u | u in after.sessions[item.session].utterances && u.id == item.utterance :: u.pauses == merged.pauses
  {
    var after := Accepted(d, item, env).data;
    AcceptedUtterances(d, item, env, merged);
    if item.session in after.sessions {
      forall u | u in after.sessions[item.session].utterances && u.id == item.utterance
        ensures u == SaidAs(merged)
      {
        SaidIsShown(d.sessions[item.session].utterances, SaidAs(merged), MAX_UTTERANCES, u);
      }
    }
  }

  lemma FinalIsHeld(d: Data, item: Item, env: Env, merged: Item)
    requires item.session in d.sessions && Merged(d, item, env) == Some(merged)
    requires item.isFinal && FinalKey(item) !in d.finals
    ensures var r, key := Accepted(d, item, env), FinalKey(item);
            && (key in r.data.finals ==> r.data.finals[key].item == merged)
            && r.effects != []
            && exists saved :: Saves(saved) == r.effects[0] && key in saved.finals
                               && saved.finals[key] == Final(merged, false, 0, env.now)
  {
    var heard := Heard(d, item, merged);
    var saved := PendingSaved(heard, item, merged, env);
    var rest := Complete(saved, FinalKey(item), item.session, env, env.second, Accept);
    assert Accepted(d, item, env).effects == [Saves(saved)] + rest.effects;
    assert Accepted(d, item, env).effects[0] == Saves(saved);
  }

  /** A repeat is acknowledged and does nothing, whatever policy says. */
  lemma RepeatDoesNothing(d: Data, item: Item, env: Env)
    requires item.session in d.sessions && item.seqNo in d.sessions[item.session].processed
    ensures Delivered(d, item, env) == Reaction(d, [], Acknowledged(Duplicate, None))
  {
  }

  /** An item that is neither repeated, suppressed, pending nor new does nothing; it is told which of these it is. */
  lemma OldIsRefused(d: Data, item: Item, env: Env)
    requires Orderly(d) && item.session in d.sessions && 1 <= item.seqNo
    requires item.seqNo !in d.sessions[item.session].processed && env.suppression == None && !IsPending(d, item)
    requires !IsNew(d, item, env)
    ensures var us := d.sessions[item.session].utterances;
            var told := if item.seqNo < d.sessions[item.session].highest then StaleSeq
                        else if exists u :: u in us && u.id == item.utterance && u.final then FinalImmutable
                        else StaleRevision;
            Delivered(d, item, env) == Reaction(d, [], Acknowledged(told, None))
  {
    AcceptsIff(d, item, env);
    BeyondHighest(d.sessions[item.session], item.seqNo);
    var us := d.sessions[item.session].utterances;
    FindIn(us, item.utterance);
    if Find(us, item.utterance).Some? {
      var v := Find(us, item.utterance).value;
      forall u | u in us && u.id == item.utterance
        ensures u == v
      {
        SameIdSame(us, u, v);
      }
    }
  }

  /** A suppressed item is acknowledged as that, saved as processed, and appears in the audit alone. */
  lemma SuppressedIsAudited(d: Data, item: Item, env: Env, reason: string)
    requires Orderly(d) && item.session in d.sessions && 1 <= item.seqNo && env.suppression == Some(reason)
    requires item.seqNo !in d.sessions[item.session].processed
    ensures var r := Delivered(d, item, env);
            && r.status == Acknowledged(Suppress(reason), Some(reason))
            && (forall p | Publishes(p) in r.effects ::
                  p.stream == Audit && p.event.key == SuppressedKey(item, reason) && p.event.body == item.text)
            && r.effects != [] && r.effects[0] == Saves(r.data) && r.data.finals.Keys <= d.finals.Keys
            && (item.session in r.data.sessions ==>
                  && r.data.sessions[item.session].highest == Max(d.sessions[item.session].highest, item.seqNo)
                  && (item.seqNo > d.sessions[item.session].highest ==>
                        item.seqNo in r.data.sessions[item.session].processed))
  {
    var marked := MarkIn(d, item.session, item.seqNo, env.now);
    var session := marked.sessions[item.session];
    assert Delivered(d, item, env).effects[0] == Saves(Delivered(d, item, env).data);
    InsertAscending(d.sessions[item.session].processed, item.seqNo);
    MarkedOk(d.sessions[item.session], item.seqNo, env.now);
    LastAscending(session.processed, MAX_PROCESSED);
    var kept := LastN(session.processed, MAX_PROCESSED);
    assert kept != [] && kept[|kept| - 1] == session.highest;
  }

  /** The retry of a pending final publishes the text held; if that succeeds it is acknowledged and completed, and if not
      it stays pending with one more failed attempt. */
  lemma RetryCompletes(d: Data, item: Item, env: Env)
    requires item.session in d.sessions && item.seqNo !in d.sessions[item.session].processed
    requires env.suppression == None && IsPending(d, item)
    ensures var r, key := Delivered(d, item, env), FinalKey(item);
            var before := d.finals[key];
            if env.attempt.succeeding >= Appends(before.item, env.attempt) then
              && r.status == Acknowledged(Retry, env.attempt.suppress)
              && Recorded(r.effects, before.item, env.attempt)
              && (key in r.data.finals ==> r.data.finals[key] == Final(before.item, true, before.attempts, env.now))
            else
              && r.status == Unpublished
              && key in r.data.finals
              && r.data.finals[key] == Final(before.item, false, before.attempts + 1, env.now)
  {
    var key, r := FinalKey(item), Delivered(d, item, env);
    var held := d.finals[key].item;
    AppendsIs(held, env.attempt);
    if Succeeds(held, env.attempt) {
      PublishedIsRecorded(held, held, env.attempt, [], [Saves(r.data)]);
      assert r.effects == [] + PublishEffects(Done(held, env.attempt)) + [Saves(r.data)];
    }
  }

  /** Recovery does the same for a pending final that still validates; and its seq is processed in its session, which may
      have been forgotten by then. */
  lemma {:induction false} ResumeCompletes(d: Data, key: string, env: Env)
    requires Orderly(d) && key in d.finals && !d.finals[key].completed && 1 <= d.finals[key].item.seqNo
    requires |d.finals[key].item.pauses| <= MAX_PAUSES
    requires forall p | p in d.finals[key].item.pauses :: p.afterChar <= |d.finals[key].item.text|
    ensures var r, before := React(d, Resume(key), env), d.finals[key];
            var id := before.item.session;
            if env.attempt.succeeding >= Appends(before.item, env.attempt) then
              && r.status == Acknowledged(Retry, env.attempt.suppress)
              && Recorded(r.effects, before.item, env.attempt)
              && (key in r.data.finals ==> r.data.finals[key] == Final(before.item, true, before.attempts, env.now))
              && (id in env.first.sessions ==>
                    && id in r.data.sessions && before.item.seqNo <= r.data.sessions[id].highest
                    && (id !in d.sessions || d.sessions[id].highest < before.item.seqNo ==>
                          before.item.seqNo in r.data.sessions[id].processed))
            else
              && r.status == Unpublished
              && key in r.data.finals
              && r.data.finals[key] == Final(before.item, false, before.attempts + 1, env.now)
  {
    var held := d.finals[key].item;
    var known, r := WithSession(d, held.session, env.now), React(d, Resume(key), env);
    assert r == Complete(known, key, held.session, env, env.first, Retry);
    AppendsIs(held, env.attempt);
    WithSessionStage(d, held.session, held.session, env.now);
    if Succeeds(held, env.attempt) {
      PublishedIsRecorded(held, held, env.attempt, [], [Saves(r.data)]);
      assert r.effects == [] + PublishEffects(Done(held, env.attempt)) + [Saves(r.data)];
      MarkedProcesses(known.sessions[held.session], held.seqNo, env.now);
    }
  }

  lemma MarkedProcesses(session: Session, seqNo: nat, now: int)
    requires SessionOk(session) && 1 <= seqNo
    ensures var t := Trimmed(Marked(session, seqNo, now));
            t.highest == Max(session.highest, seqNo) && (session.highest < seqNo ==> seqNo in t.processed)
  {
    var marked := Marked(session, seqNo, now);
    InsertAscending(session.processed, seqNo);
    MarkedOk(session, seqNo, now);
    LastAscending(marked.processed, MAX_PROCESSED);
    var kept := LastN(marked.processed, MAX_PROCESSED);
    assert kept != [] && kept[|kept| - 1] == marked.highest;
  }

  /** The save at the end of a batch brings the disk up to what is in memory, where every pending final stays. */
  lemma {:induction false} FlushSaves(d: Data, env: Env, disk: Data)
    ensures var r := React(d, Flush, env);
            && DiskAfter(disk, r.effects) == r.data
            && (forall key | key in d.finals && !d.finals[key].completed ::
                  key in r.data.finals && r.data.finals[key] == d.finals[key])
  {
    var r := React(d, Flush, env);
    assert r.effects[1..] == [];
  }

  // ---------------------------------------------------------------- the revisions of an utterance

  /** These are revisions of one utterance, with later and later seqs, of which only the last may be a final. */
  predicate Revisions(items: seq<Item>) {
    forall i, j | 0 <= i < j < |items| ::
      && items[i].session == items[j].session && items[i].utterance == items[j].utterance
      && items[i].seqNo < items[j].seqNo && items[i].revision < items[j].revision
      && !items[i].isFinal
  }

  /** The k-th step delivers the k-th item; policy lets it through, it fits and can be published, and the session of the
      first has been kept. */
  ghost predicate DeliversAt(c: Codec, cfg: Config, w: World, steps: seq<Step>, items: seq<Item>, k: nat)
    requires k < |steps| == |items|
  {
    var d := At(c, cfg, w, steps, k).data;
    && steps[k].Does? && steps[k].act == Deliver(items[k]) && steps[k].env.suppression == None
    && steps[k].env.attempt.succeeding >= Appends(items[k], steps[k].env.attempt)
    && 1 <= items[k].seqNo && Fits(d, items[k]) && (k > 0 ==> items[k].session in d.sessions)
  }

  /** So do the first n steps. */
  ghost predicate DeliversFirst(c: Codec, cfg: Config, w: World, steps: seq<Step>, items: seq<Item>, n: nat)
    requires n <= |steps| == |items|
  {
    n > 0 ==> DeliversAt(c, cfg, w, steps, items, n - 1) && DeliversFirst(c, cfg, w, steps, items, n - 1)
  }

  /** The k-th delivery is accepted, recorded and shown. */
  ghost predicate TakenUpAt(c: Codec, cfg: Config, w: World, steps: seq<Step>, items: seq<Item>, k: nat)
    requires k < |steps| == |items|
  {
    var d := At(c, cfg, w, steps, k).data;
    steps[k].Does? &&
      var r, env := Delivered(d, items[k], steps[k].env), steps[k].env;
      && r.status == Acknowledged(Accept, env.attempt.suppress) && Recorded(r.effects, items[k], env.attempt)
      && Shows(At(c, cfg, w, steps, k + 1).data, items[k])
  }

  /** However many revisions an utterance has: delivered one after the other, each that fits is accepted, recorded and
      shown in place of the one before it, the first as well as every later one, while the session is kept. */
  lemma {:induction false} RevisionsTakenUp(c: Codec, cfg: Config, w: World, steps: seq<Step>, items: seq<Item>, k: nat)
    requires OrderlyWorld(w) && StepsValid(steps) && k < |steps| == |items| && Revisions(items)
    requires DeliversFirst(c, cfg, w, steps, items, k + 1)
    requires BeginsNew(w, steps, items)
    ensures TakenUpAt(c, cfg, w, steps, items, k)
    decreases k
  {
    if k == 0 {
      FirstTakenUp(c, cfg, w, steps, items);
    } else {
      assert TakenUpAt(c, cfg, w, steps, items, k - 1) by {
        RevisionsTakenUp(c, cfg, w, steps, items, k - 1);
      }
      NextTakenUp(c, cfg, w, steps, items, k);
    }
  }

  /** The first of them is new when it is delivered. */
  predicate BeginsNew(w: World, steps: seq<Step>, items: seq<Item>)
    requires steps != [] && items != []
  {
    steps[0].Does? && IsNew(w.data, items[0], steps[0].env)
  }

  lemma FirstTakenUp(c: Codec, cfg: Config, w: World, steps: seq<Step>, items: seq<Item>)
    requires OrderlyWorld(w) && 0 < |steps| == |items| && DeliversAt(c, cfg, w, steps, items, 0)
    requires steps[0].Does? && IsNew(w.data, items[0], steps[0].env)
    ensures TakenUpAt(c, cfg, w, steps, items, 0)
  {
    NewIsTakenUp(w.data, items[0], steps[0].env);
  }

  lemma NextTakenUp(c: Codec, cfg: Config, w: World, steps: seq<Step>, items: seq<Item>, k: nat)
    requires OrderlyWorld(w) && StepsValid(steps) && 0 < k < |steps| == |items| && Revisions(items)
    requires DeliversAt(c, cfg, w, steps, items, k) && TakenUpAt(c, cfg, w, steps, items, k - 1)
    ensures TakenUpAt(c, cfg, w, steps, items, k)
  {
    var d, env := At(c, cfg, w, steps, k).data, steps[k].env;
    RunOrderly(c, cfg, w, steps, k);
    LaterIsNew(d, items[k - 1], items[k], env);
    NewIsTakenUp(d, items[k], env);
  }

  lemma LaterIsNew(d: Data, before: Item, item: Item, env: Env)
    requires before.session == item.session && before.utterance == item.utterance && !before.isFinal
    requires before.seqNo < item.seqNo && before.revision < item.revision
    requires env.suppression == None && Fits(d, item) && before.session in d.sessions && Shows(d, before)
    ensures IsNew(d, item, env)
  {
  }
}
