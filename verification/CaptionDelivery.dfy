// The caption objects themselves, updated in place: the publishing service
// (src/ws_collab/service.py) and `BrowserCaptioner` (src/ws_collab/captioner.py).
module CaptionDelivery {
  import opened Sequences
  import opened EventLog
  import opened Publication
  import opened SpeechPauses
  import opened Captions
  import opened CaptionRuns
  import opened CaptionBatches

  lemma {:induction false} PublishedAllSnoc(c: Codec, cfg: Config, logs: Logs, ps: seq<Publication>, k: nat)
    requires k < |ps|
    ensures PublishedAll(c, cfg, logs, ps[..k + 1]) == Published(c, cfg, PublishedAll(c, cfg, logs, ps[..k]), ps[k])
    decreases k
  {
    if k == 0 {
      assert ps[..1][1..] == [];
    } else {
      assert ps[..k + 1][1..] == ps[1..][..k];
      assert ps[..k][1..] == ps[1..][..k - 1];
      PublishedAllSnoc(c, cfg, Published(c, cfg, logs, ps[0]), ps[1..], k - 1);
    }
  }

  lemma {:induction false} LogsAfterPublished(c: Codec, cfg: Config, logs: Logs, ps: seq<Publication>,
                                              rest: seq<Effect>)
    ensures LogsAfter(c, cfg, logs, PublishEffects(ps) + rest)
         == LogsAfter(c, cfg, PublishedAll(c, cfg, logs, ps), rest)
    ensures forall disk :: DiskAfter(disk, PublishEffects(ps) + rest) == DiskAfter(disk, rest)
    decreases |ps|
  {
    if ps == [] {
      assert PublishEffects(ps) + rest == rest;
    } else {
      assert (PublishEffects(ps) + rest)[0] == Publishes(ps[0]);
      assert (PublishEffects(ps) + rest)[1..] == PublishEffects(ps[1..]) + rest;
      LogsAfterPublished(c, cfg, Published(c, cfg, logs, ps[0]), ps[1..], rest);
    }
  }

  class Service {
    const codec: Codec
    const cfg: Config
    var logs: Logs

    constructor (codec: Codec, cfg: Config, logs: Logs)
      ensures this.codec == codec && this.cfg == cfg && this.logs == logs
    {
      this.codec, this.cfg, this.logs := codec, cfg, logs;
    }

    /** Appends one event to its stream; nothing happens if that fails, or if there is no such stream. */
    method Publish(p: Publication, fails: bool) returns (ok: bool)
      modifies this
      ensures ok == !fails
      ensures logs == if fails then old(logs) else Published(codec, cfg, old(logs), p)
    {
      if !fails {
        logs := Published(codec, cfg, logs, p);
      }
      return !fails;
    }

    /** The next append of an attempt, which fails when the attempt has run out of successful ones. */
    method PublishNext(stream: Stream, key: string, item: Item, attempt: Attempt, ghost plan: seq<Publication>,
                       done: nat, ghost before: Logs)
      returns (ok: bool)
      requires done < |plan| && plan[done] == Keyed(stream, key, item, attempt) && done <= attempt.succeeding
      requires logs == PublishedAll(codec, cfg, before, plan[..done])
      modifies this
      ensures ok == (done < attempt.succeeding)
      ensures logs == PublishedAll(codec, cfg, before, plan[..if ok then done + 1 else done])
    {
      ok := Publish(Keyed(stream, key, item, attempt), done >= attempt.succeeding);
      if ok {
        PublishedAllSnoc(codec, cfg, before, plan, done);
      }
    }

    /** `_publish_captioner_item`: suppressed by policy, a partial, or a final with all its stages. */
    method PublishItem(item: Item, attempt: Attempt) returns (ok: bool)
      modifies this
      ensures logs == PublishedAll(codec, cfg, old(logs), Done(item, attempt))
      ensures ok == Succeeds(item, attempt)
    {
      ghost var plan, before := Plan(item, attempt), logs;
      assert plan[..0] == [];
      assert plan[..|plan|] == plan;
      if attempt.suppress.Some? {
        ok := PublishNext(Audit, SuppressedKey(item, attempt.suppress.value), item, attempt, plan, 0, before);
        return;
      }
      ok := PublishNext(Transcripts, ResultKey(item), item, attempt, plan, 0, before);
      if !ok || !item.isFinal {
        return;
      }
      ok := PublishNext(Transcripts, StageKey(item, "resolved"), item, attempt, plan, 1, before);
      if !ok {
        return;
      }
      var done := 2;
      if attempt.echo {
        ok := PublishNext(Audio, StageKey(item, "echo-detected"), item, attempt, plan, 2, before);
        if !ok {
          return;
        }
        done := 3;
        if attempt.expected {
          ok := PublishNext(Tts, StageKey(item, "accuracy"), item, attempt, plan, 3, before);
          if !ok {
            return;
          }
          done := 4;
        }
        ok := PublishNext(Audio, StageKey(item, "filtered"), item, attempt, plan, done, before);
        if !ok {
          return;
        }
        done := done + 1;
      }
      ok := PublishNext(Audio, StageKey(item, "heard"), item, attempt, plan, done, before);
    }
  }

  /** Takes the most recent name again and again. */
  method MostRecent(seen: map<string, int>, cap: nat) returns (kept: set<string>)
    ensures Newest(seen, cap, kept)
  {
    kept := {};
    var rest := seen.Keys;
    while |kept| < cap && rest != {}
      invariant kept + rest == seen.Keys && kept !! rest && |kept| <= cap
      invariant forall a, b | a in kept && b in rest :: seen[a] >= seen[b]
      decreases |rest|
    {
      var top := Latest(seen, rest);
      kept, rest := kept + {top}, rest - {top};
    }
  }

  method Latest(seen: map<string, int>, names: set<string>) returns (top: string)
    requires names != {} && names <= seen.Keys
    ensures top in names && forall name | name in names :: seen[top] >= seen[name]
  {
    top :| top in names;
    var rest := names - {top};
    while rest != {}
      invariant rest <= names && top in names
      invariant forall name | name in names && name !in rest :: seen[top] >= seen[name]
      decreases |rest|
    {
      var name :| name in rest;
      rest := rest - {name};
      if seen[name] > seen[top] {
        top := name;
      }
    }
  }

  /** What a batch is answered with: an error when it does not validate, when a delivery fails, or when one of its
      sessions is no longer kept. */
  datatype BatchAnswer =
    | Rejected
    | Answered(results: seq<Status>, contiguous: map<string, nat>)
    | Failed(results: seq<Status>)
    | SessionGone(results: seq<Status>)

  /** Every seq up to h has been processed, and the next one has not. */
  predicate IsContiguous(processed: seq<nat>, h: nat) {
    (forall n | 1 <= n <= h :: n in processed) && h + 1 !in processed
  }

  method HighestContiguous(processed: seq<nat>) returns (h: nat)
    ensures IsContiguous(processed, h)
  {
    h := 0;
    ghost var left := set n | n in processed;
    while h + 1 in processed
      invariant forall n | 1 <= n <= h :: n in processed
      invariant forall n | n in processed && n > h :: n in left
      decreases left
    {
      h := h + 1;
      left := left - {h};
    }
  }

  lemma {:induction false} SavedFirst(c: Codec, cfg: Config, logs: Logs, disk: Data, saved: Data, effects: seq<Effect>)
    ensures DiskAfter(disk, [Saves(saved)] + effects) == DiskAfter(saved, effects)
    ensures LogsAfter(c, cfg, logs, [Saves(saved)] + effects) == LogsAfter(c, cfg, logs, effects)
  {
    assert ([Saves(saved)] + effects)[1..] == effects;
  }

  lemma FlushIs(c: Codec, cfg: Config, w: World, env: Env)
    ensures var saved := Pruned(w.data, env.first);
            Next(c, cfg, w, Does(Flush, env)) == World(saved, saved, w.logs)
  {
    var saved := Pruned(w.data, env.first);
    var effects := [Saves(saved)];
    assert React(w.data, Flush, env).effects == effects && effects[1..] == [];
    assert DiskAfter(w.disk, effects) == DiskAfter(saved, []) == saved;
    assert LogsAfter(c, cfg, w.logs, effects) == LogsAfter(c, cfg, w.logs, []) == w.logs;
  }

  /** A batch is not empty, not too long, and all of its items validate. */
  predicate Acceptable(items: seq<Item>, valid: Item -> bool) {
    items != [] && |items| <= MAX_BATCH_ITEMS && forall item | item in items :: valid(item)
  }

  lemma {:induction false} LostIff(c: Codec, cfg: Config, w: World, items: seq<Item>, results: seq<Status>,
                                   steps: seq<Step>, envs: seq<Env>, end: int)
    requires IsBatch(c, cfg, w, items, results, steps) && StepsAllowed(c, cfg, w, steps)
    requires Uses(steps, results, envs, end) && !EndsBadly(results) && |items| == |envs| <= MAX_BATCH_ITEMS
    ensures forall start :: ClockGoesOn(w.data, envs, start, end) ==>
              ((exists item :: item in items && item.session !in Run(c, cfg, w, steps).data.sessions) <==>
                 exists item :: item in items && Loses(w.data, items, results, end, item.session))
  {
    forall start, i | ClockGoesOn(w.data, envs, start, end) && 0 <= i < |items|
      ensures items[i].session !in Run(c, cfg, w, steps).data.sessions
         <==> Loses(w.data, items, results, end, items[i].session)
    {
      BatchLosesIff(c, cfg, w, items, results, steps, envs, start, end, i);
    }
  }

  /** The first items of a batch have been delivered, which led to this world. */
  ghost predicate Ingesting(c: Codec, cfg: Config, w: World, items: seq<Item>, envs: seq<Env>, results: seq<Status>,
                            steps: seq<Step>, now: World)
  {
    && |steps| == |results| <= |envs|
    && DeliversAll(c, cfg, w, items, results, steps) && StepsAllowed(c, cfg, w, steps)
    && (forall i | 0 <= i < |steps| :: steps[i].Does? && Surrounds(envs[i], steps[i].env))
    && now == Run(c, cfg, w, steps)
  }

  lemma {:induction false} IngestingMore(c: Codec, cfg: Config, w: World, items: seq<Item>, envs: seq<Env>,
                                         results: seq<Status>, steps: seq<Step>, now: World, used: Env)
    requires Ingesting(c, cfg, w, items, envs, results, steps, now) && |results| < |items| == |envs|
    requires Surrounds(envs[|results|], used) && DeliveredAllowed(now.data, items[|results|], used)
    ensures var step := Does(Deliver(items[|results|]), used);
            Ingesting(c, cfg, w, items, envs, results + [React(now.data, step.act, used).status], steps + [step],
                      Next(c, cfg, now, step))
  {
    var step := Does(Deliver(items[|results|]), used);
    DeliversMore(c, cfg, w, items, results, steps, used);
    assert ActAllowed(now.data, step.act, step.env);
    MoreAllowed(c, cfg, w, steps, step);
    RunMore(c, cfg, w, steps, step);
  }

  class BrowserCaptioner {
    const service: Service
    var sessions: map<string, Session>
    var finals: Finals
    // The state file.
    var disk: Data

    function View(): Data
      reads this
    {
      Data(sessions, finals)
    }

    /** Loads the state file and prunes what it holds. */
    constructor (service: Service, disk: Data, now: int)
      ensures this.service == service && this.disk == disk
      ensures exists keep :: KeepAllowed(disk, now, keep) && View() == Pruned(disk, keep)
    {
      this.service, this.disk := service, disk;
      sessions, finals := disk.sessions, disk.finals;
      new;
      var keep := Prune(now);
    }

    method Prune(now: int) returns (keep: Keep)
      modifies this`sessions, this`finals
      ensures KeepAllowed(old(View()), now, keep) && View() == Pruned(old(View()), keep)
    {
      var kept := MostRecent(FreshSessions(View(), now), MAX_SESSIONS);
      var completed := MostRecent(CompletedTimes(View()), MAX_COMPLETED);
      keep := Keep(kept, completed);
      sessions := map id | id in sessions && id in kept :: Trimmed(sessions[id]);
      finals := map key | key in finals && (!finals[key].completed || key in completed) :: finals[key];
    }

    method Save(now: int) returns (keep: Keep)
      modifies this
      ensures KeepAllowed(old(View()), now, keep) && View() == Pruned(old(View()), keep) && disk == View()
    {
      keep := Prune(now);
      disk := Data(sessions, finals);
    }

    /** Memory, disk and streams are as a reaction says. */
    twostate predicate Reacted(r: Reaction)
      reads this, service
    {
      && View() == r.data
      && disk == DiskAfter(old(disk), r.effects)
      && service.logs == LogsAfter(service.codec, service.cfg, old(service.logs), r.effects)
    }

    /** `_complete_finalization`. */
    method CompleteFinalization(key: string, sessionId: string, env: Env, verdict: Verdict)
      returns (status: Status, keep: Keep)
      requires key in finals
      modifies this, service
      ensures CompleteAllowed(old(View()), key, sessionId, env, keep)
      ensures var r := Complete(old(View()), key, sessionId, env, keep, verdict);
              Reacted(r) && status == r.status
    {
      ghost var ps := Done(finals[key].item, env.attempt);
      var published := service.PublishItem(finals[key].item, env.attempt);
      status := if published then Acknowledged(verdict, env.attempt.suppress) else Unpublished;
      Finish(key, sessionId, env, published);
      keep := Save(env.now);
      PublishedThenSaved(service.codec, service.cfg, old(service.logs), old(disk), ps, disk);
    }

    /** What an attempt does to its finalization and its session. */
    method Finish(key: string, sessionId: string, env: Env, published: bool)
      requires key in finals && published == Succeeds(finals[key].item, env.attempt)
      modifies this`sessions, this`finals
      ensures View() == Finished(old(View()), key, sessionId, env)
    {
      var record := finals[key];
      if !published {
        finals := finals[key := record.(attempts := record.attempts + 1, updatedAt := env.now)];
      } else {
        MarkProcessed(sessionId, record.item.seqNo, env.now);
        finals := finals[key := record.(completed := true, updatedAt := env.now)];
      }
    }

    method MarkProcessed(sessionId: string, seqNo: nat, now: int)
      modifies this`sessions
      ensures View() == MarkIn(old(View()), sessionId, seqNo, now)
    {
      if sessionId in sessions {
        sessions := sessions[sessionId := Marked(sessions[sessionId], seqNo, now)];
      }
    }

    ghost function WorldNow(): World
      reads this, service
    {
      World(View(), disk, service.logs)
    }

    /** A batch of items. Everything it does is a run of the kind the results about runs are about; and whether it is
        answered can be told from the state before it and from which of its items are taken up. */
    method IngestBatch(items: seq<Item>, valid: Item -> bool, envs: seq<Env>, now: int)
      returns (answer: BatchAnswer, ghost steps: seq<Step>)
      requires |envs| == |items|
      modifies this, service
      ensures answer.Rejected? <==> !Acceptable(items, valid)
      ensures answer.Rejected? ==> steps == []
      ensures WorldNow() == Run(service.codec, service.cfg, old(WorldNow()), steps)
      ensures !answer.Rejected? ==>
                && IsBatch(service.codec, service.cfg, old(WorldNow()), items, answer.results, steps)
                && StepsAllowed(service.codec, service.cfg, old(WorldNow()), steps)
                && Uses(steps, answer.results, envs, now)
                && (answer.Failed? <==> EndsBadly(answer.results))
                && (answer.SessionGone?
                    <==> !answer.Failed? && exists item :: item in items && item.session !in sessions)
      ensures answer.Answered? ==> Contiguous(items, answer.contiguous)
      ensures forall start :: !answer.Rejected? && !answer.Failed? && ClockGoesOn(old(View()), envs, start, now) ==>
                (answer.SessionGone? <==>
                   exists item :: item in items && Loses(old(View()), items, answer.results, now, item.session))
    {
      steps := [];
      if !Acceptable(items, valid) {
        return Rejected, steps;
      }
      ghost var c, cfg, w := service.codec, service.cfg, WorldNow();
      var results, touched;
      results, touched, steps := IngestItems(items, envs);
      if EndsBadly(results) {
        return Failed(results), steps;
      }
      if touched {
        ghost var step := SaveStep(now);
        FlushedMore(c, cfg, w, items, results, steps, step);
        MoreAllowed(c, cfg, w, steps, step);
        RunMore(c, cfg, w, steps, step);
        steps := steps + [step];
      }
      answer := AnswerFor(items, results);
      LostIff(c, cfg, w, items, results, steps, envs, now);
    }

    /** Each session of the items has the end of its unbroken seqs. */
    ghost predicate Contiguous(items: seq<Item>, contiguous: map<string, nat>)
      reads this
    {
      && (forall id :: id in contiguous <==> exists item :: item in items && item.session == id)
      && (forall id | id in contiguous :: id in sessions && IsContiguous(sessions[id].processed, contiguous[id]))
    }

    /** The deliveries of a batch, up to the first that fails. */
    method IngestItems(items: seq<Item>, envs: seq<Env>)
      returns (results: seq<Status>, touched: bool, ghost steps: seq<Step>)
      requires |envs| == |items|
      modifies this, service
      ensures Ingesting(service.codec, service.cfg, old(WorldNow()), items, envs, results, steps, WorldNow())
      ensures forall i | 0 <= i < |results| - 1 :: results[i].Acknowledged?
      ensures |results| < |items| ==> EndsBadly(results)
      ensures !EndsBadly(results) ==> touched == AnyTouches(results)
    {
      ghost var w := WorldNow();
      results, touched, steps := [], false, [];
      for i := 0 to |items|
        invariant i == |results| && Ingesting(service.codec, service.cfg, w, items, envs, results, steps, WorldNow())
        invariant forall k | 0 <= k < i :: results[k].Acknowledged?
        invariant touched == AnyTouches(results)
      {
        ghost var was, now := results, WorldNow();
        var status;
        ghost var env;
        status, env := IngestStep(items[i], envs[i]);
        IngestingMore(service.codec, service.cfg, w, items, envs, results, steps, now, env);
        results, steps := results + [status], steps + [Does(Deliver(items[i]), env)];
        assert results[..i] == was;
        if !status.Acknowledged? {
          return;
        }
        touched := touched || Touches(status);
      }
    }

    /** One delivery, as a step of a run. */
    method IngestStep(item: Item, env: Env) returns (status: Status, ghost used: Env)
      modifies this, service
      ensures WorldNow() == Next(service.codec, service.cfg, old(WorldNow()), Does(Deliver(item), used))
      ensures status == React(old(View()), Deliver(item), used).status
      ensures Surrounds(env, used) && DeliveredAllowed(old(View()), item, used)
    {
      var first, second;
      status, first, second := Ingest(item, env);
      used := env.(first := first, second := second);
    }

    /** A save on its own, as a step of a run. */
    method SaveStep(now: int) returns (ghost step: Step)
      modifies this
      ensures step.Does? && step.act.Flush? && step.env.now == now && KeepAllowed(old(View()), now, step.env.first)
      ensures WorldNow() == Next(service.codec, service.cfg, old(WorldNow()), step)
    {
      ghost var before := WorldNow();
      var keep := Save(now);
      ghost var unicode := Unicode(c => false, c => "", text => "");
      ghost var env := Env(now, None, Attempt(None, false, false, "", 0), unicode, keep, keep);
      step := Does(Flush, env);
      FlushIs(service.codec, service.cfg, before, env);
    }

    /** The acknowledgement by session at the end of a batch. */
    method AnswerFor(items: seq<Item>, results: seq<Status>) returns (answer: BatchAnswer)
      ensures (answer.SessionGone? || answer.Answered?) && answer.results == results
      ensures answer.SessionGone? <==> exists item :: item in items && item.session !in sessions
      ensures answer.Answered? ==> Contiguous(items, answer.contiguous)
    {
      var contiguous: map<string, nat> := map[];
      for i := 0 to |items|
        invariant forall k | 0 <= k < i :: items[k].session in sessions
        invariant forall id :: id in contiguous <==> exists item :: item in items[..i] && item.session == id
        invariant forall id | id in contiguous :: id in sessions && IsContiguous(sessions[id].processed, contiguous[id])
      {
        if items[i].session !in sessions {
          assert items[i] in items;
          return SessionGone(results);
        }
        assert items[..i + 1] == items[..i] + [items[i]];
        var h := HighestContiguous(sessions[items[i].session].processed);
        contiguous := contiguous[items[i].session := h];
      }
      assert items[..|items|] == items;
      answer := Answered(results, contiguous);
    }

    /** One item of `ingest`. */
    method Ingest(item: Item, env: Env) returns (status: Status, first: Keep, second: Keep)
      modifies this, service
      ensures DeliveredAllowed(old(View()), item, env.(first := first, second := second))
      ensures var r := React(old(View()), Deliver(item), env.(first := first, second := second));
              Reacted(r) && status == r.status
    {
      first, second := Keep({}, {}), Keep({}, {});
      Open(item.session, env.now);
      var verdict := Decide(item, env.suppression);
      match verdict {
        case Suppress(reason) =>
          first := IngestSuppressed(item, reason, env);
          status := Acknowledged(verdict, Some(reason));
        case Retry =>
          status, first := CompleteFinalization(FinalKey(item), item.session, env, Retry);
        case Accept =>
          status, first, second := AcceptItem(item, env);
        case _ =>
          status := Acknowledged(verdict, None);
      }
    }

    method Open(id: string, now: int)
      modifies this`sessions
      ensures View() == WithSession(old(View()), id, now)
    {
      if id !in sessions {
        sessions := sessions[id := NewSession(now)];
      }
    }

    /** The checks of `ingest`, in its order. */
    method Decide(item: Item, suppression: Option<string>) returns (verdict: Verdict)
      requires item.session in sessions
      ensures var key := FinalKey(item);
              verdict == Judge(sessions[item.session], item, suppression,
                               item.isFinal && key in finals && !finals[key].completed)
    {
      var session, key := sessions[item.session], FinalKey(item);
      if item.seqNo in session.processed {
        return Duplicate;
      }
      if suppression.Some? {
        return Suppress(suppression.value);
      }
      if item.isFinal && key in finals && !finals[key].completed {
        return Retry;
      }
      var current := Find(session.utterances, item.utterance);
      if item.seqNo < session.highest {
        return StaleSeq;
      }
      if current.Some? && current.value.final {
        return FinalImmutable;
      }
      if current.Some? && item.revision <= current.value.revision {
        return StaleRevision;
      }
      return Accept;
    }

    /** A suppressed item is marked and saved, then audited; a failing audit changes nothing. */
    method IngestSuppressed(item: Item, reason: string, env: Env) returns (keep: Keep)
      modifies this, service
      ensures KeepAllowed(MarkIn(old(View()), item.session, item.seqNo, env.now), env.now, keep)
      ensures var saved := Pruned(MarkIn(old(View()), item.session, item.seqNo, env.now), keep);
              && View() == saved && disk == saved
              && var effects := [Saves(saved)] + PublishEffects(Done(item, SuppressAttempt(env.attempt, reason)));
              && service.logs == LogsAfter(service.codec, service.cfg, old(service.logs), effects)
              && disk == DiskAfter(old(disk), effects)
    {
      MarkProcessed(item.session, item.seqNo, env.now);
      keep := Save(env.now);
      var audited := service.PublishItem(item, SuppressAttempt(env.attempt, reason));
      SavedThenPublished(service.codec, service.cfg, old(service.logs), old(disk),
                         Done(item, SuppressAttempt(env.attempt, reason)), disk);
    }

    method AcceptItem(item: Item, env: Env) returns (status: Status, first: Keep, second: Keep)
      requires item.session in sessions
      requires item.isFinal && FinalKey(item) in finals ==> finals[FinalKey(item)].completed
      modifies this, service
      ensures AcceptedAllowed(old(View()), item, env.(first := first, second := second))
      ensures var r := Accepted(old(View()), item, env.(first := first, second := second));
              Reacted(r) && status == r.status
    {
      first, second := Keep({}, {}), Keep({}, {});
      var current := Find(sessions[item.session].utterances, item.utterance);
      var preserved := match current
        case None => Preserved(env.unicode, [], "", item)
        case Some(u) => Preserved(env.unicode, u.pauses, u.text, item);
      if preserved.None? {
        return TooManyPauses, first, second;
      }
      var merged := item.(pauses := preserved.value);
      sessions := sessions[item.session := Spoken(sessions[item.session], SaidAs(merged))];
      assert View() == Heard(old(View()), item, merged);
      if item.isFinal {
        status, first, second := AcceptFinal(item, merged, env);
      } else {
        status, first := AcceptPartial(item, merged, env);
      }
    }

    method AcceptPartial(item: Item, merged: Item, env: Env) returns (status: Status, first: Keep)
      requires item.session in sessions
      modifies this, service
      ensures PartialAllowed(old(View()), item, merged, env.(first := first))
      ensures var r := PartialDone(old(View()), item, merged, env.(first := first)); Reacted(r) && status == r.status
    {
      first := Keep({}, {});
      ghost var ps := Done(merged, env.attempt);
      var published := service.PublishItem(merged, env.attempt);
      if !published {
        LogsAfterPublished(service.codec, service.cfg, old(service.logs), ps, []);
        assert PublishEffects(ps) + [] == PublishEffects(ps);
        return Unpublished, first;
      }
      MarkProcessed(item.session, item.seqNo, env.now);
      first := Save(env.now);
      PublishedThenSaved(service.codec, service.cfg, old(service.logs), old(disk), ps, disk);
      status := Acknowledged(Accept, env.attempt.suppress);
    }

    method AcceptFinal(item: Item, merged: Item, env: Env) returns (status: Status, first: Keep, second: Keep)
      requires item.session in sessions && item.isFinal
      requires FinalKey(item) in finals ==> finals[FinalKey(item)].completed
      modifies this, service
      ensures FinalAllowed(old(View()), item, merged, env.(first := first, second := second))
      ensures var r := FinalDone(old(View()), item, merged, env.(first := first, second := second));
              Reacted(r) && status == r.status
    {
      if FinalKey(item) in finals {
        first := Keep({}, {});
        status, second := CompleteFinalization(FinalKey(item), item.session, env, Accept);
      } else {
        status, first, second := AcceptNewFinal(item, merged, env);
      }
    }

    method AcceptNewFinal(item: Item, merged: Item, env: Env) returns (status: Status, first: Keep, second: Keep)
      requires item.session in sessions && FinalKey(item) !in finals
      modifies this, service
      ensures var noted, key := Noted(old(View()), item, merged, env.now), FinalKey(item);
              && KeepAllowed(noted, env.now, first)
              && CompleteAllowed(Pruned(noted, first), key, item.session, env, second)
              && var r := Complete(Pruned(noted, first), key, item.session, env, second, Accept);
                 Reacted(r.(effects := [Saves(Pruned(noted, first))] + r.effects)) && status == r.status
    {
      first := NotePending(item, merged, env.now);
      ghost var saved := disk;
      status, second := CompleteFinalization(FinalKey(item), item.session, env, Accept);
      SavedFirst(service.codec, service.cfg, old(service.logs), old(disk), saved,
                 Complete(saved, FinalKey(item), item.session, env, second, Accept).effects);
    }

    /** A new final is saved as pending. */
    method NotePending(item: Item, merged: Item, now: int) returns (first: Keep)
      requires item.session in sessions && FinalKey(item) !in finals
      modifies this
      ensures KeepAllowed(Noted(old(View()), item, merged, now), now, first)
      ensures View() == Pruned(Noted(old(View()), item, merged, now), first) && disk == View()
      ensures FinalKey(item) in finals
    {
      finals := finals[FinalKey(item) := Final(merged, false, 0, now)];
      sessions := sessions[item.session := sessions[item.session].(lastSeen := now)];
      first := Save(now);
    }

    /** One pending finalization of `recover_pending`. */
    method ResumeOne(key: string, env: Env) returns (status: Status, first: Keep)
      modifies this, service
      ensures ResumedAllowed(old(View()), key, env.(first := first))
      ensures var r := React(old(View()), Resume(key), env.(first := first));
              Reacted(r) && status == r.status
    {
      first := Keep({}, {});
      if key !in finals || finals[key].completed {
        return Unpublished, first;
      }
      var item := finals[key].item;
      if !PausesValid(item.text, item.pauses) {
        finals := finals[key := finals[key].(updatedAt := env.now)];
        first := Save(env.now);
        assert [Saves(disk)][1..] == [];
        return Unpublished, first;
      }
      Open(item.session, env.now);
      status, first := CompleteFinalization(key, item.session, env, Retry);
    }

    method ResumePendingOne(key: string, env: Env) returns (resumed: bool, ghost used: Env)
      requires key in PendingItems(finals)
      modifies this, service
      ensures PendingItems(finals) == if resumed then PendingItems(old(finals)) - {key} else PendingItems(old(finals))
      ensures resumed == Recoverable(PendingItems(old(finals))[key], env.attempt)
      ensures Surrounds(env, used) && ResumedAllowed(old(View()), key, used)
      ensures WorldNow() == Next(service.codec, service.cfg, old(WorldNow()), Does(Resume(key), used))
    {
      ghost var before := View();
      var status, keep := ResumeOne(key, env);
      used := env.(first := keep);
      ResumePending(before, key, used);
      resumed := status.Acknowledged?;
    }

    /** At most `limit` of the pending finalizations. */
    method ChoosePending(limit: nat) returns (chosen: seq<string>)
      ensures IsChoice(PendingItems(finals), limit, chosen)
    {
      chosen := [];
      var rest := PendingItems(finals).Keys;
      while |chosen| < limit && rest != {}
        invariant forall key :: key in PendingItems(finals) <==> key in chosen || key in rest
        invariant (forall key | key in chosen :: key !in rest) && NoRepeats(chosen) && |chosen| <= limit
        decreases |rest|
      {
        var key :| key in rest;
        chosen, rest := chosen + [key], rest - {key};
      }
    }

    /** Resumes at most `limit` of the finalizations a crash left pending. Those published are no longer
        pending; all others, those that failed among them, stay, each with its item. What is done is a run. */
    method RecoverPending(limit: nat, envs: string -> Env)
      returns (chosen: seq<string>, recovered: set<string>, ghost steps: seq<Step>)
      modifies this, service
      ensures IsChoice(PendingItems(old(finals)), limit, chosen)
      ensures recovered == set key | key in chosen && Recoverable(PendingItems(old(finals))[key], envs(key).attempt)
      ensures PendingItems(finals) == PendingItems(old(finals)) - recovered
      ensures ResumesEach(chosen, envs, steps)
      ensures StepsAllowed(service.codec, service.cfg, old(WorldNow()), steps)
      ensures WorldNow() == Run(service.codec, service.cfg, old(WorldNow()), steps)
    {
      chosen := ChoosePending(limit);
      recovered, steps := RecoverAll(chosen, envs);
    }

    /** Resumes each of the chosen finalizations, one failure not stopping the others. */
    method RecoverAll(chosen: seq<string>, envs: string -> Env)
      returns (recovered: set<string>, ghost steps: seq<Step>)
      requires NoRepeats(chosen) && forall key | key in chosen :: key in PendingItems(finals)
      modifies this, service
      ensures Recovering(PendingItems(old(finals)), chosen, envs, recovered, PendingItems(finals))
      ensures Resuming(service.codec, service.cfg, old(WorldNow()), chosen, envs, steps, WorldNow())
    {
      ghost var w, before := WorldNow(), PendingItems(finals);
      recovered, steps := {}, [];
      ResumingNone(service.codec, service.cfg, w, envs);
      for i := 0 to |chosen|
        invariant Recovering(before, chosen[..i], envs, recovered, PendingItems(finals))
        invariant Resuming(service.codec, service.cfg, w, chosen[..i], envs, steps, WorldNow())
      {
        assert chosen[..i + 1] == chosen[..i] + [chosen[i]];
        recovered, steps := RecoverNext(chosen[i], envs, recovered, before, w, chosen[..i], steps);
      }
      assert chosen[..|chosen|] == chosen;
    }

    /** The next of the chosen finalizations. */
    method RecoverNext(key: string, envs: string -> Env, was: set<string>, ghost before: map<string, Item>,
                       ghost w: World, ghost done: seq<string>, ghost so: seq<Step>)
      returns (recovered: set<string>, ghost steps: seq<Step>)
      requires key in before && key !in done
      requires Recovering(before, done, envs, was, PendingItems(finals))
      requires Resuming(service.codec, service.cfg, w, done, envs, so, WorldNow())
      modifies this, service
      ensures Recovering(before, done + [key], envs, recovered, PendingItems(finals))
      ensures Resuming(service.codec, service.cfg, w, done + [key], envs, steps, WorldNow())
    {
      ghost var now := WorldNow();
      RecoveringMore(before, done, envs, was, PendingItems(finals), key);
      var resumed;
      ghost var used;
      resumed, used := ResumePendingOne(key, envs(key));
      ResumingMore(service.codec, service.cfg, w, done, envs, so, now, key, used);
      steps := so + [Does(Resume(key), used)];
      recovered := if resumed then was + {key} else was;
    }
  }

  predicate NoRepeats(keys: seq<string>) {
    forall i, j | 0 <= i < j < |keys| :: keys[i] != keys[j]
  }

  /** Some of the pending finalizations: all of them, if there are no more than the limit. */
  predicate IsChoice(pending: map<string, Item>, limit: nat, chosen: seq<string>) {
    && |chosen| <= limit && NoRepeats(chosen)
    && (forall key | key in chosen :: key in pending)
    && (|chosen| < limit ==> forall key | key in pending :: key in chosen)
  }

  /** Of the pending items, those done so far left exactly if they could be recovered. */
  ghost predicate Recovering(before: map<string, Item>, done: seq<string>, envs: string -> Env,
                             recovered: set<string>, pending: map<string, Item>)
  {
    && (forall key | key in done :: key in before)
    && recovered == (set key | key in done && Recoverable(before[key], envs(key).attempt))
    && pending == before - recovered
  }

  lemma RecoveringMore(before: map<string, Item>, done: seq<string>, envs: string -> Env, recovered: set<string>,
                       pending: map<string, Item>, key: string)
    requires Recovering(before, done, envs, recovered, pending) && key in before && key !in done
    ensures key in pending && pending[key] == before[key]
    ensures var resumed := Recoverable(before[key], envs(key).attempt);
            Recovering(before, done + [key], envs, if resumed then recovered + {key} else recovered,
                       if resumed then pending - {key} else pending)
  {
    MinusTwo(before, recovered, {key});
  }

  lemma MinusTwo(m: map<string, Item>, a: set<string>, b: set<string>)
    ensures m - a - b == m - (a + b)
  {
  }

  /** The steps resume each of these finalizations, in order, in its own surroundings. */
  ghost predicate ResumesEach(done: seq<string>, envs: string -> Env, steps: seq<Step>) {
    |steps| == |done| && forall i | 0 <= i < |done| :: ResumesAt(done[i], envs, steps[i])
  }

  ghost predicate ResumesAt(key: string, envs: string -> Env, step: Step) {
    step.Does? && step.act == Resume(key) && Surrounds(envs(key), step.env)
  }

  /** Resuming the finalizations done so far led to this world. */
  ghost predicate Resuming(c: Codec, cfg: Config, w: World, done: seq<string>, envs: string -> Env, steps: seq<Step>,
                           now: World)
  {
    && ResumesEach(done, envs, steps)
    && StepsAllowed(c, cfg, w, steps)
    && now == Run(c, cfg, w, steps)
  }

  lemma ResumingNone(c: Codec, cfg: Config, w: World, envs: string -> Env)
    ensures Resuming(c, cfg, w, [], envs, [], w)
  {
  }

  lemma {:induction false} ResumingMore(c: Codec, cfg: Config, w: World, done: seq<string>, envs: string -> Env,
                                        steps: seq<Step>, now: World, key: string, used: Env)
    requires Resuming(c, cfg, w, done, envs, steps, now)
    requires Surrounds(envs(key), used) && ResumedAllowed(now.data, key, used)
    ensures var step := Does(Resume(key), used);
            Resuming(c, cfg, w, done + [key], envs, steps + [step], Next(c, cfg, now, step))
  {
    var step := Does(Resume(key), used);
    assert ActAllowed(now.data, step.act, step.env);
    MoreAllowed(c, cfg, w, steps, step);
    RunMore(c, cfg, w, steps, step);
  }

  function PendingItems(finals: Finals): map<string, Item> {
    map key | key in finals && !finals[key].completed :: finals[key].item
  }

  /** A pending item that passes validation and whose publication succeeds. */
  predicate Recoverable(item: Item, attempt: Attempt) {
    PausesValid(item.text, item.pauses) && Succeeds(item, attempt)
  }

  lemma PendingPruned(data: Data, keep: Keep)
    ensures PendingItems(Pruned(data, keep).finals) == PendingItems(data.finals)
  {
  }

  lemma PendingFinished(data: Data, key: string, sessionId: string, env: Env)
    requires key in PendingItems(data.finals)
    ensures PendingItems(Finished(data, key, sessionId, env).finals)
         == if Succeeds(data.finals[key].item, env.attempt) then PendingItems(data.finals) - {key}
            else PendingItems(data.finals)
  {
  }

  /** A resumed finalization leaves the pending ones exactly when it was published. */
  lemma ResumePending(data: Data, key: string, env: Env)
    requires key in PendingItems(data.finals)
    ensures React(data, Resume(key), env).status.Acknowledged?
         == Recoverable(PendingItems(data.finals)[key], env.attempt)
    ensures var r := React(data, Resume(key), env);
            PendingItems(r.data.finals)
            == if r.status.Acknowledged? then PendingItems(data.finals) - {key} else PendingItems(data.finals)
  {
    var item := data.finals[key].item;
    if PausesValid(item.text, item.pauses) {
      var known := WithSession(data, item.session, env.now);
      PendingFinished(known, key, item.session, env);
      PendingPruned(Finished(known, key, item.session, env), env.first);
    } else {
      PendingPruned(Refused(data, key, env.now), env.first);
      assert PendingItems(Refused(data, key, env.now).finals) == PendingItems(data.finals);
    }
  }

  lemma {:induction false} PublishedThenSaved(c: Codec, cfg: Config, logs: Logs, disk: Data, ps: seq<Publication>,
                                              saved: Data)
    ensures LogsAfter(c, cfg, logs, PublishEffects(ps) + [Saves(saved)]) == PublishedAll(c, cfg, logs, ps)
    ensures DiskAfter(disk, PublishEffects(ps) + [Saves(saved)]) == saved
  {
    LogsAfterPublished(c, cfg, logs, ps, [Saves(saved)]);
    assert [Saves(saved)][1..] == [];
    assert DiskAfter(disk, [Saves(saved)]) == DiskAfter(saved, []) == saved;
  }

  lemma {:induction false} SavedThenPublished(c: Codec, cfg: Config, logs: Logs, disk: Data, ps: seq<Publication>,
                                              saved: Data)
    ensures LogsAfter(c, cfg, logs, [Saves(saved)] + PublishEffects(ps)) == PublishedAll(c, cfg, logs, ps)
    ensures DiskAfter(disk, [Saves(saved)] + PublishEffects(ps)) == saved
  {
    var effects := [Saves(saved)] + PublishEffects(ps);
    assert effects[1..] == PublishEffects(ps) == PublishEffects(ps) + [];
    LogsAfterPublished(c, cfg, logs, ps, []);
  }
}
