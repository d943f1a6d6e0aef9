// Runs of caption delivery end to end: deliveries, retries, failed publications, crashes between any
// two effects or inside an append, recovery, and other writers of the same streams.
module CaptionRuns {
  import opened Sequences
  import opened EventLog
  import opened LogAppend
  import opened LogCrash
  import LogRuns
  import opened Publication
  import opened Captions

  datatype World = World(data: Data, disk: Data, logs: Logs)

  // ---------------------------------------------------------------- effects

  function DiskAfter(disk: Data, effects: seq<Effect>): Data
    decreases |effects|
  {
    if effects == [] then disk
    else DiskAfter(if effects[0].Saves? then effects[0].data else disk, effects[1..])
  }

  function LogsAfter(c: Codec, cfg: Config, logs: Logs, effects: seq<Effect>): Logs
    decreases |effects|
  {
    if effects == [] then logs
    else match effects[0]
      case Saves(data) => LogsAfter(c, cfg, logs, effects[1..])
      case Publishes(p) => LogsAfter(c, cfg, Published(c, cfg, logs, p), effects[1..])
  }

  function HistoriesAfter(c: Codec, cfg: Config, logs: Logs, hs: Histories, effects: seq<Effect>): (later: Histories)
    requires hs.Keys == logs.Keys
    ensures later.Keys == hs.Keys
    decreases |effects|
  {
    if effects == [] then hs
    else match effects[0]
      case Saves(data) => HistoriesAfter(c, cfg, logs, hs, effects[1..])
      case Publishes(p) => HistoriesAfter(c, cfg, Published(c, cfg, logs, p), PublishedHistory(logs, hs, p), effects[1..])
  }

  // ---------------------------------------------------------------- what is to hold

  /** Whatever is recorded as completed is in the log, or suppressed by policy. */
  ghost predicate CompletedSettled(hs: Histories, finals: Finals) {
    forall key | key in finals && finals[key].completed :: Settled(hs, finals[key].item)
  }

  predicate IsPending(finals: Finals, key: string, item: Item) {
    key in finals && !finals[key].completed && finals[key].item == item
  }

  /** Every pending finalization of `before` is pending in `after`, or its item is settled. */
  ghost predicate NoneLost(hs: Histories, before: Finals, after: Finals) {
    forall key | key in before && !before[key].completed ::
      IsPending(after, key, before[key].item) || Settled(hs, before[key].item)
  }

  lemma NoneLostTrans(hs: Histories, a: Finals, b: Finals, z: Finals)
    requires NoneLost(hs, a, b) && NoneLost(hs, b, z)
    ensures NoneLost(hs, a, z)
  {
    forall key | key in a && !a[key].completed
      ensures IsPending(z, key, a[key].item) || Settled(hs, a[key].item)
    {
    }
  }

  lemma LaterHolds(hs: Histories, later: Histories, before: Finals, after: Finals)
    requires Extends(hs, later)
    ensures CompletedSettled(hs, after) ==> CompletedSettled(later, after)
    ensures NoneLost(hs, before, after) ==> NoneLost(later, before, after)
  {
    forall item | Settled(hs, item)
      ensures Settled(later, item)
    {
      ExtendsKeepsSettled(hs, later, item);
    }
  }

  lemma PrunedHolds(hs: Histories, data: Data, keep: Keep)
    ensures CompletedSettled(hs, data.finals) ==> CompletedSettled(hs, Pruned(data, keep).finals)
    ensures NoneLost(hs, data.finals, Pruned(data, keep).finals)
  {
  }

  lemma ExtendsTrans(a: Histories, b: Histories, z: Histories)
    requires Extends(a, b) && Extends(b, z)
    ensures Extends(a, z)
  {
    forall stream | stream in a
      ensures a[stream] <= z[stream]
    {
      assert a[stream] <= b[stream] && b[stream] <= z[stream];
    }
  }

  /** Each save, at the moment it is made, records as completed only what is settled and drops no
      pending finalization of the save before it. */
  ghost predicate EffectsSafe(c: Codec, cfg: Config, logs: Logs, hs: Histories, finals: Finals, effects: seq<Effect>)
    requires hs.Keys == logs.Keys
    decreases |effects|
  {
    effects == [] ||
    match effects[0]
    case Saves(data) =>
      && CompletedSettled(hs, data.finals)
      && NoneLost(hs, finals, data.finals)
      && EffectsSafe(c, cfg, logs, hs, data.finals, effects[1..])
    case Publishes(p) =>
      EffectsSafe(c, cfg, Published(c, cfg, logs, p), PublishedHistory(logs, hs, p), finals, effects[1..])
  }

  /** Publications before safe effects. */
  lemma {:induction false} PublishFirst(c: Codec, cfg: Config, logs: Logs, hs: Histories, finals: Finals,
                                        ps: seq<Publication>, rest: seq<Effect>)
    requires hs.Keys == logs.Keys
    ensures PublishedAllHistory(c, cfg, logs, hs, ps).Keys == PublishedAll(c, cfg, logs, ps).Keys
    ensures EffectsSafe(c, cfg, PublishedAll(c, cfg, logs, ps), PublishedAllHistory(c, cfg, logs, hs, ps), finals, rest)
            ==> EffectsSafe(c, cfg, logs, hs, finals, PublishEffects(ps) + rest)
    ensures HistoriesAfter(c, cfg, logs, hs, PublishEffects(ps) + rest)
         == HistoriesAfter(c, cfg, PublishedAll(c, cfg, logs, ps), PublishedAllHistory(c, cfg, logs, hs, ps), rest)
    ensures forall disk :: DiskAfter(disk, PublishEffects(ps) + rest) == DiskAfter(disk, rest)
    decreases |ps|
  {
    var effects := PublishEffects(ps) + rest;
    if ps == [] {
      assert effects == rest;
    } else {
      assert effects[0] == Publishes(ps[0]);
      assert effects[1..] == PublishEffects(ps[1..]) + rest;
      PublishFirst(c, cfg, Published(c, cfg, logs, ps[0]), PublishedHistory(logs, hs, ps[0]), finals, ps[1..], rest);
    }
  }

  /** Wherever safe effects stop, the disk is good and nothing pending was lost. */
  lemma {:induction false} StoppedSafely(c: Codec, cfg: Config, logs: Logs, hs: Histories, disk: Data,
                                         effects: seq<Effect>, k: nat)
    requires Sound(c) && LogsOk(c, logs, hs) && CompletedSettled(hs, disk.finals) && k <= |effects|
    requires EffectsSafe(c, cfg, logs, hs, disk.finals, effects)
    ensures var later := HistoriesAfter(c, cfg, logs, hs, effects[..k]);
            && LogsOk(c, LogsAfter(c, cfg, logs, effects[..k]), later)
            && Extends(hs, later)
            && CompletedSettled(later, DiskAfter(disk, effects[..k]).finals)
            && NoneLost(later, disk.finals, DiskAfter(disk, effects[..k]).finals)
    decreases |effects|
  {
    if k != 0 {
      assert effects[..k][1..] == effects[1..][..k - 1];
      match effects[0] {
        case Saves(data) =>
          StoppedSafely(c, cfg, logs, hs, data, effects[1..], k - 1);
          var later := HistoriesAfter(c, cfg, logs, hs, effects[..k]);
          LaterHolds(hs, later, disk.finals, data.finals);
          NoneLostTrans(later, disk.finals, data.finals, DiskAfter(disk, effects[..k]).finals);
        case Publishes(p) =>
          var hs' := PublishedHistory(logs, hs, p);
          PublishedOk(c, cfg, logs, hs, p);
          PublishedRecords(c, logs, hs, p);
          LaterHolds(hs, hs', disk.finals, disk.finals);
          StoppedSafely(c, cfg, Published(c, cfg, logs, p), hs', disk, effects[1..], k - 1);
          ExtendsTrans(hs, hs', HistoriesAfter(c, cfg, logs, hs, effects[..k]));
      }
    }
  }

  // ---------------------------------------------------------------- reactions are safe

  /** A reaction whose effects are safe, that leaves in memory only what is settled or pending. */
  ghost predicate ReactionSafe(c: Codec, cfg: Config, logs: Logs, hs: Histories, disk: Data, r: Reaction)
    requires hs.Keys == logs.Keys
  {
    var later := HistoriesAfter(c, cfg, logs, hs, r.effects);
    && EffectsSafe(c, cfg, logs, hs, disk.finals, r.effects)
    && CompletedSettled(later, r.data.finals)
    && NoneLost(later, DiskAfter(disk, r.effects).finals, r.data.finals)
  }

  /** Publishing and then saving is safe when the saved state is good by then. */
  lemma {:induction false} PublishThenSave(c: Codec, cfg: Config, logs: Logs, hs: Histories, disk: Data,
                                           ps: seq<Publication>, r: Reaction)
    requires Sound(c) && LogsOk(c, logs, hs)
    requires r.effects == PublishEffects(ps) + [Saves(r.data)]
    requires var later := PublishedAllHistory(c, cfg, logs, hs, ps);
             CompletedSettled(later, r.data.finals) && NoneLost(later, disk.finals, r.data.finals)
    ensures ReactionSafe(c, cfg, logs, hs, disk, r)
  {
    var save := [Saves(r.data)];
    assert save[0] == Saves(r.data) && save[1..] == [];
    PublishFirst(c, cfg, logs, hs, disk.finals, ps, save);
    assert DiskAfter(disk, save) == DiskAfter(r.data, []) == r.data;
    assert EffectsSafe(c, cfg, PublishedAll(c, cfg, logs, ps), PublishedAllHistory(c, cfg, logs, hs, ps), r.data.finals,
                       []);
  }

  /** Completing a finalization: success is recorded only after the last publication. */
  lemma CompleteSafe(c: Codec, cfg: Config, logs: Logs, hs: Histories, disk: Data, data: Data, key: string,
                     sessionId: string, env: Env, keep: Keep, verdict: Verdict)
    requires Sound(c) && LogsOk(c, logs, hs)
    requires key in data.finals && CompletedSettled(hs, data.finals) && NoneLost(hs, disk.finals, data.finals)
    ensures ReactionSafe(c, cfg, logs, hs, disk, Complete(data, key, sessionId, env, keep, verdict))
  {
    var record, ps := data.finals[key], Done(data.finals[key].item, env.attempt);
    var later := PublishedAllHistory(c, cfg, logs, hs, ps);
    PublishedAllKeeps(c, cfg, logs, hs, ps);
    LaterHolds(hs, later, disk.finals, data.finals);
    if Succeeds(record.item, env.attempt) {
      SuccessSettles(c, cfg, logs, hs, record.item, env.attempt);
      var marked := MarkIn(data, sessionId, record.item.seqNo, env.now);
      UpdatedSaved(later, disk.finals, marked, key, record.(completed := true, updatedAt := env.now), keep);
    } else {
      UpdatedSaved(later, disk.finals, data, key, record.(attempts := record.attempts + 1, updatedAt := env.now), keep);
    }
    PublishThenSave(c, cfg, logs, hs, disk, ps, Complete(data, key, sessionId, env, keep, verdict));
  }

  /** A save after one finalization has got further. */
  lemma UpdatedSaved(hs: Histories, before: Finals, data: Data, key: string, next: Final, keep: Keep)
    requires CompletedSettled(hs, data.finals) && NoneLost(hs, before, data.finals)
    requires key in data.finals && next.item == data.finals[key].item
    requires if next.completed then Settled(hs, next.item) else !data.finals[key].completed
    ensures var saved := Pruned(data.(finals := data.finals[key := next]), keep).finals;
            CompletedSettled(hs, saved) && NoneLost(hs, before, saved)
  {
    var updated := data.finals[key := next];
    assert NoneLost(hs, data.finals, updated);
    NoneLostTrans(hs, before, data.finals, updated);
    PrunedHolds(hs, data.(finals := updated), keep);
    NoneLostTrans(hs, before, updated, Pruned(data.(finals := updated), keep).finals);
  }

  /** A save first, then a safe reaction to it. */
  lemma SaveThen(c: Codec, cfg: Config, logs: Logs, hs: Histories, disk: Data, saved: Data, r: Reaction)
    requires hs.Keys == logs.Keys
    requires CompletedSettled(hs, saved.finals) && NoneLost(hs, disk.finals, saved.finals)
    requires ReactionSafe(c, cfg, logs, hs, saved, r)
    ensures ReactionSafe(c, cfg, logs, hs, disk, r.(effects := [Saves(saved)] + r.effects))
  {
    assert ([Saves(saved)] + r.effects)[1..] == r.effects;
  }

  /** A save of pruned memory is safe. */
  lemma SavedSafe(c: Codec, cfg: Config, logs: Logs, hs: Histories, disk: Data, data: Data, keep: Keep)
    requires CompletedSettled(hs, data.finals) && NoneLost(hs, disk.finals, data.finals)
    ensures CompletedSettled(hs, Pruned(data, keep).finals) && NoneLost(hs, disk.finals, Pruned(data, keep).finals)
  {
    PrunedHolds(hs, data, keep);
    NoneLostTrans(hs, disk.finals, data.finals, Pruned(data, keep).finals);
  }

  /** A partial is published, and then its seq is saved as processed. */
  lemma PartialSafe(c: Codec, cfg: Config, logs: Logs, hs: Histories, disk: Data, heard: Data, item: Item,
                    merged: Item, env: Env)
    requires Sound(c) && LogsOk(c, logs, hs)
    requires CompletedSettled(hs, heard.finals) && NoneLost(hs, disk.finals, heard.finals)
    ensures var published := PublishEffects(Done(merged, env.attempt));
            var saved := Pruned(MarkIn(heard, item.session, item.seqNo, env.now), env.first);
            forall status ::
              && ReactionSafe(c, cfg, logs, hs, disk, Reaction(heard, published, status))
              && ReactionSafe(c, cfg, logs, hs, disk, Reaction(saved, published + [Saves(saved)], status))
  {
    var ps := Done(merged, env.attempt);
    var later := PublishedAllHistory(c, cfg, logs, hs, ps);
    PublishedAllKeeps(c, cfg, logs, hs, ps);
    LaterHolds(hs, later, disk.finals, heard.finals);
    var saved := Pruned(MarkIn(heard, item.session, item.seqNo, env.now), env.first);
    SavedSafe(c, cfg, logs, later, disk, MarkIn(heard, item.session, item.seqNo, env.now), env.first);
    PublishFirst(c, cfg, logs, hs, disk.finals, ps, []);
    assert PublishEffects(ps) + [] == PublishEffects(ps);
    forall status
      ensures ReactionSafe(c, cfg, logs, hs, disk, Reaction(heard, PublishEffects(ps), status))
      ensures ReactionSafe(c, cfg, logs, hs, disk, Reaction(saved, PublishEffects(ps) + [Saves(saved)], status))
    {
      PublishThenSave(c, cfg, logs, hs, disk, ps, Reaction(saved, PublishEffects(ps) + [Saves(saved)], status));
    }
  }

  lemma AcceptedSafe(c: Codec, cfg: Config, logs: Logs, hs: Histories, disk: Data, data: Data, item: Item, env: Env)
    requires Sound(c) && LogsOk(c, logs, hs) && item.session in data.sessions
    requires CompletedSettled(hs, data.finals) && NoneLost(hs, disk.finals, data.finals)
    requires item.isFinal && FinalKey(item) in data.finals ==> data.finals[FinalKey(item)].completed
    ensures ReactionSafe(c, cfg, logs, hs, disk, Accepted(data, item, env))
  {
    if Merged(data, item, env).Some? {
      var merged, key := Merged(data, item, env).value, FinalKey(item);
      var heard := Heard(data, item, merged);
      if !item.isFinal {
        PartialSafe(c, cfg, logs, hs, disk, heard, item, merged, env);
      } else if key in heard.finals {
        CompleteSafe(c, cfg, logs, hs, disk, heard, key, item.session, env, env.second, Accept);
      } else {
        var noted := Noted(heard, item, merged, env.now);
        var saved := Pruned(noted, env.first);
        assert NoneLost(hs, disk.finals, noted.finals);
        SavedSafe(c, cfg, logs, hs, disk, noted, env.first);
        CompleteSafe(c, cfg, logs, hs, saved, saved, key, item.session, env, env.second, Accept);
        SaveThen(c, cfg, logs, hs, disk, saved, Complete(saved, key, item.session, env, env.second, Accept));
      }
    }
  }

  lemma SuppressedSafe(c: Codec, cfg: Config, logs: Logs, hs: Histories, disk: Data, data: Data, ps: seq<Publication>)
    requires Sound(c) && LogsOk(c, logs, hs)
    requires CompletedSettled(hs, data.finals) && NoneLost(hs, disk.finals, data.finals)
    ensures forall status :: ReactionSafe(c, cfg, logs, hs, disk, Reaction(data, [Saves(data)] + PublishEffects(ps), status))
  {
    PublishedAllKeeps(c, cfg, logs, hs, ps);
    LaterHolds(hs, PublishedAllHistory(c, cfg, logs, hs, ps), data.finals, data.finals);
    PublishFirst(c, cfg, logs, hs, data.finals, ps, []);
    assert PublishEffects(ps) + [] == PublishEffects(ps);
    forall status
      ensures ReactionSafe(c, cfg, logs, hs, disk, Reaction(data, [Saves(data)] + PublishEffects(ps), status))
    {
      SaveThen(c, cfg, logs, hs, disk, data, Reaction(data, PublishEffects(ps), status));
    }
  }

  lemma ResumedSafe(c: Codec, cfg: Config, logs: Logs, hs: Histories, disk: Data, data: Data, key: string, env: Env)
    requires Sound(c) && LogsOk(c, logs, hs)
    requires CompletedSettled(hs, data.finals) && NoneLost(hs, disk.finals, data.finals)
    ensures ReactionSafe(c, cfg, logs, hs, disk, Resumed(data, key, env))
  {
    if key in data.finals && !data.finals[key].completed {
      var record := data.finals[key];
      if SpeechPauses.PausesValid(record.item.text, record.item.pauses) {
        CompleteSafe(c, cfg, logs, hs, disk, WithSession(data, record.item.session, env.now), key,
                     record.item.session, env, env.first, Retry);
      } else {
        var saved := Pruned(Refused(data, key, env.now), env.first);
        UpdatedSaved(hs, disk.finals, data, key, record.(updatedAt := env.now), env.first);
        OnlySaved(c, cfg, logs, hs, disk, saved);
      }
    }
  }

  /** A save on its own. */
  lemma OnlySaved(c: Codec, cfg: Config, logs: Logs, hs: Histories, disk: Data, saved: Data)
    requires Sound(c) && LogsOk(c, logs, hs)
    requires CompletedSettled(hs, saved.finals) && NoneLost(hs, disk.finals, saved.finals)
    ensures forall status :: ReactionSafe(c, cfg, logs, hs, disk, Reaction(saved, [Saves(saved)], status))
  {
    SuppressedSafe(c, cfg, logs, hs, disk, saved, []);
    assert [Saves(saved)] + PublishEffects([]) == [Saves(saved)];
  }

  lemma DeliveredSafe(c: Codec, cfg: Config, logs: Logs, hs: Histories, disk: Data, data: Data, item: Item, env: Env)
    requires Sound(c) && LogsOk(c, logs, hs)
    requires CompletedSettled(hs, data.finals) && NoneLost(hs, disk.finals, data.finals)
    ensures ReactionSafe(c, cfg, logs, hs, disk, Delivered(data, item, env))
  {
    var known, key := WithSession(data, item.session, env.now), FinalKey(item);
    match VerdictOn(data, item, env)
    case Duplicate =>
    case StaleSeq =>
    case FinalImmutable =>
    case StaleRevision =>
    case Suppress(reason) =>
      var marked := MarkIn(known, item.session, item.seqNo, env.now);
      SavedSafe(c, cfg, logs, hs, disk, marked, env.first);
      SuppressedSafe(c, cfg, logs, hs, disk, Pruned(marked, env.first), Done(item, SuppressAttempt(env.attempt, reason)));
    case Retry => CompleteSafe(c, cfg, logs, hs, disk, known, key, item.session, env, env.first, Retry);
    case Accept => AcceptedSafe(c, cfg, logs, hs, disk, known, item, env);
  }

  /** Whatever a step does, a crash at any point of it finds each pending final on disk or its records in the streams. */
  lemma ReactSafe(c: Codec, cfg: Config, logs: Logs, hs: Histories, disk: Data, data: Data, act: Act, env: Env)
    requires Sound(c) && LogsOk(c, logs, hs)
    requires CompletedSettled(hs, data.finals) && NoneLost(hs, disk.finals, data.finals)
    ensures ReactionSafe(c, cfg, logs, hs, disk, React(data, act, env))
  {
    match act
    case Flush =>
      SavedSafe(c, cfg, logs, hs, disk, data, env.first);
      OnlySaved(c, cfg, logs, hs, disk, Pruned(data, env.first));
    case Resume(key) => ResumedSafe(c, cfg, logs, hs, disk, data, key, env);
    case Deliver(item) => DeliveredSafe(c, cfg, logs, hs, disk, data, item, env);
  }

  // ---------------------------------------------------------------- runs

  /** A step of the service: an act carried out; an act cut short after some effects, perhaps inside an
      append, and a restart from the files; or another writer's append. */
  datatype Step =
    | Does(act: Act, env: Env)
    | Crashes(act: Act, env: Env, after: nat, cut: CrashPoint, keep: Keep)
    | Others(publication: Publication)

  /** The publication a crash interrupts, if the next effect is one. */
  function Interrupted(r: Reaction, after: nat): Option<Publication> {
    if after < |r.effects| && r.effects[after].Publishes? then Some(r.effects[after].publication) else None
  }

  function Cut(r: Reaction, after: nat): seq<Effect> {
    if after <= |r.effects| then r.effects[..after] else r.effects
  }

  /** The stream whose append was interrupted, after recovery. */
  function CrashedLogs(c: Codec, cfg: Config, logs: Logs, p: Option<Publication>, at: CrashPoint): Logs {
    if p == None || p.value.stream !in logs then logs
    else
      var stream := p.value.stream;
      logs[stream := LogRuns.Step(c, cfg.(name := stream.Name()), logs[stream], LogRuns.DoCrash(p.value.event, at))]
  }

  function CrashedHistories(c: Codec, logs: Logs, hs: Histories, p: Option<Publication>, at: CrashPoint): Histories
    requires hs.Keys == logs.Keys
  {
    if p == None || p.value.stream !in logs then hs
    else
      var stream := p.value.stream;
      hs[stream := LogRuns.Recorded(c, logs[stream], hs[stream], LogRuns.DoCrash(p.value.event, at))]
  }

  /** Every stream reopened from its files. */
  function Reopened(c: Codec, logs: Logs): Logs {
    map stream | stream in logs :: Recovered(c, logs[stream].disk)
  }

  function Next(c: Codec, cfg: Config, w: World, step: Step): World {
    match step
    case Does(act, env) =>
      var r := React(w.data, act, env);
      World(r.data, DiskAfter(w.disk, r.effects), LogsAfter(c, cfg, w.logs, r.effects))
    case Crashes(act, env, after, cut, keep) =>
      var r := React(w.data, act, env);
      var disk := DiskAfter(w.disk, Cut(r, after));
      var logs := LogsAfter(c, cfg, w.logs, Cut(r, after));
      World(Pruned(disk, keep), disk, Reopened(c, CrashedLogs(c, cfg, logs, Interrupted(r, after), cut)))
    case Others(p) => World(w.data, w.disk, Published(c, cfg, w.logs, p))
  }

  function NextHistories(c: Codec, cfg: Config, w: World, hs: Histories, step: Step): (later: Histories)
    requires hs.Keys == w.logs.Keys
  {
    match step
    case Does(act, env) => HistoriesAfter(c, cfg, w.logs, hs, React(w.data, act, env).effects)
    case Crashes(act, env, after, cut, keep) =>
      var r := React(w.data, act, env);
      KeysAfter(c, cfg, w.logs, hs, Cut(r, after));
      CrashedHistories(c, LogsAfter(c, cfg, w.logs, Cut(r, after)),
                       HistoriesAfter(c, cfg, w.logs, hs, Cut(r, after)), Interrupted(r, after), cut)
    case Others(p) => PublishedHistory(w.logs, hs, p)
  }

  lemma {:induction false} KeysAfter(c: Codec, cfg: Config, logs: Logs, hs: Histories, effects: seq<Effect>)
    requires hs.Keys == logs.Keys
    ensures LogsAfter(c, cfg, logs, effects).Keys == logs.Keys
    decreases |effects|
  {
    if effects != [] {
      match effects[0]
      case Saves(data) => KeysAfter(c, cfg, logs, hs, effects[1..]);
      case Publishes(p) =>
        KeysAfter(c, cfg, Published(c, cfg, logs, p), PublishedHistory(logs, hs, p), effects[1..]);
    }
  }

  /** No crash leaves a whole record without its newline. */
  predicate StepAllowed(c: Codec, cfg: Config, w: World, step: Step) {
    step.Crashes? ==>
      var r := React(w.data, step.act, step.env);
      var p, logs := Interrupted(r, step.after), LogsAfter(c, cfg, w.logs, Cut(r, step.after));
      p.Some? && p.value.stream in logs ==>
        LogRuns.Allowed(c, logs[p.value.stream], LogRuns.DoCrash(p.value.event, step.cut))
  }

  ghost predicate WorldOk(c: Codec, w: World, hs: Histories) {
    && LogsOk(c, w.logs, hs)
    && CompletedSettled(hs, w.data.finals)
    && CompletedSettled(hs, w.disk.finals)
    && NoneLost(hs, w.disk.finals, w.data.finals)
  }

  lemma ReopenedSame(c: Codec, logs: Logs, hs: Histories)
    requires LogsOk(c, logs, hs)
    ensures Reopened(c, logs) == logs
  {
    forall stream | stream in logs
      ensures Recovered(c, logs[stream].disk) == logs[stream]
    {
      StreamGood(c, logs, hs, stream);
      RestartRestores(c, logs[stream], hs[stream]);
    }
  }

  lemma CrashGood(c: Codec, cfg: Config, s: State, h: seq<Event>, op: LogRuns.Op)
    requires Sound(c) && Inv(c, s, h) && LogRuns.Allowed(c, s, op)
    ensures Good(c)(LogRuns.Step(c, cfg, s, op), LogRuns.Recorded(c, s, h, op)) && h <= LogRuns.Recorded(c, s, h, op)
  {
    LogRuns.StepKeeps(c, cfg, s, h, op);
  }

  lemma CrashedLogsOk(c: Codec, cfg: Config, logs: Logs, hs: Histories, p: Option<Publication>, at: CrashPoint)
    requires Sound(c) && LogsOk(c, logs, hs)
    requires p.Some? && p.value.stream in logs ==>
               LogRuns.Allowed(c, logs[p.value.stream], LogRuns.DoCrash(p.value.event, at))
    ensures LogsOk(c, CrashedLogs(c, cfg, logs, p, at), CrashedHistories(c, logs, hs, p, at))
    ensures Extends(hs, CrashedHistories(c, logs, hs, p, at))
  {
    if p.Some? && p.value.stream in logs {
      var stream, op := p.value.stream, LogRuns.DoCrash(p.value.event, at);
      StreamGood(c, logs, hs, stream);
      CrashGood(c, cfg.(name := stream.Name()), logs[stream], hs[stream], op);
      LogsUpdated(c, logs, hs, stream, LogRuns.Step(c, cfg.(name := stream.Name()), logs[stream], op),
                  LogRuns.Recorded(c, logs[stream], hs[stream], op));
      HistoryExtended(hs, stream, LogRuns.Recorded(c, logs[stream], hs[stream], op));
    }
  }

  /** What one step guarantees: good streams, nothing completed that is not settled, nothing pending lost. */
  ghost predicate StepSafe(c: Codec, cfg: Config, w: World, hs: Histories, step: Step)
    requires hs.Keys == w.logs.Keys
  {
    var next, later := Next(c, cfg, w, step), NextHistories(c, cfg, w, hs, step);
    WorldOk(c, next, later) && Extends(hs, later) && NoneLost(later, w.disk.finals, next.disk.finals)
  }

  lemma DoesSafe(c: Codec, cfg: Config, w: World, hs: Histories, act: Act, env: Env)
    requires Sound(c) && WorldOk(c, w, hs)
    ensures StepSafe(c, cfg, w, hs, Does(act, env))
  {
    var r := React(w.data, act, env);
    ReactSafe(c, cfg, w.logs, hs, w.disk, w.data, act, env);
    StoppedSafely(c, cfg, w.logs, hs, w.disk, r.effects, |r.effects|);
    assert r.effects[..|r.effects|] == r.effects;
  }

  lemma CrashesSafe(c: Codec, cfg: Config, w: World, hs: Histories, step: Step)
    requires Sound(c) && WorldOk(c, w, hs) && step.Crashes? && StepAllowed(c, cfg, w, step)
    ensures StepSafe(c, cfg, w, hs, step)
  {
    var r := React(w.data, step.act, step.env);
    var done := Cut(r, step.after);
    var disk, logs := DiskAfter(w.disk, done), LogsAfter(c, cfg, w.logs, done);
    var mid := HistoriesAfter(c, cfg, w.logs, hs, done);
    ReactSafe(c, cfg, w.logs, hs, w.disk, w.data, step.act, step.env);
    StoppedSafely(c, cfg, w.logs, hs, w.disk, r.effects, |done|);
    assert r.effects[..|done|] == done;
    var p := Interrupted(r, step.after);
    var later := CrashedHistories(c, logs, mid, p, step.cut);
    CrashedLogsOk(c, cfg, logs, mid, p, step.cut);
    ReopenedSame(c, CrashedLogs(c, cfg, logs, p, step.cut), later);
    LaterHolds(mid, later, w.disk.finals, disk.finals);
    ExtendsTrans(hs, mid, later);
    PrunedHolds(later, disk, step.keep);
  }

  lemma OthersSafe(c: Codec, cfg: Config, w: World, hs: Histories, p: Publication)
    requires Sound(c) && WorldOk(c, w, hs)
    ensures StepSafe(c, cfg, w, hs, Others(p))
  {
    PublishedOk(c, cfg, w.logs, hs, p);
    PublishedRecords(c, w.logs, hs, p);
    var later := PublishedHistory(w.logs, hs, p);
    LaterHolds(hs, later, w.disk.finals, w.data.finals);
    LaterHolds(hs, later, w.disk.finals, w.disk.finals);
  }

  function Run(c: Codec, cfg: Config, w: World, steps: seq<Step>): World
    decreases |steps|
  {
    if steps == [] then w else Run(c, cfg, Next(c, cfg, w, steps[0]), steps[1..])
  }

  ghost predicate RunAllowed(c: Codec, cfg: Config, w: World, steps: seq<Step>)
    decreases |steps|
  {
    steps != [] ==> StepAllowed(c, cfg, w, steps[0]) && RunAllowed(c, cfg, Next(c, cfg, w, steps[0]), steps[1..])
  }

  /** In each stream no two records still held have the same key. */
  ghost predicate HeldOnce(c: Codec, logs: Logs) {
    forall stream | stream in logs :: StreamHeldOnce(c, logs[stream])
  }

  ghost predicate StreamHeldOnce(c: Codec, s: State) {
    KeysUnique(Retained(c, s))
  }

  lemma LogsHeldOnce(c: Codec, logs: Logs, hs: Histories)
    requires LogsOk(c, logs, hs)
    ensures HeldOnce(c, logs)
  {
    forall stream | stream in logs
      ensures StreamHeldOnce(c, logs[stream])
    {
      StreamGood(c, logs, hs, stream);
      RetainedKeysUnique(c, logs[stream], hs[stream]);
    }
  }

  /** End to end, over every run: whatever was pending on disk is still pending with the same item or is in
      the log; whatever is completed is in the log or suppressed by policy; and in no stream does a key have
      two records. */
  lemma {:induction false} ExactlyOnce(c: Codec, cfg: Config, w: World, hs: Histories, steps: seq<Step>)
    returns (later: Histories)
    requires Sound(c) && WorldOk(c, w, hs) && RunAllowed(c, cfg, w, steps)
    ensures WorldOk(c, Run(c, cfg, w, steps), later) && Extends(hs, later)
    ensures NoneLost(later, w.disk.finals, Run(c, cfg, w, steps).disk.finals)
    ensures HeldOnce(c, Run(c, cfg, w, steps).logs)
    decreases |steps|
  {
    if steps == [] {
      later := hs;
      LogsHeldOnce(c, w.logs, hs);
    } else {
      match steps[0] {
        case Does(act, env) => DoesSafe(c, cfg, w, hs, act, env);
        case Crashes(act, env, after, cut, keep) => CrashesSafe(c, cfg, w, hs, steps[0]);
        case Others(p) => OthersSafe(c, cfg, w, hs, p);
      }
      var next, mid := Next(c, cfg, w, steps[0]), NextHistories(c, cfg, w, hs, steps[0]);
      later := ExactlyOnce(c, cfg, next, mid, steps[1..]);
      LaterHolds(mid, later, w.disk.finals, next.disk.finals);
      NoneLostTrans(later, w.disk.finals, next.disk.finals, Run(c, cfg, w, steps).disk.finals);
      ExtendsTrans(hs, mid, later);
    }
  }

  /** The condition on crashes is the exact one: after a crash inside the append of a keyed record, in any good world,
      no key has two records once that append is made again, exactly when the crash did not leave the whole record
      without its newline. */
  lemma HeldOnceIffAllowed(c: Codec, cfg: Config, w: World, hs: Histories, step: Step, p: Publication)
    requires Sound(c) && WorldOk(c, w, hs) && step.Crashes?
    requires Interrupted(React(w.data, step.act, step.env), step.after) == Some(p)
    requires p.stream in w.logs && p.event.key != ""
    ensures p.stream in Next(c, cfg, w, step).logs
    ensures StreamHeldOnce(c, Retried(c, Next(c, cfg, w, step).logs[p.stream], p.event)) <==> StepAllowed(c, cfg, w, step)
  {
    var r := React(w.data, step.act, step.env);
    var done := Cut(r, step.after);
    var logs, mid := LogsAfter(c, cfg, w.logs, done), HistoriesAfter(c, cfg, w.logs, hs, done);
    ReactSafe(c, cfg, w.logs, hs, w.disk, w.data, step.act, step.env);
    StoppedSafely(c, cfg, w.logs, hs, w.disk, r.effects, |done|);
    assert r.effects[..|done|] == done;
    KeysAfter(c, cfg, w.logs, hs, done);
    StreamGood(c, logs, mid, p.stream);
    CrashedStream(c, cfg.(name := p.stream.Name()), logs[p.stream], mid[p.stream], p.event, step.cut);
    assert Next(c, cfg, w, step).logs[p.stream]
        == Recovered(c, LogRuns.Step(c, cfg.(name := p.stream.Name()), logs[p.stream], LogRuns.DoCrash(p.event, step.cut)).disk);
  }

  /** A stream reopened after a crash inside an append, and the append made again. */
  lemma CrashedStream(c: Codec, cfg: Config, s: State, h: seq<Event>, e: Event, at: CrashPoint)
    requires Sound(c) && Inv(c, s, h) && e.key != ""
    ensures var t := LogRuns.Step(c, cfg, s, LogRuns.DoCrash(e, at));
            && Recovered(c, t.disk) == t
            && (StreamHeldOnce(c, Retried(c, t, e)) <==> LogRuns.Allowed(c, s, LogRuns.DoCrash(e, at)))
  {
    var op := LogRuns.DoCrash(e, at);
    var t, later := LogRuns.Step(c, cfg, s, op), LogRuns.Recorded(c, s, h, op);
    if LogRuns.Allowed(c, s, op) {
      LogRuns.StepKeeps(c, cfg, s, h, op);
      RestartRestores(c, t, later);
      RetriedKeysUnique(c, t, later, e);
    } else {
      WholeTailRecovered(c, s, h, e);
      RepeatsKeyIffWholeTail(c, s, h, e, at.bytes, e);
    }
  }

  /** A service that has just been set up. */
  function FreshWorld(): World {
    World(Data(map[], map[]), Data(map[], map[]),
          map[Transcripts := LogRuns.FRESH, Audio := LogRuns.FRESH, Tts := LogRuns.FRESH, Audit := LogRuns.FRESH])
  }

  lemma FreshWorldOk(c: Codec)
    ensures WorldOk(c, FreshWorld(), map[Transcripts := [], Audio := [], Tts := [], Audit := []])
  {
    var logs: Logs := FreshWorld().logs;
    var hs: Histories := map[Transcripts := [], Audio := [], Tts := [], Audit := []];
    LogRuns.FreshIsGood(c);
    assert Good(c)(LogRuns.FRESH, []);
    forall stream
      ensures EachAt(Good(c), logs, hs, stream)
    {
    }
  }
}
