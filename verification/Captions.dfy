// Caption delivery (src/ws_collab/captioner.py, `BrowserCaptioner`): what one delivered item does to
// the sessions, to the durable finalizations and to the log.
module Captions {
  import opened Sequences
  import opened Publication
  import opened SpeechPauses

  const MAX_SESSIONS: nat := 128
  const MAX_PROCESSED: nat := 2048
  const MAX_UTTERANCES: nat := 1024
  const MAX_COMPLETED: nat := 2048
  const RETENTION_SECONDS: nat := 7 * 24 * 3600

  datatype Utterance = Utterance(id: string, revision: nat, final: bool, text: string, pauses: seq<Pause>)

  /** `processed` holds the greatest processed seqs in ascending order; `utterances` is in order of arrival. */
  datatype Session = Session(processed: seq<nat>, highest: nat, utterances: seq<Utterance>, lastSeen: int)

  /** A durable finalization record. */
  datatype Final = Final(item: Item, completed: bool, attempts: nat, updatedAt: int)

  type Finals = map<string, Final>

  /** What is kept in memory, and what the state file holds. */
  datatype Data = Data(sessions: map<string, Session>, finals: Finals)

  // ---------------------------------------------------------------- sessions

  function NewSession(now: int): Session {
    Session([], 0, [], now)
  }

  /** Adds a seq to an ascending list. */
  function Insert(xs: seq<nat>, x: nat): seq<nat> {
    if xs == [] || xs[|xs| - 1] < x then xs + [x]
    else if xs[|xs| - 1] == x then xs
    else Insert(xs[..|xs| - 1], x) + [xs[|xs| - 1]]
  }

  /** The seq is processed: it enters the window, and may push the smallest out. */
  function Marked(session: Session, seqNo: nat, now: int): Session {
    session.(processed := LastN(Insert(session.processed, seqNo), MAX_PROCESSED),
             highest := Max(session.highest, seqNo), lastSeen := now)
  }

  function Find(us: seq<Utterance>, id: string): Option<Utterance> {
    if us == [] then None else if us[0].id == id then Some(us[0]) else Find(us[1..], id)
  }

  /** The utterance takes the place of the one with its id, or comes last. */
  function Put(us: seq<Utterance>, u: Utterance): seq<Utterance> {
    if us == [] then [u] else if us[0].id == u.id then [u] + us[1..] else [us[0]] + Put(us[1..], u)
  }

  function Spoken(session: Session, u: Utterance): Session {
    session.(utterances := Put(session.utterances, u))
  }

  /** The bounded windows of a kept session. */
  function Trimmed(session: Session): Session {
    session.(processed := LastN(session.processed, MAX_PROCESSED),
             utterances := LastN(session.utterances, MAX_UTTERANCES))
  }

  datatype Verdict = Duplicate | Suppress(reason: string) | Retry | StaleSeq | FinalImmutable | StaleRevision | Accept

  /** What `ingest` decides about an item: in this order. */
  function Judge(session: Session, item: Item, suppression: Option<string>, pending: bool): Verdict {
    var current := Find(session.utterances, item.utterance);
    if item.seqNo in session.processed then Duplicate
    else if suppression.Some? then Suppress(suppression.value)
    else if pending then Retry
    else if item.seqNo < session.highest then StaleSeq
    else if current.Some? && current.value.final then FinalImmutable
    else if current.Some? && item.revision <= current.value.revision then StaleRevision
    else Accept
  }

  // ---------------------------------------------------------------- retention of the state

  /** Which sessions and which completed finalizations a save keeps. */
  datatype Keep = Keep(sessions: set<string>, completed: set<string>)

  /** `_prune`, given its choice: every pending finalization stays. */
  function Pruned(data: Data, keep: Keep): Data {
    Data(map id | id in data.sessions && id in keep.sessions :: Trimmed(data.sessions[id]),
         map key | key in data.finals && (!data.finals[key].completed || key in keep.completed) :: data.finals[key])
  }

  /** The `cap` most recent of the listed names, ties broken either way. */
  ghost predicate Newest(seen: map<string, int>, cap: nat, kept: set<string>) {
    && kept <= seen.Keys
    && |kept| <= cap
    && (|kept| < cap ==> kept == seen.Keys)
    && (forall a, b | a in kept && b in seen && b !in kept :: seen[a] >= seen[b])
  }

  /** When each session still fresh was last seen. */
  function FreshSessions(data: Data, now: int): map<string, int> {
    map id | id in data.sessions && data.sessions[id].lastSeen >= now - RETENTION_SECONDS :: data.sessions[id].lastSeen
  }

  /** When each completed finalization was last updated. */
  function CompletedTimes(data: Data): map<string, int> {
    map key | key in data.finals && data.finals[key].completed :: data.finals[key].updatedAt
  }

  /** What `_prune` may keep. */
  ghost predicate KeepAllowed(data: Data, now: int, keep: Keep) {
    && Newest(FreshSessions(data, now), MAX_SESSIONS, keep.sessions)
    && Newest(CompletedTimes(data), MAX_COMPLETED, keep.completed)
  }

  // ---------------------------------------------------------------- one item

  /** What happens on disk, in order: the state file is replaced, or a record is published. */
  datatype Effect = Saves(data: Data) | Publishes(publication: Publication)

  datatype Status =
    | Acknowledged(verdict: Verdict, suppressed: Option<string>)
    | TooManyPauses
    | Unpublished

  datatype Reaction = Reaction(data: Data, effects: seq<Effect>, status: Status)

  /** The surroundings of one delivery: the clock, the policy, how publishing goes, and what the (at most
      two) saves keep. */
  datatype Env = Env(now: int, suppression: Option<string>, attempt: Attempt, unicode: Unicode, first: Keep, second: Keep)

  datatype Act = Deliver(item: Item) | Resume(key: string) | Flush

  function PublishEffects(ps: seq<Publication>): seq<Effect> {
    seq(|ps|, i requires 0 <= i < |ps| => Publishes(ps[i]))
  }

  function WithSession(data: Data, id: string, now: int): Data {
    if id in data.sessions then data else data.(sessions := data.sessions[id := NewSession(now)])
  }

  /** A session the last save dropped is no longer there to be marked. */
  function MarkIn(data: Data, id: string, seqNo: nat, now: int): Data {
    if id in data.sessions then data.(sessions := data.sessions[id := Marked(data.sessions[id], seqNo, now)]) else data
  }

  /** A finalization after an attempt: completed, and its seq marked; or with one more failed attempt. */
  function Finished(data: Data, key: string, sessionId: string, env: Env): Data
    requires key in data.finals
  {
    var record := data.finals[key];
    if !Succeeds(record.item, env.attempt) then
      data.(finals := data.finals[key := record.(attempts := record.attempts + 1, updatedAt := env.now)])
    else
      var marked := MarkIn(data, sessionId, record.item.seqNo, env.now);
      marked.(finals := marked.finals[key := record.(completed := true, updatedAt := env.now)])
  }

  /** `_complete_finalization`: publish, then save success or one more failed attempt. */
  function Complete(data: Data, key: string, sessionId: string, env: Env, keep: Keep, verdict: Verdict): Reaction
    requires key in data.finals
  {
    var item := data.finals[key].item;
    var saved := Pruned(Finished(data, key, sessionId, env), keep);
    Reaction(saved, PublishEffects(Done(item, env.attempt)) + [Saves(saved)],
             if Succeeds(item, env.attempt) then Acknowledged(verdict, env.attempt.suppress) else Unpublished)
  }

  function SuppressAttempt(attempt: Attempt, reason: string): Attempt {
    attempt.(suppress := Some(reason))
  }

  /** What the delivered item is merged into; None if it would have too many silences. */
  function Merged(d: Data, item: Item, env: Env): Option<Item>
    requires item.session in d.sessions
  {
    var preserved := match Find(d.sessions[item.session].utterances, item.utterance)
                     case None => Preserved(env.unicode, [], "", item)
                     case Some(u) => Preserved(env.unicode, u.pauses, u.text, item);
    match preserved
    case None => None
    case Some(pauses) => Some(item.(pauses := pauses))
  }

  function SaidAs(item: Item): Utterance {
    Utterance(item.utterance, item.revision, item.isFinal, item.text, item.pauses)
  }

  function Heard(d: Data, item: Item, merged: Item): Data
    requires item.session in d.sessions
  {
    d.(sessions := d.sessions[item.session := Spoken(d.sessions[item.session], SaidAs(merged))])
  }

  /** A new final is noted as pending. */
  function Noted(heard: Data, item: Item, merged: Item, now: int): Data
    requires item.session in heard.sessions
  {
    Data(heard.sessions[item.session := heard.sessions[item.session].(lastSeen := now)],
         heard.finals[FinalKey(item) := Final(merged, false, 0, now)])
  }

  /** An accepted partial is published, and then its seq is saved as processed. */
  function PartialDone(heard: Data, item: Item, merged: Item, env: Env): Reaction {
    var published := PublishEffects(Done(merged, env.attempt));
    if !Succeeds(merged, env.attempt) then Reaction(heard, published, Unpublished)
    else
      var saved := Pruned(MarkIn(heard, item.session, item.seqNo, env.now), env.first);
      Reaction(saved, published + [Saves(saved)], Acknowledged(Accept, env.attempt.suppress))
  }

  /** An accepted final is saved as pending before it is published. */
  function FinalDone(heard: Data, item: Item, merged: Item, env: Env): Reaction
    requires item.session in heard.sessions
  {
    var key := FinalKey(item);
    if key in heard.finals then Complete(heard, key, item.session, env, env.second, Accept)
    else
      var saved := Pruned(Noted(heard, item, merged, env.now), env.first);
      var rest := Complete(saved, key, item.session, env, env.second, Accept);
      rest.(effects := [Saves(saved)] + rest.effects)
  }

  function Accepted(data: Data, item: Item, env: Env): Reaction
    requires item.session in data.sessions
  {
    match Merged(data, item, env)
    case None => Reaction(data, [], TooManyPauses)
    case Some(merged) =>
      var heard := Heard(data, item, merged);
      if item.isFinal then FinalDone(heard, item, merged, env) else PartialDone(heard, item, merged, env)
  }

  /** The session as a delivery finds it, perhaps new. */
  function Before(d: Data, id: string, now: int): Session {
    WithSession(d, id, now).sessions[id]
  }

  /** What `ingest` decides about an item. */
  function VerdictOn(d: Data, item: Item, env: Env): Verdict {
    var key := FinalKey(item);
    Judge(Before(d, item.session, env.now), item, env.suppression,
          item.isFinal && key in d.finals && !d.finals[key].completed)
  }

  function Delivered(before: Data, item: Item, env: Env): Reaction {
    var data, verdict := WithSession(before, item.session, env.now), VerdictOn(before, item, env);
    match verdict
    case Duplicate => Reaction(data, [], Acknowledged(Duplicate, None))
    case StaleSeq => Reaction(data, [], Acknowledged(StaleSeq, None))
    case FinalImmutable => Reaction(data, [], Acknowledged(FinalImmutable, None))
    case StaleRevision => Reaction(data, [], Acknowledged(StaleRevision, None))
    case Suppress(reason) =>
      var saved := Pruned(MarkIn(data, item.session, item.seqNo, env.now), env.first);
      Reaction(saved, [Saves(saved)] + PublishEffects(Done(item, SuppressAttempt(env.attempt, reason))),
               Acknowledged(verdict, Some(reason)))
    case Retry => Complete(data, FinalKey(item), item.session, env, env.first, Retry)
    case Accept => Accepted(data, item, env)
  }

  /** The state of a pending final that no longer validates is only touched. */
  function Refused(data: Data, key: string, now: int): Data
    requires key in data.finals
  {
    data.(finals := data.finals[key := data.finals[key].(updatedAt := now)])
  }

  /** One step of `recover_pending`; an item that no longer validates stays pending. */
  function Resumed(data: Data, key: string, env: Env): Reaction {
    if key !in data.finals || data.finals[key].completed then Reaction(data, [], Unpublished)
    else
      var item := data.finals[key].item;
      if !PausesValid(item.text, item.pauses) then
        var saved := Pruned(Refused(data, key, env.now), env.first);
        Reaction(saved, [Saves(saved)], Unpublished)
      else Complete(WithSession(data, item.session, env.now), key, item.session, env, env.first, Retry)
  }

  function React(data: Data, act: Act, env: Env): Reaction {
    match act
    case Deliver(item) => Delivered(data, item, env)
    case Resume(key) => Resumed(data, key, env)
    case Flush => var saved := Pruned(data, env.first); Reaction(saved, [Saves(saved)], Unpublished)
  }

  // ---------------------------------------------------------------- what the saves of a step may keep

  ghost predicate CompleteAllowed(data: Data, key: string, sessionId: string, env: Env, keep: Keep)
    requires key in data.finals
  {
    KeepAllowed(Finished(data, key, sessionId, env), env.now, keep)
  }

  ghost predicate PartialAllowed(heard: Data, item: Item, merged: Item, env: Env) {
    Succeeds(merged, env.attempt) ==> KeepAllowed(MarkIn(heard, item.session, item.seqNo, env.now), env.now, env.first)
  }

  ghost predicate FinalAllowed(heard: Data, item: Item, merged: Item, env: Env)
    requires item.session in heard.sessions
  {
    var key := FinalKey(item);
    if key in heard.finals then CompleteAllowed(heard, key, item.session, env, env.second)
    else
      var noted := Noted(heard, item, merged, env.now);
      && KeepAllowed(noted, env.now, env.first)
      && CompleteAllowed(Pruned(noted, env.first), key, item.session, env, env.second)
  }

  ghost predicate AcceptedAllowed(data: Data, item: Item, env: Env)
    requires item.session in data.sessions
  {
    match Merged(data, item, env)
    case None => true
    case Some(merged) =>
      var heard := Heard(data, item, merged);
      if item.isFinal then FinalAllowed(heard, item, merged, env) else PartialAllowed(heard, item, merged, env)
  }

  ghost predicate DeliveredAllowed(before: Data, item: Item, env: Env) {
    var data := WithSession(before, item.session, env.now);
    match VerdictOn(before, item, env)
    case Suppress(reason) => KeepAllowed(MarkIn(data, item.session, item.seqNo, env.now), env.now, env.first)
    case Retry => CompleteAllowed(data, FinalKey(item), item.session, env, env.first)
    case Accept => AcceptedAllowed(data, item, env)
    case _ => true
  }

  ghost predicate ResumedAllowed(data: Data, key: string, env: Env) {
    key in data.finals && !data.finals[key].completed ==>
      var item := data.finals[key].item;
      if !PausesValid(item.text, item.pauses) then KeepAllowed(Refused(data, key, env.now), env.now, env.first)
      else CompleteAllowed(WithSession(data, item.session, env.now), key, item.session, env, env.first)
  }

  /** Each save of the step keeps what `_prune` may keep of the state it finds. */
  ghost predicate ActAllowed(data: Data, act: Act, env: Env) {
    match act
    case Deliver(item) => DeliveredAllowed(data, item, env)
    case Resume(key) => ResumedAllowed(data, key, env)
    case Flush => KeepAllowed(data, env.now, env.first)
  }
}
