// Batches of captions (src/ws_collab/captioner.py, `ingest`): a batch is a run of deliveries, and which of its
// sessions the saves along it leave to be acknowledged.
module CaptionBatches {
  import opened Sequences
  import opened EventLog
  import opened Publication
  import opened Captions
  import opened CaptionRuns

  const MAX_BATCH_ITEMS: nat := 50

  // ---------------------------------------------------------------- batches are runs

  /** Whether a result calls for a save at the end of the batch. */
  predicate Touches(status: Status) {
    status.Acknowledged? && (status.verdict.Accept? || status.verdict.Retry? || status.verdict.Suppress?)
  }

  /** The i-th step of a run is the delivery of the i-th item, with this result. */
  ghost predicate DeliversAt(c: Codec, cfg: Config, w: World, items: seq<Item>, results: seq<Status>,
                             steps: seq<Step>, i: nat)
    requires i < |results| <= |items| && |results| <= |steps|
  {
    && steps[i].Does? && steps[i].act == Deliver(items[i])
    && results[i] == React(Run(c, cfg, w, steps[..i]).data, steps[i].act, steps[i].env).status
  }

  ghost predicate DeliversAll(c: Codec, cfg: Config, w: World, items: seq<Item>, results: seq<Status>,
                              steps: seq<Step>) {
    && |results| <= |items| && |results| <= |steps|
    && forall i | 0 <= i < |results| :: DeliversAt(c, cfg, w, items, results, steps, i)
  }

  predicate AnyTouches(results: seq<Status>) {
    results != [] && (Touches(results[|results| - 1]) || AnyTouches(results[..|results| - 1]))
  }

  predicate EndsBadly(results: seq<Status>) {
    results != [] && !results[|results| - 1].Acknowledged?
  }

  /** A batch is a run: one delivery after the other, up to the first that fails; and then a save, if any of them was
      taken up. */
  ghost predicate IsBatch(c: Codec, cfg: Config, w: World, items: seq<Item>, results: seq<Status>, steps: seq<Step>) {
    && DeliversAll(c, cfg, w, items, results, steps)
    && (forall i | 0 <= i < |results| - 1 :: results[i].Acknowledged?)
    && (|results| < |items| ==> EndsBadly(results))
    && (if !EndsBadly(results) && AnyTouches(results) then
          |steps| == |results| + 1 && steps[|results|].Does? && steps[|results|].act.Flush?
        else |steps| == |results|)
  }

  lemma {:induction false} RunMore(c: Codec, cfg: Config, w: World, steps: seq<Step>, step: Step)
    ensures Run(c, cfg, w, steps + [step]) == Next(c, cfg, Run(c, cfg, w, steps), step)
    decreases |steps|
  {
    if steps == [] {
      assert ([] + [step])[1..] == [];
    } else {
      assert (steps + [step])[1..] == steps[1..] + [step];
      RunMore(c, cfg, Next(c, cfg, w, steps[0]), steps[1..], step);
    }
  }

  lemma {:induction false} DeliversMore(c: Codec, cfg: Config, w: World, items: seq<Item>, results: seq<Status>,
                                        steps: seq<Step>, env: Env)
    requires DeliversAll(c, cfg, w, items, results, steps) && |results| == |steps| < |items|
    ensures var step := Does(Deliver(items[|results|]), env);
            var status := React(Run(c, cfg, w, steps).data, step.act, env).status;
            DeliversAll(c, cfg, w, items, results + [status], steps + [step])
  {
    var n, step := |results|, Does(Deliver(items[|results|]), env);
    var more := results + [React(Run(c, cfg, w, steps).data, step.act, env).status];
    forall i | 0 <= i <= n
      ensures DeliversAt(c, cfg, w, items, more, steps + [step], i)
    {
      assert (steps + [step])[..i] == steps[..i];
      if i < n {
        assert DeliversAt(c, cfg, w, items, results, steps, i);
      } else {
        assert steps[..n] == steps;
      }
    }
  }

  lemma FlushedMore(c: Codec, cfg: Config, w: World, items: seq<Item>, results: seq<Status>, steps: seq<Step>,
                    step: Step)
    requires DeliversAll(c, cfg, w, items, results, steps)
    ensures DeliversAll(c, cfg, w, items, results, steps + [step])
  {
    forall i | 0 <= i < |results|
      ensures DeliversAt(c, cfg, w, items, results, steps + [step], i)
    {
      assert (steps + [step])[..i] == steps[..i];
      assert DeliversAt(c, cfg, w, items, results, steps, i);
    }
  }

  /** Each save along the run keeps what `_prune` may keep of the state it finds. */
  ghost predicate StepsAllowed(c: Codec, cfg: Config, w: World, steps: seq<Step>) {
    forall i | 0 <= i < |steps| :: StepAllowedAt(c, cfg, w, steps, i)
  }

  ghost predicate StepAllowedAt(c: Codec, cfg: Config, w: World, steps: seq<Step>, i: nat)
    requires i < |steps|
  {
    steps[i].Does? ==> ActAllowed(Run(c, cfg, w, steps[..i]).data, steps[i].act, steps[i].env)
  }

  lemma {:induction false} MoreAllowed(c: Codec, cfg: Config, w: World, steps: seq<Step>, step: Step)
    requires StepsAllowed(c, cfg, w, steps)
    requires step.Does? ==> ActAllowed(Run(c, cfg, w, steps).data, step.act, step.env)
    ensures StepsAllowed(c, cfg, w, steps + [step])
  {
    var more := steps + [step];
    forall i | 0 <= i < |more|
      ensures StepAllowedAt(c, cfg, w, more, i)
    {
      if i < |steps| {
        assert more[..i] == steps[..i];
        assert StepAllowedAt(c, cfg, w, steps, i);
      } else {
        assert more[..i] == steps;
      }
    }
  }

  // ---------------------------------------------------------------- what one save keeps

  lemma {:induction false} NoLarger<T>(a: set<T>, b: set<T>)
    requires a <= b
    ensures |a| <= |b|
  {
    if a != {} {
      var x :| x in a;
      NoLarger(a - {x}, b - {x});
    }
  }

  /** The names seen later than this one. */
  function LaterThan(seen: map<string, int>, id: string): set<string>
    requires id in seen
  {
    set other | other in seen && seen[other] > seen[id]
  }

  /** A name that as many as there is room for are seen later than is not kept. */
  lemma DroppedIfMany(seen: map<string, int>, cap: nat, kept: set<string>, id: string)
    requires Newest(seen, cap, kept) && id in seen && |LaterThan(seen, id)| >= cap
    ensures id !in kept
  {
    if id in kept {
      assert LaterThan(seen, id) <= kept - {id};
      NoLarger(LaterThan(seen, id), kept - {id});
    }
  }

  /** A name is kept if there is room for all that may be preferred to it. */
  lemma KeptIfFew(seen: map<string, int>, cap: nat, kept: set<string>, id: string, preferred: set<string>)
    requires Newest(seen, cap, kept) && id in seen && |preferred| < cap
    requires forall other | other in seen && other != id && seen[other] >= seen[id] :: other in preferred
    ensures id in kept
  {
    if id !in kept {
      assert kept <= preferred;
      NoLarger(kept, preferred);
    }
  }

  function Times(d: Data): map<string, int> {
    map id | id in d.sessions :: d.sessions[id].lastSeen
  }

  function Fresh(seen: map<string, int>, now: int): map<string, int> {
    map id | id in seen && seen[id] >= now - RETENTION_SECONDS :: seen[id]
  }

  /** What a save may leave of the sessions, by when they were seen. */
  ghost predicate SavedTo(seen: map<string, int>, now: int, later: map<string, int>) {
    && Newest(Fresh(seen, now), MAX_SESSIONS, later.Keys)
    && forall id | id in later :: id in seen && later[id] == seen[id]
  }

  lemma PrunedTimes(d: Data, now: int, keep: Keep)
    requires KeepAllowed(d, now, keep)
    ensures SavedTo(Times(d), now, Times(Pruned(d, keep)))
  {
    assert Fresh(Times(d), now) == FreshSessions(d, now);
    assert Times(Pruned(d, keep)).Keys == keep.sessions;
  }

  /** With distinct times a save keeps a session exactly when it is not too old and fewer than 128 that are not too old
      were seen later. */
  lemma KeptIff(d: Data, now: int, keep: Keep, id: string)
    requires KeepAllowed(d, now, keep) && id in d.sessions
    requires forall other | other in d.sessions && other != id :: d.sessions[other].lastSeen != d.sessions[id].lastSeen
    ensures id in Pruned(d, keep).sessions
       <==> d.sessions[id].lastSeen >= now - RETENTION_SECONDS && |LaterThan(Times(d), id)| < MAX_SESSIONS
  {
    var recent := FreshSessions(d, now);
    if id in recent {
      assert LaterThan(recent, id) == LaterThan(Times(d), id);
      if |LaterThan(recent, id)| < MAX_SESSIONS {
        KeptIfFew(recent, MAX_SESSIONS, keep.sessions, id, LaterThan(recent, id));
      } else {
        DroppedIfMany(recent, MAX_SESSIONS, keep.sessions, id);
      }
    }
  }

  /** A second save at the same time changes nothing. */
  lemma SavedAgain(seen: map<string, int>, now: int, mid: map<string, int>, later: map<string, int>)
    requires SavedTo(seen, now, mid) && SavedTo(mid, now, later)
    ensures later == mid
  {
    assert Fresh(mid, now) == mid;
    if later.Keys != mid.Keys {
      assert later.Keys < mid.Keys;
      var id :| id in mid && id !in later;
      NoLarger(later.Keys, mid.Keys - {id});
    }
  }

  // ---------------------------------------------------------------- a batch seen by its sessions

  /** An item of a session, when it is delivered, and whether it is taken up. */
  datatype Visit = Visit(id: string, now: int, taken: bool)

  /** An item taken up refreshes its session and is saved; any other changes nothing. */
  ghost predicate VisitTo(seen: map<string, int>, v: Visit, later: map<string, int>) {
    if v.taken then SavedTo(seen[v.id := v.now], v.now, later) else v.id in seen && later == seen
  }

  /** The sessions with an item taken up. */
  function Taken(vs: seq<Visit>): set<string> {
    set i | 0 <= i < |vs| && vs[i].taken :: vs[i].id
  }

  /** Which sessions are left when those taken up have been seen since: they, and the others that are not too old and
      that fewer than 128 were or are seen later than. */
  predicate Survives(seen: map<string, int>, taken: set<string>, now: int, id: string) {
    || id in taken
    || (id in seen && seen[id] >= now - RETENTION_SECONDS && |LaterThan(seen, id) + taken| < MAX_SESSIONS)
  }

  /** The sessions after some visits that began at `start`, the last save being at `now`. */
  ghost predicate After(seen: map<string, int>, start: int, taken: set<string>, now: int, later: map<string, int>) {
    if taken == {} then later == seen
    else
      && (forall id :: id in later <==> Survives(seen, taken, now, id))
      && (forall id | id in later :: TimeOf(seen, start, taken, now, id, later[id]))
  }

  predicate TimeOf(seen: map<string, int>, start: int, taken: set<string>, now: int, id: string, time: int) {
    if id in taken then start <= time <= now else id in seen && time == seen[id]
  }

  /** All sessions were seen before `start`, no two of them at one time. */
  ghost predicate Distinct(seen: map<string, int>, start: int) {
    && (forall id | id in seen :: seen[id] < start)
    && (forall a, b | a in seen && b in seen && a != b :: seen[a] != seen[b])
  }

  /** The sessions a save finds: those left so far and those taken up since, which have been seen since the start. */
  ghost predicate Found(seen: map<string, int>, start: int, left: map<string, int>, taken: set<string>, now: int,
                        found: map<string, int>)
  {
    && found.Keys == left.Keys + taken
    && forall id | id in found :: TimeOf(seen, start, taken, now, id, found[id])
  }

  /** A session taken up is kept: only others taken up may be preferred to it. */
  lemma TakenIsKept(seen: map<string, int>, start: int, left: map<string, int>, taken: set<string>, now: int,
                    found: map<string, int>, later: map<string, int>, id: string)
    requires Distinct(seen, start) && now - RETENTION_SECONDS <= start
    requires Found(seen, start, left, taken, now, found) && |taken| <= MAX_SESSIONS && id in taken
    requires SavedTo(found, now, later)
    ensures id in later
  {
    var recent := Fresh(found, now);
    assert TimeOf(seen, start, taken, now, id, found[id]);
    forall other | other in recent && other != id && recent[other] >= recent[id]
      ensures other in taken - {id}
    {
      assert TimeOf(seen, start, taken, now, other, found[other]);
    }
    KeptIfFew(recent, MAX_SESSIONS, later.Keys, id, taken - {id});
  }

  /** Whatever is seen later than a session that is left is left too. */
  lemma LaterAreLeft(seen: map<string, int>, start: int, taken: set<string>, now: int, left: map<string, int>,
                     id: string, other: string)
    requires After(seen, start, taken, now, left) && id in left && id in seen && id !in taken
    requires other in LaterThan(seen, id)
    ensures other in left
  {
    if taken != {} {
      assert Survives(seen, taken, now, id);
      NoLarger(LaterThan(seen, other) + taken, LaterThan(seen, id) + taken);
      assert Survives(seen, taken, now, other);
    }
  }

  /** A session not taken up is kept by the next save exactly when it survives. */
  lemma OthersKeptIff(seen: map<string, int>, start: int, was: set<string>, before: int, left: map<string, int>,
                      taken: set<string>, now: int, found: map<string, int>, later: map<string, int>, id: string)
    requires Distinct(seen, start) && start <= now && before <= now && now - RETENTION_SECONDS <= start
    requires After(seen, start, was, before, left) && was <= taken
    requires Found(seen, start, left, taken, now, found) && SavedTo(found, now, later)
    requires id in seen && id !in taken
    ensures id in later <==> Survives(seen, taken, now, id)
  {
    if id in left && seen[id] >= now - RETENTION_SECONDS {
      LaterFound(seen, start, was, before, left, taken, now, found, id);
      var recent := Fresh(found, now);
      if |LaterThan(recent, id)| < MAX_SESSIONS {
        forall other | other in recent && other != id && recent[other] >= recent[id]
          ensures other in LaterThan(recent, id)
        {
          assert TimeOf(seen, start, taken, now, other, found[other]);
        }
        KeptIfFew(recent, MAX_SESSIONS, later.Keys, id, LaterThan(recent, id));
      } else {
        DroppedIfMany(recent, MAX_SESSIONS, later.Keys, id);
      }
    } else if id !in left {
      NoLarger(LaterThan(seen, id) + was, LaterThan(seen, id) + taken);
    }
  }

  /** Those the save finds seen later than such a session are those that were and those taken up since. */
  lemma LaterFound(seen: map<string, int>, start: int, was: set<string>, before: int, left: map<string, int>,
                   taken: set<string>, now: int, found: map<string, int>, id: string)
    requires Distinct(seen, start) && start <= now && now - RETENTION_SECONDS <= start
    requires After(seen, start, was, before, left) && was <= taken
    requires Found(seen, start, left, taken, now, found)
    requires id in seen && id !in taken && id in left && seen[id] >= now - RETENTION_SECONDS
    ensures id in Fresh(found, now) && LaterThan(Fresh(found, now), id) == LaterThan(seen, id) + taken
  {
    var recent := Fresh(found, now);
    assert TimeOf(seen, start, taken, now, id, found[id]);
    forall other
      ensures other in LaterThan(recent, id) <==> other in LaterThan(seen, id) + taken
    {
      if other in found {
        assert TimeOf(seen, start, taken, now, other, found[other]);
      }
      if other in LaterThan(seen, id) {
        LaterAreLeft(seen, start, was, before, left, id, other);
      }
    }
  }

  /** One more save. */
  lemma SaveKeepsAfter(seen: map<string, int>, start: int, was: set<string>, before: int, left: map<string, int>,
                       taken: set<string>, now: int, found: map<string, int>, later: map<string, int>)
    requires Distinct(seen, start) && start <= now && before <= now && now - RETENTION_SECONDS <= start
    requires After(seen, start, was, before, left) && was <= taken && taken != {} && |taken| <= MAX_SESSIONS
    requires Found(seen, start, left, taken, now, found) && SavedTo(found, now, later)
    ensures After(seen, start, taken, now, later)
  {
    forall id
      ensures id in later <==> Survives(seen, taken, now, id)
    {
      if id in taken {
        TakenIsKept(seen, start, left, taken, now, found, later, id);
      } else if id in seen {
        OthersKeptIff(seen, start, was, before, left, taken, now, found, later, id);
      }
    }
    forall id | id in later
      ensures TimeOf(seen, start, taken, now, id, later[id])
    {
      assert TimeOf(seen, start, taken, now, id, found[id]);
    }
  }

  ghost predicate Visited(seens: seq<map<string, int>>, vs: seq<Visit>) {
    |seens| == |vs| + 1 && forall i | 0 <= i < |vs| :: VisitedAt(seens, vs, i)
  }

  ghost predicate VisitedAt(seens: seq<map<string, int>>, vs: seq<Visit>, i: nat)
    requires i < |vs| && |seens| == |vs| + 1
  {
    VisitTo(seens[i], vs[i], seens[i + 1])
  }

  /** The clock goes on from `start` to `end`, for no longer than a session is kept. */
  ghost predicate GoesOn(vs: seq<Visit>, start: int, end: int) {
    && end - RETENTION_SECONDS <= start <= end
    && (forall i | 0 <= i < |vs| :: start <= vs[i].now <= end)
    && (forall i, j | 0 <= i < j < |vs| :: vs[i].now <= vs[j].now)
  }

  function LastTaken(vs: seq<Visit>, k: nat, start: int): int
    requires k <= |vs|
  {
    if k == 0 then start else if vs[k - 1].taken then vs[k - 1].now else LastTaken(vs, k - 1, start)
  }

  lemma {:induction false} LastTakenBefore(vs: seq<Visit>, k: nat, start: int, end: int)
    requires k <= |vs| && GoesOn(vs, start, end)
    ensures start <= LastTaken(vs, k, start) <= end
    ensures k < |vs| ==> LastTaken(vs, k, start) <= vs[k].now
  {
    if k > 0 && !vs[k - 1].taken {
      LastTakenBefore(vs, k - 1, start, end);
    }
  }

  lemma TakenMore(vs: seq<Visit>, k: nat)
    requires k < |vs|
    ensures Taken(vs[..k + 1]) == Taken(vs[..k]) + (if vs[k].taken then {vs[k].id} else {})
  {
    var front, more := vs[..k], vs[..k + 1];
    forall id
      ensures id in Taken(more) <==> id in Taken(front) || (vs[k].taken && id == vs[k].id)
    {
      if id in Taken(more) {
        var i :| 0 <= i < |more| && more[i].taken && more[i].id == id;
        assert i < k ==> front[i] == more[i];
      }
      if id in Taken(front) {
        var i :| 0 <= i < |front| && front[i].taken && front[i].id == id;
        assert more[i] == front[i];
      }
      if vs[k].taken && id == vs[k].id {
        assert more[k].taken && more[k].id == id;
      }
    }
  }

  lemma {:induction false} TakenBounded(vs: seq<Visit>, k: nat)
    requires k <= |vs|
    ensures |Taken(vs[..k])| <= k
  {
    if k == 0 {
      assert Taken(vs[..0]) == {};
    } else {
      TakenBounded(vs, k - 1);
      TakenMore(vs, k - 1);
    }
  }

  /** After k visits exactly the sessions that survive are left. */
  ghost predicate AfterVisits(seens: seq<map<string, int>>, vs: seq<Visit>, start: int, k: nat)
    requires k <= |vs| && |seens| == |vs| + 1
  {
    After(seens[0], start, Taken(vs[..k]), LastTaken(vs, k, start), seens[k])
  }

  lemma {:induction false} VisitsKeepAfter(seens: seq<map<string, int>>, vs: seq<Visit>, start: int, end: int, k: nat)
    requires Visited(seens, vs) && k <= |vs| <= MAX_SESSIONS && GoesOn(vs, start, end) && Distinct(seens[0], start)
    ensures AfterVisits(seens, vs, start, k)
  {
    if k == 0 {
      assert Taken(vs[..0]) == {};
    } else {
      VisitsKeepAfter(seens, vs, start, end, k - 1);
      NextVisitKeepsAfter(seens, vs, start, end, k - 1);
    }
  }

  lemma NextVisitKeepsAfter(seens: seq<map<string, int>>, vs: seq<Visit>, start: int, end: int, k: nat)
    requires Visited(seens, vs) && k < |vs| <= MAX_SESSIONS && GoesOn(vs, start, end) && Distinct(seens[0], start)
    requires AfterVisits(seens, vs, start, k)
    ensures AfterVisits(seens, vs, start, k + 1)
  {
    assert VisitedAt(seens, vs, k);
    TakenMore(vs, k);
    TakenBounded(vs, k + 1);
    LastTakenBefore(vs, k, start, end);
    VisitKeepsAfter(seens[0], start, end, Taken(vs[..k]), LastTaken(vs, k, start), seens[k], vs[k], seens[k + 1],
                    Taken(vs[..k + 1]), LastTaken(vs, k + 1, start));
  }

  /** One more visit. */
  lemma VisitKeepsAfter(seen: map<string, int>, start: int, end: int, was: set<string>, before: int,
                        left: map<string, int>, v: Visit, later: map<string, int>, taken: set<string>, last: int)
    requires Distinct(seen, start) && end - RETENTION_SECONDS <= start <= v.now <= end && before <= v.now
    requires After(seen, start, was, before, left) && VisitTo(left, v, later)
    requires taken == was + (if v.taken then {v.id} else {}) && (v.taken ==> |taken| <= MAX_SESSIONS)
    requires last == if v.taken then v.now else before
    ensures After(seen, start, taken, last, later)
  {
    if v.taken {
      RefreshedFound(seen, start, was, before, left, v);
      SaveKeepsAfter(seen, start, was, before, left, taken, v.now, left[v.id := v.now], later);
    } else {
      assert taken == was;
    }
  }

  lemma RefreshedFound(seen: map<string, int>, start: int, was: set<string>, before: int, left: map<string, int>,
                       v: Visit)
    requires After(seen, start, was, before, left) && start <= v.now && before <= v.now
    ensures Found(seen, start, left, was + {v.id}, v.now, left[v.id := v.now])
  {
    forall id | id in was
      ensures id in left
    {
      assert Survives(seen, was, before, id);
    }
    var refreshed := left[v.id := v.now];
    forall id | id in refreshed
      ensures TimeOf(seen, start, was + {v.id}, v.now, id, refreshed[id])
    {
      assert id in left && was != {} ==> TimeOf(seen, start, was, before, id, left[id]);
    }
  }

  /** A session of the batch none of whose items is taken up was there before. */
  lemma UntakenWasThere(seens: seq<map<string, int>>, vs: seq<Visit>, start: int, end: int, i: nat)
    requires Visited(seens, vs) && |vs| <= MAX_SESSIONS && GoesOn(vs, start, end) && Distinct(seens[0], start)
    requires i < |vs| && vs[i].id !in Taken(vs)
    ensures vs[i].id in seens[0]
  {
    VisitsKeepAfter(seens, vs, start, end, i);
    assert VisitedAt(seens, vs, i) && !vs[i].taken;
    assert vs[i].id !in Taken(vs[..i]);
    if Taken(vs[..i]) != {} {
      assert TimeOf(seens[0], start, Taken(vs[..i]), LastTaken(vs, i, start), vs[i].id, seens[i][vs[i].id]);
    }
  }

  // ---------------------------------------------------------------- deliveries seen by their sessions

  /** When its session is seen after an attempt that succeeded. */
  lemma FinishedTimes(d: Data, key: string, sessionId: string, env: Env)
    requires key in d.finals && Succeeds(d.finals[key].item, env.attempt)
    ensures Times(Finished(d, key, sessionId, env)) == Refreshed(Times(d), sessionId, env.now)
  {
    var marked := MarkIn(d, sessionId, d.finals[key].item.seqNo, env.now);
    if sessionId in d.sessions {
      MarkedTimes(d, sessionId, d.finals[key].item.seqNo, env.now);
    }
    assert Finished(d, key, sessionId, env).sessions == marked.sessions;
  }

  function Refreshed(seen: map<string, int>, id: string, now: int): map<string, int> {
    if id in seen then seen[id := now] else seen
  }

  lemma CompleteTimes(d: Data, key: string, sessionId: string, env: Env, keep: Keep, verdict: Verdict)
    requires key in d.finals && CompleteAllowed(d, key, sessionId, env, keep)
    requires Complete(d, key, sessionId, env, keep, verdict).status.Acknowledged?
    ensures SavedTo(Refreshed(Times(d), sessionId, env.now), env.now,
                    Times(Complete(d, key, sessionId, env, keep, verdict).data))
  {
    FinishedTimes(d, key, sessionId, env);
    PrunedTimes(Finished(d, key, sessionId, env), env.now, keep);
  }

  lemma NotedTimes(heard: Data, item: Item, merged: Item, now: int, keep: Keep)
    requires item.session in heard.sessions && KeepAllowed(Noted(heard, item, merged, now), now, keep)
    ensures var saved := Times(Pruned(Noted(heard, item, merged, now), keep));
            SavedTo(Times(heard)[item.session := now], now, saved) && Refreshed(saved, item.session, now) == saved
  {
    NotedTime(heard, item, merged, now);
    PrunedTimes(Noted(heard, item, merged, now), now, keep);
  }

  lemma NotedTime(heard: Data, item: Item, merged: Item, now: int)
    requires item.session in heard.sessions
    ensures Times(Noted(heard, item, merged, now)) == Times(heard)[item.session := now]
  {
  }

  lemma FinalTimes(heard: Data, item: Item, merged: Item, env: Env)
    requires item.session in heard.sessions && FinalAllowed(heard, item, merged, env)
    requires FinalDone(heard, item, merged, env).status.Acknowledged?
    ensures SavedTo(Times(heard)[item.session := env.now], env.now, Times(FinalDone(heard, item, merged, env).data))
  {
    var key := FinalKey(item);
    if key in heard.finals {
      CompleteTimes(heard, key, item.session, env, env.second, Accept);
    } else {
      var saved := Pruned(Noted(heard, item, merged, env.now), env.first);
      NotedTimes(heard, item, merged, env.now, env.first);
      CompleteTimes(saved, key, item.session, env, env.second, Accept);
      SavedAgain(Times(heard)[item.session := env.now], env.now, Times(saved),
                 Times(FinalDone(heard, item, merged, env).data));
    }
  }

  lemma AcceptedTimes(d: Data, item: Item, env: Env)
    requires item.session in d.sessions && AcceptedAllowed(d, item, env) && Accepted(d, item, env).status.Acknowledged?
    ensures SavedTo(Times(d)[item.session := env.now], env.now, Times(Accepted(d, item, env).data))
  {
    var merged := Merged(d, item, env).value;
    var heard := Heard(d, item, merged);
    assert Times(heard) == Times(d);
    if item.isFinal {
      FinalTimes(heard, item, merged, env);
    } else {
      MarkedTimes(heard, item.session, item.seqNo, env.now);
      PrunedTimes(MarkIn(heard, item.session, item.seqNo, env.now), env.now, env.first);
    }
  }

  /** A delivery that does not fail is a visit of its session. */
  lemma DeliveredTimes(d: Data, item: Item, env: Env)
    requires DeliveredAllowed(d, item, env) && Delivered(d, item, env).status.Acknowledged?
    ensures VisitTo(Times(d), Visit(item.session, env.now, Touches(Delivered(d, item, env).status)),
                    Times(Delivered(d, item, env).data))
  {
    var known := WithSession(d, item.session, env.now);
    KnownTimes(d, item.session, env.now);
    match VerdictOn(d, item, env)
    case Suppress(reason) =>
      PrunedTimes(MarkIn(known, item.session, item.seqNo, env.now), env.now, env.first);
      MarkedTimes(known, item.session, item.seqNo, env.now);
    case Retry => CompleteTimes(known, FinalKey(item), item.session, env, env.first, Retry);
    case Accept => AcceptedTimes(known, item, env);
    case _ => RefusedWasKnown(d, item, env);
  }

  lemma KnownTimes(d: Data, id: string, now: int)
    ensures id in Times(WithSession(d, id, now)) && Times(WithSession(d, id, now))[id := now] == Times(d)[id := now]
  {
  }

  lemma MarkedTimes(d: Data, id: string, seqNo: nat, now: int)
    requires id in d.sessions
    ensures Times(MarkIn(d, id, seqNo, now)) == Times(d)[id := now]
  {
  }

  /** A new session refuses nothing. */
  lemma RefusedWasKnown(d: Data, item: Item, env: Env)
    requires var verdict := VerdictOn(d, item, env);
             verdict.Duplicate? || verdict.StaleSeq? || verdict.FinalImmutable? || verdict.StaleRevision?
    ensures item.session in d.sessions && WithSession(d, item.session, env.now) == d
  {
  }

  // ---------------------------------------------------------------- when a batch loses a session

  /** The sessions with an item that was taken up. */
  function TakenUp(items: seq<Item>, results: seq<Status>): set<string>
    requires |results| <= |items|
  {
    set i | 0 <= i < |results| && Touches(results[i]) :: items[i].session
  }

  /** Before the batch: the clock has gone on, and no two sessions were seen at one time. */
  ghost predicate ClockGoesOn(d: Data, envs: seq<Env>, start: int, end: int) {
    && Distinct(Times(d), start)
    && end - RETENTION_SECONDS <= start <= end
    && (forall i | 0 <= i < |envs| :: start <= envs[i].now <= end)
    && (forall i, j | 0 <= i < j < |envs| :: envs[i].now <= envs[j].now)
  }

  /** A session of the batch is lost: none of its items was taken up, some other's was, and by the end it has not been
      seen for seven days, or 128 sessions have been seen later. */
  predicate Loses(d: Data, items: seq<Item>, results: seq<Status>, end: int, id: string)
    requires |results| <= |items|
  {
    var taken := TakenUp(items, results);
    && taken != {} && id !in taken && id in d.sessions
    && (d.sessions[id].lastSeen < end - RETENTION_SECONDS || |LaterThan(Times(d), id) + taken| >= MAX_SESSIONS)
  }

  /** The surroundings of a step, but for what its saves keep. */
  ghost predicate Surrounds(env: Env, used: Env) {
    used == env.(first := used.first, second := used.second)
  }

  /** The deliveries use the given surroundings, and the last save, if there is one, happens at `end`. */
  ghost predicate Uses(steps: seq<Step>, results: seq<Status>, envs: seq<Env>, end: int) {
    && |results| <= |steps| && |results| <= |envs|
    && (forall i | 0 <= i < |steps| :: steps[i].Does?)
    && (forall i | 0 <= i < |results| :: Surrounds(envs[i], steps[i].env))
    && (forall i | |results| <= i < |steps| :: steps[i].env.now == end)
  }

  function VisitsOf(items: seq<Item>, results: seq<Status>, envs: seq<Env>): seq<Visit>
    requires |results| <= |items| && |results| <= |envs|
  {
    seq(|results|, i requires 0 <= i < |results| => Visit(items[i].session, envs[i].now, Touches(results[i])))
  }

  function TimesAlong(c: Codec, cfg: Config, w: World, steps: seq<Step>, n: nat): seq<map<string, int>>
    requires n <= |steps|
  {
    seq(n + 1, i requires 0 <= i <= n => Times(Run(c, cfg, w, steps[..i]).data))
  }

  lemma {:induction false} RunTo(c: Codec, cfg: Config, w: World, steps: seq<Step>, i: nat)
    requires i < |steps|
    ensures Run(c, cfg, w, steps[..i + 1]) == Next(c, cfg, Run(c, cfg, w, steps[..i]), steps[i])
  {
    assert steps[..i + 1] == steps[..i] + [steps[i]];
    RunMore(c, cfg, w, steps[..i], steps[i]);
  }

  /** A batch that does not fail is a run of visits. */
  lemma BatchVisits(c: Codec, cfg: Config, w: World, items: seq<Item>, results: seq<Status>, steps: seq<Step>,
                    envs: seq<Env>, end: int)
    requires IsBatch(c, cfg, w, items, results, steps) && StepsAllowed(c, cfg, w, steps)
    requires Uses(steps, results, envs, end) && !EndsBadly(results)
    ensures Visited(TimesAlong(c, cfg, w, steps, |results|), VisitsOf(items, results, envs))
  {
    var seens, vs := TimesAlong(c, cfg, w, steps, |results|), VisitsOf(items, results, envs);
    forall i | 0 <= i < |vs|
      ensures VisitedAt(seens, vs, i)
    {
      var d := Run(c, cfg, w, steps[..i]).data;
      assert DeliversAt(c, cfg, w, items, results, steps, i) && StepAllowedAt(c, cfg, w, steps, i);
      assert Surrounds(envs[i], steps[i].env);
      assert results[i].Acknowledged?;
      DeliveredTimes(d, items[i], steps[i].env);
      RunTo(c, cfg, w, steps, i);
    }
  }

  lemma TakenUpIs(items: seq<Item>, results: seq<Status>, envs: seq<Env>)
    requires |results| <= |items| && |results| <= |envs|
    ensures Taken(VisitsOf(items, results, envs)) == TakenUp(items, results)
  {
    var vs := VisitsOf(items, results, envs);
    forall id
      ensures id in Taken(vs) <==> id in TakenUp(items, results)
    {
      if id in Taken(vs) {
        var i :| 0 <= i < |vs| && vs[i].taken && vs[i].id == id;
        assert Touches(results[i]) && items[i].session == id;
      }
      if id in TakenUp(items, results) {
        var i :| 0 <= i < |results| && Touches(results[i]) && items[i].session == id;
        assert vs[i].taken && vs[i].id == id;
      }
    }
  }

  lemma {:induction false} AnyTouchesIff(items: seq<Item>, results: seq<Status>)
    requires |results| <= |items|
    ensures AnyTouches(results) <==> TakenUp(items, results) != {}
  {
    if results != [] {
      var n := |results| - 1;
      AnyTouchesIff(items, results[..n]);
      if Touches(results[n]) {
        assert items[n].session in TakenUp(items, results);
      }
      if TakenUp(items, results[..n]) != {} {
        var id :| id in TakenUp(items, results[..n]);
        assert id in TakenUp(items, results);
      }
      if TakenUp(items, results) != {} && !Touches(results[n]) {
        var id :| id in TakenUp(items, results);
        var i :| 0 <= i < |results| && Touches(results[i]) && items[i].session == id;
        assert results[..n][i] == results[i];
        assert id in TakenUp(items, results[..n]);
      }
    }
  }

  /** What the save at the end of a batch leaves. */
  lemma LastSaveKeepsAfter(seen: map<string, int>, start: int, taken: set<string>, before: int,
                           left: map<string, int>, end: int, later: map<string, int>)
    requires Distinct(seen, start) && end - RETENTION_SECONDS <= start <= end && before <= end
    requires After(seen, start, taken, before, left) && taken != {} && |taken| <= MAX_SESSIONS
    requires SavedTo(left, end, later)
    ensures After(seen, start, taken, end, later)
  {
    forall id | id in taken
      ensures id in left
    {
      assert Survives(seen, taken, before, id);
    }
    forall id | id in left
      ensures TimeOf(seen, start, taken, end, id, left[id])
    {
      assert TimeOf(seen, start, taken, before, id, left[id]);
    }
    SaveKeepsAfter(seen, start, taken, before, left, taken, end, left, later);
  }

  /** The sessions at the end of a batch that did not fail. */
  lemma {:induction false} BatchKeeps(c: Codec, cfg: Config, w: World, items: seq<Item>, results: seq<Status>,
                                      steps: seq<Step>, envs: seq<Env>, start: int, end: int)
    requires IsBatch(c, cfg, w, items, results, steps) && StepsAllowed(c, cfg, w, steps)
    requires Uses(steps, results, envs, end) && !EndsBadly(results)
    requires |items| == |envs| <= MAX_SESSIONS && ClockGoesOn(w.data, envs, start, end)
    ensures var taken, later := TakenUp(items, results), Times(Run(c, cfg, w, steps).data);
            if taken == {} then later == Times(w.data)
            else forall id :: id in later <==> Survives(Times(w.data), taken, end, id)
  {
    var n, seens, vs := |results|, TimesAlong(c, cfg, w, steps, |results|), VisitsOf(items, results, envs);
    var taken := TakenUp(items, results);
    BatchVisits(c, cfg, w, items, results, steps, envs, end);
    VisitsKeepAfter(seens, vs, start, end, n);
    TakenUpIs(items, results, envs);
    AnyTouchesIff(items, results);
    assert vs[..n] == vs && steps[..0] == [];
    if taken == {} {
      assert steps[..n] == steps;
    } else {
      TakenBounded(vs, n);
      LastTakenBefore(vs, n, start, end);
      FlushedTimes(c, cfg, w, steps, n);
      LastSaveKeepsAfter(seens[0], start, taken, LastTaken(vs, n, start), seens[n], end,
                         Times(Run(c, cfg, w, steps).data));
    }
  }

  lemma {:induction false} FlushedTimes(c: Codec, cfg: Config, w: World, steps: seq<Step>, n: nat)
    requires |steps| == n + 1 && steps[n].Does? && steps[n].act.Flush? && StepsAllowed(c, cfg, w, steps)
    ensures SavedTo(Times(Run(c, cfg, w, steps[..n]).data), steps[n].env.now, Times(Run(c, cfg, w, steps).data))
  {
    assert StepAllowedAt(c, cfg, w, steps, n);
    assert steps[..n + 1] == steps;
    RunTo(c, cfg, w, steps, n);
    PrunedTimes(Run(c, cfg, w, steps[..n]).data, steps[n].env.now, steps[n].env.first);
  }

  /** A session of a batch that did not fail is lost exactly under the condition that can be read off the state before
      the batch and which of its items were taken up. */
  lemma {:induction false} BatchLosesIff(c: Codec, cfg: Config, w: World, items: seq<Item>, results: seq<Status>,
                                         steps: seq<Step>, envs: seq<Env>, start: int, end: int, i: nat)
    requires IsBatch(c, cfg, w, items, results, steps) && StepsAllowed(c, cfg, w, steps)
    requires Uses(steps, results, envs, end) && !EndsBadly(results)
    requires |items| == |envs| <= MAX_SESSIONS && ClockGoesOn(w.data, envs, start, end) && i < |items|
    ensures items[i].session !in Run(c, cfg, w, steps).data.sessions
       <==> Loses(w.data, items, results, end, items[i].session)
  {
    var seens, vs, id := TimesAlong(c, cfg, w, steps, |results|), VisitsOf(items, results, envs), items[i].session;
    BatchKeeps(c, cfg, w, items, results, steps, envs, start, end);
    BatchVisits(c, cfg, w, items, results, steps, envs, end);
    TakenUpIs(items, results, envs);
    assert steps[..0] == [] && vs[i].id == id;
    if id !in TakenUp(items, results) {
      UntakenWasThere(seens, vs, start, end, i);
    }
    assert id in Times(Run(c, cfg, w, steps).data) <==> id in Run(c, cfg, w, steps).data.sessions;
  }

  // ---------------------------------------------------------------- two batches that lose a session

  const DUPLICATE: Item := Item("s", "u", 1, 1, "again", false, [])
  const NEW: Item := Item("t", "u", 1, 1, "new", false, [])

  /** A session that has processed its first seq. */
  function Seen(at: int): Session {
    Session([1], 1, [], at)
  }

  /** A duplicate and then the first item of a new session: the first is refused, the second accepted. */
  lemma DuplicateThenNew(c: Codec, cfg: Config, w: World, results: seq<Status>, steps: seq<Step>, envs: seq<Env>,
                         end: int)
    requires IsBatch(c, cfg, w, [DUPLICATE, NEW], results, steps) && Uses(steps, results, envs, end) && |envs| == 2
    requires "s" in w.data.sessions && w.data.sessions["s"].processed == [1] && "t" !in w.data.sessions
    requires forall i | 0 <= i < 2 :: envs[i].suppression == None && envs[i].attempt.succeeding >= 1
    ensures |results| == 2 && !EndsBadly(results) && TakenUp([DUPLICATE, NEW], results) == {"t"}
  {
    var items := [DUPLICATE, NEW];
    assert results != [];
    assert DeliversAt(c, cfg, w, items, results, steps, 0) && Surrounds(envs[0], steps[0].env);
    assert steps[..0] == [];
    assert results[0] == Acknowledged(Duplicate, None);
    assert |results| == 2;
    assert DeliversAt(c, cfg, w, items, results, steps, 1) && Surrounds(envs[1], steps[1].env);
    RunTo(c, cfg, w, steps, 0);
    assert Run(c, cfg, w, steps[..1]).data == w.data;
    NewAccepted(w.data, steps[1].env);
    assert TakenUp(items, results) == {"t"} by {
      assert Touches(results[1]) && items[1].session == "t";
    }
  }

  lemma NewAccepted(d: Data, env: Env)
    requires "t" !in d.sessions && env.suppression == None && env.attempt.succeeding >= 1
    ensures Touches(Delivered(d, NEW, env).status)
  {
    var known := WithSession(d, "t", env.now);
    assert VerdictOn(d, NEW, env) == Accept;
    assert Merged(known, NEW, env).Some?;
  }

  /** So session "s" is lost for either cause. */
  lemma {:induction false} DuplicateLoses(c: Codec, cfg: Config, w: World, results: seq<Status>, steps: seq<Step>,
                                          envs: seq<Env>, at: int)
    requires "s" in w.data.sessions && w.data.sessions["s"].processed == [1] && "t" !in w.data.sessions
    requires Distinct(Times(w.data), at)
    requires || w.data.sessions["s"].lastSeen < at - RETENTION_SECONDS
             || |LaterThan(Times(w.data), "s") + {"t"}| >= MAX_SESSIONS
    requires |envs| == 2 && forall i | 0 <= i < 2 ::
               envs[i].now == at && envs[i].suppression == None && envs[i].attempt.succeeding >= 1
    requires IsBatch(c, cfg, w, [DUPLICATE, NEW], results, steps) && StepsAllowed(c, cfg, w, steps)
    requires Uses(steps, results, envs, at)
    ensures !EndsBadly(results) && "s" !in Run(c, cfg, w, steps).data.sessions
  {
    DuplicateThenNew(c, cfg, w, results, steps, envs, at);
    BatchLosesIff(c, cfg, w, [DUPLICATE, NEW], results, steps, envs, at, at, 0);
  }

  /** One of its two causes: session "s" has not been seen for seven days. */
  lemma {:induction false} StaleSessionLost(c: Codec, cfg: Config, w: World, results: seq<Status>, steps: seq<Step>,
                                            envs: seq<Env>, at: int)
    requires w.data == Data(map["s" := Seen(0)], map[]) && at == RETENTION_SECONDS + 1
    requires |envs| == 2 && forall i | 0 <= i < 2 ::
               envs[i].now == at && envs[i].suppression == None && envs[i].attempt.succeeding >= 1
    requires IsBatch(c, cfg, w, [DUPLICATE, NEW], results, steps) && StepsAllowed(c, cfg, w, steps)
    requires Uses(steps, results, envs, at)
    ensures !EndsBadly(results) && "s" !in Run(c, cfg, w, steps).data.sessions
  {
    DuplicateLoses(c, cfg, w, results, steps, envs, at);
  }

  function Name(n: nat): string {
    seq(n, i => 'x')
  }

  /** As many other names. */
  function Others(n: nat): set<string> {
    set k | 1 <= k <= n :: Name(k)
  }

  lemma {:induction false} OthersCount(n: nat)
    ensures |Others(n)| == n
    ensures forall id | id in Others(n) :: 1 <= |id| <= n && id == Name(|id|)
  {
    if n == 0 {
      assert Others(0) == {};
    } else {
      OthersCount(n - 1);
      assert |Name(n)| == n && Name(n) !in Others(n - 1);
      assert Others(n) == Others(n - 1) + {Name(n)};
    }
  }

  /** Session "s", seen first, and 127 others, all within the last minutes. */
  function Crowd(): Data {
    Data(map id | id in Others(127) + {"s"} :: Seen(if id == "s" then 0 else |id|), map[])
  }

  /** The other cause: 127 sessions have been seen later than "s", and with the new one they are 128. */
  lemma {:induction false} CrowdedSessionLost(c: Codec, cfg: Config, w: World, results: seq<Status>, steps: seq<Step>,
                                              envs: seq<Env>, at: int)
    requires w.data == Crowd() && at == 1000
    requires |envs| == 2 && forall i | 0 <= i < 2 ::
               envs[i].now == at && envs[i].suppression == None && envs[i].attempt.succeeding >= 1
    requires IsBatch(c, cfg, w, [DUPLICATE, NEW], results, steps) && StepsAllowed(c, cfg, w, steps)
    requires Uses(steps, results, envs, at)
    ensures !EndsBadly(results) && "s" !in Run(c, cfg, w, steps).data.sessions
  {
    CrowdTimes();
    DuplicateLoses(c, cfg, w, results, steps, envs, at);
  }

  lemma CrowdTimes()
    ensures "s" in Crowd().sessions && "t" !in Crowd().sessions
    ensures LaterThan(Times(Crowd()), "s") == Others(127) && |Others(127) + {"t"}| == 128
    ensures Distinct(Times(Crowd()), 1000)
  {
    OthersCount(127);
    assert Name(1)[0] == 'x';
    forall id | id in Others(127)
      ensures id != "s" && id != "t" && id[0] == 'x'
    {
      assert id == Name(|id|);
    }
  }

  // ---------------------------------------------------------------- which finalizations a save keeps

  /** The completed finalizations that were updated after this one. */
  function CompletedLater(d: Data, key: string): set<string>
    requires key in d.finals
  {
    set k | k in d.finals && d.finals[k].completed && d.finals[k].updatedAt > d.finals[key].updatedAt
  }

  /** With distinct times a save keeps a completed finalization exactly when fewer than 2048 of them were updated later,
      and any other always; and it keeps it as it is. */
  lemma CompletedKeptIff(d: Data, now: int, keep: Keep, key: string)
    requires KeepAllowed(d, now, keep) && key in d.finals
    requires forall other | other in d.finals && other != key :: d.finals[other].updatedAt != d.finals[key].updatedAt
    ensures key in Pruned(d, keep).finals <==> (d.finals[key].completed ==> |CompletedLater(d, key)| < MAX_COMPLETED)
    ensures key in Pruned(d, keep).finals ==> Pruned(d, keep).finals[key] == d.finals[key]
  {
    var times := CompletedTimes(d);
    if d.finals[key].completed {
      assert LaterThan(times, key) == CompletedLater(d, key);
      if |LaterThan(times, key)| < MAX_COMPLETED {
        KeptIfFew(times, MAX_COMPLETED, keep.completed, key, LaterThan(times, key));
      } else {
        DroppedIfMany(times, MAX_COMPLETED, keep.completed, key);
      }
    }
  }
}
