// Durable consumer positions (src/ws_collab/cursors.py) and what a consumer that may crash
// anywhere gets from them.
module Consumers {
  import opened Sequences
  import opened EventLog
  import opened LogAppend
  import opened LogRead
  import opened LogCrash
  import opened LogRuns
  import opened LogStore

  const MAX_HISTORY: nat := 100

  datatype Action = Commit | Reposition | Reset

  datatype Risk = NoRisk | Replay | Skip

  /** One recorded change of a position. */
  datatype Move = Move(action: Action, oldToken: Option<Token>, newToken: Token, oldSeq: nat, newSeq: nat,
                       reason: string, operator: string, risk: Risk)

  datatype Position = Position(token: Token, seqNo: nat, reason: string, operator: string, moves: seq<Move>)

  datatype Key = Key(stream: string, consumer: string)

  datatype Outcome = Moved(position: Position) | Refused(currentSeq: nat, requestedSeq: nat)

  /** The seq of a token; a token that does not decode counts as 0. */
  function SeqOf(token: Token): nat {
    match token
    case Garbled => 0
    case Decoded(cur) => cur.seqNo
  }

  /** The i-th move starts where the one before it ended, and is marked as a replay if it goes backward. */
  ghost predicate LinkedAt(moves: seq<Move>, i: nat)
    requires i < |moves|
  {
    && (i > 0 ==> moves[i - 1].newSeq == moves[i].oldSeq && moves[i].oldToken == Some(moves[i - 1].newToken))
    && (moves[i].newSeq < moves[i].oldSeq ==> moves[i].risk == Replay && !moves[i].action.Commit?)
  }

  ghost predicate Linked(moves: seq<Move>) {
    forall i | 0 <= i < |moves| :: LinkedAt(moves, i)
  }

  /** The recorded moves lead, one from the other, to the position. */
  ghost predicate Audited(p: Position) {
    && p.seqNo == SeqOf(p.token)
    && 1 <= |p.moves| <= MAX_HISTORY
    && p.moves[|p.moves| - 1].newSeq == p.seqNo && p.moves[|p.moves| - 1].newToken == p.token
    && Linked(p.moves)
  }

  function SeqBefore(previous: Option<Position>): nat {
    match previous
    case None => 0
    case Some(p) => p.seqNo
  }

  /** The position after a move from the previous one, if there was one. */
  function Advanced(previous: Option<Position>, token: Token, action: Action, reason: string, operator: string,
                    risk: Risk)
    : Position
  {
    var oldToken := match previous case None => None case Some(p) => Some(p.token);
    var moves := match previous case None => [] case Some(p) => p.moves;
    var entry := Move(action, oldToken, token, SeqBefore(previous), SeqOf(token), reason, operator, risk);
    Position(token, SeqOf(token), reason, operator, LastN(moves + [entry], MAX_HISTORY))
  }

  /** What a commit does: it moves forward or stays, and is refused if it would move backward. */
  function Committing(previous: Option<Position>, token: Token, reason: string, operator: string): Outcome {
    if SeqOf(token) < SeqBefore(previous) then Refused(SeqBefore(previous), SeqOf(token))
    else Moved(Advanced(previous, token, Action.Commit, reason, operator, NoRisk))
  }

  function PositionAfter(previous: Option<Position>, outcome: Outcome): Option<Position> {
    match outcome case Moved(p) => Some(p) case Refused(_, _) => previous
  }

  /** A move extends the audited chain; the oldest entries fall off, the links never break. */
  lemma AdvancedAudited(previous: Option<Position>, token: Token, action: Action, reason: string, operator: string,
                        risk: Risk)
    requires previous.Some? ==> Audited(previous.value)
    requires SeqOf(token) < SeqBefore(previous) ==> risk == Replay && !action.Commit?
    ensures Audited(Advanced(previous, token, action, reason, operator, risk))
  {
    match previous
    case None =>
    case Some(p) =>
      var next := Move(action, Some(p.token), token, p.seqNo, SeqOf(token), reason, operator, risk);
      var all := p.moves + [next];
      forall i | 0 <= i < |all|
        ensures LinkedAt(all, i)
      {
        assert i < |p.moves| ==> LinkedAt(p.moves, i);
      }
      LinkedLast(all, MAX_HISTORY);
  }

  /** The new entry says what was done, from where to where, why and by whom; of those before it the newest stay, at
      most a hundred in all. */
  lemma AdvancedIs(previous: Option<Position>, token: Token, action: Action, reason: string, operator: string,
                   risk: Risk)
    ensures var p := Advanced(previous, token, action, reason, operator, risk);
            && p.token == token && p.seqNo == SeqOf(token) && p.reason == reason && p.operator == operator
            && exists entry ::
                 && p.moves == LastN(PositionMoves(previous), MAX_HISTORY - 1) + [entry]
                 && entry.action == action && entry.reason == reason && entry.operator == operator
                 && entry.risk == risk && entry.newToken == token && entry.newSeq == SeqOf(token)
                 && entry.oldSeq == SeqBefore(previous) && entry.oldToken == TokenOf(previous)
  {
    var entry := Move(action, TokenOf(previous), token, SeqBefore(previous), SeqOf(token), reason, operator, risk);
    LastPush(PositionMoves(previous), entry, MAX_HISTORY);
  }

  /** A commit is refused exactly if it would go backward; otherwise it is recorded as one without a risk. */
  lemma CommittingIff(previous: Option<Position>, token: Token, reason: string, operator: string)
    ensures var outcome, was, to := Committing(previous, token, reason, operator), SeqBefore(previous), SeqOf(token);
            if to < was then outcome == Refused(was, to)
            else
              && outcome.Moved? && outcome.position.token == token && outcome.position.moves != []
              && outcome.position.moves[|outcome.position.moves| - 1]
                 == Move(Action.Commit, TokenOf(previous), token, was, to, reason, operator, NoRisk)
  {
    if SeqOf(token) >= SeqBefore(previous) {
      AdvancedIs(previous, token, Action.Commit, reason, operator, NoRisk);
    }
  }

  lemma LastPush(moves: seq<Move>, move: Move, n: nat)
    requires n > 0
    ensures LastN(moves + [move], n) == LastN(moves, n - 1) + [move]
  {
  }

  function PositionMoves(previous: Option<Position>): seq<Move> {
    match previous case None => [] case Some(p) => p.moves
  }

  function TokenOf(position: Option<Position>): Option<Token> {
    match position case None => None case Some(p) => Some(p.token)
  }

  lemma LinkedLast(moves: seq<Move>, n: nat)
    requires Linked(moves)
    ensures Linked(LastN(moves, n))
  {
    var k := |moves| - |LastN(moves, n)|;
    forall i | 0 <= i < |LastN(moves, n)|
      ensures LinkedAt(LastN(moves, n), i)
    {
      assert LinkedAt(moves, k + i);
    }
  }

  class CursorManager {
    var cursors: map<Key, Position>

    ghost predicate Valid()
      reads this
    {
      forall key | key in cursors :: Audited(cursors[key])
    }

    constructor ()
      ensures Valid() && cursors == map[]
    {
      cursors := map[];
    }

    function Get(key: Key): Option<Position>
      reads this
    {
      if key in cursors then Some(cursors[key]) else None
    }

    method Record(key: Key, token: Token, action: Action, reason: string, operator: string, risk: Risk)
      returns (position: Position)
      requires Valid()
      requires SeqOf(token) < SeqBefore(Get(key)) ==> risk == Replay && !action.Commit?
      modifies this
      ensures Valid()
      ensures position == Advanced(old(Get(key)), token, action, reason, operator, risk)
      ensures cursors == old(cursors)[key := position]
    {
      AdvancedAudited(Get(key), token, action, reason, operator, risk);
      var known := key in cursors;
      var oldSeq := if known then cursors[key].seqNo else 0;
      var oldToken := if known then Some(cursors[key].token) else None;
      var entry := Move(action, oldToken, token, oldSeq, SeqOf(token), reason, operator, risk);
      var moves := (if known then cursors[key].moves else []) + [entry];
      position := Position(token, SeqOf(token), reason, operator, LastN(moves, MAX_HISTORY));
      cursors := cursors[key := position];
    }

    /** Forward or in place only. */
    method Commit(key: Key, token: Token, reason: string, operator: string) returns (outcome: Outcome)
      requires Valid()
      modifies this
      ensures Valid()
      ensures outcome == Committing(old(Get(key)), token, reason, operator)
      ensures Get(key) == PositionAfter(old(Get(key)), outcome)
      ensures cursors == match outcome case Moved(p) => old(cursors)[key := p] case Refused(_, _) => old(cursors)
    {
      if key in cursors && SeqOf(token) < cursors[key].seqNo {
        return Refused(cursors[key].seqNo, SeqOf(token));
      }
      var position := Record(key, token, Action.Commit, reason, operator, NoRisk);
      return Moved(position);
    }

    /** Anywhere, given leave to replay or to skip. */
    method Reposition(key: Key, token: Token, reason: string, operator: string, allowReplay: bool, allowSkip: bool)
      returns (outcome: Outcome)
      requires Valid()
      modifies this
      ensures Valid()
      ensures var was, to := SeqBefore(old(Get(key))), SeqOf(token);
              if (to < was && !allowReplay) || (to > was && !allowSkip) then
                outcome == Refused(was, to) && cursors == old(cursors)
              else
                var risk := if to < was then Replay else if to > was then Skip else NoRisk;
                var p := Advanced(old(Get(key)), token, Action.Reposition, reason, operator, risk);
                outcome == Moved(p) && cursors == old(cursors)[key := p]
    {
      var oldSeq, newSeq := if key in cursors then cursors[key].seqNo else 0, SeqOf(token);
      var risk := NoRisk;
      if newSeq < oldSeq {
        if !allowReplay {
          return Refused(oldSeq, newSeq);
        }
        risk := Replay;
      } else if newSeq > oldSeq {
        if !allowSkip {
          return Refused(oldSeq, newSeq);
        }
        risk := Skip;
      }
      var position := Record(key, token, Action.Reposition, reason, operator, risk);
      return Moved(position);
    }

    /** Anywhere, always marked as a replay. */
    method Reset(key: Key, token: Token, reason: string, operator: string) returns (position: Position)
      requires Valid()
      modifies this
      ensures Valid()
      ensures position == Advanced(old(Get(key)), token, Action.Reset, reason, operator, Replay)
      ensures cursors == old(cursors)[key := position]
    {
      position := Record(key, token, Action.Reset, reason, operator, Replay);
    }

    method Delete(key: Key) returns (removed: bool)
      requires Valid()
      modifies this
      ensures Valid() && removed == (key in old(cursors)) && cursors == old(cursors) - {key}
    {
      removed := key in cursors;
      cursors := cursors - {key};
    }
  }

  // ---------------------------------------------------------------- at least once

  /** One round of a consumer: what happened to the stream before it, the limit it reads with, how many
      events of the page it handles, and whether it lives to commit the page's cursor. */
  datatype Round = Round(ops: seq<Op>, limit: nat, handled: nat, committed: bool)

  /** A consumer whose committed position is at seq `from` goes through the rounds and gets the pages, position by
      position. */
  ghost predicate ConsumedSeqs(c: Codec, cfg: Config, s: State, history: seq<Event>, from: nat, pred: Event -> bool,
                               rounds: seq<Round>, pages: seq<Page>)
    decreases |rounds|
  {
    && |pages| == |rounds|
    && (rounds != [] ==>
          && AllAllowed(c, cfg, s, rounds[0].ops)
          && var t, recorded := Run(c, cfg, s, rounds[0].ops), RunRecorded(c, cfg, s, history, rounds[0].ops);
             && IsPage(c, cfg, t, recorded, from, rounds[0].limit, pred, pages[0])
             && rounds[0].handled <= |pages[0].events|
             && (rounds[0].committed ==> rounds[0].handled == |pages[0].events|)
             && ConsumedSeqs(c, cfg, t, recorded, Committed(from, rounds[0], pages[0]), pred, rounds[1..], pages[1..]))
  }

  function Committed(from: nat, round: Round, page: Page): nat {
    if round.committed then page.next.seqNo else from
  }

  /** What the pages of the rounds covered. */
  function Coverage(c: Codec, cfg: Config, s: State, from: nat, rounds: seq<Round>,
                    pages: seq<Page>): (vs: seq<Covered>)
    requires |pages| == |rounds|
    ensures |vs| == |rounds|
    decreases |rounds|
  {
    if rounds == [] then []
    else
      var t := Run(c, cfg, s, rounds[0].ops);
      [Covered(from, pages[0].next.seqNo, FirstSeq(t), pages[0].events)]
      + Coverage(c, cfg, t, Committed(from, rounds[0], pages[0]), rounds[1..], pages[1..])
  }

  /** The committed position after the first n rounds. */
  function CommittedAfter(from: nat, rounds: seq<Round>, vs: seq<Covered>, n: nat): nat
    requires n <= |rounds| == |vs|
  {
    if n == 0 then from else if rounds[n - 1].committed then vs[n - 1].to else vs[n - 1].from
  }

  function RoundOps(rounds: seq<Round>): seq<Op> {
    if rounds == [] then [] else rounds[0].ops + RoundOps(rounds[1..])
  }

  /** The round reads from the committed position, handles a first part of its page, and all of it if it commits. */
  predicate RoundAt(from: nat, rounds: seq<Round>, vs: seq<Covered>, k: nat)
    requires k < |rounds| == |vs|
  {
    && vs[k].from == CommittedAfter(from, rounds, vs, k)
    && rounds[k].handled <= |vs[k].events|
    && (rounds[k].committed ==> rounds[k].handled == |vs[k].events|)
  }

  ghost predicate RoundsFrom(from: nat, rounds: seq<Round>, vs: seq<Covered>) {
    |vs| == |rounds| && forall k | 0 <= k < |vs| :: RoundAt(from, rounds, vs, k)
  }

  /** What a round handles of its page. */
  function HandledOf(round: Round, v: Covered): seq<Event> {
    if round.handled <= |v.events| then v.events[..round.handled] else v.events
  }

  /** Everything handled in the first n rounds, repeats included. */
  function Handled(rounds: seq<Round>, vs: seq<Covered>, n: nat): seq<Event>
    requires n <= |rounds| == |vs|
  {
    if n == 0 then [] else Handled(rounds, vs, n - 1) + HandledOf(rounds[n - 1], vs[n - 1])
  }

  /** Record i was handled in the first n rounds, or one of them missed it. */
  ghost predicate Accounted(history: seq<Event>, rounds: seq<Round>, vs: seq<Covered>, n: nat, i: nat)
    requires n <= |rounds| == |vs| && i < |history|
  {
    history[i] in Handled(rounds, vs, n) || exists k | 0 <= k < n :: Missed(vs[k], i)
  }

  /** Whenever a round handles an event, every earlier matching record was handled before it or missed by then. */
  ghost predicate HandledInOrder(history: seq<Event>, from: nat, pred: Event -> bool, rounds: seq<Round>,
                                 vs: seq<Covered>)
    requires |rounds| == |vs|
  {
    forall k, j, i | 0 <= k < |rounds| && 0 <= j < |HandledOf(rounds[k], vs[k])|
                     && from <= i < vs[k].events[j].seqNo - 1 && i < |history| && pred(history[i]) ::
      history[i] in vs[k].events[..j] || Missed(vs[k], i) || Accounted(history, rounds, vs, k, i)
  }

  /** What follows for the seqs alone; `AtLeastOnce` is about the tokens that are read from and committed. */
  lemma {:induction false} SeqsAtLeastOnce(c: Codec, cfg: Config, s: State, history: seq<Event>, from: nat,
                                           pred: Event -> bool, rounds: seq<Round>, pages: seq<Page>)
    requires Sound(c) && Inv(c, s, history) && from <= |history|
    requires ConsumedSeqs(c, cfg, s, history, from, pred, rounds, pages)
    ensures var recorded := RunRecorded(c, cfg, s, history, RoundOps(rounds));
            var vs := Coverage(c, cfg, s, from, rounds, pages);
            var to := CommittedAfter(from, rounds, vs, |rounds|);
            && AllExact(recorded, vs, pred) && RoundsFrom(from, rounds, vs) && from <= to <= |recorded|
            && HandledInOrder(recorded, from, pred, rounds, vs)
            && forall i | from <= i < to && pred(recorded[i]) :: Accounted(recorded, rounds, vs, |rounds|, i)
  {
    RoundsExact(c, cfg, s, history, from, pred, rounds, pages);
    var recorded, vs := RunRecorded(c, cfg, s, history, RoundOps(rounds)), Coverage(c, cfg, s, from, rounds, pages);
    CommitsForward(recorded, from, rounds, vs, pred, |rounds|);
    forall i | from <= i < CommittedAfter(from, rounds, vs, |rounds|) && pred(recorded[i])
      ensures Accounted(recorded, rounds, vs, |rounds|, i)
    {
      BelowCommitted(recorded, from, rounds, vs, pred, |rounds|, i);
    }
    RoundsInOrder(recorded, from, rounds, vs, pred);
  }

  lemma {:induction false} RoundsExact(c: Codec, cfg: Config, s: State, history: seq<Event>, from: nat,
                                       pred: Event -> bool, rounds: seq<Round>, pages: seq<Page>)
    requires Sound(c) && Inv(c, s, history) && from <= |history|
    requires ConsumedSeqs(c, cfg, s, history, from, pred, rounds, pages)
    ensures var recorded := RunRecorded(c, cfg, s, history, RoundOps(rounds));
            var vs := Coverage(c, cfg, s, from, rounds, pages);
            && history <= recorded && Numbered(recorded)
            && AllExact(recorded, vs, pred) && RoundsFrom(from, rounds, vs)
    decreases |rounds|
  {
    if rounds != [] {
      var round, page := rounds[0], pages[0];
      var t, recorded := Run(c, cfg, s, round.ops), RunRecorded(c, cfg, s, history, round.ops);
      RunKeeps(c, cfg, s, history, round.ops);
      RoundsExact(c, cfg, t, recorded, Committed(from, round, page), pred, rounds[1..], pages[1..]);
      RunConcat(c, cfg, s, history, round.ops, RoundOps(rounds[1..]));
      PageExact(t, recorded, from, page.next.seqNo, pred);
      FirstRound(recorded, RunRecorded(c, cfg, s, history, RoundOps(rounds)),
                 Covered(from, page.next.seqNo, FirstSeq(t), page.events), rounds,
                 Coverage(c, cfg, t, Committed(from, round, page), rounds[1..], pages[1..]), pred);
    }
  }

  lemma FirstRound(history: seq<Event>, longer: seq<Event>, v: Covered, rounds: seq<Round>, rest: seq<Covered>,
                   pred: Event -> bool)
    requires history <= longer && Exact(history, v, pred) && rounds != []
    requires RoundAt(v.from, rounds[..1], [v], 0)
    requires AllExact(longer, rest, pred) && RoundsFrom(if rounds[0].committed then v.to else v.from, rounds[1..], rest)
    ensures AllExact(longer, [v] + rest, pred) && RoundsFrom(v.from, rounds, [v] + rest)
  {
    ExactLater(history, longer, v, pred);
    var all, next := [v] + rest, if rounds[0].committed then v.to else v.from;
    forall k | 0 <= k < |all|
      ensures RoundAt(v.from, rounds, all, k)
    {
      assert k > 0 ==> RoundAt(next, rounds[1..], rest, k - 1);
    }
  }

  lemma {:induction false} CommitsForward(history: seq<Event>, from: nat, rounds: seq<Round>, vs: seq<Covered>,
                                          pred: Event -> bool, n: nat)
    requires from <= |history| && AllExact(history, vs, pred) && RoundsFrom(from, rounds, vs) && n <= |rounds|
    ensures from <= CommittedAfter(from, rounds, vs, n) <= |history|
  {
    if n > 0 {
      CommitsForward(history, from, rounds, vs, pred, n - 1);
      assert RoundAt(from, rounds, vs, n - 1) && Exact(history, vs[n - 1], pred);
    }
  }

  /** Every matching record below a committed position was handled by the round that moved over it, or missed. */
  lemma {:induction false} BelowCommitted(history: seq<Event>, from: nat, rounds: seq<Round>, vs: seq<Covered>,
                                          pred: Event -> bool, n: nat, i: nat)
    requires AllExact(history, vs, pred) && RoundsFrom(from, rounds, vs) && n <= |rounds|
    requires from <= i < CommittedAfter(from, rounds, vs, n) && i < |history| && pred(history[i])
    ensures Accounted(history, rounds, vs, n, i)
  {
    assert n > 0;
    var v := vs[n - 1];
    assert RoundAt(from, rounds, vs, n - 1);
    if i < v.from {
      BelowCommitted(history, from, rounds, vs, pred, n - 1, i);
    } else {
      assert Exact(history, v, pred) && HandledOf(rounds[n - 1], v) == v.events;
    }
  }

  lemma RoundsInOrder(history: seq<Event>, from: nat, rounds: seq<Round>, vs: seq<Covered>, pred: Event -> bool)
    requires AllExact(history, vs, pred) && RoundsFrom(from, rounds, vs) && Numbered(history)
    ensures HandledInOrder(history, from, pred, rounds, vs)
  {
    forall k, j, i | 0 <= k < |rounds| && 0 <= j < |HandledOf(rounds[k], vs[k])|
                     && from <= i < vs[k].events[j].seqNo - 1 && i < |history| && pred(history[i])
      ensures history[i] in vs[k].events[..j] || Missed(vs[k], i) || Accounted(history, rounds, vs, k, i)
    {
      assert Exact(history, vs[k], pred) && RoundAt(from, rounds, vs, k);
      if i < vs[k].from {
        BelowCommitted(history, from, rounds, vs, pred, k, i);
      } else {
        PageInOrder(history, vs[k], pred, i, j);
      }
    }
  }

  /** Within a page, the matching records before the j-th event come before it. */
  lemma PageInOrder(history: seq<Event>, v: Covered, pred: Event -> bool, i: nat, j: nat)
    requires Numbered(history) && Exact(history, v, pred)
    requires j < |v.events| && v.from <= i < v.events[j].seqNo - 1 && i < |history| && pred(history[i])
    ensures history[i] in v.events[..j] || Missed(v, i)
  {
    assert v.events[j] in v.events;
    if !Missed(v, i) {
      var m :| 0 <= m < |v.events| && v.events[m] == history[i];
      assert v.events[..j][m] == history[i];
    }
  }

  // ---------------------------------------------------------------- with tokens

  /** A committed position resumes at a cursor the stream has handed out. */
  ghost predicate GoodPosition(c: Codec, cfg: Config, s: State, position: Option<Position>) {
    match position
    case None => true
    case Some(p) => Audited(p) && p.token.Decoded? && GoodCursor(c, cfg, s, p.token.cursor)
  }

  /** What a round leaves of the position: a consumer that lives to commit commits the page's cursor. */
  function RoundOutcome(position: Option<Position>, page: Page): Outcome {
    Committing(position, Decoded(page.next), "processed", "consumer")
  }

  function AfterRound(position: Option<Position>, round: Round, result: ReadResult): Option<Position> {
    if round.committed && result.Ok? then PositionAfter(position, RoundOutcome(position, result.page)) else position
  }

  /** A consumer goes through the rounds: each time it reads from the token of its committed position, handles a first
      part of the page it gets, if it gets one, and may commit the page's cursor. */
  ghost predicate Consumed(c: Codec, cfg: Config, s: State, history: seq<Event>, position: Option<Position>,
                           pred: Event -> bool, rounds: seq<Round>, results: seq<ReadResult>)
    decreases |rounds|
  {
    && |results| == |rounds|
    && (rounds != [] ==>
          && AllAllowed(c, cfg, s, rounds[0].ops)
          && var t, recorded := Run(c, cfg, s, rounds[0].ops), RunRecorded(c, cfg, s, history, rounds[0].ops);
             && Answers(c, cfg, t, recorded, TokenOf(position), rounds[0].limit, pred, results[0])
             && Handles(rounds[0], results[0])
             && Consumed(c, cfg, t, recorded, AfterRound(position, rounds[0], results[0]), pred, rounds[1..],
                         results[1..]))
  }

  predicate Handles(round: Round, result: ReadResult) {
    result.Ok? ==>
      && round.handled <= |result.page.events|
      && (round.committed ==> round.handled == |result.page.events|)
  }

  function PositionAt(position: Option<Position>, rounds: seq<Round>, results: seq<ReadResult>): Option<Position>
    requires |results| == |rounds|
    decreases |rounds|
  {
    if rounds == [] then position
    else PositionAt(AfterRound(position, rounds[0], results[0]), rounds[1..], results[1..])
  }

  predicate AllOk(results: seq<ReadResult>) {
    forall i | 0 <= i < |results| :: results[i].Ok?
  }

  function PagesOf(results: seq<ReadResult>): (pages: seq<Page>)
    requires AllOk(results)
    ensures |pages| == |results|
  {
    seq(|results|, i requires 0 <= i < |results| => results[i].page)
  }

  /** Nothing is refused: each read gets its page, and each commit moves the position. */
  ghost predicate GoesThrough(c: Codec, cfg: Config, s: State, history: seq<Event>, position: Option<Position>,
                              pred: Event -> bool, rounds: seq<Round>, results: seq<ReadResult>)
    decreases |rounds|
  {
    && |results| == |rounds|
    && (rounds != [] ==>
          && AllAllowed(c, cfg, s, rounds[0].ops)
          && results[0].Ok? && Handles(rounds[0], results[0])
          && var t, recorded := Run(c, cfg, s, rounds[0].ops), RunRecorded(c, cfg, s, history, rounds[0].ops);
             && IsPage(c, cfg, t, recorded, SeqBefore(position), rounds[0].limit, pred, results[0].page)
             && RoundOutcome(position, results[0].page).Moved?
             && GoesThrough(c, cfg, t, recorded, AfterRound(position, rounds[0], results[0]), pred, rounds[1..],
                            results[1..]))
  }

  /** The read of one round gets a page, and its commit goes through and leaves a good position. */
  lemma RoundGoesThrough(c: Codec, cfg: Config, s: State, history: seq<Event>, position: Option<Position>,
                         pred: Event -> bool, round: Round, result: ReadResult)
    requires Inv(c, s, history) && GoodPosition(c, cfg, s, position)
    requires Answers(c, cfg, s, history, TokenOf(position), round.limit, pred, result)
    ensures result.Ok? && IsPage(c, cfg, s, history, SeqBefore(position), round.limit, pred, result.page)
    ensures RoundOutcome(position, result.page).Moved?
    ensures GoodPosition(c, cfg, s, AfterRound(position, round, result))
    ensures SeqBefore(AfterRound(position, round, result)) == Committed(SeqBefore(position), round, result.page)
  {
    assert IsPage(c, cfg, s, history, SeqBefore(position), round.limit, pred, result.page);
    AdvancedAudited(position, Decoded(result.page.next), Action.Commit, "processed", "consumer", NoRisk);
  }

  lemma {:induction false} RunKeepsPosition(c: Codec, cfg: Config, s: State, history: seq<Event>, ops: seq<Op>,
                                            position: Option<Position>)
    requires Sound(c) && Inv(c, s, history) && AllAllowed(c, cfg, s, ops) && GoodPosition(c, cfg, s, position)
    ensures GoodPosition(c, cfg, Run(c, cfg, s, ops), position)
  {
    match position
    case None =>
    case Some(p) => RunKeepsCursor(c, cfg, s, history, ops, p.token.cursor);
  }

  lemma {:induction false} FirstGoesThrough(c: Codec, cfg: Config, s: State, history: seq<Event>,
                                            position: Option<Position>, pred: Event -> bool, rounds: seq<Round>,
                                            results: seq<ReadResult>)
    requires Sound(c) && Inv(c, s, history) && GoodPosition(c, cfg, s, position) && rounds != []
    requires Consumed(c, cfg, s, history, position, pred, rounds, results)
    ensures var t, recorded := Run(c, cfg, s, rounds[0].ops), RunRecorded(c, cfg, s, history, rounds[0].ops);
            var next := AfterRound(position, rounds[0], results[0]);
            && AllAllowed(c, cfg, s, rounds[0].ops) && Inv(c, t, recorded) && GoodPosition(c, cfg, t, next)
            && results[0].Ok? && Handles(rounds[0], results[0])
            && IsPage(c, cfg, t, recorded, SeqBefore(position), rounds[0].limit, pred, results[0].page)
            && RoundOutcome(position, results[0].page).Moved?
            && SeqBefore(next) == Committed(SeqBefore(position), rounds[0], results[0].page)
            && Consumed(c, cfg, t, recorded, next, pred, rounds[1..], results[1..])
  {
    var t, recorded := Run(c, cfg, s, rounds[0].ops), RunRecorded(c, cfg, s, history, rounds[0].ops);
    RunKeeps(c, cfg, s, history, rounds[0].ops);
    RunKeepsPosition(c, cfg, s, history, rounds[0].ops, position);
    RoundGoesThrough(c, cfg, t, recorded, position, pred, rounds[0], results[0]);
  }

  /** Nothing is ever refused: every read gets a page, and every commit moves the position to a good one. */
  lemma {:induction false} NothingRefused(c: Codec, cfg: Config, s: State, history: seq<Event>,
                                          position: Option<Position>, pred: Event -> bool, rounds: seq<Round>,
                                          results: seq<ReadResult>)
    requires Sound(c) && Inv(c, s, history) && GoodPosition(c, cfg, s, position)
    requires Consumed(c, cfg, s, history, position, pred, rounds, results)
    ensures GoesThrough(c, cfg, s, history, position, pred, rounds, results) && AllOk(results)
    ensures GoodPosition(c, cfg, Run(c, cfg, s, RoundOps(rounds)), PositionAt(position, rounds, results))
    decreases |rounds|
  {
    if rounds != [] {
      var t, recorded := Run(c, cfg, s, rounds[0].ops), RunRecorded(c, cfg, s, history, rounds[0].ops);
      FirstGoesThrough(c, cfg, s, history, position, pred, rounds, results);
      NothingRefused(c, cfg, t, recorded, AfterRound(position, rounds[0], results[0]), pred, rounds[1..], results[1..]);
      RunConcat(c, cfg, s, history, rounds[0].ops, RoundOps(rounds[1..]));
      FirstOk(results);
    }
  }

  lemma FirstOk(results: seq<ReadResult>)
    requires results != [] && results[0].Ok? && AllOk(results[1..])
    ensures AllOk(results) && PagesOf(results) == [results[0].page] + PagesOf(results[1..])
  {
    assert forall i | 0 < i < |results| :: results[i] == results[1..][i - 1];
  }

  /** Reading from tokens and committing them is reading from seqs and moving on. */
  lemma {:induction false} TokensFollowSeqs(c: Codec, cfg: Config, s: State, history: seq<Event>,
                                            position: Option<Position>, pred: Event -> bool, rounds: seq<Round>,
                                            results: seq<ReadResult>)
    requires GoesThrough(c, cfg, s, history, position, pred, rounds, results) && AllOk(results)
    ensures ConsumedSeqs(c, cfg, s, history, SeqBefore(position), pred, rounds, PagesOf(results))
    decreases |rounds|
  {
    if rounds != [] {
      var t, recorded := Run(c, cfg, s, rounds[0].ops), RunRecorded(c, cfg, s, history, rounds[0].ops);
      var next := AfterRound(position, rounds[0], results[0]);
      assert SeqBefore(next) == Committed(SeqBefore(position), rounds[0], results[0].page);
      TokensFollowSeqs(c, cfg, t, recorded, next, pred, rounds[1..], results[1..]);
      FirstOk(results);
      FirstConsumed(c, cfg, s, history, SeqBefore(position), pred, rounds, results[0].page, PagesOf(results[1..]));
    }
  }

  lemma {:induction false} FirstConsumed(c: Codec, cfg: Config, s: State, history: seq<Event>, from: nat,
                                         pred: Event -> bool, rounds: seq<Round>, page: Page, pages: seq<Page>)
    requires rounds != [] && AllAllowed(c, cfg, s, rounds[0].ops)
    requires var t, recorded := Run(c, cfg, s, rounds[0].ops), RunRecorded(c, cfg, s, history, rounds[0].ops);
             && IsPage(c, cfg, t, recorded, from, rounds[0].limit, pred, page)
             && ConsumedSeqs(c, cfg, t, recorded, Committed(from, rounds[0], page), pred, rounds[1..], pages)
    requires Handles(rounds[0], Ok(page))
    ensures ConsumedSeqs(c, cfg, s, history, from, pred, rounds, [page] + pages)
  {
    assert ([page] + pages)[1..] == pages && ([page] + pages)[0] == page;
  }

  lemma CommittedFromFront(rounds: seq<Round>, v: Covered, rest: seq<Covered>)
    requires rounds != [] && |rest| + 1 == |rounds|
    ensures CommittedAfter(v.from, rounds, [v] + rest, |rounds|)
         == CommittedAfter(if rounds[0].committed then v.to else v.from, rounds[1..], rest, |rest|)
  {
  }

  /** The position ends at the seq of the last commit. */
  lemma {:induction false} PositionFollows(c: Codec, cfg: Config, s: State, history: seq<Event>,
                                           position: Option<Position>, pred: Event -> bool, rounds: seq<Round>,
                                           results: seq<ReadResult>)
    requires GoesThrough(c, cfg, s, history, position, pred, rounds, results) && AllOk(results)
    ensures var from, vs := SeqBefore(position), Coverage(c, cfg, s, SeqBefore(position), rounds, PagesOf(results));
            SeqBefore(PositionAt(position, rounds, results)) == CommittedAfter(from, rounds, vs, |rounds|)
    decreases |rounds|
  {
    if rounds != [] {
      var t, recorded := Run(c, cfg, s, rounds[0].ops), RunRecorded(c, cfg, s, history, rounds[0].ops);
      var next := AfterRound(position, rounds[0], results[0]);
      assert SeqBefore(next) == Committed(SeqBefore(position), rounds[0], results[0].page);
      PositionFollows(c, cfg, t, recorded, next, pred, rounds[1..], results[1..]);
      FirstOk(results);
      var page, pages := results[0].page, PagesOf(results[1..]);
      assert PagesOf(results)[1..] == pages;
      CommittedFromFront(rounds, Covered(SeqBefore(position), page.next.seqNo, FirstSeq(t), page.events),
                         Coverage(c, cfg, t, SeqBefore(next), rounds[1..], pages));
    }
  }

  /** At least once and in order: a consumer that reads from the token it has committed, and that may stop anywhere
      between reading a page, handling its events and committing its cursor, is never refused. It has handled every
      matching record up to its committed position, but for those that retention had dropped when the round that moved
      over them read its page; and it handles no record before an earlier one. Its commits never move backward. */
  lemma {:induction false} AtLeastOnce(c: Codec, cfg: Config, s: State, history: seq<Event>,
                                       position: Option<Position>, pred: Event -> bool, rounds: seq<Round>,
                                       results: seq<ReadResult>)
    requires Sound(c) && Inv(c, s, history) && GoodPosition(c, cfg, s, position)
    requires Consumed(c, cfg, s, history, position, pred, rounds, results)
    ensures GoesThrough(c, cfg, s, history, position, pred, rounds, results) && AllOk(results)
    ensures var recorded, from := RunRecorded(c, cfg, s, history, RoundOps(rounds)), SeqBefore(position);
            var vs, last := Coverage(c, cfg, s, from, rounds, PagesOf(results)), PositionAt(position, rounds, results);
            var to := SeqBefore(last);
            && GoodPosition(c, cfg, Run(c, cfg, s, RoundOps(rounds)), last)
            && AllExact(recorded, vs, pred) && RoundsFrom(from, rounds, vs) && from <= to <= |recorded|
            && HandledInOrder(recorded, from, pred, rounds, vs)
            && forall i | from <= i < to && pred(recorded[i]) :: Accounted(recorded, rounds, vs, |rounds|, i)
  {
    NothingRefused(c, cfg, s, history, position, pred, rounds, results);
    TokensFollowSeqs(c, cfg, s, history, position, pred, rounds, results);
    PositionFollows(c, cfg, s, history, position, pred, rounds, results);
    SeqsAtLeastOnce(c, cfg, s, history, SeqBefore(position), pred, rounds, PagesOf(results));
  }
}
