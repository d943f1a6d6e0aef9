// Whole runs of a stream: appends (with rotation and retention), crashes inside an append followed
// by recovery, restarts, and the polls of readers in between.
module LogRuns {
  import opened Sequences
  import opened LineFile
  import opened EventLog
  import opened LogAppend
  import opened LogRead
  import opened LogCrash

  datatype Op = DoAppend(event: Event) | DoCrash(event: Event, at: CrashPoint) | DoRestart

  function Step(c: Codec, cfg: Config, s: State, op: Op): State {
    match op
    case DoAppend(e) => Append(c, cfg, s, e).0
    case DoRestart => Recovered(c, s.disk)
    case DoCrash(e, at) => Recovered(c, if Duplicate(s, e) then s.disk else CrashDisk(c, s, e, at))
  }

  /** The history of everything written, after one step. */
  function Recorded(c: Codec, s: State, history: seq<Event>, op: Op): seq<Event> {
    match op
    case DoRestart => history
    case DoAppend(e) => if Duplicate(s, e) then history else history + [Stamped(s, e)]
    case DoCrash(e, at) =>
      if !Duplicate(s, e) && Survives(c, s, e, at) then history + [Stamped(s, e)] else history
  }

  /** No crash leaves a whole record without its newline. */
  predicate Allowed(c: Codec, s: State, op: Op) {
    op.DoCrash? && !Duplicate(s, op.event) ==> !WholeButNewline(c, s, op.event, op.at)
  }

  function Run(c: Codec, cfg: Config, s: State, ops: seq<Op>): State
    decreases |ops|
  {
    if ops == [] then s else Run(c, cfg, Step(c, cfg, s, ops[0]), ops[1..])
  }

  function RunRecorded(c: Codec, cfg: Config, s: State, history: seq<Event>, ops: seq<Op>): seq<Event>
    decreases |ops|
  {
    if ops == [] then history
    else RunRecorded(c, cfg, Step(c, cfg, s, ops[0]), Recorded(c, s, history, ops[0]), ops[1..])
  }

  predicate AllAllowed(c: Codec, cfg: Config, s: State, ops: seq<Op>)
    decreases |ops|
  {
    ops != [] ==> Allowed(c, s, ops[0]) && AllAllowed(c, cfg, Step(c, cfg, s, ops[0]), ops[1..])
  }

  const FRESH := State(0, 0, 1, [], map[], Disk([], map[], None))

  lemma FreshIsGood(c: Codec)
    ensures Inv(c, FRESH, [])
    ensures Recovered(c, FRESH.disk) == FRESH
  {
    var only := ActiveSource(FRESH);
    assert Sources(FRESH) == [only];
    assert Retained(c, FRESH) == [] by {
      assert FileRecords(c, [], 0, 0) == [];
      assert [only][1..] == [];
      assert SourceRecords(c, [only]) == FileRecords(c, [], 0, 0) + SourceRecords(c, [only][1..]);
    }
    assert Holds(c, only, []);
    assert Inv(c, FRESH, []);
    RestartRestores(c, FRESH, []);
  }

  lemma StepKeeps(c: Codec, cfg: Config, s: State, history: seq<Event>, op: Op)
    requires Sound(c) && Inv(c, s, history) && Allowed(c, s, op)
    ensures Inv(c, Step(c, cfg, s, op), Recorded(c, s, history, op))
    ensures FirstSeq(s) <= FirstSeq(Step(c, cfg, s, op))
    ensures history <= Recorded(c, s, history, op)
  {
    match op
    case DoAppend(e) => AppendKeeps(c, cfg, s, history, e);
    case DoRestart => RestartRestores(c, s, history);
    case DoCrash(e, at) =>
      if Duplicate(s, e) {
        RestartRestores(c, s, history);
      } else {
        CrashRecovers(c, s, history, e, at);
      }
  }

  lemma StepKeepsCursor(c: Codec, cfg: Config, s: State, history: seq<Event>, op: Op, cur: Cursor)
    requires Sound(c) && Inv(c, s, history) && Allowed(c, s, op) && GoodCursor(c, cfg, s, cur)
    ensures GoodCursor(c, cfg, Step(c, cfg, s, op), cur)
  {
    match op
    case DoAppend(e) => AppendKeepsCursor(c, cfg, s, history, e, cur);
    case DoRestart => RestartRestores(c, s, history);
    case DoCrash(e, at) =>
      if Duplicate(s, e) {
        RestartRestores(c, s, history);
      } else {
        CrashRecovers(c, s, history, e, at);
        CrashKeepsCursor(c, cfg, s, e, at, cur);
      }
  }

  /** Every reachable state is good: memory, index and files agree with the history, which only grows. */
  lemma {:induction false} RunKeeps(c: Codec, cfg: Config, s: State, history: seq<Event>, ops: seq<Op>)
    requires Sound(c) && Inv(c, s, history) && AllAllowed(c, cfg, s, ops)
    ensures Inv(c, Run(c, cfg, s, ops), RunRecorded(c, cfg, s, history, ops))
    ensures FirstSeq(s) <= FirstSeq(Run(c, cfg, s, ops))
    ensures history <= RunRecorded(c, cfg, s, history, ops)
    decreases |ops|
  {
    if ops != [] {
      StepKeeps(c, cfg, s, history, ops[0]);
      RunKeeps(c, cfg, Step(c, cfg, s, ops[0]), Recorded(c, s, history, ops[0]), ops[1..]);
    }
  }

  /** A cursor once handed out stays good for the rest of every run. */
  lemma {:induction false} RunKeepsCursor(c: Codec, cfg: Config, s: State, history: seq<Event>, ops: seq<Op>,
                                          cur: Cursor)
    requires Sound(c) && Inv(c, s, history) && AllAllowed(c, cfg, s, ops) && GoodCursor(c, cfg, s, cur)
    ensures GoodCursor(c, cfg, Run(c, cfg, s, ops), cur)
    decreases |ops|
  {
    if ops != [] {
      StepKeeps(c, cfg, s, history, ops[0]);
      StepKeepsCursor(c, cfg, s, history, ops[0], cur);
      RunKeepsCursor(c, cfg, Step(c, cfg, s, ops[0]), Recorded(c, s, history, ops[0]), ops[1..], cur);
    }
  }

  /** At every later state of every run, a cursor handed out earlier is not beyond the end, and the
      fast path, when chosen, finds exactly the records of the seq scan. */
  lemma {:induction false} OffsetScanRefinesSeqScan(c: Codec, cfg: Config, s: State, history: seq<Event>,
                                                    ops: seq<Op>, cur: Cursor)
    requires Sound(c) && Inv(c, s, history) && AllAllowed(c, cfg, s, ops) && GoodCursor(c, cfg, s, cur)
    ensures var t := Run(c, cfg, s, ops);
            && cur.seqNo <= t.seqNo
            && (UsesOffset(t, cur) ==>
                  && cur.off <= |t.disk.active|
                  && After(FileRecords(c, t.disk.active, cur.off, t.gen), cur.seqNo) == After(Retained(c, t), cur.seqNo))
  {
    var t := Run(c, cfg, s, ops);
    RunKeeps(c, cfg, s, history, ops);
    RunKeepsCursor(c, cfg, s, history, ops, cur);
    if UsesOffset(t, cur) {
      OffsetScanIsSeqScan(c, cfg, t, RunRecorded(c, cfg, s, history, ops), cur);
    }
  }

  /** An acknowledged record is held, unchanged and at its seq, until retention drops its file. */
  lemma {:induction false} AcknowledgedSurvives(c: Codec, cfg: Config, s: State, history: seq<Event>, e: Event,
                                                ops: seq<Op>)
    requires Sound(c) && Inv(c, s, history) && !Duplicate(s, e)
    requires AllAllowed(c, cfg, Append(c, cfg, s, e).0, ops)
    ensures var x, t := Append(c, cfg, s, e).1.event, Run(c, cfg, Append(c, cfg, s, e).0, ops);
            && (x.seqNo < FirstSeq(t) || x in Events(Retained(c, t)))
            && x == e.(seqNo := |history| + 1)
            && forall y | y in Events(Retained(c, t)) && y.seqNo == x.seqNo :: y == x
  {
    var u, x := Append(c, cfg, s, e).0, Stamped(s, e);
    AppendKeeps(c, cfg, s, history, e);
    RunKeeps(c, cfg, u, history + [x], ops);
    var t, recorded := Run(c, cfg, u, ops), RunRecorded(c, cfg, u, history + [x], ops);
    RetainedIsSuffix(c, t, recorded);
    assert recorded[|history|] == x;
    if FirstSeq(t) <= x.seqNo {
      assert recorded[FirstSeq(t) - 1..][x.seqNo - FirstSeq(t)] == x;
    }
  }

  // ---------------------------------------------------------------- what retention may drop

  /** The file of every segment has reached the size at which a file is archived. */
  predicate AllFull(cfg: Config, s: State) {
    forall i | 0 <= i < |s.segments| :: FullAt(cfg, s, i)
  }

  predicate FullAt(cfg: Config, s: State, i: nat)
    requires i < |s.segments|
  {
    var gen := s.segments[i].gen;
    gen in s.disk.archived && |s.disk.archived[gen]| >= cfg.rotateMaxBytes
  }

  lemma SameFull(cfg: Config, s: State, t: State)
    requires AllFull(cfg, s) && t.segments == s.segments && t.disk.archived == s.disk.archived
    ensures AllFull(cfg, t)
  {
    forall i | 0 <= i < |t.segments|
      ensures FullAt(cfg, t, i)
    {
      assert FullAt(cfg, s, i);
    }
  }

  lemma AppendKeepsFull(c: Codec, cfg: Config, s: State, history: seq<Event>, e: Event)
    requires Inv(c, s, history) && AllFull(cfg, s)
    ensures var t := Append(c, cfg, s, e).0;
            AllFull(cfg, t) && (FirstSeq(t) > FirstSeq(s) ==> |t.segments| == cfg.retentionMaxFiles)
    ensures |s.segments| == cfg.retentionMaxFiles ==> |Append(c, cfg, s, e).0.segments| == cfg.retentionMaxFiles
  {
    var t := Append(c, cfg, s, e).0;
    if !Duplicate(s, e) {
      if SizeWith(c, s, e) < cfg.rotateMaxBytes {
        SmallFileStays(c, cfg, s, e);
        SameFull(cfg, s, t);
      } else {
        RotationKeepsFull(c, cfg, s, history, e);
      }
    }
  }

  lemma RotationKeepsFull(c: Codec, cfg: Config, s: State, history: seq<Event>, e: Event)
    requires Inv(c, s, history) && AllFull(cfg, s) && !Duplicate(s, e) && SizeWith(c, s, e) >= cfg.rotateMaxBytes
    ensures var t := Append(c, cfg, s, e).0;
            AllFull(cfg, t) && (|t.segments| == cfg.retentionMaxFiles || FirstSeq(t) == FirstSeq(s))
    ensures |s.segments| == cfg.retentionMaxFiles ==> |Append(c, cfg, s, e).0.segments| == cfg.retentionMaxFiles
  {
    var t, all := Append(c, cfg, s, e).0, s.segments + [Segment(s.gen, s.activeStart, s.seqNo + 1)];
    FullFileRotates(c, cfg, s, history, e);
    var k := |all| - |t.segments|;
    forall i | 0 <= i < |t.segments|
      ensures FullAt(cfg, t, i)
    {
      assert t.segments[i] == all[k + i] && KeepsFile(c, s, e, t, t.segments[i].gen);
      if k + i < |s.segments| {
        assert FullAt(cfg, s, k + i);
        SegmentGen(c, s, history, k + i);
      }
    }
  }

  lemma SegmentGen(c: Codec, s: State, history: seq<Event>, i: nat)
    requires Inv(c, s, history) && i < |s.segments|
    ensures s.segments[i].gen < s.gen
  {
    GensBelow(c, s, history);
  }

  lemma StepKeepsFull(c: Codec, cfg: Config, s: State, history: seq<Event>, op: Op)
    requires Sound(c) && Inv(c, s, history) && Allowed(c, s, op) && AllFull(cfg, s)
    ensures var t := Step(c, cfg, s, op);
            AllFull(cfg, t) && (FirstSeq(t) > FirstSeq(s) ==> |t.segments| == cfg.retentionMaxFiles)
    ensures |s.segments| == cfg.retentionMaxFiles ==> |Step(c, cfg, s, op).segments| == cfg.retentionMaxFiles
  {
    match op
    case DoAppend(e) => AppendKeepsFull(c, cfg, s, history, e);
    case DoRestart => RestartRestores(c, s, history);
    case DoCrash(e, at) =>
      if Duplicate(s, e) {
        RestartRestores(c, s, history);
      } else {
        CrashRecovers(c, s, history, e, at);
        SameFull(cfg, s, Crashed(c, s, e, at));
      }
  }

  /** Over every run the segments stay full files, and once anything has been dropped there are as many as retention
      allows. */
  lemma {:induction false} RunKeepsFull(c: Codec, cfg: Config, s: State, history: seq<Event>, ops: seq<Op>)
    requires Sound(c) && Inv(c, s, history) && AllAllowed(c, cfg, s, ops) && AllFull(cfg, s)
    ensures var t := Run(c, cfg, s, ops);
            AllFull(cfg, t) && (FirstSeq(t) > FirstSeq(s) ==> |t.segments| == cfg.retentionMaxFiles)
    ensures |s.segments| == cfg.retentionMaxFiles ==> |Run(c, cfg, s, ops).segments| == cfg.retentionMaxFiles
    decreases |ops|
  {
    if ops != [] {
      var t, recorded := Step(c, cfg, s, ops[0]), Recorded(c, s, history, ops[0]);
      StepKeeps(c, cfg, s, history, ops[0]);
      StepKeepsFull(c, cfg, s, history, ops[0]);
      RunKeepsFull(c, cfg, t, recorded, ops[1..]);
    }
  }

  /** A segment that begins after seq q, in a file that had reached the size at which files are archived. */
  predicate FullAfter(cfg: Config, s: State, i: nat, q: nat)
    requires i < |s.segments|
  {
    s.segments[i].startSeq > q && FullAt(cfg, s, i)
  }

  /** Retention drops no record too early: over every run, whatever has been dropped lies before as many later archived
      files as retention is to keep, each of them full. */
  lemma {:induction false} DroppedBehindFullFiles(c: Codec, cfg: Config, s: State, history: seq<Event>, ops: seq<Op>,
                                                  q: nat)
    requires Sound(c) && Inv(c, s, history) && AllAllowed(c, cfg, s, ops) && AllFull(cfg, s)
    requires FirstSeq(s) <= q < FirstSeq(Run(c, cfg, s, ops))
    ensures var t := Run(c, cfg, s, ops);
            |t.segments| == cfg.retentionMaxFiles && forall i | 0 <= i < |t.segments| :: FullAfter(cfg, t, i, q)
  {
    var t := Run(c, cfg, s, ops);
    RunKeeps(c, cfg, s, history, ops);
    RunKeepsFull(c, cfg, s, history, ops);
    forall i | 0 <= i < |t.segments|
      ensures FullAfter(cfg, t, i, q)
    {
      SegmentsAscend(c, t, RunRecorded(c, cfg, s, history, ops), i);
      assert FullAt(cfg, t, i);
    }
  }

  lemma {:induction false} SegmentsAscend(c: Codec, s: State, history: seq<Event>, i: nat)
    requires Inv(c, s, history) && i < |s.segments|
    ensures FirstSeq(s) <= s.segments[i].startSeq
  {
    if i > 0 {
      SegmentsAscend(c, s, history, i - 1);
      assert Sources(s)[i - 1] in Sources(s) && Holds(c, Sources(s)[i - 1], history);
      assert Sources(s)[i - 1].endSeq + 1 == Sources(s)[i].startSeq;
    }
  }

  lemma FreshIsFull(cfg: Config)
    ensures AllFull(cfg, FRESH)
  {
  }

  // ---------------------------------------------------------------- polls

  datatype Page = Page(events: seq<Event>, next: Cursor, hasMore: bool, malformed: nat)

  /** The records a read goes through when it moves from seq `from` to seq `to`. */
  function Passed(s: State, history: seq<Event>, from: nat, to: nat): seq<Event>
    requires to <= |history|
  {
    var start := Max(from, FirstSeq(s) - 1);
    if to <= start then [] else history[start..to]
  }

  /** What a read promises: the matching records from the cursor up to the next cursor; it takes a
      record only while there is room for one, and stops early only when a further record is held. */
  ghost predicate IsPage(c: Codec, cfg: Config, s: State, history: seq<Event>, from: nat, limit: nat,
                         pred: Event -> bool, page: Page)
  {
    HoldsPassed(c, s, history, from, limit, pred, page) && GoodCursor(c, cfg, s, page.next)
  }

  ghost predicate HoldsPassed(c: Codec, s: State, history: seq<Event>, from: nat, limit: nat, pred: Event -> bool,
                              page: Page)
  {
    var to := page.next.seqNo;
    && from <= to <= |history|
    && (from < to ==> FirstSeq(s) <= to && |Filter(pred, Passed(s, history, from, to - 1))| < limit)
    && page.events == Filter(pred, Passed(s, history, from, to))
    && |page.events| <= limit
    && (page.hasMore <==> exists r :: r in Retained(c, s) && r.event.seqNo > to)
    && (page.hasMore ==> |page.events| == limit)
  }

  /** With room for one event, a read moves past its cursor whenever a later record is retained. */
  lemma PageProgresses(c: Codec, cfg: Config, s: State, history: seq<Event>, from: nat, limit: nat,
                       pred: Event -> bool, page: Page)
    requires Inv(c, s, history) && IsPage(c, cfg, s, history, from, limit, pred, page)
    requires 1 <= limit && exists r :: r in Retained(c, s) && r.event.seqNo > from
    ensures from < page.next.seqNo
  {
  }

  /** The promise leaves no choice: two pages for the same read agree. */
  lemma PageDetermined(c: Codec, cfg: Config, s: State, history: seq<Event>, from: nat, limit: nat,
                       pred: Event -> bool, p: Page, q: Page)
    requires Inv(c, s, history)
    requires IsPage(c, cfg, s, history, from, limit, pred, p) && IsPage(c, cfg, s, history, from, limit, pred, q)
    ensures p.next.seqNo == q.next.seqNo && p.events == q.events && p.hasMore == q.hasMore
  {
    if p.next.seqNo < q.next.seqNo {
      HeldBeyond(c, s, history, p.next.seqNo, q.next.seqNo);
      ShorterPageImpossible(c, s, history, from, limit, pred, p, q);
    } else if q.next.seqNo < p.next.seqNo {
      HeldBeyond(c, s, history, q.next.seqNo, p.next.seqNo);
      ShorterPageImpossible(c, s, history, from, limit, pred, q, p);
    }
  }

  lemma ShorterPageImpossible(c: Codec, s: State, history: seq<Event>, from: nat, limit: nat, pred: Event -> bool,
                              p: Page, q: Page)
    requires HoldsPassed(c, s, history, from, limit, pred, p) && HoldsPassed(c, s, history, from, limit, pred, q)
    requires p.hasMore
    ensures !(p.next.seqNo < q.next.seqNo)
  {
    var to, to' := p.next.seqNo, q.next.seqNo;
    if to < to' {
      PassedMore(s, history, from, to, to' - 1, pred);
    }
  }

  lemma HeldBeyond(c: Codec, s: State, history: seq<Event>, to: nat, further: nat)
    requires Consistent(c, s, history) && to < further <= |history| && FirstSeq(s) <= further
    ensures exists r :: r in Retained(c, s) && r.event.seqNo > to
  {
    RetainedSeqs(c, s, history);
    var r := Retained(c, s)[further - FirstSeq(s)];
    assert r in Retained(c, s) && r.event.seqNo == further;
  }

  /** Going further passes the same records first. */
  lemma PassedMore(s: State, history: seq<Event>, from: nat, to: nat, further: nat, pred: Event -> bool)
    requires to <= further <= |history|
    ensures Passed(s, history, from, to) <= Passed(s, history, from, further)
    ensures |Filter(pred, Passed(s, history, from, to))| <= |Filter(pred, Passed(s, history, from, further))|
  {
    var xs, ys := Passed(s, history, from, to), Passed(s, history, from, further);
    var rest := ys[|xs|..];
    assert ys == xs + rest;
    FilterConcat(pred, xs, rest);
  }

  // ---------------------------------------------------------------- pagination over runs

  /** A reader's poll: what happened to the stream since the last one, and the limit it asks for. */
  datatype Poll = Poll(ops: seq<Op>, limit: nat)

  /** A reader that starts at `cur` and polls again and again, each time from the last next cursor. */
  ghost predicate Polled(c: Codec, cfg: Config, s: State, history: seq<Event>, cur: Cursor, pred: Event -> bool,
                         polls: seq<Poll>, pages: seq<Page>)
    decreases |polls|
  {
    && |pages| == |polls|
    && (polls != [] ==>
          && AllAllowed(c, cfg, s, polls[0].ops)
          && var t, recorded := Run(c, cfg, s, polls[0].ops), RunRecorded(c, cfg, s, history, polls[0].ops);
             && IsPage(c, cfg, t, recorded, cur.seqNo, polls[0].limit, pred, pages[0])
             && Polled(c, cfg, t, recorded, pages[0].next, pred, polls[1..], pages[1..]))
  }

  function AllOps(polls: seq<Poll>): seq<Op> {
    if polls == [] then [] else polls[0].ops + AllOps(polls[1..])
  }

  function LastCursor(cur: Cursor, pages: seq<Page>): Cursor {
    if pages == [] then cur else pages[|pages| - 1].next
  }

  lemma {:induction false} RunConcat(c: Codec, cfg: Config, s: State, history: seq<Event>, xs: seq<Op>, ys: seq<Op>)
    ensures Run(c, cfg, s, xs + ys) == Run(c, cfg, Run(c, cfg, s, xs), ys)
    ensures RunRecorded(c, cfg, s, history, xs + ys)
         == RunRecorded(c, cfg, Run(c, cfg, s, xs), RunRecorded(c, cfg, s, history, xs), ys)
    decreases |xs|
  {
    if xs == [] {
      assert xs + ys == ys;
    } else {
      assert (xs + ys)[1..] == xs[1..] + ys;
      RunConcat(c, cfg, Step(c, cfg, s, xs[0]), Recorded(c, s, history, xs[0]), xs[1..], ys);
    }
  }

  /** What one read covered: the seqs it moved over, the first seq the stream held at that moment, and the
      events it gave. */
  datatype Covered = Covered(from: nat, to: nat, held: nat, events: seq<Event>)

  /** True records that match, from seq `from` + 1 to seq `to`, each once and in order. */
  ghost predicate InOrder(history: seq<Event>, from: nat, to: nat, pred: Event -> bool, events: seq<Event>) {
    && from <= to <= |history|
    && (forall x | x in events :: pred(x) && from < x.seqNo <= to && x == history[x.seqNo - 1])
    && (forall i, j | 0 <= i < j < |events| :: events[i].seqNo < events[j].seqNo)
  }

  /** The read moved over record i when retention had dropped it already. */
  predicate Missed(v: Covered, i: nat) {
    v.from <= i < v.to && i + 1 < v.held
  }

  /** A read gives, of the matching records it moves over, exactly those held at that moment. */
  ghost predicate Exact(history: seq<Event>, v: Covered, pred: Event -> bool) {
    && InOrder(history, v.from, v.to, pred, v.events)
    && forall i | v.from <= i < v.to && pred(history[i]) :: history[i] in v.events <==> !Missed(v, i)
  }

  ghost predicate AllExact(history: seq<Event>, vs: seq<Covered>, pred: Event -> bool) {
    forall k | 0 <= k < |vs| :: Exact(history, vs[k], pred)
  }

  /** What the polls covered, one by one. */
  function Coverage(c: Codec, cfg: Config, s: State, cur: Cursor, polls: seq<Poll>,
                    pages: seq<Page>): (vs: seq<Covered>)
    requires |pages| == |polls|
    ensures |vs| == |polls|
    decreases |polls|
  {
    if polls == [] then []
    else
      var t := Run(c, cfg, s, polls[0].ops);
      [Covered(cur.seqNo, pages[0].next.seqNo, FirstSeq(t), pages[0].events)]
      + Coverage(c, cfg, t, pages[0].next, polls[1..], pages[1..])
  }

  /** Each read begins where the one before it ended. */
  ghost predicate Adjoining(from: nat, to: nat, vs: seq<Covered>) {
    && (forall k | 0 <= k < |vs| :: AdjoinsAt(from, vs, k))
    && to == if vs == [] then from else vs[|vs| - 1].to
  }

  predicate AdjoinsAt(from: nat, vs: seq<Covered>, k: nat)
    requires k < |vs|
  {
    vs[k].from == if k == 0 then from else vs[k - 1].to
  }

  function Delivered(vs: seq<Covered>): seq<Event> {
    if vs == [] then [] else Delivered(vs[..|vs| - 1]) + vs[|vs| - 1].events
  }

  /** Pagination is complete: over every run the pages of a reader hold, in order and without repeats, every
      matching record between its first and its last cursor, but for those that retention had dropped when the
      reader moved over them. */
  lemma {:induction false} PaginationComplete(c: Codec, cfg: Config, s: State, history: seq<Event>, cur: Cursor,
                                              pred: Event -> bool, polls: seq<Poll>, pages: seq<Page>)
    requires Sound(c) && Inv(c, s, history) && cur.seqNo <= |history|
    requires Polled(c, cfg, s, history, cur, pred, polls, pages)
    ensures var final, vs := RunRecorded(c, cfg, s, history, AllOps(polls)), Coverage(c, cfg, s, cur, polls, pages);
            var from, to := cur.seqNo, LastCursor(cur, pages).seqNo;
            && AllExact(final, vs, pred) && Adjoining(from, to, vs)
            && InOrder(final, from, to, pred, Delivered(vs))
            && forall i | from <= i < to && pred(final[i]) ::
                 final[i] in Delivered(vs) <==> forall k | 0 <= k < |vs| :: !Missed(vs[k], i)
  {
    CoverageExact(c, cfg, s, history, cur, pred, polls, pages);
    DeliveredAll(RunRecorded(c, cfg, s, history, AllOps(polls)), cur.seqNo, LastCursor(cur, pages).seqNo,
                 Coverage(c, cfg, s, cur, polls, pages), pred);
  }

  lemma {:induction false} CoverageExact(c: Codec, cfg: Config, s: State, history: seq<Event>, cur: Cursor,
                                         pred: Event -> bool, polls: seq<Poll>, pages: seq<Page>)
    requires Sound(c) && Inv(c, s, history) && cur.seqNo <= |history|
    requires Polled(c, cfg, s, history, cur, pred, polls, pages)
    ensures var final, vs := RunRecorded(c, cfg, s, history, AllOps(polls)), Coverage(c, cfg, s, cur, polls, pages);
            && history <= final && Numbered(final)
            && AllExact(final, vs, pred) && Adjoining(cur.seqNo, LastCursor(cur, pages).seqNo, vs)
    decreases |polls|
  {
    if polls != [] {
      var t, recorded := Run(c, cfg, s, polls[0].ops), RunRecorded(c, cfg, s, history, polls[0].ops);
      RunKeeps(c, cfg, s, history, polls[0].ops);
      CoverageExact(c, cfg, t, recorded, pages[0].next, pred, polls[1..], pages[1..]);
      RunConcat(c, cfg, s, history, polls[0].ops, AllOps(polls[1..]));
      PageExact(t, recorded, cur.seqNo, pages[0].next.seqNo, pred);
      FirstCovered(recorded, RunRecorded(c, cfg, s, history, AllOps(polls)),
                   Covered(cur.seqNo, pages[0].next.seqNo, FirstSeq(t), pages[0].events),
                   Coverage(c, cfg, t, pages[0].next, polls[1..], pages[1..]), LastCursor(cur, pages).seqNo, pred);
    }
  }

  lemma FirstCovered(history: seq<Event>, longer: seq<Event>, v: Covered, rest: seq<Covered>, to: nat,
                     pred: Event -> bool)
    requires history <= longer && Exact(history, v, pred)
    requires AllExact(longer, rest, pred) && Adjoining(v.to, to, rest)
    ensures AllExact(longer, [v] + rest, pred) && Adjoining(v.from, to, [v] + rest)
  {
    ExactLater(history, longer, v, pred);
    var all := [v] + rest;
    forall k | 0 <= k < |all|
      ensures AdjoinsAt(v.from, all, k)
    {
      assert k > 0 ==> AdjoinsAt(v.to, rest, k - 1);
    }
  }

  lemma ExactLater(history: seq<Event>, longer: seq<Event>, v: Covered, pred: Event -> bool)
    requires history <= longer && Exact(history, v, pred)
    ensures Exact(longer, v, pred)
  {
    assert forall i | 0 <= i < |history| :: longer[i] == history[i];
  }

  lemma PageExact(s: State, history: seq<Event>, from: nat, to: nat, pred: Event -> bool)
    requires Numbered(history) && from <= to <= |history|
    ensures Exact(history, Covered(from, to, FirstSeq(s), Filter(pred, Passed(s, history, from, to))), pred)
  {
    var start := Max(from, FirstSeq(s) - 1);
    if start < to {
      FilterExact(history, start, to, pred);
    }
  }

  lemma {:induction false} FilterExact(history: seq<Event>, from: nat, to: nat, pred: Event -> bool)
    requires Numbered(history) && from <= to <= |history|
    ensures Exact(history, Covered(from, to, 0, Filter(pred, history[from..to])), pred)
    decreases |history| - from
  {
    if from < to {
      FilterExact(history, from + 1, to, pred);
      assert history[from..to][1..] == history[from + 1..to];
    }
  }

  lemma FrontAdjoins(from: nat, to: nat, vs: seq<Covered>)
    requires vs != [] && Adjoining(from, to, vs)
    ensures var n := |vs| - 1; Adjoining(from, vs[n].from, vs[..n])
  {
    var n, front := |vs| - 1, vs[..|vs| - 1];
    assert AdjoinsAt(from, vs, n);
    forall k | 0 <= k < n
      ensures AdjoinsAt(from, front, k)
    {
      assert AdjoinsAt(from, vs, k);
    }
  }

  /** Exact reads that adjoin give everything but what they missed. */
  lemma {:induction false} DeliveredAll(history: seq<Event>, from: nat, to: nat, vs: seq<Covered>, pred: Event -> bool)
    requires from <= |history| && Numbered(history)
    requires AllExact(history, vs, pred) && Adjoining(from, to, vs)
    ensures InOrder(history, from, to, pred, Delivered(vs))
    ensures forall i | from <= i < to && pred(history[i]) ::
              history[i] in Delivered(vs) <==> forall k | 0 <= k < |vs| :: !Missed(vs[k], i)
    decreases |vs|
  {
    if vs != [] {
      var n := |vs| - 1;
      var front, last := vs[..n], vs[n];
      FrontAdjoins(from, to, vs);
      DeliveredAll(history, from, last.from, front, pred);
      InOrderConcat(history, from, last.from, to, pred, Delivered(front), last.events);
      forall i | from <= i < to && pred(history[i])
        ensures history[i] in Delivered(vs) <==> forall k | 0 <= k < |vs| :: !Missed(vs[k], i)
      {
        assert Exact(history, last, pred);
        if i < last.from {
          assert history[i] !in last.events;
          assert forall k | 0 <= k < n :: front[k] == vs[k];
        } else {
          assert history[i] !in Delivered(front);
          EarlierEnd(history, from, to, vs, pred, i);
        }
      }
    }
  }

  /** The reads before the last one end where it begins. */
  lemma {:induction false} EarlierEnd(history: seq<Event>, from: nat, to: nat, vs: seq<Covered>, pred: Event -> bool,
                                      i: nat)
    requires AllExact(history, vs, pred) && Adjoining(from, to, vs)
    requires vs != [] && vs[|vs| - 1].from <= i
    ensures forall k | 0 <= k < |vs| - 1 :: !Missed(vs[k], i)
  {
    var k := |vs| - 1;
    while k > 0
      invariant 0 <= k < |vs| && vs[k].from <= i
      invariant forall j | k <= j < |vs| - 1 :: !Missed(vs[j], i)
    {
      assert AdjoinsAt(from, vs, k) && Exact(history, vs[k - 1], pred);
      k := k - 1;
    }
  }

  lemma InOrderConcat(history: seq<Event>, from: nat, mid: nat, to: nat, pred: Event -> bool, xs: seq<Event>,
                      ys: seq<Event>)
    requires InOrder(history, from, mid, pred, xs) && InOrder(history, mid, to, pred, ys)
    ensures InOrder(history, from, to, pred, xs + ys)
  {
    forall x | x in xs + ys
      ensures pred(x) && from < x.seqNo <= to && x == history[x.seqNo - 1]
    {
      assert x in xs || x in ys;
    }
    forall i, j | 0 <= i < j < |xs + ys|
      ensures (xs + ys)[i].seqNo < (xs + ys)[j].seqNo
    {
      if i < |xs| <= j {
        assert xs[i] in xs && ys[j - |xs|] in ys;
      }
    }
  }
}
