// The stream object itself: `_StreamState` of src/ws_collab/jsonl_store.py, updated in place.
module LogStore {
  import opened Sequences
  import opened LineFile
  import opened EventLog
  import opened LogAppend
  import opened LogRead
  import opened LogCrash
  import opened LogRuns

  /** A cursor token as it arrives: undecodable, or a position in some stream. */
  datatype Token = Garbled | Decoded(cursor: Cursor)

  datatype ReadError = MalformedCursor | OtherStream | BeyondEnd(recovery: Cursor)

  datatype ReadResult = Ok(page: Page) | Err(error: ReadError)

  /** What an iterator yields for a line: a marker for a malformed one, or its record. */
  datatype Item = Malformed | Good(record: Located)

  function Goods(items: seq<Item>): (rs: seq<Located>)
    ensures |rs| <= |items|
  {
    if items == [] then []
    else if items[0].Malformed? then Goods(items[1..])
    else [items[0].record] + Goods(items[1..])
  }

  lemma {:induction false} GoodsConcat(xs: seq<Item>, ys: seq<Item>)
    ensures Goods(xs + ys) == Goods(xs) + Goods(ys)
  {
    if xs == [] {
      assert xs + ys == ys;
    } else {
      var all, rest := xs + ys, xs[1..];
      assert all[0] == xs[0] && all[1..] == rest + ys;
      GoodsConcat(rest, ys);
      if xs[0].Good? {
        Associates([xs[0].record], Goods(rest), Goods(ys));
      }
    }
  }

  function ItemOf(c: Codec, line: Line, g: nat, after: nat): seq<Item> {
    match c.parse(line.text)
    case None => [Malformed]
    case Some(e) => if e.seqNo > after then [Good(Located(e, line.end, g))] else []
  }

  /** The lines of a file, without the records up to seq `after`. */
  function LineItems(c: Codec, lines: seq<Line>, g: nat, after: nat): seq<Item> {
    if lines == [] then []
    else LineItems(c, lines[..|lines| - 1], g, after) + ItemOf(c, lines[|lines| - 1], g, after)
  }

  function FileItems(c: Codec, file: Bytes, from: nat, g: nat, after: nat): seq<Item> {
    LineItems(c, CompleteLines(file, from), g, after)
  }

  /** The first n files in order, but for archived segments that end at or before `after`. */
  function SourceItems(c: Codec, srcs: seq<Source>, n: nat, after: nat): seq<Item>
    requires n <= |srcs|
  {
    if n == 0 then []
    else if n < |srcs| && srcs[n - 1].endSeq <= after then SourceItems(c, srcs, n - 1, after)
    else SourceItems(c, srcs, n - 1, after) + FileItems(c, srcs[n - 1].bytes, 0, srcs[n - 1].gen, after)
  }

  function SeqItems(c: Codec, s: State, after: nat): seq<Item> {
    SourceItems(c, Sources(s), |Sources(s)|, after)
  }

  /** The active file from a byte offset; everything if the offset is past its end. */
  function HotItems(c: Codec, s: State, off: nat, after: nat): seq<Item> {
    if off > |s.disk.active| then SeqItems(c, s, after) else FileItems(c, s.disk.active, off, s.gen, after)
  }

  /** What a read from a cursor goes through. */
  function ItemsFrom(c: Codec, s: State, cur: Cursor): seq<Item> {
    if UsesOffset(s, cur) then HotItems(c, s, cur.off, cur.seqNo) else SeqItems(c, s, cur.seqNo)
  }

  /** The malformed lines before the first record beyond seq `to`. */
  function MalformedUntil(items: seq<Item>, to: nat): nat {
    if items == [] then 0
    else if items[0].Malformed? then 1 + MalformedUntil(items[1..], to)
    else if items[0].record.event.seqNo > to then 0
    else MalformedUntil(items[1..], to)
  }

  lemma {:induction false} GoodsOfOne(c: Codec, line: Line, g: nat, after: nat)
    ensures Goods(ItemOf(c, line, g, after)) == After(Records(c, [line], g), after)
  {
    var items := ItemOf(c, line, g, after);
    assert [line][1..] == [] && Records(c, [line][1..], g) == [];
    assert items != [] ==> items[1..] == [] && Goods(items[1..]) == [];
    match c.parse(line.text)
    case None =>
    case Some(e) => FilterOne((r: Located) => r.event.seqNo > after, Located(e, line.end, g));
  }

  lemma {:induction false} GoodsOfLines(c: Codec, lines: seq<Line>, g: nat, after: nat)
    ensures Goods(LineItems(c, lines, g, after)) == After(Records(c, lines, g), after)
  {
    if lines != [] {
      var front, last := lines[..|lines| - 1], lines[|lines| - 1];
      assert lines == front + [last];
      GoodsOfLines(c, front, g, after);
      GoodsOfOne(c, last, g, after);
      GoodsConcat(LineItems(c, front, g, after), ItemOf(c, last, g, after));
      RecordsConcat(c, front, [last], g);
      AfterConcat(Records(c, front, g), Records(c, [last], g), after);
    }
  }

  /** When the first k items hold the first n records, none beyond seq `to`, and the next item is a record beyond it. */
  lemma {:induction false} MalformedUntilIs(items: seq<Item>, k: nat, n: nat, to: nat)
    requires k <= |items| && |Goods(items[..k])| == n
    requires forall i | 0 <= i < k && items[i].Good? :: items[i].record.event.seqNo <= to
    requires k < |items| ==> items[k].Good? && items[k].record.event.seqNo > to
    ensures k - n == MalformedUntil(items, to)
    decreases k
  {
    if k > 0 {
      assert items[..k][1..] == items[1..][..k - 1];
      MalformedUntilIs(items[1..], k - 1, |Goods(items[1..][..k - 1])|, to);
    }
  }

  /** What a read promises that starts at seq `from` and meets these items: a page, and how many malformed lines there
      are before the first record it leaves. */
  ghost predicate Reads(c: Codec, cfg: Config, s: State, history: seq<Event>, items: seq<Item>, from: nat, limit: nat,
                        pred: Event -> bool, page: Page)
  {
    IsPage(c, cfg, s, history, from, limit, pred, page) && page.malformed == MalformedUntil(items, page.next.seqNo)
  }

  /** What a read from a token promises: without a token the page from the beginning; with one a page from its cursor,
      if it is a good one, and an error if it does not decode, is of another stream or is beyond the end. */
  ghost predicate Answers(c: Codec, cfg: Config, s: State, history: seq<Event>, token: Option<Token>, limit: nat,
                          pred: Event -> bool, result: ReadResult)
  {
    match token
    case None => result.Ok? && Reads(c, cfg, s, history, SeqItems(c, s, 0), 0, limit, pred, result.page)
    case Some(Garbled) => result == Err(MalformedCursor)
    case Some(Decoded(cur)) =>
      if cur.stream != cfg.name then result == Err(OtherStream)
      else if cur.seqNo > s.seqNo then result == Err(BeyondEnd(CursorAtSeq(cfg, s, s.seqNo)))
      else
        && result.Ok?
        && (GoodCursor(c, cfg, s, cur) ==>
              Reads(c, cfg, s, history, ItemsFrom(c, s, cur), cur.seqNo, limit, pred, result.page))
  }

  /** A reader that is beyond the end is told a good cursor after which nothing is held. */
  lemma BeyondEndRecovers(c: Codec, cfg: Config, s: State, history: seq<Event>, cur: Cursor, limit: nat,
                          pred: Event -> bool, result: ReadResult)
    requires Inv(c, s, history) && cur.stream == cfg.name && cur.seqNo > s.seqNo
    requires Answers(c, cfg, s, history, Some(Decoded(cur)), limit, pred, result)
    ensures result.Err? && result.error.BeyondEnd? && GoodCursor(c, cfg, s, result.error.recovery)
    ensures After(Retained(c, s), result.error.recovery.seqNo) == [] && result.error.recovery.seqNo == |history|
  {
    CursorAtSeqGood(c, cfg, s, s.seqNo);
    CursorAtSeqIs(c, cfg, s, history, s.seqNo);
  }

  lemma EventsConcat(xs: seq<Located>, ys: seq<Located>)
    ensures Events(xs + ys) == Events(xs) + Events(ys)
  {
  }

  lemma AfterConcat(xs: seq<Located>, ys: seq<Located>, q: nat)
    ensures After(xs + ys, q) == After(xs, q) + After(ys, q)
  {
    FilterConcat((r: Located) => r.event.seqNo > q, xs, ys);
  }

  /** When the records up to `k` have seqs up to q and the others do not, the others are those after q. */
  lemma AfterIsRest(rs: seq<Located>, k: nat, q: nat)
    requires k <= |rs|
    requires forall i | 0 <= i < |rs| :: rs[i].event.seqNo <= q <==> i < k
    ensures After(rs, q) == rs[k..]
  {
    var front, rest := rs[..k], rs[k..];
    var later := (r: Located) => r.event.seqNo > q;
    assert rs == front + rest;
    AfterConcat(front, rest, q);
    FilterNone(later, front);
    FilterAll(later, rest);
  }

  lemma EventsFrom(rs: seq<Located>, history: seq<Event>, first: nat, k: nat)
    requires k <= |rs| && first <= |history| && Events(rs) == history[first..]
    ensures first + k <= |history| && Events(rs[k..]) == history[first + k..]
  {
    assert |rs| == |Events(rs)|;
    assert Events(rs[k..]) == Events(rs)[k..];
  }

  /** The records after seq q are the end of the history from there. */
  lemma AfterIsSuffix(c: Codec, s: State, history: seq<Event>, q: nat)
    requires Consistent(c, s, history) && q <= |history|
    ensures 1 <= FirstSeq(s) && FirstSeq(s) + |Retained(c, s)| == |history| + 1
    ensures After(Retained(c, s), q) == Retained(c, s)[Max(q, FirstSeq(s) - 1) - (FirstSeq(s) - 1)..]
    ensures Events(After(Retained(c, s), q)) == history[Max(q, FirstSeq(s) - 1)..]
  {
    RetainedSeqs(c, s, history);
    RetainedIsSuffix(c, s, history);
    var rs, first := Retained(c, s), FirstSeq(s) - 1;
    assert |rs| == |Events(rs)|;
    AfterIsRest(rs, Max(q, first) - first, q);
    EventsFrom(rs, history, first, Max(q, first) - first);
  }

  /** The first n records after a cursor are the next n of the history. */
  lemma TakenEvents(c: Codec, s: State, history: seq<Event>, from: nat, n: nat)
    requires Consistent(c, s, history) && from <= |history|
    requires n <= |After(Retained(c, s), from)|
    ensures var rest, start := After(Retained(c, s), from), Max(from, FirstSeq(s) - 1);
            && start + n <= |history|
            && Events(rest[..n]) == history[start..start + n]
            && (n > 0 ==> FirstSeq(s) >= 1 && rest[n - 1].event.seqNo == start + n)
            && (n < |rest| <==> start + n < |history|)
  {
    AfterIsSuffix(c, s, history, from);
    var rest, start := After(Retained(c, s), from), Max(from, FirstSeq(s) - 1);
    assert |rest| == |Events(rest)| == |history| - start;
    assert Events(rest[..n]) == Events(rest)[..n];
    if n > 0 {
      assert Events(rest)[n - 1] == history[start + n - 1];
    }
  }

  /** A record lies beyond seq `to` exactly when the history goes on past it and is not all dropped. */
  lemma BeyondIff(c: Codec, s: State, history: seq<Event>, to: nat)
    requires Consistent(c, s, history)
    ensures (exists r :: r in Retained(c, s) && r.event.seqNo > to) <==> Max(to, FirstSeq(s) - 1) < |history|
  {
    RetainedSeqs(c, s, history);
    if Max(to, FirstSeq(s) - 1) < |history| {
      var r := Retained(c, s)[|history| - FirstSeq(s)];
      assert r in Retained(c, s) && r.event.seqNo == |history|;
    }
  }

  /** Taking the first n records after the cursor is what the page promises. */
  lemma CollectedIsPage(c: Codec, cfg: Config, s: State, history: seq<Event>, from: nat, limit: nat,
                        pred: Event -> bool, page: Page, n: nat)
    requires Consistent(c, s, history) && from <= |history| && GoodCursor(c, cfg, s, page.next)
    requires n <= |After(Retained(c, s), from)|
    requires var rest := After(Retained(c, s), from);
             && page.events == Filter(pred, Events(rest[..n]))
             && page.next.seqNo == (if n == 0 then from else rest[n - 1].event.seqNo)
             && (page.hasMore <==> n < |rest|)
             && |page.events| <= limit && (page.hasMore ==> |page.events| == limit)
             && (n > 0 ==> |Filter(pred, Events(rest[..n - 1]))| < limit)
    ensures IsPage(c, cfg, s, history, from, limit, pred, page)
  {
    BeyondIff(c, s, history, page.next.seqNo);
    CollectedIsPassed(c, s, history, from, n);
    if n > 0 {
      OneLessPassed(c, s, history, from, n);
    }
    PageHolds(c, s, history, from, limit, pred, page);
  }

  lemma PageHolds(c: Codec, s: State, history: seq<Event>, from: nat, limit: nat, pred: Event -> bool, page: Page)
    requires var to := page.next.seqNo;
             && from <= to <= |history|
             && (from < to ==> FirstSeq(s) <= to && |Filter(pred, Passed(s, history, from, to - 1))| < limit)
             && page.events == Filter(pred, Passed(s, history, from, to)) && |page.events| <= limit
             && (page.hasMore <==> exists r :: r in Retained(c, s) && r.event.seqNo > to)
             && (page.hasMore ==> |page.events| == limit)
    ensures HoldsPassed(c, s, history, from, limit, pred, page)
  {
  }

  /** All but the last of the n records taken. */
  lemma OneLessPassed(c: Codec, s: State, history: seq<Event>, from: nat, n: nat)
    requires Consistent(c, s, history) && from <= |history| && 0 < n <= |After(Retained(c, s), from)|
    ensures var rest, to := After(Retained(c, s), from), After(Retained(c, s), from)[n - 1].event.seqNo;
            1 <= to <= |history| && Events(rest[..n - 1]) == Passed(s, history, from, to - 1)
  {
    CollectedIsPassed(c, s, history, from, n);
    CollectedIsPassed(c, s, history, from, n - 1);
  }

  /** The first n records after the cursor are those passed on the way to the last of them. */
  lemma CollectedIsPassed(c: Codec, s: State, history: seq<Event>, from: nat, n: nat)
    requires Consistent(c, s, history) && from <= |history|
    requires n <= |After(Retained(c, s), from)|
    ensures var rest, start := After(Retained(c, s), from), Max(from, FirstSeq(s) - 1);
            var to := if n == 0 then from else rest[n - 1].event.seqNo;
            && from <= to <= |history| && (n > 0 ==> FirstSeq(s) <= to == start + n)
            && Events(rest[..n]) == Passed(s, history, from, to)
            && start + n <= |history| && Events(rest[..n]) == Passed(s, history, from, start + n)
            && (n < |rest| <==> Max(to, FirstSeq(s) - 1) < |history|)
  {
    TakenEvents(c, s, history, from, n);
  }

  class StreamState {
    const codec: Codec
    const cfg: Config
    var seqNo: nat
    var gen: nat
    var activeStart: nat
    var segments: seq<Segment>
    var index: map<string, Entry>
    // The files.
    var active: Bytes
    var archived: map<nat, Bytes>
    var sidecar: Option<Sidecar>
    // Everything ever written.
    ghost var history: seq<Event>

    function View(): State
      reads this
    {
      State(seqNo, gen, activeStart, segments, index, Disk(active, archived, sidecar))
    }

    ghost predicate Valid()
      reads this
    {
      Sound(codec) && Inv(codec, View(), history)
    }

    // -------------------------------------------------------------- recovery

    constructor (codec: Codec, cfg: Config, disk: Disk, ghost history: seq<Event>)
      requires Sound(codec) && Inv(codec, Recovered(codec, disk), history)
      ensures this.codec == codec && this.cfg == cfg && this.history == history
      ensures Valid() && View() == Recovered(codec, disk)
    {
      this.codec, this.cfg, this.history := codec, cfg, history;
      active, archived, sidecar := disk.active, disk.archived, disk.sidecar;
      seqNo, gen, activeStart, segments, index := 0, 0, 1, [], map[];
      new;
      assert View().disk == disk;
      Recover();
    }

    method Recover()
      requires seqNo == 0 && gen == 0 && activeStart == 1 && segments == [] && index == map[]
      modifies this`seqNo, this`gen, this`activeStart, this`segments, this`index
      ensures View() == Recovered(codec, old(View().disk))
    {
      match sidecar {
        case Some(sc) =>
          gen, seqNo, activeStart, segments := sc.gen, sc.seqNo, sc.activeStart, sc.segments;
        case None =>
          seqNo := HighestActiveSeq();
      }
      assert View() == Loaded(codec, old(View().disk));
      ReconcileActiveTail();
      RebuildIndex();
    }

    /** `_rebuild_from_scan`: the highest seq in the active file. */
    method HighestActiveSeq() returns (highest: nat)
      ensures highest == MaxSeq(FileRecords(codec, active, 0, 0))
    {
      var lines := IterCompleteLines(active, 0, CHUNK_BYTES);
      highest := 0;
      for i := 0 to |lines|
        invariant highest == MaxSeq(Records(codec, lines[..i], 0))
      {
        StepLine(lines, i, 0);
        ghost var front := Records(codec, lines[..i], 0);
        assert forall r :: (front + [r])[..|front|] == front;
        match codec.parse(lines[i].text) {
          case None =>
          case Some(e) => highest := Max(highest, e.seqNo);
        }
      }
      assert lines[..|lines|] == lines;
    }

    /** The records of one more line. */
    lemma {:induction false} StepLine(lines: seq<Line>, i: nat, g: nat)
      requires i < |lines|
      ensures Records(codec, lines[..i + 1], g) ==
                match codec.parse(lines[i].text)
                case None => Records(codec, lines[..i], g)
                case Some(e) => Records(codec, lines[..i], g) + [Located(e, lines[i].end, g)]
    {
      assert lines[..i + 1] == lines[..i] + [lines[i]];
      RecordsConcat(codec, lines[..i], [lines[i]], g);
      assert [lines[i]][1..] == [];
    }

    method ReconcileActiveTail()
      modifies this`seqNo
      ensures View() == Reconciled(codec, old(View()))
    {
      ghost var before := View();
      var lines := IterCompleteLines(active, 0, CHUNK_BYTES);
      var last := 0;
      for i := 0 to |lines|
        invariant View() == before && last == LastSeq(Records(codec, lines[..i], gen))
      {
        StepLine(lines, i, gen);
        match codec.parse(lines[i].text) {
          case None =>
          case Some(e) => last := e.seqNo;
        }
      }
      assert lines[..|lines|] == lines;
      if last > seqNo {
        seqNo := last;
      }
    }

    /** `_rebuild_idempotency_window`: every keyed record of every file, later ones winning. */
    method RebuildIndex()
      modifies this`index
      ensures View() == old(View()).(index := IndexOf(Retained(codec, old(View()))))
    {
      index := map[];
      ghost var before := old(View());
      var srcs := Sources(View());
      assert srcs == Sources(before);
      for i := 0 to |srcs|
        invariant View() == before.(index := IndexOf(SourceRecords(codec, srcs[..i])))
      {
        IndexFile(srcs[i], SourceRecords(codec, srcs[..i]));
        StepSource(srcs, i);
      }
      assert srcs[..|srcs|] == srcs;
    }

    /** Adds the keyed records of one file to the map of the files before it. */
    method IndexFile(src: Source, ghost done: seq<Located>)
      requires index == IndexOf(done)
      modifies this`index
      ensures index == IndexOf(done + FileRecords(codec, src.bytes, 0, src.gen))
    {
      var lines := IterCompleteLines(src.bytes, 0, CHUNK_BYTES);
      assert done + Records(codec, lines[..0], src.gen) == done;
      for j := 0 to |lines|
        invariant index == IndexOf(done + Records(codec, lines[..j], src.gen))
      {
        StepLine(lines, j, src.gen);
        ghost var sofar := Records(codec, lines[..j], src.gen);
        match codec.parse(lines[j].text) {
          case None =>
          case Some(e) =>
            ghost var r := Located(e, lines[j].end, src.gen);
            IndexNext(done, sofar, r);
            if e.key != "" {
              index := index[e.key := Entry(e.id, e.seqNo, lines[j].end, src.gen)];
            }
        }
      }
      assert lines[..|lines|] == lines;
    }

    static lemma {:induction false} IndexNext(done: seq<Located>, sofar: seq<Located>, r: Located)
      ensures IndexOf(done + (sofar + [r])) ==
                if r.event.key == "" then IndexOf(done + sofar) else IndexOf(done + sofar)[r.event.key := EntryOf(r)]
    {
      Associates(done, sofar, [r]);
      var all := done + sofar + [r];
      assert all[..|all| - 1] == done + sofar && all[|all| - 1] == r;
    }

    /** The records of one more file. */
    lemma StepSource(srcs: seq<Source>, i: nat)
      requires i < |srcs|
      ensures SourceRecords(codec, srcs[..i + 1])
           == SourceRecords(codec, srcs[..i]) + FileRecords(codec, srcs[i].bytes, 0, srcs[i].gen)
    {
      assert srcs[..i + 1] == srcs[..i] + [srcs[i]];
      SourceRecordsConcat(codec, srcs[..i], [srcs[i]]);
      assert [srcs[i]][1..] == [];
    }

    // -------------------------------------------------------------- append

    /** Appends the event, or answers with the record that already has its idempotency key. */
    method Append(event: Event) returns (r: AppendResult)
      requires Valid()
      modifies this
      ensures Valid()
      ensures View() == LogAppend.Append(codec, cfg, old(View()), event).0
      ensures r == LogAppend.Append(codec, cfg, old(View()), event).1
      ensures history == if old(Duplicate(View(), event)) then old(history) else old(history) + [old(Stamped(View(), event))]
    {
      ghost var before := View();
      AppendKeeps(codec, cfg, before, history, event);
      if event.key != "" && event.key in index {
        var existing := index[event.key];
        return AppendResult(event.(id := existing.id, seqNo := existing.seqNo), true,
                            Cursor(cfg.name, existing.seqNo, existing.end, existing.gen));
      }
      r := WriteRecord(event);
      history := history + [r.event];
      MaybeRotate();
    }

    /** Writes a record that is no repeat, and the sidecar. */
    method WriteRecord(event: Event) returns (r: AppendResult)
      modifies `seqNo, `active, `index, `sidecar
      ensures View() == Written(codec, old(View()), event)
      ensures r == AppendResult(Stamped(old(View()), event), false, Cursor(cfg.name, seqNo, |active|, gen))
    {
      RepairTornFinalLine();
      seqNo := seqNo + 1;
      var stamped := event.(seqNo := seqNo);
      active := active + codec.render(stamped) + [NEWLINE];
      var end := |active|;
      if event.key != "" {
        index := index[event.key := Entry(event.id, seqNo, end, gen)];
      }
      WriteState();
      r := AppendResult(stamped, false, Cursor(cfg.name, seqNo, end, gen));
    }

    method RepairTornFinalLine()
      modifies this`active
      ensures active == Repaired(old(active))
    {
      if |active| == 0 {
        return;
      }
      if active[|active| - 1] != NEWLINE {
        active := active + [NEWLINE];
      }
    }

    method WriteState()
      modifies this`sidecar
      ensures View() == Saved(old(View()))
    {
      sidecar := Some(Sidecar(gen, seqNo, activeStart, segments));
    }

    method MaybeRotate()
      modifies this
      ensures View() == Rotated(cfg, old(View())) && history == old(history)
    {
      if |active| < cfg.rotateMaxBytes {
        return;
      }
      archived := archived[gen := active];
      segments := segments + [Segment(gen, activeStart, seqNo)];
      gen := gen + 1;
      activeStart := seqNo + 1;
      active := [];
      ApplyRetention();
      WriteState();
    }

    method ApplyRetention()
      modifies this
      ensures View() == Retired(old(View()), cfg.retentionMaxFiles) && history == old(history)
    {
      while |segments| > cfg.retentionMaxFiles
        invariant Retired(View(), cfg.retentionMaxFiles) == Retired(old(View()), cfg.retentionMaxFiles)
        invariant history == old(history)
        decreases |segments|
      {
        var oldest := segments[0];
        segments := segments[1..];
        index := map key | key in index && index[key].gen != oldest.gen :: index[key];
        archived := archived - {oldest.gen};
      }
    }

    // -------------------------------------------------------------- read

    /** The lines of a file from an offset on, without the records up to seq `after`. */
    method ScanFile(file: Bytes, from: nat, g: nat, after: nat) returns (items: seq<Item>)
      ensures items == FileItems(codec, file, from, g, after)
    {
      var lines := IterCompleteLines(file, from, CHUNK_BYTES);
      items := [];
      for i := 0 to |lines|
        invariant items == LineItems(codec, lines[..i], g, after)
      {
        assert lines[..i + 1][..i] == lines[..i];
        match codec.parse(lines[i].text) {
          case None =>
            items := items + [Malformed];
          case Some(e) =>
            if e.seqNo > after {
              items := items + [Good(Located(e, lines[i].end, g))];
            }
        }
      }
      assert lines[..|lines|] == lines;
    }

    /** `iter_from_seq`: all files in order, but for segments that end at or before `after`. */
    method IterFromSeq(after: nat) returns (items: seq<Item>)
      requires Valid()
      ensures items == SeqItems(codec, View(), after)
      ensures Goods(items) == After(Retained(codec, View()), after)
    {
      var srcs := Sources(View());
      items := [];
      for i := 0 to |srcs|
        invariant items == SourceItems(codec, srcs, i, after)
      {
        if i == |srcs| - 1 || srcs[i].endSeq > after {
          var found := ScanFile(srcs[i].bytes, 0, srcs[i].gen, after);
          items := items + found;
        }
      }
      GoodsOfSources(srcs, |srcs|, after);
      assert srcs[..|srcs|] == srcs;
    }

    /** Nothing is missed by skipping. */
    lemma {:induction false} GoodsOfSources(srcs: seq<Source>, n: nat, after: nat)
      requires Valid() && srcs == Sources(View()) && n <= |srcs|
      ensures Goods(SourceItems(codec, srcs, n, after)) == After(SourceRecords(codec, srcs[..n]), after)
    {
      if n > 0 {
        var src := srcs[n - 1];
        GoodsOfSources(srcs, n - 1, after);
        AfterNextSource(srcs, n - 1, after);
        if n < |srcs| && src.endSeq <= after {
          NothingAfter(src, after);
        } else {
          GoodsOfLines(codec, CompleteLines(src.bytes, 0), src.gen, after);
          GoodsConcat(SourceItems(codec, srcs, n - 1, after), FileItems(codec, src.bytes, 0, src.gen, after));
        }
      }
    }

    lemma AfterNextSource(srcs: seq<Source>, i: nat, q: nat)
      requires i < |srcs|
      ensures After(SourceRecords(codec, srcs[..i + 1]), q)
           == After(SourceRecords(codec, srcs[..i]), q) + After(FileRecords(codec, srcs[i].bytes, 0, srcs[i].gen), q)
    {
      StepSource(srcs, i);
      AfterConcat(SourceRecords(codec, srcs[..i]), FileRecords(codec, srcs[i].bytes, 0, srcs[i].gen), q);
    }

    /** A file whose range ends at or before q has nothing after it. */
    lemma NothingAfter(src: Source, q: nat)
      requires Valid() && src in Sources(View()) && src.endSeq <= q
      ensures After(FileRecords(codec, src.bytes, 0, src.gen), q) == []
    {
      HeldSeqs(codec, src, history);
      FilterNone((r: Located) => r.event.seqNo > q, FileRecords(codec, src.bytes, 0, src.gen));
    }

    /** `_hot_iter`: the active file from a byte offset, or everything if the offset is past its end. */
    method HotIter(offset: nat, after: nat) returns (items: seq<Item>)
      requires Valid()
      ensures items == HotItems(codec, View(), offset, after)
      ensures Goods(items) == if offset > |active| then After(Retained(codec, View()), after)
                              else After(FileRecords(codec, active, offset, gen), after)
    {
      if offset > |active| {
        items := IterFromSeq(after);
      } else {
        items := ScanFile(active, offset, gen, after);
        GoodsOfLines(codec, CompleteLines(active, offset), gen, after);
      }
    }

    /** The loop of `read`: collects up to `limit` matching events and stops at the next record. */
    method Collect(items: seq<Item>, limit: nat, pred: Event -> bool)
      returns (events: seq<Event>, last: Option<Located>, hasMore: bool, malformed: nat, ghost n: nat, ghost k: nat)
      ensures n <= |Goods(items)|
      ensures events == Filter(pred, Events(Goods(items)[..n]))
      ensures last == if n == 0 then None else Some(Goods(items)[n - 1])
      ensures hasMore <==> n < |Goods(items)|
      ensures |events| <= limit && (hasMore ==> |events| == limit)
      ensures n > 0 ==> |Filter(pred, Events(Goods(items)[..n - 1]))| < limit
      ensures k <= |items| && Goods(items[..k]) == Goods(items)[..n] && malformed == k - n
      ensures k < |items| ==> items[k].Good? && n < |Goods(items)| && items[k].record == Goods(items)[n]
    {
      events, last, hasMore, malformed, n, k := [], None, false, 0, 0, |items|;
      for i := 0 to |items|
        invariant n <= |Goods(items)| && Goods(items)[..n] == Goods(items[..i])
        invariant events == Filter(pred, Events(Goods(items)[..n])) && |events| <= limit
        invariant last == if n == 0 then None else Some(Goods(items)[n - 1])
        invariant n > 0 ==> |Filter(pred, Events(Goods(items)[..n - 1]))| < limit
        invariant malformed == i - n
      {
        GoodsUpTo(items, i);
        SplitGoods(items, i);
        match items[i] {
          case Malformed =>
            malformed := malformed + 1;
          case Good(r) =>
            if |events| >= limit {
              hasMore, k := true, i;
              return;
            }
            EventsConcat(Goods(items)[..n], [r]);
            FilterConcat(pred, Events(Goods(items)[..n]), [r.event]);
            FilterOne(pred, r.event);
            assert Goods(items)[..n + 1] == Goods(items)[..n] + [r];
            assert Goods(items)[..n + 1][..n] == Goods(items)[..n];
            assert Events([r]) == [r.event];
            n, last := n + 1, Some(r);
            if pred(r.event) {
              events := events + [r.event];
            }
        }
      }
      assert items[..|items|] == items;
    }

    /** The records before an item and its own. */
    static lemma GoodsUpTo(items: seq<Item>, i: nat)
      requires i < |items|
      ensures Goods(items[..i + 1]) == Goods(items[..i]) + (if items[i].Good? then [items[i].record] else [])
    {
      assert items[..i + 1] == items[..i] + [items[i]];
      GoodsNext(items[..i], items[i]);
    }

    /** The records up to an item and those after it. */
    static lemma {:induction false} SplitGoods(items: seq<Item>, i: nat)
      requires i < |items|
      ensures Goods(items) == Goods(items[..i + 1]) + Goods(items[i + 1..])
    {
      var upTo, rest := items[..i + 1], items[i + 1..];
      assert items == upTo + rest;
      GoodsConcat(upTo, rest);
    }

    static lemma {:induction false} GoodsNext(items: seq<Item>, item: Item)
      ensures Goods(items + [item]) == Goods(items) + (if item.Good? then [item.record] else [])
    {
      var one := [item];
      GoodsConcat(items, one);
      assert one[1..] == [] && Goods(one[1..]) == [];
    }

    method Read(token: Option<Token>, limit: nat, pred: Event -> bool) returns (result: ReadResult)
      requires Valid()
      ensures Answers(codec, cfg, View(), history, token, limit, pred, result)
    {
      var after, useHot, hotOffset, incomingGen := 0, false, 0, gen;
      if token.Some? {
        if token.value.Garbled? {
          return Err(MalformedCursor);
        }
        var cur := token.value.cursor;
        if cur.stream != cfg.name {
          return Err(OtherStream);
        }
        after, incomingGen := cur.seqNo, cur.gen;
        if after > seqNo {
          return Err(BeyondEnd(Cursor(cfg.name, seqNo, 0, gen)));
        }
        if incomingGen == gen && after + 1 >= activeStart {
          useHot, hotOffset := true, cur.off;
        }
      }
      var page := ReadFrom(after, incomingGen, useHot, hotOffset, limit, pred);
      result := Ok(page);
      if token.None? {
        CursorAtSeqGood(codec, cfg, View(), 0);
      }
    }

    /** The body of `read` once the position is known: the iterator, the loop and the next cursor. */
    method ReadFrom(after: nat, incomingGen: nat, useHot: bool, hotOffset: nat, limit: nat, pred: Event -> bool)
      returns (page: Page)
      requires Valid() && after <= seqNo
      requires useHot ==> UsesOffset(View(), Cursor(cfg.name, after, hotOffset, incomingGen))
      ensures var items := if useHot then HotItems(codec, View(), hotOffset, after) else SeqItems(codec, View(), after);
              GoodCursor(codec, cfg, View(), Cursor(cfg.name, after, if useHot then hotOffset else 0, incomingGen)) ==>
                Reads(codec, cfg, View(), history, items, after, limit, pred, page)
    {
      var items: seq<Item>;
      if useHot {
        items := HotIter(hotOffset, after);
      } else {
        items := IterFromSeq(after);
      }
      var events, last, hasMore, malformed, n, k := Collect(items, limit, pred);
      var lastSeq, lastOffset, lastGen := after, if useHot then hotOffset else 0, if useHot then gen else incomingGen;
      if last.Some? {
        lastSeq, lastOffset, lastGen := last.value.event.seqNo, last.value.end, last.value.gen;
      }
      var next := if lastGen == gen then Cursor(cfg.name, lastSeq, lastOffset, gen)
                  else Cursor(cfg.name, lastSeq, 0, lastGen);
      page := Page(events, next, hasMore, malformed);
      ghost var cur := Cursor(cfg.name, after, if useHot then hotOffset else 0, incomingGen);
      if GoodCursor(codec, cfg, View(), cur) {
        if useHot {
          OffsetScanIsSeqScan(codec, cfg, View(), history, cur);
        }
        PageIsGood(cur, Goods(items), last, n, limit, pred, page);
        CountIsGood(cur, items, n, k, page);
      }
    }

    /** The malformed lines counted before the first record left. */
    lemma {:induction false} CountIsGood(cur: Cursor, items: seq<Item>, n: nat, k: nat, page: Page)
      requires Valid() && GoodCursor(codec, cfg, View(), cur)
      requires Goods(items) == After(Retained(codec, View()), cur.seqNo) && n <= |Goods(items)| && k <= |items|
      requires Goods(items[..k]) == Goods(items)[..n] && page.malformed == k - n
      requires k < |items| ==> items[k].Good? && n < |Goods(items)| && items[k].record == Goods(items)[n]
      requires page.next.seqNo == if n == 0 then cur.seqNo else Goods(items)[n - 1].event.seqNo
      ensures page.malformed == MalformedUntil(items, page.next.seqNo)
    {
      forall i | 0 <= i < k && items[i].Good?
        ensures items[i].record.event.seqNo <= page.next.seqNo
      {
        var j := GoodIn(items[..k], i);
        TakenEvents(codec, View(), history, cur.seqNo, j + 1);
        TakenEvents(codec, View(), history, cur.seqNo, n);
      }
      if k < |items| {
        TakenEvents(codec, View(), history, cur.seqNo, n);
        TakenEvents(codec, View(), history, cur.seqNo, n + 1);
      }
      MalformedUntilIs(items, k, n, page.next.seqNo);
    }

    /** Where a record is among the good items. */
    static lemma {:induction false} GoodIn(items: seq<Item>, i: nat) returns (j: nat)
      requires i < |items| && items[i].Good?
      ensures j < |Goods(items)| && Goods(items)[j] == items[i].record
      decreases |items|
    {
      if i == 0 {
        j := 0;
      } else {
        j := GoodIn(items[1..], i - 1);
        if items[0].Good? {
          j := j + 1;
        }
      }
    }

    /** The page made of the first n records after a good cursor. */
    lemma PageIsGood(cur: Cursor, found: seq<Located>, last: Option<Located>, n: nat, limit: nat, pred: Event -> bool,
                     page: Page)
      requires Valid() && GoodCursor(codec, cfg, View(), cur)
      requires found == After(Retained(codec, View()), cur.seqNo)
      requires n <= |found| && last == if n == 0 then None else Some(found[n - 1])
      requires page.events == Filter(pred, Events(found[..n]))
      requires page.hasMore <==> n < |found|
      requires |page.events| <= limit && (page.hasMore ==> |page.events| == limit)
      requires n > 0 ==> |Filter(pred, Events(found[..n - 1]))| < limit
      requires match last
               case None => page.next == (if cur.gen == gen && UsesOffset(View(), cur) then cur else cur.(off := 0))
               case Some(r) => page.next == Cursor(cfg.name, r.event.seqNo, if r.gen == gen then r.end else 0, r.gen)
      ensures IsPage(codec, cfg, View(), history, cur.seqNo, limit, pred, page)
    {
      AfterIsSuffix(codec, View(), history, cur.seqNo);
      NextCursorGood(cur, last, page.next);
      CollectedIsPage(codec, cfg, View(), history, cur.seqNo, limit, pred, page, n);
    }

    /** The cursor after the last record taken, or the incoming one, is good. */
    lemma NextCursorGood(cur: Cursor, last: Option<Located>, next: Cursor)
      requires Valid() && GoodCursor(codec, cfg, View(), cur)
      requires last.Some? ==> last.value in Retained(codec, View())
      requires match last
               case None => next == (if cur.gen == gen && UsesOffset(View(), cur) then cur else cur.(off := 0))
               case Some(r) => next == Cursor(cfg.name, r.event.seqNo, if r.gen == gen then r.end else 0, r.gen)
      ensures GoodCursor(codec, cfg, View(), next)
    {
      match last {
        case None => OffsetZeroResumes(codec, active, cur.seqNo);
        case Some(r) => RecordCursorGood(codec, cfg, View(), history, r);
      }
    }

    // -------------------------------------------------------------- tail

    /** The last `count` matching events; with count 0, those of the active file. */
    method Tail(count: nat, pred: Event -> bool) returns (events: seq<Event>)
      requires Valid()
      ensures count > 0 ==>
                var all := Filter(pred, Events(Retained(codec, View())));
                events == if |all| <= count then all else all[|all| - count..]
      ensures count == 0 ==> events == Filter(pred, Events(FileRecords(codec, active, 0, gen)))
    {
      var collected, i := CollectFromEnd(count, pred);
      ghost var srcs := Sources(View());
      MatchingSplit(srcs, i, pred);
      MatchingSplit(srcs, |srcs| - 1, pred);
      events := if count == 0 || |collected| <= count then collected else collected[|collected| - count..];
    }

    /** The loop of `tail`: whole files from the newest back, until enough events are found. */
    method CollectFromEnd(count: nat, pred: Event -> bool) returns (collected: seq<Event>, i: nat)
      ensures i < |Sources(View())|
      ensures collected == Filter(pred, Events(SourceRecords(codec, Sources(View())[i..])))
      ensures i == 0 || |collected| >= count
      ensures count == 0 ==> i == |Sources(View())| - 1
    {
      var srcs := Sources(View());
      i, collected := |srcs|, [];
      while i > 0
        invariant 0 <= i <= |srcs|
        invariant collected == Filter(pred, Events(SourceRecords(codec, srcs[i..])))
        invariant i < |srcs| ==> |collected| < count
      {
        i := i - 1;
        var found := ScanAll(srcs[i].bytes, srcs[i].gen, pred);
        MatchingCons(srcs, i, pred);
        collected := found + collected;
        if |collected| >= count {
          break;
        }
      }
    }

    lemma {:induction false} MatchingSplit(srcs: seq<Source>, i: nat, pred: Event -> bool)
      requires i <= |srcs|
      ensures Filter(pred, Events(SourceRecords(codec, srcs)))
           == Filter(pred, Events(SourceRecords(codec, srcs[..i]))) + Filter(pred, Events(SourceRecords(codec, srcs[i..])))
      ensures i == 0 ==> SourceRecords(codec, srcs[..i]) == []
      ensures i + 1 == |srcs| ==> SourceRecords(codec, srcs[i..]) == FileRecords(codec, srcs[i].bytes, 0, srcs[i].gen)
    {
      assert srcs == srcs[..i] + srcs[i..];
      MatchingConcat(srcs[..i], srcs[i..], pred);
      if i + 1 == |srcs| {
        assert srcs[i..][1..] == [];
      }
    }

    lemma MatchingCons(srcs: seq<Source>, i: nat, pred: Event -> bool)
      requires i < |srcs|
      ensures Filter(pred, Events(SourceRecords(codec, srcs[i..])))
           == Filter(pred, Events(FileRecords(codec, srcs[i].bytes, 0, srcs[i].gen)))
              + Filter(pred, Events(SourceRecords(codec, srcs[i + 1..])))
    {
      var first := FileRecords(codec, srcs[i].bytes, 0, srcs[i].gen);
      assert srcs[i..][1..] == srcs[i + 1..];
      EventsConcat(first, SourceRecords(codec, srcs[i + 1..]));
      FilterConcat(pred, Events(first), Events(SourceRecords(codec, srcs[i + 1..])));
    }

    lemma {:induction false} MatchingConcat(xs: seq<Source>, ys: seq<Source>, pred: Event -> bool)
      ensures Filter(pred, Events(SourceRecords(codec, xs + ys)))
           == Filter(pred, Events(SourceRecords(codec, xs))) + Filter(pred, Events(SourceRecords(codec, ys)))
    {
      SourceRecordsConcat(codec, xs, ys);
      EventsConcat(SourceRecords(codec, xs), SourceRecords(codec, ys));
      FilterConcat(pred, Events(SourceRecords(codec, xs)), Events(SourceRecords(codec, ys)));
    }

    method ScanAll(file: Bytes, g: nat, pred: Event -> bool) returns (events: seq<Event>)
      ensures events == Filter(pred, Events(FileRecords(codec, file, 0, g)))
    {
      var lines := IterCompleteLines(file, 0, CHUNK_BYTES);
      events := [];
      for i := 0 to |lines|
        invariant events == Filter(pred, Events(Records(codec, lines[..i], g)))
      {
        StepLine(lines, i, g);
        match codec.parse(lines[i].text) {
          case None =>
          case Some(e) =>
            ghost var r := Located(e, lines[i].end, g);
            EventsConcat(Records(codec, lines[..i], g), [r]);
            assert Events([r]) == [e];
            FilterConcat(pred, Events(Records(codec, lines[..i], g)), [e]);
            FilterOne(pred, e);
            if pred(e) {
              events := events + [e];
            }
        }
      }
      assert lines[..|lines|] == lines;
    }
  }
}
