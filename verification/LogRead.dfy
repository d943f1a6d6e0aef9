// Reading by cursor (src/ws_collab/jsonl_store.py, 274-425): the seq scan over all files, the
// byte-offset fast path, and why the two agree for every cursor the store hands out.
module LogRead {
  import opened Sequences
  import opened LineFile
  import opened EventLog
  import opened LogAppend

  /** The records whose seq is greater than q. */
  function After(rs: seq<Located>, q: nat): seq<Located> {
    Filter((r: Located) => r.event.seqNo > q, rs)
  }

  /** A read takes the fast path when the cursor lies in the current active file. */
  predicate UsesOffset(s: State, cur: Cursor) {
    cur.gen == s.gen && cur.seqNo + 1 >= s.activeStart
  }

  /** An offset to resume from: a line boundary, or the end of a torn line. */
  predicate SafeOffset(c: Codec, file: Bytes, off: nat) {
    && off <= |file|
    && (AtLineStart(file, off)
        || (c.parse(file[LineStart(file, off)..off]) == None && (off == |file| || file[off] == NEWLINE)))
  }

  /** Resuming at `off` misses no record after seq q. */
  ghost predicate Resumes(c: Codec, file: Bytes, off: nat, q: nat) {
    && SafeOffset(c, file, off)
    && forall r | r in FileRecords(c, file[..off], 0, 0) :: r.event.seqNo <= q
  }

  /** What is true of every cursor the store has handed out. */
  ghost predicate GoodCursor(c: Codec, cfg: Config, s: State, cur: Cursor) {
    && cur.stream == cfg.name
    && cur.seqNo <= s.seqNo
    && cur.gen <= s.gen
    && (UsesOffset(s, cur) ==> Resumes(c, s.disk.active, cur.off, cur.seqNo))
  }

  // ---------------------------------------------------------------- the fast path

  /** The generation only labels the records of a file. */
  lemma {:induction false} GenOnlyLabels(c: Codec, lines: seq<Line>, g: nat, h: nat)
    ensures Events(Records(c, lines, g)) == Events(Records(c, lines, h))
  {
    if lines != [] {
      GenOnlyLabels(c, lines[1..], g, h);
      var xs, ys := Records(c, lines[1..], g), Records(c, lines[1..], h);
      assert forall i | 0 <= i < |xs| :: Events(xs)[i] == xs[i].event && Events(ys)[i] == ys[i].event;
    }
  }

  lemma LabelsOf(c: Codec, file: Bytes, from: nat, g: nat, h: nat, q: nat)
    requires forall r | r in FileRecords(c, file, from, g) :: r.event.seqNo <= q
    ensures forall r | r in FileRecords(c, file, from, h) :: r.event.seqNo <= q
  {
    GenOnlyLabels(c, CompleteLines(file, from), g, h);
    var xs, ys := FileRecords(c, file, from, g), FileRecords(c, file, from, h);
    forall i | 0 <= i < |ys|
      ensures ys[i].event.seqNo <= q
    {
      assert Events(xs)[i] == Events(ys)[i];
      assert xs[i] in xs;
    }
  }

  /** A scan from a safe offset finds exactly the records after it. */
  lemma SafeOffsetSplits(c: Codec, file: Bytes, off: nat, gen: nat)
    requires SafeOffset(c, file, off)
    ensures FileRecords(c, file, 0, gen) == FileRecords(c, file[..off], 0, gen) + FileRecords(c, file, off, gen)
  {
    if AtLineStart(file, off) {
      FileRecordsSplit(c, file, off, gen);
    } else {
      var start := LineStart(file, off);
      FileRecordsSplit(c, file, start, gen);
      assert file[..off] == file[..start] + file[start..off];
      LinesIgnoreTail(file[..start], file[start..off]);
      TornLineSkipped(c, file, start, off, gen);
    }
  }

  /** From the middle or the beginning of a torn line, a scan finds the same records. */
  lemma TornLineSkipped(c: Codec, file: Bytes, start: nat, off: nat, gen: nat)
    requires start <= off <= |file| && NoNewline(file, start, off)
    requires c.parse(file[start..off]) == None && (off == |file| || file[off] == NEWLINE)
    ensures FileRecords(c, file, start, gen) == FileRecords(c, file, off, gen)
  {
    if off == |file| {
      LinesSkip(file, start, start, off);
    } else {
      LinesNext(file, start, off);
      LinesNext(file, off, off);
      var torn, empty, rest := LineAt(file, start, off), LineAt(file, off, off), CompleteLines(file, off + 1);
      assert empty == [];
      assert empty + rest == rest;
      RecordsConcat(c, torn, rest, gen);
      assert Records(c, torn, gen) == [] by {
        assert torn != [] ==> torn[1..] == [];
      }
    }
  }

  /** The fast path refines the seq scan: same records, same offsets. */
  lemma OffsetScanIsSeqScan(c: Codec, cfg: Config, s: State, history: seq<Event>, cur: Cursor)
    requires Inv(c, s, history) && GoodCursor(c, cfg, s, cur) && UsesOffset(s, cur)
    ensures After(FileRecords(c, s.disk.active, cur.off, s.gen), cur.seqNo) == After(Retained(c, s), cur.seqNo)
  {
    var q, file := cur.seqNo, s.disk.active;
    var archived := SourceRecords(c, Sources(s)[..|s.segments|]);
    var before, rest := FileRecords(c, file[..cur.off], 0, s.gen), FileRecords(c, file, cur.off, s.gen);
    RetainedSplit(c, s);
    SafeOffsetSplits(c, file, cur.off, s.gen);
    ArchivedBehind(c, s, history, q);
    LabelsOf(c, file[..cur.off], 0, 0, s.gen, q);
    AfterBoth(archived, before, rest, q);
  }

  /** Records up to seq q in front of others. */
  lemma AfterBoth(xs: seq<Located>, ys: seq<Located>, zs: seq<Located>, q: nat)
    requires forall r | r in xs :: r.event.seqNo <= q
    requires forall r | r in ys :: r.event.seqNo <= q
    ensures After(xs + (ys + zs), q) == After(zs, q)
  {
    var front, later := xs + ys, (r: Located) => r.event.seqNo > q;
    Associates(xs, ys, zs);
    FilterConcat(later, front, zs);
    FilterNone(later, front);
  }

  /** Records of archived segments have seqs below the active file's. */
  lemma {:induction false} ArchivedBehind(c: Codec, s: State, history: seq<Event>, q: nat)
    requires Consistent(c, s, history) && q + 1 >= s.activeStart
    ensures forall r | r in SourceRecords(c, Sources(s)[..|s.segments|]) :: r.event.seqNo <= q
  {
    var srcs := Sources(s)[..|s.segments|];
    forall i | 0 <= i < |srcs|
      ensures Holds(c, srcs[i], history) && srcs[i].endSeq < s.activeStart
    {
      assert srcs[i] in Sources(s);
      EndsBelow(c, s, history, i);
    }
    SourcesBehind(c, srcs, history, q);
  }

  lemma {:induction false} EndsBelow(c: Codec, s: State, history: seq<Event>, i: nat)
    requires Consistent(c, s, history) && i < |s.segments|
    ensures Sources(s)[i].endSeq < s.activeStart
    decreases |s.segments| - i
  {
    assert Sources(s)[i + 1].startSeq == Sources(s)[i].endSeq + 1;
    if i + 1 < |s.segments| {
      assert Sources(s)[i + 1] in Sources(s);
      EndsBelow(c, s, history, i + 1);
    }
  }

  lemma {:induction false} SourcesBehind(c: Codec, srcs: seq<Source>, history: seq<Event>, q: nat)
    requires Numbered(history)
    requires forall src | src in srcs :: Holds(c, src, history) && src.endSeq <= q
    ensures forall r | r in SourceRecords(c, srcs) :: r.event.seqNo <= q
  {
    if srcs != [] {
      assert srcs[0] in srcs;
      HeldSeqs(c, srcs[0], history);
      SourcesBehind(c, srcs[1..], history, q);
    }
  }

  lemma HeldSeqs(c: Codec, src: Source, history: seq<Event>)
    requires Numbered(history) && Holds(c, src, history)
    ensures forall r | r in FileRecords(c, src.bytes, 0, src.gen) :: src.startSeq <= r.event.seqNo <= src.endSeq
  {
    var rs := FileRecords(c, src.bytes, 0, src.gen);
    forall i | 0 <= i < |rs|
      ensures src.startSeq <= rs[i].event.seqNo <= src.endSeq
    {
      assert Events(rs)[i] == history[src.startSeq - 1 + i];
    }
  }

  // ---------------------------------------------------------------- cursors handed out

  /** Records of one file come in offset order. */
  lemma {:induction false} RecordsOrdered(c: Codec, lines: seq<Line>, gen: nat)
    requires forall i, j | 0 <= i < j < |lines| :: lines[i].end <= lines[j].start
    requires forall line | line in lines :: line.start < line.end
    ensures forall i, j | 0 <= i < j < |Records(c, lines, gen)| ::
              Records(c, lines, gen)[i].end < Records(c, lines, gen)[j].end
  {
    if lines != [] {
      RecordsOrdered(c, lines[1..], gen);
      RecordsOf(c, lines[1..], gen);
      assert forall line | line in lines[1..] :: lines[0].end < line.end;
    }
  }

  /** In the active file a record that ends no later has no greater seq. */
  lemma ActiveOrdered(c: Codec, s: State, history: seq<Event>, i: nat, k: nat)
    requires Consistent(c, s, history)
    requires i < |FileRecords(c, s.disk.active, 0, s.gen)| && k < |FileRecords(c, s.disk.active, 0, s.gen)|
    requires FileRecords(c, s.disk.active, 0, s.gen)[i].end <= FileRecords(c, s.disk.active, 0, s.gen)[k].end
    ensures FileRecords(c, s.disk.active, 0, s.gen)[i].event.seqNo <= FileRecords(c, s.disk.active, 0, s.gen)[k].event.seqNo
  {
    var rs := FileRecords(c, s.disk.active, 0, s.gen);
    CompleteLinesExact(s.disk.active, 0);
    RecordsOrdered(c, CompleteLines(s.disk.active, 0), s.gen);
    assert i <= k;
    assert Holds(c, ActiveSource(s), history) by {
      assert Sources(s)[|s.segments|] in Sources(s);
    }
    assert Events(rs)[i] == history[s.activeStart - 1 + i];
    assert Events(rs)[k] == history[s.activeStart - 1 + k];
  }

  /** The position past any record of the active file resumes right after that record. */
  lemma RecordEndResumes(c: Codec, s: State, history: seq<Event>, r: Located)
    requires Consistent(c, s, history)
    requires r in FileRecords(c, s.disk.active, 0, s.gen)
    ensures Resumes(c, s.disk.active, r.end, r.event.seqNo)
  {
    var file := s.disk.active;
    FileRecordsLie(c, file, 0, s.gen);
    FileRecordsSplit(c, file, r.end, s.gen);
    var rs, before := FileRecords(c, file, 0, s.gen), FileRecords(c, file[..r.end], 0, s.gen);
    FileRecordsLie(c, file[..r.end], 0, s.gen);
    var k :| 0 <= k < |rs| && rs[k] == r;
    forall i | 0 <= i < |before|
      ensures before[i].event.seqNo <= r.event.seqNo
    {
      assert before[i] in before && before[i] == rs[i];
      ActiveOrdered(c, s, history, i, k);
    }
    LabelsOf(c, file[..r.end], 0, s.gen, 0, r.event.seqNo);
  }

  lemma OffsetZeroResumes(c: Codec, file: Bytes, q: nat)
    ensures Resumes(c, file, 0, q)
  {
    assert FileRecords(c, file[..0], 0, 0) == [];
  }

  /** The cursor of a retained record, as `append` gives it for a repeat. */
  lemma RecordCursorGood(c: Codec, cfg: Config, s: State, history: seq<Event>, r: Located)
    requires Consistent(c, s, history) && r in Retained(c, s)
    ensures GoodCursor(c, cfg, s, Cursor(cfg.name, r.event.seqNo, r.end, r.gen))
  {
    RetainedSeqs(c, s, history);
    RetainedSplit(c, s);
    SourceRecordsGens(c, Sources(s)[..|s.segments|]);
    FileRecordsLie(c, s.disk.active, 0, s.gen);
    if r in FileRecords(c, s.disk.active, 0, s.gen) {
      RecordEndResumes(c, s, history, r);
    } else {
      var src :| src in Sources(s)[..|s.segments|] && src.gen == r.gen;
      var i :| 0 <= i < |s.segments| && Sources(s)[i] == src;
      assert Sources(s)[i].gen < Sources(s)[|s.segments|].gen;
    }
  }

  function CursorAtSeq(cfg: Config, s: State, q: nat): Cursor {
    Cursor(cfg.name, if q <= s.seqNo then q else s.seqNo, 0, s.gen)
  }

  function CursorAtEnd(cfg: Config, s: State): Cursor {
    Cursor(cfg.name, s.seqNo, |s.disk.active|, s.gen)
  }

  lemma CursorAtSeqGood(c: Codec, cfg: Config, s: State, q: nat)
    ensures GoodCursor(c, cfg, s, CursorAtSeq(cfg, s, q))
  {
    OffsetZeroResumes(c, s.disk.active, CursorAtSeq(cfg, s, q).seqNo);
  }

  /** Reading from the cursor at a seq finds exactly what is held after it; so nothing, if it is beyond the end. */
  lemma CursorAtSeqIs(c: Codec, cfg: Config, s: State, history: seq<Event>, q: nat)
    requires Inv(c, s, history)
    ensures After(Retained(c, s), CursorAtSeq(cfg, s, q).seqNo) == After(Retained(c, s), q)
    ensures q >= s.seqNo ==> After(Retained(c, s), q) == []
  {
    if q >= s.seqNo {
      RetainedSeqs(c, s, history);
      FilterNone((r: Located) => r.event.seqNo > s.seqNo, Retained(c, s));
      FilterNone((r: Located) => r.event.seqNo > q, Retained(c, s));
    }
  }

  lemma CursorAtEndGood(c: Codec, cfg: Config, s: State, history: seq<Event>)
    requires Inv(c, s, history)
    ensures GoodCursor(c, cfg, s, CursorAtEnd(cfg, s))
    ensures After(Retained(c, s), CursorAtEnd(cfg, s).seqNo) == []
  {
    var file := s.disk.active;
    assert file[..|file|] == file;
    assert file[LineStart(file, |file|)..|file|] == Tail(file);
    assert Holds(c, ActiveSource(s), history) by {
      assert Sources(s)[|s.segments|] in Sources(s);
    }
    HeldSeqs(c, ActiveSource(s), history);
    LabelsOf(c, file, 0, s.gen, 0, s.seqNo);
    RetainedSeqs(c, s, history);
    FilterNone((r: Located) => r.event.seqNo > s.seqNo, Retained(c, s));
  }

  // ---------------------------------------------------------------- cursors stay good

  /** Growing a file, after terminating a torn tail, keeps every good offset good. */
  lemma ResumesStable(c: Codec, file: Bytes, more: Bytes, off: nat, q: nat)
    requires Resumes(c, file, off, q)
    ensures Resumes(c, Repaired(file) + more, off, q)
  {
    var longer := Repaired(file) + more;
    assert longer[..off] == file[..off];
    LineStartStable(file, longer, off);
    assert longer[LineStart(file, off)..off] == file[LineStart(file, off)..off];
  }

  lemma {:induction false} LineStartStable(file: Bytes, longer: Bytes, off: nat)
    requires off <= |file| && off <= |longer| && file[..off] == longer[..off]
    ensures LineStart(file, off) == LineStart(longer, off)
  {
    if off != 0 {
      assert file[off - 1] == file[..off][off - 1];
      assert longer[off - 1] == longer[..off][off - 1];
      if file[off - 1] != NEWLINE {
        assert file[..off - 1] == file[..off][..off - 1];
        assert longer[..off - 1] == longer[..off][..off - 1];
        LineStartStable(file, longer, off - 1);
      }
    }
  }

  lemma WrittenKeepsCursor(c: Codec, cfg: Config, s: State, e: Event, cur: Cursor)
    requires GoodCursor(c, cfg, s, cur)
    ensures GoodCursor(c, cfg, Written(c, s, e), cur)
  {
    if UsesOffset(s, cur) {
      var more := c.render(Stamped(s, e)) + [NEWLINE];
      ResumesStable(c, s.disk.active, more, cur.off, cur.seqNo);
      assert WrittenFile(c, s, e) == Repaired(s.disk.active) + more;
    }
  }

  lemma {:induction false} RotatedKeepsCursor(c: Codec, cfg: Config, s: State, history: seq<Event>, cur: Cursor)
    requires Inv(c, s, history) && GoodCursor(c, cfg, s, cur)
    ensures GoodCursor(c, cfg, Rotated(cfg, s), cur)
  {
    if |s.disk.active| >= cfg.rotateMaxBytes {
      ArchivedKeeps(c, s, history);
      RetiredKeeps(c, Archived(s), history, cfg.retentionMaxFiles);
    }
  }

  /** A cursor once handed out stays good whatever is appended, rotated away or retired. */
  lemma AppendKeepsCursor(c: Codec, cfg: Config, s: State, history: seq<Event>, e: Event, cur: Cursor)
    requires Sound(c) && Inv(c, s, history) && GoodCursor(c, cfg, s, cur)
    ensures GoodCursor(c, cfg, Append(c, cfg, s, e).0, cur)
  {
    if !Duplicate(s, e) {
      WrittenKeeps(c, s, history, e);
      WrittenKeepsCursor(c, cfg, s, e, cur);
      RotatedKeepsCursor(c, cfg, Written(c, s, e), history + [Stamped(s, e)], cur);
    }
  }

  /** The cursor an append answers with is good, for a new record and for a repeat. */
  lemma AppendCursorGood(c: Codec, cfg: Config, s: State, history: seq<Event>, e: Event)
    requires Sound(c) && Inv(c, s, history)
    ensures GoodCursor(c, cfg, Append(c, cfg, s, e).0, Append(c, cfg, s, e).1.cursor)
    ensures Append(c, cfg, s, e).1.cursor.seqNo == Append(c, cfg, s, e).1.event.seqNo
  {
    if Duplicate(s, e) {
      var r :| r in Retained(c, s) && r.event.key == e.key;
      RecordCursorGood(c, cfg, s, history, r);
    } else {
      var t, history' := Written(c, s, e), history + [Stamped(s, e)];
      WrittenKeeps(c, s, history, e);
      WrittenRetained(c, s, e);
      var last := Located(Stamped(s, e), |WrittenFile(c, s, e)|, s.gen);
      assert Retained(c, t)[|Retained(c, s)|] == last;
      RecordCursorGood(c, cfg, t, history', last);
      RotatedKeepsCursor(c, cfg, t, history', Append(c, cfg, s, e).1.cursor);
    }
  }
}
