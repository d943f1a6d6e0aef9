// Appending a record, rotation and retention (src/ws_collab/jsonl_store.py, 158-258),
// and what they keep.
module LogAppend {
  import opened Sequences
  import opened LineFile
  import opened EventLog

  /** The position a cursor token carries. */
  datatype Cursor = Cursor(stream: string, seqNo: nat, off: nat, gen: nat)

  datatype AppendResult = AppendResult(event: Event, duplicate: bool, cursor: Cursor)

  predicate Duplicate(s: State, e: Event) {
    e.key != "" && e.key in s.index
  }

  /** The record as it is written: with the next seq. */
  function Stamped(s: State, e: Event): Event {
    e.(seqNo := s.seqNo + 1)
  }

  /** The active file once the record is on disk. */
  function WrittenFile(c: Codec, s: State, e: Event): Bytes {
    Repaired(s.disk.active) + c.render(Stamped(s, e)) + [NEWLINE]
  }

  /** The state after the record and the sidecar are written. */
  function Written(c: Codec, s: State, e: Event): State {
    var n, file := s.seqNo + 1, WrittenFile(c, s, e);
    Saved(s.(
      seqNo := n,
      index := if e.key == "" then s.index else s.index[e.key := Entry(e.id, n, |file|, s.gen)],
      disk := s.disk.(active := file)))
  }

  /** The sidecar brought up to date (`_write_state`). */
  function Saved(s: State): State {
    s.(disk := s.disk.(sidecar := Some(Sidecar(s.gen, s.seqNo, s.activeStart, s.segments))))
  }

  /** The active file becomes the newest segment of the next generation's log. */
  function Archived(s: State): State {
    s.(
      segments := s.segments + [Segment(s.gen, s.activeStart, s.seqNo)],
      gen := s.gen + 1,
      activeStart := s.seqNo + 1,
      disk := s.disk.(active := [], archived := s.disk.archived[s.gen := s.disk.active]))
  }

  /** The oldest segment, its file and its idempotency entries are gone. */
  function RetireOldest(s: State): State
    requires s.segments != []
  {
    var gone := s.segments[0].gen;
    s.(
      segments := s.segments[1..],
      index := map key | key in s.index && s.index[key].gen != gone :: s.index[key],
      disk := s.disk.(archived := s.disk.archived - {gone}))
  }

  function Retired(s: State, keep: nat): State
    decreases |s.segments|
  {
    if |s.segments| <= keep then s else Retired(RetireOldest(s), keep)
  }

  function Rotated(cfg: Config, s: State): State {
    if |s.disk.active| < cfg.rotateMaxBytes then s
    else Saved(Retired(Archived(s), cfg.retentionMaxFiles))
  }

  function Append(c: Codec, cfg: Config, s: State, e: Event): (State, AppendResult) {
    if Duplicate(s, e) then
      var entry := s.index[e.key];
      (s, AppendResult(e.(id := entry.id, seqNo := entry.seqNo), true,
                       Cursor(cfg.name, entry.seqNo, entry.end, entry.gen)))
    else
      (Rotated(cfg, Written(c, s, e)),
       AppendResult(Stamped(s, e), false, Cursor(cfg.name, s.seqNo + 1, |WrittenFile(c, s, e)|, s.gen)))
  }

  // ---------------------------------------------------------------- invariant

  /** Writing the record adds it, and nothing else, to the active file. */
  lemma WrittenActive(c: Codec, s: State, e: Event)
    requires Sound(c) && TailTorn(c, s.disk.active)
    ensures FileRecords(c, WrittenFile(c, s, e), 0, s.gen)
         == FileRecords(c, s.disk.active, 0, s.gen) + [Located(Stamped(s, e), |WrittenFile(c, s, e)|, s.gen)]
    ensures Tail(WrittenFile(c, s, e)) == []
  {
    RepairAdds(c, s.disk.active, s.gen);
    WriteAdds(c, Repaired(s.disk.active), Stamped(s, e), s.gen);
    LineStartIs(WrittenFile(c, s, e), |WrittenFile(c, s, e)|);
  }

  lemma WrittenRetained(c: Codec, s: State, e: Event)
    requires Sound(c) && TailTorn(c, s.disk.active)
    ensures Retained(c, Written(c, s, e)) == Retained(c, s) + [Located(Stamped(s, e), |WrittenFile(c, s, e)|, s.gen)]
  {
    var t := Written(c, s, e);
    WrittenActive(c, s, e);
    assert Sources(t)[..|s.segments|] == Sources(s)[..|s.segments|];
    RetainedSplit(c, s);
    RetainedSplit(c, t);
  }

  lemma WrittenKeeps(c: Codec, s: State, history: seq<Event>, e: Event)
    requires Sound(c) && Inv(c, s, history) && !Duplicate(s, e)
    ensures Inv(c, Written(c, s, e), history + [Stamped(s, e)])
  {
    var t, x := Written(c, s, e), Stamped(s, e);
    assert Chained(c, Sources(t), history + [x]) by {
      WrittenActive(c, s, e);
      ActiveGrows(c, s, t, history, x);
    }
    assert Indexes(t.index, Retained(c, t)) by {
      WrittenRetained(c, s, e);
      IndexesPush(s.index, Retained(c, s), Located(x, |WrittenFile(c, s, e)|, s.gen));
    }
    assert TailTorn(c, t.disk.active) by {
      WrittenActive(c, s, e);
    }
  }

  lemma HoldsLater(c: Codec, src: Source, history: seq<Event>, x: Event)
    requires Holds(c, src, history)
    ensures Holds(c, src, history + [x])
  {
    var longer := history + [x];
    assert longer[src.startSeq - 1..src.endSeq] == history[src.startSeq - 1..src.endSeq];
  }

  /** The last file takes the next record. */
  lemma LastGrows(c: Codec, srcs: seq<Source>, last: Source, history: seq<Event>, x: Event)
    requires Chained(c, srcs, history) && Holds(c, last, history + [x])
    requires last.gen == srcs[|srcs| - 1].gen && last.startSeq == srcs[|srcs| - 1].startSeq && last.endSeq == |history| + 1
    ensures Chained(c, srcs[|srcs| - 1 := last], history + [x])
  {
    var n, grown := |srcs| - 1, srcs[|srcs| - 1 := last];
    forall src | src in grown
      ensures Holds(c, src, history + [x])
    {
      var i :| 0 <= i < |grown| && grown[i] == src;
      if i < n {
        HoldsLater(c, srcs[i], history, x);
      }
    }
  }

  /** Adding the next record to the active file keeps the files chained. */
  lemma ActiveGrows(c: Codec, s: State, t: State, history: seq<Event>, x: Event)
    requires Consistent(c, s, history)
    requires t.segments == s.segments && t.disk.archived == s.disk.archived
    requires t.gen == s.gen && t.activeStart == s.activeStart && t.seqNo == s.seqNo + 1
    requires Events(FileRecords(c, t.disk.active, 0, t.gen)) == Events(FileRecords(c, s.disk.active, 0, s.gen)) + [x]
    ensures Chained(c, Sources(t), history + [x])
  {
    var srcs, last := Sources(s), ActiveSource(t);
    assert Sources(t) == srcs[|srcs| - 1 := last];
    assert Holds(c, srcs[|srcs| - 1], history);
    LastGrows(c, srcs, last, history, x);
  }

  /** The last file replaced by one with the same records. */
  lemma LastReplaced(c: Codec, srcs: seq<Source>, last: Source, history: seq<Event>)
    requires Chained(c, srcs, history) && last == srcs[|srcs| - 1].(bytes := last.bytes)
    requires FileRecords(c, last.bytes, 0, last.gen) == FileRecords(c, srcs[|srcs| - 1].bytes, 0, last.gen)
    ensures Chained(c, srcs[|srcs| - 1 := last], history)
  {
    var n, replaced := |srcs| - 1, srcs[|srcs| - 1 := last];
    assert Holds(c, srcs[n], history);
    forall src | src in replaced
      ensures Holds(c, src, history)
    {
      var i :| 0 <= i < |replaced| && replaced[i] == src;
      if i < n {
        assert srcs[i] in srcs;
      }
    }
  }

  /** An empty file after the last one. */
  lemma {:induction false} EmptyAdded(c: Codec, srcs: seq<Source>, empty: Source, history: seq<Event>)
    requires Chained(c, srcs, history) && empty.bytes == []
    requires empty.gen > srcs[|srcs| - 1].gen && empty.startSeq == |history| + 1 && empty.endSeq == |history|
    ensures Chained(c, srcs + [empty], history)
    ensures SourceRecords(c, srcs + [empty]) == SourceRecords(c, srcs)
  {
    EmptyChained(c, srcs, empty, history);
    var one := [empty];
    assert FileRecords(c, [], 0, empty.gen) == [];
    SourceRecordsConcat(c, srcs, one);
    assert SourceRecords(c, one[1..]) == [] && SourceRecords(c, one) == [];
  }

  lemma EmptyChained(c: Codec, srcs: seq<Source>, empty: Source, history: seq<Event>)
    requires Chained(c, srcs, history) && empty.bytes == []
    requires empty.gen > srcs[|srcs| - 1].gen && empty.startSeq == |history| + 1 && empty.endSeq == |history|
    ensures Chained(c, srcs + [empty], history)
  {
    var all, last := srcs + [empty], |srcs| - 1;
    assert Holds(c, empty, history) by {
      assert FileRecords(c, [], 0, empty.gen) == [];
    }
    forall i, j | 0 <= i < j < |all|
      ensures all[i].gen < all[j].gen
    {
      assert i < last ==> srcs[i].gen < srcs[last].gen;
    }
  }

  lemma ArchivedSources(s: State)
    requires forall i | 0 <= i < |s.segments| :: s.segments[i].gen < s.gen
    ensures Sources(Archived(s)) == Sources(s) + [Source(s.gen + 1, s.seqNo + 1, s.seqNo, [])]
  {
    var t, n := Archived(s), |s.segments|;
    forall i | 0 <= i < n
      ensures ArchivedSource(t, i) == ArchivedSource(s, i)
    {
      assert s.segments[i].gen < s.gen;
    }
    assert ArchivedSource(t, n) == ActiveSource(s);
  }

  lemma GensBelow(c: Codec, s: State, history: seq<Event>)
    requires Chained(c, Sources(s), history)
    ensures forall i | 0 <= i < |s.segments| :: s.segments[i].gen < s.gen
  {
    forall i | 0 <= i < |s.segments|
      ensures s.segments[i].gen < s.gen
    {
      assert Sources(s)[i].gen < Sources(s)[|s.segments|].gen;
    }
  }

  lemma ArchivedChained(c: Codec, s: State, history: seq<Event>)
    requires Chained(c, Sources(s), history) && s.seqNo == |history|
    ensures Chained(c, Sources(Archived(s)), history)
    ensures Retained(c, Archived(s)) == Retained(c, s)
  {
    var srcs := Sources(s);
    GensBelow(c, s, history);
    ArchivedSources(s);
    assert srcs[|srcs| - 1] == ActiveSource(s);
    EmptyAdded(c, srcs, Source(s.gen + 1, s.seqNo + 1, s.seqNo, []), history);
  }

  lemma ArchivedKeeps(c: Codec, s: State, history: seq<Event>)
    requires Consistent(c, s, history)
    ensures Consistent(c, Archived(s), history)
    ensures Retained(c, Archived(s)) == Retained(c, s)
  {
    ArchivedChained(c, s, history);
  }

  /** Retiring drops the oldest file and leaves the others as they were. */
  lemma OthersStay(c: Codec, s: State, history: seq<Event>)
    requires Consistent(c, s, history) && s.segments != []
    ensures Sources(RetireOldest(s)) == Sources(s)[1..]
  {
    var t, srcs := RetireOldest(s), Sources(s);
    forall i | 0 <= i < |t.segments|
      ensures Sources(t)[i] == srcs[i + 1]
    {
      assert srcs[0].gen < srcs[i + 1].gen;
    }
  }

  /** What is retained is of the other files. */
  lemma OthersRetained(c: Codec, s: State, history: seq<Event>, r: Located)
    requires Consistent(c, s, history) && s.segments != [] && r in Retained(c, RetireOldest(s))
    ensures r in Retained(c, s) && r.gen != Sources(s)[0].gen
  {
    var t, srcs := RetireOldest(s), Sources(s);
    OthersStay(c, s, history);
    var gone := FileRecords(c, srcs[0].bytes, 0, srcs[0].gen);
    assert Retained(c, s) == gone + Retained(c, t);
    var i :| 0 <= i < |Retained(c, t)| && Retained(c, t)[i] == r;
    assert Retained(c, s)[|gone| + i] == r;
    SourceRecordsGens(c, srcs[1..]);
    var src :| src in srcs[1..] && src.gen == r.gen;
  }

  lemma RetireOldestKeeps(c: Codec, s: State, history: seq<Event>)
    requires Consistent(c, s, history) && s.segments != []
    ensures Consistent(c, RetireOldest(s), history)
    ensures Retained(c, s) == FileRecords(c, Sources(s)[0].bytes, 0, Sources(s)[0].gen) + Retained(c, RetireOldest(s))
  {
    var t, srcs := RetireOldest(s), Sources(s);
    var gone := FileRecords(c, srcs[0].bytes, 0, srcs[0].gen);
    OthersStay(c, s, history);
    assert Retained(c, s) == gone + Retained(c, t);
    FileRecordsLie(c, srcs[0].bytes, 0, srcs[0].gen);
    forall r | r in Retained(c, t)
      ensures r in Retained(c, s) && r.gen != srcs[0].gen
    {
      OthersRetained(c, s, history, r);
    }
    forall key | key in t.index
      ensures exists r :: r in Retained(c, t) && r.event.key == key
    {
      var r :| r in Retained(c, s) && r.event.key == key;
      assert r !in gone;
    }
  }

  lemma {:induction false} RetiredKeeps(c: Codec, s: State, history: seq<Event>, keep: nat)
    requires Consistent(c, s, history)
    ensures Consistent(c, Retired(s, keep), history)
    ensures |Retained(c, Retired(s, keep))| <= |Retained(c, s)|
    ensures |Retired(s, keep).segments| == if |s.segments| <= keep then |s.segments| else keep
    ensures Retired(s, keep).seqNo == s.seqNo && Retired(s, keep).gen == s.gen
    ensures Retired(s, keep).activeStart == s.activeStart && Retired(s, keep).disk.active == s.disk.active
    decreases |s.segments|
  {
    if |s.segments| > keep {
      RetireOldestKeeps(c, s, history);
      RetiredKeeps(c, RetireOldest(s), history, keep);
    }
  }

  /** Rotation and retention keep the invariant; they only ever drop whole files from the old end. */
  lemma RotatedKeeps(c: Codec, cfg: Config, s: State, history: seq<Event>)
    requires Inv(c, s, history)
    ensures Inv(c, Rotated(cfg, s), history)
    ensures FirstSeq(s) <= FirstSeq(Rotated(cfg, s))
  {
    if |s.disk.active| >= cfg.rotateMaxBytes {
      var t, u := Archived(s), Retired(Archived(s), cfg.retentionMaxFiles);
      ArchivedKeeps(c, s, history);
      RetiredKeeps(c, t, history, cfg.retentionMaxFiles);
      SavedKeeps(c, u, history);
      RetainedIsSuffix(c, s, history);
      RetainedIsSuffix(c, u, history);
    }
  }

  lemma SavedKeeps(c: Codec, s: State, history: seq<Event>)
    requires Consistent(c, s, history)
    ensures Inv(c, Saved(s), history)
    ensures Retained(c, Saved(s)) == Retained(c, s)
  {
    assert Sources(Saved(s)) == Sources(s);
    assert Holds(c, ActiveSource(s), history) by {
      assert Sources(s)[|s.segments|] in Sources(s);
    }
  }

  /** A new record becomes the next of the history; a repeat changes nothing. */
  lemma AppendKeeps(c: Codec, cfg: Config, s: State, history: seq<Event>, e: Event)
    requires Sound(c) && Inv(c, s, history)
    ensures Inv(c, Append(c, cfg, s, e).0, if Duplicate(s, e) then history else history + [Stamped(s, e)])
    ensures FirstSeq(s) <= FirstSeq(Append(c, cfg, s, e).0)
  {
    if !Duplicate(s, e) {
      WrittenKeeps(c, s, history, e);
      RotatedKeeps(c, cfg, Written(c, s, e), history + [Stamped(s, e)]);
      assert FirstSeq(Written(c, s, e)) == FirstSeq(s);
    }
  }

  /** An append is refused as a repeat exactly when a retained record has its key, and it
      answers with that record's id and seq. */
  lemma RepeatReturnsOriginal(c: Codec, cfg: Config, s: State, history: seq<Event>, e: Event)
    requires Inv(c, s, history)
    ensures Append(c, cfg, s, e).1.duplicate <==> e.key != "" && exists r :: r in Retained(c, s) && r.event.key == e.key
    ensures forall r | r in Retained(c, s) && e.key != "" && r.event.key == e.key ::
              && Append(c, cfg, s, e).0 == s
              && Append(c, cfg, s, e).1.event == e.(id := r.event.id, seqNo := r.event.seqNo)
              && Append(c, cfg, s, e).1.cursor == Cursor(cfg.name, r.event.seqNo, r.end, r.gen)
  {
  }

  // ---------------------------------------------------------------- when a stream rotates

  /** The size of the active file once a record is appended: a torn line is terminated first, and the record has a
      newline of its own. */
  function SizeWith(c: Codec, s: State, e: Event): nat {
    var size := |s.disk.active|;
    var repaired := if size > 0 && s.disk.active[size - 1] != NEWLINE then size + 1 else size;
    repaired + |c.render(e.(seqNo := s.seqNo + 1))| + 1
  }

  /** The generations of the segments that are too many. */
  function TooMany(segments: seq<Segment>, keep: nat): set<nat> {
    set i | 0 <= i < |segments| - keep :: segments[i].gen
  }

  lemma {:induction false} RetiredIs(s: State, keep: nat)
    ensures Retired(s, keep).segments == LastN(s.segments, keep)
    ensures Retired(s, keep).disk.archived == s.disk.archived - TooMany(s.segments, keep)
    ensures Retired(s, keep).disk.active == s.disk.active && Retired(s, keep).gen == s.gen
    ensures Retired(s, keep).activeStart == s.activeStart
    decreases |s.segments|
  {
    if |s.segments| > keep {
      RetiredIs(RetireOldest(s), keep);
      var gone, rest := s.segments[0].gen, TooMany(s.segments[1..], keep);
      assert TooMany(s.segments, keep) == {gone} + rest by {
        forall gen | gen in rest
          ensures gen in TooMany(s.segments, keep)
        {
          var i :| 0 <= i < |s.segments| - 1 - keep && s.segments[1..][i].gen == gen;
          assert s.segments[i + 1].gen == gen;
        }
        forall gen | gen in TooMany(s.segments, keep)
          ensures gen == gone || gen in rest
        {
          var i :| 0 <= i < |s.segments| - keep && s.segments[i].gen == gen;
          assert i > 0 ==> s.segments[1..][i - 1].gen == gen;
        }
      }
      assert s.disk.archived - {gone} - rest == s.disk.archived - ({gone} + rest);
    }
  }

  /** An append that leaves the active file below the limit moves and drops nothing. */
  lemma SmallFileStays(c: Codec, cfg: Config, s: State, e: Event)
    requires !Duplicate(s, e) && SizeWith(c, s, e) < cfg.rotateMaxBytes
    ensures var t := Append(c, cfg, s, e).0;
            && t.gen == s.gen && t.segments == s.segments && t.activeStart == s.activeStart
            && t.disk.archived == s.disk.archived && FirstSeq(t) == FirstSeq(s)
            && |t.disk.active| == SizeWith(c, s, e)
  {
  }

  /** The generation of a kept segment is not among those that are too many. */
  lemma KeptIsNotTooMany(segments: seq<Segment>, keep: nat, i: nat)
    requires |segments| - keep <= i < |segments|
    requires forall j, k | 0 <= j < k < |segments| :: segments[j].gen < segments[k].gen
    ensures segments[i].gen !in TooMany(segments, keep)
  {
  }

  /** The segments once the active file is one of them. */
  function WithActive(s: State): seq<Segment> {
    s.segments + [Segment(s.gen, s.activeStart, s.seqNo + 1)]
  }

  lemma GensAscend(c: Codec, s: State, history: seq<Event>)
    requires Inv(c, s, history)
    ensures forall j, k | 0 <= j < k <= |s.segments| :: WithActive(s)[j].gen < WithActive(s)[k].gen
  {
    forall j, k | 0 <= j < k <= |s.segments|
      ensures WithActive(s)[j].gen < WithActive(s)[k].gen
    {
      assert Sources(s)[j].gen < Sources(s)[k].gen;
    }
  }

  /** The file of a segment is kept by an append as it was; that of the new one is the active file of the size it got. */
  predicate KeepsFile(c: Codec, s: State, e: Event, t: State, gen: nat) {
    && (gen == s.gen ==> gen in t.disk.archived && |t.disk.archived[gen]| == SizeWith(c, s, e))
    && (gen != s.gen && gen in s.disk.archived ==>
          gen in t.disk.archived && t.disk.archived[gen] == s.disk.archived[gen])
  }

  /** An append that brings the active file to the limit makes it the newest segment and leaves an empty one; of the
      segments the newest stay, as many as retention allows, and their files are as they were. */
  lemma FullFileRotates(c: Codec, cfg: Config, s: State, history: seq<Event>, e: Event)
    requires Inv(c, s, history) && !Duplicate(s, e) && SizeWith(c, s, e) >= cfg.rotateMaxBytes
    ensures var t := Append(c, cfg, s, e).0;
            && t.disk.active == [] && t.gen == s.gen + 1 && t.activeStart == s.seqNo + 2
            && t.segments == LastN(s.segments + [Segment(s.gen, s.activeStart, s.seqNo + 1)], cfg.retentionMaxFiles)
            && forall i | 0 <= i < |t.segments| :: KeepsFile(c, s, e, t, t.segments[i].gen)
  {
    var u, t, keep := Archived(Written(c, s, e)), Append(c, cfg, s, e).0, cfg.retentionMaxFiles;
    assert t == Saved(Retired(u, keep));
    RetiredIs(u, keep);
    GensAscend(c, s, history);
    assert u.segments == WithActive(s);
    var k := |u.segments| - |t.segments|;
    forall i | 0 <= i < |t.segments|
      ensures KeepsFile(c, s, e, t, t.segments[i].gen)
    {
      assert t.segments[i] == u.segments[k + i];
      KeptIsNotTooMany(u.segments, keep, k + i);
    }
  }
}
