// Restart recovery (src/ws_collab/jsonl_store.py, 88-156) and crashes inside an append.
module LogCrash {
  import opened Sequences
  import opened LineFile
  import opened EventLog
  import opened LogAppend
  import opened LogRead

  /** Where an append was cut short: nothing done yet, `bytes` bytes of the new line on disk, or
      the sidecar written too. */
  datatype CrashPoint = BeforeRepair | Cut(bytes: nat) | AfterSidecar

  function LastSeq(rs: seq<Located>): nat {
    if rs == [] then 0 else rs[|rs| - 1].event.seqNo
  }

  function MaxSeq(rs: seq<Located>): nat {
    if rs == [] then 0 else Max(MaxSeq(rs[..|rs| - 1]), rs[|rs| - 1].event.seqNo)
  }

  /** The counters as the sidecar gives them, or as a scan of a lone active file does. */
  function Loaded(c: Codec, disk: Disk): State {
    match disk.sidecar
    case Some(sc) => State(sc.seqNo, sc.gen, sc.activeStart, sc.segments, map[], disk)
    case None => State(MaxSeq(FileRecords(c, disk.active, 0, 0)), 0, 1, [], map[], disk)
  }

  /** The seq counter caught up with the last record of the active file. */
  function Reconciled(c: Codec, s: State): State {
    s.(seqNo := Max(s.seqNo, LastSeq(FileRecords(c, s.disk.active, 0, s.gen))))
  }

  function Recovered(c: Codec, disk: Disk): State {
    var s := Reconciled(c, Loaded(c, disk));
    s.(index := IndexOf(Retained(c, s)))
  }

  /** What a crash leaves on disk when it interrupts the append of a new record. */
  function CrashDisk(c: Codec, s: State, e: Event, at: CrashPoint): Disk {
    match at
    case BeforeRepair => s.disk
    case AfterSidecar => Written(c, s, e).disk
    case Cut(k) =>
      var line := c.render(Stamped(s, e)) + [NEWLINE];
      s.disk.(active := Repaired(s.disk.active) + line[..if k <= |line| then k else |line|])
  }

  /** The one cut that leaves a whole record without its newline. */
  predicate WholeButNewline(c: Codec, s: State, e: Event, at: CrashPoint) {
    at == Cut(|c.render(Stamped(s, e))|)
  }

  /** The interrupted record is on disk, newline and all. */
  predicate Survives(c: Codec, s: State, e: Event, at: CrashPoint) {
    at == AfterSidecar || (at.Cut? && at.bytes > |c.render(Stamped(s, e))|)
  }

  // ---------------------------------------------------------------- restart

  lemma {:induction false} MaxSeqOf(rs: seq<Located>, history: seq<Event>)
    requires Numbered(history) && Events(rs) == history
    ensures MaxSeq(rs) == |history|
  {
    if rs != [] {
      var n := |rs| - 1;
      assert Events(rs[..n]) == history[..n];
      assert Events(rs)[n] == rs[n].event;
      MaxSeqOf(rs[..n], history[..n]);
    }
  }

  /** The active file ends with the newest record, if it holds one. */
  lemma LastSeqIs(c: Codec, s: State, history: seq<Event>)
    requires Consistent(c, s, history)
    ensures LastSeq(FileRecords(c, s.disk.active, 0, s.gen)) == s.seqNo || FileRecords(c, s.disk.active, 0, s.gen) == []
  {
    var rs := FileRecords(c, s.disk.active, 0, s.gen);
    assert Holds(c, ActiveSource(s), history) by {
      assert Sources(s)[|s.segments|] in Sources(s);
    }
    if rs != [] {
      assert Events(rs)[|rs| - 1] == history[s.seqNo - 1];
    }
  }

  /** A stream that has never rotated holds its whole history in the active file. */
  lemma MaxSeqIs(c: Codec, s: State, history: seq<Event>)
    requires Consistent(c, s, history) && s.activeStart == 1
    ensures MaxSeq(FileRecords(c, s.disk.active, 0, s.gen)) == s.seqNo
  {
    assert Holds(c, ActiveSource(s), history) by {
      assert Sources(s)[|s.segments|] in Sources(s);
    }
    assert history[0..s.seqNo] == history;
    MaxSeqOf(FileRecords(c, s.disk.active, 0, s.gen), history);
  }

  /** The counters are restored from the sidecar and the records of the active file. */
  lemma CountersRestored(c: Codec, s: State, history: seq<Event>)
    requires Inv(c, s, history)
    ensures Reconciled(c, Loaded(c, s.disk)) == s.(index := map[])
  {
    LastSeqIs(c, s, history);
    RecordsBounds(c, s, history);
    if s.disk.sidecar.None? {
      MaxSeqIs(c, s, history);
    }
  }

  /** An active file without a record leaves the counter just before its first seq. */
  lemma RecordsBounds(c: Codec, s: State, history: seq<Event>)
    requires Consistent(c, s, history)
    ensures FileRecords(c, s.disk.active, 0, s.gen) == [] ==> s.activeStart == s.seqNo + 1
  {
    assert Holds(c, ActiveSource(s), history) by {
      assert Sources(s)[|s.segments|] in Sources(s);
    }
    assert |Events(FileRecords(c, s.disk.active, 0, s.gen))| == s.seqNo + 1 - s.activeStart;
  }

  /** Recovery depends on the records of the active file, not on an unterminated tail. */
  lemma RecoveryIgnoresTail(c: Codec, s: State, history: seq<Event>, active: Bytes)
    requires Inv(c, s, history)
    requires FileRecords(c, active, 0, s.gen) == FileRecords(c, s.disk.active, 0, s.gen)
    ensures Recovered(c, s.disk.(active := active)) == s.(disk := s.disk.(active := active))
  {
    var t := s.(disk := s.disk.(active := active), index := map[]);
    CountersRestored(c, s, history);
    assert Reconciled(c, Loaded(c, t.disk)) == t;
    assert Retained(c, t) == Retained(c, s) by {
      assert Sources(t)[..|s.segments|] == Sources(s)[..|s.segments|];
      RetainedSplit(c, s);
      RetainedSplit(c, t);
    }
    IndexAgreesWithFiles(c, s, history);
  }

  /** Starting again from the files a stream leaves behind restores the very same state. */
  lemma RestartRestores(c: Codec, s: State, history: seq<Event>)
    requires Inv(c, s, history)
    ensures Recovered(c, s.disk) == s
  {
    RecoveryIgnoresTail(c, s, history, s.disk.active);
  }

  // ---------------------------------------------------------------- crash inside an append

  /** The state a crash at the given point amounts to. */
  function Crashed(c: Codec, s: State, e: Event, at: CrashPoint): State {
    if Survives(c, s, e, at) then Written(c, s, e).(disk := CrashDisk(c, s, e, at))
    else s.(disk := CrashDisk(c, s, e, at))
  }

  lemma CutKeeps(c: Codec, s: State, history: seq<Event>, e: Event, k: nat)
    requires Sound(c) && Inv(c, s, history) && k < |c.render(Stamped(s, e))|
    ensures Inv(c, Crashed(c, s, e, Cut(k)), history)
  {
    var x, t := Stamped(s, e), Crashed(c, s, e, Cut(k));
    CutActive(c, s, e, k);
    SameRecordsKeep(c, s, t, history);
  }

  /** A record cut short adds none to the active file, and leaves itself as its tail. */
  lemma CutActive(c: Codec, s: State, e: Event, k: nat)
    requires Sound(c) && TailTorn(c, s.disk.active) && k <= |c.render(Stamped(s, e))|
    ensures var active := CrashDisk(c, s, e, Cut(k)).active;
            && FileRecords(c, active, 0, s.gen) == FileRecords(c, s.disk.active, 0, s.gen)
            && Tail(active) == c.render(Stamped(s, e))[..k]
  {
    var x, file := Stamped(s, e), Repaired(s.disk.active);
    RepairAdds(c, s.disk.active, s.gen);
    PartialWriteAddsNothing(c, file, x, k, s.gen);
    assert CrashDisk(c, s, e, Cut(k)).active == file + c.render(x)[..k] by {
      assert (c.render(x) + [NEWLINE])[..k] == c.render(x)[..k];
    }
  }

  /** Replacing the active file by one with the same records and a torn tail keeps the invariant. */
  lemma SameRecordsKeep(c: Codec, s: State, t: State, history: seq<Event>)
    requires Inv(c, s, history)
    requires t == s.(disk := s.disk.(active := t.disk.active)) && TailTorn(c, t.disk.active)
    requires FileRecords(c, t.disk.active, 0, s.gen) == FileRecords(c, s.disk.active, 0, s.gen)
    ensures Inv(c, t, history)
  {
    var srcs := Sources(s);
    assert Sources(t) == srcs[|srcs| - 1 := ActiveSource(t)];
    LastReplaced(c, srcs, ActiveSource(t), history);
    SameActiveRetained(c, s, t);
  }

  lemma SameActiveRetained(c: Codec, s: State, t: State)
    requires t == s.(disk := s.disk.(active := t.disk.active))
    requires FileRecords(c, t.disk.active, 0, s.gen) == FileRecords(c, s.disk.active, 0, s.gen)
    ensures Retained(c, t) == Retained(c, s)
  {
    assert Sources(t)[..|s.segments|] == Sources(s)[..|s.segments|];
    RetainedSplit(c, s);
    RetainedSplit(c, t);
  }

  lemma SurvivorKeeps(c: Codec, s: State, history: seq<Event>, e: Event, at: CrashPoint)
    requires Sound(c) && Inv(c, s, history) && !Duplicate(s, e) && Survives(c, s, e, at)
    ensures Inv(c, Crashed(c, s, e, at), history + [Stamped(s, e)])
  {
    var t, u := Crashed(c, s, e, at), Written(c, s, e);
    WrittenKeeps(c, s, history, e);
    var line := c.render(Stamped(s, e)) + [NEWLINE];
    assert line[..|line|] == line;
    assert Repaired(s.disk.active) + line == WrittenFile(c, s, e);
    assert Sources(t) == Sources(u);
  }

  /** Crash at any point of an append but the one: recovery restores a good state in which every
      acknowledged record is still held, and the interrupted one is held whole or not at all. */
  lemma CrashRecovers(c: Codec, s: State, history: seq<Event>, e: Event, at: CrashPoint)
    requires Sound(c) && Inv(c, s, history) && !Duplicate(s, e)
    requires !WholeButNewline(c, s, e, at)
    ensures Inv(c, Recovered(c, CrashDisk(c, s, e, at)),
                if Survives(c, s, e, at) then history + [Stamped(s, e)] else history)
    ensures Recovered(c, CrashDisk(c, s, e, at)) == Crashed(c, s, e, at)
    ensures FirstSeq(Recovered(c, CrashDisk(c, s, e, at))) == FirstSeq(s)
  {
    var t := Crashed(c, s, e, at);
    if Survives(c, s, e, at) {
      SurvivorKeeps(c, s, history, e, at);
      RestartRestores(c, t, history + [Stamped(s, e)]);
    } else {
      if at.Cut? {
        CutKeeps(c, s, history, e, at.bytes);
      }
      RestartRestores(c, t, history);
    }
  }

  lemma CrashKeepsCursor(c: Codec, cfg: Config, s: State, e: Event, at: CrashPoint, cur: Cursor)
    requires GoodCursor(c, cfg, s, cur)
    ensures GoodCursor(c, cfg, Crashed(c, s, e, at), cur)
  {
    if at.Cut? && UsesOffset(s, cur) {
      var line := c.render(Stamped(s, e)) + [NEWLINE];
      var more := line[..if at.bytes <= |line| then at.bytes else |line|];
      ResumesStable(c, s.disk.active, more, cur.off, cur.seqNo);
    } else if at.AfterSidecar? {
      WrittenKeepsCursor(c, cfg, s, e, cur);
    }
  }

  // ---------------------------------------------------------------- the one bad cut

  /** No seq is held by two records. */
  ghost predicate SeqsDistinct(rs: seq<Located>) {
    forall i, j | 0 <= i < j < |rs| :: rs[i].event.seqNo != rs[j].event.seqNo
  }

  lemma ConsistentSeqsDistinct(c: Codec, s: State, history: seq<Event>)
    requires Consistent(c, s, history)
    ensures SeqsDistinct(Retained(c, s))
  {
    RetainedSeqs(c, s, history);
  }

  /** The state recovered after the bad cut: the counter does not see the unterminated record. */
  lemma WholeTailRecovered(c: Codec, s: State, history: seq<Event>, e: Event)
    requires Sound(c) && Inv(c, s, history)
    ensures var t := Crashed(c, s, e, Cut(|c.render(Stamped(s, e))|));
            && Recovered(c, t.disk) == t
            && t.seqNo == s.seqNo
            && Tail(t.disk.active) == c.render(Stamped(s, e))
  {
    var x := Stamped(s, e);
    var k := |c.render(x)|;
    var t := Crashed(c, s, e, Cut(k));
    CutActive(c, s, e, k);
    assert c.render(x)[..k] == c.render(x);
    RecoveryIgnoresTail(c, s, history, t.disk.active);
  }

  lemma WholeTailSurfaces(c: Codec, t: State, x: Event, next: Event)
    requires Sound(c) && Tail(t.disk.active) == c.render(x)
    ensures FileRecords(c, WrittenFile(c, t, next), 0, t.gen) == FileRecords(c, t.disk.active, 0, t.gen)
              + [Located(x, |t.disk.active| + 1, t.gen)]
              + [Located(Stamped(t, next), |WrittenFile(c, t, next)|, t.gen)]
  {
    RepairAdds(c, t.disk.active, t.gen);
    WriteAdds(c, Repaired(t.disk.active), Stamped(t, next), t.gen);
  }

  /** The next append terminates the tail left by the bad cut, which becomes a record with the same
      seq as the one appended; and if that one repeats its key, both hold the key. */
  lemma WholeTailReissued(c: Codec, s: State, history: seq<Event>, e: Event, next: Event)
    requires Sound(c) && Inv(c, s, history)
    ensures var rs := Retained(c, Written(c, Crashed(c, s, e, Cut(|c.render(Stamped(s, e))|)), next));
            && !SeqsDistinct(rs)
            && (e.key != "" && next.key == e.key ==> !KeysUnique(rs))
  {
    var x, t := Stamped(s, e), Crashed(c, s, e, Cut(|c.render(Stamped(s, e))|));
    var u := Written(c, t, next);
    WholeTailRecovered(c, s, history, e);
    WholeTailSurfaces(c, t, x, next);
    RetainedSplit(c, u);
    LastTwoAlike(SourceRecords(c, Sources(u)[..|u.segments|]), FileRecords(c, t.disk.active, 0, t.gen),
                 Located(x, |t.disk.active| + 1, t.gen), Located(Stamped(t, next), |WrittenFile(c, t, next)|, t.gen));
  }

  lemma LastTwoAlike(xs: seq<Located>, ys: seq<Located>, a: Located, b: Located)
    requires a.event.seqNo == b.event.seqNo
    ensures !SeqsDistinct(xs + (ys + [a] + [b]))
    ensures a.event.key != "" && b.event.key == a.event.key ==> !KeysUnique(xs + (ys + [a] + [b]))
  {
    var rs := xs + (ys + [a] + [b]);
    assert rs[|rs| - 2] == a && rs[|rs| - 1] == b;
  }

  /** After a crash cuts an append at `k` bytes, recovery and one more append leave every seq with a
      single record exactly when the cut was not right before the newline. */
  lemma ReissuesSeqIffWholeTail(c: Codec, s: State, history: seq<Event>, e: Event, k: nat, next: Event)
    requires Sound(c) && Inv(c, s, history) && !Duplicate(s, e)
    requires !Duplicate(Recovered(c, CrashDisk(c, s, e, Cut(k))), next)
    ensures var t := Recovered(c, CrashDisk(c, s, e, Cut(k)));
            SeqsDistinct(Retained(c, Written(c, t, next))) <==> k != |c.render(Stamped(s, e))|
  {
    var x, t := Stamped(s, e), Recovered(c, CrashDisk(c, s, e, Cut(k)));
    if k != |c.render(x)| {
      CrashRecovers(c, s, history, e, Cut(k));
      var history' := if Survives(c, s, e, Cut(k)) then history + [x] else history;
      WrittenKeeps(c, t, history', next);
      ConsistentSeqsDistinct(c, Written(c, t, next), history' + [Stamped(t, next)]);
    } else {
      WholeTailRecovered(c, s, history, e);
      WholeTailReissued(c, s, history, e, next);
    }
  }

  /** The stream once an append is retried: as it is if the record is found, with the record written if not. */
  function Retried(c: Codec, s: State, e: Event): State {
    if Duplicate(s, e) then s else Written(c, s, e)
  }

  lemma RetriedKeysUnique(c: Codec, s: State, history: seq<Event>, e: Event)
    requires Sound(c) && Inv(c, s, history)
    ensures KeysUnique(Retained(c, Retried(c, s, e)))
  {
    if Duplicate(s, e) {
      RetainedKeysUnique(c, s, history);
    } else {
      WrittenKeeps(c, s, history, e);
      RetainedKeysUnique(c, Written(c, s, e), history + [Stamped(s, e)]);
    }
  }

  /** After a crash cuts the append of a keyed record at `k` bytes, recovery and a retry with the same key leave
      every key with a single record exactly when the cut was not right before the newline. */
  lemma RepeatsKeyIffWholeTail(c: Codec, s: State, history: seq<Event>, e: Event, k: nat, again: Event)
    requires Sound(c) && Inv(c, s, history) && !Duplicate(s, e)
    requires e.key != "" && again.key == e.key
    ensures var t := Recovered(c, CrashDisk(c, s, e, Cut(k)));
            KeysUnique(Retained(c, Retried(c, t, again))) <==> k != |c.render(Stamped(s, e))|
  {
    var x, t := Stamped(s, e), Recovered(c, CrashDisk(c, s, e, Cut(k)));
    if k != |c.render(x)| {
      CrashRecovers(c, s, history, e, Cut(k));
      var history' := if Survives(c, s, e, Cut(k)) then history + [x] else history;
      RetriedKeysUnique(c, t, history', again);
    } else {
      WholeTailRecovered(c, s, history, e);
      WholeTailReissued(c, s, history, e, again);
    }
  }

  // ---------------------------------------------------------------- crash inside a rotation

  /** On disk inside a rotation, before its sidecar is written: the active file renamed, and the first `n` files
      retired. */
  function RotatingDisk(s: State, n: nat): Disk
    requires n <= |s.segments| + 1
  {
    s.disk.(active := [], archived := s.disk.archived[s.gen := s.disk.active] - GensOf(Sources(s)[..n]))
  }

  function GensOf(srcs: seq<Source>): set<nat> {
    set src | src in srcs :: src.gen
  }

  /** A crash inside a rotation, between the rename and the sidecar and after `n` files have been retired, orphans
      the renamed file: recovery holds the records of the older files that are left and no other, while the seq
      counter is kept. It holds all that the rotation was to keep exactly when the renamed file held no record or
      was retired itself. */
  lemma {:induction false} RotationCrashOrphans(c: Codec, s: State, history: seq<Event>, n: nat)
    requires Inv(c, Saved(s), history) && n <= |s.segments| + 1
    ensures var t, kept := Recovered(c, RotatingDisk(Saved(s), n)), SourceRecords(c, Sources(s)[n..]);
            && t.seqNo == s.seqNo
            && kept == Retained(c, t) + (if n <= |s.segments| then FileRecords(c, s.disk.active, 0, s.gen) else [])
            && (Retained(c, t) == kept <==> n > |s.segments| || FileRecords(c, s.disk.active, 0, s.gen) == [])
  {
    assert Sources(Saved(s)) == Sources(s);
    RotatingRecovered(c, Saved(s), n);
    Orphaned(c, s, Recovered(c, RotatingDisk(Saved(s), n)), history, n);
  }

  /** Recovery takes the counters and the list of segments from the old sidecar. */
  lemma RotatingRecovered(c: Codec, s: State, n: nat)
    requires n <= |s.segments| + 1 && s.disk.sidecar == Saved(s).disk.sidecar
    ensures var t := Recovered(c, RotatingDisk(s, n));
            t.seqNo == s.seqNo && t.segments == s.segments && t.disk == RotatingDisk(s, n)
  {
    assert FileRecords(c, [], 0, s.gen) == [];
  }

  lemma {:induction false} Orphaned(c: Codec, s: State, t: State, history: seq<Event>, n: nat)
    requires Chained(c, Sources(s), history) && n <= |s.segments| + 1
    requires t.segments == s.segments && t.disk.archived == RotatingDisk(s, n).archived && t.disk.active == []
    ensures var kept := SourceRecords(c, Sources(s)[n..]);
            && kept == Retained(c, t) + (if n <= |s.segments| then FileRecords(c, s.disk.active, 0, s.gen) else [])
            && (Retained(c, t) == kept <==> n > |s.segments| || FileRecords(c, s.disk.active, 0, s.gen) == [])
  {
    LeftRetained(c, s, t, history, n);
    if n <= |s.segments| {
      LastApart(c, s, n);
    }
  }

  lemma {:induction false} LastApart(c: Codec, s: State, n: nat)
    requires n <= |s.segments|
    ensures SourceRecords(c, Sources(s)[n..])
         == SourceRecords(c, Sources(s)[n..|s.segments|]) + FileRecords(c, s.disk.active, 0, s.gen)
  {
    var srcs, last := Sources(s), [ActiveSource(s)];
    assert srcs[n..] == srcs[n..|s.segments|] + last;
    SourceRecordsConcat(c, srcs[n..|s.segments|], last);
    assert SourceRecords(c, last[1..]) == [];
  }

  /** What is found with the old sidecar: the records of the segments it lists that are left. */
  lemma {:induction false} LeftRetained(c: Codec, s: State, t: State, history: seq<Event>, n: nat)
    requires Chained(c, Sources(s), history) && n <= |s.segments| + 1
    requires t.segments == s.segments && t.disk.archived == RotatingDisk(s, n).archived && t.disk.active == []
    ensures Retained(c, t) == if n <= |s.segments| then SourceRecords(c, Sources(s)[n..|s.segments|]) else []
  {
    var k := |s.segments|;
    SegmentsLeft(c, s, t, history, n);
    RetainedSplit(c, t);
    assert FileRecords(c, [], 0, t.gen) == [];
    Emptied(c, Sources(s)[..k], Sources(t)[..k], if n <= k then n else k);
    assert Sources(s)[..k][k..] == [];
    assert n <= k ==> Sources(s)[..k][n..] == Sources(s)[n..k];
  }

  /** Files found empty in front of others. */
  lemma {:induction false} Emptied(c: Codec, srcs: seq<Source>, found: seq<Source>, n: nat)
    requires n <= |srcs| == |found|
    requires forall i | 0 <= i < |found| :: found[i] == if i < n then srcs[i].(bytes := []) else srcs[i]
    ensures SourceRecords(c, found) == SourceRecords(c, srcs[n..])
  {
    if n == 0 {
      assert found == srcs == srcs[0..];
    } else {
      assert FileRecords(c, [], 0, found[0].gen) == [];
      Emptied(c, srcs[1..], found[1..], n - 1);
      assert srcs[1..][n - 1..] == srcs[n..];
    }
  }

  /** Of the segments the old sidecar lists, the retired ones are found empty and the others as they were. */
  lemma SegmentsLeft(c: Codec, s: State, t: State, history: seq<Event>, n: nat)
    requires Chained(c, Sources(s), history) && n <= |s.segments| + 1
    requires t.segments == s.segments && t.disk.archived == RotatingDisk(s, n).archived
    ensures forall i | 0 <= i < |s.segments| :: Sources(t)[i] == if i < n then Sources(s)[i].(bytes := []) else Sources(s)[i]
  {
    var srcs := Sources(s);
    forall i | 0 <= i < |s.segments|
      ensures ArchivedSource(t, i) == if i < n then srcs[i].(bytes := []) else srcs[i]
    {
      assert srcs[i].gen < srcs[|s.segments|].gen;
      if i < n {
        assert srcs[..n][i] == srcs[i];
      } else {
        forall src | src in srcs[..n]
          ensures src.gen != srcs[i].gen
        {
          var j :| 0 <= j < n && srcs[..n][j] == src;
          assert srcs[j].gen < srcs[i].gen;
        }
      }
    }
  }
}
