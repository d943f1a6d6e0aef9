// The durable state of one stream (`_StreamState` of src/ws_collab/jsonl_store.py):
// what is on disk, what is kept in memory, and the invariant that ties both to the
// history of every record ever written.
module EventLog {
  import opened Sequences
  import opened LineFile

  /** One record. `body` stands for every field but the three the log itself reads; an empty key is no key. */
  datatype Event = Event(seqNo: nat, id: string, key: string, body: string)

  /** The JSON codec: how a line parses, and the text a record is written as. */
  datatype Codec = Codec(parse: Bytes -> Option<Event>, render: Event -> Bytes)

  /** What the log needs of JSON: a record reads back as itself, is one nonblank line, and no
      proper prefix of it is a record. */
  ghost predicate Sound(c: Codec) {
    && (forall e: Event :: c.parse(c.render(e)) == Some(e))
    && (forall e: Event :: NoNewline(c.render(e), 0, |c.render(e)|) && !Blank(c.render(e)))
    && (forall e: Event, k: nat | k < |c.render(e)| :: c.parse(c.render(e)[..k]) == None)
  }

  datatype Config = Config(name: string, rotateMaxBytes: nat, retentionMaxFiles: nat)

  datatype Segment = Segment(gen: nat, startSeq: nat, endSeq: nat)

  /** The sidecar state file. */
  datatype Sidecar = Sidecar(gen: nat, seqNo: nat, activeStart: nat, segments: seq<Segment>)

  /** The files of a stream; an absent active file is an empty one. */
  datatype Disk = Disk(active: Bytes, archived: map<nat, Bytes>, sidecar: Option<Sidecar>)

  /** An entry of the idempotency map. */
  datatype Entry = Entry(id: string, seqNo: nat, end: nat, gen: nat)

  datatype State = State(
    seqNo: nat,
    gen: nat,
    activeStart: nat,
    segments: seq<Segment>,
    index: map<string, Entry>,
    disk: Disk)

  // ---------------------------------------------------------------- records of files

  /** A record together with the file it is in and the offset past its line. */
  datatype Located = Located(event: Event, end: nat, gen: nat)

  /** The records among some lines; malformed lines are skipped. */
  function Records(c: Codec, lines: seq<Line>, gen: nat): seq<Located> {
    if lines == [] then []
    else match c.parse(lines[0].text)
      case None => Records(c, lines[1..], gen)
      case Some(e) => [Located(e, lines[0].end, gen)] + Records(c, lines[1..], gen)
  }

  function FileRecords(c: Codec, file: Bytes, from: nat, gen: nat): seq<Located> {
    Records(c, CompleteLines(file, from), gen)
  }

  function Events(rs: seq<Located>): (es: seq<Event>)
    ensures |es| == |rs|
  {
    seq(|rs|, i requires 0 <= i < |rs| => rs[i].event)
  }

  lemma {:induction false} RecordsConcat(c: Codec, xs: seq<Line>, ys: seq<Line>, gen: nat)
    ensures Records(c, xs + ys, gen) == Records(c, xs, gen) + Records(c, ys, gen)
  {
    if xs == [] {
      assert xs + ys == ys;
    } else {
      var all, rest := xs + ys, xs[1..];
      assert all[0] == xs[0] && all[1..] == rest + ys;
      RecordsConcat(c, rest, ys, gen);
      match c.parse(xs[0].text)
      case None =>
      case Some(e) => Associates([Located(e, xs[0].end, gen)], Records(c, rest, gen), Records(c, ys, gen));
    }
  }

  lemma {:induction false} RecordsOf(c: Codec, lines: seq<Line>, gen: nat)
    ensures forall r | r in Records(c, lines, gen) ::
              r.gen == gen && exists line :: line in lines && line.end == r.end && c.parse(line.text) == Some(r.event)
  {
    if lines != [] {
      RecordsOf(c, lines[1..], gen);
      assert lines[0] in lines;
    }
  }

  /** Every record found lies in the scanned part of the file. */
  lemma FileRecordsLie(c: Codec, file: Bytes, from: nat, gen: nat)
    ensures forall r | r in FileRecords(c, file, from, gen) :: r.gen == gen && from < r.end <= |file|
    ensures forall r | r in FileRecords(c, file, from, gen) :: AtLineStart(file, r.end)
  {
    RecordsOf(c, CompleteLines(file, from), gen);
    CompleteLinesExact(file, from);
  }

  lemma FileRecordsSplit(c: Codec, file: Bytes, cut: nat, gen: nat)
    requires AtLineStart(file, cut)
    ensures FileRecords(c, file, 0, gen) == FileRecords(c, file[..cut], 0, gen) + FileRecords(c, file, cut, gen)
  {
    LinesSplit(file, 0, 0, cut);
    RecordsConcat(c, CompleteLines(file[..cut], 0), CompleteLines(file, cut), gen);
  }

  /** Terminates an unterminated last line (`_repair_torn_final_line`). */
  function Repaired(file: Bytes): Bytes {
    if file == [] || file[|file| - 1] == NEWLINE then file else file + [NEWLINE]
  }

  /** The unterminated last line of a file. */
  function Tail(file: Bytes): Bytes {
    file[LineStart(file, |file|)..]
  }

  /** The unterminated last line, if there is one, is not a whole record. */
  predicate TailTorn(c: Codec, file: Bytes) {
    Tail(file) == [] || c.parse(Tail(file)) == None
  }

  /** Terminating the last line adds the record it holds, if it holds one. */
  lemma RepairAdds(c: Codec, file: Bytes, gen: nat)
    ensures AtLineStart(Repaired(file), |Repaired(file)|)
    ensures FileRecords(c, Repaired(file), 0, gen) == FileRecords(c, file, 0, gen) +
              (if Blank(Tail(file)) || c.parse(Tail(file)) == None then []
               else [Located(c.parse(Tail(file)).value, |file| + 1, gen)])
  {
    var start := LineStart(file, |file|);
    var head, tail := file[..start], file[start..];
    if tail == [] {
      assert file == [] || file[|file| - 1] == NEWLINE;
    } else {
      assert file == head + tail;
      assert file[|file| - 1] != NEWLINE;
      LineAdds(c, head, tail, gen);
      LinesIgnoreTail(head, tail);
    }
  }

  lemma {:induction false} OneRecord(c: Codec, line: Line, gen: nat)
    ensures Records(c, [line], gen) ==
            if c.parse(line.text) == None then [] else [Located(c.parse(line.text).value, line.end, gen)]
  {
    assert [line][1..] == [];
  }

  /** A terminated line after whole lines adds the record it holds, if it holds one. */
  lemma LineAdds(c: Codec, head: Bytes, text: Bytes, gen: nat)
    requires AtLineStart(head, |head|) && NoNewline(text, 0, |text|)
    ensures var whole := head + text + [NEWLINE];
            FileRecords(c, whole, 0, gen) == FileRecords(c, head, 0, gen) +
              (if Blank(text) || c.parse(text) == None then []
               else [Located(c.parse(text).value, |whole|, gen)])
  {
    var whole := head + text + [NEWLINE];
    LinesAppend(head, text);
    assert whole[|head|..|head| + |text|] == text;
    RecordsConcat(c, CompleteLines(head, 0), LineAt(whole, |head|, |head| + |text|), gen);
    if !Blank(text) {
      OneRecord(c, LineAt(whole, |head|, |head| + |text|)[0], gen);
    }
  }

  /** A written record is the file's new last record. */
  lemma WriteAdds(c: Codec, file: Bytes, e: Event, gen: nat)
    requires Sound(c) && AtLineStart(file, |file|)
    ensures var whole := file + c.render(e) + [NEWLINE];
            FileRecords(c, whole, 0, gen) == FileRecords(c, file, 0, gen) + [Located(e, |whole|, gen)]
  {
    LineAdds(c, file, c.render(e), gen);
  }

  /** A partly written record is no record yet. */
  lemma PartialWriteAddsNothing(c: Codec, file: Bytes, e: Event, k: nat, gen: nat)
    requires Sound(c) && AtLineStart(file, |file|) && k <= |c.render(e)|
    ensures FileRecords(c, file + c.render(e)[..k], 0, gen) == FileRecords(c, file, 0, gen)
    ensures Tail(file + c.render(e)[..k]) == c.render(e)[..k]
  {
    var whole := file + c.render(e)[..k];
    LinesIgnoreTail(file, c.render(e)[..k]);
    LineStartIs(whole, |file|);
  }

  lemma {:induction false} LineStartIs(file: Bytes, start: nat)
    requires AtLineStart(file, start) && NoNewline(file, start, |file|)
    ensures LineStart(file, |file|) == start
  {
  }

  // ---------------------------------------------------------------- retained records

  /** A file of the stream with the seqs the log believes it holds. */
  datatype Source = Source(gen: nat, startSeq: nat, endSeq: nat, bytes: Bytes)

  /** The archived segments, oldest first, then the active file (`_ordered_sources`). */
  function Sources(s: State): (srcs: seq<Source>)
    ensures |srcs| == |s.segments| + 1
  {
    seq(|s.segments|, i requires 0 <= i < |s.segments| => ArchivedSource(s, i)) + [ActiveSource(s)]
  }

  function ArchivedSource(s: State, i: nat): Source
    requires i < |s.segments|
  {
    var seg := s.segments[i];
    Source(seg.gen, seg.startSeq, seg.endSeq, if seg.gen in s.disk.archived then s.disk.archived[seg.gen] else [])
  }

  function ActiveSource(s: State): Source {
    Source(s.gen, s.activeStart, s.seqNo, s.disk.active)
  }

  function SourceRecords(c: Codec, srcs: seq<Source>): seq<Located> {
    if srcs == [] then []
    else FileRecords(c, srcs[0].bytes, 0, srcs[0].gen) + SourceRecords(c, srcs[1..])
  }

  /** Every record the stream still holds, oldest first. */
  function Retained(c: Codec, s: State): seq<Located> {
    SourceRecords(c, Sources(s))
  }

  lemma {:induction false} SourceRecordsConcat(c: Codec, xs: seq<Source>, ys: seq<Source>)
    ensures SourceRecords(c, xs + ys) == SourceRecords(c, xs) + SourceRecords(c, ys)
  {
    if xs == [] {
      assert xs + ys == ys;
    } else {
      var all, rest := xs + ys, xs[1..];
      assert all[0] == xs[0] && all[1..] == rest + ys;
      SourceRecordsConcat(c, rest, ys);
      Associates(FileRecords(c, xs[0].bytes, 0, xs[0].gen), SourceRecords(c, rest), SourceRecords(c, ys));
    }
  }

  lemma {:induction false} SourceRecordsGens(c: Codec, srcs: seq<Source>)
    ensures forall r | r in SourceRecords(c, srcs) :: exists src :: src in srcs && src.gen == r.gen
  {
    if srcs != [] {
      FileRecordsLie(c, srcs[0].bytes, 0, srcs[0].gen);
      SourceRecordsGens(c, srcs[1..]);
      assert srcs[0] in srcs;
    }
  }

  /** Retained records are those of the archived segments, then those of the active file. */
  lemma {:induction false} RetainedSplit(c: Codec, s: State)
    ensures Retained(c, s) == SourceRecords(c, Sources(s)[..|s.segments|])
                              + FileRecords(c, s.disk.active, 0, s.gen)
  {
    var srcs := Sources(s);
    assert srcs == srcs[..|s.segments|] + [ActiveSource(s)];
    SourceRecordsConcat(c, srcs[..|s.segments|], [ActiveSource(s)]);
    assert SourceRecords(c, [ActiveSource(s)][1..]) == [];
  }

  // ---------------------------------------------------------------- the invariant

  /** The history of a stream: its n-th record carries seq n. */
  ghost predicate Numbered(history: seq<Event>) {
    forall i | 0 <= i < |history| :: history[i].seqNo == i + 1
  }

  /** A file holds exactly the stretch of history its bounds claim. */
  ghost predicate Holds(c: Codec, src: Source, history: seq<Event>) {
    && 1 <= src.startSeq <= src.endSeq + 1 <= |history| + 1
    && Events(FileRecords(c, src.bytes, 0, src.gen)) == history[src.startSeq - 1..src.endSeq]
  }

  /** The files follow each other in generation and seq, and end with the history. */
  ghost predicate Chained(c: Codec, srcs: seq<Source>, history: seq<Event>) {
    && srcs != []
    && (forall src | src in srcs :: Holds(c, src, history))
    && (forall i, j | 0 <= i < j < |srcs| :: srcs[i].gen < srcs[j].gen)
    && (forall i | 0 < i < |srcs| :: srcs[i - 1].endSeq + 1 == srcs[i].startSeq)
    && srcs[|srcs| - 1].endSeq == |history|
  }

  function EntryOf(r: Located): Entry {
    Entry(r.event.id, r.event.seqNo, r.end, r.gen)
  }

  /** The idempotency map holds the key of every listed record, with its position, and nothing else. */
  ghost predicate Indexes(index: map<string, Entry>, rs: seq<Located>) {
    && (forall r | r in rs && r.event.key != "" :: r.event.key in index && index[r.event.key] == EntryOf(r))
    && (forall key | key in index :: key != "" && exists r :: r in rs && r.event.key == key)
  }

  predicate SidecarAgrees(s: State) {
    match s.disk.sidecar
    case None => s.gen == 0 && s.segments == [] && s.activeStart == 1
    case Some(sc) =>
      && sc.gen == s.gen && sc.activeStart == s.activeStart && sc.segments == s.segments
      && sc.activeStart <= sc.seqNo + 1 <= s.seqNo + 1
  }

  /** Memory and data files agree with the history. */
  ghost predicate Consistent(c: Codec, s: State, history: seq<Event>) {
    && Numbered(history)
    && s.seqNo == |history|
    && Chained(c, Sources(s), history)
    && TailTorn(c, s.disk.active)
    && Indexes(s.index, Retained(c, s))
  }

  /** What holds between any two calls. */
  ghost predicate Inv(c: Codec, s: State, history: seq<Event>) {
    Consistent(c, s, history) && SidecarAgrees(s)
  }

  /** The first seq the stream still holds. */
  function FirstSeq(s: State): nat {
    if s.segments == [] then s.activeStart else s.segments[0].startSeq
  }

  /** The retained records are the unbroken end of the history. */
  lemma RetainedIsSuffix(c: Codec, s: State, history: seq<Event>)
    requires Consistent(c, s, history)
    ensures 1 <= FirstSeq(s) <= |history| + 1
    ensures Events(Retained(c, s)) == history[FirstSeq(s) - 1..]
  {
    assert Sources(s)[0] in Sources(s);
    ChainedIsSuffix(c, Sources(s), history);
  }

  lemma {:induction false} ChainedIsSuffix(c: Codec, srcs: seq<Source>, history: seq<Event>)
    requires Chained(c, srcs, history)
    ensures 1 <= srcs[0].startSeq <= |history| + 1
    ensures Events(SourceRecords(c, srcs)) == history[srcs[0].startSeq - 1..]
  {
    var src := srcs[0];
    var first := FileRecords(c, src.bytes, 0, src.gen);
    assert Holds(c, src, history);
    if |srcs| == 1 {
      assert SourceRecords(c, srcs[1..]) == [];
      assert SourceRecords(c, srcs) == first;
    } else {
      var rest := srcs[1..];
      assert forall i | 0 < i < |rest| :: rest[i - 1] == srcs[i] && rest[i] == srcs[i + 1];
      ChainedIsSuffix(c, rest, history);
      assert Events(first + SourceRecords(c, rest)) == Events(first) + Events(SourceRecords(c, rest));
      assert history[src.startSeq - 1..] == history[src.startSeq - 1..src.endSeq] + history[src.endSeq..];
    }
  }

  /** The seq of each retained record is its position. */
  lemma RetainedSeqs(c: Codec, s: State, history: seq<Event>)
    requires Consistent(c, s, history)
    ensures 1 <= FirstSeq(s) && FirstSeq(s) + |Retained(c, s)| == |history| + 1
    ensures forall i | 0 <= i < |Retained(c, s)| ::
              Retained(c, s)[i].event == history[FirstSeq(s) - 1 + i] && Retained(c, s)[i].event.seqNo == FirstSeq(s) + i
  {
    RetainedIsSuffix(c, s, history);
    var rs := Retained(c, s);
    forall i | 0 <= i < |rs|
      ensures rs[i].event == history[FirstSeq(s) - 1 + i]
    {
      assert Events(rs)[i] == rs[i].event;
    }
  }

  /** No idempotency key is held twice. */
  lemma RetainedKeysUnique(c: Codec, s: State, history: seq<Event>)
    requires Consistent(c, s, history)
    ensures forall i, j | 0 <= i < |Retained(c, s)| && 0 <= j < |Retained(c, s)| ::
              Retained(c, s)[i].event.key != "" && Retained(c, s)[i].event.key == Retained(c, s)[j].event.key ==> i == j
  {
    RetainedSeqs(c, s, history);
    var rs := Retained(c, s);
    forall i, j | 0 <= i < |rs| && 0 <= j < |rs| && rs[i].event.key != "" && rs[i].event.key == rs[j].event.key
      ensures i == j
    {
      assert rs[i] in rs && rs[j] in rs;
    }
  }

  /** The map that a scan of the given records builds (`_rebuild_idempotency_window`): later records win. */
  function IndexOf(rs: seq<Located>): map<string, Entry> {
    if rs == [] then map[]
    else
      var last := rs[|rs| - 1];
      var index := IndexOf(rs[..|rs| - 1]);
      if last.event.key == "" then index else index[last.event.key := EntryOf(last)]
  }

  ghost predicate KeysUnique(rs: seq<Located>) {
    forall i, j | 0 <= i < j < |rs| :: rs[i].event.key != "" ==> rs[i].event.key != rs[j].event.key
  }

  /** A new record whose key is not among the earlier ones enters the map with its own position. */
  lemma IndexesPush(index: map<string, Entry>, rs: seq<Located>, last: Located)
    requires Indexes(index, rs)
    requires last.event.key != "" ==> forall r | r in rs :: r.event.key != last.event.key
    ensures Indexes(if last.event.key == "" then index else index[last.event.key := EntryOf(last)], rs + [last])
  {
    var all := rs + [last];
    assert forall r :: r in all <==> r in rs || r == last;
  }

  lemma {:induction false} IndexOfIndexes(rs: seq<Located>)
    requires KeysUnique(rs)
    ensures Indexes(IndexOf(rs), rs)
  {
    if rs != [] {
      var front, last := rs[..|rs| - 1], rs[|rs| - 1];
      assert KeysUnique(front);
      IndexOfIndexes(front);
      if last.event.key != "" {
        forall r | r in front
          ensures r.event.key != last.event.key
        {
          var i :| 0 <= i < |front| && front[i] == r;
          assert rs[i] == r;
        }
      }
      IndexesPush(IndexOf(front), front, last);
      assert rs == front + [last];
    }
  }

  lemma IndexesUnique(a: map<string, Entry>, b: map<string, Entry>, rs: seq<Located>)
    requires Indexes(a, rs) && Indexes(b, rs)
    ensures a == b
  {
    forall key | key in a
      ensures key in b && a[key] == b[key]
    {
      var r :| r in rs && r.event.key == key;
    }
    forall key | key in b
      ensures key in a
    {
      var r :| r in rs && r.event.key == key;
    }
  }

  /** The map kept incrementally is the one a scan of the retained files builds. */
  lemma IndexAgreesWithFiles(c: Codec, s: State, history: seq<Event>)
    requires Consistent(c, s, history)
    ensures s.index == IndexOf(Retained(c, s))
  {
    RetainedKeysUnique(c, s, history);
    IndexOfIndexes(Retained(c, s));
    IndexesUnique(s.index, IndexOf(Retained(c, s)), Retained(c, s));
  }
}
