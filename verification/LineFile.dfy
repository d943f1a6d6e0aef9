// Newline-terminated lines of a byte file, and the buffered reader
// `_iter_complete_lines` of src/ws_collab/jsonl_store.py.
module LineFile {

  type Byte = b: int | 0 <= b < 256
  type Bytes = seq<Byte>

  const NEWLINE: Byte := 10
  const CHUNK_BYTES: nat := 65536

  /** The bytes that Python's bytes.strip() removes. */
  predicate IsSpace(b: Byte) {
    b == 32 || 9 <= b <= 13
  }

  predicate Blank(text: Bytes) {
    forall b | b in text :: IsSpace(b)
  }

  /** A complete line: its text without the newline, and the offsets of its first byte and past its newline. */
  datatype Line = Line(start: nat, end: nat, text: Bytes)

  /** The nonblank complete lines found from `pos` on, when the current line began at `lineStart`. */
  function LinesFrom(file: Bytes, lineStart: nat, pos: nat): seq<Line>
    requires lineStart <= pos <= |file|
    decreases |file| - pos
  {
    if pos == |file| then []
    else if file[pos] != NEWLINE then LinesFrom(file, lineStart, pos + 1)
    else LineAt(file, lineStart, pos) + LinesFrom(file, pos + 1, pos + 1)
  }

  /** The line file[start..newline], unless it is blank. */
  function LineAt(file: Bytes, start: nat, newline: nat): seq<Line>
    requires start <= newline <= |file|
  {
    if Blank(file[start..newline]) then [] else [Line(start, newline + 1, file[start..newline])]
  }

  predicate NoNewline(file: Bytes, from: nat, to: nat)
    requires to <= |file|
  {
    forall i | from <= i < to :: file[i] != NEWLINE
  }

  function CompleteLines(file: Bytes, start: nat): seq<Line> {
    if start > |file| then [] else LinesFrom(file, start, start)
  }

  /** What it is to be a complete nonblank line of `file` at or after `start`. */
  predicate IsLine(file: Bytes, start: nat, line: Line) {
    && start <= line.start < line.end <= |file|
    && (line.start == start || file[line.start - 1] == NEWLINE)
    && file[line.end - 1] == NEWLINE
    && line.text == file[line.start..line.end - 1]
    && NoNewline(file, line.start, line.end - 1)
    && !Blank(line.text)
  }

  /** The scan yields exactly the complete nonblank lines, in file order. */
  lemma CompleteLinesExact(file: Bytes, start: nat)
    ensures forall line :: line in CompleteLines(file, start) <==> IsLine(file, start, line)
    ensures forall i, j | 0 <= i < j < |CompleteLines(file, start)| ::
              CompleteLines(file, start)[i].end <= CompleteLines(file, start)[j].start
  {
    if start <= |file| {
      LinesFromExact(file, start, start, start);
    }
  }

  lemma {:induction false} LinesFromExact(file: Bytes, start: nat, lineStart: nat, pos: nat)
    requires start <= lineStart <= pos <= |file|
    requires lineStart == start || file[lineStart - 1] == NEWLINE
    requires NoNewline(file, lineStart, pos)
    ensures forall line :: line in LinesFrom(file, lineStart, pos)
                      <==> IsLine(file, start, line) && lineStart <= line.start
    ensures forall i, j | 0 <= i < j < |LinesFrom(file, lineStart, pos)| ::
              LinesFrom(file, lineStart, pos)[i].end <= LinesFrom(file, lineStart, pos)[j].start
    decreases |file| - pos
  {
    if pos == |file| {
    } else if file[pos] != NEWLINE {
      LinesFromExact(file, start, lineStart, pos + 1);
    } else {
      LinesFromExact(file, start, pos + 1, pos + 1);
      FirstOrLater(file, start, lineStart, pos);
      FirstLine(file, start, lineStart, pos);
    }
  }

  /** A line that begins no earlier ends at this newline or begins after it. */
  lemma FirstOrLater(file: Bytes, start: nat, lineStart: nat, pos: nat)
    requires start <= lineStart <= pos < |file| && file[pos] == NEWLINE && NoNewline(file, lineStart, pos)
    ensures forall line | IsLine(file, start, line) && lineStart <= line.start ::
              (line.start == lineStart && line.end == pos + 1) || pos + 1 <= line.start
  {
  }

  /** The line that ends at this newline is listed unless it is blank. */
  lemma FirstLine(file: Bytes, start: nat, lineStart: nat, pos: nat)
    requires start <= lineStart <= pos < |file| && file[pos] == NEWLINE && NoNewline(file, lineStart, pos)
    requires lineStart == start || file[lineStart - 1] == NEWLINE
    ensures forall line :: line in LineAt(file, lineStart, pos)
                      <==> IsLine(file, start, line) && line.start == lineStart && line.end == pos + 1
  {
  }

  /** The offset where the line containing offset `off` begins. */
  function LineStart(file: Bytes, off: nat): (start: nat)
    requires off <= |file|
    ensures start <= off
    ensures start == 0 || file[start - 1] == NEWLINE
    ensures NoNewline(file, start, off)
  {
    if off == 0 || file[off - 1] == NEWLINE then off else LineStart(file, off - 1)
  }

  predicate AtLineStart(file: Bytes, off: nat) {
    off <= |file| && (off == 0 || file[off - 1] == NEWLINE)
  }

  /** Scanning a file is scanning the part before a line boundary, then the part after it. */
  lemma {:induction false} LinesSplit(file: Bytes, lineStart: nat, pos: nat, cut: nat)
    requires lineStart <= pos <= cut <= |file| && AtLineStart(file, cut)
    requires NoNewline(file, lineStart, pos)
    ensures LinesFrom(file, lineStart, pos) == LinesFrom(file[..cut], lineStart, pos) + LinesFrom(file, cut, cut)
    decreases cut - pos
  {
    if pos == cut {
    } else if file[pos] != NEWLINE {
      LinesSplit(file, lineStart, pos + 1, cut);
    } else {
      LinesSplit(file, pos + 1, pos + 1, cut);
      assert file[..cut][lineStart..pos] == file[lineStart..pos];
    }
  }

  /** A stretch without a newline yields no line. */
  lemma {:induction false} LinesSkip(file: Bytes, lineStart: nat, pos: nat, to: nat)
    requires lineStart <= pos <= to <= |file|
    requires NoNewline(file, pos, to)
    ensures LinesFrom(file, lineStart, pos) == LinesFrom(file, lineStart, to)
    decreases |file| - pos
  {
    if pos < to {
      LinesSkip(file, lineStart, pos + 1, to);
    }
  }

  /** Appending one newline-terminated text to a file that ends at a line boundary adds that one line. */
  lemma LinesAppend(file: Bytes, text: Bytes)
    requires AtLineStart(file, |file|) && NoNewline(text, 0, |text|)
    ensures CompleteLines(file + text + [NEWLINE], 0)
         == CompleteLines(file, 0) + LineAt(file + text + [NEWLINE], |file|, |file| + |text|)
  {
    var whole := file + text + [NEWLINE];
    LinesSplit(whole, 0, 0, |file|);
    assert whole[..|file|] == file;
    assert whole[|file|..|file| + |text|] == text;
    LinesSkip(whole, |file|, |file|, |file| + |text|);
    assert LinesFrom(whole, |whole|, |whole|) == [];
  }

  /** An unterminated tail yields nothing. */
  lemma LinesIgnoreTail(file: Bytes, tail: Bytes)
    requires AtLineStart(file, |file|) && NoNewline(tail, 0, |tail|)
    ensures CompleteLines(file + tail, 0) == CompleteLines(file, 0)
  {
    var whole := file + tail;
    LinesSplit(whole, 0, 0, |file|);
    assert whole[..|file|] == file;
    assert whole[|file|..|whole|] == tail;
    LinesSkip(whole, |file|, |file|, |whole|);
  }

  /** The offset of the first newline in `buffer`, as bytes.find does. */
  method Find(buffer: Bytes) returns (at: int)
    ensures at == -1 ==> NoNewline(buffer, 0, |buffer|)
    ensures at != -1 ==> 0 <= at < |buffer| && buffer[at] == NEWLINE && NoNewline(buffer, 0, at)
  {
    for i := 0 to |buffer|
      invariant NoNewline(buffer, 0, i)
    {
      if buffer[i] == NEWLINE {
        return i;
      }
    }
    return -1;
  }

  /** The line up to the next newline comes first, then those after it. */
  lemma {:induction false} LinesNext(file: Bytes, offset: nat, newline: nat)
    requires offset <= newline < |file| && file[newline] == NEWLINE
    requires NoNewline(file, offset, newline)
    ensures LinesFrom(file, offset, offset) == LineAt(file, offset, newline) + LinesFrom(file, newline + 1, newline + 1)
  {
    LinesSkip(file, offset, offset, newline);
  }

  /** The chunked reader: whatever the chunk size, the lines of a plain split with their offsets. */
  method IterCompleteLines(file: Bytes, start: nat, chunkBytes: nat) returns (lines: seq<Line>)
    requires 0 < chunkBytes
    ensures lines == CompleteLines(file, start)
  {
    lines := [];
    if start > |file| {
      return;
    }
    var buffer: Bytes, offset, position := [], start, start;
    while position < |file|
      invariant start <= offset <= position <= |file|
      invariant buffer == file[offset..position]
      invariant NoNewline(file, offset, position)
      invariant lines + LinesFrom(file, offset, offset) == CompleteLines(file, start)
    {
      var size := if position + chunkBytes <= |file| then chunkBytes else |file| - position;
      buffer := buffer + file[position..position + size];
      position := position + size;
      var found, rest, next := TakeLines(file, buffer, offset, position);
      lines, buffer, offset := lines + found, rest, next;
    }
    LinesSkip(file, offset, offset, |file|);
  }

  /** The inner loop: moves every complete line out of the buffer. */
  method TakeLines(file: Bytes, pending: Bytes, from: nat, position: nat)
    returns (lines: seq<Line>, buffer: Bytes, offset: nat)
    requires from <= position <= |file| && pending == file[from..position]
    ensures from <= offset <= position && buffer == file[offset..position]
    ensures NoNewline(file, offset, position)
    ensures lines + LinesFrom(file, offset, offset) == LinesFrom(file, from, from)
  {
    lines, buffer, offset := [], pending, from;
    while true
      invariant from <= offset <= position && buffer == file[offset..position]
      invariant lines + LinesFrom(file, offset, offset) == LinesFrom(file, from, from)
      decreases |buffer|
    {
      var newline := Find(buffer);
      if newline == -1 {
        assert forall i | offset <= i < position :: file[i] == buffer[i - offset];
        return;
      }
      var line, lineStart := buffer[..newline], offset;
      assert forall i | offset <= i <= offset + newline :: file[i] == buffer[i - offset];
      assert line == file[offset..offset + newline];
      LinesNext(file, offset, offset + newline);
      offset, buffer := offset + newline + 1, buffer[newline + 1..];
      if !Blank(line) {
        lines := lines + [Line(lineStart, offset, line)];
      }
    }
  }
}
