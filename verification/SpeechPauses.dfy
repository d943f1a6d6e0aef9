// Carrying silences over from one revision of an utterance to the next
// (src/ws_collab/captioner.py, `_silence_position` and `_preserve_speech_metadata`).
module SpeechPauses {
  import opened Sequences
  import opened Publication

  const MAX_PAUSES: nat := 128

  /** What the Unicode library says: white space, and the letters and digits that a character on its own, and a text as
      a whole, become under compatibility normalisation and lower-casing. */
  datatype Unicode = Unicode(space: char -> bool, folded: char -> string, foldedText: string -> string)

  /** A text folded character by character, and for each folded letter the offset past the character it comes from. */
  function Folded(u: Unicode, text: string): string {
    if text == "" then "" else Folded(u, text[..|text| - 1]) + u.folded(text[|text| - 1])
  }

  function FoldedEnds(u: Unicode, text: string): (ends: seq<nat>)
    ensures |ends| == |Folded(u, text)|
    ensures forall i | 0 <= i < |ends| :: ends[i] <= |text|
  {
    if text == "" then []
    else FoldedEnds(u, text[..|text| - 1]) + seq(|u.folded(text[|text| - 1])|, i => |text|)
  }

  /** The offsets past the words of a text. */
  function WordEnds(u: Unicode, text: string): (ends: seq<nat>)
    ensures forall i | 0 <= i < |ends| :: ends[i] <= |text|
  {
    if text == "" then []
    else
      var front, last := text[..|text| - 1], text[|text| - 1];
      var ends := WordEnds(u, front);
      if u.space(last) then ends
      else if front == "" || u.space(front[|front| - 1]) then ends + [|text|]
      else if ends == [] then [|text|]
      else ends[..|ends| - 1] + [|text|]
  }

  /** Where a silence that came after `prefix` goes in a revised text. It is always inside the text. */
  function SilencePosition(u: Unicode, prefix: string, text: string): (at: nat)
    ensures at <= |text|
  {
    if prefix == "" then 0
    else if prefix <= text then |prefix|
    else
      var folded := u.foldedText(prefix);
      if folded != "" && folded <= Folded(u, text) then FoldedEnds(u, text)[|folded| - 1]
      else
        var ends, words := WordEnds(u, text), |WordEnds(u, prefix)|;
        if ends == [] || words == 0 then 0
        else ends[(if words <= |ends| then words else |ends|) - 1]
  }

  lemma {:induction false} FoldedPrefix(u: Unicode, text: string, n: nat)
    requires n <= |text|
    ensures Folded(u, text[..n]) <= Folded(u, text)
    decreases |text|
  {
    if n == |text| {
      assert text[..n] == text;
    } else {
      assert text[..|text| - 1][..n] == text[..n];
      FoldedPrefix(u, text[..|text| - 1], n);
    }
  }

  /** The offset kept for a folded letter is the first one past which the text has the letter. */
  lemma {:induction false} FoldedEndIs(u: Unicode, text: string, j: nat, n: nat)
    requires j < |Folded(u, text)| && n <= |text|
    ensures j < |Folded(u, text[..n])| <==> FoldedEnds(u, text)[j] <= n
    decreases |text|
  {
    var front := text[..|text| - 1];
    if n == |text| {
      assert text[..n] == text;
    } else {
      assert front[..n] == text[..n];
      FoldedPrefix(u, front, n);
      if j < |Folded(u, front)| {
        FoldedEndIs(u, front, j, n);
      }
    }
  }

  lemma {:induction false} LettersReached(u: Unicode, letters: string, text: string, n: nat)
    requires letters != "" && letters <= Folded(u, text) && n <= |text|
    ensures letters <= Folded(u, text[..n]) <==> FoldedEnds(u, text)[|letters| - 1] <= n
  {
    FoldedPrefix(u, text, n);
    FoldedEndIs(u, text, |letters| - 1, n);
  }

  lemma {:induction false} WordEndsAscend(u: Unicode, text: string, i: nat, k: nat)
    requires i < k < |WordEnds(u, text)|
    ensures WordEnds(u, text)[i] < WordEnds(u, text)[k]
    decreases |text|
  {
    var front := text[..|text| - 1];
    if k < |WordEnds(u, front)| {
      WordEndsAscend(u, front, i, k);
    }
  }

  /** Where the k-th word ends. */
  predicate EndsWord(u: Unicode, text: string, k: nat, n: nat) {
    && 0 < n <= |text|
    && !u.space(text[n - 1]) && (n < |text| ==> u.space(text[n]))
    && |WordEnds(u, text[..n])| == k + 1
  }

  lemma {:induction false} WordEndIs(u: Unicode, text: string, k: nat)
    requires k < |WordEnds(u, text)|
    ensures EndsWord(u, text, k, WordEnds(u, text)[k])
    decreases |text|
  {
    var front := text[..|text| - 1];
    var ends := WordEnds(u, front);
    if k < |ends| && ends[k] == WordEnds(u, text)[k] {
      WordEndIs(u, front, k);
      if k + 1 < |ends| {
        WordEndsAscend(u, front, k, k + 1);
      }
      StillEndsWord(u, text, k, ends[k]);
    } else {
      assert text[..|text|] == text;
    }
  }

  /** A word's end stays one when a character is added, unless that one continues the word. */
  lemma StillEndsWord(u: Unicode, text: string, k: nat, n: nat)
    requires text != "" && EndsWord(u, text[..|text| - 1], k, n)
    requires n == |text| - 1 ==> u.space(text[n])
    ensures EndsWord(u, text, k, n)
  {
    assert text[..|text| - 1][..n] == text[..n];
  }

  predicate PastWord(u: Unicode, text: string, n: nat) {
    0 < n <= |text| && !u.space(text[n - 1]) && (n < |text| ==> u.space(text[n]))
  }

  /** The ends are all the offsets past a character other than white space at which the text ends or has white space,
      each of them once. */
  lemma {:induction false} WordEndsAre(u: Unicode, text: string, n: nat)
    ensures n in WordEnds(u, text) <==> PastWord(u, text, n)
    ensures forall i, k | 0 <= i < k < |WordEnds(u, text)| :: WordEnds(u, text)[i] < WordEnds(u, text)[k]
  {
    forall i, k | 0 <= i < k < |WordEnds(u, text)|
      ensures WordEnds(u, text)[i] < WordEnds(u, text)[k]
    {
      WordEndsAscend(u, text, i, k);
    }
    if text != "" {
      var front := text[..|text| - 1];
      var ends := WordEnds(u, front);
      WordEndsAre(u, front, n);
      WordEndsAre(u, front, |front|);
      if PastWord(u, front, |front|) {
        LastIsGreatest(ends, |front|, n);
      }
    }
  }

  lemma LastIsGreatest(ends: seq<nat>, last: nat, n: nat)
    requires last in ends && forall i, k | 0 <= i < k < |ends| :: ends[i] < ends[k]
    requires forall i | 0 <= i < |ends| :: ends[i] <= last
    ensures n in ends[..|ends| - 1] <==> n in ends && n != last
  {
    var k :| 0 <= k < |ends| && ends[k] == last;
    var greatest := ends[|ends| - 1];
    assert greatest <= last;
    assert k == |ends| - 1;
  }

  predicate ByLetters(u: Unicode, prefix: string, text: string) {
    u.foldedText(prefix) != "" && u.foldedText(prefix) <= Folded(u, text)
  }

  /** The first place by which the text has the letters and digits of the prefix. */
  ghost predicate AfterLetters(u: Unicode, prefix: string, text: string, at: nat) {
    forall n | 0 <= n <= |text| :: u.foldedText(prefix) <= Folded(u, text[..n]) <==> at <= n
  }

  /** The end of as many words as the prefix has, or of all there are. */
  predicate AfterWords(u: Unicode, prefix: string, text: string, at: nat) {
    var words, all := |WordEnds(u, prefix)|, |WordEnds(u, text)|;
    if words == 0 || all == 0 then at == 0 else EndsWord(u, text, (if words <= all then words else all) - 1, at)
  }

  lemma {:induction false} LettersAre(u: Unicode, prefix: string, text: string)
    requires ByLetters(u, prefix, text)
    ensures AfterLetters(u, prefix, text, FoldedEnds(u, text)[|u.foldedText(prefix)| - 1])
  {
    forall n | 0 <= n <= |text|
      ensures u.foldedText(prefix) <= Folded(u, text[..n]) <==> FoldedEnds(u, text)[|u.foldedText(prefix)| - 1] <= n
    {
      LettersReached(u, u.foldedText(prefix), text, n);
    }
  }

  lemma {:induction false} WordsAre(u: Unicode, prefix: string, text: string, words: nat)
    requires 0 < words <= |WordEnds(u, text)|
    ensures EndsWord(u, text, words - 1, WordEnds(u, text)[words - 1])
  {
    WordEndIs(u, text, words - 1);
  }

  /** Where a silence goes: right after the prefix if the revised text begins with it; or else by the letters and
      digits of the prefix if the text begins with them; or else by words. */
  lemma SilencePositionIs(u: Unicode, prefix: string, text: string)
    ensures prefix <= text ==> SilencePosition(u, prefix, text) == |prefix|
    ensures !(prefix <= text) && ByLetters(u, prefix, text) ==>
              AfterLetters(u, prefix, text, SilencePosition(u, prefix, text))
    ensures !(prefix <= text) && !ByLetters(u, prefix, text) ==>
              AfterWords(u, prefix, text, SilencePosition(u, prefix, text))
  {
    var words, all := |WordEnds(u, prefix)|, |WordEnds(u, text)|;
    if ByLetters(u, prefix, text) {
      LettersAre(u, prefix, text);
    } else if words > 0 && all > 0 {
      WordsAre(u, prefix, text, if words <= all then words else all);
    }
  }

  function TextBefore(text: string, n: nat): string {
    if n <= |text| then text[..n] else text
  }

  /** The earlier silence that is the same as `pause`, the last of them if there are several. */
  function Same(pauses: seq<Pause>, pause: Pause): Option<Pause> {
    if pauses == [] then None
    else if pauses[|pauses| - 1].id == pause.id then Some(pauses[|pauses| - 1])
    else Same(pauses[..|pauses| - 1], pause)
  }

  /** A silence moved to where the revised text has it. */
  function Moved(u: Unicode, pause: Pause, at: nat, earlier: string, text: string): Pause {
    pause.(afterChar := SilencePosition(u, TextBefore(earlier, at), text), alignment := ApproximatePosition)
  }

  /** A silence sent again with the revision. */
  function Resent(u: Unicode, prior: seq<Pause>, earlier: string, text: string, pause: Pause): Pause {
    match Same(prior, pause)
    case Some(old_) =>
      if earlier != text && old_.alignment != BetweenUtterances then Moved(u, pause, old_.afterChar, earlier, text)
      else pause
    case None => pause
  }

  /** An earlier silence that the revision does not repeat. One between utterances is not moved. */
  function CarriedOver(u: Unicode, earlier: string, text: string, pause: Pause): Pause {
    if pause.alignment == BetweenUtterances then pause
    else Moved(u, pause, pause.afterChar, earlier, text)
  }

  function Dropped(prior: seq<Pause>, incoming: seq<Pause>): seq<Pause> {
    Filter((pause: Pause) => Same(incoming, pause) == None, prior)
  }

  /** The silences of the revised item: those carried over, then those sent. None if there are too many. */
  function Preserved(u: Unicode, prior: seq<Pause>, earlier: string, item: Item): Option<seq<Pause>> {
    var kept := Dropped(prior, item.pauses);
    if |kept| + |item.pauses| > MAX_PAUSES then None
    else Some(
      seq(|kept|, i requires 0 <= i < |kept| => CarriedOver(u, earlier, item.text, kept[i]))
      + seq(|item.pauses|, i requires 0 <= i < |item.pauses| => Resent(u, prior, earlier, item.text, item.pauses[i])))
  }

  /** What validation asks of the silences of an item. */
  predicate PausesValid(text: string, pauses: seq<Pause>) {
    |pauses| <= MAX_PAUSES && forall p | p in pauses :: p.afterChar <= |text|
  }

  /** The merged item would pass validation again exactly when every silence carried over from between
      utterances still lies within the revised text: those are the only ones not moved into it. */
  lemma RevalidatesIff(u: Unicode, prior: seq<Pause>, earlier: string, item: Item)
    requires PausesValid(item.text, item.pauses)
    requires Preserved(u, prior, earlier, item).Some?
    ensures PausesValid(item.text, Preserved(u, prior, earlier, item).value) <==>
            forall p | p in Dropped(prior, item.pauses) && p.alignment == BetweenUtterances :: p.afterChar <= |item.text|
  {
    var kept, merged := Dropped(prior, item.pauses), Preserved(u, prior, earlier, item).value;
    forall i | 0 <= i < |kept|
      ensures merged[i] == CarriedOver(u, earlier, item.text, kept[i]) && merged[i] in merged
    {
    }
    forall i | |kept| <= i < |merged|
      ensures merged[i].afterChar <= |item.text|
    {
      assert item.pauses[i - |kept|] in item.pauses;
    }
    if PausesValid(item.text, merged) {
      forall p | p in kept && p.alignment == BetweenUtterances
        ensures p.afterChar <= |item.text|
      {
        var i :| 0 <= i < |kept| && kept[i] == p;
        assert merged[i] == p;
      }
    } else {
      var p :| p in merged && p.afterChar > |item.text|;
      var i :| 0 <= i < |merged| && merged[i] == p;
      assert kept[i] in kept;
    }
  }

  /** A final whose text is shorter than the partial before it can fail that validation. */
  lemma ShrunkTextFailsRevalidation(u: Unicode)
    ensures var pause := Pause("silence", BetweenUtterances, 11);
            var item := Item("s", "u", 2, 2, "hi", true, []);
            && PausesValid("hello world", [pause]) && PausesValid(item.text, item.pauses)
            && Preserved(u, [pause], "hello world", item) == Some([pause])
            && !PausesValid(item.text, [pause])
  {
    var pause := Pause("silence", BetweenUtterances, 11);
    var item := Item("s", "u", 2, 2, "hi", true, []);
    assert [pause][1..] == [];
    assert Dropped([pause], []) == [pause];
    assert Preserved(u, [pause], "hello world", item).value == [pause];
    assert pause in [pause];
  }

  // ---------------------------------------------------------------- what becomes of each silence

  /** The silence stands in the text where one that came after `prefix` should. */
  ghost predicate Stands(u: Unicode, prefix: string, text: string, at: nat) {
    if prefix <= text then at == |prefix|
    else if ByLetters(u, prefix, text) then AfterLetters(u, prefix, text, at)
    else AfterWords(u, prefix, text, at)
  }

  /** It was `pause`, which came after the text up to its place, and stands where it should in the revised text. */
  ghost predicate MovedFrom(u: Unicode, pause: Pause, at: nat, earlier: string, text: string, moved: Pause) {
    && moved.id == pause.id && moved.alignment == ApproximatePosition
    && Stands(u, if at < |earlier| then earlier[..at] else earlier, text, moved.afterChar)
  }

  lemma StandsThere(u: Unicode, earlier: string, at: nat, text: string)
    ensures Stands(u, if at < |earlier| then earlier[..at] else earlier, text,
                   SilencePosition(u, TextBefore(earlier, at), text))
  {
    assert earlier[..|earlier|] == earlier;
    SilencePositionIs(u, TextBefore(earlier, at), text);
  }

  /** An earlier silence that is not sent again stays as it is if it was between utterances; any other is moved to where
      it belongs by the text that came before it. */
  lemma CarriedOverIs(u: Unicode, earlier: string, text: string, pause: Pause)
    ensures var carried := CarriedOver(u, earlier, text, pause);
            if pause.alignment == BetweenUtterances then carried == pause
            else MovedFrom(u, pause, pause.afterChar, earlier, text, carried)
  {
    StandsThere(u, earlier, pause.afterChar, text);
  }

  lemma {:induction false} SameIs(pauses: seq<Pause>, id: string) returns (k: int)
    ensures -1 <= k < |pauses| && forall j | k < j < |pauses| :: pauses[j].id != id
    ensures k >= 0 ==> pauses[k].id == id
    ensures forall pause: Pause | pause.id == id :: Same(pauses, pause) == if k < 0 then None else Some(pauses[k])
  {
    k := |pauses| - 1;
    if pauses != [] && pauses[k].id != id {
      var front := pauses[..k];
      k := SameIs(front, id);
      assert forall j | 0 <= j < |front| :: front[j] == pauses[j];
    }
  }

  /** A silence that is sent again is moved as the earlier one was placed, if the text has changed and that one was not
      between utterances; otherwise it is taken as sent. */
  lemma ResentIs(u: Unicode, prior: seq<Pause>, earlier: string, text: string, pause: Pause) returns (k: int)
    ensures -1 <= k < |prior| && forall j | k < j < |prior| :: prior[j].id != pause.id
    ensures k >= 0 ==> prior[k].id == pause.id
    ensures var resent := Resent(u, prior, earlier, text, pause);
            if k >= 0 && earlier != text && prior[k].alignment != BetweenUtterances then
              MovedFrom(u, pause, prior[k].afterChar, earlier, text, resent)
            else resent == pause
  {
    k := SameIs(prior, pause.id);
    if k >= 0 {
      StandsThere(u, earlier, prior[k].afterChar, text);
    }
  }

  /** The silences of the revised item: in order the earlier ones that are not sent again, each carried over, and then
      all that are sent. */
  lemma {:induction false} PreservedIs(u: Unicode, prior: seq<Pause>, earlier: string, item: Item)
    returns (places: seq<nat>)
    requires Preserved(u, prior, earlier, item).Some?
    ensures var kept, merged := Dropped(prior, item.pauses), Preserved(u, prior, earlier, item).value;
            && Selects(prior, (n: nat) => n < |prior| && forall p | p in item.pauses :: p.id != prior[n].id, kept, places)
            && |merged| == |kept| + |item.pauses| <= MAX_PAUSES
            && (forall i | 0 <= i < |kept| :: merged[i] == CarriedOver(u, earlier, item.text, kept[i]))
            && (forall i | 0 <= i < |item.pauses| ::
                  merged[|kept| + i] == Resent(u, prior, earlier, item.text, item.pauses[i]))
  {
    places := FilterSelects((pause: Pause) => Same(item.pauses, pause) == None, prior);
    forall n: nat | n < |prior|
      ensures Same(item.pauses, prior[n]) == None <==> forall p | p in item.pauses :: p.id != prior[n].id
    {
      var k := SameIs(item.pauses, prior[n].id);
      if k < 0 {
        assert forall p | p in item.pauses :: p.id != prior[n].id;
      }
    }
  }
}
