// Sortable event identifiers (src/ws_collab/ids.py).
module EventIds {
  import opened Sequences

  const DIGITS: string := "0123456789ABCDEFGHJKMNPQRSTVWXYZ"
  const RANDOMS: nat := 0x1_0000_0000_0000_0000_0000

  // ---------------------------------------------------------------- digits

  function Base32Digit(value: nat): (c: char)
    requires value < 32
  {
    DIGITS[value]
  }

  /** The digits stand in the order of their codes. */
  lemma DigitsAscend(a: nat, b: nat)
    requires a < b < 32
    ensures Base32Digit(a) < Base32Digit(b)
  {
    assert forall i | 0 <= i < 31 :: DIGITS[i] < DIGITS[i + 1];
    var i := a + 1;
    while i < b
      invariant a < i <= b && Base32Digit(a) < Base32Digit(i)
    {
      i := i + 1;
    }
  }

  function Encoded(value: nat, length: nat): (text: string)
    ensures |text| == length
  {
    if length == 0 then "" else Encoded(value / 32, length - 1) + [Base32Digit(value % 32)]
  }

  function Reversed(text: string): string {
    if text == "" then "" else Reversed(text[1..]) + [text[0]]
  }

  lemma {:induction false} ReversedAppend(text: string, c: char)
    ensures Reversed(text + [c]) == [c] + Reversed(text)
  {
    if text != "" {
      ReversedAppend(text[1..], c);
      assert (text + [c])[1..] == text[1..] + [c];
    }
  }

  method EncodeCrockford(value: nat, length: nat) returns (text: string)
    ensures text == Encoded(value, length)
  {
    var chars, rest := "", value;
    for i := 0 to length
      invariant Encoded(rest, length - i) + Reversed(chars) == Encoded(value, length)
    {
      ReversedAppend(chars, Base32Digit(rest % 32));
      ghost var digit := [Base32Digit(rest % 32)];
      assert Encoded(rest, length - i) + Reversed(chars) == Encoded(rest / 32, length - i - 1) + (digit + Reversed(chars));
      chars := chars + [Base32Digit(rest % 32)];
      rest := rest / 32;
    }
    text := Reversed(chars);
  }

  function Power(n: nat): (p: nat)
    ensures p > 0
  {
    if n == 0 then 1 else 32 * Power(n - 1)
  }

  lemma PowersAre()
    ensures Power(10) == 0x4_0000_0000_0000
    ensures Power(16) == RANDOMS
  {
    assert Power(5) == 0x200_0000;
    assert Power(10) == 0x4_0000_0000_0000;
    assert Power(15) == 0x800_0000_0000_0000_0000;
  }

  // ---------------------------------------------------------------- order

  /** The order of strings. */
  predicate Less(a: string, b: string) {
    b != "" && (a == "" || a[0] < b[0] || (a[0] == b[0] && Less(a[1..], b[1..])))
  }

  lemma {:induction false} LessByPrefix(a: string, b: string, x: string, y: string)
    requires |a| == |b| && Less(a, b)
    ensures Less(a + x, b + y)
  {
    if a[0] == b[0] {
      LessByPrefix(a[1..], b[1..], x, y);
      assert (a + x)[1..] == a[1..] + x && (b + y)[1..] == b[1..] + y;
    }
  }

  lemma {:induction false} LessBySuffix(a: string, x: string, y: string)
    requires Less(x, y)
    ensures Less(a + x, a + y)
  {
    if a == "" {
      assert a + x == x && a + y == y;
    } else {
      LessBySuffix(a[1..], x, y);
      assert (a + x)[1..] == a[1..] + x && (a + y)[1..] == a[1..] + y;
    }
  }

  /** Numbers that fit are ordered as their digits are. */
  lemma {:induction false} EncodedInOrder(a: nat, b: nat, length: nat)
    requires a < b < Power(length)
    ensures Less(Encoded(a, length), Encoded(b, length))
  {
    if length > 0 {
      var x, y := [Base32Digit(a % 32)], [Base32Digit(b % 32)];
      if a / 32 < b / 32 {
        EncodedInOrder(a / 32, b / 32, length - 1);
        LessByPrefix(Encoded(a / 32, length - 1), Encoded(b / 32, length - 1), x, y);
      } else {
        DigitsAscend(a % 32, b % 32);
        LessBySuffix(Encoded(a / 32, length - 1), x, y);
      }
    }
  }

  // ---------------------------------------------------------------- reading the time back

  function Upper(c: char): char {
    if 'a' <= c <= 'z' then c - 'a' + 'A' else c
  }

  /** The first digit from `v` on that is this character. */
  function DigitFrom(c: char, v: nat): (at: Option<nat>)
    requires v <= 32
    ensures at.Some? ==> at.value < 32 && Base32Digit(at.value) == c
    ensures at.None? ==> forall w | v <= w < 32 :: Base32Digit(w) != c
    decreases 32 - v
  {
    if v == 32 then None else if Base32Digit(v) == c then Some(v) else DigitFrom(c, v + 1)
  }

  /** The value of a digit in either case, or nothing. */
  function ValueOf(c: char): (v: Option<nat>)
    ensures v.Some? ==> v.value < 32 && Base32Digit(v.value) == Upper(c)
    ensures v.None? ==> forall w | 0 <= w < 32 :: Base32Digit(w) != Upper(c)
  {
    DigitFrom(Upper(c), 0)
  }

  lemma DigitIs(v: nat, w: nat)
    requires v < 32 && w < 32 && Base32Digit(v) == Base32Digit(w)
    ensures v == w
  {
    if v < w {
      DigitsAscend(v, w);
    } else if w < v {
      DigitsAscend(w, v);
    }
  }

  /** One more digit at the end of a number. */
  function WithDigit(number: Option<nat>, c: char): Option<nat> {
    var digit := ValueOf(c);
    if number.None? || digit.None? then None else Some(number.value * 32 + digit.value)
  }

  /** The number a text stands for, or nothing if a character is no digit. */
  function Decoded(text: string): Option<nat>
    decreases |text|
  {
    if text == "" then Some(0) else WithDigit(Decoded(text[..|text| - 1]), text[|text| - 1])
  }

  lemma {:induction false} NotDecoded(text: string, count: nat)
    requires count <= |text| && Decoded(text[..count]).None?
    ensures Decoded(text).None?
    decreases |text|
  {
    if count == |text| {
      assert text[..count] == text;
    } else {
      assert text[..|text| - 1][..count] == text[..count];
      NotDecoded(text[..|text| - 1], count);
    }
  }

  function First(text: string, count: nat): string {
    if count <= |text| then text[..count] else text
  }

  lemma {:induction false} DecodedWith(text: string, c: char)
    ensures Decoded(text + [c]) == WithDigit(Decoded(text), c)
  {
    var all := text + [c];
    assert all[..|all| - 1] == text;
  }

  lemma DecodedNext(text: string, i: nat)
    requires i < |text|
    ensures Decoded(text[..i + 1]) == WithDigit(Decoded(text[..i]), text[i])
  {
    assert text[..i + 1][..i] == text[..i];
  }

  /** The time stamp of an identifier; nothing for an error. */
  method EventIdTimestampMs(id: string) returns (ms: Option<nat>)
    ensures ms == Decoded(First(id, 10))
  {
    var value, text := 0, First(id, 10);
    for i := 0 to |text|
      invariant value >= 0 && Decoded(text[..i]) == Some(value)
    {
      DecodedNext(text, i);
      var number := WithDigit(Some(value), text[i]);
      if number.None? {
        NotDecoded(text, i + 1);
        return None;
      }
      value := number.value;
    }
    assert text[..|text|] == text;
    return Some(value);
  }

  lemma DigitIsUpper(v: nat)
    requires v < 32
    ensures Upper(Base32Digit(v)) == Base32Digit(v)
  {
    assert forall i | 0 <= i < 32 :: DIGITS[i] <= 'Z';
  }

  lemma DigitValue(v: nat)
    requires v < 32
    ensures ValueOf(Base32Digit(v)) == Some(v)
  {
    DigitIsUpper(v);
    var found := ValueOf(Base32Digit(v));
    assert found.Some?;
    DigitIs(v, found.value);
  }

  /** Reading digits back gives the number, less what did not fit. */
  lemma {:induction false} DecodedEncoded(value: nat, length: nat)
    ensures Decoded(Encoded(value, length)) == Some(value % Power(length))
  {
    if length > 0 {
      var front, last := Encoded(value / 32, length - 1), Base32Digit(value % 32);
      DecodedEncoded(value / 32, length - 1);
      DigitValue(value % 32);
      DecodedWith(front, last);
      Remainder(value, Power(length - 1));
    }
  }

  lemma Remainder(value: nat, power: nat)
    requires power > 0
    ensures (value / 32 % power) * 32 + value % 32 == value % (32 * power)
  {
    var q, r := value / 32 / power, value / 32 % power;
    assert value / 32 == q * power + r;
    assert value == (32 * power) * q + (32 * r + value % 32);
    Unique(value, 32 * power, q, 32 * r + value % 32);
  }

  lemma AtLeastOne(divisor: nat, k: int)
    requires k >= 1
    ensures divisor * k >= divisor
  {
  }

  lemma Unique(value: nat, divisor: nat, q: nat, r: nat)
    requires r < divisor && value == divisor * q + r
    ensures value % divisor == r
  {
    var p, s := value / divisor, value % divisor;
    Differs(divisor, p, q);
    if p > q {
      AtLeastOne(divisor, p - q);
    } else if p < q {
      AtLeastOne(divisor, q - p);
    }
  }

  lemma Differs(divisor: nat, p: int, q: int)
    ensures divisor * p - divisor * q == divisor * (p - q) == -(divisor * (q - p))
  {
  }

  // ---------------------------------------------------------------- minting

  /** What the last identifier was made of. */
  datatype Mark = Mark(ms: nat, rand: nat)

  function IdOf(mark: Mark): string {
    Encoded(mark.ms, 10) + Encoded(mark.rand, 16)
  }

  /** The next identifier for a clock reading, `random` being drawn if it is needed. A clock that stands still or
      goes back counts the random part up; when that overflows, the time goes on by one. */
  function Next(last: Mark, now: int, random: nat): Mark {
    if now > last.ms then Mark(now, random)
    else if (last.rand + 1) % RANDOMS == 0 then Mark(last.ms + 1, random)
    else Mark(last.ms, (last.rand + 1) % RANDOMS)
  }

  class Mint {
    var lastMs: nat
    var lastRand: nat

    function View(): Mark
      reads this
    {
      Mark(lastMs, lastRand)
    }

    constructor ()
      ensures View() == Mark(0, 0)
    {
      lastMs, lastRand := 0, 0;
    }

    method NewEventId(now: int, random: nat) returns (id: string)
      requires random < RANDOMS
      modifies this
      ensures View() == Next(old(View()), now, random) && id == IdOf(View())
    {
      var ms := Advance(now, random);
      var time := EncodeCrockford(ms, 10);
      var rest := EncodeCrockford(lastRand, 16);
      id := time + rest;
    }

    method Advance(now: int, random: nat) returns (ms: int)
      requires random < RANDOMS
      modifies this
      ensures View() == Next(old(View()), now, random) && ms == lastMs
    {
      ms := now;
      if ms <= lastMs {
        ms := lastMs;
        lastRand := (lastRand + 1) % RANDOMS;
        if lastRand == 0 {
          ms := ms + 1;
          lastMs := ms;
          lastRand := random;
        }
      } else {
        lastMs := ms;
        lastRand := random;
      }
    }
  }

  datatype Reading = Reading(now: int, random: nat)

  /** The marks of a run of clock readings, in order. */
  function Minted(last: Mark, readings: seq<Reading>): (marks: seq<Mark>)
    ensures |marks| == |readings|
    decreases |readings|
  {
    if readings == [] then []
    else
      var mark := Next(last, readings[0].now, readings[0].random);
      [mark] + Minted(mark, readings[1..])
  }

  predicate Drawn(readings: seq<Reading>) {
    forall i | 0 <= i < |readings| :: readings[i].random < RANDOMS
  }

  predicate Before(a: Mark, b: Mark) {
    a.ms < b.ms || (a.ms == b.ms && a.rand < b.rand)
  }

  lemma NextIsLater(last: Mark, now: int, random: nat)
    requires last.rand < RANDOMS && random < RANDOMS
    ensures var mark := Next(last, now, random); Before(last, mark) && mark.rand < RANDOMS
  {
  }

  lemma {:induction false} MintedAreLater(last: Mark, readings: seq<Reading>, j: nat)
    requires last.rand < RANDOMS && Drawn(readings) && j < |readings|
    ensures var mark := Minted(last, readings)[j]; Before(last, mark) && mark.rand < RANDOMS
    decreases |readings|
  {
    var mark := Next(last, readings[0].now, readings[0].random);
    NextIsLater(last, readings[0].now, readings[0].random);
    if j > 0 {
      MintedAreLater(mark, readings[1..], j - 1);
    }
  }

  lemma {:induction false} MintedInOrder(last: Mark, readings: seq<Reading>, i: nat, j: nat)
    requires last.rand < RANDOMS && Drawn(readings) && i < j < |readings|
    ensures var marks := Minted(last, readings);
            Before(marks[i], marks[j]) && marks[i].rand < RANDOMS && marks[j].rand < RANDOMS
    decreases |readings|
  {
    var mark := Next(last, readings[0].now, readings[0].random);
    NextIsLater(last, readings[0].now, readings[0].random);
    if i == 0 {
      MintedAreLater(mark, readings[1..], j - 1);
    } else {
      MintedInOrder(mark, readings[1..], i - 1, j - 1);
    }
  }

  /** Enough random parts are left that none runs out in so many steps. */
  predicate Lasts(last: Mark, readings: seq<Reading>) {
    && last.rand + |readings| < RANDOMS
    && forall i | 0 <= i < |readings| :: readings[i].random + |readings| < RANDOMS
  }

  /** The latest time told so far. */
  function Latest(ms: nat, readings: seq<Reading>): int {
    if readings == [] then ms else Max(Latest(ms, readings[..|readings| - 1]), readings[|readings| - 1].now)
  }

  lemma {:induction false} LatestFrom(ms: nat, readings: seq<Reading>)
    requires readings != []
    ensures Latest(ms, readings) == Latest(Max(ms, readings[0].now), readings[1..])
  {
    if |readings| > 1 {
      var front := readings[..|readings| - 1];
      LatestFrom(ms, front);
      assert front[1..] == readings[1..][..|readings| - 2];
    }
  }

  /** While the random parts last, every identifier carries the latest time the clock has told; the first one of a time
      carries the random part drawn for it, and each one after that the next. */
  lemma {:induction false} MarksFollowClock(last: Mark, readings: seq<Reading>, j: nat)
    requires Lasts(last, readings) && j < |readings|
    ensures var marks := Minted(last, readings);
            var before := if j == 0 then last else marks[j - 1];
            && marks[j].ms == Latest(last.ms, readings[..j + 1])
            && marks[j].rand == if marks[j].ms > before.ms then readings[j].random else before.rand + 1
    decreases |readings|
  {
    var mark, rest := Next(last, readings[0].now, readings[0].random), readings[1..];
    assert readings[..1] == [readings[0]];
    assert readings[..j + 1][1..] == rest[..j];
    LatestFrom(last.ms, readings[..j + 1]);
    if j > 0 {
      assert forall i | 0 <= i < |rest| :: rest[i] == readings[i + 1];
      MarksFollowClock(mark, rest, j - 1);
    }
  }

  /** How often the random parts of a time run out. */
  function RunOuts(last: Mark, readings: seq<Reading>): nat
    decreases |readings|
  {
    if readings == [] then 0
    else
      var a := readings[0];
      (if a.now <= last.ms && last.rand == RANDOMS - 1 then 1 else 0) + RunOuts(Next(last, a.now, a.random), readings[1..])
  }

  /** Only then do identifiers get ahead of the clock, a millisecond each time. */
  lemma {:induction false} AheadOfClock(last: Mark, readings: seq<Reading>, j: nat)
    requires last.rand < RANDOMS && Drawn(readings) && j < |readings|
    ensures var latest := Latest(last.ms, readings[..j + 1]);
            latest <= Minted(last, readings)[j].ms <= latest + RunOuts(last, readings[..j + 1])
    decreases |readings|
  {
    var a, rest := readings[0], readings[1..];
    var mark := Next(last, a.now, a.random);
    NextIsLater(last, a.now, a.random);
    assert readings[..1] == [a] && readings[..1][1..] == [];
    assert readings[..j + 1][1..] == rest[..j];
    LatestFrom(last.ms, readings[..j + 1]);
    if j > 0 {
      assert forall i | 0 <= i < |rest| :: rest[i] == readings[i + 1];
      AheadOfClock(mark, rest, j - 1);
      LatestLater(Max(last.ms, a.now), mark.ms, rest[..j]);
    } else {
      assert Latest(last.ms, readings[..1]) == Max(last.ms, a.now);
    }
  }

  lemma {:induction false} LatestLater(ms: nat, later: nat, readings: seq<Reading>)
    requires ms <= later
    ensures Latest(ms, readings) <= Latest(later, readings) <= Latest(ms, readings) + later - ms
  {
    if readings != [] {
      LatestLater(ms, later, readings[..|readings| - 1]);
    }
  }

  lemma IdsInOrder(a: Mark, b: Mark)
    requires Before(a, b) && b.ms < Power(10) && a.rand < RANDOMS && b.rand < RANDOMS
    ensures Less(IdOf(a), IdOf(b))
  {
    PowersAre();
    if a.ms < b.ms {
      EncodedInOrder(a.ms, b.ms, 10);
      LessByPrefix(Encoded(a.ms, 10), Encoded(b.ms, 10), Encoded(a.rand, 16), Encoded(b.rand, 16));
    } else {
      EncodedInOrder(a.rand, b.rand, 16);
      LessBySuffix(Encoded(a.ms, 10), Encoded(a.rand, 16), Encoded(b.rand, 16));
    }
  }

  lemma {:induction false} NotLessBoth(a: string, b: string)
    requires Less(a, b)
    ensures !Less(b, a)
  {
    if a != "" && a[0] == b[0] {
      NotLessBoth(a[1..], b[1..]);
    }
  }

  lemma {:induction false} NotLessSelf(a: string)
    ensures !Less(a, a)
  {
    if a != "" {
      NotLessSelf(a[1..]);
    }
  }

  /** What ten digits keep of a time. */
  function Shown(mark: Mark): Mark {
    Mark(mark.ms % Power(10), mark.rand)
  }

  lemma IdShows(mark: Mark)
    ensures IdOf(Shown(mark)) == IdOf(mark)
  {
    EncodedRemainder(mark.ms, 10);
  }

  lemma LastDigit(rest: nat, digit: nat)
    requires digit < 32
    ensures (rest * 32 + digit) / 32 == rest && (rest * 32 + digit) % 32 == digit
  {
  }

  /** Only the remainder that fits is written. */
  lemma {:induction false} EncodedRemainder(value: nat, length: nat)
    ensures Encoded(value % Power(length), length) == Encoded(value, length)
  {
    if length > 0 {
      var rest := value / 32 % Power(length - 1);
      Remainder(value, Power(length - 1));
      EncodedRemainder(value / 32, length - 1);
      LastDigit(rest, value % 32);
    }
  }

  /** Two identifiers are in order exactly when what they show is: the times as far as ten digits go, then the
      random parts. */
  lemma OrderIff(a: Mark, b: Mark)
    requires a.rand < RANDOMS && b.rand < RANDOMS
    ensures Less(IdOf(a), IdOf(b)) <==> Before(Shown(a), Shown(b))
  {
    IdShows(a);
    IdShows(b);
    if Before(Shown(a), Shown(b)) {
      IdsInOrder(Shown(a), Shown(b));
    } else if Before(Shown(b), Shown(a)) {
      IdsInOrder(Shown(b), Shown(a));
      NotLessBoth(IdOf(b), IdOf(a));
    } else {
      NotLessSelf(IdOf(a));
    }
  }

  /** How often the time has run out of ten digits. */
  function Turn(mark: Mark): nat {
    mark.ms / Power(10)
  }

  lemma SameTurn(a: nat, b: nat, power: nat)
    requires power > 0 && a / power == b / power
    ensures a % power - b % power == a - b
  {
  }

  /** Marks in order show in order unless the time runs out of digits between them. */
  lemma ShownInOrder(a: Mark, b: Mark)
    requires Before(a, b) && Turn(a) == Turn(b)
    ensures Before(Shown(a), Shown(b))
  {
    SameTurn(a.ms, b.ms, Power(10));
  }

  /** Over every run of clock readings, backward ones and overflows included, a later identifier is greater exactly
      when what it shows is later; and it is as long as no multiple of 2^50 milliseconds lies between the two. */
  lemma {:induction false} IdsIncrease(last: Mark, readings: seq<Reading>, i: nat, j: nat)
    requires last.rand < RANDOMS && Drawn(readings) && i < j < |readings|
    ensures var a, b := Minted(last, readings)[i], Minted(last, readings)[j];
            && (Less(IdOf(a), IdOf(b)) <==> Before(Shown(a), Shown(b)))
            && (Turn(a) == Turn(b) ==> Less(IdOf(a), IdOf(b)))
  {
    MintedInOrder(last, readings, i, j);
    var a, b := Minted(last, readings)[i], Minted(last, readings)[j];
    OrderIff(a, b);
    if Turn(a) == Turn(b) {
      ShownInOrder(a, b);
    }
  }

  lemma FirstIsTime(mark: Mark)
    ensures First(IdOf(mark), 10) == Encoded(mark.ms, 10)
  {
  }

  lemma FitsIff(value: nat, power: nat)
    requires power > 0
    ensures value % power == value <==> value < power
  {
  }

  /** The time stamp of an identifier is the time it was made at, exactly when that fits in ten digits. */
  lemma TimestampIffFits(mark: Mark)
    ensures Decoded(First(IdOf(mark), 10)) == Some(mark.ms) <==> mark.ms < 0x4_0000_0000_0000
  {
    PowersAre();
    FirstIsTime(mark);
    DecodedEncoded(mark.ms, 10);
    FitsIff(mark.ms, Power(10));
  }

  /** So the order breaks at every multiple of 2^50 milliseconds. */
  lemma OrderEnds(turn: nat, rand: nat, later: nat)
    requires 1 <= turn && rand < RANDOMS && later < RANDOMS
    ensures turn * Power(10) >= 1
    ensures var a, b := Mark(turn * Power(10) - 1, rand), Mark(turn * Power(10), later);
            Before(a, b) && Less(IdOf(b), IdOf(a))
  {
    AroundMultiple(turn, Power(10));
    PowersAre();
    OrderIff(Mark(turn * Power(10), later), Mark(turn * Power(10) - 1, rand));
  }

  lemma AroundMultiple(turn: nat, power: nat)
    requires 1 <= turn && 1 <= power
    ensures turn * power >= 1
    ensures (turn * power) % power == 0 && (turn * power - 1) % power == power - 1
  {
    AtLeastOne(power, turn);
    Unique(turn * power, power, turn, 0);
    Differs(power, turn, 1);
    Unique(turn * power - 1, power, turn - 1, power - 1);
  }

  // ---------------------------------------------------------------- the digits

  /** The digits are those of Crockford's base 32: all decimal digits and capital letters but I, L, O and U, in order. */
  lemma DigitsAre(c: char)
    ensures |DIGITS| == 32 && forall i, j | 0 <= i < j < 32 :: DIGITS[i] < DIGITS[j]
    ensures c in DIGITS <==> ('0' <= c <= '9' || 'A' <= c <= 'Z') && c != 'I' && c != 'L' && c != 'O' && c != 'U'
  {
    forall i, j | 0 <= i < j < 32
      ensures DIGITS[i] < DIGITS[j]
    {
      DigitsAscend(i, j);
    }
    if ('0' <= c <= '9' || 'A' <= c <= 'Z') && c != 'I' && c != 'L' && c != 'O' && c != 'U' {
      var n := c as nat;
      var v := if n < 58 then n - 48 else if n < 73 then n - 55 else if n < 76 then n - 56
               else if n < 79 then n - 57 else if n < 85 then n - 58 else n - 59;
      assert DIGITS[v] == c;
    }
  }

  /** The i-th digit tells how often its power of 32 goes into the number. */
  lemma {:induction false} EncodedDigit(value: nat, length: nat, i: nat)
    requires i < length
    ensures Encoded(value, length)[i] == DIGITS[value / Power(length - 1 - i) % 32]
  {
    if i < length - 1 {
      EncodedDigit(value / 32, length - 1, i);
      var p := Power(length - 2 - i);
      assert Power(length - 1 - i) == 32 * p;
      DividedTwice(value, p);
    }
  }

  lemma DividedTwice(value: nat, p: nat)
    requires p > 0
    ensures value / 32 / p == value / (32 * p)
  {
    var q, r := value / (32 * p), value % (32 * p);
    var a, b := r / 32, r % 32;
    assert value == 32 * p * q + 32 * a + b;
    assert value / 32 == p * q + a by {
      assert value == 32 * (p * q + a) + b;
    }
    assert a < p by {
      assert 32 * a <= r < 32 * p;
    }
    Unique(p * q + a, p, q, a);
  }
}
