// Opaque cursor tokens (src/ws_collab/ids.py, `encode_cursor` and `decode_cursor`): the text of a cursor in
// base64url without padding, section 5 of RFC 4648.
module CursorTokens {
  import opened Sequences
  import opened LineFile
  import opened LogAppend

  // ---------------------------------------------------------------- digits

  function Base64Digit(value: nat): char
    requires value < 64
  {
    if value < 26 then 'A' + value as char
    else if value < 52 then 'a' + (value - 26) as char
    else if value < 62 then '0' + (value - 52) as char
    else if value == 62 then '-'
    else '_'
  }

  /** The value of a digit, or nothing. */
  function ValueOf(c: char): (v: Option<nat>)
    ensures v.Some? ==> v.value < 64
  {
    if 'A' <= c <= 'Z' then Some((c - 'A') as nat)
    else if 'a' <= c <= 'z' then Some((c - 'a') as nat + 26)
    else if '0' <= c <= '9' then Some((c - '0') as nat + 52)
    else if c == '-' then Some(62)
    else if c == '_' then Some(63)
    else None
  }

  lemma DigitValue(value: nat)
    requires value < 64
    ensures ValueOf(Base64Digit(value)) == Some(value)
  {
  }

  // ---------------------------------------------------------------- bytes and digits

  /** The four digits of three bytes. */
  function Group(a: Byte, b: Byte, c: Byte): (text: string)
    ensures |text| == 4
  {
    [Base64Digit(a / 4), Base64Digit(a % 4 * 16 + b / 16), Base64Digit(b % 16 * 4 + c / 64), Base64Digit(c % 64)]
  }

  type Sextet = v: nat | v < 64

  function ThreeOf(w: Sextet, x: Sextet, y: Sextet, z: Sextet): (bytes: Bytes)
    ensures |bytes| == 3
  {
    [w * 4 + x / 16, x % 16 * 16 + y / 4, y % 4 * 64 + z]
  }

  /** The three bytes of four digits; nothing if a character is no digit. */
  function Ungroup(p: char, q: char, r: char, s: char): (bytes: Option<Bytes>)
    ensures bytes.Some? ==> |bytes.value| == 3
  {
    var w, x, y, z := ValueOf(p), ValueOf(q), ValueOf(r), ValueOf(s);
    if w.None? || x.None? || y.None? || z.None? then None
    else Some(ThreeOf(w.value, x.value, y.value, z.value))
  }

  lemma ThreeBytes(a: Byte, b: Byte, c: Byte)
    ensures ThreeOf(a / 4, a % 4 * 16 + b / 16, b % 16 * 4 + c / 64, c % 64) == [a, b, c]
  {
    assert a / 4 * 4 + (a % 4 * 16 + b / 16) / 16 == a;
    assert (a % 4 * 16 + b / 16) % 16 * 16 + (b % 16 * 4 + c / 64) / 4 == b;
    assert (b % 16 * 4 + c / 64) % 4 * 64 + c % 64 == c;
  }

  lemma UngroupDigits(w: Sextet, x: Sextet, y: Sextet, z: Sextet)
    ensures Ungroup(Base64Digit(w), Base64Digit(x), Base64Digit(y), Base64Digit(z)) == Some(ThreeOf(w, x, y, z))
  {
    DigitValue(w);
    DigitValue(x);
    DigitValue(y);
    DigitValue(z);
  }

  lemma UngroupGroup(a: Byte, b: Byte, c: Byte)
    ensures var text := Group(a, b, c); Ungroup(text[0], text[1], text[2], text[3]) == Some([a, b, c])
  {
    ThreeBytes(a, b, c);
    UngroupDigits(a / 4, a % 4 * 16 + b / 16, b % 16 * 4 + c / 64, c % 64);
  }

  /** Three bytes make four digits; one or two bytes at the end make two or three. */
  function Encode(bytes: Bytes): (text: string)
    decreases |bytes|
  {
    if bytes == [] then ""
    else if |bytes| == 1 then Group(bytes[0], 0, 0)[..2]
    else if |bytes| == 2 then Group(bytes[0], bytes[1], 0)[..3]
    else Group(bytes[0], bytes[1], bytes[2]) + Encode(bytes[3..])
  }

  /** The bytes of a text; nothing if it has a character that is no digit, or one digit too many. */
  function Decode(text: string): (bytes: Option<Bytes>)
    decreases |text|
  {
    if text == "" then Some([])
    else if |text| == 1 then None
    else if |text| == 2 then FirstOf(Ungroup(text[0], text[1], 'A', 'A'), 1)
    else if |text| == 3 then FirstOf(Ungroup(text[0], text[1], text[2], 'A'), 2)
    else
      var first, rest := Ungroup(text[0], text[1], text[2], text[3]), Decode(text[4..]);
      if first.None? || rest.None? then None else Some(first.value + rest.value)
  }

  function FirstOf(bytes: Option<Bytes>, count: nat): Option<Bytes>
    requires bytes.Some? ==> count <= |bytes.value|
  {
    if bytes.None? then None else Some(bytes.value[..count])
  }

  lemma DecodeOne(a: Byte)
    ensures Decode(Group(a, 0, 0)[..2]) == Some([a])
  {
    UngroupGroup(a, 0, 0);
    assert [a, 0, 0][..1] == [a];
  }

  lemma DecodeTwo(a: Byte, b: Byte)
    ensures Decode(Group(a, b, 0)[..3]) == Some([a, b])
  {
    UngroupGroup(a, b, 0);
    assert [a, b, 0][..2] == [a, b];
  }

  lemma {:induction false} DecodeMore(a: Byte, b: Byte, c: Byte, rest: string, bytes: Bytes)
    requires Decode(rest) == Some(bytes)
    ensures Decode(Group(a, b, c) + rest) == Some([a, b, c] + bytes)
  {
    var text := Group(a, b, c) + rest;
    UngroupGroup(a, b, c);
    assert text[4..] == rest;
  }

  lemma {:induction false} EncodeMore(a: Byte, b: Byte, c: Byte, rest: Bytes)
    ensures Encode([a, b, c] + rest) == Group(a, b, c) + Encode(rest)
  {
    var all := [a, b, c] + rest;
    assert all[3..] == rest && all[0] == a && all[1] == b && all[2] == c;
  }

  lemma {:induction false} BackMore(a: Byte, b: Byte, c: Byte, rest: Bytes)
    requires Decode(Encode(rest)) == Some(rest)
    ensures Decode(Encode([a, b, c] + rest)) == Some([a, b, c] + rest)
  {
    EncodeMore(a, b, c, rest);
    DecodeMore(a, b, c, Encode(rest), rest);
  }

  lemma {:induction false} BackFew(bytes: Bytes)
    requires |bytes| < 3
    ensures Decode(Encode(bytes)) == Some(bytes)
  {
    if |bytes| == 1 {
      DecodeOne(bytes[0]);
      assert bytes == [bytes[0]];
    } else if |bytes| == 2 {
      DecodeTwo(bytes[0], bytes[1]);
      assert bytes == [bytes[0], bytes[1]];
    }
  }

  /** What holds of fewer than three bytes, and of three more bytes when it holds of the rest, holds of all. */
  lemma {:induction false} ByThrees(p: Bytes -> bool, bytes: Bytes)
    requires forall few: Bytes | |few| < 3 :: p(few)
    requires forall a: Byte, b: Byte, c: Byte, rest: Bytes | p(rest) :: p([a, b, c] + rest)
    ensures p(bytes)
    decreases |bytes|
  {
    if |bytes| >= 3 {
      ByThrees(p, bytes[3..]);
      assert bytes == [bytes[0], bytes[1], bytes[2]] + bytes[3..];
    }
  }

  /** Decoding what was encoded gives it back, for every sequence of bytes. */
  lemma {:induction false} DecodeEncode(bytes: Bytes)
    ensures Decode(Encode(bytes)) == Some(bytes)
  {
    var back := (b: Bytes) => Decode(Encode(b)) == Some(b);
    forall few: Bytes | |few| < 3
      ensures back(few)
    {
      BackFew(few);
    }
    forall a: Byte, b: Byte, c: Byte, rest: Bytes | back(rest)
      ensures back([a, b, c] + rest)
    {
      BackMore(a, b, c, rest);
    }
    ByThrees(back, bytes);
  }

  // ---------------------------------------------------------------- cursors

  /** The JSON text of a cursor and back. */
  datatype Json = Json(render: Cursor -> Bytes, parse: Bytes -> Option<Cursor>)

  ghost predicate Faithful(json: Json) {
    forall cursor: Cursor :: json.parse(json.render(cursor)) == Some(cursor)
  }

  function EncodeCursor(json: Json, cursor: Cursor): string {
    Encode(json.render(cursor))
  }

  /** The cursor of a token; nothing for a malformed one. */
  function DecodeCursor(json: Json, token: string): Option<Cursor> {
    if token == "" then None
    else
      var bytes := Decode(token);
      if bytes.None? then None else json.parse(bytes.value)
  }

  /** Every token the store hands out reads back as its cursor, so that different cursors have different tokens. */
  lemma TokenRoundTrip(json: Json, cursor: Cursor, other: Cursor)
    requires Faithful(json) && json.render(cursor) != []
    ensures DecodeCursor(json, EncodeCursor(json, cursor)) == Some(cursor)
    ensures EncodeCursor(json, cursor) == EncodeCursor(json, other) ==> cursor == other
  {
    DecodeEncode(json.render(cursor));
    DecodeEncode(json.render(other));
  }

  // ---------------------------------------------------------------- the alphabet

  /** A character of the base64url alphabet and its value, table 2 of RFC 4648. */
  predicate Spells(c: char, value: nat) {
    || ('A' <= c <= 'Z' && value == c as nat - 65)
    || ('a' <= c <= 'z' && value == c as nat - 71)
    || ('0' <= c <= '9' && value == c as nat + 4)
    || (c == '-' && value == 62)
    || (c == '_' && value == 63)
  }

  lemma DigitSpells(value: nat)
    requires value < 64
    ensures Spells(Base64Digit(value), value)
  {
  }

  /** The bits of a byte, the highest first. */
  function BitsOf(byte: Byte): seq<nat> {
    [byte / 128, byte / 64 % 2, byte / 32 % 2, byte / 16 % 2, byte / 8 % 2, byte / 4 % 2, byte / 2 % 2, byte % 2]
  }

  function Bits(bytes: Bytes): seq<nat> {
    if bytes == [] then [] else BitsOf(bytes[0]) + Bits(bytes[1..])
  }

  function Number(bits: seq<nat>): nat
    requires |bits| == 6
  {
    32 * bits[0] + 16 * bits[1] + 8 * bits[2] + 4 * bits[3] + 2 * bits[4] + bits[5]
  }

  /** The bits six by six as numbers; the last are filled up with zeros. */
  function Sextets(bits: seq<nat>): seq<nat> {
    if bits == [] then []
    else if |bits| < 6 then [Number((bits + [0, 0, 0, 0, 0])[..6])]
    else [Number(bits[..6])] + Sextets(bits[6..])
  }

  ghost predicate AllSpell(text: string, values: seq<nat>) {
    |text| == |values| && forall i | 0 <= i < |text| :: Spells(text[i], values[i])
  }

  lemma SpellConcat(a: string, b: string, x: seq<nat>, y: seq<nat>)
    requires AllSpell(a, x) && AllSpell(b, y)
    ensures AllSpell(a + b, x + y)
  {
  }

  lemma {:induction false} SixFirst(six: seq<nat>, rest: seq<nat>)
    requires |six| == 6
    ensures Sextets(six + rest) == [Number(six)] + Sextets(rest)
  {
    assert (six + rest)[..6] == six && (six + rest)[6..] == rest;
  }

  lemma HighBits(byte: Byte)
    ensures var bits := BitsOf(byte);
            && byte / 64 == 2 * bits[0] + bits[1]
            && byte / 16 == 8 * bits[0] + 4 * bits[1] + 2 * bits[2] + bits[3]
            && byte / 4 == 32 * bits[0] + 16 * bits[1] + 8 * bits[2] + 4 * bits[3] + 2 * bits[4] + bits[5]
  {
    assert byte / 64 == 2 * (byte / 128) + byte / 64 % 2;
    assert byte / 32 == 2 * (byte / 64) + byte / 32 % 2;
    assert byte / 16 == 2 * (byte / 32) + byte / 16 % 2;
    assert byte / 8 == 2 * (byte / 16) + byte / 8 % 2;
    assert byte / 4 == 2 * (byte / 8) + byte / 4 % 2;
  }

  lemma LowBits(byte: Byte)
    ensures var bits := BitsOf(byte);
            && byte % 4 == 2 * bits[6] + bits[7]
            && byte % 16 == 8 * bits[4] + 4 * bits[5] + 2 * bits[6] + bits[7]
            && byte % 64 == 32 * bits[2] + 16 * bits[3] + 8 * bits[4] + 4 * bits[5] + 2 * bits[6] + bits[7]
  {
    HighBits(byte);
    assert byte / 2 == 2 * (byte / 4) + byte / 2 % 2;
    assert byte == 2 * (byte / 2) + byte % 2;
    assert byte % 4 == byte - 4 * (byte / 4);
    assert byte % 16 == byte - 16 * (byte / 16);
    assert byte % 64 == byte - 64 * (byte / 64);
  }

  /** The numbers of the digits of a group. */
  function Numbers(a: Byte, b: Byte, c: Byte): seq<nat> {
    [a / 4, a % 4 * 16 + b / 16, b % 16 * 4 + c / 64, c % 64]
  }

  lemma FourNumbers(a: Byte, b: Byte, c: Byte)
    ensures var x, y, z := BitsOf(a), BitsOf(b), BitsOf(c);
            && Number(x[..6]) == a / 4 && Number(x[6..] + y[..4]) == a % 4 * 16 + b / 16
            && Number(y[4..] + z[..2]) == b % 16 * 4 + c / 64 && Number(z[2..]) == c % 64
  {
    HighBits(a);
    LowBits(a);
    HighBits(b);
    LowBits(b);
    HighBits(c);
    LowBits(c);
  }

  lemma {:induction false} ThreeSextets(a: Byte, b: Byte, c: Byte, rest: seq<nat>)
    ensures Sextets(BitsOf(a) + BitsOf(b) + BitsOf(c) + rest) == Numbers(a, b, c) + Sextets(rest)
  {
    var x, y, z := BitsOf(a), BitsOf(b), BitsOf(c);
    var p, q, r, t := x[..6], x[6..] + y[..4], y[4..] + z[..2], z[2..];
    Regrouped(x, y, z, rest);
    FourFirst(p, q, r, t, rest);
    FourNumbers(a, b, c);
  }

  lemma Regrouped(x: seq<nat>, y: seq<nat>, z: seq<nat>, rest: seq<nat>)
    requires |x| == |y| == |z| == 8
    ensures x + y + z + rest == x[..6] + ((x[6..] + y[..4]) + ((y[4..] + z[..2]) + (z[2..] + rest)))
  {
  }

  lemma {:induction false} FourFirst(p: seq<nat>, q: seq<nat>, r: seq<nat>, t: seq<nat>, rest: seq<nat>)
    requires |p| == |q| == |r| == |t| == 6
    ensures Sextets(p + (q + (r + (t + rest)))) == [Number(p), Number(q), Number(r), Number(t)] + Sextets(rest)
  {
    SixFirst(p, q + (r + (t + rest)));
    SixFirst(q, r + (t + rest));
    SixFirst(r, t + rest);
    SixFirst(t, rest);
  }

  lemma TwoSextets(a: Byte, b: Byte)
    ensures Sextets(BitsOf(a) + BitsOf(b)) == Numbers(a, b, 0)[..3]
  {
    var x, y, z := BitsOf(a), BitsOf(b), BitsOf(0);
    var p, q, r := x[..6], x[6..] + y[..4], y[4..];
    assert x + y == p + (q + r);
    SixFirst(p, q + r);
    SixFirst(q, r);
    assert (r + [0, 0, 0, 0, 0])[..6] == y[4..] + z[..2];
    FourNumbers(a, b, 0);
  }

  lemma OneSextets(a: Byte)
    ensures Sextets(BitsOf(a)) == Numbers(a, 0, 0)[..2]
  {
    var x, z := BitsOf(a), BitsOf(0);
    var p, q := x[..6], x[6..];
    assert x == p + q;
    SixFirst(p, q);
    assert (q + [0, 0, 0, 0, 0])[..6] == x[6..] + z[..4];
    FourNumbers(a, 0, 0);
  }

  lemma GroupSpells(a: Byte, b: Byte, c: Byte)
    ensures AllSpell(Group(a, b, c), Numbers(a, b, c))
  {
    DigitSpells(a / 4);
    DigitSpells(a % 4 * 16 + b / 16);
    DigitSpells(b % 16 * 4 + c / 64);
    DigitSpells(c % 64);
  }

  lemma SpellFirst(text: string, values: seq<nat>, n: nat)
    requires AllSpell(text, values) && n <= |text|
    ensures AllSpell(text[..n], values[..n])
  {
  }

  lemma EncodeOne(a: Byte)
    ensures AllSpell(Encode([a]), Sextets(Bits([a])))
  {
    GroupSpells(a, 0, 0);
    OneSextets(a);
    SpellFirst(Group(a, 0, 0), Numbers(a, 0, 0), 2);
    assert [a][1..] == [] && Bits([a]) == BitsOf(a) + [] == BitsOf(a);
  }

  lemma EncodeTwo(a: Byte, b: Byte)
    ensures AllSpell(Encode([a, b]), Sextets(Bits([a, b])))
  {
    GroupSpells(a, b, 0);
    TwoSextets(a, b);
    SpellFirst(Group(a, b, 0), Numbers(a, b, 0), 3);
    assert [b][1..] == [] && Bits([b]) == BitsOf(b) + [] == BitsOf(b);
    assert [a, b][1..] == [b] && Bits([a, b]) == BitsOf(a) + BitsOf(b);
  }

  lemma {:induction false} EncodeFew(bytes: Bytes)
    requires |bytes| < 3
    ensures AllSpell(Encode(bytes), Sextets(Bits(bytes)))
  {
    if |bytes| == 1 {
      EncodeOne(bytes[0]);
      assert bytes == [bytes[0]];
    } else if |bytes| == 2 {
      EncodeTwo(bytes[0], bytes[1]);
      assert bytes == [bytes[0], bytes[1]];
    }
  }

  lemma {:induction false} SextetsMany(bytes: Bytes)
    requires |bytes| >= 3
    ensures Sextets(Bits(bytes)) == Numbers(bytes[0], bytes[1], bytes[2]) + Sextets(Bits(bytes[3..]))
  {
    ThreeBits(bytes);
    ThreeSextets(bytes[0], bytes[1], bytes[2], Bits(bytes[3..]));
  }

  /** A token spells its bytes six bits at a time, the highest first, in the base64url alphabet, and has no padding. */
  lemma {:induction false} EncodeIs(bytes: Bytes)
    ensures AllSpell(Encode(bytes), Sextets(Bits(bytes)))
    decreases |bytes|
  {
    if |bytes| < 3 {
      EncodeFew(bytes);
    } else {
      EncodeIs(bytes[3..]);
      GroupSpells(bytes[0], bytes[1], bytes[2]);
      SextetsMany(bytes);
      SpellConcat(Group(bytes[0], bytes[1], bytes[2]), Encode(bytes[3..]), Numbers(bytes[0], bytes[1], bytes[2]),
                  Sextets(Bits(bytes[3..])));
    }
  }

  lemma {:induction false} ThreeBits(bytes: Bytes)
    requires |bytes| >= 3
    ensures Bits(bytes) == BitsOf(bytes[0]) + BitsOf(bytes[1]) + BitsOf(bytes[2]) + Bits(bytes[3..])
  {
    assert bytes[1..][1..] == bytes[2..] && bytes[2..][1..] == bytes[3..];
    assert Bits(bytes[2..]) == BitsOf(bytes[2]) + Bits(bytes[3..]);
    assert Bits(bytes[1..]) == BitsOf(bytes[1]) + Bits(bytes[2..]);
  }

  ghost predicate IsDigit(c: char) {
    exists v :: Spells(c, v)
  }

  lemma ValueSpells(c: char)
    requires ValueOf(c).Some?
    ensures Spells(c, ValueOf(c).value) && IsDigit(c)
  {
  }

  lemma {:induction false} FirstDigits(text: string)
    requires Decode(text).Some?
    ensures |text| != 1 && forall c | c in (if |text| < 4 then text else text[..4]) :: IsDigit(c)
    ensures |text| >= 4 ==> Decode(text[4..]).Some?
  {
    if |text| >= 2 {
      ValueSpells(text[0]);
      ValueSpells(text[1]);
    }
    if |text| >= 3 {
      ValueSpells(text[2]);
    }
    if |text| >= 4 {
      ValueSpells(text[3]);
    }
  }

  lemma DigitsConcat(a: string, b: string)
    requires (forall c | c in a :: IsDigit(c)) && forall c | c in b :: IsDigit(c)
    ensures forall c | c in a + b :: IsDigit(c)
  {
  }

  ghost predicate DigitsAlone(text: string) {
    (forall c | c in text :: IsDigit(c)) && |text| % 4 != 1
  }

  lemma FourMore(text: string)
    requires |text| >= 4 && (forall c | c in text[..4] :: IsDigit(c)) && DigitsAlone(text[4..])
    ensures DigitsAlone(text)
  {
    DigitsConcat(text[..4], text[4..]);
    assert text == text[..4] + text[4..];
  }

  /** What holds of fewer than four characters, and of a text when it holds of the text but its first four, holds of all. */
  lemma {:induction false} ByFours(p: string -> bool, text: string)
    requires forall few: string | |few| < 4 :: p(few)
    requires forall more: string | |more| >= 4 && p(more[4..]) :: p(more)
    ensures p(text)
    decreases |text|
  {
    if |text| >= 4 {
      ByFours(p, text[4..]);
    }
  }

  /** A text that decodes is made of these digits alone, with no digit too many. */
  lemma {:induction false} DecodesDigits(text: string)
    requires Decode(text).Some?
    ensures forall c | c in text :: IsDigit(c)
    ensures |text| % 4 != 1
  {
    ghost var alone := (t: string) => Decode(t).Some? ==> DigitsAlone(t);
    forall few: string | |few| < 4
      ensures alone(few)
    {
      FewDigits(few);
    }
    forall more: string | |more| >= 4 && alone(more[4..])
      ensures alone(more)
    {
      MoreDigits(more);
    }
    ByFours(alone, text);
  }

  lemma {:induction false} FewDigits(text: string)
    requires |text| < 4
    ensures Decode(text).Some? ==> DigitsAlone(text)
  {
    if Decode(text).Some? {
      FirstDigits(text);
    }
  }

  lemma {:induction false} MoreDigits(text: string)
    requires |text| >= 4 && (Decode(text[4..]).Some? ==> DigitsAlone(text[4..]))
    ensures Decode(text).Some? ==> DigitsAlone(text)
  {
    if Decode(text).Some? {
      FirstDigits(text);
      FourMore(text);
    }
  }
}
