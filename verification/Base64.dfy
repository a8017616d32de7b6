/** Decoding base64 text, also into the buffer it stands in. */
module Base64 {

  type Byte = bv8

  const XX: Byte := 255
  const PAD: Byte := 61
  const NUL: Byte := 0

  /** index_b64: the value of a character of the alphabet, and XX for any other. */
  function Index(c: Byte): Byte {
    if 65 <= c <= 90 then c - 65
    else if 97 <= c <= 122 then c - 71
    else if 48 <= c <= 57 then c + 4
    else if c == 43 then 62
    else if c == 47 then 63
    else XX
  }

  predicate Ends(c: Byte) {
    c == NUL || c == PAD
  }

  /** The values of the characters from `i` up to a pad or the null, other characters passed over. */
  function Values(s: seq<Byte>, i: nat): seq<Byte>
    requires i <= |s|
    decreases |s| - i
  {
    if i == |s| || Ends(s[i]) then []
    else if Index(s[i]) == XX then Values(s, i + 1)
    else [Index(s[i])] + Values(s, i + 1)
  }

  /** The bytes that the second, third and fourth value of a group complete. */
  function Byte1(a: Byte, b: Byte): Byte {
    (a << 2) | (b >> 4)
  }

  function Byte2(b: Byte, c: Byte): Byte {
    ((b & 0x0f) << 4) | (c >> 2)
  }

  function Byte3(c: Byte, d: Byte): Byte {
    ((c & 0x03) << 6) | d
  }

  /** Four values to three bytes; of the last two or three values one or two bytes. */
  function Bytes(v: seq<Byte>): seq<Byte> {
    if |v| < 2 then []
    else if |v| == 2 then [Byte1(v[0], v[1])]
    else if |v| == 3 then [Byte1(v[0], v[1]), Byte2(v[1], v[2])]
    else [Byte1(v[0], v[1]), Byte2(v[1], v[2]), Byte3(v[2], v[3])] + Bytes(v[4..])
  }

  function Decoded(s: seq<Byte>): seq<Byte> {
    Bytes(Values(s, 0))
  }

  // ----- the encoding of section 6.8 of RFC 2045

  function Chars(first: char, n: nat): (s: string)
    requires first as int + n < 128
    ensures |s| == n && forall i :: 0 <= i < n ==> s[i] as int == first as int + i
  {
    seq(n, i requires 0 <= i < n => (first as int + i) as char)
  }

  /** The characters of the values 0 to 63, in order. */
  const ALPHABET: string := Chars('A', 26) + Chars('a', 26) + Chars('0', 10) + ['+', '/']

  lemma AlphabetIs()
    ensures ALPHABET == "ABCDEFGHIJKLMNOPQRSTUVWXYZ" + "abcdefghijklmnopqrstuvwxyz" + "0123456789" + "+/"
  {
    hide Chars;
    Capitals();
    Smalls();
    assert Chars('0', 10) == "0123456789";
  }

  lemma Capitals()
    ensures Chars('A', 26) == "ABCDEFGHIJKLMNOPQRSTUVWXYZ"
  {
  }

  lemma Smalls()
    ensures Chars('a', 26) == "abcdefghijklmnopqrstuvwxyz"
  {
  }

  function AsChar(c: Byte): char {
    c as int as char
  }

  predicate InAlphabet(c: Byte) {
    AsChar(c) in ALPHABET
  }

  /** The table holds for each character its place in the alphabet, and XX for those that are not there. */
  lemma IndexIs(c: Byte)
    ensures |ALPHABET| == 64
    ensures forall i :: 0 <= i < 64 ==> (ALPHABET[i] == AsChar(c) <==> Index(c) as int == i)
    ensures Index(c) == XX <==> !InAlphabet(c)
  {
    AlphabetAt();
    IndexInt(c);
    if Index(c) != XX { assert ALPHABET[Index(c) as int] == AsChar(c); }
  }

  function Code(i: int): int {
    if i < 26 then i + 65 else if i < 52 then i + 71 else if i < 62 then i - 4 else if i == 62 then 43 else 47
  }

  function Place(n: int): int {
    if 65 <= n <= 90 then n - 65 else if 97 <= n <= 122 then n - 71 else if 48 <= n <= 57 then n + 4
    else if n == 43 then 62 else if n == 47 then 63 else 255
  }

  /** The alphabet and the table in numbers. */
  lemma AlphabetAt()
    ensures |ALPHABET| == 64
    ensures forall i :: 0 <= i < 64 ==> ALPHABET[i] as int == Code(i)
  {
  }

  lemma IndexInt(c: Byte)
    ensures Index(c) as int == Place(c as int) && (Index(c) == XX <==> Index(c) as int == 255)
  {
  }

  /** The character for a value. */
  function Letter(v: Byte): (c: Byte)
    requires v < 64
    ensures AsChar(c) == ALPHABET[v as int]
  {
    LetterInt(v);
    AlphabetAt();
    Coded(v)
  }

  function Coded(v: Byte): Byte {
    if v < 26 then v + 65 else if v < 52 then v + 71 else if v < 62 then v - 4 else if v == 62 then 43 else 47
  }

  lemma LetterInt(v: Byte)
    requires v < 64
    ensures v as int < 64 && Coded(v) as int == Code(v as int)
  {
  }

  function Sixes(b: seq<Byte>): (v: seq<Byte>)
    requires 1 <= |b| <= 3
    ensures |v| == |b| + 1 && forall i :: 0 <= i < |v| ==> v[i] < 64
  {
    if |b| == 1 then [b[0] >> 2, (b[0] & 3) << 4]
    else if |b| == 2 then [b[0] >> 2, ((b[0] & 3) << 4) | (b[1] >> 4), (b[1] & 15) << 2]
    else [b[0] >> 2, ((b[0] & 3) << 4) | (b[1] >> 4), ((b[1] & 15) << 2) | (b[2] >> 6), b[2] & 63]
  }

  /** The bits of a group in one number, first byte or value first; what is missing at the end is 0. */
  function ByteBits(b: seq<Byte>): bv32
    requires 1 <= |b| <= 3
  {
    (b[0] as bv32 << 16) | (if |b| > 1 then b[1] as bv32 << 8 else 0) | (if |b| > 2 then b[2] as bv32 else 0)
  }

  function ValueBits(v: seq<Byte>): bv32
    requires 2 <= |v| <= 4
  {
    (v[0] as bv32 << 18) | (v[1] as bv32 << 12) | (if |v| > 2 then v[2] as bv32 << 6 else 0)
      | (if |v| > 3 then v[3] as bv32 else 0)
  }

  /** The values of a group are its bits taken six at a time. */
  lemma SixesBits(b: seq<Byte>)
    requires 1 <= |b| <= 3
    ensures ValueBits(Sixes(b)) == ByteBits(b)
  {
    if |b| == 1 {
      OneBits(b[0]);
    } else if |b| == 2 {
      TwoBits(b[0], b[1]);
    } else {
      OfThree(b);
    }
  }

  lemma OfThree(b: seq<Byte>)
    requires |b| == 3
    ensures ValueBits(Sixes(b)) == ByteBits(b)
  {
    ThreeBits(b[0], b[1], b[2]);
  }

  lemma OneBits(a: Byte)
    ensures a as bv32 << 16 == (((a >> 2) as bv32 << 18) | (((a & 3) << 4) as bv32 << 12))
  {
  }

  lemma TwoBits(a: Byte, b: Byte)
    ensures (a as bv32 << 16) | (b as bv32 << 8) ==
      ((a >> 2) as bv32 << 18) | ((((a & 3) << 4) | (b >> 4)) as bv32 << 12) | (((b & 15) << 2) as bv32 << 6)
  {
  }

  lemma ThreeBits(a: Byte, b: Byte, c: Byte)
    ensures (a as bv32 << 16) | (b as bv32 << 8) | c as bv32 ==
      ((a >> 2) as bv32 << 18) | ((((a & 3) << 4) | (b >> 4)) as bv32 << 12)
      | ((((b & 15) << 2) | (c >> 6)) as bv32 << 6) | (c & 63) as bv32
  {
  }

  function Letters(v: seq<Byte>): (s: seq<Byte>)
    requires forall i :: 0 <= i < |v| ==> v[i] < 64
    ensures |s| == |v| && forall i :: 0 <= i < |v| ==> s[i] == Letter(v[i])
  {
    seq(|v|, i requires 0 <= i < |v| => Letter(v[i]))
  }

  /** Three bytes to four characters; at the end pads for the bytes that are missing. */
  function Encode(b: seq<Byte>): seq<Byte> {
    if b == [] then []
    else if |b| == 1 then Letters(Sixes(b)) + [PAD, PAD]
    else if |b| == 2 then Letters(Sixes(b)) + [PAD]
    else Letters(Sixes(b[..3])) + Encode(b[3..])
  }

  /** The values that stand for the bytes. */
  function AllSixes(b: seq<Byte>): seq<Byte> {
    if b == [] then [] else if |b| <= 3 then Sixes(b) else Sixes(b[..3]) + AllSixes(b[3..])
  }

  /** A text without the characters that are neither of the alphabet nor a pad or null. */
  function Plain(s: seq<Byte>): seq<Byte> {
    if s == [] then []
    else (if InAlphabet(s[0]) || s[0] == PAD || s[0] == NUL then [s[0]] else []) + Plain(s[1..])
  }

  lemma LetterIndex(v: Byte)
    requires v < 64
    ensures Index(Letter(v)) == v && !Ends(Letter(v)) && v != XX
  {
  }

  lemma SixesSmall(b: seq<Byte>)
    requires 1 <= |b| <= 3
    ensures forall i :: 0 <= i < |Sixes(b)| ==> Sixes(b)[i] < 64
    ensures Bytes(Sixes(b)) == b
  {
    if |b| == 3 { assert Sixes(b)[4..] == []; }
  }

  /** Four values and those after them. */
  lemma FourFirst(v: seq<Byte>, w: seq<Byte>)
    requires |v| == 4
    ensures Bytes(v + w) == Bytes(v) + Bytes(w)
  {
    hide Byte1, Byte2, Byte3;
    assert (v + w)[4..] == w && v[4..] == [];
  }

  lemma {:induction false} SixesAreBytes(b: seq<Byte>)
    ensures Bytes(AllSixes(b)) == b
    ensures forall i :: 0 <= i < |AllSixes(b)| ==> AllSixes(b)[i] < 64
  {
    hide Bytes, Sixes;
    if b == [] {
      NoBytes();
    } else if |b| <= 3 {
      SixesSmall(b);
    } else {
      SixesSmall(b[..3]);
      SixesAreBytes(b[3..]);
      FourSixes(b[..3]);
      FourFirst(Sixes(b[..3]), AllSixes(b[3..]));
      assert b == b[..3] + b[3..];
    }
  }

  lemma NoBytes()
    ensures Bytes([]) == []
  {
  }

  lemma FourSixes(b: seq<Byte>)
    requires 1 <= |b| <= 3
    ensures |Sixes(b)| == |b| + 1
  {
  }

  /** The bytes are the bits of two, three or four values, without those that make no whole byte. */
  predicate SameBits(v: seq<Byte>, b: seq<Byte>)
    requires 2 <= |v| <= 4 && |b| == |v| - 1
  {
    ByteBits(b) == ValueBits(v) & if |v| == 2 then 0xff0000 else if |v| == 3 then 0xffff00 else 0xffffff
  }

  /**
   * The bytes of any values: each group of values after whole groups, a shorter one only at the end, makes its bits'
   * whole bytes, at their place, and a single value at the end makes none.
   */
  lemma BytesBits(u: seq<Byte>, v: seq<Byte>, w: seq<Byte>)
    requires |u| % 4 == 0 && 1 <= |v| <= 4 && (|v| == 4 || w == []) && forall i :: 0 <= i < |v| ==> v[i] < 64
    ensures |Bytes(u)| == |u| / 4 * 3 && |Bytes(v)| == |v| - 1
    ensures Bytes(u + v + w) == Bytes(u) + Bytes(v) + Bytes(w)
    ensures |v| > 1 ==> SameBits(v, Bytes(v))
  {
    hide Bytes, SameBits, Byte1, Byte2, Byte3;
    GroupsFirst(u, v + w);
    assert u + v + w == u + (v + w);
    if |v| == 4 {
      FourFirst(v, w);
    } else {
      NoBytes();
      assert v + w == v && Bytes(v) + [] == Bytes(v);
    }
    if |v| == 1 {
      Few(v[0], 0, 0, 0);
      assert v == [v[0]];
    } else {
      OneGroup(v);
    }
  }

  lemma {:induction false} GroupsFirst(u: seq<Byte>, w: seq<Byte>)
    requires |u| % 4 == 0
    ensures |Bytes(u)| == |u| / 4 * 3 && Bytes(u + w) == Bytes(u) + Bytes(w)
  {
    hide Bytes, Byte1, Byte2, Byte3;
    if u == [] {
      NoBytes();
      assert u + w == w;
    } else {
      var v, x := u[..4], u[4..];
      GroupsFirst(x, w);
      FourFirst(v, x);
      FourFirst(v, x + w);
      Few(u[0], u[1], u[2], u[3]);
      assert v == [u[0], u[1], u[2], u[3]] && u == v + x && u + w == v + (x + w);
    }
  }

  lemma OneGroup(v: seq<Byte>)
    requires 2 <= |v| <= 4 && forall i :: 0 <= i < |v| ==> v[i] < 64
    ensures |Bytes(v)| == |v| - 1 && SameBits(v, Bytes(v))
  {
    hide Bytes, SameBits;
    if |v| == 2 { TwoWhole(v); } else if |v| == 3 { ThreeWhole(v); } else { OneWhole(v); }
  }

  lemma TwoWhole(v: seq<Byte>)
    requires |v| == 2 && forall i :: 0 <= i < |v| ==> v[i] < 64
    ensures |Bytes(v)| == 1 && SameBits(v, Bytes(v))
  {
    hide Byte1;
    TwoValues(v[0], v[1]);
  }

  lemma ThreeWhole(v: seq<Byte>)
    requires |v| == 3 && forall i :: 0 <= i < |v| ==> v[i] < 64
    ensures |Bytes(v)| == 2 && SameBits(v, Bytes(v))
  {
    hide Byte1, Byte2;
    ThreeValues(v[0], v[1], v[2]);
  }

  lemma OneWhole(v: seq<Byte>)
    requires |v| == 4 && forall i :: 0 <= i < |v| ==> v[i] < 64
    ensures |Bytes(v)| == 3 && SameBits(v, Bytes(v))
  {
    hide Byte1, Byte2, Byte3;
    FourValues(v[0], v[1], v[2], v[3]);
    Few(v[0], v[1], v[2], v[3]);
    assert v == [v[0], v[1], v[2], v[3]];
  }

  lemma TwoValues(a: Byte, b: Byte)
    requires a < 64 && b < 64
    ensures Byte1(a, b) as bv32 << 16 == ((a as bv32 << 18) | (b as bv32 << 12)) & 0xff0000
  {
  }

  lemma ThreeValues(a: Byte, b: Byte, c: Byte)
    requires a < 64 && b < 64 && c < 64
    ensures (Byte1(a, b) as bv32 << 16) | (Byte2(b, c) as bv32 << 8)
      == ((a as bv32 << 18) | (b as bv32 << 12) | (c as bv32 << 6)) & 0xffff00
  {
  }

  lemma FourValues(a: Byte, b: Byte, c: Byte, d: Byte)
    requires a < 64 && b < 64 && c < 64 && d < 64
    ensures (Byte1(a, b) as bv32 << 16) | (Byte2(b, c) as bv32 << 8) | Byte3(c, d) as bv32
      == ((a as bv32 << 18) | (b as bv32 << 12) | (c as bv32 << 6) | d as bv32) & 0xffffff
  {
  }

  // ----- the text and its values

  lemma {:induction false} ValuesOfLetters(v: seq<Byte>, rest: seq<Byte>)
    requires forall i :: 0 <= i < |v| ==> v[i] < 64
    ensures Values(Letters(v) + rest, 0) == v + Values(rest, 0)
  {
    if v == [] {
      assert Letters(v) + rest == rest;
      assert v + Values(rest, 0) == Values(rest, 0);
    } else {
      var s := Letters(v) + rest;
      LetterIndex(v[0]);
      ValuesOfLetters(v[1..], rest);
      assert s[1..] == Letters(v[1..]) + rest;
      ValuesFrom(s, 1);
      assert v + Values(rest, 0) == [v[0]] + (v[1..] + Values(rest, 0));
    }
  }

  /** Values are the same in the text from `i` on. */
  lemma {:induction false} ValuesFrom(s: seq<Byte>, i: nat)
    requires i <= |s|
    ensures Values(s, i) == Values(s[i..], 0)
    decreases |s| - i
  {
    if i < |s| {
      ValuesFrom(s, i + 1);
      ValuesFrom(s[i..], 1);
      assert s[i..][1..] == s[i + 1..];
    }
  }

  lemma {:induction false} EncodedValues(b: seq<Byte>)
    ensures Values(Encode(b), 0) == AllSixes(b)
  {
    hide Sixes, Letters;
    if b == [] {
    } else if |b| < 3 {
      SixesSmall(b);
      var pads := if |b| == 1 then [PAD, PAD] else [PAD];
      ValuesOfLetters(Sixes(b), pads);
      assert Values(pads, 0) == [];
      assert Sixes(b) + [] == Sixes(b);
    } else {
      SixesSmall(b[..3]);
      EncodedValues(b[3..]);
      ValuesOfLetters(Sixes(b[..3]), Encode(b[3..]));
      if |b| == 3 {
        assert b[..3] == b && b[3..] == [];
        assert Sixes(b) + [] == Sixes(b);
      }
    }
  }

  /** Characters outside the alphabet make no difference. */
  lemma {:induction false} ValuesOfPlain(s: seq<Byte>)
    ensures Values(Plain(s), 0) == Values(s, 0)
  {
    if s != [] {
      ValuesFrom(s, 1);
      if Ends(s[0]) {
      } else {
        ValuesOfPlain(s[1..]);
        IndexIs(s[0]);
        if Index(s[0]) == XX {
          assert Plain(s) == Plain(s[1..]);
        } else {
          ValuesFrom([s[0]] + Plain(s[1..]), 1);
          assert Plain(s)[1..] == Plain(s[1..]);
        }
      }
    }
  }

  /** A null or a pad ends the text. */
  lemma {:induction false} ValuesUpTo(s: seq<Byte>, end: Byte, rest: seq<Byte>)
    requires end == NUL || end == PAD
    ensures Values(s + [end] + rest, 0) == Values(s, 0)
  {
    var t := s + [end] + rest;
    if s != [] && !Ends(s[0]) {
      ValuesUpTo(s[1..], end, rest);
      ValuesFrom(s, 1);
      ValuesFrom(t, 1);
      assert t[1..] == s[1..] + [end] + rest;
    }
  }

  /** What stands after the first null or pad does not matter. */
  lemma EndsText(s: seq<Byte>, end: Byte, rest: seq<Byte>)
    requires end == NUL || end == PAD
    ensures Decoded(s + [end] + rest) == Decoded(s)
  {
    hide Bytes, Values;
    ValuesUpTo(s, end, rest);
  }

  /**
   * Any bytes, encoded and with characters outside the alphabet put in anywhere, are decoded to the same bytes.
   */
  lemma DecodesEncoding(b: seq<Byte>, text: seq<Byte>, rest: seq<Byte>)
    requires Plain(text) == Encode(b)
    ensures Decoded(text + [NUL] + rest) == b
  {
    ValuesUpTo(text, NUL, rest);
    ValuesOfPlain(text);
    EncodedValues(b);
    SixesAreBytes(b);
  }

  // ----- the decoder

  /** There is a null at `i` or after. */
  predicate Ended(s: seq<Byte>, i: nat)
    requires i <= |s|
  {
    NUL in s[i..]
  }

  lemma OneCharacter(s: seq<Byte>, i: nat)
    requires i <= |s| && Ended(s, i)
    ensures i < |s| && (s[i] != NUL ==> Ended(s, i + 1))
    ensures Values(s, i) == if Ends(s[i]) then [] else if Index(s[i]) == XX then Values(s, i + 1)
      else [Index(s[i])] + Values(s, i + 1)
  {
    assert s[i..] == [s[i]] + s[i + 1..];
  }

  /** The part of a buffer that is still to be read holds what it held. */
  ghost predicate Unread(src: array<Byte>, f0: nat, f: nat, s: seq<Byte>)
    requires f0 + |s| == src.Length && f0 <= f <= src.Length
    reads src
  {
    src[f..] == s[f - f0..]
  }

  /** The values `u` have been read, and the next place to read is `f`. */
  ghost predicate Read(src: array<Byte>, f0: nat, f: nat, s: seq<Byte>, u: seq<Byte>)
    requires f0 + |s| == src.Length && f0 <= f <= src.Length
    reads src
  {
    Values(s, 0) == u + Values(s, f - f0) && Unread(src, f0, f, s) && Ended(s, f - f0)
  }

  /** The bytes of the values `u` have been written from `t0` to `t`. */
  ghost predicate Wrote(dst: array<Byte>, t0: nat, t: nat, was: seq<Byte>, u: seq<Byte>)
    requires |was| == dst.Length && t0 <= t <= dst.Length
    reads dst
  {
    t == t0 + |Bytes(u)| && dst[..] == was[..t0] + Bytes(u) + was[t..]
  }

  /** The byte that one more value completes; the first of a group completes none. */
  function Completed(u: seq<Byte>, ch: Byte): seq<Byte> {
    if |u| % 4 == 0 then []
    else
      var last := u[|u| - 1];
      [if |u| % 4 == 1 then Byte1(last, ch) else if |u| % 4 == 2 then Byte2(last, ch) else Byte3(last, ch)]
  }

  lemma Few(a: Byte, b: Byte, c: Byte, d: Byte)
    ensures Bytes([a]) == [] && Bytes([a, b]) == [Byte1(a, b)] && Bytes([a, b, c]) == [Byte1(a, b), Byte2(b, c)]
    ensures Bytes([a, b, c, d]) == [Byte1(a, b), Byte2(b, c), Byte3(c, d)]
  {
    hide Byte1, Byte2, Byte3;
    assert [a, b, c, d][4..] == [];
  }

  lemma AfterOne(a: Byte, ch: Byte)
    ensures Bytes([a] + [ch]) == Bytes([a]) + Completed([a], ch)
  {
    hide Bytes, Byte1, Byte2, Byte3;
    Few(a, ch, 0, 0);
    assert [a] + [ch] == [a, ch];
  }

  lemma AfterTwo(a: Byte, b: Byte, ch: Byte)
    ensures Bytes([a, b] + [ch]) == Bytes([a, b]) + Completed([a, b], ch)
  {
    hide Bytes, Byte1, Byte2, Byte3;
    Few(a, b, ch, 0);
    assert [a, b] + [ch] == [a, b, ch];
  }

  lemma AfterThree(a: Byte, b: Byte, c: Byte, ch: Byte)
    ensures Bytes([a, b, c] + [ch]) == Bytes([a, b, c]) + Completed([a, b, c], ch)
  {
    hide Bytes, Byte1, Byte2, Byte3;
    Few(a, b, c, ch);
    assert [a, b, c] + [ch] == [a, b, c, ch];
  }

  lemma InFirstGroup(u: seq<Byte>, ch: Byte)
    requires |u| < 4
    ensures Bytes(u + [ch]) == Bytes(u) + Completed(u, ch)
  {
    hide Bytes, Completed;
    if |u| == 0 {
      NoBytes();
      Few(ch, 0, 0, 0);
      assert u + [ch] == [ch] && u == [];
      CompletedIs(u, 0, ch);
    } else if |u| == 1 {
      assert u == [u[0]];
      AfterOne(u[0], ch);
    } else if |u| == 2 {
      assert u == [u[0], u[1]];
      AfterTwo(u[0], u[1], ch);
    } else {
      assert u == [u[0], u[1], u[2]];
      AfterThree(u[0], u[1], u[2], ch);
    }
  }

  lemma AfterGroup(u: seq<Byte>, ch: Byte)
    requires 4 <= |u|
    ensures Completed(u, ch) == Completed(u[4..], ch)
  {
    hide Byte1, Byte2, Byte3;
    if |u| > 4 { assert u[4..][|u| - 5] == u[|u| - 1]; }
  }

  lemma CompletedIs(u: seq<Byte>, last: Byte, ch: Byte)
    requires u == [] || u[|u| - 1] == last
    ensures Completed(u, ch) ==
      if |u| % 4 == 0 then []
      else [if |u| % 4 == 1 then Byte1(last, ch) else if |u| % 4 == 2 then Byte2(last, ch) else Byte3(last, ch)]
  {
  }

  lemma {:induction false} NextByte(u: seq<Byte>, ch: Byte)
    ensures Bytes(u + [ch]) == Bytes(u) + Completed(u, ch)
  {
    hide Bytes, Completed, Byte1, Byte2, Byte3;
    if 4 <= |u| {
      FourFirst(u[..4], u[4..]);
      FourFirst(u[..4], u[4..] + [ch]);
      assert u == u[..4] + u[4..] && u + [ch] == u[..4] + (u[4..] + [ch]);
      NextByte(u[4..], ch);
      AfterGroup(u, ch);
    } else {
      InFirstGroup(u, ch);
    }
  }

  lemma After(u: seq<Byte>, last: Byte, ch: Byte)
    requires u == [] || u[|u| - 1] == last
    ensures Bytes(u + [ch]) == Bytes(u) +
      if |u| % 4 == 0 then []
      else [if |u| % 4 == 1 then Byte1(last, ch) else if |u| % 4 == 2 then Byte2(last, ch) else Byte3(last, ch)]
  {
    hide Bytes, Completed, Byte1, Byte2, Byte3;
    NextByte(u, ch);
    CompletedIs(u, last, ch);
  }

  /** More values make no fewer bytes. */
  lemma {:induction false} BytesGrow(u: seq<Byte>, rest: seq<Byte>)
    ensures |Bytes(u)| <= |Bytes(u + rest)|
    decreases |rest|
  {
    hide Bytes;
    if rest == [] {
      assert u + rest == u;
    } else {
      NextByte(u, rest[0]);
      BytesGrow(u + [rest[0]], rest[1..]);
      assert u + [rest[0]] + rest[1..] == u + rest;
    }
  }

  /** The next character of the alphabet; not `more` when a pad or the null comes first. */
  method Next(src: array<Byte>, from: nat, ghost f0: nat, ghost s: seq<Byte>, ghost u: seq<Byte>)
      returns (more: bool, ch: Byte, f: nat)
    requires f0 + |s| == src.Length && f0 <= from <= src.Length && Read(src, f0, from, s, u)
    ensures from <= f <= src.Length
    ensures more ==> from < f && Read(src, f0, f, s, u + [ch])
    ensures !more ==> Values(s, 0) == u && Read(src, f0, f, s, u) && f < src.Length
  {
    hide Values, Index, Ended;
    f := from;
    while true
      invariant from <= f <= src.Length && Unread(src, f0, f, s) && Ended(s, f - f0)
      invariant Values(s, 0) == u + Values(s, f - f0)
      decreases src.Length - f
    {
      OneCharacter(s, f - f0);
      assert src[f] == src[f..][0];
      if src[f] == NUL || src[f] == PAD { return false, XX, f; }
      ch := Index(src[f]);
      f := f + 1;
      if ch != XX {
        assert u + ([ch] + Values(s, f - f0)) == u + [ch] + Values(s, f - f0);
        return true, ch, f;
      }
    }
  }

  /** A byte put after those that have been written. */
  lemma PutAfter(now: seq<Byte>, before: seq<Byte>, was: seq<Byte>, t0: nat, t: nat, out: seq<Byte>, b: Byte)
    requires |was| == |before| && t0 <= t < |was| && before == was[..t0] + out + was[t..] && t == t0 + |out|
      && now == before[t := b]
    ensures now == was[..t0] + (out + [b]) + was[t + 1..]
  {
  }

  /** A byte written before what is to be read, or in another buffer, leaves that as it was. */
  lemma StillUnread(src: array<Byte>, f0: nat, f: nat, s: seq<Byte>, was: seq<Byte>, t: nat, b: Byte)
    requires f0 + |s| == src.Length == |was| && f0 <= f <= src.Length && was[f..] == s[f - f0..]
    requires src[..] == was || (t < f && src[..] == was[t := b])
    ensures Unread(src, f0, f, s)
  {
    assert src[f..] == src[..][f..];
  }

  /** The byte that the last value read completes, written. */
  method Put(dst: array<Byte>, ghost t0: nat, t: nat, b: Byte, src: array<Byte>, ghost f0: nat, ghost f: nat,
      ghost s: seq<Byte>, ghost was: seq<Byte>, ghost u: seq<Byte>, ghost ch: Byte)
    requires f0 + |s| == src.Length && f0 <= f <= src.Length && |was| == dst.Length && t0 <= t <= dst.Length
    requires Read(src, f0, f, s, u + [ch]) && Wrote(dst, t0, t, was, u) && Bytes(u + [ch]) == Bytes(u) + [b]
    requires t0 + |Decoded(s)| < dst.Length && (dst == src ==> t < f)
    modifies dst
    ensures t + 1 < dst.Length && Wrote(dst, t0, t + 1, was, u + [ch]) && Read(src, f0, f, s, u + [ch])
  {
    hide Bytes, Values, Ended;
    BytesGrow(u + [ch], Values(s, f - f0));
    ghost var d, r := dst[..], src[..];
    assert r[f..] == src[f..];
    dst[t] := b;
    assert dst[..] == d[t := b];
    PutAfter(dst[..], d, was, t0, t, Bytes(u), b);
    StillUnread(src, f0, f, s, r, t, b);
  }

  /** Up to four characters of the alphabet, and up to three bytes written for them. */
  method Group(dst: array<Byte>, ghost t0: nat, from: nat, src: array<Byte>, ghost f0: nat, start: nat,
      ghost s: seq<Byte>, ghost was: seq<Byte>, ghost u: seq<Byte>)
    returns (more: bool, t: nat, f: nat, ghost v: seq<Byte>)
    requires f0 + |s| == src.Length && f0 <= start <= src.Length && |was| == dst.Length && t0 <= from <= dst.Length
    requires |u| % 4 == 0 && Read(src, f0, start, s, u) && Wrote(dst, t0, from, was, u)
    requires t0 + |Decoded(s)| < dst.Length && (dst == src ==> from <= start)
    modifies dst
    ensures start <= f <= src.Length && t0 <= t <= dst.Length && (dst == src ==> t <= f)
    ensures Read(src, f0, f, s, v) && Wrote(dst, t0, t, was, v)
    ensures if more then |v| % 4 == 0 && start < f else Values(s, 0) == v && f < src.Length
  {
    hide Bytes, Values, Read, Wrote, Decoded, Completed, Byte1, Byte2, Byte3, Index, Ends, Ended, Unread;
    var ch1, ch2;
    more, t, f, v := true, from, start, u;
    more, ch1, f := Next(src, f, f0, s, v);
    if !more { return; }
    After(v, if v == [] then 0 else v[|v| - 1], ch1);
    SameBytes(dst, t0, t, was, v, v + [ch1]);
    v := v + [ch1];
    more, ch2, f := Next(src, f, f0, s, v);
    if !more { return; }
    After(v, ch1, ch2);
    Put(dst, t0, t, Byte1(ch1, ch2), src, f0, f, s, was, v, ch2);
    v, t := v + [ch2], t + 1;
    more, ch1, f := Next(src, f, f0, s, v);
    if !more { return; }
    After(v, ch2, ch1);
    Put(dst, t0, t, Byte2(ch2, ch1), src, f0, f, s, was, v, ch1);
    v, t := v + [ch1], t + 1;
    more, ch2, f := Next(src, f, f0, s, v);
    if !more { return; }
    After(v, ch1, ch2);
    Put(dst, t0, t, Byte3(ch1, ch2), src, f0, f, s, was, v, ch2);
    v, t := v + [ch2], t + 1;
  }

  lemma SameBytes(dst: array<Byte>, t0: nat, t: nat, was: seq<Byte>, u: seq<Byte>, v: seq<Byte>)
    requires |was| == dst.Length && t0 <= t <= dst.Length && Wrote(dst, t0, t, was, u) && Bytes(v) == Bytes(u)
    ensures Wrote(dst, t0, t, was, v)
  {
  }

  /**
   * b64_decodestring: the bytes that the text at `f0` stands for, up to its null or first pad, written at `t0` with a
   * null after them. The two may be places in one buffer, when the text does not come first.
   */
  method DecodeString(dst: array<Byte>, t0: nat, src: array<Byte>, f0: nat) returns (n: nat)
    requires f0 <= src.Length && NUL in src[f0..] && t0 + |Decoded(src[f0..])| < dst.Length
    requires dst == src ==> t0 <= f0
    modifies dst
    ensures n == |Decoded(old(src[f0..]))| && t0 + n < dst.Length
    ensures dst[..] == old(dst[..t0]) + Decoded(old(src[f0..])) + [NUL] + old(dst[t0 + n + 1..])
  {
    hide Bytes, Values, Index, Ends;
    ghost var s, was := src[f0..], dst[..];
    var more, t, f := true, t0, f0;
    ghost var u: seq<Byte> := [];
    NoBytes();
    assert s[0..] == s && src[f0..] == s;
    assert [] + Values(s, 0) == Values(s, 0);
    assert was[..t0] + [] + was[t0..] == was;
    while more
      invariant f0 <= f <= src.Length && t0 <= t <= dst.Length && (dst == src ==> t <= f)
      invariant Read(src, f0, f, s, u) && Wrote(dst, t0, t, was, u)
      invariant if more then |u| % 4 == 0 else Values(s, 0) == u && f < src.Length
      decreases src.Length - f, more
    {
      more, t, f, u := Group(dst, t0, t, src, f0, f, s, was, u);
    }
    ghost var d := dst[..];
    dst[t] := NUL;
    assert dst[..] == d[t := NUL];
    PutAfter(dst[..], d, was, t0, t, Bytes(u), NUL);
    assert was[t + 1..] == old(dst[..])[t + 1..] == old(dst[t + 1..]);
    n := t - t0;
  }

  lemma {:induction false} EncodeLonger(b: seq<Byte>)
    ensures |b| <= |Encode(b)|
  {
    if |b| > 2 { EncodeLonger(b[3..]); }
  }

  lemma {:induction false} PlainShorter(s: seq<Byte>)
    ensures |Plain(s)| <= |s|
  {
    if s != [] { PlainShorter(s[1..]); }
  }

  /** Encoded bytes, decoded where they stand. */
  method DecodeEncoded(buffer: array<Byte>, ghost b: seq<Byte>, ghost text: seq<Byte>) returns (n: nat)
    requires NUL !in text && Plain(text) == Encode(b) && |text| < buffer.Length && buffer[..|text| + 1] == text + [NUL]
    modifies buffer
    ensures n == |b| <= |text| && buffer[..n] == b && buffer[n] == NUL
  {
    hide Decoded, Encode, Plain;
    ghost var rest := buffer[|text| + 1..];
    assert buffer[0..] == text + [NUL] + rest;
    DecodesEncoding(b, text, rest);
    EncodeLonger(b);
    PlainShorter(text);
    assert buffer[0..][|text|] == NUL;
    n := DecodeString(buffer, 0, buffer, 0);
  }
}
