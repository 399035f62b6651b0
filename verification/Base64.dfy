/**
 Base64 as Rauthy uses it: the standard alphabet (RFC 4648 section 4), the URL-safe alphabet
 (RFC 4648 section 5), the character filter that turns the first into the second, and the strict
 unpadded decoder, which refuses non-zero trailing bits.
 */
module Base64 {
  import opened Wrappers

  type Byte = b: int | 0 <= b < 256
  type Sextet = i: int | 0 <= i < 64

  datatype Alphabet = Standard | UrlSafe

  function Symbol(a: Alphabet, i: Sextet): char {
    if i < 26 then ('A' as int + i) as char
    else if i < 52 then ('a' as int + i - 26) as char
    else if i < 62 then ('0' as int + i - 52) as char
    else if i == 62 then (if a.Standard? then '+' else '-')
    else if a.Standard? then '/' else '_'
  }

  /** The sextet a character of the URL-safe alphabet stands for. */
  function Value(c: char): Option<Sextet> {
    if 'A' <= c <= 'Z' then Some(c as int - 'A' as int)
    else if 'a' <= c <= 'z' then Some(c as int - 'a' as int + 26)
    else if '0' <= c <= '9' then Some(c as int - '0' as int + 52)
    else if c == '-' then Some(62)
    else if c == '_' then Some(63)
    else None
  }

  /** Regroups bytes into sextets; the last sextet of an incomplete group is filled up with zero bits. */
  function Sextets(bs: seq<Byte>): seq<Sextet> {
    if |bs| == 0 then []
    else if |bs| == 1 then [bs[0] / 4, bs[0] % 4 * 16]
    else if |bs| == 2 then [bs[0] / 4, bs[0] % 4 * 16 + bs[1] / 16, bs[1] % 16 * 4]
    else
      [bs[0] / 4, bs[0] % 4 * 16 + bs[1] / 16, bs[1] % 16 * 4 + bs[2] / 64, bs[2] % 64]
      + Sextets(bs[3..])
  }

  /** Regroups sextets into bytes; refuses a lone sextet and filling bits that are not zero. */
  function Bytes(xs: seq<Sextet>): Option<seq<Byte>> {
    if |xs| == 0 then Some([])
    else if |xs| == 1 then None
    else
      var b0 := xs[0] as int * 4 + xs[1] as int / 16;
      if |xs| == 2 then
        if xs[1] % 16 == 0 then Some([b0]) else None
      else
        var b1 := xs[1] as int % 16 * 16 + xs[2] as int / 4;
        if |xs| == 3 then
          if xs[2] % 4 == 0 then Some([b0, b1]) else None
        else
          match Bytes(xs[4..])
          case None => None
          case Some(rest) => Some([b0, b1, xs[2] as int % 4 * 64 + xs[3] as int] + rest)
  }

  function Spell(a: Alphabet, xs: seq<Sextet>): string {
    if xs == [] then "" else [Symbol(a, xs[0])] + Spell(a, xs[1..])
  }

  function Read(s: string): Option<seq<Sextet>> {
    if s == "" then Some([])
    else
      match (Value(s[0]), Read(s[1..]))
      case (Some(i), Some(rest)) => Some([i] + rest)
      case _ => None
  }

  function Padding(length: nat): string {
    match length % 3
    case 0 =>
""
    case 1 =>
"=="
    case _ => "="
  }

  function Encode(a: Alphabet, padded: bool, bs: seq<Byte>): string {
    Spell(a, Sextets(bs)) + if padded then Padding(|bs|) else ""
  }

  /** The character filter of `base64_url_encode`: drops '=' and swaps the two symbols that differ. */
  function ToUrlChars(s: string): string {
    if s == "" then ""
    else
      (match s[0]
       case '=' => ""
       case '+' => "-"
       case '/' => "_"
       case x => [x])
      + ToUrlChars(s[1..])
  }

  function UrlEncode(bs: seq<Byte>): string {
    ToUrlChars(Encode(Standard, true, bs))
  }

  function UrlNoPadEncode(bs: seq<Byte>): string {
    Encode(UrlSafe, false, bs)
  }

  function UrlNoPadDecode(s: string): Option<seq<Byte>> {
    match Read(s)
    case None => None
    case Some(xs) => Bytes(xs)
  }

  lemma {:induction false} ToUrlCharsOfSpelling(xs: seq<Sextet>, padding: string)
    ensures ToUrlChars(Spell(Standard, xs) + padding) == Spell(UrlSafe, xs) + ToUrlChars(padding)
  {
    if xs == [] {
      assert Spell(Standard, xs) + padding == padding;
    } else {
      var s := Spell(Standard, xs) + padding;
      assert s[0] == Symbol(Standard, xs[0]) && s[1..] == Spell(Standard, xs[1..]) + padding;
      ToUrlCharsOfSpelling(xs[1..], padding);
    }
  }

  /** The filtered standard encoding is the unpadded URL-safe encoding, for every byte string. */
  lemma UrlEncodeIsNoPad(bs: seq<Byte>)
    ensures UrlEncode(bs) == UrlNoPadEncode(bs)
  {
    ToUrlCharsOfSpelling(Sextets(bs), Padding(|bs|));
    assert "=="[1..] == "=" && "="[1..] == "";
    assert ToUrlChars("=") == "" && ToUrlChars("==") == "";
  }

  lemma {:induction false} ReadOfSpell(xs: seq<Sextet>)
    ensures Read(Spell(UrlSafe, xs)) == Some(xs)
  {
    if xs != [] {
      ReadOfSpell(xs[1..]);
      assert Spell(UrlSafe, xs)[1..] == Spell(UrlSafe, xs[1..]);
      assert Value(Symbol(UrlSafe, xs[0])) == Some(xs[0]);
      assert xs == [xs[0]] + xs[1..];
    }
  }

  lemma {:induction false} SpellOfRead(s: string)
    requires Read(s).Some?
    ensures Spell(UrlSafe, Read(s).value) == s
  {
    if s != "" {
      SpellOfRead(s[1..]);
      assert Read(s).value[1..] == Read(s[1..]).value;
      assert Symbol(UrlSafe, Value(s[0]).value) == s[0];
    }
  }

  /** A full group of three bytes comes back in front of whatever the rest decodes to. */
  lemma BytesOfGroup(bs: seq<Byte>, rest: seq<Sextet>)
    requires |bs| >= 3 && Bytes(rest) == Some(bs[3..])
    ensures Bytes([bs[0] / 4, bs[0] % 4 * 16 + bs[1] / 16, bs[1] % 16 * 4 + bs[2] / 64, bs[2] % 64] + rest) == Some(bs)
  {
    var group: seq<Sextet> := [bs[0] / 4, bs[0] % 4 * 16 + bs[1] / 16, bs[1] % 16 * 4 + bs[2] / 64, bs[2] % 64];
    assert (group + rest)[4..] == rest;
    assert bs == [bs[0], bs[1], bs[2]] + bs[3..];
  }

  lemma {:induction false} BytesOfSextets(bs: seq<Byte>)
    ensures Bytes(Sextets(bs)) == Some(bs)
  {
    if |bs| == 1 {
      assert bs == [bs[0]];
    } else if |bs| == 2 {
      assert bs == [bs[0], bs[1]];
    } else if |bs| >= 3 {
      BytesOfSextets(bs[3..]);
      BytesOfGroup(bs, Sextets(bs[3..]));
    }
  }

  lemma Regroup(w: Sextet, x: Sextet, y: Sextet, z: Sextet)
    ensures var a, b := w as int * 4 + x as int / 16, x as int % 16 * 16 + y as int / 4;
            var c := y as int % 4 * 64 + z as int;
            && a / 4 == w && a % 4 == x / 16 && b / 16 == x % 16 && b % 16 == y / 4 && c / 64 == y % 4 && c % 64 == z
            && x == x / 16 * 16 + x % 16 && y == y / 4 * 4 + y % 4
  {
  }

  lemma SextetsOfGroup(xs: seq<Sextet>)
    requires |xs| >= 4 && Bytes(xs).Some?
    ensures var bs := Bytes(xs).value;
            && |bs| >= 3 && Bytes(xs[4..]) == Some(bs[3..])
            && [bs[0] / 4, bs[0] % 4 * 16 + bs[1] / 16, bs[1] % 16 * 4 + bs[2] / 64, bs[2] % 64] == xs[..4]
  {
    var bs, rest := Bytes(xs).value, Bytes(xs[4..]).value;
    assert bs == [xs[0] as int * 4 + xs[1] as int / 16, xs[1] as int % 16 * 16 + xs[2] as int / 4,
                  xs[2] as int % 4 * 64 + xs[3] as int] + rest;
    hide Bytes;
    Regroup(xs[0], xs[1], xs[2], xs[3]);
  }

  lemma {:induction false} SextetsOfBytes(xs: seq<Sextet>)
    requires Bytes(xs).Some?
    ensures Sextets(Bytes(xs).value) == xs
  {
    if |xs| >= 4 {
      SextetsOfGroup(xs);
      SextetsOfBytes(xs[4..]);
      hide Bytes;
      assert xs == xs[..4] + xs[4..];
    }
  }

  /** Decoding undoes encoding. */
  lemma DecodeOfEncode(bs: seq<Byte>)
    ensures UrlNoPadDecode(UrlNoPadEncode(bs)) == Some(bs)
  {
    assert UrlNoPadEncode(bs) == Spell(UrlSafe, Sextets(bs));
    ReadOfSpell(Sextets(bs));
    BytesOfSextets(bs);
  }

  /** The decoder accepts nothing but encodings: a text it reads back is the one encoding of its bytes. */
  lemma EncodeOfDecode(s: string)
    requires UrlNoPadDecode(s).Some?
    ensures UrlNoPadEncode(UrlNoPadDecode(s).value) == s
  {
    SpellOfRead(s);
    SextetsOfBytes(Read(s).value);
  }

  /** Two byte strings have the same text exactly when they are equal. */
  lemma UrlEncodeInjective(a: seq<Byte>, b: seq<Byte>)
    ensures UrlEncode(a) == UrlEncode(b) <==> a == b
  {
    UrlEncodeIsNoPad(a);
    UrlEncodeIsNoPad(b);
    DecodeOfEncode(a);
    DecodeOfEncode(b);
  }

  // ---------------------------------------------------------------------------------------------
  // The encoding bit by bit

  const UPPER_CASE: string := "ABCDEFGHIJKLMNOPQRSTUVWXYZ"
  const LOWER_CASE: string := "abcdefghijklmnopqrstuvwxyz"
  const DIGITS_AND_SIGNS: string := "0123456789-_"

  /** The alphabet of RFC 4648 section 5, in order. */
  const URL_ALPHABET: string := UPPER_CASE + LOWER_CASE + DIGITS_AND_SIGNS

  /** Bit j of a byte, from the most significant one. */
  function BitOf(b: Byte, j: nat): int
    requires j < 8
  {
    b / Pow2(7 - j) % 2
  }

  /** Bit n of a byte string, zero past its end. */
  function Bit(bs: seq<Byte>, n: nat): int {
    if n / 8 < |bs| then BitOf(bs[n / 8], n % 8) else 0
  }

  /** The number that the six bits from 6 * k on spell. */
  function SixBits(bs: seq<Byte>, k: nat): int {
    32 * Bit(bs, 6 * k) + 16 * Bit(bs, 6 * k + 1) + 8 * Bit(bs, 6 * k + 2) + 4 * Bit(bs, 6 * k + 3)
    + 2 * Bit(bs, 6 * k + 4) + Bit(bs, 6 * k + 5)
  }

  lemma PowersOfTwo()
    ensures Pow2(0) == 1 && Pow2(1) == 2 && Pow2(2) == 4 && Pow2(3) == 8
    ensures Pow2(4) == 16 && Pow2(5) == 32 && Pow2(6) == 64 && Pow2(7) == 128
  {
    assert Pow2(2) == 4 && Pow2(4) == 16 && Pow2(6) == 64;
  }

  lemma BitsOfByte(b: Byte)
    ensures BitOf(b, 0) == b / 128 % 2 && BitOf(b, 1) == b / 64 % 2 && BitOf(b, 2) == b / 32 % 2
    ensures BitOf(b, 3) == b / 16 % 2 && BitOf(b, 4) == b / 8 % 2 && BitOf(b, 5) == b / 4 % 2
    ensures BitOf(b, 6) == b / 2 % 2 && BitOf(b, 7) == b % 2
  {
    PowersOfTwo();
    hide Pow2;
  }

  lemma QuotientIs(b: nat, p: nat, h: nat, rest: nat)
    requires p >= 1 && b == p * h + rest && rest < p
    ensures b / p == h
  {
    var d := b / p - h;
    assert p * d == rest - b % p;
    assert p * (d - 1) == p * d - p && p * (d + 1) == p * d + p;
  }

  lemma Distributes(p: nat, h: nat, e: nat)
    ensures p * (2 * h + e) == 2 * p * h + p * e
  {
  }

  lemma HalfOfQuotient(b: nat, p: nat)
    requires p >= 1
    ensures b / (2 * p) == b / p / 2
  {
    var q, r := b / p, b % p;
    var h, e := q / 2, q % 2;
    Distributes(p, h, e);
    if e == 0 { QuotientIs(b, 2 * p, h, r); } else { QuotientIs(b, 2 * p, h, p + r); }
  }

  lemma Halves(b: Byte)
    ensures b == 2 * (b / 2) + b % 2 && b / 2 == 2 * (b / 4) + b / 2 % 2 && b / 4 == 2 * (b / 8) + b / 4 % 2
    ensures b / 8 == 2 * (b / 16) + b / 8 % 2 && b / 16 == 2 * (b / 32) + b / 16 % 2
    ensures b / 32 == 2 * (b / 64) + b / 32 % 2 && b / 64 == 2 * (b / 128) + b / 64 % 2 && b / 128 == b / 128 % 2
  {
    HalfOfQuotient(b, 2);
    HalfOfQuotient(b, 4);
    HalfOfQuotient(b, 8);
    HalfOfQuotient(b, 16);
    HalfOfQuotient(b, 32);
    HalfOfQuotient(b, 64);
  }

  /** The parts of a byte that a sextet is put together from. */
  lemma PartsOfByte(b: Byte)
    ensures b / 4 == 32 * BitOf(b, 0) + 16 * BitOf(b, 1) + 8 * BitOf(b, 2) + 4 * BitOf(b, 3) + 2 * BitOf(b, 4)
                     + BitOf(b, 5)
    ensures b % 4 == 2 * BitOf(b, 6) + BitOf(b, 7)
    ensures b / 16 == 8 * BitOf(b, 0) + 4 * BitOf(b, 1) + 2 * BitOf(b, 2) + BitOf(b, 3)
    ensures b % 16 == 8 * BitOf(b, 4) + 4 * BitOf(b, 5) + 2 * BitOf(b, 6) + BitOf(b, 7)
    ensures b / 64 == 2 * BitOf(b, 0) + BitOf(b, 1)
    ensures b % 64 == 32 * BitOf(b, 2) + 16 * BitOf(b, 3) + 8 * BitOf(b, 4) + 4 * BitOf(b, 5) + 2 * BitOf(b, 6)
                      + BitOf(b, 7)
  {
    hide BitOf;
    BitsOfByte(b);
    Halves(b);
    assert b == 4 * (b / 4) + b % 4 == 16 * (b / 16) + b % 16 == 64 * (b / 64) + b % 64;
  }

  lemma BitAt(bs: seq<Byte>, i: nat, j: nat)
    requires j < 8
    ensures Bit(bs, 8 * i + j) == if i < |bs| then BitOf(bs[i], j) else 0
  {
    hide BitOf;
    assert (8 * i + j) / 8 == i && (8 * i + j) % 8 == j;
  }

  lemma BitsAt(bs: seq<Byte>, i: nat)
    ensures i < |bs| ==>
              && Bit(bs, 8 * i) == BitOf(bs[i], 0) && Bit(bs, 8 * i + 1) == BitOf(bs[i], 1)
              && Bit(bs, 8 * i + 2) == BitOf(bs[i], 2) && Bit(bs, 8 * i + 3) == BitOf(bs[i], 3)
              && Bit(bs, 8 * i + 4) == BitOf(bs[i], 4) && Bit(bs, 8 * i + 5) == BitOf(bs[i], 5)
              && Bit(bs, 8 * i + 6) == BitOf(bs[i], 6) && Bit(bs, 8 * i + 7) == BitOf(bs[i], 7)
    ensures i >= |bs| ==>
              && Bit(bs, 8 * i) == Bit(bs, 8 * i + 1) == Bit(bs, 8 * i + 2) == Bit(bs, 8 * i + 3) == 0
              && Bit(bs, 8 * i + 4) == Bit(bs, 8 * i + 5) == Bit(bs, 8 * i + 6) == Bit(bs, 8 * i + 7) == 0
  {
    hide Bit, BitOf;
    BitAt(bs, i, 0); BitAt(bs, i, 1); BitAt(bs, i, 2); BitAt(bs, i, 3);
    BitAt(bs, i, 4); BitAt(bs, i, 5); BitAt(bs, i, 6); BitAt(bs, i, 7);
  }

  lemma BitsOfGroup(bs: seq<Byte>)
    requires |bs| > 0
    ensures SixBits(bs, 0) == bs[0] / 4
    ensures SixBits(bs, 1) == bs[0] % 4 * 16 + if |bs| > 1 then bs[1] / 16 else 0
    ensures |bs| > 1 ==> SixBits(bs, 2) == bs[1] % 16 * 4 + if |bs| > 2 then bs[2] / 64 else 0
    ensures |bs| > 2 ==> SixBits(bs, 3) == bs[2] % 64
  {
    hide Bit, BitOf;
    BitsAt(bs, 0);
    BitsAt(bs, 1);
    BitsAt(bs, 2);
    PartsOfByte(bs[0]);
    if |bs| > 1 { PartsOfByte(bs[1]); }
    if |bs| > 2 { PartsOfByte(bs[2]); }
  }

  lemma SixBitsLater(bs: seq<Byte>, k: nat)
    requires |bs| >= 3
    ensures SixBits(bs, k + 4) == SixBits(bs[3..], k)
  {
    forall n: nat ensures Bit(bs, n + 24) == Bit(bs[3..], n) {
      assert (n + 24) / 8 == n / 8 + 3 && (n + 24) % 8 == n % 8;
    }
    hide Bit;
    assert 6 * (k + 4) == 6 * k + 24;
  }

  lemma {:induction false} SextetsAreSixBits(bs: seq<Byte>)
    ensures |Sextets(bs)| == (8 * |bs| + 5) / 6
    ensures forall k :: 0 <= k < |Sextets(bs)| ==> Sextets(bs)[k] == SixBits(bs, k)
  {
    hide SixBits;
    if |bs| > 0 { BitsOfGroup(bs); }
    if |bs| >= 3 {
      SextetsAreSixBits(bs[3..]);
      forall k | 4 <= k < |Sextets(bs)| ensures Sextets(bs)[k] == SixBits(bs, k) {
        SixBitsLater(bs, k - 4);
        assert Sextets(bs)[k] == Sextets(bs[3..])[k - 4];
      }
    }
  }

  lemma LettersAre(i: nat)
    requires i < 26
    ensures UPPER_CASE[i] == ('A' as int + i) as char && LOWER_CASE[i] == ('a' as int + i) as char
  {
    match i
    case 0 => case 1 => case 2 => case 3 => case 4 => case 5 => case 6 => case 7 => case 8 =>
    case 9 => case 10 => case 11 => case 12 => case 13 => case 14 => case 15 => case 16 => case 17 =>
    case 18 => case 19 => case 20 => case 21 => case 22 => case 23 => case 24 => case 25 =>
  }

  lemma DigitsAre(i: nat)
    requires i < 12
    ensures DIGITS_AND_SIGNS[i] == if i < 10 then ('0' as int + i) as char else if i == 10 then '-' else '_'
  {
    match i
    case 0 => case 1 => case 2 => case 3 => case 4 => case 5 => case 6 => case 7 => case 8 =>
    case 9 => case 10 => case 11 =>
  }

  lemma AlphabetIs(i: Sextet)
    ensures |URL_ALPHABET| == 64 && Symbol(UrlSafe, i) == URL_ALPHABET[i]
  {
    assert |UPPER_CASE| == 26 && |LOWER_CASE| == 26 && |DIGITS_AND_SIGNS| == 12;
    if i < 26 {
      LettersAre(i);
      assert URL_ALPHABET[i] == UPPER_CASE[i];
    } else if i < 52 {
      LettersAre(i - 26);
      assert URL_ALPHABET[i] == LOWER_CASE[i - 26];
    } else {
      DigitsAre(i - 52);
      assert URL_ALPHABET[i] == DIGITS_AND_SIGNS[i - 52];
    }
  }

  lemma {:induction false} SpellingIs(xs: seq<Sextet>)
    ensures |Spell(UrlSafe, xs)| == |xs|
    ensures forall k :: 0 <= k < |xs| ==> Spell(UrlSafe, xs)[k] == URL_ALPHABET[xs[k]]
  {
    if xs != [] {
      SpellingIs(xs[1..]);
      AlphabetIs(xs[0]);
    }
  }

  /** The text that spells the bytes, six bits by six bits. */
  predicate Spells(s: string, bs: seq<Byte>) {
    && |s| == (8 * |bs| + 5) / 6
    && forall k :: 0 <= k < |s| ==> 0 <= SixBits(bs, k) < 64 && s[k] == URL_ALPHABET[SixBits(bs, k)]
  }

  lemma EncodingSpells(bs: seq<Byte>)
    ensures Spells(UrlNoPadEncode(bs), bs)
  {
    hide SixBits;
    SextetsAreSixBits(bs);
    SpellingIs(Sextets(bs));
    assert UrlNoPadEncode(bs) == Spell(UrlSafe, Sextets(bs));
    hide Sextets, Spell;
  }

  /**
   The encoding of a byte string is the text whose characters have, in the alphabet of RFC 4648 section 5, the
   places that its bits spell, six by six; the decoder reads exactly that text, and no other, as these bytes.
   */
  lemma DecodesIffSpells(s: string, bs: seq<Byte>)
    ensures UrlNoPadDecode(s) == Some(bs) <==> Spells(s, bs)
    ensures UrlEncode(bs) == s <==> Spells(s, bs)
  {
    hide SixBits, UrlNoPadDecode, UrlNoPadEncode;
    EncodingSpells(bs);
    UrlEncodeIsNoPad(bs);
    DecodeOfEncode(bs);
    if UrlNoPadDecode(s) == Some(bs) { EncodeOfDecode(s); }
    if Spells(s, bs) { assert s == UrlNoPadEncode(bs); }
  }
}
