/** The text that stands for a hash: it is the hexadecimal numeral of the bytes, so that the texts in chunk lists, the
    digests of chunks and the bytes in packets mean the same number. */
module Hexadecimal {
  import opened HashLists
  import Chunking
  import Receiving
  import Sha1Spec

  const SMALL_DIGITS := "0123456789abcdef"
  const LARGE_DIGITS := "0123456789ABCDEF"

  /** The place of a character among the digits, or their number. */
  function PlaceOf(digits: string, c: bv8): (p: nat)
    ensures p <= |digits| && (p < |digits| ==> digits[p] as int == c as int)
    ensures forall i :: 0 <= i < p ==> digits[i] as int != c as int
  {
    if digits == [] || digits[0] as int == c as int then 0 else 1 + PlaceOf(digits[1..], c)
  }

  /** The value of a hexadecimal digit, small or large; 16 for other characters. */
  function DigitValue(c: bv8): (n: nat)
    ensures n <= 16
  {
    var p := PlaceOf(SMALL_DIGITS, c);
    if p < 16 then p else PlaceOf(LARGE_DIGITS, c)
  }

  /** A hexadecimal numeral. */
  function TextValue(text: seq<bv8>): nat {
    if text == [] then 0 else 16 * TextValue(text[..|text| - 1]) + DigitValue(text[|text| - 1])
  }

  /** The bytes as a big-endian number. */
  function BytesValue(b: seq<bv8>): nat {
    if b == [] then 0 else 256 * BytesValue(b[..|b| - 1]) + b[|b| - 1] as int
  }

  lemma PlaceIs(digits: string, c: bv8, n: nat)
    requires n < |digits| && digits[n] as int == c as int
    requires forall i, j :: 0 <= i < j < |digits| ==> digits[i] != digits[j]
    ensures PlaceOf(digits, c) == n
  {
  }

  lemma DigitCodes(n: nat)
    requires n < 16
    ensures SMALL_DIGITS[n] as int == if n < 10 then 48 + n else 87 + n
    ensures LARGE_DIGITS[n] as int == if n < 10 then 48 + n else 55 + n
  {
  }

  lemma DigitsDiffer()
    ensures forall i, j :: 0 <= i < j < 16 ==> SMALL_DIGITS[i] != SMALL_DIGITS[j] && LARGE_DIGITS[i] != LARGE_DIGITS[j]
  {
    forall i, j | 0 <= i < j < 16
      ensures SMALL_DIGITS[i] != SMALL_DIGITS[j] && LARGE_DIGITS[i] != LARGE_DIGITS[j]
    {
      DigitCodes(i);
      DigitCodes(j);
    }
  }

  lemma LargeIsNotSmall(c: bv8, n: nat)
    requires n < 16 && c as int == LARGE_DIGITS[n] as int && c as int != SMALL_DIGITS[n] as int
    ensures PlaceOf(SMALL_DIGITS, c) == 16
  {
    DigitCodes(n);
    var p := PlaceOf(SMALL_DIGITS, c);
    if p < 16 {
      DigitCodes(p);
    }
  }

  lemma DigitIs(c: bv8, n: nat)
    requires n < 16 && (c as int == SMALL_DIGITS[n] as int || c as int == LARGE_DIGITS[n] as int)
    ensures DigitValue(c) == n
  {
    DigitsDiffer();
    if c as int == SMALL_DIGITS[n] as int {
      PlaceIs(SMALL_DIGITS, c, n);
    } else {
      PlaceIs(LARGE_DIGITS, c, n);
      LargeIsNotSmall(c, n);
    }
  }

  lemma SmallDigit(n: bv8)
    requires n < 16
    ensures DigitValue(Digit(n)) == n as int
  {
    DigitCodes(n as int);
    DigitIs(Digit(n), n as int);
  }

  lemma Halves(b: bv8)
    ensures b as int == 16 * ((b >> 4) as int) + (b & 15) as int && b >> 4 < 16 && b & 15 < 16
  {
  }

  lemma DigitsOf(b: bv8)
    ensures 16 * DigitValue(High(b)) + DigitValue(Low(b)) == b as int
  {
    Halves(b);
    SmallDigit(b >> 4);
    SmallDigit(b & 15);
  }

  lemma TextValueOne(text: seq<bv8>, c: bv8)
    ensures TextValue(text + [c]) == 16 * TextValue(text) + DigitValue(c)
  {
    assert (text + [c])[..|text|] == text;
  }

  lemma TextValueTwo(text: seq<bv8>, hi: bv8, lo: bv8)
    ensures TextValue(text + [hi, lo]) == 256 * TextValue(text) + 16 * DigitValue(hi) + DigitValue(lo)
  {
    TextValueOne(text, hi);
    TextValueOne(text + [hi], lo);
    assert text + [hi, lo] == text + [hi] + [lo];
  }

  lemma BytesValueOne(b: seq<bv8>, last: bv8)
    ensures BytesValue(b + [last]) == 256 * BytesValue(b) + last as int
  {
    assert (b + [last])[..|b|] == b;
  }

  lemma OneMoreByte(b: seq<bv8>, last: bv8)
    ensures BinaryToHex(b + [last]) == BinaryToHex(b) + [High(last), Low(last)]
  {
  }

  lemma {:induction false} WriteOneMore(b: seq<bv8>, last: bv8)
    requires TextValue(BinaryToHex(b)) == BytesValue(b)
    ensures TextValue(BinaryToHex(b + [last])) == BytesValue(b + [last])
  {
    BytesValueOne(b, last);
    OneMoreByte(b, last);
    TextValueTwo(BinaryToHex(b), High(last), Low(last));
    DigitsOf(last);
  }

  lemma Snoc(b: seq<bv8>)
    requires b != []
    ensures b == b[..|b| - 1] + [b[|b| - 1]]
  {
  }

  /** The text that binary2hex writes is the hexadecimal numeral of the bytes. */
  lemma {:induction false} BinaryToHexValue(b: seq<bv8>)
    ensures TextValue(BinaryToHex(b)) == BytesValue(b)
  {
    if b != [] {
      BinaryToHexValue(b[..|b| - 1]);
      WriteOneMore(b[..|b| - 1], b[|b| - 1]);
      Snoc(b);
    }
  }

  /** The digit that a hexadecimal character stands for, as a number. */
  lemma NibbleIs(c: bv8)
    requires IsHexDigit(c)
    ensures Nibble(c) as int == c as int - (if c >= 97 then 87 else if c >= 65 then 55 else 48)
    ensures Nibble(c) < 16
  {
  }

  lemma NibbleValue(c: bv8)
    requires IsHexDigit(c)
    ensures Nibble(c) < 16 && Nibble(c) as int == DigitValue(c)
  {
    NibbleIs(c);
    DigitCodes(Nibble(c) as int);
    DigitIs(c, Nibble(c) as int);
  }

  lemma Joined(hi: bv8, lo: bv8)
    requires hi < 16 && lo < 16
    ensures ((hi << 4) | lo) as int == 16 * (hi as int) + lo as int
  {
  }

  lemma ByteValue(hi: bv8, lo: bv8)
    requires IsHexDigit(hi) && IsHexDigit(lo)
    ensures Byte(hi, lo) as int == 16 * DigitValue(hi) + DigitValue(lo)
  {
    NibbleValue(hi);
    NibbleValue(lo);
    Joined(Nibble(hi), Nibble(lo));
  }

  lemma TwoMoreDigits(hex: seq<bv8>, hi: bv8, lo: bv8)
    requires |hex| % 2 == 0
    ensures HexToBinary(hex + [hi, lo]) == HexToBinary(hex) + [Byte(hi, lo)]
  {
  }

  lemma {:induction false} ReadTwoMore(hex: seq<bv8>, hi: bv8, lo: bv8)
    requires |hex| % 2 == 0 && IsHexDigit(hi) && IsHexDigit(lo)
    requires BytesValue(HexToBinary(hex)) == TextValue(hex)
    ensures BytesValue(HexToBinary(hex + [hi, lo])) == TextValue(hex + [hi, lo])
  {
    TextValueTwo(hex, hi, lo);
    TwoMoreDigits(hex, hi, lo);
    BytesValueOne(HexToBinary(hex), Byte(hi, lo));
    ByteValue(hi, lo);
  }

  lemma SnocTwo(hex: seq<bv8>)
    requires hex != [] && |hex| % 2 == 0 && IsHexText(hex)
    ensures |hex| >= 2 && IsHexText(hex[..|hex| - 2]) && |hex[..|hex| - 2]| % 2 == 0
    ensures hex == hex[..|hex| - 2] + [hex[|hex| - 2], hex[|hex| - 1]]
    ensures IsHexDigit(hex[|hex| - 2]) && IsHexDigit(hex[|hex| - 1])
  {
  }

  /** The bytes that hex2binary reads are the value of the hexadecimal numeral, with small or large letters. */
  lemma {:induction false} HexToBinaryValue(hex: seq<bv8>)
    requires IsHexText(hex) && |hex| % 2 == 0
    ensures BytesValue(HexToBinary(hex)) == TextValue(hex)
  {
    if hex != [] {
      SnocTwo(hex);
      HexToBinaryValue(hex[..|hex| - 2]);
      ReadTwoMore(hex[..|hex| - 2], hex[|hex| - 2], hex[|hex| - 1]);
    }
  }

  predicate IsSmallDigit(c: bv8) { PlaceOf(SMALL_DIGITS, c) < 16 }

  /** A text of small hexadecimal digits. */
  predicate IsSmallText(text: seq<bv8>) { forall i :: 0 <= i < |text| ==> IsSmallDigit(text[i]) }

  lemma SameDigit(c: bv8, d: bv8)
    requires IsSmallDigit(c) && IsSmallDigit(d)
    ensures DigitValue(c) < 16 && DigitValue(d) < 16
    ensures DigitValue(c) == DigitValue(d) ==> c == d
  {
    assert SMALL_DIGITS[DigitValue(c)] as int == c as int && SMALL_DIGITS[DigitValue(d)] as int == d as int;
  }

  lemma LastDigit(x: nat, c: nat, y: nat, d: nat)
    requires 16 * x + c == 16 * y + d && c < 16 && d < 16
    ensures x == y && c == d
  {
  }

  lemma {:induction false} LastsMeet(x: seq<bv8>, c: bv8, y: seq<bv8>, d: bv8)
    requires IsSmallDigit(c) && IsSmallDigit(d) && TextValue(x + [c]) == TextValue(y + [d])
    ensures TextValue(x) == TextValue(y) && c == d
  {
    TextValueOne(x, c);
    TextValueOne(y, d);
    SameDigit(c, d);
    LastDigit(TextValue(x), DigitValue(c), TextValue(y), DigitValue(d));
  }

  /** Texts of the same length and value are the same. */
  lemma {:induction false} ValueDetermines(a: seq<bv8>, b: seq<bv8>)
    requires |a| == |b| && IsSmallText(a) && IsSmallText(b) && TextValue(a) == TextValue(b)
    ensures a == b
  {
    if a != [] {
      var x, c := a[..|a| - 1], a[|a| - 1];
      var y, d := b[..|b| - 1], b[|b| - 1];
      Snoc(a);
      Snoc(b);
      LastsMeet(x, c, y, d);
      ValueDetermines(x, y);
    }
  }

  lemma HexIsSmall(b: seq<bv8>)
    ensures IsSmallText(BinaryToHex(b))
  {
    var hex := BinaryToHex(b);
    forall i | 0 <= i < |hex| ensures IsSmallDigit(hex[i]) {
      Halves(b[i / 2]);
      SmallPlace(if i % 2 == 0 then b[i / 2] >> 4 else b[i / 2] & 15);
    }
  }

  lemma SmallPlace(n: bv8)
    requires n < 16
    ensures IsSmallDigit(Digit(n))
  {
    DigitCodes(n as int);
    DigitsDiffer();
    PlaceIs(SMALL_DIGITS, Digit(n), n as int);
  }

  /** What a payload holds, byte by byte: the number of hashes, three zeros and each hash as a number of 20 bytes. */
  lemma PayloadValues(data: seq<bv8>, hs: seq<Hash>)
    requires IsPayload(data, hs) && AreHexTexts(hs)
    ensures |data| == 4 + 20 * |hs| && data[0] as int == |hs| <= 74 && data[1] == data[2] == data[3] == 0
    ensures forall i :: 0 <= i < |hs| ==> BytesValue(data[4 + 20 * i..24 + 20 * i]) == TextValue(hs[i])
  {
    forall i | 0 <= i < |hs| ensures BytesValue(data[4 + 20 * i..24 + 20 * i]) == TextValue(hs[i]) {
      assert data[4 + 20 * i..24 + 20 * i] == Field(data, i);
      HexToBinaryValue(hs[i]);
    }
  }

  /** What pkt2chunks makes of it: as many hashes as the first byte says, none from 128 on, each in 40 small digits. */
  lemma ParsedValues(data: seq<bv8>)
    requires WellSized(data)
    ensures |Parse(data)| == if data[0] < 128 then data[0] as int else 0
    ensures forall i :: 0 <= i < |Parse(data)| ==>
              && 24 + 20 * i <= |data| && |Parse(data)[i]| == 40 && IsSmallText(Parse(data)[i])
              && TextValue(Parse(data)[i]) == BytesValue(data[4 + 20 * i..24 + 20 * i])
  {
    forall i | 0 <= i < |Parse(data)|
      ensures |Parse(data)[i]| == 40 && IsSmallText(Parse(data)[i])
      ensures 24 + 20 * i <= |data| && TextValue(Parse(data)[i]) == BytesValue(data[4 + 20 * i..24 + 20 * i])
    {
      assert data[4 + 20 * i..24 + 20 * i] == Field(data, i);
      HexIsSmall(Field(data, i));
      BinaryToHexValue(Field(data, i));
    }
  }

  /** check_chunk accepts exactly the hexadecimal numeral of the digest, in 40 small digits. */
  lemma ChecksNumeral(data: Chunking.Chunk, sha1: Hash)
    ensures Receiving.Checks(data, sha1) <==>
            |sha1| == 40 && IsSmallText(sha1) && TextValue(sha1) == BytesValue(Sha1Spec.Digest(data))
  {
    var digest := Sha1Spec.Digest(data);
    BinaryToHexValue(digest);
    HexIsSmall(digest);
    if |sha1| == 40 && IsSmallText(sha1) && TextValue(sha1) == BytesValue(digest) {
      ValueDetermines(sha1, BinaryToHex(digest));
    }
  }
}
