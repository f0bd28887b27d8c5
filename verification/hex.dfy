/** Go's `encoding/hex`: `EncodeToString` writes every byte as two lower-case
    hexadecimal digits, high nibble first. `Decode` is the reading direction,
    used here as the encoder's partner. */
module Hex {
  import opened Wrappers
  import opened GoInts

  const Digits := "0123456789abcdef"

  /** A lower-case hexadecimal digit. */
  predicate IsDigit(c: char)
  {
    '0' <= c <= '9' || 'a' <= c <= 'f'
  }

  /** The digit for a nibble. */
  function DigitOf(n: nat): (c: char)
    requires n < 16
    ensures IsDigit(c)
  {
    Digits[n]
  }

  /** The nibble a hexadecimal digit stands for; Go's decoder accepts both cases. */
  function ValueOf(c: char): (v: Option<nat>)
    ensures v.Some? ==> v.value < 16
  {
    if '0' <= c <= '9' then Some(c as int - '0' as int)
    else if 'a' <= c <= 'f' then Some(c as int - 'a' as int + 10)
    else if 'A' <= c <= 'F' then Some(c as int - 'A' as int + 10)
    else None
  }

  /** `hex.EncodeToString(bs)` */
  function Encode(bs: seq<uint8>): (s: string)
    ensures |s| == 2 * |bs|
    ensures forall i :: 0 <= i < |s| ==> IsDigit(s[i])
    decreases |bs|
  {
    if |bs| == 0 then "" else [DigitOf(bs[0] / 16), DigitOf(bs[0] % 16)] + Encode(bs[1..])
  }

  /** `hex.DecodeString(s)`; `None` for an odd length or a non-digit. */
  function Decode(s: string): (r: Option<seq<uint8>>)
    ensures r.Some? ==> 2 * |r.value| == |s|
    decreases |s|
  {
    if |s| == 0 then Some([])
    else if |s| == 1 then None
    else
      match (ValueOf(s[0]), ValueOf(s[1]), Decode(s[2..]))
      case (Some(hi), Some(lo), Some(rest)) => Some([16 * hi + lo] + rest)
      case _ => None
  }

  /** A nibble's digit reads back as the nibble. */
  lemma DigitRoundTrip(n: nat)
    requires n < 16
    ensures ValueOf(DigitOf(n)) == Some(n)
  {
  }

  /** A lower-case digit is the digit of the nibble it reads as. */
  lemma DigitOfValue(c: char)
    requires IsDigit(c)
    ensures ValueOf(c).Some? && DigitOf(ValueOf(c).value) == c
  {
  }

  /** Decoding reads a leading digit pair as one byte, high digit first. */
  lemma DecodePair(c1: char, c2: char, rest: string)
    requires ValueOf(c1).Some? && ValueOf(c2).Some? && Decode(rest).Some?
    ensures Decode([c1, c2] + rest) == Some([16 * ValueOf(c1).value + ValueOf(c2).value] + Decode(rest).value)
  {
  }

  /** Decoding undoes encoding: the encoding loses nothing and reads high
      nibble first. */
  lemma {:induction false} DecodeEncode(bs: seq<uint8>)
    ensures Decode(Encode(bs)) == Some(bs)
    decreases |bs|
  {
    if |bs| > 0 {
      var hi, lo := bs[0] / 16, bs[0] % 16;
      DigitRoundTrip(hi);
      DigitRoundTrip(lo);
      DecodeEncode(bs[1..]);
      DecodePair(DigitOf(hi), DigitOf(lo), Encode(bs[1..]));
      assert 16 * hi + lo == bs[0];
      assert [bs[0]] + bs[1..] == bs;
    }
  }

  /** Encoding undoes decoding on lower-case input: every even-length string of
      lower-case digits is the encoding of exactly one byte string. */
  lemma {:induction false} EncodeDecode(s: string)
    requires |s| % 2 == 0
    requires forall i :: 0 <= i < |s| ==> IsDigit(s[i])
    ensures Decode(s).Some? && Encode(Decode(s).value) == s
    decreases |s|
  {
    if |s| > 0 {
      DigitOfValue(s[0]);
      DigitOfValue(s[1]);
      EncodeDecode(s[2..]);
      var hi := ValueOf(s[0]).value;
      var lo := ValueOf(s[1]).value;
      var b := 16 * hi + lo;
      assert b / 16 == hi && b % 16 == lo;
      var bs := Decode(s).value;
      assert bs[0] == b && bs[1..] == Decode(s[2..]).value;
      assert s == [s[0], s[1]] + s[2..];
    }
  }
}
