/** encoding/hex: lower case output, either case accepted. */
module Hex {
  import opened Wrappers
  import opened Text

  type Byte = n: nat | n < 256

  function HexChar(d: nat): (c: char)
    requires d < 16
  {
    if d < 10 then ((d + 48) as char) else ((d + 87) as char)
  }

  function HexDigit(c: char): (r: Option<nat>)
    ensures r.Some? ==> r.value < 16 && HexChar(r.value) == LowerChar(c)
  {
    if '0' <= c <= '9' then Some(c as nat - 48)
    else if 'a' <= c <= 'f' then Some(c as nat - 87)
    else if 'A' <= c <= 'F' then Some(c as nat - 55)
    else None
  }

  lemma HexDigitOfChar(d: nat)
    requires d < 16
    ensures HexDigit(HexChar(d)) == Some(d)
  {
  }

  lemma HexDigitLower(c: char)
    ensures HexDigit(LowerChar(c)) == HexDigit(c)
  {
  }

  function EncodeToString(b: seq<Byte>): (s: string)
    ensures |s| == 2 * |b|
  {
    if b == [] then "" else [HexChar(b[0] / 16), HexChar(b[0] % 16)] + EncodeToString(b[1..])
  }

  function DecodeString(s: string): (r: Result<seq<Byte>>)
  {
    if s == "" then Ok([])
    else if |s| == 1 then Err("odd length hex string")
    else match (HexDigit(s[0]), HexDigit(s[1]))
      case (Some(hi), Some(lo)) => Join(hi, lo, DecodeString(s[2..]))
      case _ => Err("invalid byte")
  }

  function Join(hi: nat, lo: nat, rest: Result<seq<Byte>>): (r: Result<seq<Byte>>)
    requires hi < 16 && lo < 16
  {
    if rest.Err? then rest else Ok([hi * 16 + lo] + rest.value)
  }

  lemma {:induction false} DecodeEncode(b: seq<Byte>)
    ensures DecodeString(EncodeToString(b)) == Ok(b)
  {
    if b != [] {
      DecodeEncode(b[1..]);
      HexDigitOfChar(b[0] / 16);
      HexDigitOfChar(b[0] % 16);
      var s := EncodeToString(b);
      assert s[0] == HexChar(b[0] / 16) && s[1] == HexChar(b[0] % 16);
      assert s[2..] == EncodeToString(b[1..]);
      assert [b[0] / 16 * 16 + b[0] % 16] + b[1..] == b;
    }
  }

  lemma PairOfDigits(hi: nat, lo: nat)
    requires hi < 16 && lo < 16
    ensures hi * 16 + lo < 256 && (hi * 16 + lo) / 16 == hi && (hi * 16 + lo) % 16 == lo
  {
  }

  lemma {:induction false} EncodeDecode(s: string)
    requires DecodeString(s).Ok?
    ensures EncodeToString(DecodeString(s).value) == ToLower(s)
    ensures |s| == 2 * |DecodeString(s).value|
  {
    if s != "" {
      hide HexChar, HexDigit, LowerChar, ToLower;
      EncodeDecode(s[2..]);
      var hi, lo := HexDigit(s[0]).value, HexDigit(s[1]).value;
      var b := DecodeString(s).value;
      PairOfDigits(hi, lo);
      assert b == [hi * 16 + lo] + DecodeString(s[2..]).value;
      assert b[1..] == DecodeString(s[2..]).value;
      assert ToLower(s)[2..] == ToLower(s[2..]);
      assert ToLower(s) == [HexChar(hi), HexChar(lo)] + ToLower(s[2..]);
    }
  }

  /** The decoder does not look at case. */
  lemma {:induction false} DecodeLower(s: string)
    ensures DecodeString(ToLower(s)) == DecodeString(s)
  {
    if |s| >= 2 {
      DecodeLower(s[2..]);
      HexDigitLower(s[0]);
      HexDigitLower(s[1]);
      assert ToLower(s)[2..] == ToLower(s[2..]);
    }
  }
}
