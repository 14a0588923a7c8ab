/** internal/tron/address.go: base58, base58check T-addresses and their hex forms.
    The double SHA-256 checksum is a parameter, so everything here holds for any
    checksum function. */
module Address {
  import opened Wrappers
  import opened Text
  import opened Digits
  import opened Hex

  const ADDRESS_PREFIX: Byte := 0x41

  const B58_ALPHABET: string := "123456789" + "ABCDEFGH" + "JKLMN" + "PQRSTUVWXYZ" + "abcdefghijk" + "mnopqrstuvwxyz"

  type Sum4 = s: seq<Byte> | |s| == 4 witness [0, 0, 0, 0]

  /** The first four bytes of the double hash. */
  type Checksum = seq<Byte> -> Sum4

  // ------------------------------------------------------------- the alphabet

  /** n characters with consecutive codes. */
  function Range(from: char, n: nat): (s: string)
    requires from as int + n < 128
    ensures |s| == n && forall i :: 0 <= i < n ==> s[i] as int == from as int + i
  {
    if n == 0 then "" else Range(from, n - 1) + [(from as int + n - 1) as char]
  }

  lemma DigitGlyphs()
    ensures "123456789" == Range('1', 9)
  {
  }

  lemma UpperGlyphs()
    ensures "ABCDEFGH" == Range('A', 8) && "JKLMN" == Range('J', 5)
  {
  }

  lemma UpperGlyphsEnd()
    ensures "PQRSTUVWXYZ" == Range('P', 11)
  {
  }

  lemma LowerGlyphs()
    ensures "abcdefghijk" == Range('a', 11)
  {
  }

  lemma LowerGlyphsEnd()
    ensures "mnopqrstuvwxyz" == Range('m', 14)
  {
  }

  /** Character code of the d-th glyph. */
  function Code(d: nat): (r: nat)
  {
    if d < 9 then d + 49 else if d < 17 then d + 56 else if d < 22 then d + 57
    else if d < 33 then d + 58 else if d < 44 then d + 64 else d + 65
  }

  lemma {:induction false} GlyphCode(d: nat)
    requires d < 58
    ensures |B58_ALPHABET| == 58 && B58_ALPHABET[d] as nat == Code(d)
  {
    DigitGlyphs();
    UpperGlyphs();
    UpperGlyphsEnd();
    LowerGlyphs();
    LowerGlyphsEnd();
  }

  /** 58 different characters: all that the codec below needs of the alphabet. */
  predicate IsAlphabet(a: string)
  {
    |a| == 58 && forall i, j :: 0 <= i < j < 58 ==> a[i] != a[j]
  }

  lemma AlphabetIsOne()
    ensures IsAlphabet(B58_ALPHABET) && B58_ALPHABET[26] == 'T'
  {
    GlyphCode(26);
    forall i, j | 0 <= i < j < 58 ensures B58_ALPHABET[i] != B58_ALPHABET[j] {
      GlyphCode(i);
      GlyphCode(j);
    }
  }

  function ToGlyphs(a: string, ds: seq<nat>): (s: string)
    requires IsAlphabet(a) && InBase(ds, 58)
    ensures |s| == |ds| && forall i :: 0 <= i < |ds| ==> s[i] == a[ds[i]]
  {
    if ds == [] then "" else [a[ds[0]]] + ToGlyphs(a, ds[1..])
  }

  predicate AllGlyphs(a: string, s: string)
  {
    forall i :: 0 <= i < |s| ==> s[i] in a
  }

  function FromGlyphs(a: string, s: string): (ds: seq<nat>)
    requires AllGlyphs(a, s)
    ensures |ds| == |s| && forall i :: 0 <= i < |s| ==> ds[i] == IndexOf(a, s[i]) < |a|
  {
    if s == "" then []
    else
      assert s[0] in a && AllGlyphs(a, s[1..]);
      [IndexOf(a, s[0])] + FromGlyphs(a, s[1..])
  }

  // ------------------------------------------------------------------- base58

  /** big.Int.Bytes. */
  function BigBytes(v: nat): (b: seq<Byte>)
    ensures b == Numeral(v, 256)
  {
    NumeralValue(v, 256);
    Numeral(v, 256)
  }

  function NulBytes(n: nat): (b: seq<Byte>)
    ensures b == Zeros(n)
  {
    Zeros(n)
  }

  /** The encoding as one expression: the first glyph once per leading zero byte,
      then the value in base 58. */
  function Encoded58(a: string, input: seq<Byte>): (r: string)
    requires IsAlphabet(a)
  {
    NumeralValue(Value(input, 256), 58);
    ToGlyphs(a, Zeros(LeadingZeros(input)) + Numeral(Value(input, 256), 58))
  }

  function Decoded58(a: string, s: string): (r: Result<seq<Byte>>)
    requires IsAlphabet(a)
  {
    if !AllGlyphs(a, s) then Err("invalid base58 character")
    else
      var ds := FromGlyphs(a, s);
      Ok(NulBytes(LeadingZeros(ds)) + BigBytes(Value(ds, 58)))
  }

  function Reversed(s: string): (r: string)
    ensures |r| == |s| && forall i :: 0 <= i < |s| ==> r[i] == s[|s| - 1 - i]
  {
    seq(|s|, i requires 0 <= i < |s| => s[|s| - 1 - i])
  }

  method ReverseInPlace(out: array<char>)
    modifies out
    ensures out[..] == Reversed(old(out[..]))
  {
    var i, j := 0, out.Length - 1;
    while i < j
      invariant 0 <= i <= out.Length && i + j == out.Length - 1
      invariant forall k :: 0 <= k < i ==> out[k] == old(out[out.Length - 1 - k])
      invariant forall k :: j < k < out.Length ==> out[k] == old(out[out.Length - 1 - k])
      invariant forall k :: i <= k <= j ==> out[k] == old(out[k])
    {
      out[i], out[j] := out[j], out[i];
      i, j := i + 1, j - 1;
    }
  }

  method ReverseBuffer(out: string) returns (s: string)
    ensures s == Reversed(out)
  {
    var buffer := new char[|out|](k requires 0 <= k < |out| => out[k]);
    assert buffer[..] == out;
    ReverseInPlace(buffer);
    s := buffer[..];
  }

  /** out is, back to front, the glyphs of ds. */
  ghost predicate Mirrors(a: string, out: string, ds: seq<nat>)
    requires IsAlphabet(a)
  {
    InBase(ds, 58) && |out| == |ds| && forall i :: 0 <= i < |ds| ==> out[|ds| - 1 - i] == a[ds[i]]
  }

  lemma MirrorPush(a: string, out: string, ds: seq<nat>, d: nat)
    requires IsAlphabet(a) && Mirrors(a, out, ds) && d < 58
    ensures Mirrors(a, out + [a[d]], [d] + ds)
  {
  }

  lemma MirrorReversed(a: string, out: string, ds: seq<nat>)
    requires IsAlphabet(a) && Mirrors(a, out, ds)
    ensures Reversed(out) == ToGlyphs(a, ds)
  {
  }

  /** The first loop of base58Encode: the digits of v, last digit first. */
  method AppendDigits(alphabet: string, v: nat) returns (out: string)
    requires IsAlphabet(alphabet)
    ensures Mirrors(alphabet, out, Numeral(v, 58))
  {
    var x := v;
    out := "";
    ghost var done: seq<nat> := [];
    while x > 0
      invariant Numeral(v, 58) == Numeral(x, 58) + done
      invariant Mirrors(alphabet, out, done)
    {
      MirrorPush(alphabet, out, done, x % 58);
      done := [x % 58] + done;
      out := out + [alphabet[x % 58]];
      x := x / 58;
    }
  }

  /** Its second loop: the first glyph once more per leading zero byte. */
  method AppendLeading(alphabet: string, input: seq<Byte>, digits: string, ghost ds: seq<nat>) returns (out: string)
    requires IsAlphabet(alphabet) && Mirrors(alphabet, digits, ds)
    ensures Mirrors(alphabet, out, Zeros(LeadingZeros(input)) + ds)
  {
    out := digits;
    var i := 0;
    assert ds == Zeros(0) + ds;
    while i < |input| && input[i] == 0
      invariant 0 <= i <= LeadingZeros(input)
      invariant Mirrors(alphabet, out, Zeros(i) + ds)
    {
      MirrorPush(alphabet, out, Zeros(i) + ds, 0);
      assert [0] + (Zeros(i) + ds) == Zeros(i + 1) + ds;
      out := out + [alphabet[0]];
      i := i + 1;
    }
  }

  method Base58Encode(alphabet: string, input: seq<Byte>) returns (s: string)
    requires IsAlphabet(alphabet)
    ensures s == Encoded58(alphabet, input)
  {
    ghost var ds := Numeral(Value(input, 256), 58);
    var out := AppendDigits(alphabet, Value(input, 256));
    out := AppendLeading(alphabet, input, out, ds);
    MirrorReversed(alphabet, out, Zeros(LeadingZeros(input)) + ds);
    s := ReverseBuffer(out);
  }

  /** ds are the digits the characters of s stand for. */
  ghost predicate Spells(a: string, s: string, ds: seq<nat>)
  {
    |ds| == |s| && forall i :: 0 <= i < |s| ==> s[i] in a && ds[i] == IndexOf(a, s[i])
  }

  lemma SpellsDigits(a: string, s: string, ds: seq<nat>)
    requires IsAlphabet(a) && Spells(a, s, ds)
    ensures AllGlyphs(a, s) && FromGlyphs(a, s) == ds
    ensures forall i :: 0 <= i < |s| ==> (s[i] == a[0] <==> ds[i] == 0)
  {
  }

  /** The first loop of base58Decode: the value the characters spell. */
  method SpelledValue(alphabet: string, s: string) returns (r: Option<nat>)
    requires IsAlphabet(alphabet)
    ensures r.None? <==> !AllGlyphs(alphabet, s)
    ensures r.Some? ==> r.value == Value(FromGlyphs(alphabet, s), 58)
  {
    var x := 0;
    ghost var ds: seq<nat> := [];
    for i := 0 to |s|
      invariant Spells(alphabet, s[..i], ds) && x == Value(ds, 58)
    {
      var idx := IndexOf(alphabet, s[i]);
      if idx < 0 {
        return None;
      }
      ValueSnoc(ds, idx, 58);
      assert s[..i + 1] == s[..i] + [s[i]];
      ds := ds + [idx];
      x := x * 58;
      x := x + idx;
    }
    assert s[..|s|] == s;
    SpellsDigits(alphabet, s, ds);
    r := Some(x);
  }

  /** Its second loop: how often the first glyph is repeated in front. */
  method CountLeading(alphabet: string, s: string, ghost ds: seq<nat>) returns (leading: nat)
    requires IsAlphabet(alphabet)
    requires |ds| == |s| && forall i :: 0 <= i < |s| ==> (s[i] == alphabet[0] <==> ds[i] == 0)
    ensures leading == LeadingZeros(ds)
  {
    leading := 0;
    while leading < |s| && s[leading] == alphabet[0]
      invariant 0 <= leading <= LeadingZeros(ds)
    {
      leading := leading + 1;
    }
  }

  method Base58Decode(alphabet: string, s: string) returns (r: Result<seq<Byte>>)
    requires IsAlphabet(alphabet)
    ensures r == Decoded58(alphabet, s)
  {
    var x := SpelledValue(alphabet, s);
    if x.None? {
      return Err("invalid base58 character");
    }
    ghost var ds := FromGlyphs(alphabet, s);
    SpellsDigits(alphabet, s, ds);
    var leading := CountLeading(alphabet, s, ds);
    r := Ok(NulBytes(leading) + BigBytes(x.value));
  }

  lemma {:induction false} GlyphsRoundTrip(a: string, ds: seq<nat>)
    requires IsAlphabet(a) && InBase(ds, 58)
    ensures AllGlyphs(a, ToGlyphs(a, ds)) && FromGlyphs(a, ToGlyphs(a, ds)) == ds
  {
    var s := ToGlyphs(a, ds);
    forall i | 0 <= i < |ds| ensures s[i] in a && IndexOf(a, s[i]) == ds[i] {
      assert s[i] == a[ds[i]];
    }
  }

  lemma {:induction false} GlyphsInverse(a: string, s: string)
    requires IsAlphabet(a) && AllGlyphs(a, s)
    ensures InBase(FromGlyphs(a, s), 58) && ToGlyphs(a, FromGlyphs(a, s)) == s
  {
  }

  lemma LeadingZerosPadded(n: nat, ds: seq<nat>)
    requires Minimal(ds)
    ensures LeadingZeros(Zeros(n) + ds) == n
  {
    var all := Zeros(n) + ds;
    var k := LeadingZeros(all);
    assert k < |all| ==> all[k] != 0;
    assert forall i :: 0 <= i < n ==> all[i] == 0;
    assert ds != [] ==> all[n] == ds[0];
  }

  /** Decoding undoes encoding, leading zero bytes included. */
  lemma {:induction false} DecodeOfEncode(a: string, b: seq<Byte>)
    requires IsAlphabet(a)
    ensures Decoded58(a, Encoded58(a, b)) == Ok(b)
  {
    var v, n := Value(b, 256), LeadingZeros(b);
    NumeralValue(v, 58);
    GlyphsRoundTrip(a, Zeros(n) + Numeral(v, 58));
    LeadingZerosPadded(n, Numeral(v, 58));
    ValuePadded(n, Numeral(v, 58), 58);
    StripZeros(b, 256);
  }

  /** Encoding undoes decoding, and decoding refuses exactly the texts with a
      character outside the alphabet. */
  lemma {:induction false} EncodeOfDecode(a: string, s: string)
    requires IsAlphabet(a)
    ensures Decoded58(a, s).Ok? <==> forall i :: 0 <= i < |s| ==> s[i] in a
    ensures Decoded58(a, s).Ok? ==> Encoded58(a, Decoded58(a, s).value) == s
  {
    if AllGlyphs(a, s) {
      GlyphsInverse(a, s);
      var ds := FromGlyphs(a, s);
      var v, n := Value(ds, 58), LeadingZeros(ds);
      NumeralValue(v, 256);
      LeadingZerosPadded(n, Numeral(v, 256));
      ValuePadded(n, Numeral(v, 256), 256);
      StripZeros(ds, 58);
    }
  }

  // ---------------------------------------------------------------- addresses

  function EncodeAddress(sum: Checksum, raw: seq<Byte>): (r: Result<string>)
  {
    AlphabetIsOne();
    if |raw| != 21 || raw[0] != ADDRESS_PREFIX then Err("invalid raw tron address")
    else Ok(Encoded58(B58_ALPHABET, raw + sum(raw)))
  }

  function DecodeAddress(sum: Checksum, addr: string): (r: Result<seq<Byte>>)
  {
    AlphabetIsOne();
    var decoded := Decoded58(B58_ALPHABET, addr);
    if decoded.Err? then decoded
    else if |decoded.value| != 25 then Err("invalid address length")
    else
      var raw, check := decoded.value[..21], decoded.value[21..];
      if raw[0] != ADDRESS_PREFIX then Err("invalid address prefix")
      else if sum(raw) != check then Err("invalid address checksum")
      else Ok(raw)
  }

  predicate IsValidAddress(sum: Checksum, addr: string)
  {
    "T" <= addr && DecodeAddress(sum, addr).Ok?
  }

  function AddressToHex(sum: Checksum, addr: string): (r: Result<string>)
  {
    var raw := DecodeAddress(sum, addr);
    if raw.Err? then Err(raw.error) else Ok(EncodeToString(raw.value))
  }

  function HexToAddress(sum: Checksum, h: string): (r: Result<string>)
  {
    var raw := DecodeString(TrimPrefix(ToLower(h), "0x"));
    if raw.Err? then Err(raw.error)
    else
      var b := raw.value;
      if |b| == 21 then EncodeAddress(sum, b)
      else if |b| == 20 then EncodeAddress(sum, [ADDRESS_PREFIX] + b)
      else if |b| == 32 then EncodeAddress(sum, [ADDRESS_PREFIX] + b[12..])
      else Err("unexpected address hex length")
  }

  predicate IsRaw(raw: seq<Byte>)
  {
    |raw| == 21 && raw[0] == ADDRESS_PREFIX
  }

  lemma Square(b: nat, n: nat)
    ensures Pow(b, 2 * n) == Pow(b, n) * Pow(b, n)
  {
    PowAdd(b, n, n);
  }

  lemma Pow58Half()
    ensures Pow(58, 8) == 128063081718016
  {
    assert Pow(58, 2) == 3364;
    Square(58, 2);
    Square(58, 4);
  }

  lemma Pow58()
    ensures Pow(58, 33) == 15599970876632771988160814054146447252125923204784443097088
  {
    Pow58Half();
    Square(58, 8);
    Square(58, 16);
    assert Pow(58, 33) == 58 * Pow(58, 32);
  }

  lemma Pow256()
    ensures Pow(256, 24) == 0x1_0000_0000_0000_0000_0000_0000_0000_0000_0000_0000_0000_0000
  {
    assert Pow(256, 3) == 0x100_0000;
    Square(256, 3);
    Square(256, 6);
    Square(256, 12);
  }

  /** Any 25 bytes with prefix 0x41 have a value between 26 * 58^33 and
      27 * 58^33: the leading base58 digit is 26, the glyph T. */
  lemma {:induction false} PayloadDigits(payload: seq<Byte>)
    requires |payload| == 25 && payload[0] == ADDRESS_PREFIX
    ensures |Numeral(Value(payload, 256), 58)| == 34 && Numeral(Value(payload, 256), 58)[0] == 26
  {
    var rest := payload[1..];
    assert payload == payload[..1] + rest && payload[..1] == [ADDRESS_PREFIX];
    ValueConcat(payload[..1], rest, 256);
    ValueSnoc([], ADDRESS_PREFIX, 256);
    ValueBound(rest, 256);
    Pow58();
    Pow256();
    LeadingDigit(Value(payload, 256), 58, 33, 26, 26 * Pow(58, 33));
  }

  /** Every encoded address is 34 characters long and starts with T. */
  lemma {:induction false} EncodedShape(sum: Checksum, raw: seq<Byte>)
    requires IsRaw(raw)
    ensures EncodeAddress(sum, raw).Ok?
    ensures |EncodeAddress(sum, raw).value| == 34 && "T" <= EncodeAddress(sum, raw).value
  {
    var payload := raw + sum(raw);
    AlphabetIsOne();
    PayloadDigits(payload);
    assert payload[0] != 0;
    assert Zeros(0) + Numeral(Value(payload, 256), 58) == Numeral(Value(payload, 256), 58);
  }

  lemma {:induction false} DecodeOfEncodedAddress(sum: Checksum, raw: seq<Byte>)
    requires IsRaw(raw)
    ensures EncodeAddress(sum, raw).Ok? && DecodeAddress(sum, EncodeAddress(sum, raw).value) == Ok(raw)
  {
    AlphabetIsOne();
    DecodeOfEncode(B58_ALPHABET, raw + sum(raw));
  }

  lemma {:induction false} EncodeOfDecodedAddress(sum: Checksum, addr: string)
    requires DecodeAddress(sum, addr).Ok?
    ensures IsRaw(DecodeAddress(sum, addr).value)
    ensures EncodeAddress(sum, DecodeAddress(sum, addr).value) == Ok(addr)
  {
    AlphabetIsOne();
    EncodeOfDecode(B58_ALPHABET, addr);
    var decoded := Decoded58(B58_ALPHABET, addr).value;
    assert decoded == decoded[..21] + decoded[21..];
  }

  /** The valid addresses are exactly the encodings of 21-byte raw addresses. */
  lemma {:induction false} ValidIffEncoded(sum: Checksum, addr: string)
    ensures IsValidAddress(sum, addr) <==> exists raw :: IsRaw(raw) && EncodeAddress(sum, raw) == Ok(addr)
  {
    if IsValidAddress(sum, addr) {
      EncodeOfDecodedAddress(sum, addr);
    }
    forall raw | IsRaw(raw) && EncodeAddress(sum, raw) == Ok(addr) ensures IsValidAddress(sum, addr) {
      EncodedShape(sum, raw);
      DecodeOfEncodedAddress(sum, raw);
    }
  }

  lemma {:induction false} HexPrefixKept(b: seq<Byte>)
    ensures TrimPrefix(ToLower(EncodeToString(b)), "0x") == EncodeToString(b)
  {
    DecodeEncode(b);
    EncodeDecode(EncodeToString(b));
    var s := EncodeToString(b);
    assert |s| >= 2 ==> HexDigit(s[1]).Some?;
    assert HexDigit('x').None?;
  }

  lemma {:induction false} HexToAddressOf(sum: Checksum, b: seq<Byte>)
    ensures HexToAddress(sum, EncodeToString(b)) ==
            if |b| == 21 then EncodeAddress(sum, b)
            else if |b| == 20 then EncodeAddress(sum, [ADDRESS_PREFIX] + b)
            else if |b| == 32 then EncodeAddress(sum, [ADDRESS_PREFIX] + b[12..])
            else Err("unexpected address hex length")
  {
    HexPrefixKept(b);
    DecodeEncode(b);
  }

  /** Hex and base58 forms of an address are mutually inverse. */
  lemma {:induction false} HexRoundTrip(sum: Checksum, raw: seq<Byte>, addr: string)
    requires IsRaw(raw)
    ensures AddressToHex(sum, addr) == Ok(EncodeToString(raw)) <==> HexToAddress(sum, EncodeToString(raw)) == Ok(addr)
  {
    HexToAddressOf(sum, raw);
    DecodeOfEncodedAddress(sum, raw);
    if AddressToHex(sum, addr) == Ok(EncodeToString(raw)) {
      EncodeOfDecodedAddress(sum, addr);
      DecodeEncode(raw);
      DecodeEncode(DecodeAddress(sum, addr).value);
    }
  }

  /** A bare 20-byte body, the 21-byte node form and any left padded 32-byte event
      word name the same address. */
  lemma {:induction false} FormsAgree(sum: Checksum, body: seq<Byte>, pad: seq<Byte>)
    requires |body| == 20 && |pad| == 12
    ensures HexToAddress(sum, EncodeToString(body)).Ok?
    ensures HexToAddress(sum, EncodeToString([ADDRESS_PREFIX] + body)) == HexToAddress(sum, EncodeToString(body))
    ensures HexToAddress(sum, EncodeToString(pad + body)) == HexToAddress(sum, EncodeToString(body))
  {
    HexToAddressOf(sum, body);
    HexToAddressOf(sum, [ADDRESS_PREFIX] + body);
    HexToAddressOf(sum, pad + body);
    assert (pad + body)[12..] == body;
  }

  /** Upper case digits and an 0x in front change nothing. */
  lemma {:induction false} SpellingIgnored(sum: Checksum, b: seq<Byte>)
    ensures HexToAddress(sum, "0x" + ToUpper(EncodeToString(b))) == HexToAddress(sum, EncodeToString(b))
  {
    hide EncodeToString, DecodeString, ToLower, ToUpper, EncodeAddress;
    var s := EncodeToString(b);
    var t := "0x" + ToUpper(s);
    LowerOfUpper(s);
    LowerConcat("0x", ToUpper(s));
    assert TrimPrefix(ToLower(t), "0x") == ToLower(s);
    DecodeLower(s);
    HexPrefixKept(b);
  }
}
