/** internal/tron/tx.go: protobuf framing of a signed transaction, the transaction
    id fixed by the raw bytes, and the calldata of a TRC20 transfer. Base 128
    varints and length delimited records are those of the Protocol Buffers
    encoding; the calldata layout is the Solidity contract ABI's. */
module Tx {
  import opened Wrappers
  import opened Text
  import opened Digits
  import opened Hex
  import opened Address

  const TWO_64: nat := 0x1_0000_0000_0000_0000
  const TWO_256: nat := 0x1_0000_0000_0000_0000_0000_0000_0000_0000_0000_0000_0000_0000_0000_0000_0000_0000

  // ------------------------------------------------------------------ varints

  function Varint(v: nat): (b: seq<Byte>)
    ensures |b| >= 1
  {
    if v < 128 then [v] else [v % 128 + 128] + Varint(v / 128)
  }

  /** A base 128 decoder: the value in front of s and what follows it. */
  function ReadVarint(s: seq<Byte>): (r: Option<(nat, seq<Byte>)>)
    ensures r.Some? ==> |r.value.1| < |s|
  {
    if s == [] then None
    else if s[0] < 128 then Some((s[0], s[1..]))
    else match ReadVarint(s[1..])
      case None => None
      case Some((high, rest)) => Some((high * 128 + (s[0] - 128), rest))
  }

  method AppendVarint(dst: seq<Byte>, value: nat) returns (out: seq<Byte>)
    requires value < TWO_64
    ensures out == dst + Varint(value)
  {
    var v := value;
    out := dst;
    while v >= 0x80
      invariant out + Varint(v) == dst + Varint(value)
    {
      assert Varint(v) == [v % 128 + 128] + Varint(v / 128);
      out := out + [v % 0x80 + 0x80];
      v := v / 0x80;
    }
    out := out + [v];
  }

  lemma {:induction false} ReadOfVarint(v: nat, rest: seq<Byte>)
    ensures ReadVarint(Varint(v) + rest) == Some((v, rest))
  {
    var s := Varint(v) + rest;
    if v < 128 {
      assert s[1..] == rest;
    } else {
      ReadOfVarint(v / 128, rest);
      assert s[1..] == Varint(v / 128) + rest;
    }
  }

  lemma {:induction false} VarintLength(v: nat, k: nat)
    requires k >= 1
    ensures v < Pow(128, k) <==> |Varint(v)| <= k
  {
    if k == 1 {
      assert Pow(128, 1) == 128;
    } else {
      PowMono(128, 1, k);
      assert Pow(128, 1) == 128;
      if v >= 128 {
        VarintLength(v / 128, k - 1);
        DivBelow(v, 128, Pow(128, k - 1));
      }
    }
  }

  /** One to ten bytes for every uint64. */
  lemma {:induction false} VarintFits(v: nat)
    requires v < TWO_64
    ensures 1 <= |Varint(v)| <= 10
  {
    assert Pow(128, 5) == 0x8_0000_0000;
    PowAdd(128, 5, 5);
    VarintLength(v, 10);
  }

  // ------------------------------------------------------- length delimited fields

  datatype Field = Field(number: nat, val: seq<Byte>)

  function FieldBytes(f: Field): (out: seq<Byte>)
  {
    Varint(f.number * 8 + 2) + Varint(|f.val|) + f.val
  }

  function FieldsBytes(fs: seq<Field>): (out: seq<Byte>)
  {
    if fs == [] then [] else FieldBytes(fs[0]) + FieldsBytes(fs[1..])
  }

  /** A reader of length delimited records; any other wire type is refused. */
  function ReadFields(s: seq<Byte>): (r: Option<seq<Field>>)
    decreases |s|
  {
    if s == [] then Some([])
    else match ReadVarint(s)
      case None => None
      case Some((tag, afterTag)) =>
        if tag % 8 != 2 then None
        else match ReadVarint(afterTag)
          case None => None
          case Some((size, body)) =>
            if size > |body| then None
            else match ReadFields(body[size..])
              case None => None
              case Some(rest) => Some([Field(tag / 8, body[..size])] + rest)
  }

  method AppendProtoBytes(dst: seq<Byte>, field: nat, val: seq<Byte>) returns (out: seq<Byte>)
    requires field * 8 + 2 < TWO_64 && |val| < TWO_64
    ensures out == dst + FieldBytes(Field(field, val))
  {
    out := AppendVarint(dst, field * 8 + 2);
    out := AppendVarint(out, |val|);
    out := out + val;
  }

  lemma {:induction false} ReadOfField(f: Field, rest: seq<Byte>)
    requires ReadFields(rest).Some?
    ensures ReadFields(FieldBytes(f) + rest) == Some([f] + ReadFields(rest).value)
  {
    hide Varint, ReadVarint;
    var s := FieldBytes(f) + rest;
    var body := f.val + rest;
    var tail := Varint(|f.val|) + body;
    assert s == Varint(f.number * 8 + 2) + tail;
    ReadOfVarint(f.number * 8 + 2, tail);
    ReadOfVarint(|f.val|, body);
    assert body[..|f.val|] == f.val && body[|f.val|..] == rest;
  }

  lemma {:induction false} ReadOfFields(fs: seq<Field>)
    ensures ReadFields(FieldsBytes(fs)) == Some(fs)
  {
    if fs != [] {
      ReadOfFields(fs[1..]);
      ReadOfField(fs[0], FieldsBytes(fs[1..]));
      assert fs == [fs[0]] + fs[1..];
    }
  }

  lemma {:induction false} FieldsSnoc(fs: seq<Field>, f: Field)
    ensures FieldsBytes(fs + [f]) == FieldsBytes(fs) + FieldBytes(f)
  {
    if fs == [] {
      assert fs + [f] == [f] && FieldsBytes([f]) == FieldBytes(f) + FieldsBytes([]);
    } else {
      FieldsSnoc(fs[1..], f);
      assert (fs + [f])[1..] == fs[1..] + [f];
    }
  }

  // --------------------------------------------------------- signed transactions

  datatype Transaction = Transaction(txid: string, rawDataHex: string, signature: seq<string>)

  function Unhex(s: string): (r: Result<seq<Byte>>)
  {
    DecodeString(TrimPrefix(s, "0x"))
  }

  /** The signature fields, as far as every signature is hex. */
  function SignatureFields(sigs: seq<string>): (r: Result<seq<Field>>)
  {
    if sigs == [] then Ok([])
    else
      var init := SignatureFields(sigs[..|sigs| - 1]);
      var last := Unhex(sigs[|sigs| - 1]);
      if init.Err? then init
      else if last.Err? then Err(last.error)
      else Ok(init.value + [Field(2, last.value)])
  }

  /** What a signed transaction is on the wire: raw_data in field 1, one field 2
      per signature. */
  function SignedFields(tx: Option<Transaction>): (r: Result<seq<Field>>)
  {
    if tx.None? || tx.value.rawDataHex == "" then Err("transaction has no raw_data_hex")
    else if tx.value.signature == [] then Err("transaction has no signature")
    else
      var raw := Unhex(tx.value.rawDataHex);
      if raw.Err? then Err(raw.error)
      else
        var sigs := SignatureFields(tx.value.signature);
        if sigs.Err? then sigs else Ok([Field(1, raw.value)] + sigs.value)
  }

  /** Go string lengths are below 2^63, and so are the lengths of decoded bytes. */
  predicate Small(s: string)
  {
    Unhex(s).Ok? ==> |Unhex(s).value| < TWO_64
  }

  method SerializeSigned(tx: Option<Transaction>) returns (r: Result<string>)
    requires tx.Some? ==> Small(tx.value.rawDataHex)
    requires tx.Some? ==> forall i :: 0 <= i < |tx.value.signature| ==> Small(tx.value.signature[i])
    ensures r.Ok? <==> SignedFields(tx).Ok?
    ensures r.Ok? ==> r.value == EncodeToString(FieldsBytes(SignedFields(tx).value))
  {
    if tx.None? || tx.value.rawDataHex == "" {
      return Err("transaction has no raw_data_hex");
    }
    if tx.value.signature == [] {
      return Err("transaction has no signature");
    }
    var raw := Unhex(tx.value.rawDataHex);
    if raw.Err? {
      return Err(raw.error);
    }
    var first := AppendProtoBytes([], 1, raw.value);
    FieldsSnoc([], Field(1, raw.value));
    assert [] + [Field(1, raw.value)] == [Field(1, raw.value)];
    var body := AppendSignatures(first, [Field(1, raw.value)], tx.value.signature);
    if body.Err? {
      return Err(body.error);
    }
    r := Ok(EncodeToString(body.value));
  }

  method AppendSignatures(first: seq<Byte>, ghost done: seq<Field>, sigs: seq<string>) returns (r: Result<seq<Byte>>)
    requires first == FieldsBytes(done)
    requires forall i :: 0 <= i < |sigs| ==> Small(sigs[i])
    ensures r.Ok? <==> SignatureFields(sigs).Ok?
    ensures r.Ok? ==> r.value == FieldsBytes(done + SignatureFields(sigs).value)
  {
    var out := first;
    var i := 0;
    assert done + [] == done;
    while i < |sigs|
      invariant 0 <= i <= |sigs| && SignatureFields(sigs[..i]).Ok?
      invariant out == FieldsBytes(done + SignatureFields(sigs[..i]).value)
    {
      var sig := Unhex(sigs[i]);
      assert sigs[..i + 1][..i] == sigs[..i];
      if sig.Err? {
        SignatureFieldsFail(sigs, i + 1);
        return Err(sig.error);
      }
      ghost var before := done + SignatureFields(sigs[..i]).value;
      FieldsSnoc(before, Field(2, sig.value));
      assert done + SignatureFields(sigs[..i + 1]).value == before + [Field(2, sig.value)];
      out := AppendProtoBytes(out, 2, sig.value);
      i := i + 1;
    }
    assert sigs[..i] == sigs;
    r := Ok(out);
  }

  lemma {:induction false} SignatureFieldsFail(sigs: seq<string>, n: nat)
    requires n <= |sigs| && SignatureFields(sigs[..n]).Err?
    ensures SignatureFields(sigs).Err?
    decreases |sigs|
  {
    if n == |sigs| {
      assert sigs[..n] == sigs;
    } else {
      var init := sigs[..|sigs| - 1];
      assert init[..n] == sigs[..n];
      SignatureFieldsFail(init, n);
    }
  }

  /** The serialized text decodes to exactly the raw data and the signatures, so
      no two different signed transactions share a serialization. */
  lemma {:induction false} SerializedDecodes(tx: Option<Transaction>)
    requires SignedFields(tx).Ok?
    ensures DecodeString(EncodeToString(FieldsBytes(SignedFields(tx).value))).Ok?
    ensures ReadFields(DecodeString(EncodeToString(FieldsBytes(SignedFields(tx).value))).value) == Some(SignedFields(tx).value)
  {
    DecodeEncode(FieldsBytes(SignedFields(tx).value));
    ReadOfFields(SignedFields(tx).value);
  }

  lemma {:induction false} SerializedInjective(a: Option<Transaction>, b: Option<Transaction>)
    requires SignedFields(a).Ok? && SignedFields(b).Ok?
    requires EncodeToString(FieldsBytes(SignedFields(a).value)) == EncodeToString(FieldsBytes(SignedFields(b).value))
    ensures Unhex(a.value.rawDataHex) == Unhex(b.value.rawDataHex)
    ensures SignatureFields(a.value.signature) == SignatureFields(b.value.signature)
  {
    SerializedDecodes(a);
    SerializedDecodes(b);
    var fa, fb := SignedFields(a).value, SignedFields(b).value;
    assert fa[0] == fb[0] && fa[1..] == fb[1..];
    assert SignatureFields(a.value.signature).value == fa[1..];
    assert SignatureFields(b.value.signature).value == fb[1..];
  }

  // ------------------------------------------------------- transaction id, signing

  /** SHA-256 and the recoverable signature are foreign: any functions will do. */
  datatype Crypto = Crypto(sha256: seq<Byte> -> seq<Byte>, sign: seq<Byte> -> seq<Byte>)

  function TxIdFromRawHex(c: Crypto, rawHex: string): (r: Result<string>)
  {
    var raw := Unhex(rawHex);
    if raw.Err? then Err(raw.error) else Ok(EncodeToString(c.sha256(raw.value)))
  }

  function SignTransaction(c: Crypto, tx: Option<Transaction>): (r: Result<Transaction>)
  {
    if tx.None? || tx.value.rawDataHex == "" then Err("transaction has no raw_data_hex")
    else
      var txid := TxIdFromRawHex(c, tx.value.rawDataHex);
      if txid.Err? then Err(txid.error)
      else if tx.value.txid != "" && !EqualFold(tx.value.txid, txid.value) then Err("txid mismatch")
      else
        var digest := DecodeString(txid.value);
        if digest.Err? then Err(digest.error)
        else
          Ok(tx.value.(txid := txid.value, signature := [EncodeToString(c.sign(digest.value))]))
  }

  /** The raw bytes alone fix id and signature: signing the stored raw data again,
      under the stored id, gives the very same transaction. */
  lemma {:induction false} ResigningIsIdentical(c: Crypto, tx: Option<Transaction>)
    requires SignTransaction(c, tx).Ok?
    ensures SignTransaction(c, tx).value.rawDataHex == tx.value.rawDataHex
    ensures TxIdFromRawHex(c, tx.value.rawDataHex) == Ok(SignTransaction(c, tx).value.txid)
    ensures var first := SignTransaction(c, tx).value;
            SignTransaction(c, Some(Transaction(first.txid, first.rawDataHex, []))) == Ok(first)
  {
  }

  // ------------------------------------------------------------------- calldata

  function Abs(x: int): (r: nat)
  {
    if x < 0 then -x else x
  }

  type Selector = s: seq<Byte> | |s| == 4 witness [0xa9, 0x05, 0x9c, 0xbb]

  lemma Pow256Word()
    ensures Pow(256, 32) == TWO_256
  {
    assert Pow(256, 2) == 0x1_0000;
    Square(256, 2);
    Square(256, 4);
    Square(256, 8);
    Square(256, 16);
  }

  /** A 32-byte big-endian word. */
  function Word(v: nat): (w: seq<Byte>)
    requires v < TWO_256
    ensures |w| == 32 && Value(w, 256) == v
  {
    Pow256Word();
    Padded(v, 256, 32)
  }

  /** selector, the address left padded to a word, the amount as a word. The sign
      of the amount is lost, as big.Int.Bytes loses it. */
  function TransferCall(selector: Selector, raw: seq<Byte>, amount: int): (out: seq<Byte>)
    requires IsRaw(raw) && Abs(amount) < TWO_256
  {
    selector + NulBytes(12) + raw[1..] + Word(Abs(amount))
  }

  function TransferCalldata(sum: Checksum, selector: Selector, to: string, amount: int): (r: Result<string>)
  {
    var raw := DecodeAddress(sum, to);
    if raw.Err? then Err(raw.error)
    else if Abs(amount) >= TWO_256 then Err("amount overflows uint256")
    else
      EncodeOfDecodedAddress(sum, to);
      Ok(EncodeToString(TransferCall(selector, raw.value, amount)))
  }

  /** The two argument words: the address and the amount, each copied to the right
      end of its word. */
  method FillParam(raw: seq<Byte>, amtBytes: seq<Byte>) returns (p: seq<Byte>)
    requires |raw| == 21 && |amtBytes| <= 32
    ensures p == (NulBytes(12) + raw[1..]) + (NulBytes(32 - |amtBytes|) + amtBytes)
  {
    var param := new Byte[64](_ => 0);
    forall i | 0 <= i < 20 {
      param[12 + i] := raw[1 + i];
    }
    forall i | 0 <= i < |amtBytes| {
      param[64 - |amtBytes| + i] := amtBytes[i];
    }
    assert param[..32] == NulBytes(12) + raw[1..];
    assert param[32..] == NulBytes(32 - |amtBytes|) + amtBytes;
    p := param[..];
  }

  lemma WordFits(v: nat)
    ensures |BigBytes(v)| <= 32 <==> v < TWO_256
    ensures v < TWO_256 ==> Word(v) == NulBytes(32 - |BigBytes(v)|) + BigBytes(v)
  {
    Pow256Word();
    NumeralLength(v, 256, 32);
  }

  method EncodeTRC20Transfer(sum: Checksum, selector: Selector, to: string, amount: int) returns (r: Result<string>)
    ensures r == TransferCalldata(sum, selector, to, amount)
  {
    var decoded := DecodeAddress(sum, to);
    if decoded.Err? {
      return Err(decoded.error);
    }
    EncodeOfDecodedAddress(sum, to);
    var amtBytes := BigBytes(Abs(amount));
    WordFits(Abs(amount));
    if |amtBytes| > 32 {
      return Err("amount overflows uint256");
    }
    var param := FillParam(decoded.value, amtBytes);
    CallOfParam(selector, decoded.value, amount);
    r := Ok(EncodeToString(selector + param));
  }

  lemma CallOfParam(selector: Selector, raw: seq<Byte>, amount: int)
    requires IsRaw(raw) && Abs(amount) < TWO_256
    ensures TransferCall(selector, raw, amount) == selector + ((NulBytes(12) + raw[1..]) + Word(Abs(amount)))
  {
  }

  function ParseUint256(word: string): (r: Option<nat>)
  {
    var b := DecodeString(TrimPrefix(ToLower(word), "0x"));
    if b.Err? then None else Some(Value(b.value, 256))
  }

  lemma {:induction false} ParseOfWord(v: nat)
    requires v < TWO_256
    ensures ParseUint256(EncodeToString(Word(v))) == Some(v)
  {
    HexPrefixKept(Word(v));
    DecodeEncode(Word(v));
  }

  /** Reading a transfer call back: 68 bytes, the selector, recipient and amount. */
  function ReadTransferCall(sum: Checksum, selector: Selector, calldata: string): (r: Option<(string, nat)>)
  {
    var b := DecodeString(calldata);
    if b.Err? || |b.value| != 68 || b.value[..4] != selector || b.value[4..16] != NulBytes(12) then None
    else
      var addr := EncodeAddress(sum, [ADDRESS_PREFIX] + b.value[16..36]);
      if addr.Err? then None else Some((addr.value, Value(b.value[36..], 256)))
  }

  lemma CallParts(selector: Selector, raw: seq<Byte>, amount: int)
    requires IsRaw(raw) && Abs(amount) < TWO_256
    ensures var b := TransferCall(selector, raw, amount);
            |b| == 68 && b[..4] == selector && b[4..16] == NulBytes(12) && b[16..36] == raw[1..] && b[36..] == Word(Abs(amount))
  {
  }

  /** Calldata is built exactly for valid recipients and amounts below 2^256 in
      size, and then says who is paid and how much. */
  lemma {:induction false} CalldataReadsBack(sum: Checksum, selector: Selector, to: string, amount: int)
    ensures TransferCalldata(sum, selector, to, amount).Ok? <==> DecodeAddress(sum, to).Ok? && Abs(amount) < TWO_256
    ensures TransferCalldata(sum, selector, to, amount).Ok? ==>
              ReadTransferCall(sum, selector, TransferCalldata(sum, selector, to, amount).value) == Some((to, Abs(amount)))
  {
    hide DecodeString, EncodeToString, EncodeAddress, DecodeAddress, TransferCall, Word, NulBytes;
    if TransferCalldata(sum, selector, to, amount).Ok? {
      EncodeOfDecodedAddress(sum, to);
      var raw := DecodeAddress(sum, to).value;
      DecodeEncode(TransferCall(selector, raw, amount));
      CallParts(selector, raw, amount);
      assert [ADDRESS_PREFIX] + raw[1..] == raw;
    }
  }
}
