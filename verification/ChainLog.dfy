/** Receipts and event logs as the node gateway returns them
    (internal/chain/gateway.go), and the TRC20 Transfer a log carries. */
module ChainLog {
  import opened Wrappers
  import opened Text
  import opened Hex
  import opened Address
  import Tx

  datatype TxLog = TxLog(address: string, topics: seq<string>, data: string)

  datatype TxInfo = TxInfo(id: string, blockNumber: int, result: string, resMessage: string,
                           receiptResult: string, log: seq<TxLog>)
  {
    predicate Succeeded()
    {
      && (NormResult(result) == "" || NormResult(result) == "SUCCESS")
      && resMessage == ""
      && (NormResult(receiptResult) == "" || NormResult(receiptResult) == "SUCCESS")
    }
  }

  function NormResult(s: string): (r: string)
  {
    ToUpper(TrimSpace(s))
  }

  /** The checksum function and the Transfer event topic. */
  datatype Codec = Codec(sum: Checksum, topic: string)

  datatype Transfer = Transfer(contract: string, from: string, to: string, amount: nat)

  /** An indexed three-topic Transfer event, or nothing. */
  function DecodeLog(codec: Codec, lg: TxLog): (r: Option<Transfer>)
  {
    if |lg.topics| != 3 || !EqualFold(lg.topics[0], codec.topic) then None
    else
      match (HexToAddress(codec.sum, lg.address), HexToAddress(codec.sum, lg.topics[1]),
             HexToAddress(codec.sum, lg.topics[2]), Tx.ParseUint256(lg.data))
      case (Ok(contract), Ok(from), Ok(to), Some(amount)) => Some(Transfer(contract, from, to, amount))
      case _ => None
  }

  /** The log of a transfer between raw addresses, as a node writes it. */
  function TransferLog(codec: Codec, contract: seq<Byte>, from: seq<Byte>, to: seq<Byte>, amount: nat): (r: TxLog)
    requires |contract| == 20 && |from| == 20 && |to| == 20 && amount < Tx.TWO_256
  {
    TxLog(EncodeToString(contract),
          [codec.topic, EncodeToString(NulBytes(12) + from), EncodeToString(NulBytes(12) + to)],
          EncodeToString(Tx.Word(amount)))
  }

  /** Decoding reads back what was transferred. */
  lemma {:induction false} DecodeOfTransferLog(codec: Codec, contract: seq<Byte>, from: seq<Byte>, to: seq<Byte>, amount: nat)
    requires |contract| == 20 && |from| == 20 && |to| == 20 && amount < Tx.TWO_256
    ensures var t := DecodeLog(codec, TransferLog(codec, contract, from, to, amount));
            && t.Some? && t.value.amount == amount
            && EncodeAddress(codec.sum, [ADDRESS_PREFIX] + contract) == Ok(t.value.contract)
            && EncodeAddress(codec.sum, [ADDRESS_PREFIX] + from) == Ok(t.value.from)
            && EncodeAddress(codec.sum, [ADDRESS_PREFIX] + to) == Ok(t.value.to)
  {
    hide HexToAddress, EncodeToString, EncodeAddress;
    FormsAgree(codec.sum, contract, NulBytes(12));
    FormsAgree(codec.sum, from, NulBytes(12));
    FormsAgree(codec.sum, to, NulBytes(12));
    HexToAddressOf(codec.sum, contract);
    HexToAddressOf(codec.sum, from);
    HexToAddressOf(codec.sum, to);
    Tx.ParseOfWord(amount);
  }

  /** A transfer of 5 between 20-byte accounts of zeros, ones and twos, its log, and
      the codec both are read with. */
  lemma {:induction false} SampleTransfer() returns (codec: Codec, lg: TxLog, t: Transfer)
    ensures DecodeLog(codec, lg) == Some(t) && t.amount == 5 && t.from != ""
  {
    hide EncodeAddress, DecodeLog, EncodeToString;
    codec := Codec(_ => [0, 0, 0, 0], "ddf252ad");
    var body := (d: Byte) => seq(20, _ => d);
    lg := TransferLog(codec, body(0), body(1), body(2), 5);
    DecodeOfTransferLog(codec, body(0), body(1), body(2), 5);
    NonEmpty(codec.sum, [ADDRESS_PREFIX] + body(1));
    t := DecodeLog(codec, lg).value;
  }

  lemma NonEmpty(sum: Checksum, raw: seq<Byte>)
    requires IsRaw(raw)
    ensures EncodeAddress(sum, raw).Ok? && EncodeAddress(sum, raw).value != ""
  {
    hide EncodeAddress;
    EncodedShape(sum, raw);
  }

  lemma SuccessText()
    ensures NormResult("SUCCESS") == "SUCCESS" && NormResult("") == ""
  {
    TrimSpaceFixes("SUCCESS");
    TrimSpaceFixes("");
    assert ToUpper("SUCCESS") == "SUCCESS";
  }
}
