/** From receipts to deposit rows (decodeTransfer, parseLog and the insert of scanBlock
    in internal/scanner/scanner.go), as values. */
module Deposits {
  import opened Wrappers
  import opened Text
  import opened Address
  import opened ChainLog
  import Tx

  datatype Token = Token(symbol: string, decimals: nat)

  datatype Wallet = Wallet(purpose: string, merchant: string, account: string, uid: string)

  datatype ScanConfig = ScanConfig(codec: Codec, tokens: map<string, Token>, minUnit: int, confirmations: int,
                                   reorgDepth: int, batchBlocks: int, startBlock: int)

  datatype Block = Block(number: int, id: string, parent: string)

  /** A block as fetched, with the receipts of its transactions. */
  datatype BlockData = BlockData(block: Block, infos: seq<TxInfo>)

  /** What a deposit row says for good; (txid, eventIndex) is its key. */
  datatype Deposit = Deposit(txid: string, eventIndex: nat, contract: string, symbol: string, from: string, to: string,
                             amount: nat, internal: bool, merchant: string, seenIn: int, seenHash: string)

  // ------------------------------------------------------------------- one log

  function DecodeTransfer(cfg: ScanConfig, lg: TxLog): (r: Option<Transfer>)
  {
    if |lg.topics| != 3 || !EqualFold(lg.topics[0], cfg.codec.topic) then None
    else
      var contract := HexToAddress(cfg.codec.sum, lg.address);
      if contract.Err? || contract.value !in cfg.tokens then None
      else
        var from := HexToAddress(cfg.codec.sum, lg.topics[1]);
        if from.Err? then None
        else
          var to := HexToAddress(cfg.codec.sum, lg.topics[2]);
          if to.Err? then None
          else
            var amount := Tx.ParseUint256(lg.data);
            if amount.None? || amount.value <= 0 then None
            else if cfg.minUnit > 0 && amount.value < cfg.minUnit then None
            else Some(Transfer(contract.value, from.value, to.value, amount.value))
  }

  /** A deposit can only come from a Transfer event of a listed token, positive and
      above the dust threshold. */
  predicate Qualifies(cfg: ScanConfig, t: Transfer)
  {
    t.contract in cfg.tokens && t.amount > 0 && (cfg.minUnit > 0 ==> t.amount >= cfg.minUnit)
  }

  lemma {:induction false} DecodesQualifying(cfg: ScanConfig, lg: TxLog, t: Transfer)
    ensures DecodeTransfer(cfg, lg) == Some(t) <==> DecodeLog(cfg.codec, lg) == Some(t) && Qualifies(cfg, t)
  {
    hide HexToAddress, Tx.ParseUint256, EqualFold;
  }

  function DepositOf(cfg: ScanConfig, t: Transfer, txid: string, index: nat, block: Block, w: Wallet, internal: bool): (r: Deposit)
    requires t.contract in cfg.tokens
  {
    Deposit(txid, index, t.contract, cfg.tokens[t.contract].symbol, t.from, t.to, t.amount,
            internal || w.purpose != "deposit", w.merchant, block.number, block.id)
  }

  /** The row a log stands for, if its recipient is in user_wallet and the address
      filter lets the lookup happen. */
  function ParseLog(cfg: ScanConfig, wallets: map<string, Wallet>, filter: string -> bool,
                    info: TxInfo, index: nat, block: Block): (r: Option<Deposit>)
    requires index < |info.log|
  {
    var t := DecodeTransfer(cfg, info.log[index]);
    if t.None? || !filter(t.value.to) || t.value.to !in wallets then None
    else
      DecodesQualifying(cfg, info.log[index], t.value);
      Some(DepositOf(cfg, t.value, info.id, index, block, wallets[t.value.to],
                     filter(t.value.from) && t.value.from in wallets))
  }

  function PlainLookup(): (r: string -> bool)
  {
    _ => true
  }

  /** Filtering first changes nothing for a log exactly when the filter knows the
      wallets it names: the recipient, and the sender where that decides anything. */
  lemma {:induction false} FilterAgrees(cfg: ScanConfig, wallets: map<string, Wallet>, filter: string -> bool,
                                        info: TxInfo, index: nat, block: Block, t: Transfer)
    requires index < |info.log| && DecodeTransfer(cfg, info.log[index]) == Some(t)
    ensures ParseLog(cfg, wallets, filter, info, index, block) == ParseLog(cfg, wallets, PlainLookup(), info, index, block)
            <==> (t.to in wallets ==>
                    filter(t.to) && (t.from in wallets && wallets[t.to].purpose == "deposit" ==> filter(t.from)))
  {
    hide DecodeTransfer;
  }

  predicate CoversWallets(filter: string -> bool, wallets: map<string, Wallet>)
  {
    forall a :: a in wallets ==> filter(a)
  }

  // ----------------------------------------------------------------- one block

  function LogRecords(cfg: ScanConfig, wallets: map<string, Wallet>, filter: string -> bool,
                      info: TxInfo, n: nat, block: Block): (r: seq<Deposit>)
    requires n <= |info.log|
  {
    if n == 0 then []
    else
      var rec := ParseLog(cfg, wallets, filter, info, n - 1, block);
      LogRecords(cfg, wallets, filter, info, n - 1, block) + if rec.Some? then [rec.value] else []
  }

  /** Reverted transactions never create a deposit. */
  function InfoRecords(cfg: ScanConfig, wallets: map<string, Wallet>, filter: string -> bool, info: TxInfo, block: Block): (out: seq<Deposit>)
  {
    if info.Succeeded() then LogRecords(cfg, wallets, filter, info, |info.log|, block) else []
  }

  function Records(cfg: ScanConfig, wallets: map<string, Wallet>, filter: string -> bool, data: BlockData, n: nat): (out: seq<Deposit>)
    requires n <= |data.infos|
  {
    if n == 0 then []
    else Records(cfg, wallets, filter, data, n - 1) + InfoRecords(cfg, wallets, filter, data.infos[n - 1], data.block)
  }

  /** Deposit d is what log `index` of receipt i of the block stands for. */
  predicate Stands(cfg: ScanConfig, wallets: map<string, Wallet>, filter: string -> bool, data: BlockData, i: nat, index: nat, d: Deposit)
  {
    && i < |data.infos| && index < |data.infos[i].log| && data.infos[i].Succeeded()
    && ParseLog(cfg, wallets, filter, data.infos[i], index, data.block) == Some(d)
  }

  lemma {:induction false} LogRecordsHold(cfg: ScanConfig, wallets: map<string, Wallet>, filter: string -> bool,
                                          info: TxInfo, n: nat, block: Block, d: Deposit)
    requires n <= |info.log|
    ensures d in LogRecords(cfg, wallets, filter, info, n, block) <==>
            exists index: nat :: index < n && ParseLog(cfg, wallets, filter, info, index, block) == Some(d)
  {
    hide ParseLog;
    if n > 0 {
      LogRecordsHold(cfg, wallets, filter, info, n - 1, block, d);
      if index: nat :| index < n && ParseLog(cfg, wallets, filter, info, index, block) == Some(d) {
        assert index == n - 1 || index < n - 1;
      }
    }
  }

  /** A block's records are exactly what its successful receipts' logs stand for. */
  lemma {:induction false} RecordsHold(cfg: ScanConfig, wallets: map<string, Wallet>, filter: string -> bool, data: BlockData, n: nat, d: Deposit)
    requires n <= |data.infos|
    ensures d in Records(cfg, wallets, filter, data, n) <==>
            exists i: nat, index: nat :: i < n && Stands(cfg, wallets, filter, data, i, index, d)
  {
    hide ParseLog, LogRecords;
    if n > 0 {
      RecordsHold(cfg, wallets, filter, data, n - 1, d);
      var info := data.infos[n - 1];
      LogRecordsHold(cfg, wallets, filter, info, |info.log|, data.block, d);
      if d in InfoRecords(cfg, wallets, filter, info, data.block) {
        var index: nat :| index < |info.log| && ParseLog(cfg, wallets, filter, info, index, data.block) == Some(d);
        assert Stands(cfg, wallets, filter, data, n - 1, index, d);
      }
      if i: nat, index: nat :| i < n && Stands(cfg, wallets, filter, data, i, index, d) {
        assert i == n - 1 || i < n - 1;
      }
    }
  }

  lemma {:induction false} CoveredLogs(cfg: ScanConfig, wallets: map<string, Wallet>, filter: string -> bool, info: TxInfo, n: nat, block: Block)
    requires CoversWallets(filter, wallets) && n <= |info.log|
    ensures LogRecords(cfg, wallets, filter, info, n, block) == LogRecords(cfg, wallets, PlainLookup(), info, n, block)
  {
    hide DecodeTransfer;
    if n > 0 {
      CoveredLogs(cfg, wallets, filter, info, n - 1, block);
      var t := DecodeTransfer(cfg, info.log[n - 1]);
      if t.Some? { FilterAgrees(cfg, wallets, filter, info, n - 1, block, t.value); }
    }
  }

  /** With a filter that knows every wallet, filtering first is a plain lookup. */
  lemma {:induction false} CoveredRecords(cfg: ScanConfig, wallets: map<string, Wallet>, filter: string -> bool, data: BlockData, n: nat)
    requires CoversWallets(filter, wallets) && n <= |data.infos|
    ensures Records(cfg, wallets, filter, data, n) == Records(cfg, wallets, PlainLookup(), data, n)
  {
    hide LogRecords;
    if n > 0 {
      CoveredRecords(cfg, wallets, filter, data, n - 1);
      var info := data.infos[n - 1];
      CoveredLogs(cfg, wallets, filter, info, |info.log|, data.block);
    }
  }

  // --------------------------------------------------------------- the table

  predicate SameKey(a: Deposit, b: Deposit)
  {
    a.txid == b.txid && a.eventIndex == b.eventIndex
  }

  predicate HasKey(rows: seq<Deposit>, d: Deposit)
  {
    exists i :: 0 <= i < |rows| && SameKey(rows[i], d)
  }

  ghost predicate KeysUnique(rows: seq<Deposit>)
  {
    forall i, j :: 0 <= i < j < |rows| ==> !SameKey(rows[i], rows[j])
  }

  /** An insert that does nothing on a duplicate key. */
  function Insert(rows: seq<Deposit>, d: Deposit): (out: seq<Deposit>)
  {
    if HasKey(rows, d) then rows else rows + [d]
  }

  function InsertAll(rows: seq<Deposit>, recs: seq<Deposit>): (out: seq<Deposit>)
  {
    if recs == [] then rows else Insert(InsertAll(rows, recs[..|recs| - 1]), recs[|recs| - 1])
  }

  lemma HasKeyStays(rows: seq<Deposit>, rows': seq<Deposit>, d: Deposit)
    requires rows <= rows' && HasKey(rows, d)
    ensures HasKey(rows', d)
  {
    var i :| 0 <= i < |rows| && SameKey(rows[i], d);
    assert SameKey(rows'[i], d);
  }

  lemma {:induction false} InsertAllExtends(rows: seq<Deposit>, recs: seq<Deposit>)
    ensures rows <= InsertAll(rows, recs)
    ensures KeysUnique(rows) ==> KeysUnique(InsertAll(rows, recs))
  {
    if recs != [] {
      InsertAllExtends(rows, recs[..|recs| - 1]);
    }
  }

  /** Everything inserted is there by its key, and nothing else was added. */
  lemma {:induction false} InsertAllHolds(rows: seq<Deposit>, recs: seq<Deposit>)
    ensures forall d :: d in recs ==> HasKey(InsertAll(rows, recs), d)
    ensures forall d :: d in InsertAll(rows, recs) ==> d in rows || d in recs
  {
    hide KeysUnique, SameKey;
    if recs != [] {
      var init, last := recs[..|recs| - 1], recs[|recs| - 1];
      var before := InsertAll(rows, init);
      InsertAllHolds(rows, init);
      assert recs == init + [last];
      if !HasKey(before, last) { NewKey(before, last); }
      forall d | d in recs ensures HasKey(InsertAll(rows, recs), d) {
        if d in init { HasKeyStays(before, Insert(before, last), d); }
      }
    }
  }

  lemma NewKey(rows: seq<Deposit>, d: Deposit)
    ensures HasKey(rows + [d], d)
  {
    assert SameKey((rows + [d])[|rows|], d);
  }

  // -------------------------------------------------------------- all commits

  /** One committed scan of a block, with the tables it was looked up in. */
  datatype Commit = Commit(data: BlockData, wallets: map<string, Wallet>, filter: string -> bool)

  function CommitRecords(cfg: ScanConfig, c: Commit): (out: seq<Deposit>)
  {
    Records(cfg, c.wallets, c.filter, c.data, |c.data.infos|)
  }

  /** The deposits of a history of scans, in the order of their ids. */
  function Replayed(cfg: ScanConfig, commits: seq<Commit>): (out: seq<Deposit>)
  {
    if commits == [] then []
    else InsertAll(Replayed(cfg, commits[..|commits| - 1]), CommitRecords(cfg, commits[|commits| - 1]))
  }

  lemma ReplayedSnoc(cfg: ScanConfig, commits: seq<Commit>, c: Commit)
    ensures Replayed(cfg, commits + [c]) == InsertAll(Replayed(cfg, commits), CommitRecords(cfg, c))
  {
    assert (commits + [c])[..|commits|] == commits;
  }

  lemma {:induction false} ReplayedUnique(cfg: ScanConfig, commits: seq<Commit>)
    ensures KeysUnique(Replayed(cfg, commits))
  {
    if commits != [] {
      ReplayedUnique(cfg, commits[..|commits| - 1]);
      InsertAllExtends(Replayed(cfg, commits[..|commits| - 1]), CommitRecords(cfg, commits[|commits| - 1]));
    }
  }

  predicate Committed(cfg: ScanConfig, commits: seq<Commit>, d: Deposit)
  {
    exists k :: 0 <= k < |commits| && d in CommitRecords(cfg, commits[k])
  }

  /** The deposits are exactly the records of the committed blocks, by key. */
  lemma {:induction false} ReplayedHolds(cfg: ScanConfig, commits: seq<Commit>, d: Deposit)
    ensures d in Replayed(cfg, commits) ==> Committed(cfg, commits, d)
    ensures Committed(cfg, commits, d) ==> HasKey(Replayed(cfg, commits), d)
  {
    hide CommitRecords, SameKey;
    if commits != [] {
      var init, last := commits[..|commits| - 1], commits[|commits| - 1];
      var before := Replayed(cfg, init);
      ReplayedHolds(cfg, init, d);
      InsertAllHolds(before, CommitRecords(cfg, last));
      InsertAllExtends(before, CommitRecords(cfg, last));
      assert commits[|commits| - 1] == last;
      if Committed(cfg, init, d) {
        var k :| 0 <= k < |init| && d in CommitRecords(cfg, init[k]);
        assert d in CommitRecords(cfg, commits[k]);
        HasKeyStays(before, Replayed(cfg, commits), d);
      }
      if Committed(cfg, commits, d) {
        var k :| 0 <= k < |commits| && d in CommitRecords(cfg, commits[k]);
        assert k < |init| ==> d in CommitRecords(cfg, init[k]);
      }
    }
  }
}
