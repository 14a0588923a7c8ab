/** The tables of the deposit scanner and what relates them to the blocks it committed
    (internal/scanner/scanner.go), as values. */
module ScanState {
  import opened Wrappers
  import opened Text
  import opened ChainLog
  import opened EventIds
  import opened Deposits

  datatype Cursor = Cursor(number: int, hash: string)

  datatype Snapshot = Snapshot(hash: string, parent: string)

  datatype DepositStatus = Pending | Confirmed | Orphaned

  /** A deposit_record row; its id is its position. */
  datatype Row = Row(d: Deposit, blockNumber: int, status: DepositStatus, confirmations: int)

  datatype DepositEvent = DepositEvent(txid: string, index: nat, contract: string, from: string, to: string, amount: nat, blockNumber: int)

  /** What happened, for the proofs only: every committed scan, the latest one per
      height, where the cursor was last placed without scanning, and whether it was
      ever moved other than forward. */
  datatype History = History(commits: seq<Commit>, latest: map<int, Commit>, anchor: int, moved: bool)

  function SnapOf(b: Block): (r: Snapshot)
  {
    Snapshot(b.id, b.parent)
  }

  /** The parent check of tick; a missing hash on either side passes. */
  predicate Linked(hash: string, parent: string)
  {
    hash == "" || parent == "" || EqualFold(parent, hash)
  }

  // -------------------------------------------------------------- the snapshots

  /** From the anchor to the cursor: what is retained has no hole up to the cursor, is
      linked by parent hash and ends at the cursor's hash. */
  ghost predicate Chained(c: Cursor, anchor: int, snaps: map<int, Snapshot>)
  {
    && anchor <= c.number
    && (anchor < c.number ==> c.number in snaps && snaps[c.number].hash == c.hash)
    && forall n :: anchor < n < c.number && n in snaps ==>
         n + 1 in snaps && Linked(snaps[n].hash, snaps[n + 1].parent)
  }

  /** Said outright: any two retained heights have everything between them retained. */
  lemma {:induction false} NoHoles(c: Cursor, anchor: int, snaps: map<int, Snapshot>, n: int, m: int)
    requires Chained(c, anchor, snaps) && anchor < n <= m <= c.number && n in snaps
    ensures m in snaps
    decreases m - n
  {
    if n < m {
      NoHoles(c, anchor, snaps, n + 1, m);
    }
  }

  /** No height between anchor and cursor was skipped, and every snapshot is of the
      block last committed at its height. */
  ghost predicate Scanned(c: Cursor, snaps: map<int, Snapshot>, h: History)
  {
    && (forall n :: h.anchor < n <= c.number ==> n in h.latest)
    && (forall n :: n in snaps ==> n in h.latest && snaps[n] == SnapOf(h.latest[n].data.block))
  }

  ghost predicate LatestMatch(h: History)
  {
    && (forall n :: n in h.latest ==> h.latest[n].data.block.number == n && h.latest[n] in h.commits)
    && (forall k :: 0 <= k < |h.commits| ==> h.commits[k].data.block.number in h.latest)
  }

  /** A node that always tells the same chain. */
  ghost predicate Steady(ledger: Option<int -> BlockData>, h: History)
  {
    ledger.Some? ==>
      forall k :: 0 <= k < |h.commits| ==> h.commits[k].data == ledger.value(h.commits[k].data.block.number)
  }

  /** Until the cursor is ever moved back or realigned, only blocks from the anchor on
      are scanned, at most one of them past the cursor. */
  ghost predicate Forward(cursor: Option<Cursor>, h: History)
  {
    && (cursor.None? ==> h.commits == [] && h.latest == map[])
    && (cursor.Some? && !h.moved ==> forall n :: n in h.latest ==> h.anchor < n <= cursor.value.number + 1)
  }

  // ------------------------------------------------------ deposits and the outbox

  ghost predicate RowsMatch(cfg: ScanConfig, rows: seq<Row>, commits: seq<Commit>)
  {
    RowsOf(rows, Replayed(cfg, commits))
  }

  function RowKey(r: Row): (out: string)
  {
    DepositEventId(r.d.txid, r.d.eventIndex)
  }

  predicate Announced(r: Row)
  {
    r.status == Confirmed && !r.d.internal
  }

  function EventOf(r: Row): (out: DepositEvent)
  {
    DepositEvent(r.d.txid, r.d.eventIndex, r.d.contract, r.d.from, r.d.to, r.d.amount, r.blockNumber)
  }

  /** A deposit event exists exactly for the confirmed deposits that are not internal. */
  ghost predicate OutboxMatch(rows: seq<Row>, outbox: map<string, DepositEvent>)
  {
    && (forall i :: 0 <= i < |rows| ==> (RowKey(rows[i]) in outbox <==> Announced(rows[i])))
    && (forall i :: 0 <= i < |rows| && Announced(rows[i]) ==> outbox[RowKey(rows[i])] == EventOf(rows[i]))
    && (forall key :: key in outbox ==> exists i :: 0 <= i < |rows| && RowKey(rows[i]) == key)
  }

  ghost predicate RowKeysUnique(rows: seq<Row>)
  {
    forall i, j :: 0 <= i < j < |rows| ==> RowKey(rows[i]) != RowKey(rows[j])
  }

  /** The future of a row: what it says stays, a decided row is frozen. */
  ghost predicate RowsLater(rows: seq<Row>, rows': seq<Row>)
  {
    && |rows| <= |rows'|
    && forall i :: 0 <= i < |rows| ==> rows'[i].d == rows[i].d && (rows[i].status != Pending ==> rows'[i] == rows[i])
  }

  lemma RowsLaterSelf(a: seq<Row>)
    ensures RowsLater(a, a)
  {
  }

  lemma RowsLaterTrans(a: seq<Row>, b: seq<Row>, c: seq<Row>)
    requires RowsLater(a, b) && RowsLater(b, c)
    ensures RowsLater(a, c)
  {
  }

  lemma {:induction false} MatchedKeysUnique(cfg: ScanConfig, rows: seq<Row>, commits: seq<Commit>)
    requires RowsMatch(cfg, rows, commits)
    ensures RowKeysUnique(rows)
  {
    hide DepositEventId;
    ReplayedUnique(cfg, commits);
    forall i, j | 0 <= i < j < |rows| ensures RowKey(rows[i]) != RowKey(rows[j]) {
      var a, b := rows[i].d, rows[j].d;
      if RowKey(rows[i]) == RowKey(rows[j]) {
        EventIdInjective(a.txid, a.eventIndex, b.txid, b.eventIndex);
      }
    }
  }

  /** New rows are pending and do not disturb the outbox. */
  lemma {:induction false} OutboxAppend(rows: seq<Row>, rows': seq<Row>, outbox: map<string, DepositEvent>)
    requires OutboxMatch(rows, outbox) && RowKeysUnique(rows') && rows <= rows'
    requires forall i :: |rows| <= i < |rows'| ==> rows'[i].status == Pending
    ensures OutboxMatch(rows', outbox)
  {
    hide RowKey, EventOf;
    forall i | |rows| <= i < |rows'| ensures RowKey(rows'[i]) !in outbox {
      assert forall j :: 0 <= j < |rows| ==> rows[j] == rows'[j] && RowKey(rows[j]) != RowKey(rows'[i]);
    }
    forall key | key in outbox ensures exists i :: 0 <= i < |rows'| && RowKey(rows'[i]) == key {
      var i :| 0 <= i < |rows| && RowKey(rows[i]) == key;
      assert RowKey(rows'[i]) == key;
    }
  }

  /** Orphaning pending rows does not disturb it either. */
  lemma {:induction false} OutboxQuiet(rows: seq<Row>, rows': seq<Row>, outbox: map<string, DepositEvent>)
    requires OutboxMatch(rows, outbox) && |rows'| == |rows|
    requires forall i :: 0 <= i < |rows| ==>
               rows'[i].d == rows[i].d && (rows'[i] == rows[i] || (rows[i].status == Pending && rows'[i].status != Confirmed))
    ensures OutboxMatch(rows', outbox)
  {
    hide DepositEventId;
    forall key | key in outbox ensures exists i :: 0 <= i < |rows'| && RowKey(rows'[i]) == key {
      var i :| 0 <= i < |rows| && RowKey(rows[i]) == key;
      assert RowKey(rows'[i]) == key;
    }
  }

  /** Confirming one row adds its event, unless it is internal. */
  lemma {:induction false} OutboxConfirm(rows: seq<Row>, outbox: map<string, DepositEvent>, i: nat, r: Row)
    requires OutboxMatch(rows, outbox) && RowKeysUnique(rows) && i < |rows| && rows[i].status == Pending
    requires r.d == rows[i].d && r.status == Confirmed
    ensures OutboxMatch(rows[i := r], if r.d.internal then outbox else outbox[RowKey(r) := EventOf(r)])
    ensures RowKey(r) !in outbox
  {
    hide DepositEventId;
    var rows' := rows[i := r];
    var outbox' := if r.d.internal then outbox else outbox[RowKey(r) := EventOf(r)];
    assert RowKey(rows[i]) == RowKey(r);
    forall key | key in outbox' ensures exists j :: 0 <= j < |rows'| && RowKey(rows'[j]) == key {
      if key in outbox {
        var j :| 0 <= j < |rows| && RowKey(rows[j]) == key;
        assert RowKey(rows'[j]) == key;
      } else {
        assert RowKey(rows'[i]) == key;
      }
    }
  }

  /** An event exists for a key exactly when a confirmed deposit that is not internal
      has it, which is then the only one with that key, and tells that deposit. */
  lemma {:induction false} EventsAreExact(cfg: ScanConfig, rows: seq<Row>, commits: seq<Commit>, outbox: map<string, DepositEvent>, key: string)
    requires RowsMatch(cfg, rows, commits) && OutboxMatch(rows, outbox)
    ensures key in outbox <==> exists i :: 0 <= i < |rows| && RowKey(rows[i]) == key && Announced(rows[i])
    ensures key in outbox ==> exists i :: 0 <= i < |rows| && RowKey(rows[i]) == key && outbox[key] == EventOf(rows[i])
    ensures RowKeysUnique(rows)
  {
    hide RowKey, EventOf, RowsMatch;
    MatchedKeysUnique(cfg, rows, commits);
    if key in outbox {
      var i :| 0 <= i < |rows| && RowKey(rows[i]) == key;
      assert Announced(rows[i]);
    }
  }

  // ------------------------------------------------------------------- confirming

  /** What the receipt makes of a pending row (confirmOne): gone or reverted orphans
      it, anything else confirms it in the block the receipt now names. */
  function Decided(r: Row, receipt: Option<TxInfo>, head: int): (out: Row)
  {
    if receipt.None? || !receipt.value.Succeeded() then r.(status := Orphaned)
    else r.(status := Confirmed, blockNumber := receipt.value.blockNumber, confirmations := head - receipt.value.blockNumber)
  }

  /** A pending row at the depth to be confirmed. */
  predicate Ripe(r: Row, limit: int)
  {
    r.status == Pending && r.blockNumber <= limit
  }

  /** A pending row is where it was seen; a confirmed one that stayed there has the
      depth asked for. */
  predicate Deep(cfg: ScanConfig, r: Row)
  {
    && (r.status == Pending ==> r.blockNumber == r.d.seenIn)
    && (r.status == Confirmed && r.blockNumber == r.d.seenIn ==> r.confirmations >= cfg.confirmations)
  }

  ghost predicate RowsDeep(cfg: ScanConfig, rows: seq<Row>)
  {
    forall i :: 0 <= i < |rows| ==> Deep(cfg, rows[i])
  }

  lemma DecidedDeep(cfg: ScanConfig, r: Row, receipt: Option<TxInfo>, head: int)
    requires Deep(cfg, r) && Ripe(r, head - cfg.confirmations)
    ensures Deep(cfg, Decided(r, receipt, head)) && Decided(r, receipt, head).status != Pending
  {
  }

  // ------------------------------------------------------------------- inserting

  /** A new pending row for a record, unless its key is in the table. */
  function AddRow(rows: seq<Row>, d: Deposit): (out: seq<Row>)
  {
    if exists i :: 0 <= i < |rows| && SameKey(rows[i].d, d) then rows else rows + [Row(d, d.seenIn, Pending, 0)]
  }

  function AddRows(rows: seq<Row>, recs: seq<Deposit>): (out: seq<Row>)
  {
    if recs == [] then rows else AddRow(AddRows(rows, recs[..|recs| - 1]), recs[|recs| - 1])
  }

  /** The rows are of the deposits ds. */
  ghost predicate RowsOf(rows: seq<Row>, ds: seq<Deposit>)
  {
    |rows| == |ds| && forall i :: 0 <= i < |rows| ==> rows[i].d == ds[i]
  }

  lemma AddRowIs(rows: seq<Row>, ds: seq<Deposit>, d: Deposit)
    requires RowsOf(rows, ds)
    ensures RowsOf(AddRow(rows, d), Insert(ds, d))
  {
    if i :| 0 <= i < |rows| && SameKey(rows[i].d, d) { assert SameKey(ds[i], d); }
    if i :| 0 <= i < |ds| && SameKey(ds[i], d) { assert SameKey(rows[i].d, d); }
  }

  /** Inserting rows is inserting deposits. */
  lemma {:induction false} AddRowsAre(rows: seq<Row>, ds: seq<Deposit>, recs: seq<Deposit>)
    requires RowsOf(rows, ds)
    ensures RowsOf(AddRows(rows, recs), InsertAll(ds, recs))
  {
    hide AddRow, Insert;
    if recs != [] {
      AddRowsAre(rows, ds, recs[..|recs| - 1]);
      AddRowIs(AddRows(rows, recs[..|recs| - 1]), InsertAll(ds, recs[..|recs| - 1]), recs[|recs| - 1]);
    }
  }

  /** What was there stays; what is new is pending, where it was seen. */
  lemma {:induction false} AddRowsGrow(rows: seq<Row>, recs: seq<Deposit>)
    ensures rows <= AddRows(rows, recs)
    ensures forall i :: |rows| <= i < |AddRows(rows, recs)| ==>
              var d := AddRows(rows, recs)[i].d; d in recs && AddRows(rows, recs)[i] == Row(d, d.seenIn, Pending, 0)
  {
    hide SameKey;
    if recs != [] {
      AddRowsGrow(rows, recs[..|recs| - 1]);
    }
  }

  /** Pending rows above f orphaned, all else as before. */
  function OrphanAll(rows: seq<Row>, f: int): (out: seq<Row>)
    ensures |out| == |rows|
  {
    seq(|rows|, i requires 0 <= i < |rows| =>
      if rows[i].status == Pending && rows[i].blockNumber > f then rows[i].(status := Orphaned) else rows[i])
  }

  // ------------------------------------------------------------- the scan history

  /** One more committed block, one past the cursor. */
  function Commits(h: History, c: Commit): (h': History)
  {
    h.(commits := h.commits + [c], latest := h.latest[c.data.block.number := c])
  }

  lemma {:induction false} CommitKeeps(cfg: ScanConfig, ledger: Option<int -> BlockData>, cursor: Cursor, snaps: map<int, Snapshot>, h: History, c: Commit)
    requires Chained(cursor, h.anchor, snaps) && Scanned(cursor, snaps, h) && LatestMatch(h) && Steady(ledger, h) && Forward(Some(cursor), h)
    requires c.data.block.number == cursor.number + 1
    requires ledger.Some? ==> c.data == ledger.value(cursor.number + 1)
    ensures var b := c.data.block; var h', snaps' := Commits(h, c), snaps[b.number := SnapOf(b)];
      && Chained(cursor, h'.anchor, snaps') && Scanned(cursor, snaps', h') && LatestMatch(h')
      && Steady(ledger, h') && Forward(Some(cursor), h')
  {
    var h' := Commits(h, c);
    forall n | n in h'.latest ensures h'.latest[n].data.block.number == n && h'.latest[n] in h'.commits {
      assert c == h'.commits[|h.commits|];
    }
  }

  /** Moving the cursor onto the block just committed, whose parent was checked. */
  lemma {:induction false} AdvanceKeeps(cursor: Cursor, snaps: map<int, Snapshot>, h: History)
    requires Chained(cursor, h.anchor, snaps) && Scanned(cursor, snaps, h) && Forward(Some(cursor), h)
    requires cursor.number + 1 in snaps && Linked(cursor.hash, snaps[cursor.number + 1].parent)
    ensures var cursor' := Cursor(cursor.number + 1, snaps[cursor.number + 1].hash);
      Chained(cursor', h.anchor, snaps) && Scanned(cursor', snaps, h) && Forward(Some(cursor'), h)
  {
    hide Linked;
  }

  function Upto(snaps: map<int, Snapshot>, f: int): (r: map<int, Snapshot>)
  {
    map n | n in snaps && n <= f :: snaps[n]
  }

  function From(snaps: map<int, Snapshot>, f: int): (r: map<int, Snapshot>)
  {
    map n | n in snaps && n >= f :: snaps[n]
  }

  /** After a rollback to a retained height the chain ends there. */
  function RolledBack(h: History, f: int): (h': History)
  {
    h.(anchor := if f < h.anchor then f else h.anchor, moved := true)
  }

  lemma {:induction false} RollbackKeeps(cursor: Cursor, snaps: map<int, Snapshot>, h: History, f: int)
    requires Chained(cursor, h.anchor, snaps) && Scanned(cursor, snaps, h) && f <= cursor.number && f in snaps
    ensures var cursor', h', snaps' := Cursor(f, snaps[f].hash), RolledBack(h, f), Upto(snaps, f);
      Chained(cursor', h'.anchor, snaps') && Scanned(cursor', snaps', h')
  {
    hide Linked;
  }

  lemma {:induction false} PruneKeeps(cursor: Cursor, snaps: map<int, Snapshot>, h: History, f: int)
    requires Chained(cursor, h.anchor, snaps) && Scanned(cursor, snaps, h) && f <= cursor.number
    ensures Chained(cursor, h.anchor, From(snaps, f)) && Scanned(cursor, From(snaps, f), h)
  {
    hide Linked;
  }

  // ----------------------------------------------------------- reorg-free runs

  /** A log in block n of the ledger that is a deposit to a known wallet. */
  ghost predicate Due(cfg: ScanConfig, wallets: map<string, Wallet>, ledger: int -> BlockData, n: int, d: Deposit)
  {
    exists i: nat, index: nat :: Stands(cfg, wallets, PlainLookup(), ledger(n), i, index, d)
  }

  ghost predicate DueIn(cfg: ScanConfig, wallets: map<string, Wallet>, ledger: int -> BlockData, heights: set<int>, d: Deposit)
  {
    exists n :: n in heights && Due(cfg, wallets, ledger, n, d)
  }

  /** Transaction ids are unique on a chain, so keys are. */
  ghost predicate LedgerKeys(cfg: ScanConfig, wallets: map<string, Wallet>, ledger: int -> BlockData)
  {
    forall n, m, d, d' :: Due(cfg, wallets, ledger, n, d) && Due(cfg, wallets, ledger, m, d') && SameKey(d, d') ==> d == d'
  }

  ghost predicate SameTables(h: History, wallets: map<string, Wallet>)
  {
    forall k :: 0 <= k < |h.commits| ==> h.commits[k].wallets == wallets && CoversWallets(h.commits[k].filter, wallets)
  }

  lemma {:induction false} CommitRecordsDue(cfg: ScanConfig, wallets: map<string, Wallet>, ledger: int -> BlockData, c: Commit, d: Deposit)
    requires c.wallets == wallets && CoversWallets(c.filter, wallets) && c.data == ledger(c.data.block.number)
    ensures d in CommitRecords(cfg, c) <==> Due(cfg, wallets, ledger, c.data.block.number, d)
  {
    hide Stands, Records;
    CoveredRecords(cfg, wallets, c.filter, c.data, |c.data.infos|);
    RecordsHold(cfg, wallets, PlainLookup(), c.data, |c.data.infos|, d);
    if Due(cfg, wallets, ledger, c.data.block.number, d) {
      var i: nat, index: nat :| Stands(cfg, wallets, PlainLookup(), ledger(c.data.block.number), i, index, d);
      StandsBelow(cfg, wallets, c.data, i, index, d);
    }
  }

  lemma StandsBelow(cfg: ScanConfig, wallets: map<string, Wallet>, data: BlockData, i: nat, index: nat, d: Deposit)
    requires Stands(cfg, wallets, PlainLookup(), data, i, index, d)
    ensures i < |data.infos|
  {
  }

  lemma {:induction false} CommittedIffDue(cfg: ScanConfig, wallets: map<string, Wallet>, ledger: int -> BlockData, h: History, d: Deposit)
    requires Steady(Some(ledger), h) && SameTables(h, wallets) && LatestMatch(h)
    ensures Committed(cfg, h.commits, d) <==> DueIn(cfg, wallets, ledger, h.latest.Keys, d)
  {
    hide CommitRecords, Due, CoversWallets;
    if Committed(cfg, h.commits, d) {
      var k :| 0 <= k < |h.commits| && d in CommitRecords(cfg, h.commits[k]);
      CommitRecordsDue(cfg, wallets, ledger, h.commits[k], d);
      assert h.commits[k].data.block.number in h.latest.Keys;
    }
    if DueIn(cfg, wallets, ledger, h.latest.Keys, d) {
      var n :| n in h.latest.Keys && Due(cfg, wallets, ledger, n, d);
      var c := h.latest[n];
      var k :| 0 <= k < |h.commits| && h.commits[k] == c;
      CommitRecordsDue(cfg, wallets, ledger, c, d);
      assert d in CommitRecords(cfg, h.commits[k]);
    }
  }

  /** On a chain that never forks, after any crashes and replays, the deposits are
      exactly the logs due in the scanned blocks, each once. */
  lemma {:induction false} DepositsAreExact(cfg: ScanConfig, wallets: map<string, Wallet>, ledger: int -> BlockData, rows: seq<Row>, h: History, d: Deposit)
    requires RowsMatch(cfg, rows, h.commits) && LatestMatch(h) && Steady(Some(ledger), h) && SameTables(h, wallets)
    requires LedgerKeys(cfg, wallets, ledger)
    ensures (exists i :: 0 <= i < |rows| && rows[i].d == d) <==> DueIn(cfg, wallets, ledger, h.latest.Keys, d)
    ensures RowKeysUnique(rows)
  {
    hide Due, Committed, SameTables, Steady, LatestMatch, SameKey;
    MatchedKeysUnique(cfg, rows, h.commits);
    CommittedIffDue(cfg, wallets, ledger, h, d);
    ReplayedHolds(cfg, h.commits, d);
    var ds := Replayed(cfg, h.commits);
    if i :| 0 <= i < |rows| && rows[i].d == d {
      assert ds[i] == d;
    }
    if DueIn(cfg, wallets, ledger, h.latest.Keys, d) {
      var i :| 0 <= i < |ds| && SameKey(ds[i], d);
      ReplayedHolds(cfg, h.commits, ds[i]);
      CommittedIffDue(cfg, wallets, ledger, h, ds[i]);
      assert ds[i] == d;
    }
  }
}
