/** The deposit scanner (internal/scanner/scanner.go), statement by statement. Every
    database or node operation may fail, which is also where the process may crash. */
module Scanner {
  import opened Wrappers
  import opened Text
  import opened ChainLog
  import opened Deposits
  import opened ScanState
  import Runs = ScanRuns

  const TOO_DEEP := "reorg deeper than reorg_depth, manual intervention required"

  /** The node gateway. It answers with the block it was asked for or fails; with a
      ledger it always tells that one chain. A reliable deployment is one whose nodes
      and database never fail. */
  class Node {
    const ledger: Option<int -> BlockData>
    const reliable: bool

    constructor (ledger: Option<int -> BlockData>, reliable: bool)
      requires ledger.Some? ==> forall n :: ledger.value(n).block.number == n && ledger.value(n).block.id != ""
      ensures this.ledger == ledger && this.reliable == reliable && Truthful()
    {
      this.ledger, this.reliable := ledger, reliable;
    }

    ghost predicate Truthful()
    {
      ledger.Some? ==> forall n :: ledger.value(n).block.number == n && ledger.value(n).block.id != ""
    }

    method GetNowBlock() returns (r: Result<int>)
      ensures reliable ==> r.Ok?
    {
      var head: int := *;
      var failed := Fails(reliable);
      r := if failed then Err("head") else Ok(head);
    }

    method GetBlockByNum(num: int) returns (r: Result<Block>)
      requires Truthful()
      ensures r.Ok? ==> r.value.number == num && r.value.id != ""
      ensures r.Ok? && ledger.Some? ==> r.value == ledger.value(num).block
      ensures reliable ==> r.Ok?
    {
      var failed := Fails(reliable);
      if failed {
        return Err("block not found");
      }
      if ledger.Some? {
        return Ok(ledger.value(num).block);
      }
      var id := AnyText();
      var parent := AnyText();
      r := Ok(Block(num, if id == "" then "0" else id, parent));
    }

    method GetTxInfoByBlockNum(num: int) returns (r: Result<seq<TxInfo>>)
      ensures r.Ok? && ledger.Some? ==> r.value == ledger.value(num).infos
      ensures reliable ==> r.Ok?
    {
      var failed := Fails(reliable);
      if failed {
        return Err("receipts not found");
      }
      if ledger.Some? {
        return Ok(ledger.value(num).infos);
      }
      var infos := AnyInfos();
      r := Ok(infos);
    }

    method GetTxInfoByID(txid: string) returns (r: Result<Option<TxInfo>>)
      ensures reliable ==> r.Ok?
    {
      var failed := Fails(reliable);
      if failed {
        return Err("receipt not found");
      }
      var infos := AnyInfos();
      r := Ok(if |infos| == 0 then None else Some(infos[0]));
    }
  }

  method AnyInfos() returns (infos: seq<TxInfo>)
  {
    infos := *;
  }

  /** A prefetched slot: an error, or the block of its height. */
  predicate Slot(ledger: Option<int -> BlockData>, r: Result<BlockData>, num: int)
  {
    r.Ok? ==>
      r.value.block.number == num && r.value.block.id != "" && (ledger.Some? ==> r.value == ledger.value(num))
  }

  /** The last height of the batch after a cursor, if there is any. */
  function BatchEnd(cfg: ScanConfig, number: int, head: int): (r: int)
  {
    var to := if number + cfg.batchBlocks < head then number + cfg.batchBlocks else head;
    if number + 1 > to then number else to
  }

  /** A slot filled, or its height still waiting to be fetched. */
  predicate Expected(ledger: Option<int -> BlockData>, slot: Option<Result<BlockData>>, nums: seq<int>, num: int)
  {
    if slot.Some? then Slot(ledger, slot.value, num) else num in nums
  }

  method OrphanAbove(rows: seq<Row>, f: int) returns (out: seq<Row>)
    ensures out == OrphanAll(rows, f)
  {
    out := [];
    var i := 0;
    while i < |rows|
      invariant 0 <= i <= |rows| && out == OrphanAll(rows[..i], f)
    {
      var r := rows[i];
      out := out + [if r.status == Pending && r.blockNumber > f then r.(status := Orphaned) else r];
      i := i + 1;
    }
    assert rows[..i] == rows;
  }

  /** A new pending row for a record whose key is not in the table yet. */
  method InsertRow(rows: seq<Row>, d: Deposit) returns (out: seq<Row>)
    ensures out == AddRow(rows, d)
  {
    var i := 0;
    while i < |rows|
      invariant 0 <= i <= |rows| && forall j :: 0 <= j < i ==> !SameKey(rows[j].d, d)
    {
      if SameKey(rows[i].d, d) {
        return rows;
      }
      i := i + 1;
    }
    out := rows + [Row(d, d.seenIn, Pending, 0)];
  }

  method InsertRows(rows: seq<Row>, recs: seq<Deposit>) returns (out: seq<Row>)
    ensures out == AddRows(rows, recs)
  {
    hide AddRow;
    out := rows;
    var i := 0;
    while i < |recs|
      invariant 0 <= i <= |recs| && out == AddRows(rows, recs[..i])
    {
      assert recs[..i + 1][..i] == recs[..i];
      out := InsertRow(out, recs[i]);
      i := i + 1;
    }
    assert recs[..i] == recs;
  }

  class Scanner {
    const cfg: ScanConfig
    const node: Node
    var cursor: Option<Cursor>
    var legacy: Option<Cursor>
    var snaps: map<int, Snapshot>
    var rows: seq<Row>
    var outbox: map<string, DepositEvent>
    var wallets: map<string, Wallet>
    var filter: string -> bool
    var cursorChecked: bool
    ghost var h: History

    constructor (cfg: ScanConfig, node: Node, legacy: Option<Cursor>, wallets: map<string, Wallet>, filter: string -> bool)
      requires cfg.reorgDepth >= 0 && node.Truthful()
      ensures this.cfg == cfg && this.node == node && Valid() && Now() == Runs.Blank
    {
      this.cfg, this.node, this.legacy, this.wallets, this.filter := cfg, node, legacy, wallets, filter;
      cursor, snaps, rows, outbox, cursorChecked := None, map[], [], map[], false;
      h := History([], map[], 0, false);
    }

    ghost predicate ChainValid()
      reads this
    {
      && cfg.reorgDepth >= 0 && node.Truthful()
      && (cursor.Some? ==> Chained(cursor.value, h.anchor, snaps) && Scanned(cursor.value, snaps, h))
      && (cursor.None? ==> snaps == map[])
      && LatestMatch(h) && Steady(node.ledger, h) && Forward(cursor, h)
    }

    ghost predicate RowsValid()
      reads this
    {
      RowsMatch(cfg, rows, h.commits) && OutboxMatch(rows, outbox) && RowsDeep(cfg, rows)
    }

    ghost predicate Valid()
      reads this
    {
      ChainValid() && RowsValid()
    }

    /** The tables as a state of ScanRuns. */
    ghost function Now(): (s: Runs.Tables)
      reads this
    {
      Runs.Tables(cursor, cursorChecked, snaps, rows, outbox, h)
    }

    /** The api process adds wallets, the filter learns them, in between. */
    method Others()
      modifies this`wallets, this`filter
    {
      var w: map<string, Wallet> := *;
      var f: string -> bool := *;
      wallets, filter := w, f;
    }

    /** All of [from, to], in any order of completion: every slot is filled, with an
        error or the block of its height. */
    method FetchRange(from: int, to: int) returns (out: array<Option<Result<BlockData>>>)
      requires from <= to && node.Truthful()
      ensures fresh(out) && out.Length == to - from + 1
      ensures node.reliable ==> forall i :: 0 <= i < out.Length ==> out[i].Some? && out[i].value.Ok?
      ensures forall i :: 0 <= i < out.Length ==> out[i].Some? && Slot(node.ledger, out[i].value, from + i)
    {
      out := new Option<Result<BlockData>>[to - from + 1](_ => None);
      var nums := seq(to - from + 1, i requires 0 <= i <= to - from => from + i);
      forall i | 0 <= i < out.Length ensures Expected(node.ledger, out[i], nums, from + i) {
        assert nums[i] == from + i;
      }
      while nums != []
        invariant forall j :: 0 <= j < |nums| ==> from <= nums[j] <= to
        invariant forall i :: 0 <= i < out.Length ==> Expected(node.ledger, out[i], nums, from + i)
        invariant node.reliable ==> forall i :: 0 <= i < out.Length && out[i].Some? ==> out[i].value.Ok?
        decreases |nums|
      {
        var k :| 0 <= k < |nums|;
        var num := nums[k];
        var rest := nums[..k] + nums[k + 1..];
        assert forall n :: n in nums ==> n == num || n in rest;
        nums := rest;
        var block := node.GetBlockByNum(num);
        if block.Err? {
          out[num - from] := Some(Err(block.error));
        } else {
          var infos := node.GetTxInfoByBlockNum(num);
          out[num - from] := Some(if infos.Ok? then Ok(BlockData(block.value, infos.value)) else Err(infos.error));
        }
      }
    }

    // ------------------------------------------------------------ scanning a block

    /** One log; the lookups may fail. */
    method Parse(info: TxInfo, index: nat, block: Block) returns (r: Result<Option<Deposit>>)
      requires index < |info.log|
      ensures r.Ok? ==> r.value == ParseLog(cfg, wallets, filter, info, index, block)
      ensures node.reliable ==> r.Ok?
    {
      var t := DecodeTransfer(cfg, info.log[index]);
      if t.None? {
        return Ok(None);
      }
      if !filter(t.value.to) {
        return Ok(None);
      }
      var failed := Fails(node.reliable);
      if failed {
        return Err("wallet lookup");
      }
      if t.value.to !in wallets {
        return Ok(None);
      }
      var internal := IsInternal(t.value.from);
      if internal.Err? {
        return Err(internal.error);
      }
      DecodesQualifying(cfg, info.log[index], t.value);
      r := Ok(Some(DepositOf(cfg, t.value, info.id, index, block, wallets[t.value.to], internal.value)));
    }

    method IsInternal(from: string) returns (r: Result<bool>)
      ensures r.Ok? ==> r.value == (filter(from) && from in wallets)
      ensures node.reliable ==> r.Ok?
    {
      if !filter(from) {
        return Ok(false);
      }
      var failed := Fails(node.reliable);
      if failed {
        return Err("wallet count");
      }
      r := Ok(from in wallets);
    }

    method ParseInfo(info: TxInfo, block: Block) returns (r: Result<seq<Deposit>>)
      ensures r.Ok? ==> r.value == InfoRecords(cfg, wallets, filter, info, block)
      ensures node.reliable ==> r.Ok?
    {
      hide ParseLog;
      if !info.Succeeded() {
        return Ok([]);
      }
      var recs: seq<Deposit> := [];
      var index := 0;
      while index < |info.log|
        invariant 0 <= index <= |info.log| && recs == LogRecords(cfg, wallets, filter, info, index, block)
      {
        var rec := Parse(info, index, block);
        if rec.Err? {
          return Err(rec.error);
        }
        if rec.value.Some? {
          recs := recs + [rec.value.value];
        }
        index := index + 1;
      }
      r := Ok(recs);
    }

    method ParseBlock(data: BlockData) returns (r: Result<seq<Deposit>>)
      ensures r.Ok? ==> r.value == Records(cfg, wallets, filter, data, |data.infos|)
      ensures node.reliable ==> r.Ok?
    {
      hide ParseLog, LogRecords, InfoRecords;
      var recs: seq<Deposit> := [];
      var i := 0;
      while i < |data.infos|
        invariant 0 <= i <= |data.infos| && recs == Records(cfg, wallets, filter, data, i)
      {
        var more := ParseInfo(data.infos[i], data.block);
        if more.Err? {
          return Err(more.error);
        }
        recs := recs + more.value;
        i := i + 1;
      }
      r := Ok(recs);
    }

    /** Parses the block and commits its snapshot and deposits in one transaction:
        all of it or nothing. The cursor is not moved. Of a log in the block there is
        a deposit that is not orphaned exactly if there was no orphaned one before. */
    method ScanBlock(data: BlockData) returns (ok: bool)
      requires Valid() && cursor.Some? && data.block.number == cursor.value.number + 1
      requires Slot(node.ledger, Ok(data), data.block.number) && Linked(cursor.value.hash, data.block.parent)
      modifies this
      ensures Valid() && unchanged(`cursor, `legacy, `outbox, `cursorChecked) && h.anchor == old(h.anchor) && h.moved == old(h.moved)
      ensures Runs.Reaches(cfg, old(Now()), Now()) && old(rows) <= rows
      ensures !ok ==> unchanged(`snaps, `rows, `h) && !node.reliable
      ensures ok ==> snaps == old(snaps)[data.block.number := SnapOf(data.block)]
                     && h == Commits(old(h), Commit(data, wallets, filter))
                     && rows == AddRows(old(rows), CommitRecords(cfg, Commit(data, wallets, filter)))
      ensures ok ==> forall d :: d in CommitRecords(cfg, Commit(data, wallets, filter)) ==>
                       (Runs.Live(rows, d) <==> !Runs.HasOrphan(old(rows), d)) && (Runs.Live(rows, d) <==> !Runs.HasOrphan(rows, d))
    {
      hide Chained, Scanned, LatestMatch, Steady, Forward, OutboxMatch, Records, Replayed, InsertAll, SnapOf, Node.Truthful,
           AddRows, Linked, Runs.Reaches, Runs.Live, Runs.HasOrphan, Deep;
      Others();
      ghost var before := Now();
      Runs.ReachesSelf(cfg, before);
      var recs := ParseBlock(data);
      if recs.Err? {
        return false;
      }
      var failed := Fails(node.reliable);
      if failed {
        return false;
      }
      var c := Commit(data, wallets, filter);
      CommitKeeps(cfg, node.ledger, cursor.value, snaps, h, c);
      snaps := snaps[data.block.number := SnapOf(data.block)];
      rows := InsertRows(rows, recs.value);
      h := Commits(h, c);
      Runs.OneStep(cfg, before, Runs.Scan(c), Now());
      ScanKeeps(before, c);
      ok := true;
    }

    /** What a scan does to the rows. */
    lemma ScanKeeps(before: Runs.Tables, c: Commit)
      requires RowsMatch(cfg, before.rows, before.h.commits) && RowsDeep(cfg, before.rows) && OutboxMatch(before.rows, before.outbox)
      requires rows == AddRows(before.rows, CommitRecords(cfg, c)) && h.commits == before.h.commits + [c] && outbox == before.outbox
      ensures RowsValid() && before.rows <= rows
      ensures forall d :: d in CommitRecords(cfg, c) ==>
                (Runs.Live(rows, d) <==> !Runs.HasOrphan(before.rows, d)) && (Runs.Live(rows, d) <==> !Runs.HasOrphan(rows, d))
    {
      hide OutboxMatch, CommitRecords, Replayed, InsertAll, AddRows, Runs.Live, Runs.HasOrphan;
      ReplayedSnoc(cfg, before.h.commits, c);
      AddRowsAre(before.rows, Replayed(cfg, before.h.commits), CommitRecords(cfg, c));
      AddRowsGrow(before.rows, CommitRecords(cfg, c));
      MatchedKeysUnique(cfg, rows, h.commits);
      OutboxAppend(before.rows, rows, outbox);
      forall d | d in CommitRecords(cfg, c)
        ensures (Runs.Live(rows, d) <==> !Runs.HasOrphan(before.rows, d)) && (Runs.Live(rows, d) <==> !Runs.HasOrphan(rows, d))
      {
        Runs.Replaces(cfg, before.rows, rows, h.commits, CommitRecords(cfg, c), d);
      }
    }

    // ----------------------------------------------------------------- the cursor

    /** The height and hash only; the caller has the snapshot committed. */
    method SaveCursor(c: Cursor) returns (ok: bool)
      modifies this`cursor
      ensures cursor == (if ok then Some(c) else old(cursor)) && (node.reliable ==> ok)
    {
      var failed := Fails(node.reliable);
      if failed {
        return false;
      }
      cursor := Some(c);
      ok := true;
    }

    /** The node's answer about a position: above the head it is off the chain, close
        below it or without a hash on it; any other has to have its block's hash. */
    predicate Answers(c: Cursor, head: int, onChain: bool)
      reads this
    {
      && Runs.MayAnswer(cfg, c, head, onChain)
      && (c.number <= head && c.hash != "" && head - c.number > cfg.reorgDepth && node.ledger.Some? ==>
            onChain == EqualFold(node.ledger.value(c.number).block.id, c.hash))
    }

    /** Whether a position can be one of the chain the node tells. */
    method CursorOnChain(c: Cursor, head: int) returns (r: Result<bool>)
      requires node.Truthful()
      ensures node.reliable ==> r.Ok?
      ensures r.Ok? ==> Answers(c, head, r.value)
    {
      if c.number > head {
        return Ok(false);
      }
      if c.hash == "" || head - c.number <= cfg.reorgDepth {
        return Ok(true);
      }
      var block := node.GetBlockByNum(c.number);
      if block.Err? {
        return Err(block.error);
      }
      r := Ok(EqualFold(block.value.id, c.hash));
    }

    /** The scan position: created on the first run, adopted from the legacy row if
        that is on this chain, realigned once per process if it is not. A stored cursor
        is marked as checked as soon as the node has answered, so it also is when the
        answer was "off the chain" and the realignment could not be saved; it is then
        returned as it is until the next restart. */
    method LoadCursor(head: int) returns (r: Result<Cursor>, ghost answer: Option<bool>)
      requires Valid()
      modifies this`cursor, this`cursorChecked, this`h
      ensures Valid() && (r.Ok? ==> cursor == Some(r.value)) && (node.reliable ==> r.Ok?)
      ensures Runs.Reaches(cfg, old(Now()), Now())
      ensures r.Err? ==> unchanged(`cursor, `h)
      ensures old(cursor).None? ==> answer.None? && unchanged(`cursorChecked) && (r.Ok? ==> h.anchor == cursor.value.number)
      ensures answer.Some? ==> Answers(old(cursor).value, head, answer.value)
      ensures old(cursor).Some? && old(cursorChecked) ==> answer.None? && unchanged(`cursor, `cursorChecked, `h)
      ensures old(cursor).Some? && !old(cursorChecked) ==> (cursorChecked <==> answer.Some?) && (r.Ok? ==> answer.Some?)
      ensures answer == Some(true) ==> r.Ok? && unchanged(`cursor, `h)
      ensures answer == Some(false) && r.Ok? ==> cursor == Some(Cursor(head - 1, "")) != old(cursor) && h.moved
      ensures old(cursor).Some? && !old(cursorChecked) ==>
                (r.Err? && cursorChecked <==> answer == Some(false) && cursor == old(cursor))
      ensures h.commits == old(h.commits) && h.latest == old(h.latest) && (old(h.moved) ==> h.moved)
      ensures old(cursor).Some? ==> unchanged(`cursor, `h) || h.moved
    {
      hide RowsMatch, RowsDeep, OutboxMatch, LatestMatch, Steady, Linked, EqualFold, Runs.Reaches;
      answer := None;
      ghost var before := Now();
      Runs.ReachesSelf(cfg, before);
      if cursor.None? {
        r := CreateCursor(head);
        return;
      }
      var failed := Fails(node.reliable);
      if failed {
        return Err("load cursor"), answer;
      }
      if cursorChecked {
        return Ok(cursor.value), answer;
      }
      var onChain := CursorOnChain(cursor.value, head);
      if onChain.Err? {
        return Err(onChain.error), answer;
      }
      answer := Some(onChain.value);
      cursorChecked := true;
      if !onChain.value {
        var ok := SaveCursor(Cursor(head - 1, ""));
        if !ok {
          Runs.Checked(cfg, before, head, false, false);
          return Err("save cursor"), answer;
        }
        h := h.(anchor := head - 1, moved := true);
        MovedAnchor(node.ledger, old(h), h);
      }
      Runs.Checked(cfg, before, head, onChain.value, true);
      r := Ok(cursor.value);
    }

    /** Where the first run starts: at the legacy row if that is on the chain, else at
        the configured block if there is one, else just below the head. */
    method StartPosition(head: int) returns (r: Result<Cursor>)
      requires node.Truthful()
      ensures node.reliable ==> r.Ok?
      ensures r.Ok? ==> (legacy.Some? && r.value == legacy.value && Answers(r.value, head, true))
                        || r.value == Cursor(if cfg.startBlock <= 0 || cfg.startBlock > head then head - 1 else cfg.startBlock, "")
    {
      hide Answers;
      var start := cfg.startBlock;
      if start <= 0 || start > head {
        start := head - 1;
      }
      var unread := Fails(node.reliable);
      if legacy.Some? && !unread {
        var adopt := CursorOnChain(legacy.value, head);
        if adopt.Err? {
          return Err(adopt.error);
        }
        if adopt.value {
          return Ok(legacy.value);
        }
      }
      r := Ok(Cursor(start, ""));
    }

    method CreateCursor(head: int) returns (r: Result<Cursor>)
      requires Valid() && cursor.None?
      modifies this`cursor, this`h
      ensures Valid() && (r.Ok? ==> cursor == Some(r.value)) && (node.reliable ==> r.Ok?)
      ensures Runs.Reaches(cfg, old(Now()), Now()) && (r.Err? ==> unchanged(`cursor, `h))
      ensures r.Ok? ==> h == old(h).(anchor := cursor.value.number)
    {
      hide RowsMatch, RowsDeep, OutboxMatch, LatestMatch, Steady, Linked, EqualFold, Runs.Reaches, Answers;
      ghost var before := Now();
      Runs.ReachesSelf(cfg, before);
      r := StartPosition(head);
      if r.Err? {
        return;
      }
      var failed := Fails(node.reliable);
      if failed {
        return Err("create cursor");
      }
      cursor := Some(r.value);
      h := h.(anchor := r.value.number);
      MovedAnchor(node.ledger, old(h), h);
      Runs.Started(cfg, before, r.value);
    }

    // ------------------------------------------------------------ the confirm pass

    /** A pending row is decided by its receipt, the event written with it. */
    method ConfirmOne(i: nat, rec: Row, head: int) returns (ok: bool, ghost receipt: Option<TxInfo>)
      requires RowsValid() && i < |rows| && Ripe(rec, head - cfg.confirmations) && head > cfg.confirmations
      requires rec == rows[i] || (rec.d == rows[i].d && rows[i].status != Pending)
      modifies this`rows, this`outbox
      ensures RowsValid() && RowsLater(old(rows), rows)
      ensures Runs.Reaches(cfg, old(Now()), Now())
      ensures !ok ==> unchanged(`rows, `outbox) && !node.reliable
      ensures ok ==> rows == old(rows)[i := if old(rows)[i].status == Pending then Decided(old(rows)[i], receipt, head) else old(rows)[i]]
    {
      hide RowKey, EventOf, RowsMatch, OutboxMatch, RowKeysUnique, Runs.Reaches, Deep;
      ghost var before := Now();
      Runs.ReachesSelf(cfg, before);
      ok, receipt := false, None;
      var info := node.GetTxInfoByID(rec.d.txid);
      if info.Err? {
        return;
      }
      receipt := info.value;
      var failed := Fails(node.reliable);
      if failed {
        return;
      }
      ok := true;
      if rows[i].status != Pending {
        return;
      }
      DecidedDeep(cfg, rec, receipt, head);
      Runs.Decides(cfg, before, i, receipt, head);
      if info.value.None? || !info.value.value.Succeeded() {
        Settle(i, rec.(status := Orphaned));
      } else {
        var number := info.value.value.blockNumber;
        Settle(i, rec.(status := Confirmed, blockNumber := number, confirmations := head - number));
      }
    }

    /** The row and, if it is announced, its event, in one transaction. */
    method Settle(i: nat, r: Row)
      requires RowsValid() && i < |rows| && rows[i].status == Pending && r.d == rows[i].d && r.status != Pending && Deep(cfg, r)
      modifies this`rows, this`outbox
      ensures RowsValid() && RowsLater(old(rows), rows) && rows == old(rows)[i := r]
      ensures Now() == Runs.Decision(old(Now()), i, r)
    {
      hide RowKey, EventOf, RowsMatch, OutboxMatch, RowKeysUnique;
      MatchedKeysUnique(cfg, rows, h.commits);
      UpdatedMatch(cfg, rows, h.commits, i, r);
      if r.status == Orphaned {
        OutboxQuiet(rows, rows[i := r], outbox);
      } else {
        OutboxConfirm(rows, outbox, i, r);
      }
      rows := rows[i := r];
      if r.status == Confirmed && !r.d.internal {
        outbox := outbox[RowKey(r) := EventOf(r)];
      }
    }


    /** The oldest pending rows deep enough below the head, at most 500. A row that
        fails is left for the next pass; none does in a reliable deployment. */
    method ConfirmUpTo(head: int) returns (ok: bool, ghost ids: seq<nat>)
      requires RowsValid()
      modifies this`rows, this`outbox
      ensures RowsValid() && RowsLater(old(rows), rows) && |rows| == |old(rows)|
      ensures Runs.Reaches(cfg, old(Now()), Now())
      ensures forall i :: 0 <= i < |rows| && i !in ids ==> rows[i] == old(rows)[i]
      ensures forall i :: i in ids ==> i < |rows| && Ripe(old(rows)[i], head - cfg.confirmations)
      ensures node.reliable ==> forall i :: i in ids ==> rows[i].status != Pending
      ensures node.reliable && head > cfg.confirmations ==>
                forall i: nat :: i < |rows| && Ripe(old(rows)[i], head - cfg.confirmations) ==> i in ids || |ids| == 500
    {
      hide OutboxMatch, RowsMatch, RowsDeep, RowsLater, Decided, Runs.Reaches;
      RowsLaterSelf(rows);
      ghost var before := Now();
      Runs.ReachesSelf(cfg, before);
      ids := [];
      var limit := head - cfg.confirmations;
      if limit <= 0 {
        return true, ids;
      }
      var failed := Fails(node.reliable);
      if failed {
        return false, ids;
      }
      var was := rows;
      var due := PendingUpTo(limit);
      ids := due;
      var k := 0;
      while k < |due|
        invariant 0 <= k <= |due| && RowsValid() && RowsLater(was, rows) && |rows| == |was|
        invariant Runs.Reaches(cfg, before, Now()) && forall j :: k <= j < |due| ==> rows[due[j]] == was[due[j]]
        invariant forall i :: 0 <= i < |rows| && i !in ids ==> rows[i] == was[i]
        invariant node.reliable ==> forall j :: 0 <= j < k ==> rows[due[j]].status != Pending
      {
        ghost var mid := Now();
        var done, receipt := ConfirmOne(due[k], was[due[k]], head);
        DecidedIs(was[due[k]], receipt, head);
        RowsLaterTrans(was, mid.rows, rows);
        Runs.ReachesTrans(cfg, before, mid, Now());
        k := k + 1;
      }
      ok := true;
    }

    method PendingUpTo(limit: int) returns (ids: seq<nat>)
      ensures |ids| <= 500
      ensures forall k :: 0 <= k < |ids| ==> ids[k] < |rows| && Ripe(rows[ids[k]], limit)
      ensures forall j, k :: 0 <= j < k < |ids| ==> ids[j] < ids[k]
      ensures forall i: nat :: i < |rows| && Ripe(rows[i], limit) ==> i in ids || (|ids| == 500 && i > ids[499])
    {
      ids := [];
      var i := 0;
      while i < |rows| && |ids| < 500
        invariant 0 <= i <= |rows| && |ids| <= 500
        invariant forall k :: 0 <= k < |ids| ==> ids[k] < i && Ripe(rows[ids[k]], limit)
        invariant forall j, k :: 0 <= j < k < |ids| ==> ids[j] < ids[k]
        invariant forall j: nat :: j < i && Ripe(rows[j], limit) ==> j in ids
      {
        if rows[i].status == Pending && rows[i].blockNumber <= limit {
          ids := ids + [i];
        }
        i := i + 1;
      }
    }

    // ---------------------------------------------------------- forks and pruning

    /** Rolls back to the highest height of the window whose stored hash is the node's,
        or changes nothing. `asked` are the node's answers. */
    method HandleReorg(detectedAt: int) returns (r: Result<Cursor>, tooDeep: bool, ghost asked: map<int, Block>)
      requires Valid() && cursor.Some? && detectedAt == cursor.value.number + 1
      modifies this`cursor, this`snaps, this`rows, this`h
      ensures Valid() && RowsLater(old(rows), rows) && h.moved == (old(h.moved) || r.Ok?)
      ensures Runs.Reaches(cfg, old(Now()), Now())
      ensures r.Err? ==> unchanged(`cursor, `snaps, `rows, `h)
      ensures node.reliable ==> r.Ok? || tooDeep
      ensures tooDeep ==> r == Err(TOO_DEEP)
      ensures tooDeep ==>
                forall n :: 0 < n < detectedAt && detectedAt - cfg.reorgDepth <= n && n in snaps ==>
                  n in asked && !EqualFold(asked[n].id, snaps[n].hash)
      ensures r.Ok? ==>
                var f := r.value.number;
                && 0 < f < detectedAt && detectedAt - cfg.reorgDepth <= f
                && f in old(snaps) && f in asked && EqualFold(asked[f].id, old(snaps)[f].hash)
                && (forall n :: f < n < detectedAt && n in old(snaps) ==> n in asked && !EqualFold(asked[n].id, old(snaps)[n].hash))
                && r.value.hash == old(snaps)[f].hash && cursor == Some(r.value)
                && snaps == Upto(old(snaps), f) && rows == OrphanAll(old(rows), f) && h == RolledBack(old(h), f)
    {
      hide Chained, Scanned, LatestMatch, Steady, RowsMatch, OutboxMatch, EqualFold, Node.Truthful, Runs.Reaches;
      ghost var before := Now();
      Runs.ReachesSelf(cfg, before);
      tooDeep := false;
      var limit := detectedAt - cfg.reorgDepth;
      var found: Result<int>;
      found, asked := FindFork(detectedAt, limit);
      if found.Err? {
        return Err(found.error), false, asked;
      }
      var forkPoint := found.value;
      if forkPoint <= 0 || forkPoint < limit {
        return Err(TOO_DEEP), true, asked;
      }
      var failed := Fails(node.reliable);
      if failed {
        return Err("rollback"), false, asked;
      }
      var was := rows;
      var orphaned := OrphanAbove(rows, forkPoint);
      RollbackKeeps(cursor.value, snaps, h, forkPoint);
      OutboxQuiet(was, orphaned, outbox);
      OrphanedMatch(cfg, was, h.commits, forkPoint);
      rows := orphaned;
      var c := Cursor(forkPoint, snaps[forkPoint].hash);
      snaps := Upto(snaps, forkPoint);
      cursor := Some(c);
      MovedAnchor(node.ledger, h, RolledBack(h, forkPoint));
      h := RolledBack(h, forkPoint);
      Runs.RollsBack(cfg, before, forkPoint);
      r := Ok(c);
    }

    /** Walks down from below detectedAt to the first stored hash the node confirms, or
        out of the window. */
    method FindFork(detectedAt: int, limit: int) returns (r: Result<int>, ghost asked: map<int, Block>)
      requires node.Truthful()
      ensures node.reliable ==> r.Ok?
      ensures r.Ok? ==> r.value < detectedAt
      ensures r.Ok? ==>
                forall n :: 0 < n < detectedAt && limit <= n && r.value < n && n in snaps ==>
                  n in asked && !EqualFold(asked[n].id, snaps[n].hash)
      ensures r.Ok? && r.value > 0 && r.value >= limit ==>
                r.value in snaps && r.value in asked && EqualFold(asked[r.value].id, snaps[r.value].hash)
    {
      hide EqualFold, Node.Truthful;
      asked := map[];
      var forkPoint := detectedAt - 1;
      var found := false;
      while forkPoint > 0 && forkPoint >= limit && !found
        invariant forkPoint < detectedAt
        invariant forall n :: 0 < n < detectedAt && limit <= n && forkPoint < n && n in snaps ==>
                    n in asked && !EqualFold(asked[n].id, snaps[n].hash)
        invariant found ==> forkPoint in snaps && forkPoint in asked && EqualFold(asked[forkPoint].id, snaps[forkPoint].hash)
        decreases forkPoint, !found
      {
        if forkPoint in snaps {
          var failed := Fails(node.reliable);
          if failed {
            return Err("load snapshot"), asked;
          }
          var onChain := node.GetBlockByNum(forkPoint);
          if onChain.Err? {
            return Err(onChain.error), asked;
          }
          asked := asked[forkPoint := onChain.value];
          if EqualFold(onChain.value.id, snaps[forkPoint].hash) {
            found := true;
          } else {
            forkPoint := forkPoint - 1;
          }
        } else {
          forkPoint := forkPoint - 1;
        }
      }
      r := Ok(forkPoint);
    }

    method PruneSnapshots(head: int) returns (ok: bool)
      requires Valid() && cursor.Some? && head <= cursor.value.number
      modifies this`snaps
      ensures Valid() && (node.reliable ==> ok) && Runs.Reaches(cfg, old(Now()), Now())
      ensures ok ==> snaps == ScanState.From(old(snaps), head - cfg.reorgDepth * 10) || (snaps == old(snaps) && head <= cfg.reorgDepth * 10)
      ensures !ok ==> snaps == old(snaps)
    {
      hide Chained, Scanned, LatestMatch, Steady, RowsMatch, OutboxMatch, Runs.Reaches;
      ghost var before := Now();
      Runs.ReachesSelf(cfg, before);
      var keepFrom := head - cfg.reorgDepth * 10;
      if keepFrom <= 0 {
        return true;
      }
      var failed := Fails(node.reliable);
      if failed {
        return false;
      }
      PruneKeeps(cursor.value, snaps, h, keepFrom);
      snaps := ScanState.From(snaps, keepFrom);
      Runs.OneStep(cfg, before, Runs.Prune(keepFrom), Now());
      ok := true;
    }

    // -------------------------------------------------------------------- one tick

    /** One batch: prefetched, then applied in order. Ok tells whether the cursor is
        still behind the head. Unless it was rolled back or realigned, a tick that
        succeeds ends exactly at the end of the batch. At a node whose head is not past
        it a checked cursor stays as it is, on the chain or off it. */
    method Tick() returns (r: Result<bool>, ghost head: int)
      requires Valid()
      modifies this
      ensures Valid() && RowsLater(old(rows), rows) && (old(h.moved) ==> h.moved)
      ensures Runs.Reaches(cfg, old(Now()), Now())
      ensures r.Ok? ==> cursor.Some?
      ensures node.reliable ==> r.Ok? || r == Err(TOO_DEEP)
      ensures old(cursor).Some? && !h.moved ==> cursor.Some? && h.anchor == old(h.anchor) && old(cursor).value.number <= cursor.value.number
      ensures old(cursor).Some? && !h.moved && r.Ok? ==>
                && cursor.value.number == BatchEnd(cfg, old(cursor).value.number, head)
                && r.value == (old(cursor).value.number < cursor.value.number < head)
      ensures old(cursor).Some? && old(cursorChecked) ==> cursorChecked
      ensures old(cursor).Some? && old(cursorChecked) && head <= old(cursor).value.number ==> unchanged(`cursor, `snaps, `h)
    {
      hide ChainValid, RowsValid, Slot, RowsLater, Runs.Reaches, Answers, Ripe;
      ghost var before := Now();
      Runs.ReachesSelf(cfg, before);
      RowsLaterSelf(rows);
      var now := node.GetNowBlock();
      if now.Err? {
        return Err(now.error), if cursor.Some? then cursor.value.number + 1 else 0;
      }
      head := now.value;
      var loaded, answer := LoadCursor(now.value);
      if loaded.Err? {
        return Err(loaded.error), head;
      }
      ghost var mid := Now();
      var confirmed, ids := ConfirmPass(now.value);
      Runs.ReachesTrans(cfg, before, mid, Now());
      mid := Now();
      r := ApplyBatch(loaded.value, now.value);
      RowsLaterTrans(old(rows), mid.rows, rows);
      Runs.ReachesTrans(cfg, before, mid, Now());
    }

    /** The blocks after the cursor, as many as a batch holds, then the pruning. */
    method ApplyBatch(c: Cursor, head: int) returns (r: Result<bool>)
      requires Valid() && cursor == Some(c)
      modifies this
      ensures Valid() && cursor.Some? && RowsLater(old(rows), rows) && unchanged(`cursorChecked) && (old(h.moved) ==> h.moved)
      ensures Runs.Reaches(cfg, old(Now()), Now())
      ensures node.reliable ==> r.Ok? || r == Err(TOO_DEEP)
      ensures !h.moved ==> h.anchor == old(h.anchor) && c.number <= cursor.value.number
      ensures !h.moved && r.Ok? ==>
                cursor.value.number == BatchEnd(cfg, c.number, head) && r.value == (c.number < cursor.value.number < head)
      ensures head <= c.number ==> unchanged(this)
    {
      hide ChainValid, RowsValid, Slot, RowsLater, Runs.Reaches;
      ghost var before := Now();
      Runs.ReachesSelf(cfg, before);
      RowsLaterSelf(rows);
      var from := c.number + 1;
      var to := if from + cfg.batchBlocks - 1 < head then from + cfg.batchBlocks - 1 else head;
      if from > to {
        return Ok(false);
      }
      NodeTells();
      var fetched := FetchRange(from, to);
      var applied := Apply(c, fetched[..]);
      if applied.Err? || applied.value {
        return applied;
      }
      ghost var mid := Now();
      var pruned := PruneSnapshots(to);
      Runs.ReachesTrans(cfg, before, mid, Now());
      r := if pruned then Ok(to < head) else Err("prune");
    }

    lemma NodeTells()
      requires Valid()
      ensures node.Truthful()
    {
    }

    /** The pass in front of every batch; what it leaves undone is not the tick's error. */
    method ConfirmPass(head: int) returns (ok: bool, ghost ids: seq<nat>)
      requires Valid()
      modifies this`rows, this`outbox
      ensures Valid() && RowsLater(old(rows), rows) && |rows| == |old(rows)|
      ensures Runs.Reaches(cfg, old(Now()), Now())
      ensures node.reliable ==> forall i :: i in ids ==> i < |rows| && rows[i].status != Pending
      ensures node.reliable && head > cfg.confirmations ==>
                forall i: nat :: i < |rows| && Ripe(old(rows)[i], head - cfg.confirmations) ==> i in ids || |ids| == 500
    {
      ok, ids := ConfirmUpTo(head);
    }

    /** Fetched blocks in order, stopped by the first that is missing, cannot be
        stored, or does not fit: then the cursor is rolled back and Ok(true) returned. */
    method Apply(start: Cursor, fetched: seq<Option<Result<BlockData>>>) returns (r: Result<bool>)
      requires Valid() && cursor == Some(start)
      requires forall i :: 0 <= i < |fetched| ==> fetched[i].Some? && Slot(node.ledger, fetched[i].value, start.number + 1 + i)
      requires node.reliable ==> forall i :: 0 <= i < |fetched| ==> fetched[i].value.Ok?
      modifies this
      ensures Valid() && cursor.Some? && RowsLater(old(rows), rows) && unchanged(`cursorChecked)
      ensures Runs.Reaches(cfg, old(Now()), Now())
      ensures node.reliable ==> r.Ok? || r == Err(TOO_DEEP)
      ensures r == Ok(true) ==> h.moved
      ensures r != Ok(true) ==> h.moved == old(h.moved) && h.anchor == old(h.anchor)
                                && start.number <= cursor.value.number <= start.number + |fetched|
      ensures r == Ok(false) ==> cursor.value.number == start.number + |fetched|
    {
      hide ChainValid, RowsValid, RolledBack, Linked, RowsLater, SnapOf, AddRows, CommitRecords, Runs.Live, Runs.HasOrphan, Runs.Reaches;
      var c := start;
      var i := 0;
      ghost var first := Now();
      Runs.ReachesSelf(cfg, first);
      RowsLaterSelf(rows);
      while i < |fetched|
        invariant Valid() && RowsLater(old(rows), rows) && cursor == Some(c)
        invariant 0 <= i <= |fetched| && c.number == start.number + i
        invariant h.anchor == old(h.anchor) && h.moved == old(h.moved) && cursorChecked == old(cursorChecked)
        invariant Runs.Reaches(cfg, first, Now())
      {
        ghost var before := Now();
        var slot := fetched[i].value;
        if slot.Err? {
          return Err(slot.error);
        }
        var data := slot.value;
        if !Linked(c.hash, data.block.parent) {
          var rolled, tooDeep, asked := HandleReorg(data.block.number);
          RowsLaterTrans(old(rows), before.rows, rows);
          Runs.ReachesTrans(cfg, first, before, Now());
          return if rolled.Ok? then Ok(true) else Err(rolled.error);
        }
        var ok := ScanBlock(data);
        GrownLater(old(rows), before.rows, rows);
        Runs.ReachesTrans(cfg, first, before, Now());
        if !ok {
          return Err("scan block");
        }
        ghost var mid := Now();
        ok := Advance(c, data.block);
        Runs.ReachesTrans(cfg, first, mid, Now());
        if !ok {
          return Err("save cursor");
        }
        c := Cursor(data.block.number, data.block.id);
        i := i + 1;
      }
      r := Ok(false);
    }

    /** saveCursor onto the block just committed: the second half of a scan, and the
        only way past a block. */
    method Advance(c: Cursor, block: Block) returns (ok: bool)
      requires Valid() && cursor == Some(c) && block.number == c.number + 1 && Linked(c.hash, block.parent)
      requires block.number in snaps && snaps[block.number] == SnapOf(block)
      modifies this`cursor
      ensures Valid() && cursor == Some(if ok then Cursor(block.number, block.id) else c) && (node.reliable ==> ok)
      ensures Runs.Reaches(cfg, old(Now()), Now())
    {
      hide Chained, Scanned, LatestMatch, Steady, Forward, RowsMatch, OutboxMatch, Linked, Runs.Reaches;
      ghost var before := Now();
      Runs.ReachesSelf(cfg, before);
      AdvanceKeeps(c, snaps, h);
      ok := SaveCursor(Cursor(block.number, block.id));
      if ok {
        Runs.OneStep(cfg, before, Runs.Advance, Now());
      }
    }

    /** After a crash only the tables are left. */
    method Restart()
      requires Valid()
      modifies this`cursorChecked
      ensures Valid() && Runs.Reaches(cfg, old(Now()), Now())
    {
      ghost var before := Now();
      cursorChecked := false;
      Runs.OneStep(cfg, before, Runs.Restart, Now());
    }

    /** Any number of ticks, with crashes and restarts in between. A confirmed or
        orphaned deposit never changes again, whatever forks or crashes follow. */
    method Run(ticks: nat)
      requires Valid()
      modifies this
      ensures Valid() && RowsLater(old(rows), rows)
      ensures Runs.Reaches(cfg, old(Now()), Now())
    {
      hide ChainValid, RowsValid, RowsLater, Runs.Reaches;
      var i := 0;
      ghost var first := Now();
      Runs.ReachesSelf(cfg, first);
      RowsLaterSelf(rows);
      while i < ticks
        invariant Valid() && RowsLater(first.rows, rows) && Runs.Reaches(cfg, first, Now())
      {
        ghost var mid := Now();
        var crashed: bool := *;
        if crashed {
          Restart();
          Runs.ReachesTrans(cfg, first, mid, Now());
        }
        mid := Now();
        var behind, head := Tick();
        RowsLaterTrans(first.rows, mid.rows, rows);
        Runs.ReachesTrans(cfg, first, mid, Now());
        i := i + 1;
      }
    }

    /** As long as the cursor was only ever moved forward, the scanned heights are those
        from the anchor to the cursor, and at most one more, scanned but not passed. */
    lemma ScannedHeights(n: int)
      requires Valid() && cursor.Some? && !h.moved
      ensures h.anchor < n <= cursor.value.number ==> n in h.latest
      ensures n in h.latest ==> h.anchor < n <= cursor.value.number + 1
    {
    }

    /** Against a node that tells one chain, with one wallet table and a filter that
        knows it: the deposits are exactly the logs due in the scanned blocks. */
    lemma ExactDeposits(known: map<string, Wallet>, d: Deposit)
      requires Valid() && node.ledger.Some? && SameTables(h, known) && LedgerKeys(cfg, known, node.ledger.value)
      ensures (exists i :: 0 <= i < |rows| && rows[i].d == d) <==> DueIn(cfg, known, node.ledger.value, h.latest.Keys, d)
      ensures RowKeysUnique(rows)
    {
      hide RowsMatch, RowsDeep, LatestMatch, SameTables, LedgerKeys, DueIn;
      DepositsAreExact(cfg, known, node.ledger.value, rows, h, d);
    }
  }

  lemma GrownLater(a: seq<Row>, b: seq<Row>, c: seq<Row>)
    requires RowsLater(a, b) && b <= c
    ensures RowsLater(a, c)
  {
  }

  lemma OrphanedMatch(cfg: ScanConfig, rows: seq<Row>, commits: seq<Commit>, f: int)
    requires RowsMatch(cfg, rows, commits)
    ensures RowsMatch(cfg, OrphanAll(rows, f), commits)
  {
    hide Replayed;
  }

  lemma DecidedIs(r: Row, receipt: Option<TxInfo>, head: int)
    ensures Decided(r, receipt, head).status != Pending
  {
  }

  lemma UpdatedMatch(cfg: ScanConfig, rows: seq<Row>, commits: seq<Commit>, i: nat, r: Row)
    requires RowsMatch(cfg, rows, commits) && i < |rows| && r.d == rows[i].d
    ensures RowsMatch(cfg, rows[i := r], commits)
  {
    hide Replayed;
  }

  lemma MovedAnchor(ledger: Option<int -> BlockData>, h: History, h': History)
    requires h'.commits == h.commits && h'.latest == h.latest && LatestMatch(h) && Steady(ledger, h)
    ensures LatestMatch(h') && Steady(ledger, h')
  {
  }
}
