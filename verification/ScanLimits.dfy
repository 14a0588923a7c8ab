/** Where the scanner's promises stop, each with the exact condition and a run: depth
    for receipts that moved, orphaned deposits that are scanned again, and a cursor
    whose realignment failed. */
module ScanLimits {
  import opened Wrappers
  import opened ChainLog
  import opened Deposits
  import opened ScanState
  import opened ScanRuns

  // ----------------------------------------------------------------------- depth

  predicate Shallow(cfg: ScanConfig, s: Tables, i: nat)
  {
    i < |s.rows| && s.rows[i].status == Confirmed && s.rows[i].confirmations < cfg.confirmations
  }

  /** In every run: a confirmed deposit whose receipt still names the block it was seen
      in has the configured depth. */
  lemma {:induction false} UnmovedIsDeep(cfg: ScanConfig, s: Tables, i: nat)
    requires Reaches(cfg, Blank, s) && i < |s.rows| && s.rows[i].blockNumber == s.rows[i].d.seenIn
    ensures !Shallow(cfg, s, i)
  {
    hide RowsMatch, InOrder, Reaches;
    ReachesSelf(cfg, s);
    ReachInv(cfg, s, s);
    assert Deep(cfg, s.rows[i]);
  }

  /** A pending deposit whose receipt names block b can be confirmed below the depth
      exactly when b lies above the block it was seen in (and is not the first). */
  lemma {:induction false} ShallowIffMovedUp(cfg: ScanConfig, s: Tables, i: nat, info: TxInfo)
    requires Reaches(cfg, Blank, s) && i < |s.rows| && s.rows[i].status == Pending && info.Succeeded()
    ensures (exists head, s' :: Next(cfg, s, Decide(i, Some(info), head), s') && Shallow(cfg, s', i))
            <==> info.blockNumber > s.rows[i].d.seenIn && info.blockNumber > 1
  {
    hide RowsMatch, InOrder, Reaches, RowKey, EventOf, NormResult;
    ReachesSelf(cfg, s);
    ReachInv(cfg, s, s);
    assert Deep(cfg, s.rows[i]);
    var seen := s.rows[i].d.seenIn;
    var head := cfg.confirmations + if seen < 1 then 1 else seen;
    var a := Decide(i, Some(info), head);
    assert Enabled(cfg, s, a);
    assert info.blockNumber > seen && info.blockNumber > 1 ==> Next(cfg, s, a, Apply(cfg, s, a)) && Shallow(cfg, Apply(cfg, s, a), i);
  }

  // ------------------------------------------------------------- the realignment

  /** The steps of ticks at nodes with this head: positions are judged and deposits
      decided by it, and only blocks up to it are fetched, which scanning, moving on and
      rolling back all take one of. Restarts only where allowed. */
  predicate AtHead(s: Tables, a: Action, head: int, restarts: bool)
  {
    match a
    case Check(h, _, _) => h == head
    case Decide(_, _, h) => h == head
    case Scan(c) => c.data.block.number <= head
    case Advance => s.cursor.Some? && s.cursor.value.number < head
    case Rollback(_) => s.cursor.Some? && s.cursor.value.number < head
    case Restart => restarts
    case _ => true
  }

  ghost predicate Ticking(cfg: ScanConfig, s: Tables, s': Tables, head: int, restarts: bool, n: nat)
    decreases n
  {
    if n == 0 then s == s'
    else exists t, a :: Ticking(cfg, s, t, head, restarts, n - 1) && Next(cfg, t, a, s') && AtHead(t, a, head, restarts)
  }

  /** The head is not past the cursor, and nothing has the cursor realigned to it. */
  predicate Held(s: Tables, number: int, hash: string, head: int, restarts: bool)
  {
    s.cursor == Some(Cursor(number, hash)) && head <= number && ((s.checked && !restarts) || head == number)
  }

  lemma {:induction false} HeldStep(cfg: ScanConfig, s: Tables, a: Action, s': Tables, number: int, hash: string, head: int, restarts: bool)
    requires cfg.reorgDepth >= 0 && Held(s, number, hash, head, restarts) && Next(cfg, s, a, s') && AtHead(s, a, head, restarts)
    ensures Held(s', number, hash, head, restarts)
  {
    hide Announced, EventOf, RowKey, Linked, Decided, CommitRecords, AddRows, Ripe;
  }

  lemma {:induction false} HeldStays(cfg: ScanConfig, s: Tables, s': Tables, number: int, hash: string, head: int, restarts: bool, n: nat)
    requires cfg.reorgDepth >= 0 && Held(s, number, hash, head, restarts) && Ticking(cfg, s, s', head, restarts, n)
    ensures Held(s', number, hash, head, restarts)
    decreases n
  {
    hide Next, AtHead, Held;
    if n > 0 {
      var t, a :| Ticking(cfg, s, t, head, restarts, n - 1) && Next(cfg, t, a, s') && AtHead(t, a, head, restarts);
      HeldStays(cfg, s, t, number, hash, head, restarts, n - 1);
      HeldStep(cfg, t, a, s', number, hash, head, restarts);
    }
  }

  /** At nodes with one head, a cursor marked as checked moves in some run exactly if
      the head is past it, or lies below it and the process restarts. On the chain or
      off it: without a restart no cursor above the head is ever realigned. */
  lemma {:induction false} CheckedCursorMovesIff(cfg: ScanConfig, s: Tables, head: int, restarts: bool)
    requires cfg.reorgDepth >= 0 && s.cursor.Some? && s.checked
    ensures (exists s', n: nat :: Ticking(cfg, s, s', head, restarts, n) && s'.cursor != s.cursor)
            <==> head > s.cursor.value.number || (head < s.cursor.value.number && restarts)
  {
    hide Ticking, Held;
    var number, hash := s.cursor.value.number, s.cursor.value.hash;
    if head > number {
      MovesOn(cfg, s, head, restarts);
    } else if head < number && restarts {
      Realigns(cfg, s, head);
    } else {
      IsHeld(s, head, restarts);
      forall s', n: nat | Ticking(cfg, s, s', head, restarts, n) ensures s'.cursor == s.cursor {
        HeldStays(cfg, s, s', number, hash, head, restarts, n);
        HeldThere(s', number, hash, head, restarts);
      }
    }
  }

  lemma IsHeld(s: Tables, head: int, restarts: bool)
    requires s.cursor.Some? && s.checked && head <= s.cursor.value.number && (!restarts || head == s.cursor.value.number)
    ensures Held(s, s.cursor.value.number, s.cursor.value.hash, head, restarts)
  {
  }

  lemma HeldThere(s: Tables, number: int, hash: string, head: int, restarts: bool)
    requires Held(s, number, hash, head, restarts)
    ensures s.cursor == Some(Cursor(number, hash))
  {
  }

  lemma {:induction false} MovesOn(cfg: ScanConfig, s: Tables, head: int, restarts: bool)
    requires s.cursor.Some? && head > s.cursor.value.number
    ensures exists s', n: nat :: Ticking(cfg, s, s', head, restarts, n) && s'.cursor != s.cursor
  {
    hide Ticking, CommitRecords, AddRows;
    var number := s.cursor.value.number + 1;
    var c := Commit(BlockData(Block(number, "b", ""), []), map[], PlainLookup());
    var s1 := Apply(cfg, s, Scan(c));
    var s2 := Apply(cfg, s1, Advance);
    TickingSelf(cfg, s, head, restarts);
    TickingStep(cfg, s, s, Scan(c), s1, head, restarts, 0);
    TickingStep(cfg, s, s1, Advance, s2, head, restarts, 1);
    assert s2.cursor.value.number == number;
  }

  lemma {:induction false} Realigns(cfg: ScanConfig, s: Tables, head: int)
    requires s.cursor.Some? && head < s.cursor.value.number
    ensures exists s', n: nat :: Ticking(cfg, s, s', head, true, n) && s'.cursor != s.cursor
  {
    hide Ticking;
    var s1 := s.(checked := false);
    TickingSelf(cfg, s, head, true);
    TickingStep(cfg, s, s, Restart, s1, head, true, 0);
    TickingStep(cfg, s, s1, Check(head, false, true), Realigned(s1, head), head, true, 1);
    assert Realigned(s1, head).cursor.value.number < s.cursor.value.number;
  }

  lemma TickingSelf(cfg: ScanConfig, s: Tables, head: int, restarts: bool)
    ensures Ticking(cfg, s, s, head, restarts, 0)
  {
  }

  lemma TickingStep(cfg: ScanConfig, s: Tables, t: Tables, a: Action, t': Tables, head: int, restarts: bool, n: nat)
    requires Ticking(cfg, s, t, head, restarts, n) && Next(cfg, t, a, t') && AtHead(t, a, head, restarts)
    ensures Ticking(cfg, s, t', head, restarts, n + 1)
  {
    hide Next;
  }

  /** A realignment that cannot be saved leaves a cursor above the head, marked as
      checked. */
  lemma {:induction false} RealignmentLost(cfg: ScanConfig)
    ensures exists s, s', head :: Reaches(cfg, Blank, s) && Next(cfg, s, Check(head, false, false), s')
                                  && s'.checked && s'.cursor == s.cursor && s.cursor.Some? && s.cursor.value.number > head
  {
    hide Reaches;
    var s := Blank.(cursor := Some(Cursor(9, "")), h := Blank.h.(anchor := 9));
    OneStep(cfg, Blank, Start(Cursor(9, "")), s);
    assert Next(cfg, s, Check(5, false, false), s.(checked := true));
  }

  // ------------------------------------------------------------------ sample runs

  /** A receipt with one log, a transfer to a known wallet. */
  predicate Paying(cfg: ScanConfig, wallets: map<string, Wallet>, info: TxInfo)
  {
    && info.Succeeded() && |info.log| == 1
    && DecodeTransfer(cfg, info.log[0]).Some? && DecodeTransfer(cfg, info.log[0]).value.to in wallets
  }

  function Scanning(n: int, id: string, parent: string, infos: seq<TxInfo>, wallets: map<string, Wallet>): (c: Commit)
  {
    Commit(BlockData(Block(n, id, parent), infos), wallets, PlainLookup())
  }

  /** The one record of a block with such a receipt. */
  function Paid(cfg: ScanConfig, n: int, id: string, info: TxInfo, wallets: map<string, Wallet>): (d: Deposit)
    requires Paying(cfg, wallets, info)
  {
    var t := DecodeTransfer(cfg, info.log[0]).value;
    DecodesQualifying(cfg, info.log[0], t);
    DepositOf(cfg, t, info.id, 0, Block(n, id, ""), wallets[t.to], t.from in wallets)
  }

  lemma PaidOnly(cfg: ScanConfig, n: int, id: string, parent: string, info: TxInfo, wallets: map<string, Wallet>)
    requires Paying(cfg, wallets, info)
    ensures CommitRecords(cfg, Scanning(n, id, parent, [info], wallets)) == [Paid(cfg, n, id, info, wallets)]
  {
    hide DecodeTransfer, NormResult;
    var c := Scanning(n, id, parent, [info], wallets);
    assert LogRecords(cfg, wallets, c.filter, info, 0, c.data.block) == [];
    assert LogRecords(cfg, wallets, c.filter, info, 1, c.data.block) == [Paid(cfg, n, id, info, wallets)];
    assert Records(cfg, wallets, c.filter, c.data, 0) == [];
  }

  lemma AddOne(rows: seq<Row>, d: Deposit)
    ensures AddRows(rows, [d]) == AddRow(rows, d)
  {
    assert [d][..0] == [];
  }

  /** A block is scanned and passed. */
  lemma {:induction false} ScanTo(cfg: ScanConfig, s: Tables, c: Commit) returns (s': Tables)
    requires Reaches(cfg, Blank, s) && s.cursor.Some? && c.data.block.number == s.cursor.value.number + 1
    requires c.data.block.id != "" && Linked(s.cursor.value.hash, c.data.block.parent)
    ensures Reaches(cfg, Blank, s') && s'.cursor == Some(Cursor(c.data.block.number, c.data.block.id))
    ensures s'.snaps == s.snaps[c.data.block.number := SnapOf(c.data.block)]
    ensures s'.rows == AddRows(s.rows, CommitRecords(cfg, c)) && s'.h == Commits(s.h, c)
  {
    hide Reaches, CommitRecords, AddRows, Linked;
    var s1 := Apply(cfg, s, Scan(c));
    ReachesStep(cfg, Blank, s, Scan(c), s1);
    s' := Apply(cfg, s1, Advance);
    ReachesStep(cfg, Blank, s1, Advance, s');
  }

  lemma {:induction false} StartAt(cfg: ScanConfig, n: int) returns (s: Tables)
    ensures Reaches(cfg, Blank, s) && s == Blank.(cursor := Some(Cursor(n, "")), h := Blank.h.(anchor := n))
  {
    hide Reaches;
    s := Blank.(cursor := Some(Cursor(n, "")), h := Blank.h.(anchor := n));
    OneStep(cfg, Blank, Start(Cursor(n, "")), s);
  }

  /** A deposit seen in block 4. */
  lemma {:induction false} SeenInFour(cfg: ScanConfig, wallets: map<string, Wallet>, info: TxInfo) returns (s: Tables)
    requires Paying(cfg, wallets, info)
    ensures Reaches(cfg, Blank, s) && s.rows == [Row(Paid(cfg, 4, "b4", info, wallets), 4, Pending, 0)]
  {
    hide Reaches, CommitRecords, AddRows, SameKey, Paying, Paid;
    var s0 := StartAt(cfg, 3);
    s := ScanTo(cfg, s0, Scanning(4, "b4", "", [info], wallets));
    PaidOnly(cfg, 4, "b4", "", info, wallets);
    PaidIn(cfg, 4, "b4", info, wallets);
    AddOne([], Paid(cfg, 4, "b4", info, wallets));
  }

  lemma PaidIn(cfg: ScanConfig, n: int, id: string, info: TxInfo, wallets: map<string, Wallet>)
    requires Paying(cfg, wallets, info)
    ensures var d := Paid(cfg, n, id, info, wallets); d.seenIn == n && d.txid == info.id && d.eventIndex == 0
  {
  }

  /** Its receipt moves up to block 5, and it is confirmed one block short. */
  lemma {:induction false} ShallowHappens(cfg: ScanConfig, wallets: map<string, Wallet>, info: TxInfo)
    requires Paying(cfg, wallets, info)
    ensures exists s :: Reaches(cfg, Blank, s) && Shallow(cfg, s, 0)
  {
    hide Reaches, Next, Paid;
    var s := SeenInFour(cfg, wallets, info);
    PaidIn(cfg, 4, "b4", info, wallets);
    var moved := info.(blockNumber := 5);
    ShallowIffMovedUp(cfg, s, 0, moved);
    var head, s' :| Next(cfg, s, Decide(0, Some(moved), head), s') && Shallow(cfg, s', 0);
    ReachesStep(cfg, Blank, s, Decide(0, Some(moved), head), s');
  }

  /** A fork takes a deposit's block away, the block that replaces it has the same log,
      and the deposit stays orphaned. */
  lemma {:induction false} OrphanRescanned(cfg: ScanConfig, wallets: map<string, Wallet>, info: TxInfo)
    requires Paying(cfg, wallets, info)
    ensures exists s: Tables, c, d :: Reaches(cfg, Blank, s) && c in s.h.commits && s.cursor == Some(Cursor(c.data.block.number, c.data.block.id))
                                      && d in CommitRecords(cfg, c) && HasOrphan(s.rows, d) && !Live(s.rows, d)
  {
    hide Reaches, CommitRecords, AddRows, Paying, Paid;
    var s0 := StartAt(cfg, 3);
    var s1 := ScanTo(cfg, s0, Scanning(4, "b4", "", [], wallets));
    NothingIn(cfg, 4, "b4", "", wallets);
    var s2 := ScanTo(cfg, s1, Scanning(5, "b5", "b4", [info], wallets));
    PaidOnly(cfg, 5, "b5", "b4", info, wallets);
    PaidIn(cfg, 5, "b5", info, wallets);
    AddOne([], Paid(cfg, 5, "b5", info, wallets));
    var s3 := RollTo(cfg, s2, 4);
    var c := Scanning(5, "c5", "b4", [info], wallets);
    var s4 := ScanTo(cfg, s3, c);
    PaidOnly(cfg, 5, "c5", "b4", info, wallets);
    PaidIn(cfg, 5, "c5", info, wallets);
    var d := Paid(cfg, 5, "c5", info, wallets);
    AddOne(s3.rows, d);
    assert SameKey(s3.rows[0].d, d);
    assert s4.rows == s3.rows && s4.rows[0].status == Orphaned && d in CommitRecords(cfg, c) && c in s4.h.commits;
  }

  lemma NothingIn(cfg: ScanConfig, n: int, id: string, parent: string, wallets: map<string, Wallet>)
    ensures CommitRecords(cfg, Scanning(n, id, parent, [], wallets)) == [] && AddRows([], []) == []
  {
  }

  lemma {:induction false} RollTo(cfg: ScanConfig, s: Tables, f: int) returns (s': Tables)
    requires Reaches(cfg, Blank, s) && s.cursor.Some? && 0 < f <= s.cursor.value.number && f in s.snaps
    ensures Reaches(cfg, Blank, s') && s'.cursor == Some(Cursor(f, s.snaps[f].hash)) && s'.rows == OrphanAll(s.rows, f)
  {
    hide Reaches;
    s' := Apply(cfg, s, Rollback(f));
    ReachesStep(cfg, Blank, s, Rollback(f), s');
  }

  /** There are such deployments. */
  lemma {:induction false} PayingHappens()
    ensures exists cfg, wallets, info :: Paying(cfg, wallets, info)
  {
    hide DecodeTransfer, DecodeLog, NormResult;
    var codec, lg, t := SampleTransfer();
    var cfg := ScanConfig(codec, map[t.contract := Token("USDT", 6)], 0, 20, 30, 10, 0);
    var info := TxInfo("a1", 4, "", "", "SUCCESS", [lg]);
    SuccessText();
    DecodesQualifying(cfg, lg, t);
    assert Paying(cfg, map[t.to := Wallet("deposit", "m", "acc", "u")], info);
  }
}
