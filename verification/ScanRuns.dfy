/** The scanner's tables as one state, every write of internal/scanner/scanner.go as a
    step of it, and what holds of all runs. The methods of Scanner take only such
    steps. */
module ScanRuns {
  import opened Wrappers
  import opened ChainLog
  import opened Deposits
  import opened ScanState

  /** The tables, the process's flag and the history. */
  datatype Tables = Tables(cursor: Option<Cursor>, checked: bool, snaps: map<int, Snapshot>, rows: seq<Row>,
                           outbox: map<string, DepositEvent>, h: History)

  datatype Action =
    | Start(at: Cursor)
    | Check(head: int, onChain: bool, saved: bool)
    | Scan(c: Commit)
    | Advance
    | Rollback(f: int)
    | Prune(f: int)
    | Decide(i: nat, receipt: Option<TxInfo>, head: int)
    | Restart

  const Blank := Tables(None, false, map[], [], map[], History([], map[], 0, false))

  /** What a node can answer about a position (cursorOnChain): one above the head is
      off the chain, one close below it or without a hash is on it, any other is
      compared with the node's block. */
  predicate MayAnswer(cfg: ScanConfig, c: Cursor, head: int, onChain: bool)
  {
    && (c.number > head ==> !onChain)
    && (c.number <= head && (c.hash == "" || head - c.number <= cfg.reorgDepth) ==> onChain)
  }

  predicate Enabled(cfg: ScanConfig, s: Tables, a: Action)
  {
    match a
    case Start(_) => s.cursor.None?
    case Check(head, onChain, _) => s.cursor.Some? && !s.checked && MayAnswer(cfg, s.cursor.value, head, onChain)
    case Scan(c) =>
      && s.cursor.Some? && c.data.block.number == s.cursor.value.number + 1
      && c.data.block.id != "" && Linked(s.cursor.value.hash, c.data.block.parent)
    case Advance =>
      && s.cursor.Some? && s.cursor.value.number + 1 in s.snaps
      && Linked(s.cursor.value.hash, s.snaps[s.cursor.value.number + 1].parent)
    case Rollback(f) => s.cursor.Some? && 0 < f <= s.cursor.value.number && f in s.snaps
    case Prune(f) => s.cursor.Some? && f <= s.cursor.value.number
    case Decide(i, _, head) => i < |s.rows| && head > cfg.confirmations && Ripe(s.rows[i], head - cfg.confirmations)
    case Restart => true
  }

  function Realigned(s: Tables, head: int): (s': Tables)
  {
    s.(cursor := Some(Cursor(head - 1, "")), checked := true, h := s.h.(anchor := head - 1, moved := true))
  }

  function Decision(s: Tables, i: nat, r: Row): (s': Tables)
    requires i < |s.rows|
  {
    s.(rows := s.rows[i := r], outbox := if Announced(r) then s.outbox[RowKey(r) := EventOf(r)] else s.outbox)
  }

  function Apply(cfg: ScanConfig, s: Tables, a: Action): (s': Tables)
    requires Enabled(cfg, s, a)
  {
    match a
    case Start(at) => s.(cursor := Some(at), h := s.h.(anchor := at.number))
    case Check(head, onChain, saved) => if !onChain && saved then Realigned(s, head) else s.(checked := true)
    case Scan(c) =>
      s.(snaps := s.snaps[c.data.block.number := SnapOf(c.data.block)],
         rows := AddRows(s.rows, CommitRecords(cfg, c)), h := Commits(s.h, c))
    case Advance => s.(cursor := Some(Cursor(s.cursor.value.number + 1, s.snaps[s.cursor.value.number + 1].hash)))
    case Rollback(f) =>
      s.(cursor := Some(Cursor(f, s.snaps[f].hash)), snaps := Upto(s.snaps, f), rows := OrphanAll(s.rows, f), h := RolledBack(s.h, f))
    case Prune(f) => s.(snaps := From(s.snaps, f))
    case Decide(i, receipt, head) => Decision(s, i, Decided(s.rows[i], receipt, head))
    case Restart => s.(checked := false)
  }

  ghost predicate Next(cfg: ScanConfig, s: Tables, a: Action, s': Tables)
  {
    Enabled(cfg, s, a) && s' == Apply(cfg, s, a)
  }

  ghost predicate Steps(cfg: ScanConfig, s: Tables, s': Tables, n: nat)
    decreases n
  {
    if n == 0 then s == s' else exists t, a :: Steps(cfg, s, t, n - 1) && Next(cfg, t, a, s')
  }

  ghost predicate Reaches(cfg: ScanConfig, s: Tables, s': Tables)
  {
    exists n: nat :: Steps(cfg, s, s', n)
  }

  lemma ReachesSelf(cfg: ScanConfig, s: Tables)
    ensures Reaches(cfg, s, s)
  {
    assert Steps(cfg, s, s, 0);
  }

  lemma ReachesStep(cfg: ScanConfig, s: Tables, t: Tables, a: Action, t': Tables)
    requires Reaches(cfg, s, t) && Next(cfg, t, a, t')
    ensures Reaches(cfg, s, t')
  {
    hide Next;
    var n: nat :| Steps(cfg, s, t, n);
    assert Steps(cfg, s, t', n + 1);
  }

  lemma OneStep(cfg: ScanConfig, s: Tables, a: Action, s': Tables)
    requires Next(cfg, s, a, s')
    ensures Reaches(cfg, s, s')
  {
    hide Next, Reaches;
    ReachesSelf(cfg, s);
    ReachesStep(cfg, s, s, a, s');
  }

  lemma {:induction false} StepsTrans(cfg: ScanConfig, s: Tables, t: Tables, u: Tables, n: nat, m: nat)
    requires Steps(cfg, s, t, n) && Steps(cfg, t, u, m)
    ensures Steps(cfg, s, u, n + m)
    decreases m
  {
    hide Next;
    if m > 0 {
      var v, a :| Steps(cfg, t, v, m - 1) && Next(cfg, v, a, u);
      StepsTrans(cfg, s, t, v, n, m - 1);
    }
  }

  lemma ReachesTrans(cfg: ScanConfig, s: Tables, t: Tables, u: Tables)
    requires Reaches(cfg, s, t) && Reaches(cfg, t, u)
    ensures Reaches(cfg, s, u)
  {
    hide Steps;
    var n: nat :| Steps(cfg, s, t, n);
    var m: nat :| Steps(cfg, t, u, m);
    StepsTrans(cfg, s, t, u, n, m);
  }

  // The single steps, each with the tables it leads to.

  lemma Started(cfg: ScanConfig, s: Tables, at: Cursor)
    requires s.cursor.None?
    ensures Reaches(cfg, s, s.(cursor := Some(at), h := s.h.(anchor := at.number)))
  {
    hide Reaches;
    OneStep(cfg, s, Start(at), s.(cursor := Some(at), h := s.h.(anchor := at.number)));
  }

  lemma Checked(cfg: ScanConfig, s: Tables, head: int, onChain: bool, saved: bool)
    requires s.cursor.Some? && !s.checked && MayAnswer(cfg, s.cursor.value, head, onChain)
    ensures Reaches(cfg, s, if !onChain && saved then Realigned(s, head) else s.(checked := true))
  {
    hide Reaches, MayAnswer;
    OneStep(cfg, s, Check(head, onChain, saved), if !onChain && saved then Realigned(s, head) else s.(checked := true));
  }

  lemma Decides(cfg: ScanConfig, s: Tables, i: nat, receipt: Option<TxInfo>, head: int)
    requires i < |s.rows| && head > cfg.confirmations && Ripe(s.rows[i], head - cfg.confirmations)
    ensures Reaches(cfg, s, Decision(s, i, Decided(s.rows[i], receipt, head)))
  {
    hide Reaches, Decided, Decision;
    OneStep(cfg, s, Decide(i, receipt, head), Decision(s, i, Decided(s.rows[i], receipt, head)));
  }

  lemma RollsBack(cfg: ScanConfig, s: Tables, f: int)
    requires s.cursor.Some? && 0 < f <= s.cursor.value.number && f in s.snaps
    ensures Reaches(cfg, s, s.(cursor := Some(Cursor(f, s.snaps[f].hash)), snaps := Upto(s.snaps, f),
                               rows := OrphanAll(s.rows, f), h := RolledBack(s.h, f)))
  {
    hide Reaches;
    OneStep(cfg, s, Rollback(f), Apply(cfg, s, Rollback(f)));
  }

  // ------------------------------------------------------------------ the invariant

  /** Deposit ids follow block order while the cursor has only moved forward. */
  ghost predicate InOrder(s: Tables)
  {
    && (s.cursor.None? ==> s.rows == [])
    && (!s.h.moved ==>
          && (forall i, j :: 0 <= i < j < |s.rows| ==> s.rows[i].d.seenIn <= s.rows[j].d.seenIn)
          && (s.cursor.Some? ==> forall i :: 0 <= i < |s.rows| ==> s.rows[i].d.seenIn <= s.cursor.value.number + 1))
  }

  ghost predicate Inv(cfg: ScanConfig, s: Tables)
  {
    RowsMatch(cfg, s.rows, s.h.commits) && RowsDeep(cfg, s.rows) && InOrder(s)
  }

  /** A row already there: what it says stays, a decided row is frozen. */
  lemma {:induction false} RowStep(cfg: ScanConfig, s: Tables, a: Action, s': Tables, i: nat)
    requires Next(cfg, s, a, s') && i < |s.rows|
    ensures i < |s'.rows| && s'.rows[i].d == s.rows[i].d
    ensures s'.rows[i] == s.rows[i] || (s.rows[i].status == Pending && s'.rows[i] == s.rows[i].(status := Orphaned))
            || (a.Decide? && s.rows[i].status == Pending && Ripe(s.rows[i], a.head - cfg.confirmations)
                && s'.rows[i] == Decided(s.rows[i], a.receipt, a.head))
  {
    hide CommitRecords, AddRows, Announced, EventOf, RowKey, Linked;
    if a.Scan? { AddRowsGrow(s.rows, CommitRecords(cfg, a.c)); }
  }

  lemma {:induction false} RecordSeenIn(cfg: ScanConfig, c: Commit, d: Deposit)
    requires d in CommitRecords(cfg, c)
    ensures d.seenIn == c.data.block.number
  {
    hide DecodeTransfer, Records;
    RecordsHold(cfg, c.wallets, c.filter, c.data, |c.data.infos|, d);
  }

  lemma {:induction false} NewRow(cfg: ScanConfig, s: Tables, a: Action, s': Tables, i: nat)
    requires Next(cfg, s, a, s') && |s.rows| <= i < |s'.rows|
    ensures a.Scan? && s.cursor.Some? && s'.cursor == s.cursor && s'.h.moved == s.h.moved
    ensures s'.rows[i].status == Pending && s'.rows[i].blockNumber == s'.rows[i].d.seenIn == s.cursor.value.number + 1
  {
    hide CommitRecords, AddRows, Announced, EventOf, RowKey, Linked;
    AddRowsGrow(s.rows, CommitRecords(cfg, a.c));
    RecordSeenIn(cfg, a.c, s'.rows[i].d);
  }

  lemma {:induction false} StepDeep(cfg: ScanConfig, s: Tables, a: Action, s': Tables)
    requires Next(cfg, s, a, s') && RowsDeep(cfg, s.rows)
    ensures RowsDeep(cfg, s'.rows)
  {
    hide Next;
    forall i | 0 <= i < |s'.rows| ensures Deep(cfg, s'.rows[i]) {
      if i < |s.rows| { RowStep(cfg, s, a, s', i); } else { NewRow(cfg, s, a, s', i); }
    }
  }

  lemma {:induction false} StepMatch(cfg: ScanConfig, s: Tables, a: Action, s': Tables)
    requires Next(cfg, s, a, s') && RowsMatch(cfg, s.rows, s.h.commits)
    ensures RowsMatch(cfg, s'.rows, s'.h.commits)
  {
    hide CommitRecords, AddRows, Announced, EventOf, RowKey, Linked, Replayed, InsertAll;
    if a.Scan? {
      ReplayedSnoc(cfg, s.h.commits, a.c);
      AddRowsAre(s.rows, Replayed(cfg, s.h.commits), CommitRecords(cfg, a.c));
    }
  }

  /** Where the cursor goes. */
  lemma {:induction false} StepCursor(cfg: ScanConfig, s: Tables, a: Action, s': Tables)
    requires Next(cfg, s, a, s')
    ensures s.cursor.Some? ==> s'.cursor.Some? && (!s'.h.moved ==> !s.h.moved && s.cursor.value.number <= s'.cursor.value.number)
    ensures s.cursor.None? ==> s'.rows == s.rows || a.Decide?
    ensures s.cursor.None? ==> |s'.rows| == |s.rows| && s'.h.moved == s.h.moved
  {
    hide CommitRecords, AddRows, Announced, EventOf, RowKey, Linked;
  }

  lemma {:induction false} StepOrder(cfg: ScanConfig, s: Tables, a: Action, s': Tables)
    requires Next(cfg, s, a, s') && InOrder(s)
    ensures InOrder(s')
  {
    hide Next;
    StepCursor(cfg, s, a, s');
    forall i | 0 <= i < |s'.rows|
      ensures i < |s.rows| ==> s'.rows[i].d == s.rows[i].d
      ensures i >= |s.rows| ==> s.cursor.Some? && s'.cursor == s.cursor && s'.rows[i].d.seenIn == s.cursor.value.number + 1
    {
      if i < |s.rows| { RowStep(cfg, s, a, s', i); } else { NewRow(cfg, s, a, s', i); }
    }
  }

  lemma {:induction false} StepInv(cfg: ScanConfig, s: Tables, a: Action, s': Tables)
    requires Next(cfg, s, a, s') && Inv(cfg, s)
    ensures Inv(cfg, s')
  {
    hide Next, RowsMatch, RowsDeep, InOrder;
    StepMatch(cfg, s, a, s');
    StepDeep(cfg, s, a, s');
    StepOrder(cfg, s, a, s');
  }

  lemma {:induction false} StepLater(cfg: ScanConfig, s: Tables, a: Action, s': Tables)
    requires Next(cfg, s, a, s')
    ensures RowsLater(s.rows, s'.rows)
  {
    hide Next, Decided;
    StepGrows(cfg, s, a, s');
    forall i | 0 <= i < |s.rows|
      ensures s'.rows[i].d == s.rows[i].d && (s.rows[i].status != Pending ==> s'.rows[i] == s.rows[i])
    {
      RowStep(cfg, s, a, s', i);
    }
  }

  lemma {:induction false} StepGrows(cfg: ScanConfig, s: Tables, a: Action, s': Tables)
    requires Next(cfg, s, a, s')
    ensures |s.rows| <= |s'.rows|
  {
    hide CommitRecords, AddRows, Announced, EventOf, RowKey, Linked, Decided;
    if a.Scan? { AddRowsGrow(s.rows, CommitRecords(cfg, a.c)); }
  }

  lemma {:induction false} StepsInv(cfg: ScanConfig, s: Tables, s': Tables, n: nat)
    requires Inv(cfg, s) && Steps(cfg, s, s', n)
    ensures Inv(cfg, s') && RowsLater(s.rows, s'.rows)
    decreases n
  {
    hide Inv, Next, RowsLater;
    if n == 0 {
      RowsLaterSelf(s.rows);
    } else {
      var t, a :| Steps(cfg, s, t, n - 1) && Next(cfg, t, a, s');
      StepsInv(cfg, s, t, n - 1);
      StepInv(cfg, t, a, s');
      StepLater(cfg, t, a, s');
      RowsLaterTrans(s.rows, t.rows, s'.rows);
    }
  }

  /** It holds in every run from empty tables, and rows are only ever decided once. */
  lemma {:induction false} ReachInv(cfg: ScanConfig, s: Tables, s': Tables)
    requires Reaches(cfg, Blank, s) && Reaches(cfg, s, s')
    ensures Inv(cfg, s) && Inv(cfg, s') && RowsLater(s.rows, s'.rows)
  {
    hide Inv, Steps, RowsLater;
    BlankInv(cfg);
    var n: nat :| Steps(cfg, Blank, s, n);
    StepsInv(cfg, Blank, s, n);
    var m: nat :| Steps(cfg, s, s', m);
    StepsInv(cfg, s, s', m);
  }

  lemma BlankInv(cfg: ScanConfig)
    ensures Inv(cfg, Blank)
  {
  }

  // ------------------------------------------------------------- orphaned for good

  predicate HasOrphan(rows: seq<Row>, d: Deposit)
  {
    exists i :: 0 <= i < |rows| && SameKey(rows[i].d, d) && rows[i].status == Orphaned
  }

  predicate Live(rows: seq<Row>, d: Deposit)
  {
    exists i :: 0 <= i < |rows| && SameKey(rows[i].d, d) && rows[i].status != Orphaned
  }

  /** A scanned block's log is a pending or confirmed deposit afterwards exactly when
      its key was not orphaned before: nothing brings an orphaned one back. */
  lemma {:induction false} LiveIffNotOrphaned(cfg: ScanConfig, s: Tables, c: Commit, s': Tables, d: Deposit)
    requires Reaches(cfg, Blank, s) && Next(cfg, s, Scan(c), s') && d in CommitRecords(cfg, c)
    ensures Live(s'.rows, d) <==> !HasOrphan(s.rows, d)
    ensures Live(s'.rows, d) <==> !HasOrphan(s'.rows, d)
  {
    hide Reaches, Inv, Apply, CommitRecords;
    OneStep(cfg, s, Scan(c), s');
    ReachInv(cfg, s, s');
    ScanRows(cfg, s, c, s');
    Replaces(cfg, s.rows, s'.rows, s'.h.commits, CommitRecords(cfg, c), d) by { hide RowsLater; ScanMatch(cfg, s', c); }
  }

  lemma ScanRows(cfg: ScanConfig, s: Tables, c: Commit, s': Tables)
    requires Next(cfg, s, Scan(c), s')
    ensures s'.rows == AddRows(s.rows, CommitRecords(cfg, c))
  {
  }

  lemma ScanMatch(cfg: ScanConfig, s: Tables, c: Commit)
    requires Inv(cfg, s)
    ensures RowsMatch(cfg, s.rows, s.h.commits)
  {
  }

  /** Of a record inserted there is one row: the old one, or a pending one. */
  lemma {:induction false} Replaces(cfg: ScanConfig, rows: seq<Row>, rows': seq<Row>, commits: seq<Commit>, recs: seq<Deposit>, d: Deposit)
    requires rows' == AddRows(rows, recs) && RowsMatch(cfg, rows', commits) && d in recs
    ensures Live(rows', d) <==> !HasOrphan(rows, d)
    ensures Live(rows', d) <==> !HasOrphan(rows', d)
  {
    hide AddRow, AddRows, Replayed, InsertAll, Insert, CommitRecords;
    AddRowsGrow(rows, recs);
    ReplayedUnique(cfg, commits);
    var ds := seq(|rows|, i requires 0 <= i < |rows| => rows[i].d);
    AddRowsAre(rows, ds, recs);
    InsertAllHolds(ds, recs);
    var i :| 0 <= i < |rows'| && SameKey(rows'[i].d, d);
    forall j | 0 <= j < |rows'| && SameKey(rows'[j].d, d) ensures j == i {
      assert SameKey(Replayed(cfg, commits)[i], Replayed(cfg, commits)[j]) && SameKey(Replayed(cfg, commits)[j], Replayed(cfg, commits)[i]);
    }
    assert HasOrphan(rows, d) ==> exists j :: 0 <= j < |rows| && SameKey(rows'[j].d, d) && rows'[j].status == Orphaned;
  }

  /** Over whole runs: once orphaned, a key stays orphaned, whatever is scanned again. */
  lemma {:induction false} OrphanStays(cfg: ScanConfig, s: Tables, s': Tables, d: Deposit)
    requires Reaches(cfg, Blank, s) && Reaches(cfg, s, s') && HasOrphan(s.rows, d)
    ensures HasOrphan(s'.rows, d) && !Live(s'.rows, d)
  {
    hide Reaches, Replayed, InOrder, RowsDeep;
    ReachInv(cfg, s, s');
    ReplayedUnique(cfg, s'.h.commits);
    var i :| 0 <= i < |s.rows| && SameKey(s.rows[i].d, d) && s.rows[i].status == Orphaned;
    assert s'.rows[i] == s.rows[i];
    forall j | 0 <= j < |s'.rows| && SameKey(s'.rows[j].d, d) ensures j == i {
      assert SameKey(s'.rows[i].d, s'.rows[j].d) && SameKey(s'.rows[j].d, s'.rows[i].d);
    }
  }

  // ------------------------------------------------------------------ block order

  /** What sweeping relies on: without forks and realignments deposit ids follow block
      order, and what is confirmed where it was seen has the depth. */
  lemma {:induction false} IdsFollowBlocks(cfg: ScanConfig, s: Tables, i: nat, j: nat)
    requires Reaches(cfg, Blank, s) && !s.h.moved && i < j < |s.rows|
    ensures s.rows[i].d.seenIn <= s.rows[j].d.seenIn
  {
    hide RowsMatch, RowsDeep, Reaches;
    ReachesSelf(cfg, s);
    ReachInv(cfg, s, s);
  }
}
