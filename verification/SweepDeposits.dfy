/** The deposits sweeping sees are the scanner's: while the scanner goes forward and
    receipts stay where they were, each of its steps is one that SweepState allows, so
    the guards there (ids follow block order, confirmation at depth) are the scanner's
    own invariants. */
module SweepDeposits {
  import opened Wrappers
  import opened ChainLog
  import opened Deposits
  import opened ScanState
  import Runs = ScanRuns
  import Sweeps = SweepState

  function DepOf(r: Row, swept: bool): (d: Sweeps.Dep)
  {
    Sweeps.Dep(Sweeps.Key(r.d.to, r.d.contract), r.d.seenIn, r.status == Confirmed, swept, r.d.internal)
  }

  /** Row by row the same deposits, some of them swept. */
  ghost predicate Mirrors(rows: seq<Row>, deps: seq<Sweeps.Dep>)
  {
    |deps| == |rows| && forall i :: 0 <= i < |rows| ==> deps[i] == DepOf(rows[i], deps[i].swept)
  }

  /** Inserting the rows of a scanned block one by one. */
  lemma {:induction false} InsertMirrored(cfg: Sweeps.Config, t: Sweeps.State, rows: seq<Row>, rows': seq<Row>, n: nat)
    requires rows <= rows' && |rows| <= n <= |rows'| && Mirrors(rows, t.deps)
    requires forall i :: |rows| <= i < |rows'| ==> rows'[i].status == Pending && rows'[i].d.seenIn <= t.head
    requires forall i, j :: 0 <= i < j < |rows'| ==> rows'[i].d.seenIn <= rows'[j].d.seenIn
    ensures exists deps: seq<Sweeps.Dep> :: Mirrors(rows'[..n], deps) && t.deps <= deps && Sweeps.Reaches(cfg, t, t.(deps := deps))
    decreases n
  {
    hide Sweeps.Reaches, Sweeps.Enabled, Sweeps.Apply;
    if n == |rows| {
      assert rows'[..n] == rows && t.(deps := t.deps) == t;
      Sweeps.ReachesSelf(cfg, t);
    } else {
      InsertMirrored(cfg, t, rows, rows', n - 1);
      var deps: seq<Sweeps.Dep> :| Mirrors(rows'[..n - 1], deps) && t.deps <= deps && Sweeps.Reaches(cfg, t, t.(deps := deps));
      var d := DepOf(rows'[n - 1], false);
      assert forall i :: 0 <= i < |deps| ==> deps[i].block == rows'[i].d.seenIn;
      MayInsert(cfg, t.(deps := deps), d);
      Sweeps.ReachesStep(cfg, t, t.(deps := deps), Sweeps.ScanDeposit(d), t.(deps := deps + [d]));
      assert Mirrors(rows'[..n], deps + [d]);
    }
  }

  lemma MayInsert(cfg: Sweeps.Config, t: Sweeps.State, d: Sweeps.Dep)
    requires !d.confirmed && !d.swept && d.block <= t.head && forall i :: 0 <= i < |t.deps| ==> t.deps[i].block <= d.block
    ensures Sweeps.Next(cfg, t, Sweeps.ScanDeposit(d), t.(deps := t.deps + [d]))
  {
  }

  /** A scan of the next block at or below the head is a run of the deposits. */
  lemma {:induction false} ScanMirrored(cfg: ScanConfig, s: Runs.Tables, c: Commit, s': Runs.Tables, sweeping: Sweeps.Config, t: Sweeps.State)
    requires Runs.Reaches(cfg, Runs.Blank, s) && Runs.Next(cfg, s, Runs.Scan(c), s') && !s.h.moved
    requires Mirrors(s.rows, t.deps) && c.data.block.number <= t.head
    ensures exists deps: seq<Sweeps.Dep> :: Mirrors(s'.rows, deps) && t.deps <= deps && Sweeps.Reaches(sweeping, t, t.(deps := deps))
  {
    hide Runs.Reaches, Sweeps.Reaches, Mirrors, AddRows, CommitRecords;
    Runs.ReachesStep(cfg, Runs.Blank, s, Runs.Scan(c), s');
    AddRowsGrow(s.rows, CommitRecords(cfg, c));
    forall i | |s.rows| <= i < |s'.rows| ensures s'.rows[i].status == Pending && s'.rows[i].d.seenIn <= t.head {
      Runs.NewRow(cfg, s, Runs.Scan(c), s', i);
    }
    forall i, j | 0 <= i < j < |s'.rows| ensures s'.rows[i].d.seenIn <= s'.rows[j].d.seenIn {
      Runs.IdsFollowBlocks(cfg, s', i, j);
    }
    InsertMirrored(sweeping, t, s.rows, s'.rows, |s'.rows|);
    assert s'.rows[..|s'.rows|] == s'.rows;
  }

  /** A decision by a receipt that still names the block the deposit was seen in is a
      confirmation at depth; any that orphans it changes nothing for sweeping. */
  lemma {:induction false} DecisionMirrored(cfg: ScanConfig, s: Runs.Tables, i: nat, receipt: Option<TxInfo>, head: int, s': Runs.Tables,
                                            sweeping: Sweeps.Config, t: Sweeps.State)
    requires Runs.Reaches(cfg, Runs.Blank, s) && Runs.Next(cfg, s, Runs.Decide(i, receipt, head), s')
    requires receipt.Some? ==> receipt.value.blockNumber == s.rows[i].d.seenIn
    requires Mirrors(s.rows, t.deps) && head <= t.head && sweeping.confirmations == cfg.confirmations
    ensures exists deps: seq<Sweeps.Dep> :: Mirrors(s'.rows, deps) && Sweeps.Reaches(sweeping, t, t.(deps := deps))
  {
    hide Runs.Reaches, Sweeps.Reaches, RowsMatch, Runs.InOrder, NormResult, RowKey, EventOf, Sweeps.Enabled, Sweeps.Apply;
    Runs.ReachesSelf(cfg, s);
    Runs.ReachInv(cfg, s, s);
    assert Deep(cfg, s.rows[i]);
    Sweeps.ReachesSelf(sweeping, t);
    if s'.rows[i].status == Confirmed {
      var deps := t.deps[i := t.deps[i].(confirmed := true)];
      MayConfirm(sweeping, t, i);
      Sweeps.ReachesStep(sweeping, t, t, Sweeps.ConfirmDeposit(i), t.(deps := deps));
      assert Mirrors(s'.rows, deps);
    } else {
      assert Mirrors(s'.rows, t.deps) && t.(deps := t.deps) == t;
    }
  }

  lemma MayConfirm(cfg: Sweeps.Config, t: Sweeps.State, i: nat)
    requires i < |t.deps| && !t.deps[i].confirmed && t.deps[i].block <= t.head - cfg.confirmations
    ensures Sweeps.Next(cfg, t, Sweeps.ConfirmDeposit(i), t.(deps := t.deps[i := t.deps[i].(confirmed := true)]))
  {
  }
}
