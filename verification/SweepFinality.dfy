/** How the status of a sweep can still change once its worker is gone, or once it was
    settled: exactly who can change it, and the rows that nobody ever will. */
module SweepFinality {
  import opened Wrappers
  import opened SweepState
  import opened SweepSafety
  import opened SweepLimits

  /** Some worker still works on the row. */
  ghost predicate Owned(s: State, id: nat)
  {
    exists w :: w in s.sessions && s.sessions[w].phase == Owner(id)
  }

  /** Some reconcile loop still has a copy of the row. */
  ghost predicate Copied(s: State, id: nat)
  {
    exists r :: (r, id) in s.copies
  }

  lemma {:induction false} StaysUnowned(cfg: Config, s: State, a: Action, s': State, id: nat)
    requires OwnersSound(s) && Next(cfg, s, a, s') && id < |s.sweeps| && !Owned(s, id)
    ensures !Owned(s', id)
  {
    hide Next, OwnersSound;
    forall w | w in s'.sessions ensures s'.sessions[w].phase != Owner(id) {
      if s'.sessions[w].phase == Owner(id) { OwnerAfter(cfg, s, a, s', w); }
    }
  }

  lemma {:induction false} UnownedRow(cfg: Config, s: State, a: Action, s': State, id: nat)
    requires Next(cfg, s, a, s') && id < |s.sweeps| && !Owned(s, id)
    ensures id < |s'.sweeps|
    ensures s'.sweeps[id] == s.sweeps[id] || (LoopWrites(s, a, id) && s'.sweeps[id].status == if a.ConfirmRow? then Confirmed else Failed)
  {
    hide Next, LoopWrites;
    if Actor(a).Some? { WorkerRow(cfg, s, a, s', id); } else { LoopRow(cfg, s, a, s', id); }
  }

  /** Only a row on the network is read by a loop. */
  lemma {:induction false} StaysUncopied(cfg: Config, s: State, a: Action, s': State, id: nat)
    requires Next(cfg, s, a, s') && id < |s.sweeps| && !Copied(s, id) && !Reconcilable(s.sweeps[id].status)
    ensures !Copied(s', id)
  {
    hide LockFree, NoActive, MaxId, MarkDeps, Covered;
    forall r: nat ensures (r, id) !in s'.copies {
      assert (r, id) !in s.copies;
    }
  }

  // ------------------------------------------------------------------- finality

  /** A settled row nobody owns stays inactive; a confirmed one without copies, and a
      failed one, stay as they are. */
  lemma {:induction false} SettledSteps(cfg: Config, s: State, s': State, id: nat, n: nat)
    requires Inv(cfg, s) && Steps(cfg, s, s', n) && id < |s.sweeps| && !s.sweeps[id].status.Active() && !Owned(s, id)
    ensures Inv(cfg, s') && id < |s'.sweeps| && !s'.sweeps[id].status.Active() && !Owned(s', id)
    ensures s.sweeps[id].status.Failed? || !Copied(s, id) ==> s'.sweeps[id].status == s.sweeps[id].status
    ensures !Copied(s, id) ==> !Copied(s', id)
    decreases n
  {
    hide Next, OwnersSound, BodiesSound, CopiesSound, DepsSound, BoundsSound, MarksSound, LocksExclusive, OneActive, Owned, Copied;
    if n > 0 {
      var t, a :| Steps(cfg, s, t, n - 1) && Next(cfg, t, a, s');
      SettledSteps(cfg, s, t, id, n - 1);
      StepInv(cfg, t, a, s');
      StaysUnowned(cfg, t, a, s', id);
      UnownedRow(cfg, t, a, s', id);
      if !Copied(s, id) {
        StaysUncopied(cfg, t, a, s', id);
        NoCopy(t, id);
      }
    }
  }

  lemma NoCopy(s: State, id: nat)
    requires !Copied(s, id)
    ensures forall r :: !HasCopy(s, r, id)
  {
  }

  /** A settled sweep can be active again exactly while its worker is at work on it. */
  lemma {:induction false} ActiveAgainIffOwned(cfg: Config, s: State, id: nat)
    requires Reaches(cfg, Empty, s) && id < |s.sweeps| && !s.sweeps[id].status.Active()
    ensures (exists s' :: Reaches(cfg, s, s') && id < |s'.sweeps| && s'.sweeps[id].status.Active()) <==> Owned(s, id)
  {
    hide Inv, Reaches;
    EmptyInv(cfg);
    ReachInv(cfg, Empty, s);
    if Owned(s, id) {
      Revived(cfg, s, id);
    } else {
      forall s' | Reaches(cfg, s, s') ensures id < |s'.sweeps| && !s'.sweeps[id].status.Active() {
        Settles(cfg, s, s', id);
      }
    }
  }

  lemma {:induction false} Revived(cfg: Config, s: State, id: nat)
    requires id < |s.sweeps| && Owned(s, id)
    ensures exists s' :: Reaches(cfg, s, s') && id < |s'.sweeps| && s'.sweeps[id].status.Active()
  {
    hide Reaches, LockFree, NoActive, MaxId, MarkDeps, Covered;
    var w :| w in s.sessions && s.sessions[w].phase == Owner(id);
    var s' := Apply(cfg, s, HaveEnergy(w));
    ReachesSelf(cfg, s);
    ReachesStep(cfg, s, s, HaveEnergy(w), s');
    assert s'.sweeps[id].status.Active();
  }

  lemma {:induction false} Settles(cfg: Config, s: State, s': State, id: nat)
    requires Inv(cfg, s) && Reaches(cfg, s, s') && id < |s.sweeps| && !s.sweeps[id].status.Active() && !Owned(s, id)
    ensures id < |s'.sweeps| && !s'.sweeps[id].status.Active()
    ensures s.sweeps[id].status.Failed? || !Copied(s, id) ==> s'.sweeps[id].status == s.sweeps[id].status
  {
    hide Inv, Steps;
    var n: nat :| Steps(cfg, s, s', n);
    SettledSteps(cfg, s, s', id, n);
  }

  /** A confirmed sweep can be failed exactly while its worker or a copy of it is about:
      a failed receipt is written without looking at the status. */
  lemma {:induction false} ConfirmedFailsIffHeld(cfg: Config, s: State, id: nat)
    requires Reaches(cfg, Empty, s) && RowIs(s, id, Confirmed)
    ensures (exists s' :: Reaches(cfg, s, s') && RowIs(s', id, Failed)) <==> Owned(s, id) || Copied(s, id)
  {
    hide Inv, Reaches;
    EmptyInv(cfg);
    ReachInv(cfg, Empty, s);
    if Owned(s, id) || Copied(s, id) {
      FailsLate(cfg, s, id);
    } else {
      forall s' | Reaches(cfg, s, s') ensures !RowIs(s', id, Failed) {
        Settles(cfg, s, s', id);
      }
    }
  }

  lemma {:induction false} FailsLate(cfg: Config, s: State, id: nat)
    requires Inv(cfg, s) && id < |s.sweeps| && (Owned(s, id) || Copied(s, id))
    ensures exists s' :: Reaches(cfg, s, s') && RowIs(s', id, Failed)
  {
    hide Reaches, OwnersSound, BodiesSound, DepsSound, BoundsSound, MarksSound, LocksExclusive, OneActive;
    ReachesSelf(cfg, s);
    if Owned(s, id) {
      var w :| w in s.sessions && s.sessions[w].phase == Owner(id);
      MayFailOwn(cfg, s, id, w);
      ReachesStep(cfg, s, s, FailOwn(w), Apply(cfg, s, FailOwn(w)));
    } else {
      var r: nat :| (r, id) in s.copies;
      MayFailRow(cfg, s, id, r);
      ReachesStep(cfg, s, s, FailRow(r, id), Apply(cfg, s, FailRow(r, id)));
    }
  }

  lemma MayFailOwn(cfg: Config, s: State, id: nat, w: nat)
    requires id < |s.sweeps| && w in s.sessions && s.sessions[w].phase == Owner(id)
    ensures Enabled(cfg, s, FailOwn(w)) && RowIs(Apply(cfg, s, FailOwn(w)), id, Failed)
  {
  }

  /** Both can happen: a sweep confirmed while its worker has yet to note that it was
      sent, and while a second loop has a copy of it. */
  lemma {:induction false} ConfirmedIsNotFinal(cfg: Config, key: Key)
    requires cfg.txidOf("b") != ""
    ensures exists s :: Reaches(cfg, Empty, s) && RowIs(s, 0, Confirmed) && Owned(s, 0) && Copied(s, 0)
  {
    hide Reaches, Enabled, Apply, Owned, Copied;
    var row := Stored(cfg, NewSweep(key, 0, 0, 0));
    var s0 := One(key, Owner(0), [row.(status := EnergyReady)], [], 0).(copies := {(0, 0)});
    var s1 := s0.(copies := {(0, 0), (1, 0)});
    StoredRow(cfg, key);
    SweepTaken(cfg, key, row, [], 0);
    TakenTwice(cfg, key, s0, s1);
    ReachesStep(cfg, Empty, s0, Take(1, 0), s1);
    ReachesStep(cfg, Empty, s1, ConfirmRow(0, 0), Apply(cfg, s1, ConfirmRow(0, 0)));
  }

  lemma TakenTwice(cfg: Config, key: Key, s: State, s': State)
    requires s.sessions == map[0 := Session(key, Owner(0))] && |s.sweeps| == 1 && OnNetwork(s.sweeps[0]) && s.copies == {(0, 0)}
    requires s' == s.(copies := {(0, 0), (1, 0)})
    ensures Next(cfg, s, Take(1, 0), s') && Enabled(cfg, s', ConfirmRow(0, 0))
    ensures var s'' := Apply(cfg, s', ConfirmRow(0, 0)); RowIs(s'', 0, Confirmed) && Owned(s'', 0) && Copied(s'', 0)
  {
    hide LockFree, NoActive, MaxId, MarkDeps, Covered;
    var s'' := Apply(cfg, s', ConfirmRow(0, 0));
    assert (1, 0) in s''.copies && s''.sessions[0].phase == Owner(0);
  }

  // ------------------------------------------------------------ rows left behind

  /** The row's transaction was found on the chain. */
  predicate Receipt(a: Action, id: nat)
  {
    (a.FailRow? || a.ConfirmRow?) && a.id == id
  }

  /** s' is n steps after s, none of them by a receipt of the row unless allowed. */
  ghost predicate Goes(cfg: Config, s: State, s': State, id: nat, receipts: bool, n: nat)
    decreases n
  {
    if n == 0 then s == s'
    else exists t, a :: Goes(cfg, s, t, id, receipts, n - 1) && Next(cfg, t, a, s') && (Receipt(a, id) ==> receipts)
  }

  /** A loop reads the row, and can be done with it. */
  predicate Releasable(row: Sweep, receipts: bool)
  {
    OnNetwork(row) && (receipts || row.expiredAt.Some?)
  }

  /** An active row without an owner which no loop can settle. */
  ghost predicate Stuck(s: State, id: nat, receipts: bool)
  {
    id < |s.sweeps| && s.sweeps[id].status.Active() && !Owned(s, id) && !Releasable(s.sweeps[id], receipts)
  }

  lemma {:induction false} StuckStep(cfg: Config, s: State, a: Action, s': State, id: nat, receipts: bool)
    requires Inv(cfg, s) && Next(cfg, s, a, s') && Stuck(s, id, receipts) && (Receipt(a, id) ==> receipts)
    ensures Stuck(s', id, receipts) && s'.sweeps[id] == s.sweeps[id]
  {
    hide Next, OwnersSound, DepsSound, BoundsSound, MarksSound, LocksExclusive, OneActive, Owned;
    StaysUnowned(cfg, s, a, s', id);
    UnownedRow(cfg, s, a, s', id);
    assert RowSound(cfg, s.sweeps[id]);
  }

  lemma {:induction false} StuckStays(cfg: Config, s: State, s': State, id: nat, receipts: bool, n: nat)
    requires Inv(cfg, s) && Goes(cfg, s, s', id, receipts, n) && Stuck(s, id, receipts)
    ensures Inv(cfg, s') && Stuck(s', id, receipts) && s'.sweeps[id] == s.sweeps[id]
    decreases n
  {
    hide Next, Inv, Stuck, Receipt;
    if n > 0 {
      var t, a :| Goes(cfg, s, t, id, receipts, n - 1) && Next(cfg, t, a, s') && (Receipt(a, id) ==> receipts);
      StuckStays(cfg, s, t, id, receipts, n - 1);
      StepInv(cfg, t, a, s');
      StuckStep(cfg, t, a, s', id, receipts);
    }
  }

  /** An active row whose worker is gone can become inactive exactly when it is on the
      network with a txid and, unless its transaction shows up on the chain, has an
      expiration. */
  lemma {:induction false} ReleasedIffReleasable(cfg: Config, s: State, id: nat, receipts: bool)
    requires Reaches(cfg, Empty, s) && id < |s.sweeps| && s.sweeps[id].status.Active() && !Owned(s, id)
    ensures (exists s', n: nat :: Goes(cfg, s, s', id, receipts, n) && id < |s'.sweeps| && !s'.sweeps[id].status.Active())
            <==> Releasable(s.sweeps[id], receipts)
  {
    hide Reaches, Inv, Goes;
    EmptyInv(cfg);
    ReachInv(cfg, Empty, s);
    if Releasable(s.sweeps[id], receipts) {
      Released(cfg, s, id, receipts);
    } else {
      forall s', n: nat | Goes(cfg, s, s', id, receipts, n) ensures Stuck(s', id, receipts) {
        StuckStays(cfg, s, s', id, receipts, n);
      }
    }
  }

  lemma {:induction false} Released(cfg: Config, s: State, id: nat, receipts: bool)
    requires id < |s.sweeps| && Releasable(s.sweeps[id], receipts)
    ensures exists s', n: nat :: Goes(cfg, s, s', id, receipts, n) && id < |s'.sweeps| && !s'.sweeps[id].status.Active()
  {
    hide Goes, Enabled, Apply;
    var taken := s.(copies := s.copies + {(0, id)});
    GoesSelf(cfg, s, id, receipts);
    MayTake(cfg, s, id);
    GoesStep(cfg, s, s, Take(0, id), taken, id, receipts, 0);
    if receipts {
      MayFailRow(cfg, taken, id, 0);
      GoesStep(cfg, s, taken, FailRow(0, id), Apply(cfg, taken, FailRow(0, id)), id, receipts, 1);
    } else {
      var late := taken.(now := if s.now < s.sweeps[id].expiredAt.value then s.sweeps[id].expiredAt.value else s.now);
      MayExpire(cfg, taken, late, id);
      GoesStep(cfg, s, taken, Advance(s.head, late.now), late, id, receipts, 1);
      GoesStep(cfg, s, late, ExpireRow(0, id), Apply(cfg, late, ExpireRow(0, id)), id, receipts, 2);
    }
  }

  lemma MayTake(cfg: Config, s: State, id: nat)
    requires id < |s.sweeps| && OnNetwork(s.sweeps[id])
    ensures var taken := s.(copies := s.copies + {(0, id)}); Next(cfg, s, Take(0, id), taken) && HasCopy(taken, 0, id)
  {
  }

  lemma MayExpire(cfg: Config, s: State, late: State, id: nat)
    requires HasCopy(s, 0, id) && OnNetwork(s.sweeps[id]) && s.sweeps[id].expiredAt.Some?
    requires late == s.(now := late.now) && s.now <= late.now && s.sweeps[id].expiredAt.value <= late.now
    ensures Next(cfg, s, Advance(s.head, late.now), late)
    ensures Enabled(cfg, late, ExpireRow(0, id)) && RowIs(Apply(cfg, late, ExpireRow(0, id)), id, Failed)
  {
  }

  lemma GoesSelf(cfg: Config, s: State, id: nat, receipts: bool)
    ensures Goes(cfg, s, s, id, receipts, 0)
  {
  }

  lemma GoesStep(cfg: Config, s: State, t: State, a: Action, t': State, id: nat, receipts: bool, n: nat)
    requires Goes(cfg, s, t, id, receipts, n) && Next(cfg, t, a, t') && (Receipt(a, id) ==> receipts)
    ensures Goes(cfg, s, t', id, receipts, n + 1)
  {
    hide Next;
  }

  /** Nobody is about to create a sweep of this address and token. */
  ghost predicate Unattended(s: State, key: Key)
  {
    forall w :: w in s.sessions && s.sessions[w].key == key ==> !s.sessions[w].phase.Idle? && !s.sessions[w].phase.Ready?
  }

  /** With locks nobody is, where a sweep is active. */
  lemma {:induction false} LockedIsUnattended(cfg: Config, s: State, id: nat)
    requires cfg.redis && Reaches(cfg, Empty, s) && id < |s.sweeps| && s.sweeps[id].status.Active()
    ensures Unattended(s, s.sweeps[id].key)
  {
    hide OwnersSound, BodiesSound, CopiesSound, DepsSound, BoundsSound, MarksSound, LocksExclusive;
    EmptyInv(cfg);
    ReachInv(cfg, Empty, s);
  }

  /** Only an idle address is moved on towards a new sweep. */
  lemma {:induction false} ActorAttends(cfg: Config, s: State, a: Action, s': State, w: nat)
    requires Next(cfg, s, a, s') && Actor(a) == Some(w) && w in s'.sessions
    requires s'.sessions[w].phase.Idle? || s'.sessions[w].phase.Ready?
    ensures w in s.sessions && s.sessions[w].key == s'.sessions[w].key
    ensures s.sessions[w].phase.Idle? || s.sessions[w].phase.Ready? || NoActive(s, s.sessions[w].key)
  {
    hide LockFree, NoActive, MaxId, MarkDeps, Covered;
  }

  lemma {:induction false} UnattendedStep(cfg: Config, s: State, a: Action, s': State, id: nat)
    requires Next(cfg, s, a, s') && id < |s.sweeps| && s.sweeps[id].status.Active() && Unattended(s, s.sweeps[id].key)
    ensures Unattended(s', s.sweeps[id].key)
    ensures forall i :: |s.sweeps| <= i < |s'.sweeps| ==> s'.sweeps[i].key != s.sweeps[id].key
    ensures |s.sweeps| <= |s'.sweeps| && forall i :: 0 <= i < |s.sweeps| ==> s'.sweeps[i].key == s.sweeps[i].key
  {
    hide Next;
    StepGrows(cfg, s, a, s');
    forall w | w in s'.sessions && (s'.sessions[w].phase.Idle? || s'.sessions[w].phase.Ready?)
      ensures s'.sessions[w].key != s.sweeps[id].key
    {
      if Actor(a) == Some(w) { ActorAttends(cfg, s, a, s', w); } else { SessionFrame(cfg, s, a, s', w); }
    }
    forall i | 0 <= i < |s'.sweeps|
      ensures if i < |s.sweeps| then s'.sweeps[i].key == s.sweeps[i].key else s'.sweeps[i].key != s.sweeps[id].key
    {
      StatusFrame(cfg, s, a, s', i);
    }
  }

  /** Nothing in the code ever touches such a row again, and no new sweep of its address
      and token is ever created. */
  lemma {:induction false} StuckBlocksAddress(cfg: Config, s: State, s': State, id: nat, receipts: bool, n: nat)
    requires Inv(cfg, s) && Goes(cfg, s, s', id, receipts, n) && Stuck(s, id, receipts) && Unattended(s, s.sweeps[id].key)
    ensures Stuck(s', id, receipts) && s'.sweeps[id] == s.sweeps[id] && Unattended(s', s.sweeps[id].key)
    ensures |s.sweeps| <= |s'.sweeps| && forall i :: |s.sweeps| <= i < |s'.sweeps| ==> s'.sweeps[i].key != s.sweeps[id].key
    decreases n
  {
    hide Next, Inv, Unattended, Owned, Releasable, Receipt;
    if n > 0 {
      var t, a :| Goes(cfg, s, t, id, receipts, n - 1) && Next(cfg, t, a, s') && (Receipt(a, id) ==> receipts);
      StuckBlocksAddress(cfg, s, t, id, receipts, n - 1);
      StuckStays(cfg, s, t, id, receipts, n - 1);
      StuckStep(cfg, t, a, s', id, receipts);
      UnattendedStep(cfg, t, a, s', id);
    }
  }

  /** The tables after a crash of the only worker. */
  function Crashed(row: Sweep): (s': State)
  {
    Empty.(sweeps := [row])
  }

  lemma {:induction false} Crashes(cfg: Config, key: Key, row: Sweep)
    requires Reaches(cfg, Empty, One(key, Owner(0), [row], [], 0))
    ensures Reaches(cfg, Empty, Crashed(row))
  {
    hide Reaches;
    var s := One(key, Owner(0), [row], [], 0);
    assert s.sessions - {0} == map[];
    ReachesStep(cfg, Empty, s, Leave(0), Crashed(row));
  }

  /** Sent and noted as accepted, although the write of the signed body was lost. */
  function Unstored(cfg: Config, row: Sweep): (row': Sweep)
  {
    row.(body := "b", status := Broadcast, txid := cfg.txidOf("b"))
  }

  lemma {:induction false} StoreLost(cfg: Config, key: Key)
    ensures Reaches(cfg, Empty, One(key, Owner(0), [Unstored(cfg, NewSweep(key, 0, 0, 0))], [], 0))
  {
    hide Reaches, Enabled, Apply;
    var row := NewSweep(key, 0, 0, 0);
    var signed := row.(body := "b");
    IdleStart(cfg, key);
    BoundlessSweep(cfg, key, 0);
    SentUnstored(cfg, key, row);
    ReachesStep(cfg, Empty, One(key, Owner(0), [row], [], 0), Sign(0, "b"), One(key, Owner(0), [signed], [], 0));
    ReachesStep(cfg, Empty, One(key, Owner(0), [signed], [], 0), MarkSent(0, true), One(key, Owner(0), [Unstored(cfg, row)], [], 0));
  }

  lemma SentUnstored(cfg: Config, key: Key, row: Sweep)
    requires row.body == ""
    ensures var signed := row.(body := "b");
      && Next(cfg, One(key, Owner(0), [row], [], 0), Sign(0, "b"), One(key, Owner(0), [signed], [], 0))
      && Next(cfg, One(key, Owner(0), [signed], [], 0), MarkSent(0, true), One(key, Owner(0), [Unstored(cfg, row)], [], 0))
  {
  }

  /** The kinds of rows left behind for good, each in a run: created but never signed;
      stored, but its energy was never noted; sent, but its body was never stored. The
      last one is still settled if its transaction is included. */
  lemma {:induction false} StuckHappens(cfg: Config, key: Key)
    requires cfg.txidOf("b") != ""
    ensures var unsigned := Crashed(NewSweep(key, 0, 0, 0));
      Reaches(cfg, Empty, unsigned) && Stuck(unsigned, 0, true) && unsigned.sweeps[0].txid == ""
    ensures var unnoted := Crashed(Stored(cfg, NewSweep(key, 0, 0, 0)));
      Reaches(cfg, Empty, unnoted) && Stuck(unnoted, 0, true) && unnoted.sweeps[0].txid != ""
    ensures var unstored := Crashed(Unstored(cfg, NewSweep(key, 0, 0, 0)));
      Reaches(cfg, Empty, unstored) && Stuck(unstored, 0, false) && !Stuck(unstored, 0, true)
    ensures forall row :: Unattended(Crashed(row), key)
  {
    hide Reaches, Enabled, Apply;
    IdleStart(cfg, key);
    BoundlessSweep(cfg, key, 0);
    Crashes(cfg, key, NewSweep(key, 0, 0, 0));
    StoredRow(cfg, key);
    Crashes(cfg, key, Stored(cfg, NewSweep(key, 0, 0, 0)));
    StoreLost(cfg, key);
    Crashes(cfg, key, Unstored(cfg, NewSweep(key, 0, 0, 0)));
  }
}
