/** Where the sweep guarantees stop: each condition of SweepSafety is needed, shown by a
    run that breaks the promise without it, and what the code leaves to an operator. */
module SweepLimits {
  import opened Wrappers
  import opened SweepState
  import opened SweepSafety

  // ------------------------------------------------------------------- the locks

  ghost predicate TwoActive(s: State)
  {
    exists i, j :: 0 <= i < j < |s.sweeps| && s.sweeps[i].status.Active() && s.sweeps[j].status.Active()
                   && s.sweeps[i].key == s.sweeps[j].key
  }

  function NewSweep(key: Key, maxId: nat, readAt: int, idAt: int): (row': Sweep)
  {
    Sweep(key, 1, Created, "", "", None, maxId, "", readAt, idAt)
  }

  /** Two workers at one address and token, in the given phases. */
  function Both(key: Key, p: Phase, q: Phase, sweeps: seq<Sweep>): (s': State)
  {
    Empty.(sessions := map[0 := Session(key, p), 1 := Session(key, q)], sweeps := sweeps)
  }

  /** One worker in a phase, one deposit of its address at block 1 in a state. */
  function One(key: Key, p: Phase, sweeps: seq<Sweep>, deps: seq<Dep>, head: int): (s': State)
  {
    Empty.(sessions := map[0 := Session(key, p)], sweeps := sweeps, deps := deps, head := head)
  }

  lemma {:induction false} UnlockedStart(cfg: Config, key: Key)
    requires !cfg.redis
    ensures Reaches(cfg, Empty, Both(key, Idle(0), Idle(0), []))
  {
    hide Reaches, Enabled, Apply;
    ReachesSelf(cfg, Empty);
    BothReading(cfg, key);
    ReachesStep(cfg, Empty, Empty, ReadBalance(0, key), One(key, Reading(0), [], [], 0));
    ReachesStep(cfg, Empty, One(key, Reading(0), [], [], 0), ReadBalance(1, key), Both(key, Reading(0), Reading(0), []));
    BothLocked(cfg, key);
    ReachesStep(cfg, Empty, Both(key, Reading(0), Reading(0), []), Acquire(0), Both(key, Locked(0), Reading(0), []));
    ReachesStep(cfg, Empty, Both(key, Locked(0), Reading(0), []), Acquire(1), Both(key, Locked(0), Locked(0), []));
    BothIdle(cfg, key);
    ReachesStep(cfg, Empty, Both(key, Locked(0), Locked(0), []), CheckIdle(0), Both(key, Idle(0), Locked(0), []));
    ReachesStep(cfg, Empty, Both(key, Idle(0), Locked(0), []), CheckIdle(1), Both(key, Idle(0), Idle(0), []));
  }

  lemma BothReading(cfg: Config, key: Key)
    ensures Next(cfg, Empty, ReadBalance(0, key), One(key, Reading(0), [], [], 0))
    ensures Next(cfg, One(key, Reading(0), [], [], 0), ReadBalance(1, key), Both(key, Reading(0), Reading(0), []))
  {
  }

  lemma BothLocked(cfg: Config, key: Key)
    requires !cfg.redis
    ensures Next(cfg, Both(key, Reading(0), Reading(0), []), Acquire(0), Both(key, Locked(0), Reading(0), []))
    ensures Next(cfg, Both(key, Locked(0), Reading(0), []), Acquire(1), Both(key, Locked(0), Locked(0), []))
  {
  }

  lemma BothIdle(cfg: Config, key: Key)
    ensures Next(cfg, Both(key, Locked(0), Locked(0), []), CheckIdle(0), Both(key, Idle(0), Locked(0), []))
    ensures Next(cfg, Both(key, Idle(0), Locked(0), []), CheckIdle(1), Both(key, Idle(0), Idle(0), []))
  {
  }

  lemma BothReady(cfg: Config, key: Key)
    ensures Next(cfg, Both(key, Idle(0), Idle(0), []), ReadMaxId(0), Both(key, Ready(0, 0, 0), Idle(0), []))
    ensures Next(cfg, Both(key, Ready(0, 0, 0), Idle(0), []), ReadMaxId(1), Both(key, Ready(0, 0, 0), Ready(0, 0, 0), []))
  {
  }

  lemma BothCreate(cfg: Config, key: Key)
    ensures var row := NewSweep(key, 0, 0, 0);
      && Next(cfg, Both(key, Ready(0, 0, 0), Ready(0, 0, 0), []), Create(0, 1), Both(key, Owner(0), Ready(0, 0, 0), [row]))
      && Next(cfg, Both(key, Owner(0), Ready(0, 0, 0), [row]), Create(1, 1), Both(key, Owner(0), Owner(1), [row, row]))
  {
  }

  lemma {:induction false} UnlockedPair(cfg: Config, key: Key)
    requires !cfg.redis
    ensures exists s :: Reaches(cfg, Empty, s) && TwoActive(s)
  {
    hide Reaches, Enabled, Apply;
    UnlockedStart(cfg, key);
    var row := NewSweep(key, 0, 0, 0);
    var s0 := Both(key, Idle(0), Idle(0), []);
    var s1 := Both(key, Ready(0, 0, 0), Idle(0), []);
    var s2 := Both(key, Ready(0, 0, 0), Ready(0, 0, 0), []);
    var s3 := Both(key, Owner(0), Ready(0, 0, 0), [row]);
    var s4 := Both(key, Owner(0), Owner(1), [row, row]);
    BothReady(cfg, key);
    BothCreate(cfg, key);
    ReachesStep(cfg, Empty, s0, ReadMaxId(0), s1);
    ReachesStep(cfg, Empty, s1, ReadMaxId(1), s2);
    ReachesStep(cfg, Empty, s2, Create(0, 1), s3);
    ReachesStep(cfg, Empty, s3, Create(1, 1), s4);
    assert s4.sweeps[0].status.Active() && s4.sweeps[1].status.Active();
    assert TwoActive(s4);
  }

  /** Two active sweeps of one address and token can occur exactly when no Redis is
      configured: then every lock is granted. */
  lemma {:induction false} TwoActiveIffUnlocked(cfg: Config)
    ensures (exists s :: Reaches(cfg, Empty, s) && TwoActive(s)) <==> !cfg.redis
  {
    hide Reaches;
    if !cfg.redis {
      UnlockedPair(cfg, Key("a", "c"));
    }
    forall s | cfg.redis && Reaches(cfg, Empty, s) ensures !TwoActive(s) {
      if TwoActive(s) {
        var i: nat, j: nat :| i < j < |s.sweeps| && s.sweeps[i].status.Active() && s.sweeps[j].status.Active()
                              && s.sweeps[i].key == s.sweeps[j].key;
        OneActiveSweep(cfg, s, i, j);
      }
    }
  }

  // --------------------------------------------------------------- the write-off

  function DepAt(key: Key, confirmed: bool, swept: bool): (r: Dep)
  {
    Dep(key, 1, confirmed, swept, false)
  }

  lemma {:induction false} IdleStart(cfg: Config, key: Key)
    ensures Reaches(cfg, Empty, One(key, Idle(0), [], [], 0))
  {
    hide Reaches;
    ReachesSelf(cfg, Empty);
    ReachesStep(cfg, Empty, Empty, ReadBalance(0, key), One(key, Reading(0), [], [], 0));
    ReachesStep(cfg, Empty, One(key, Reading(0), [], [], 0), Acquire(0), One(key, Locked(0), [], [], 0));
    ReachesStep(cfg, Empty, One(key, Locked(0), [], [], 0), CheckIdle(0), One(key, Idle(0), [], [], 0));
  }

  /** The deposit lands in block 1 and confirms, at a head deep enough. */
  lemma {:induction false} DepositLands(cfg: Config, key: Key, s: State, head: int)
    requires Reaches(cfg, Empty, s) && s.deps == [] && s.now == 0 && s.head <= head && 1 <= head && cfg.confirmations + 1 <= head
    ensures Reaches(cfg, Empty, s.(deps := [DepAt(key, true, false)], head := head))
  {
    hide Reaches;
    var s1 := s.(head := head);
    var s2, s3 := s1.(deps := [DepAt(key, false, false)]), s1.(deps := [DepAt(key, true, false)]);
    ReachesStep(cfg, Empty, s, Advance(head, 0), s1);
    ReachesStep(cfg, Empty, s1, ScanDeposit(DepAt(key, false, false)), s2);
    ReachesStep(cfg, Empty, s2, ConfirmDeposit(0), s3);
  }

  function Stored(cfg: Config, row: Sweep): (row': Sweep)
  {
    row.(body := "b", txid := cfg.txidOf("b"), raw := "b", expiredAt := Some(0))
  }

  /** A created sweep is signed and stored. */
  lemma {:induction false} SweepStored(cfg: Config, key: Key, row: Sweep, deps: seq<Dep>, head: int)
    requires Reaches(cfg, Empty, One(key, Owner(0), [row], deps, head)) && row.body == row.raw == "" && row.key == key
    ensures Reaches(cfg, Empty, One(key, Owner(0), [Stored(cfg, row)], deps, head))
  {
    hide Reaches;
    var signed := row.(body := "b");
    ReachesStep(cfg, Empty, One(key, Owner(0), [row], deps, head), Sign(0, "b"), One(key, Owner(0), [signed], deps, head));
    ReachesStep(cfg, Empty, One(key, Owner(0), [signed], deps, head), Store(0, 0), One(key, Owner(0), [Stored(cfg, row)], deps, head));
  }

  /** Its energy is noted, and a loop reads it. */
  lemma {:induction false} SweepTaken(cfg: Config, key: Key, row: Sweep, deps: seq<Dep>, head: int)
    requires Reaches(cfg, Empty, One(key, Owner(0), [row], deps, head)) && row.txid != "" && row.key == key
    ensures var row' := row.(status := EnergyReady);
      Reaches(cfg, Empty, One(key, Owner(0), [row'], deps, head).(copies := {(0, 0)}))
  {
    hide Reaches;
    var s := One(key, Owner(0), [row.(status := EnergyReady)], deps, head);
    ReachesStep(cfg, Empty, One(key, Owner(0), [row], deps, head), HaveEnergy(0), s);
    ReachesStep(cfg, Empty, s, Take(0, 0), s.(copies := {(0, 0)}));
  }

  /** A sweep marked a deposit that landed after its balance was read; its ids were
      read `gap` blocks after that, and gave a bound or not. */
  ghost predicate LateMark(s: State, id: nat, d: nat, gap: nat, bounded: bool)
  {
    && BySweep(id, d) in s.marks && id < |s.sweeps| && d < |s.deps| && s.deps[d].block > s.sweeps[id].readAt
    && (s.sweeps[id].depositMaxId > 0 <==> bounded) && s.sweeps[id].idAt - s.sweeps[id].readAt == gap
  }

  /** Its receipt then marks the confirmed deposit, however late that landed. */
  lemma {:induction false} MarkedLate(cfg: Config, key: Key, row: Sweep, head: int, gap: nat, bounded: bool)
    requires cfg.txidOf("b") != "" && row.key == key && row.depositMaxId == (if bounded then 1 else 0) && row.readAt == 0 && row.idAt == gap
    requires Reaches(cfg, Empty, One(key, Owner(0), [Stored(cfg, row)], [DepAt(key, true, false)], head))
    ensures exists s :: Reaches(cfg, Empty, s) && LateMark(s, 0, 0, gap, bounded)
  {
    hide Reaches;
    var taken := Stored(cfg, row).(status := EnergyReady);
    SweepTaken(cfg, key, Stored(cfg, row), [DepAt(key, true, false)], head);
    var s0 := One(key, Owner(0), [taken], [DepAt(key, true, false)], head).(copies := {(0, 0)});
    var s1 := Apply(cfg, s0, ConfirmRow(0, 0));
    ReachesStep(cfg, Empty, s0, ConfirmRow(0, 0), s1);
    MarkDepsAt(s0.deps, key, row.depositMaxId, 0);
    assert Covered(s0.deps[0], 0, key, row.depositMaxId);
    assert LateMark(s1, 0, 0, gap, bounded);
  }

  /** Without an id bound a sweep writes off a deposit it never saw: no deposit was
      confirmed and unswept when the ids were read, however soon after the balance. */
  lemma {:induction false} BoundIsNeeded(cfg: Config, key: Key, gap: nat)
    requires cfg.txidOf("b") != ""
    ensures exists s :: Reaches(cfg, Empty, s) && LateMark(s, 0, 0, gap, false)
  {
    hide Reaches, Enabled, Apply, LateMark;
    var row := NewSweep(key, 0, 0, gap);
    IdleStart(cfg, key);
    BoundlessSweep(cfg, key, gap);
    SweepStored(cfg, key, row, [], gap);
    var head := 1 + gap + if cfg.confirmations < 0 then 0 else cfg.confirmations;
    DepositLands(cfg, key, One(key, Owner(0), [Stored(cfg, row)], [], gap), head);
    MarkedLate(cfg, key, row, head, gap, false);
  }

  lemma {:induction false} BoundlessSweep(cfg: Config, key: Key, gap: nat)
    requires Reaches(cfg, Empty, One(key, Idle(0), [], [], 0))
    ensures Reaches(cfg, Empty, One(key, Owner(0), [NewSweep(key, 0, 0, gap)], [], gap))
  {
    hide Reaches;
    ReachesStep(cfg, Empty, One(key, Idle(0), [], [], 0), Advance(gap, 0), One(key, Idle(0), [], [], gap));
    ReachesStep(cfg, Empty, One(key, Idle(0), [], [], gap), ReadMaxId(0), One(key, Ready(0, 0, gap), [], [], gap));
    ReachesStep(cfg, Empty, One(key, Ready(0, 0, gap), [], [], gap), Create(0, 1), One(key, Owner(0), [NewSweep(key, 0, 0, gap)], [], gap));
  }

  /** With a bound, every gap of more than Confirmations blocks is too long. */
  lemma {:induction false} SpeedIsNeeded(cfg: Config, key: Key, gap: nat)
    requires cfg.txidOf("b") != "" && gap > cfg.confirmations >= 0
    ensures exists s :: Reaches(cfg, Empty, s) && LateMark(s, 0, 0, gap, true)
  {
    hide Reaches, Enabled, Apply, LateMark;
    var row := NewSweep(key, 1, 0, gap);
    IdleStart(cfg, key);
    DepositLands(cfg, key, One(key, Idle(0), [], [], 0), gap);
    BoundedSweep(cfg, key, gap);
    SweepStored(cfg, key, row, [DepAt(key, true, false)], gap);
    MarkedLate(cfg, key, row, gap, gap, true);
  }

  lemma {:induction false} BoundedSweep(cfg: Config, key: Key, head: int)
    requires Reaches(cfg, Empty, One(key, Idle(0), [], [DepAt(key, true, false)], head))
    ensures Reaches(cfg, Empty, One(key, Owner(0), [NewSweep(key, 1, 0, head)], [DepAt(key, true, false)], head))
  {
    hide Reaches;
    var deps := [DepAt(key, true, false)];
    var s0, s1 := One(key, Idle(0), [], deps, head), One(key, Ready(0, 1, head), [], deps, head);
    assert MaxId(s0, key, 1) == 1;
    ReachesStep(cfg, Empty, s0, ReadMaxId(0), s1);
    ReachesStep(cfg, Empty, s1, Create(0, 1), One(key, Owner(0), [NewSweep(key, 1, 0, head)], deps, head));
  }

  /** A sweep can write off a deposit that landed after its balance was read exactly
      when it has no id bound or read the ids more than Confirmations blocks later. */
  lemma {:induction false} LateMarkIff(cfg: Config, gap: nat, bounded: bool)
    requires cfg.txidOf("b") != "" && cfg.confirmations >= 0
    ensures (exists s, id, d :: Reaches(cfg, Empty, s) && LateMark(s, id, d, gap, bounded)) <==> !bounded || gap > cfg.confirmations
  {
    hide Reaches;
    if !bounded {
      BoundIsNeeded(cfg, Key("a", "c"), gap);
    } else if gap > cfg.confirmations {
      SpeedIsNeeded(cfg, Key("a", "c"), gap);
    } else {
      forall s, id, d | Reaches(cfg, Empty, s) ensures !LateMark(s, id, d, gap, bounded) {
        if LateMark(s, id, d, gap, bounded) { WriteOffIsCovered(cfg, s, id, d); }
      }
    }
  }

  lemma {:induction false} StoredRow(cfg: Config, key: Key)
    ensures Reaches(cfg, Empty, One(key, Owner(0), [Stored(cfg, NewSweep(key, 0, 0, 0))], [], 0))
  {
    hide Reaches, Enabled, Apply;
    IdleStart(cfg, key);
    BoundlessSweep(cfg, key, 0);
    SweepStored(cfg, key, NewSweep(key, 0, 0, 0), [], 0);
  }

  /** A sweep of the address is confirmed, and its worker goes. */
  lemma {:induction false} SweepDone(cfg: Config, key: Key)
    requires cfg.txidOf("b") != ""
    ensures Reaches(cfg, Empty, Done(cfg, key, map[], [], 0))
  {
    hide Reaches, Enabled, Apply;
    var row := NewSweep(key, 0, 0, 0);
    StoredRow(cfg, key);
    SweepTaken(cfg, key, Stored(cfg, row), [], 0);
    var s0 := One(key, Owner(0), [Stored(cfg, row).(status := EnergyReady)], [], 0).(copies := {(0, 0)});
    var s1 := Done(cfg, key, map[0 := Session(key, Owner(0))], [], 0);
    Settles(cfg, s0, key);
    ReachesStep(cfg, Empty, s0, ConfirmRow(0, 0), s1);
    Leaves(cfg, s1, key);
    ReachesStep(cfg, Empty, s1, Leave(0), Done(cfg, key, map[], [], 0));
  }

  lemma Leaves(cfg: Config, s: State, key: Key)
    requires s == Done(cfg, key, map[0 := Session(key, Owner(0))], [], 0)
    ensures Next(cfg, s, Leave(0), Done(cfg, key, map[], [], 0))
  {
    assert s.sessions - {0} == map[];
  }

  lemma Settles(cfg: Config, s: State, key: Key)
    requires s == One(key, Owner(0), [Stored(cfg, NewSweep(key, 0, 0, 0)).(status := EnergyReady)], [], 0).(copies := {(0, 0)})
    requires cfg.txidOf("b") != ""
    ensures Next(cfg, s, ConfirmRow(0, 0), Done(cfg, key, map[0 := Session(key, Owner(0))], [], 0))
  {
    assert ConfirmTx(s, 0).(copies := {}) == Done(cfg, key, map[0 := Session(key, Owner(0))], [], 0);
  }

  function Done(cfg: Config, key: Key, sessions: map<nat, Session>, deps: seq<Dep>, head: int): (s': State)
  {
    Empty.(sweeps := [Stored(cfg, NewSweep(key, 0, 0, 0)).(status := Confirmed)], sessions := sessions, deps := deps, head := head)
  }

  /** Closing out an empty address marked a deposit that landed after its balance was
      read, `gap` blocks before. */
  ghost predicate LateEmptyMark(s: State, readAt: int, d: nat, gap: nat)
  {
    ByEmpty(readAt, readAt + gap, d) in s.marks && d < |s.deps| && s.deps[d].block > readAt
  }

  lemma {:induction false} EmptySpeedIsNeeded(cfg: Config, key: Key, gap: nat)
    requires cfg.txidOf("b") != "" && gap > cfg.confirmations >= 0
    ensures exists s :: Reaches(cfg, Empty, s) && LateEmptyMark(s, 0, 0, gap)
  {
    hide Reaches;
    SweepDone(cfg, key);
    EmptyRead(cfg, key);
    DepositLands(cfg, key, Done(cfg, key, map[0 := Session(key, Emptied(0))], [], 0), gap);
    var s0 := Done(cfg, key, map[0 := Session(key, Emptied(0))], [DepAt(key, true, false)], gap);
    var s1 := Apply(cfg, s0, MarkEmpty(0));
    ReachesStep(cfg, Empty, s0, MarkEmpty(0), s1);
    MarkDepsAt(s0.deps, key, 0, 0);
    assert Covered(s0.deps[0], 0, key, 0);
    assert LateEmptyMark(s1, 0, 0, gap);
  }

  /** This can happen exactly when more than Confirmations blocks passed. */
  lemma {:induction false} LateEmptyMarkIff(cfg: Config, gap: nat)
    requires cfg.txidOf("b") != "" && cfg.confirmations >= 0
    ensures (exists s, readAt, d :: Reaches(cfg, Empty, s) && LateEmptyMark(s, readAt, d, gap)) <==> gap > cfg.confirmations
  {
    hide Reaches;
    if gap > cfg.confirmations {
      EmptySpeedIsNeeded(cfg, Key("a", "c"), gap);
    } else {
      forall s, readAt, d | Reaches(cfg, Empty, s) ensures !LateEmptyMark(s, readAt, d, gap) {
        if LateEmptyMark(s, readAt, d, gap) { EmptyWriteOffIsCovered(cfg, s, readAt, readAt + gap, d); }
      }
    }
  }

  lemma {:induction false} EmptyRead(cfg: Config, key: Key)
    requires Reaches(cfg, Empty, Done(cfg, key, map[], [], 0))
    ensures Reaches(cfg, Empty, Done(cfg, key, map[0 := Session(key, Emptied(0))], [], 0))
  {
    hide Reaches;
    var s0, s1 := Done(cfg, key, map[], [], 0), Done(cfg, key, map[0 := Session(key, Reading(0))], [], 0);
    ReachesStep(cfg, Empty, s0, ReadBalance(0, key), s1);
    assert s1.sweeps[0].key == key && s1.sweeps[0].status == Confirmed;
    ReachesStep(cfg, Empty, s1, CheckConfirmed(0), Done(cfg, key, map[0 := Session(key, Emptied(0))], [], 0));
  }
}
