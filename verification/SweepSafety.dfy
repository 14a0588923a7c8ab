/** What every interleaving of round workers, reconcile loop and scanner keeps: one
    active sweep per address and token, one body per sweep, and deposits written off
    only by a sweep that read its balance after they had landed. */
module SweepSafety {
  import opened Wrappers
  import opened SweepState

  // ---------------------------------------------------------------- the invariant

  /** An owner's row is its own, and of its address and token. */
  ghost predicate OwnersSound(s: State)
  {
    && (forall w :: w in s.sessions && s.sessions[w].phase.Owner? ==>
          s.sessions[w].phase.id < |s.sweeps| && s.sweeps[s.sessions[w].phase.id].key == s.sessions[w].key)
    && (forall v, w :: v in s.sessions && w in s.sessions && v != w && s.sessions[v].phase.Owner? && s.sessions[w].phase.Owner? ==>
          s.sessions[v].phase.id != s.sessions[w].phase.id)
  }

  ghost predicate LocksExclusive(s: State)
  {
    forall v, w :: v in s.sessions && w in s.sessions && v != w && s.sessions[v].HoldsLock() && s.sessions[w].HoldsLock() ==>
      s.sessions[v].key != s.sessions[w].key
  }

  /** The session that may write rows of a key at will has no active row beside its own. */
  predicate Guards(s: State, w: nat)
    requires w in s.sessions
  {
    var key, p := s.sessions[w].key, s.sessions[w].phase;
    && (p.Idle? || p.Ready? ==> NoActive(s, key))
    && (p.Owner? ==> forall i :: 0 <= i < |s.sweeps| && s.sweeps[i].key == key && i != p.id ==> !s.sweeps[i].status.Active())
  }

  ghost predicate OneActive(s: State)
  {
    && (forall i, j :: 0 <= i < j < |s.sweeps| && s.sweeps[i].status.Active() && s.sweeps[j].status.Active() ==>
          s.sweeps[i].key != s.sweeps[j].key)
    && (forall w :: w in s.sessions ==> Guards(s, w))
  }

  /** A row's body is chosen once; its txid, its stored bytes and everything sent for it
      are that body's. */
  ghost predicate BodiesSound(cfg: Config, s: State)
  {
    && (forall i :: 0 <= i < |s.sweeps| ==> RowSound(cfg, s.sweeps[i]))
    && (forall p :: p in s.sent ==> p.0 < |s.sweeps| && s.sweeps[p.0].body == p.1 != "")
  }

  predicate RowSound(cfg: Config, row: Sweep)
  {
    && (row.raw == "" || row.raw == row.body)
    && (row.txid == "" || (row.body != "" && row.txid == cfg.txidOf(row.body)))
    && (row.expiredAt.Some? <==> row.raw != "")
  }

  /** A loop copies only rows that were signed and in flight. */
  ghost predicate CopiesSound(s: State)
  {
    forall c :: c in s.copies ==> c.1 < |s.sweeps| && s.sweeps[c.1].txid != "" && s.sweeps[c.1].status != Created
  }

  ghost predicate DepsSound(cfg: Config, s: State)
  {
    && (forall i :: 0 <= i < |s.deps| ==> s.deps[i].block <= s.head && (s.deps[i].swept ==> s.deps[i].confirmed))
    && (forall i :: 0 <= i < |s.deps| && s.deps[i].confirmed ==> s.deps[i].block <= s.head - cfg.confirmations)
    && (forall i, j :: 0 <= i < j < |s.deps| ==> s.deps[i].block <= s.deps[j].block)
  }

  /** An id bound names a deposit that was confirmed when the ids were read. */
  predicate BoundSound(cfg: Config, s: State, readAt: int, maxId: nat, idAt: int)
  {
    readAt <= idAt <= s.head && maxId <= |s.deps| && (maxId > 0 ==> s.deps[maxId - 1].block <= idAt - cfg.confirmations)
  }

  ghost predicate BoundsSound(cfg: Config, s: State)
  {
    && (forall i :: 0 <= i < |s.sweeps| ==> BoundSound(cfg, s, s.sweeps[i].readAt, s.sweeps[i].depositMaxId, s.sweeps[i].idAt))
    && (forall w :: w in s.sessions ==> PhaseSound(cfg, s, s.sessions[w].phase))
  }

  predicate PhaseSound(cfg: Config, s: State, p: Phase)
  {
    match p
    case Reading(readAt) => readAt <= s.head
    case Emptied(readAt) => readAt <= s.head
    case Locked(readAt) => readAt <= s.head
    case Idle(readAt) => readAt <= s.head
    case Ready(readAt, maxId, idAt) => BoundSound(cfg, s, readAt, maxId, idAt)
    case Owner(_) => true
  }

  predicate MarkSound(cfg: Config, s: State, m: Mark)
  {
    match m
    case BySweep(id, d) =>
      && id < |s.sweeps| && d < |s.deps| && s.deps[d].key == s.sweeps[id].key && s.deps[d].swept
      && (s.sweeps[id].depositMaxId > 0 ==> d < s.sweeps[id].depositMaxId)
    case ByEmpty(readAt, at, d) =>
      readAt <= at && d < |s.deps| && s.deps[d].swept && s.deps[d].block <= at - cfg.confirmations
  }

  /** A deposit is swept exactly when something marked it. */
  ghost predicate MarksSound(cfg: Config, s: State)
  {
    && (forall m :: m in s.marks ==> MarkSound(cfg, s, m))
    && (forall d :: 0 <= d < |s.deps| && s.deps[d].swept ==> exists m :: m in s.marks && m.dep == d)
  }

  ghost predicate Inv(cfg: Config, s: State)
  {
    && OwnersSound(s) && BodiesSound(cfg, s) && CopiesSound(s) && DepsSound(cfg, s) && BoundsSound(cfg, s) && MarksSound(cfg, s)
    && (cfg.redis ==> LocksExclusive(s) && OneActive(s))
  }

  // ------------------------------------------------- every step keeps the invariant

  /** What a written row may become: the request, the chosen body and the stored bytes
      stay. The status may go anywhere but back to created. */
  predicate RowLater(row: Sweep, row': Sweep)
  {
    && (row'.key, row'.amount, row'.depositMaxId, row'.readAt, row'.idAt) == (row.key, row.amount, row.depositMaxId, row.readAt, row.idAt)
    && (row.body != "" ==> row'.body == row.body)
    && (row.raw != "" ==> row'.raw == row.raw)
    && (row.txid != "" ==> row'.txid != "")
    && (row.expiredAt.Some? ==> row'.expiredAt == row.expiredAt)
    && (row.status != Created ==> row'.status != Created)
  }

  /** The deposit table: rows stay, get confirmed, get swept. */
  predicate DepLater(d: Dep, d': Dep)
  {
    (d'.key, d'.block, d'.internal) == (d.key, d.block, d.internal) && (d.confirmed ==> d'.confirmed) && (d.swept ==> d'.swept)
  }

  ghost predicate Later(s: State, s': State)
  {
    && |s.sweeps| <= |s'.sweeps| && (forall i :: 0 <= i < |s.sweeps| ==> RowLater(s.sweeps[i], s'.sweeps[i]))
    && |s.deps| <= |s'.deps| && (forall i :: 0 <= i < |s.deps| ==> DepLater(s.deps[i], s'.deps[i]))
    && s.sent <= s'.sent && s.marks <= s'.marks && s.head <= s'.head && s.now <= s'.now
  }

  /** The worker that takes a step, if one does. */
  function Actor(a: Action): (w: Option<nat>)
  {
    match a
    case ReadBalance(w, _) => Some(w)
    case CheckConfirmed(w) => Some(w)
    case MarkEmpty(w) => Some(w)
    case Skip(w) => Some(w)
    case Acquire(w) => Some(w)
    case CheckIdle(w) => Some(w)
    case ReadMaxId(w) => Some(w)
    case Create(w, _) => Some(w)
    case HaveEnergy(w) => Some(w)
    case Sign(w, _) => Some(w)
    case Store(w, _) => Some(w)
    case Send(w) => Some(w)
    case MarkSent(w, _) => Some(w)
    case FailOwn(w) => Some(w)
    case Leave(w) => Some(w)
    case _ => None
  }

  lemma {:induction false} RowStepByWorker(cfg: Config, s: State, a: Action, s': State, i: nat)
    requires Next(cfg, s, a, s') && i < |s.sweeps| && RowSound(cfg, s.sweeps[i]) && Actor(a).Some?
    ensures i < |s'.sweeps| && RowSound(cfg, s'.sweeps[i]) && RowLater(s.sweeps[i], s'.sweeps[i])
  {
    hide LockFree, NoActive, MaxId, MarkDeps, Covered;
  }

  lemma {:induction false} RowStepByLoop(cfg: Config, s: State, a: Action, s': State, i: nat)
    requires Next(cfg, s, a, s') && i < |s.sweeps| && RowSound(cfg, s.sweeps[i]) && Actor(a).None?
    ensures i < |s'.sweeps| && RowSound(cfg, s'.sweeps[i]) && RowLater(s.sweeps[i], s'.sweeps[i])
  {
    hide LockFree, NoActive, MaxId, MarkDeps, Covered;
  }

  /** A row already there. */
  lemma {:induction false} RowStep(cfg: Config, s: State, a: Action, s': State, i: nat)
    requires Next(cfg, s, a, s') && i < |s.sweeps| && RowSound(cfg, s.sweeps[i])
    ensures i < |s'.sweeps| && RowSound(cfg, s'.sweeps[i]) && RowLater(s.sweeps[i], s'.sweeps[i])
  {
    hide Next, RowSound, RowLater;
    if Actor(a).Some? { RowStepByWorker(cfg, s, a, s', i); } else { RowStepByLoop(cfg, s, a, s', i); }
  }

  lemma {:induction false} DepStepMarked(cfg: Config, s: State, a: Action, s': State, i: nat)
    requires Next(cfg, s, a, s') && i < |s.deps| && (a.ConfirmRow? || a.MarkEmpty?)
    ensures i < |s'.deps| && (s'.deps[i] == s.deps[i] || (s.deps[i].confirmed && s'.deps[i] == s.deps[i].(swept := true)))
  {
    hide LockFree, NoActive, MaxId, MarkDeps;
    if a.ConfirmRow? { MarkDepsAt(s.deps, s.sweeps[a.id].key, s.sweeps[a.id].depositMaxId, i); }
    if a.MarkEmpty? { MarkDepsAt(s.deps, s.sessions[a.w].key, 0, i); }
  }

  lemma {:induction false} DepStepPlain(cfg: Config, s: State, a: Action, s': State, i: nat)
    requires Next(cfg, s, a, s') && i < |s.deps| && !a.ConfirmRow? && !a.MarkEmpty?
    ensures i < |s'.deps| && (s'.deps[i] == s.deps[i]
              || (s.deps[i].block <= s.head - cfg.confirmations && !s.deps[i].confirmed && s'.deps[i] == s.deps[i].(confirmed := true)))
  {
    hide LockFree, NoActive, MaxId, MarkDeps, Covered;
  }

  /** A deposit already there: it is confirmed only at its depth, and swept only once
      confirmed. */
  lemma {:induction false} DepStep(cfg: Config, s: State, a: Action, s': State, i: nat)
    requires Next(cfg, s, a, s') && i < |s.deps|
    ensures i < |s'.deps| && DepLater(s.deps[i], s'.deps[i])
    ensures s'.deps[i].confirmed ==> s.deps[i].confirmed || s.deps[i].block <= s.head - cfg.confirmations
    ensures s'.deps[i].swept ==> s.deps[i].swept || s'.deps[i].confirmed
  {
    hide Next;
    if a.ConfirmRow? || a.MarkEmpty? { DepStepMarked(cfg, s, a, s', i); } else { DepStepPlain(cfg, s, a, s', i); }
  }

  lemma {:induction false} StepGrows(cfg: Config, s: State, a: Action, s': State)
    requires Next(cfg, s, a, s')
    ensures |s.sweeps| <= |s'.sweeps| && |s.deps| <= |s'.deps|
    ensures s.sent <= s'.sent && s.marks <= s'.marks && s.head <= s'.head && s.now <= s'.now
  {
    hide LockFree, NoActive, MaxId, Covered;
  }

  lemma {:induction false} StepLater(cfg: Config, s: State, a: Action, s': State)
    requires BodiesSound(cfg, s) && Next(cfg, s, a, s')
    ensures Later(s, s')
  {
    hide Next, RowSound, RowLater, DepLater;
    StepGrows(cfg, s, a, s');
    forall i | 0 <= i < |s.sweeps| ensures RowLater(s.sweeps[i], s'.sweeps[i]) {
      RowStep(cfg, s, a, s', i);
    }
    forall i | 0 <= i < |s.deps| ensures DepLater(s.deps[i], s'.deps[i]) {
      DepStep(cfg, s, a, s', i);
    }
  }

  lemma LaterTrans(s: State, t: State, u: State)
    requires Later(s, t) && Later(t, u)
    ensures Later(s, u)
  {
    forall i | 0 <= i < |s.sweeps| ensures RowLater(s.sweeps[i], u.sweeps[i]) {
      assert RowLater(s.sweeps[i], t.sweeps[i]) && RowLater(t.sweeps[i], u.sweeps[i]);
    }
    forall i | 0 <= i < |s.deps| ensures DepLater(s.deps[i], u.deps[i]) {
      assert DepLater(s.deps[i], t.deps[i]) && DepLater(t.deps[i], u.deps[i]);
    }
  }

  /** The reconcile loop that takes a step, if one does. */
  function LoopOf(a: Action): (r: Option<nat>)
  {
    match a
    case Take(r, _) => Some(r)
    case FailRow(r, _) => Some(r)
    case ConfirmRow(r, _) => Some(r)
    case ExpireRow(r, _) => Some(r)
    case Resend(r, _) => Some(r)
    case Refuse(r, _) => Some(r)
    case Drop(r, _) => Some(r)
    case _ => None
  }

  predicate ActsFor(s: State, a: Action, w: nat)
  {
    Actor(a) == Some(w) && w in s.sessions
  }

  /** Only the actor's session changes. */
  lemma {:induction false} SessionFrame(cfg: Config, s: State, a: Action, s': State, v: nat)
    requires Next(cfg, s, a, s') && v in s'.sessions && Actor(a) != Some(v)
    ensures v in s.sessions && s'.sessions[v] == s.sessions[v]
  {
    hide LockFree, NoActive, MaxId, MarkDeps, Covered;
  }

  /** What a loop can do to a row nobody owns. */
  predicate LoopWrites(s: State, a: Action, id: nat)
    requires id < |s.sweeps|
  {
    var row := s.sweeps[id];
    match a
    case FailRow(r, i) => i == id && HasCopy(s, r, id)
    case ConfirmRow(r, i) => i == id && HasCopy(s, r, id) && Reconcilable(row.status)
    case ExpireRow(r, i) => i == id && HasCopy(s, r, id) && Reconcilable(row.status) && row.expiredAt.Some?
    case Refuse(r, i) => i == id && HasCopy(s, r, id) && row.raw != ""
    case _ => false
  }

  /** A worker writes its own row only. */
  lemma {:induction false} WorkerRow(cfg: Config, s: State, a: Action, s': State, id: nat)
    requires Next(cfg, s, a, s') && Actor(a).Some? && id < |s.sweeps|
    requires a.w in s.sessions ==> s.sessions[a.w].phase != Owner(id)
    ensures id < |s'.sweeps| && s'.sweeps[id] == s.sweeps[id]
  {
    hide LockFree, NoActive, MaxId, MarkDeps, Covered;
  }

  lemma {:induction false} LoopRow(cfg: Config, s: State, a: Action, s': State, id: nat)
    requires Next(cfg, s, a, s') && Actor(a).None? && id < |s.sweeps|
    ensures id < |s'.sweeps|
    ensures s'.sweeps[id] == s.sweeps[id] ||
            (LoopWrites(s, a, id) && s'.sweeps[id] == s.sweeps[id].(status := if a.ConfirmRow? then Confirmed else Failed))
  {
    hide LockFree, NoActive, MaxId, MarkDeps, Covered;
  }

  /** A row only becomes active by its owner's write, or as the actor's new row. */
  lemma {:induction false} StatusFrame(cfg: Config, s: State, a: Action, s': State, i: nat)
    requires Next(cfg, s, a, s') && i < |s'.sweeps|
    ensures i < |s.sweeps| ==> s'.sweeps[i].key == s.sweeps[i].key
    ensures i < |s.sweeps| && s'.sweeps[i].status.Active() && !s.sweeps[i].status.Active() ==>
              exists w :: ActsFor(s, a, w) && s.sessions[w].phase == Owner(i)
    ensures i >= |s.sweeps| ==>
              exists w :: ActsFor(s, a, w) && s.sessions[w].phase.Ready? && s.sessions[w].key == s'.sweeps[i].key && i == |s.sweeps|
    ensures |s'.sweeps| >= |s.sweeps|
  {
    hide LockFree, NoActive, MaxId, MarkDeps, Covered;
    assert Actor(a).Some? && a.w in s.sessions ==> ActsFor(s, a, a.w);
  }

  /** An owner was one before, or has just created its row. */
  lemma {:induction false} ActorOwner(cfg: Config, s: State, a: Action, s': State, w: nat)
    requires Next(cfg, s, a, s') && Actor(a) == Some(w) && w in s'.sessions && s'.sessions[w].phase.Owner?
    ensures w in s.sessions
    ensures s'.sessions[w] == s.sessions[w] ||
            (s'.sessions[w].phase.id == |s.sweeps| < |s'.sweeps| && s'.sweeps[|s.sweeps|].key == s'.sessions[w].key)
  {
    hide LockFree, NoActive, MaxId, MarkDeps, Covered;
  }

  lemma {:induction false} OwnerAfter(cfg: Config, s: State, a: Action, s': State, w: nat)
    requires OwnersSound(s) && Next(cfg, s, a, s') && w in s'.sessions && s'.sessions[w].phase.Owner?
    ensures w in s.sessions && s'.sessions[w].phase.id < |s'.sweeps| && s'.sweeps[s'.sessions[w].phase.id].key == s'.sessions[w].key
    ensures s'.sessions[w] == s.sessions[w] || (Actor(a) == Some(w) && s'.sessions[w].phase.id == |s.sweeps|)
  {
    hide Next;
    if Actor(a) == Some(w) { ActorOwner(cfg, s, a, s', w); } else { SessionFrame(cfg, s, a, s', w); }
    StepGrows(cfg, s, a, s');
    if s'.sessions[w] == s.sessions[w] { StatusFrame(cfg, s, a, s', s.sessions[w].phase.id); }
  }

  lemma {:induction false} StepOwners(cfg: Config, s: State, a: Action, s': State)
    requires OwnersSound(s) && Next(cfg, s, a, s')
    ensures OwnersSound(s')
  {
    hide Next;
    forall w | w in s'.sessions && s'.sessions[w].phase.Owner?
      ensures w in s.sessions && s'.sessions[w].phase.id < |s'.sweeps| && s'.sweeps[s'.sessions[w].phase.id].key == s'.sessions[w].key
      ensures s'.sessions[w] == s.sessions[w] || (Actor(a) == Some(w) && s'.sessions[w].phase.id == |s.sweeps|)
    {
      OwnerAfter(cfg, s, a, s', w);
    }
  }

  lemma {:induction false} NewRow(cfg: Config, s: State, a: Action, s': State)
    requires Next(cfg, s, a, s') && |s'.sweeps| > |s.sweeps|
    ensures a.Create? && a.w in s.sessions && s.sessions[a.w].phase.Ready? && |s'.sweeps| == |s.sweeps| + 1 && s'.deps == s.deps && s'.head == s.head
    ensures var p, row := s.sessions[a.w].phase, s'.sweeps[|s.sweeps|];
      (row.readAt, row.depositMaxId, row.idAt) == (p.readAt, p.maxId, p.idAt) && RowSound(cfg, row)
  {
    hide LockFree, NoActive, MaxId, MarkDeps, Covered;
  }

  /** What a step sends is the body of a row. */
  lemma {:induction false} NewSent(cfg: Config, s: State, a: Action, s': State, p: (nat, string))
    requires Next(cfg, s, a, s') && p in s'.sent && p !in s.sent
    requires p.0 < |s.sweeps| ==> RowSound(cfg, s.sweeps[p.0])
    ensures p.0 < |s.sweeps| && s.sweeps[p.0].body == p.1 != ""
  {
    hide LockFree, NoActive, MaxId, MarkDeps, Covered;
  }

  lemma {:induction false} StepBodies(cfg: Config, s: State, a: Action, s': State)
    requires BodiesSound(cfg, s) && Next(cfg, s, a, s')
    ensures BodiesSound(cfg, s')
  {
    hide Next, RowSound;
    forall i | 0 <= i < |s'.sweeps| ensures RowSound(cfg, s'.sweeps[i]) {
      if i < |s.sweeps| { RowStep(cfg, s, a, s', i); } else { NewRow(cfg, s, a, s'); }
    }
    forall p | p in s'.sent ensures p.0 < |s'.sweeps| && s'.sweeps[p.0].body == p.1 != "" {
      if p !in s.sent { NewSent(cfg, s, a, s', p); }
      RowStep(cfg, s, a, s', p.0);
    }
  }

  /** A new copy is of a row on the network. */
  lemma {:induction false} NewCopy(cfg: Config, s: State, a: Action, s': State, c: (nat, nat))
    requires Next(cfg, s, a, s') && c in s'.copies && c !in s.copies
    ensures c.1 < |s.sweeps| && s.sweeps[c.1].txid != "" && s.sweeps[c.1].status != Created
  {
    hide LockFree, NoActive, MaxId, MarkDeps, Covered;
  }

  lemma {:induction false} StepCopies(cfg: Config, s: State, a: Action, s': State)
    requires CopiesSound(s) && BodiesSound(cfg, s) && Next(cfg, s, a, s')
    ensures CopiesSound(s')
  {
    hide Next, RowSound, BodiesSound;
    StepLater(cfg, s, a, s');
    forall c | c in s'.copies ensures c.1 < |s'.sweeps| && s'.sweeps[c.1].txid != "" && s'.sweeps[c.1].status != Created {
      if c !in s.copies { NewCopy(cfg, s, a, s', c); }
      assert RowLater(s.sweeps[c.1], s'.sweeps[c.1]);
    }
  }

  /** A lock is one the actor had already, or one that was free. */
  lemma {:induction false} ActorLock(cfg: Config, s: State, a: Action, s': State, w: nat)
    requires Next(cfg, s, a, s') && Actor(a) == Some(w) && w in s'.sessions && s'.sessions[w].HoldsLock()
    ensures w in s.sessions && s'.sessions[w].key == s.sessions[w].key
    ensures s.sessions[w].HoldsLock() || LockFree(cfg, s, s.sessions[w].key)
  {
    hide LockFree, NoActive, MaxId, MarkDeps, Covered;
  }

  lemma {:induction false} StepLocks(cfg: Config, s: State, a: Action, s': State)
    requires cfg.redis && LocksExclusive(s) && Next(cfg, s, a, s')
    ensures LocksExclusive(s')
  {
    hide Next;
    forall w | w in s'.sessions && s'.sessions[w].HoldsLock()
      ensures w in s.sessions && s'.sessions[w].key == s.sessions[w].key
      ensures s.sessions[w].HoldsLock() || (Actor(a) == Some(w) && LockFree(cfg, s, s.sessions[w].key))
    {
      if Actor(a) == Some(w) { ActorLock(cfg, s, a, s', w); } else { SessionFrame(cfg, s, a, s', w); }
    }
  }

  /** The actor moves on only as its guard allows. */
  lemma {:induction false} ActorGuards(cfg: Config, s: State, a: Action, s': State, w: nat)
    requires Next(cfg, s, a, s') && Actor(a) == Some(w) && w in s'.sessions
    requires w in s.sessions ==> Guards(s, w)
    ensures Guards(s', w)
  {
    hide LockFree, MaxId, MarkDeps, Covered;
  }

  /** Where another session holds the lock, the actor neither adds nor revives a row. */
  lemma {:induction false} QuietRow(cfg: Config, s: State, a: Action, s': State, v: nat, i: nat)
    requires Next(cfg, s, a, s') && LocksExclusive(s) && OwnersSound(s) && Actor(a) != Some(v)
    requires v in s.sessions && s.sessions[v].HoldsLock() && i < |s'.sweeps| && s'.sweeps[i].key == s.sessions[v].key
    ensures i < |s.sweeps| && s.sweeps[i].key == s.sessions[v].key && (s'.sweeps[i].status.Active() ==> s.sweeps[i].status.Active())
  {
    hide Next;
    StatusFrame(cfg, s, a, s', i);
  }

  /** So a session that guards a key keeps guarding it while others act. */
  lemma {:induction false} OthersGuard(cfg: Config, s: State, a: Action, s': State, v: nat)
    requires Next(cfg, s, a, s') && LocksExclusive(s) && v in s.sessions && Guards(s, v) && OwnersSound(s)
    requires v in s'.sessions && s'.sessions[v] == s.sessions[v] && Actor(a) != Some(v)
    ensures Guards(s', v)
  {
    hide Next, LocksExclusive, OwnersSound;
    if s.sessions[v].HoldsLock() {
      forall i | 0 <= i < |s'.sweeps| && s'.sweeps[i].key == s.sessions[v].key
        ensures i < |s.sweeps| && s.sweeps[i].key == s.sessions[v].key && (s'.sweeps[i].status.Active() ==> s.sweeps[i].status.Active())
      {
        QuietRow(cfg, s, a, s', v, i);
      }
    }
  }

  lemma {:induction false} StepActive(cfg: Config, s: State, a: Action, s': State)
    requires cfg.redis && LocksExclusive(s) && OneActive(s) && OwnersSound(s) && Next(cfg, s, a, s')
    ensures OneActive(s')
  {
    hide Next, Guards, LocksExclusive, OwnersSound;
    forall w | w in s'.sessions ensures Guards(s', w) {
      if Actor(a) == Some(w) {
        ActorGuards(cfg, s, a, s', w);
      } else {
        SessionFrame(cfg, s, a, s', w);
        OthersGuard(cfg, s, a, s', w);
      }
    }
    forall i, j | 0 <= i < j < |s'.sweeps| && s'.sweeps[i].status.Active() && s'.sweeps[j].status.Active()
      ensures s'.sweeps[i].key != s'.sweeps[j].key
    {
      ActivePair(cfg, s, a, s', i, j);
    }
  }

  lemma {:induction false} ActivePair(cfg: Config, s: State, a: Action, s': State, i: nat, j: nat)
    requires OneActive(s) && OwnersSound(s) && Next(cfg, s, a, s')
    requires i < j < |s'.sweeps| && s'.sweeps[i].status.Active() && s'.sweeps[j].status.Active()
    ensures s'.sweeps[i].key != s'.sweeps[j].key
  {
    hide Next;
    StatusFrame(cfg, s, a, s', i);
    StatusFrame(cfg, s, a, s', j);
  }

  /** A new deposit is the latest one, and still to be confirmed. */
  lemma {:induction false} NewDep(cfg: Config, s: State, a: Action, s': State)
    requires Next(cfg, s, a, s') && |s'.deps| > |s.deps|
    ensures |s'.deps| == |s.deps| + 1 && s'.head == s.head
    ensures var d := s'.deps[|s.deps|];
      !d.confirmed && !d.swept && d.block <= s.head && forall i :: 0 <= i < |s.deps| ==> s.deps[i].block <= d.block
  {
    hide LockFree, NoActive, MaxId, Covered;
  }

  lemma {:induction false} StepDeps(cfg: Config, s: State, a: Action, s': State)
    requires DepsSound(cfg, s) && Next(cfg, s, a, s')
    ensures DepsSound(cfg, s')
  {
    hide Next;
    StepGrows(cfg, s, a, s');
    if |s'.deps| > |s.deps| { NewDep(cfg, s, a, s'); }
    forall i | 0 <= i < |s.deps|
      ensures s'.deps[i].block == s.deps[i].block && (s'.deps[i].swept ==> s'.deps[i].confirmed)
      ensures s'.deps[i].confirmed ==> s.deps[i].confirmed || s.deps[i].block <= s.head - cfg.confirmations
    {
      DepStep(cfg, s, a, s', i);
    }
  }

  lemma {:induction false} BoundLasts(cfg: Config, s: State, s': State, readAt: int, maxId: nat, idAt: int)
    requires BoundSound(cfg, s, readAt, maxId, idAt) && Later(s, s')
    ensures BoundSound(cfg, s', readAt, maxId, idAt)
  {
    assert maxId > 0 ==> DepLater(s.deps[maxId - 1], s'.deps[maxId - 1]);
  }

  lemma PhaseLasts(cfg: Config, s: State, s': State, p: Phase)
    requires PhaseSound(cfg, s, p) && Later(s, s')
    ensures PhaseSound(cfg, s', p)
  {
    hide Later, BoundSound;
    if p.Ready? { BoundLasts(cfg, s, s', p.readAt, p.maxId, p.idAt); }
    HeadLater(s, s');
  }

  lemma HeadLater(s: State, s': State)
    requires Later(s, s')
    ensures s.head <= s'.head && s.now <= s'.now
  {
  }

  /** The bound a worker reads is that of a confirmed deposit. */
  lemma {:induction false} ActorPhase(cfg: Config, s: State, a: Action, s': State, w: nat)
    requires Next(cfg, s, a, s') && Actor(a) == Some(w) && w in s'.sessions && DepsSound(cfg, s)
    requires w in s.sessions ==> PhaseSound(cfg, s, s.sessions[w].phase)
    ensures PhaseSound(cfg, s', s'.sessions[w].phase)
  {
    hide LockFree, NoActive, MarkDeps, Covered;
  }

  lemma {:induction false} StepBounds(cfg: Config, s: State, a: Action, s': State)
    requires BoundsSound(cfg, s) && DepsSound(cfg, s) && BodiesSound(cfg, s) && Next(cfg, s, a, s')
    ensures BoundsSound(cfg, s')
  {
    hide Next, DepsSound, BodiesSound;
    StepLater(cfg, s, a, s');
    forall i | 0 <= i < |s'.sweeps| ensures BoundSound(cfg, s', s'.sweeps[i].readAt, s'.sweeps[i].depositMaxId, s'.sweeps[i].idAt) {
      if i < |s.sweeps| {
        assert RowLater(s.sweeps[i], s'.sweeps[i]);
        BoundLasts(cfg, s, s', s.sweeps[i].readAt, s.sweeps[i].depositMaxId, s.sweeps[i].idAt);
      } else {
        NewRow(cfg, s, a, s');
        assert PhaseSound(cfg, s, s.sessions[a.w].phase);
      }
    }
    forall w | w in s'.sessions ensures PhaseSound(cfg, s', s'.sessions[w].phase) {
      if Actor(a) == Some(w) {
        ActorPhase(cfg, s, a, s', w);
      } else {
        SessionFrame(cfg, s, a, s', w);
        PhaseLasts(cfg, s, s', s.sessions[w].phase);
      }
    }
  }

  lemma {:induction false} MarkLasts(cfg: Config, s: State, s': State, m: Mark)
    requires MarkSound(cfg, s, m) && Later(s, s')
    ensures MarkSound(cfg, s', m)
  {
    assert m.dep < |s.deps| ==> DepLater(s.deps[m.dep], s'.deps[m.dep]);
    assert m.BySweep? && m.id < |s.sweeps| ==> RowLater(s.sweeps[m.id], s'.sweeps[m.id]);
  }

  lemma {:induction false} NewMark(cfg: Config, s: State, a: Action, s': State, m: Mark)
    requires Next(cfg, s, a, s') && m in s'.marks && m !in s.marks && DepsSound(cfg, s) && BoundsSound(cfg, s)
    ensures MarkSound(cfg, s', m)
  {
    hide Next, BoundSound;
    MarkOrigin(cfg, s, a, s', m);
    DepStep(cfg, s, a, s', m.dep);
    if a.MarkEmpty? { assert PhaseSound(cfg, s, s.sessions[a.w].phase); }
  }

  /** A new mark is of a deposit its step covers, and marks it. */
  lemma {:induction false} MarkOrigin(cfg: Config, s: State, a: Action, s': State, m: Mark)
    requires Next(cfg, s, a, s') && m in s'.marks && m !in s.marks
    ensures m.dep < |s.deps| == |s'.deps| && s'.deps[m.dep].swept && s.deps[m.dep].confirmed && s'.head == s.head
    ensures m.BySweep? ==> a.ConfirmRow? && m.id == a.id < |s.sweeps| == |s'.sweeps|
                           && Covered(s.deps[m.dep], m.dep, s.sweeps[a.id].key, s.sweeps[a.id].depositMaxId)
                           && s'.sweeps[a.id].key == s.sweeps[a.id].key && s'.sweeps[a.id].depositMaxId == s.sweeps[a.id].depositMaxId
    ensures m.ByEmpty? ==> a.MarkEmpty? && a.w in s.sessions && s.sessions[a.w].phase == Emptied(m.readAt) && m.at == s.head
  {
    hide LockFree, NoActive, MaxId, MarkDeps;
    if a.ConfirmRow? { MarkDepsAt(s.deps, s.sweeps[a.id].key, s.sweeps[a.id].depositMaxId, m.dep); }
    if a.MarkEmpty? { MarkDepsAt(s.deps, s.sessions[a.w].key, 0, m.dep); }
  }

  /** Only two kinds of steps mark deposits. */
  lemma {:induction false} MarkerOf(cfg: Config, s: State, a: Action, s': State, d: nat)
    requires Next(cfg, s, a, s') && d < |s'.deps| && s'.deps[d].swept && !(d < |s.deps| && s.deps[d].swept)
    ensures d < |s.deps| && (a.ConfirmRow? || a.MarkEmpty?)
  {
    hide LockFree, NoActive, MaxId, MarkDeps, Covered;
  }

  lemma {:induction false} NewSwept(cfg: Config, s: State, a: Action, s': State, d: nat)
    requires Next(cfg, s, a, s') && d < |s'.deps| && s'.deps[d].swept && !(d < |s.deps| && s.deps[d].swept)
    ensures exists m :: m in s'.marks && m.dep == d
  {
    hide LockFree, NoActive, MaxId, MarkDeps;
    MarkerOf(cfg, s, a, s', d);
    if a.ConfirmRow? {
      MarkDepsAt(s.deps, s.sweeps[a.id].key, s.sweeps[a.id].depositMaxId, d);
      assert BySweep(a.id, d) in s'.marks;
    } else {
      MarkDepsAt(s.deps, s.sessions[a.w].key, 0, d);
      assert ByEmpty(s.sessions[a.w].phase.readAt, s.head, d) in s'.marks;
    }
  }

  lemma {:induction false} StepMarks(cfg: Config, s: State, a: Action, s': State)
    requires MarksSound(cfg, s) && DepsSound(cfg, s) && BoundsSound(cfg, s) && BodiesSound(cfg, s) && Next(cfg, s, a, s')
    ensures MarksSound(cfg, s')
  {
    hide Next, DepsSound, BoundsSound, MarkSound, BodiesSound;
    StepLater(cfg, s, a, s');
    forall m | m in s'.marks ensures MarkSound(cfg, s', m) {
      if m in s.marks { MarkLasts(cfg, s, s', m); } else { NewMark(cfg, s, a, s', m); }
    }
    forall d | 0 <= d < |s'.deps| && s'.deps[d].swept ensures exists m :: m in s'.marks && m.dep == d {
      if d < |s.deps| && s.deps[d].swept {
        var m :| m in s.marks && m.dep == d;
        assert m in s'.marks;
      } else {
        NewSwept(cfg, s, a, s', d);
      }
    }
  }

  lemma {:induction false} StepInv(cfg: Config, s: State, a: Action, s': State)
    requires Inv(cfg, s) && Next(cfg, s, a, s')
    ensures Inv(cfg, s')
  {
    hide Next, OwnersSound, BodiesSound, CopiesSound, DepsSound, BoundsSound, MarksSound, LocksExclusive, OneActive;
    StepOwners(cfg, s, a, s');
    StepBodies(cfg, s, a, s');
    StepCopies(cfg, s, a, s');
    StepDeps(cfg, s, a, s');
    StepBounds(cfg, s, a, s');
    StepMarks(cfg, s, a, s');
    if cfg.redis {
      StepLocks(cfg, s, a, s');
      StepActive(cfg, s, a, s');
    }
  }

  lemma MayFailRow(cfg: Config, s: State, id: nat, r: nat)
    requires HasCopy(s, r, id)
    ensures Enabled(cfg, s, FailRow(r, id)) && RowIs(Apply(cfg, s, FailRow(r, id)), id, Failed)
  {
  }

  lemma LaterSelf(s: State)
    ensures Later(s, s)
  {
  }

  lemma InvLater(cfg: Config, s: State, a: Action, s': State)
    requires Inv(cfg, s) && Next(cfg, s, a, s')
    ensures Later(s, s')
  {
    hide Next, OwnersSound, BodiesSound, CopiesSound, DepsSound, BoundsSound, MarksSound, LocksExclusive, OneActive, Later;
    StepLater(cfg, s, a, s');
  }

  lemma {:induction false} StepsInv(cfg: Config, s: State, s': State, n: nat)
    requires Inv(cfg, s) && Steps(cfg, s, s', n)
    ensures Inv(cfg, s') && Later(s, s')
    decreases n
  {
    hide Inv, Next, Later;
    if n == 0 {
      LaterSelf(s);
    } else {
      var t, a :| Steps(cfg, s, t, n - 1) && Next(cfg, t, a, s');
      StepsInv(cfg, s, t, n - 1);
      StepInv(cfg, t, a, s');
      InvLater(cfg, t, a, s');
      LaterTrans(s, t, s');
    }
  }

  /** Every reachable state satisfies the invariant and only grows from there. */
  lemma ReachInv(cfg: Config, s: State, s': State)
    requires Inv(cfg, s) && Reaches(cfg, s, s')
    ensures Inv(cfg, s') && Later(s, s')
  {
    hide Inv, Later, Steps;
    var n: nat :| Steps(cfg, s, s', n);
    StepsInv(cfg, s, s', n);
  }

  lemma EmptyInv(cfg: Config)
    ensures Inv(cfg, Empty)
  {
  }

  // ------------------------------------------------------------------ guarantees

  /** With locks, one sweep at most is created, energy_ready or broadcast for an
      address and token, in every run. */
  lemma {:induction false} OneActiveSweep(cfg: Config, s: State, i: nat, j: nat)
    requires cfg.redis && Reaches(cfg, Empty, s)
    requires i < |s.sweeps| && j < |s.sweeps| && s.sweeps[i].status.Active() && s.sweeps[j].status.Active()
    requires s.sweeps[i].key == s.sweeps[j].key
    ensures i == j
  {
    hide OwnersSound, BodiesSound, CopiesSound, DepsSound, BoundsSound, MarksSound, LocksExclusive, Guards;
    EmptyInv(cfg);
    ReachInv(cfg, Empty, s);
  }

  /** Whatever is sent for a sweep, now and later, first or again, is one body. */
  lemma {:induction false} OneBodyPerSweep(cfg: Config, s: State, s': State, id: nat, r: string, r': string)
    requires Reaches(cfg, Empty, s) && Reaches(cfg, s, s') && (id, r) in s.sent && (id, r') in s'.sent
    ensures r == r'
  {
    hide OwnersSound, CopiesSound, DepsSound, BoundsSound, MarksSound, LocksExclusive, OneActive;
    EmptyInv(cfg);
    ReachInv(cfg, Empty, s);
    ReachInv(cfg, s, s');
    assert (id, r) in s'.sent;
  }

  /** A sweep with an id bound, whose ids were read at most Confirmations blocks after
      its balance, only ever marks deposits that had landed when that was read. */
  lemma {:induction false} WriteOffIsCovered(cfg: Config, s: State, id: nat, d: nat)
    requires Reaches(cfg, Empty, s) && BySweep(id, d) in s.marks && id < |s.sweeps|
    requires s.sweeps[id].depositMaxId > 0 && s.sweeps[id].idAt - s.sweeps[id].readAt <= cfg.confirmations
    ensures d < |s.deps| && s.deps[d].swept && s.deps[d].key == s.sweeps[id].key && s.deps[d].block <= s.sweeps[id].readAt
  {
    hide OwnersSound, BodiesSound, CopiesSound, LocksExclusive, OneActive;
    EmptyInv(cfg);
    ReachInv(cfg, Empty, s);
    assert MarkSound(cfg, s, BySweep(id, d));
    assert BoundSound(cfg, s, s.sweeps[id].readAt, s.sweeps[id].depositMaxId, s.sweeps[id].idAt);
    assert d < s.sweeps[id].depositMaxId;
  }

  /** Deposits of an address found empty had landed before its balance was read, when
      at most Confirmations blocks passed since. */
  lemma {:induction false} EmptyWriteOffIsCovered(cfg: Config, s: State, readAt: int, at: int, d: nat)
    requires Reaches(cfg, Empty, s) && ByEmpty(readAt, at, d) in s.marks && at - readAt <= cfg.confirmations
    ensures d < |s.deps| && s.deps[d].swept && s.deps[d].block <= readAt
  {
    hide OwnersSound, BodiesSound, CopiesSound, LocksExclusive, OneActive;
    EmptyInv(cfg);
    ReachInv(cfg, Empty, s);
    assert MarkSound(cfg, s, ByEmpty(readAt, at, d));
  }

  /** No deposit is written off by anything else, and every one stays written off. */
  lemma {:induction false} SweptIffMarked(cfg: Config, s: State, s': State, d: nat)
    requires Reaches(cfg, Empty, s) && Reaches(cfg, s, s') && d < |s.deps|
    ensures s.deps[d].swept <==> exists m :: m in s.marks && m.dep == d
    ensures s.deps[d].swept ==> d < |s'.deps| && s'.deps[d].swept && s.deps[d].confirmed
  {
    hide OwnersSound, BodiesSound, CopiesSound, LocksExclusive, OneActive, BoundsSound;
    EmptyInv(cfg);
    ReachInv(cfg, Empty, s);
    ReachInv(cfg, s, s');
    if m :| m in s.marks && m.dep == d { assert MarkSound(cfg, s, m); }
    assert DepLater(s.deps[d], s'.deps[d]);
  }
}
