/** Sweeping deposit addresses (internal/sweep/sweep.go): round workers that hold a
    per-(address, contract) lock, an unlocked reconcile loop next to them
    (cmd/sweep/main.go), and the scanner that confirms deposits meanwhile, as one
    state and its atomic steps. */
module SweepState {
  import opened Wrappers

  datatype SweepStatus = Created | EnergyReady | Broadcast | Confirmed | Failed
  {
    predicate Active() { Created? || EnergyReady? || Broadcast? }
  }

  datatype Key = Key(address: string, contract: string)

  /** A sweep_record row; its id is its position. The last three fields are history:
      the body signed for it, and the heights at which its balance and its deposit
      ids were read. */
  datatype Sweep = Sweep(key: Key, amount: int, status: SweepStatus, txid: string, raw: string, expiredAt: Option<int>,
                         depositMaxId: nat, body: string, readAt: int, idAt: int)

  /** A deposit_record row as far as sweeping goes; its id is its position plus one. */
  datatype Dep = Dep(key: Key, block: int, confirmed: bool, swept: bool, internal: bool)

  /** How far a round worker is with one address and token. */
  datatype Phase =
    | Reading(readAt: int)
    | Emptied(readAt: int)
    | Locked(readAt: int)
    | Idle(readAt: int)
    | Ready(readAt: int, maxId: nat, idAt: int)
    | Owner(id: nat)

  datatype Session = Session(key: Key, phase: Phase)
  {
    predicate HoldsLock() { !phase.Reading? && !phase.Emptied? }
  }

  /** Which deposit was marked swept, and by what. */
  datatype Mark = BySweep(id: nat, dep: nat) | ByEmpty(readAt: int, at: int, dep: nat)

  datatype Config = Config(redis: bool, confirmations: int, txidOf: string -> string)

  /** sessions are the round workers under way, copies the rows a reconcile loop has
      read and not yet dealt with. */
  datatype State = State(
    sweeps: seq<Sweep>,
    deps: seq<Dep>,
    sessions: map<nat, Session>,
    copies: set<(nat, nat)>,
    skips: map<Key, nat>,
    sent: set<(nat, string)>,
    marks: set<Mark>,
    head: int,
    now: int)

  datatype Action =
    // the chain and the scanner
    | Advance(head: int, now: int)
    | ScanDeposit(dep: Dep)
    | ConfirmDeposit(i: nat)
    // a round worker
    | ReadBalance(w: nat, key: Key)
    | CheckConfirmed(w: nat)
    | MarkEmpty(w: nat)
    | Skip(w: nat)
    | Acquire(w: nat)
    | CheckIdle(w: nat)
    | ReadMaxId(w: nat)
    | Create(w: nat, amount: int)
    | HaveEnergy(w: nat)
    | Sign(w: nat, body: string)
    | Store(w: nat, expiredAt: int)
    | Send(w: nat)
    | MarkSent(w: nat, accepted: bool)
    | FailOwn(w: nat)
    | Leave(w: nat)
    // a reconcile loop
    | Take(r: nat, id: nat)
    | FailRow(r: nat, id: nat)
    | ConfirmRow(r: nat, id: nat)
    | ExpireRow(r: nat, id: nat)
    | Resend(r: nat, id: nat)
    | Refuse(r: nat, id: nat)
    | Drop(r: nat, id: nat)

  const Empty := State([], [], map[], {}, map[], {}, {}, 0, 0)

  predicate Has(s: State, w: nat)
  {
    w in s.sessions
  }

  predicate Owns(s: State, w: nat)
  {
    Has(s, w) && s.sessions[w].phase.Owner? && s.sessions[w].phase.id < |s.sweeps|
  }

  /** The lock table of the workers' Redis. Without Redis every lock is granted. */
  predicate LockFree(cfg: Config, s: State, key: Key)
  {
    cfg.redis ==> forall w :: w in s.sessions && s.sessions[w].HoldsLock() ==> s.sessions[w].key != key
  }

  predicate NoActive(s: State, key: Key)
  {
    forall i :: 0 <= i < |s.sweeps| && s.sweeps[i].key == key ==> !s.sweeps[i].status.Active()
  }

  predicate Unswept(d: Dep, key: Key)
  {
    d.key == key && d.confirmed && !d.swept
  }

  /** The highest id of a confirmed, unswept deposit, or 0. */
  predicate IsMaxId(s: State, key: Key, maxId: nat)
  {
    && (forall i :: 0 <= i < |s.deps| && Unswept(s.deps[i], key) ==> i < maxId)
    && (maxId > 0 ==> maxId <= |s.deps| && Unswept(s.deps[maxId - 1], key))
  }

  function MaxId(s: State, key: Key, n: nat): (m: nat)
    requires n <= |s.deps|
    ensures forall i :: 0 <= i < n && Unswept(s.deps[i], key) ==> i < m
    ensures m > 0 ==> m <= n && Unswept(s.deps[m - 1], key)
  {
    if n == 0 then 0 else if Unswept(s.deps[n - 1], key) then n else MaxId(s, key, n - 1)
  }

  /** What a confirmed sweep marks: its deposits up to its id bound, if it has one. */
  predicate Covered(d: Dep, index: nat, key: Key, maxId: nat)
  {
    Unswept(d, key) && (maxId > 0 ==> index < maxId)
  }

  function MarkDeps(deps: seq<Dep>, key: Key, maxId: nat): (out: seq<Dep>)
    ensures |out| == |deps|
  {
    if deps == [] then []
    else
      var last := |deps| - 1;
      MarkDeps(deps[..last], key, maxId) + [if Covered(deps[last], last, key, maxId) then deps[last].(swept := true) else deps[last]]
  }

  lemma {:induction false} MarkDepsAt(deps: seq<Dep>, key: Key, maxId: nat, i: nat)
    requires i < |deps|
    ensures MarkDeps(deps, key, maxId)[i] == if Covered(deps[i], i, key, maxId) then deps[i].(swept := true) else deps[i]
  {
    var last := |deps| - 1;
    if i < last {
      MarkDepsAt(deps[..last], key, maxId, i);
    }
  }

  function OwnRow(s: State, w: nat): (row': Sweep)
    requires Owns(s, w)
  {
    s.sweeps[s.sessions[w].phase.id]
  }

  predicate Reconcilable(st: SweepStatus)
  {
    st == EnergyReady || st == Broadcast
  }

  /** A row the reconcile loop picks up. */
  predicate OnNetwork(row: Sweep)
  {
    Reconcilable(row.status) && row.txid != ""
  }

  predicate RowIs(s: State, id: nat, status: SweepStatus)
  {
    id < |s.sweeps| && s.sweeps[id].status == status
  }

  /** A loop's copy of a row; it was read with a txid, and that stays. */
  predicate HasCopy(s: State, r: nat, id: nat)
  {
    (r, id) in s.copies && id < |s.sweeps| && s.sweeps[id].txid != ""
  }

  /** When a step can happen. A worker's own writes carry no guard on the status, and a
      reconcile loop works on copies that may be stale; ids of deposits follow block
      order and receipts do not move. */
  predicate Enabled(cfg: Config, s: State, a: Action)
  {
    match a
    case Advance(head, now) => s.head <= head && s.now <= now
    case ScanDeposit(d) => !d.confirmed && !d.swept && d.block <= s.head && forall i :: 0 <= i < |s.deps| ==> s.deps[i].block <= d.block
    case ConfirmDeposit(i) => i < |s.deps| && !s.deps[i].confirmed && s.deps[i].block <= s.head - cfg.confirmations
    case ReadBalance(w, key) => !Has(s, w)
    case CheckConfirmed(w) =>
      && Has(s, w) && s.sessions[w].phase.Reading?
      && exists i :: 0 <= i < |s.sweeps| && s.sweeps[i].key == s.sessions[w].key && s.sweeps[i].status == Confirmed
    case MarkEmpty(w) => Has(s, w) && s.sessions[w].phase.Emptied?
    case Skip(w) => Has(s, w) && s.sessions[w].phase.Reading?
    case Acquire(w) => Has(s, w) && s.sessions[w].phase.Reading? && LockFree(cfg, s, s.sessions[w].key)
    case CheckIdle(w) => Has(s, w) && s.sessions[w].phase.Locked? && NoActive(s, s.sessions[w].key)
    case ReadMaxId(w) => Has(s, w) && s.sessions[w].phase.Idle?
    case Create(w, _) => Has(s, w) && s.sessions[w].phase.Ready?
    case HaveEnergy(w) => Owns(s, w)
    case Sign(w, body) => Owns(s, w) && OwnRow(s, w).body == "" && body != ""
    case Store(w, _) => Owns(s, w) && OwnRow(s, w).body != "" && OwnRow(s, w).raw == ""
    case Send(w) => Owns(s, w) && OwnRow(s, w).body != ""
    case MarkSent(w, _) => Owns(s, w) && OwnRow(s, w).body != ""
    case FailOwn(w) => Owns(s, w)
    case Leave(w) => Has(s, w)
    case Take(r, id) => id < |s.sweeps| && OnNetwork(s.sweeps[id])
    case FailRow(r, id) => HasCopy(s, r, id)
    case ConfirmRow(r, id) => HasCopy(s, r, id)
    case ExpireRow(r, id) => HasCopy(s, r, id) && s.sweeps[id].expiredAt.Some? && s.sweeps[id].expiredAt.value <= s.now
    case Resend(r, id) => HasCopy(s, r, id) && s.sweeps[id].raw != ""
    case Refuse(r, id) => HasCopy(s, r, id) && s.sweeps[id].raw != ""
    case Drop(r, id) => (r, id) in s.copies
  }

  function Move(s: State, w: nat, phase: Phase): (s': State)
    requires Has(s, w)
  {
    s.(sessions := s.sessions[w := s.sessions[w].(phase := phase)])
  }

  function WriteRow(s: State, id: nat, row: Sweep): (s': State)
    requires id < |s.sweeps|
  {
    s.(sweeps := s.sweeps[id := row])
  }

  function WriteOwn(s: State, w: nat, row: Sweep): (s': State)
    requires Owns(s, w)
  {
    WriteRow(s, s.sessions[w].phase.id, row)
  }

  /** The confirmation's transaction: the status only moves on from energy_ready and
      broadcast, the deposits are marked either way, the skip counter is deleted. */
  function ConfirmTx(s: State, id: nat): (s': State)
    requires id < |s.sweeps|
  {
    var row := s.sweeps[id];
    var row' := if Reconcilable(row.status) then row.(status := Confirmed) else row;
    s.(sweeps := s.sweeps[id := row'],
       deps := MarkDeps(s.deps, row.key, row.depositMaxId),
       marks := s.marks + (set i | 0 <= i < |s.deps| && Covered(s.deps[i], i, row.key, row.depositMaxId) :: BySweep(id, i)),
       skips := s.skips - {row.key})
  }

  /** The loop is done with its copy. */
  function Dropped(s: State, r: nat, id: nat): (out: State)
  {
    s.(copies := s.copies - {(r, id)})
  }

  function EmptyTx(s: State, w: nat): (s': State)
    requires Has(s, w) && s.sessions[w].phase.Emptied?
  {
    var key, readAt := s.sessions[w].key, s.sessions[w].phase.readAt;
    s.(deps := MarkDeps(s.deps, key, 0),
       marks := s.marks + (set i | 0 <= i < |s.deps| && Covered(s.deps[i], i, key, 0) :: ByEmpty(readAt, s.head, i)))
  }

  function AddSkip(skips: map<Key, nat>, key: Key): (r: map<Key, nat>)
  {
    skips[key := if key in skips then skips[key] + 1 else 1]
  }

  function Apply(cfg: Config, s: State, a: Action): (s': State)
    requires Enabled(cfg, s, a)
  {
    match a
    case Advance(head, now) => s.(head := head, now := now)
    case ScanDeposit(d) => s.(deps := s.deps + [d])
    case ConfirmDeposit(i) => s.(deps := s.deps[i := s.deps[i].(confirmed := true)])
    case ReadBalance(w, key) => s.(sessions := s.sessions[w := Session(key, Reading(s.head))])
    case CheckConfirmed(w) => Move(s, w, Emptied(s.sessions[w].phase.readAt))
    case MarkEmpty(w) => EmptyTx(s, w)
    case Skip(w) => s.(skips := AddSkip(s.skips, s.sessions[w].key))
    case Acquire(w) => Move(s, w, Locked(s.sessions[w].phase.readAt))
    case CheckIdle(w) => Move(s, w, Idle(s.sessions[w].phase.readAt))
    case ReadMaxId(w) =>
      Move(s, w, Ready(s.sessions[w].phase.readAt, MaxId(s, s.sessions[w].key, |s.deps|), s.head))
    case Create(w, amount) =>
      var p := s.sessions[w].phase;
      var row := Sweep(s.sessions[w].key, amount, Created, "", "", None, p.maxId, "", p.readAt, p.idAt);
      Move(s.(sweeps := s.sweeps + [row]), w, Owner(|s.sweeps|))
    case HaveEnergy(w) => WriteOwn(s, w, OwnRow(s, w).(status := EnergyReady))
    case Sign(w, body) => WriteOwn(s, w, OwnRow(s, w).(body := body))
    case Store(w, expiredAt) =>
      WriteOwn(s, w, OwnRow(s, w).(txid := cfg.txidOf(OwnRow(s, w).body), raw := OwnRow(s, w).body, expiredAt := Some(expiredAt)))
    case Send(w) => s.(sent := s.sent + {(s.sessions[w].phase.id, OwnRow(s, w).body)})
    case MarkSent(w, accepted) =>
      WriteOwn(s, w, OwnRow(s, w).(status := Broadcast,
                                   txid := if accepted then cfg.txidOf(OwnRow(s, w).body) else OwnRow(s, w).txid))
    case FailOwn(w) => WriteOwn(s, w, OwnRow(s, w).(status := Failed))
    case Leave(w) => s.(sessions := s.sessions - {w})
    case Take(r, id) => s.(copies := s.copies + {(r, id)})
    case FailRow(r, id) => Dropped(WriteRow(s, id, s.sweeps[id].(status := Failed)), r, id)
    case ConfirmRow(r, id) => Dropped(ConfirmTx(s, id), r, id)
    case ExpireRow(r, id) =>
      Dropped(if Reconcilable(s.sweeps[id].status) then WriteRow(s, id, s.sweeps[id].(status := Failed)) else s, r, id)
    case Resend(r, id) => s.(sent := s.sent + {(id, s.sweeps[id].raw)})
    case Refuse(r, id) => Dropped(WriteRow(s, id, s.sweeps[id].(status := Failed)), r, id)
    case Drop(r, id) => Dropped(s, r, id)
  }

  predicate Next(cfg: Config, s: State, a: Action, s': State)
  {
    Enabled(cfg, s, a) && s' == Apply(cfg, s, a)
  }

  /** s' is n steps after s. */
  ghost predicate Steps(cfg: Config, s: State, s': State, n: nat)
    decreases n
  {
    if n == 0 then s == s' else exists t, a :: Steps(cfg, s, t, n - 1) && Next(cfg, t, a, s')
  }

  ghost predicate Reaches(cfg: Config, s: State, s': State)
  {
    exists n: nat :: Steps(cfg, s, s', n)
  }

  lemma ReachesSelf(cfg: Config, s: State)
    ensures Reaches(cfg, s, s)
  {
    assert Steps(cfg, s, s, 0);
  }

  lemma ReachesStep(cfg: Config, s: State, t: State, a: Action, t': State)
    requires Reaches(cfg, s, t) && Next(cfg, t, a, t')
    ensures Reaches(cfg, s, t')
  {
    hide Next;
    var n: nat :| Steps(cfg, s, t, n);
    assert Steps(cfg, s, t', n + 1);
  }

  lemma {:induction false} StepsTrans(cfg: Config, s: State, t: State, u: State, n: nat, m: nat)
    requires Steps(cfg, s, t, n) && Steps(cfg, t, u, m)
    ensures Steps(cfg, s, u, n + m)
    decreases m
  {
    hide Next;
    if m > 0 {
      var v, a :| Steps(cfg, t, v, m - 1) && Next(cfg, v, a, u);
      StepsTrans(cfg, s, t, v, n, m - 1);
    }
  }

  lemma ReachesTrans(cfg: Config, s: State, t: State, u: State)
    requires Reaches(cfg, s, t) && Reaches(cfg, t, u)
    ensures Reaches(cfg, s, u)
  {
    hide Steps;
    var n: nat :| Steps(cfg, s, t, n);
    var m: nat :| Steps(cfg, t, u, m);
    StepsTrans(cfg, s, t, u, n, m);
  }
}
