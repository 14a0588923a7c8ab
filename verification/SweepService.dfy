/** The sweep service (internal/sweep/sweep.go), statement by statement: a round worker
    and the reconcile loop, each next to everybody else's steps. Locks are given back
    by leaving, which also is what a crash amounts to once the lock has expired. */
module SweepService {
  import opened Wrappers
  import opened SweepState
  import opened SweepSafety

  datatype SendResult = Accepted | Unclear | Permanent

  /** How one attempt at an address ended: it was empty, closed out or not; its balance
      was too small; it was busy; an operation failed; its row failed; or its row's
      body was sent. */
  datatype Attempt = Nothing | Closed | Small | Busy | Failing | FailedRow | Sent(id: nat)

  /** How one row of a reconcile batch ended. */
  datatype Outcome = Interrupted | Waiting | Unsigned | Resent | Refused | Released | FailedOnChain | ConfirmedOnChain

  /** The tables and the chain, shared by all workers. In a reliable deployment nodes,
      signer, locks and database never fail to answer; the signer signs transfers of
      the keys for which `signs` holds. */
  class World {
    const cfg: Config
    const reliable: bool
    const signs: Key -> bool
    var s: State

    constructor (cfg: Config, reliable: bool, signs: Key -> bool)
      ensures this.cfg == cfg && this.reliable == reliable && this.signs == signs && s == Empty && From(Empty)
    {
      this.cfg, this.reliable, this.signs, s := cfg, reliable, signs, Empty;
      EmptyInv(cfg);
      ReachesSelf(cfg, Empty);
      LaterSelf(Empty);
    }

    /** This worker's and everybody else's steps led from `was` to here. */
    ghost predicate From(was: State)
      reads this
    {
      Led(cfg, was, s)
    }

    /** Steps of anybody but worker and loop w, in any number and order. */
    method Interfere(ghost was: State, w: nat)
      requires From(was)
      modifies this`s
      ensures From(was) && Later(old(s), s)
      ensures SameSession(old(s), s, w) && SameCopies(old(s), s, w)
    {
      hide Led, Later, Enabled, Apply;
      LaterSelf(s);
      var steps: nat := *;
      while steps > 0
        invariant From(was) && Later(old(s), s)
        invariant SameSession(old(s), s, w) && SameCopies(old(s), s, w)
      {
        var a: Action := *;
        if Enabled(cfg, s, a) && Actor(a) != Some(w) && LoopOf(a) != Some(w) {
          ghost var mid := s;
          LedInv(cfg, was, mid);
          Do(was, a);
          LaterTrans(old(s), mid, s);
          OthersStep(cfg, mid, a, s, w);
          OthersCopies(cfg, mid, a, s, w);
        }
        steps := steps - 1;
      }
    }

    method Do(ghost was: State, a: Action)
      requires From(was) && Enabled(cfg, s, a)
      modifies this`s
      ensures From(was) && Later(old(s), s) && Next(cfg, old(s), a, s)
    {
      hide Inv, Reaches, Later, Enabled, Apply;
      ghost var before := s;
      s := Apply(cfg, s, a);
      StepInv(cfg, before, a, s);
      InvLater(cfg, before, a, s);
      LaterTrans(was, before, s);
      ReachesStep(cfg, was, before, a, s);
    }
  }

  /** The protocol led from `was` to s. */
  ghost predicate Led(cfg: Config, was: State, s: State)
  {
    Inv(cfg, was) && Inv(cfg, s) && Reaches(cfg, was, s) && Later(was, s)
  }

  lemma LedInv(cfg: Config, was: State, s: State)
    requires Led(cfg, was, s)
    ensures Inv(cfg, s) && Later(was, s)
  {
    hide Inv, Reaches, Later;
  }

  /** From a state on the way one can count anew, and later continue. */
  lemma LedAnew(cfg: Config, was: State, s: State)
    requires Led(cfg, was, s)
    ensures Led(cfg, s, s)
  {
    hide Inv, Reaches, Later;
    ReachesSelf(cfg, s);
    LaterSelf(s);
  }

  lemma LedOn(cfg: Config, was: State, mid: State, s: State)
    requires Led(cfg, was, mid) && Led(cfg, mid, s)
    ensures Led(cfg, was, s)
  {
    hide Inv, Reaches, Later;
    ReachesTrans(cfg, was, mid, s);
    LaterTrans(was, mid, s);
  }

  predicate SameRequest(row: Sweep, row': Sweep)
  {
    (row'.key, row'.amount, row'.body, row'.raw) == (row.key, row.amount, row.body, row.raw)
  }

  /** Worker w stands where it stood, and its row has the body it had. */
  predicate SameSession(s: State, s': State, w: nat)
  {
    && (w in s.sessions <==> w in s'.sessions)
    && (w in s.sessions ==> s'.sessions[w] == s.sessions[w])
    && (Owns(s, w) ==> Owns(s', w) && SameRequest(OwnRow(s, w), OwnRow(s', w)))
  }

  ghost predicate SameCopies(s: State, s': State, r: nat)
  {
    forall id: nat :: (r, id) in s'.copies <==> (r, id) in s.copies
  }

  lemma {:induction false} OthersCopies(cfg: Config, s: State, a: Action, s': State, r: nat)
    requires Next(cfg, s, a, s') && LoopOf(a) != Some(r)
    ensures SameCopies(s, s', r)
  {
    hide LockFree, NoActive, MaxId, MarkDeps, Covered;
  }

  /** Only its owner writes a row's body or stored bytes. */
  lemma {:induction false} BodyFrame(cfg: Config, s: State, a: Action, s': State, i: nat)
    requires Next(cfg, s, a, s') && i < |s.sweeps|
    ensures i < |s'.sweeps|
    ensures SameRequest(s.sweeps[i], s'.sweeps[i]) || exists v :: ActsFor(s, a, v) && s.sessions[v].phase == Owner(i)
  {
    hide Next, LoopWrites;
    if Actor(a).None? {
      LoopRow(cfg, s, a, s', i);
    } else if a.w in s.sessions && s.sessions[a.w].phase == Owner(i) {
      assert ActsFor(s, a, a.w);
      StepGrows(cfg, s, a, s');
    } else {
      WorkerRow(cfg, s, a, s', i);
    }
  }

  lemma {:induction false} OthersRow(cfg: Config, s: State, a: Action, s': State, w: nat)
    requires OwnersSound(s) && Next(cfg, s, a, s') && Actor(a) != Some(w) && Owns(s, w)
    ensures s.sessions[w].phase.id < |s'.sweeps| && SameRequest(OwnRow(s, w), s'.sweeps[s.sessions[w].phase.id])
  {
    hide Next, SameRequest;
    BodyFrame(cfg, s, a, s', s.sessions[w].phase.id);
  }

  lemma {:induction false} SessionStays(cfg: Config, s: State, a: Action, s': State, w: nat)
    requires Next(cfg, s, a, s') && Actor(a) != Some(w) && w in s.sessions
    ensures w in s'.sessions
  {
    hide LockFree, NoActive, MaxId, MarkDeps, Covered;
  }

  lemma {:induction false} OthersSession(cfg: Config, s: State, a: Action, s': State, w: nat)
    requires Next(cfg, s, a, s') && Actor(a) != Some(w)
    ensures (w in s.sessions <==> w in s'.sessions) && (w in s.sessions ==> s'.sessions[w] == s.sessions[w])
  {
    hide Next;
    if w in s.sessions { SessionStays(cfg, s, a, s', w); }
    if w in s'.sessions { SessionFrame(cfg, s, a, s', w); }
  }

  lemma {:induction false} OthersStep(cfg: Config, s: State, a: Action, s': State, w: nat)
    requires Inv(cfg, s) && Next(cfg, s, a, s') && Actor(a) != Some(w)
    ensures SameSession(s, s', w)
  {
    hide Next, OwnersSound, BodiesSound, CopiesSound, DepsSound, BoundsSound, MarksSound, LocksExclusive, OneActive, SameRequest;
    OthersSession(cfg, s, a, s', w);
    if Owns(s, w) { OthersRow(cfg, s, a, s', w); }
  }

  class Service {
    const world: World
    const w: nat
    const minUnits: int
    const maxSkips: int

    constructor (world: World, w: nat, minUnits: int, maxSkips: int)
      ensures this.world == world && this.w == w
    {
      this.world, this.w, this.minUnits, this.maxSkips := world, w, minUnits, maxSkips;
    }

    /** The deferred unlock. */
    method Leave(ghost was: State)
      requires world.From(was)
      modifies world
      ensures world.From(was) && w !in world.s.sessions && Later(old(world.s), world.s)
      ensures world.s == old(world.s).(sessions := old(world.s).sessions - {w})
    {
      hide Led, Later;
      LaterSelf(world.s);
      if w in world.s.sessions {
        world.Do(was, Action.Leave(w));
      } else {
        assert world.s.sessions - {w} == world.s.sessions;
      }
    }

    // -------------------------------------------------------------------- counting

    /** The number of sweeps of the key still in flight. */
    method CountInflight(key: Key) returns (n: nat)
      ensures n == 0 <==> NoActive(world.s, key)
    {
      n := 0;
      var i := 0;
      while i < |world.s.sweeps|
        invariant 0 <= i <= |world.s.sweeps|
        invariant n == 0 <==> forall j :: 0 <= j < i && world.s.sweeps[j].key == key ==> !world.s.sweeps[j].status.Active()
      {
        if world.s.sweeps[i].key == key && world.s.sweeps[i].status.Active() {
          n := n + 1;
        }
        i := i + 1;
      }
    }

    method CountConfirmed(key: Key) returns (n: nat)
      ensures n == 0 <==> NeverConfirmed(world.s, key)
    {
      n := 0;
      var i := 0;
      while i < |world.s.sweeps|
        invariant 0 <= i <= |world.s.sweeps|
        invariant n == 0 <==> forall j :: 0 <= j < i && world.s.sweeps[j].key == key ==> world.s.sweeps[j].status != Confirmed
      {
        if world.s.sweeps[i].key == key && world.s.sweeps[i].status == Confirmed {
          n := n + 1;
        }
        i := i + 1;
      }
    }

    /** maxUnsweptDepositID: no confirmed, unswept deposit has a higher id, and one has
        this id unless it is 0. */
    method MaxUnsweptDepositId(key: Key) returns (m: nat)
      ensures IsMaxId(world.s, key, m) && m == MaxId(world.s, key, |world.s.deps|)
    {
      m := 0;
      var i := 0;
      while i < |world.s.deps|
        invariant 0 <= i <= |world.s.deps| && m == MaxId(world.s, key, i)
      {
        if Unswept(world.s.deps[i], key) {
          m := i + 1;
        }
        i := i + 1;
      }
    }

    /** One more skipped round for the key, and the new total. */
    method RecordSkip(ghost was: State, key: Key) returns (ok: bool, skips: nat)
      requires world.From(was) && Has(world.s, w) && world.s.sessions[w].phase.Reading? && world.s.sessions[w].key == key
      modifies world
      ensures world.From(was) && SameSession(old(world.s), world.s, w) && (world.reliable ==> ok)
      ensures ok ==> key in world.s.skips && world.s.skips[key] == skips > 0
    {
      hide Led, Later, LockFree, NoActive, MaxId;
      ok, skips := false, 0;
      world.Interfere(was, w);
      var failed := Fails(world.reliable);
      if failed {
        return;
      }
      world.Do(was, Action.Skip(w));
      ok, skips := true, world.s.skips[key];
    }

    /** Closes out the deposits of an address found empty, once a sweep of it was
        confirmed: none of them is unswept then. */
    method MarkSweptEmpty(ghost was: State, key: Key) returns (r: Attempt)
      requires world.From(was) && Has(world.s, w) && world.s.sessions[w].phase.Reading? && world.s.sessions[w].key == key
      modifies world
      ensures world.From(was) && (r == Closed || r == Nothing || (r == Failing && !world.reliable))
      ensures r == Closed ==> AllSwept(world.s, key)
      ensures r == Nothing ==> NeverConfirmed(world.s, key)
    {
      hide Led, Later, LockFree, NoActive, MaxId, MarkDeps, Covered;
      world.Interfere(was, w);
      var failed := Fails(world.reliable);
      if failed {
        return Failing;
      }
      var swept := CountConfirmed(key);
      if swept == 0 {
        return Nothing;
      }
      world.Do(was, CheckConfirmed(w));
      world.Interfere(was, w);
      failed := Fails(world.reliable);
      if failed {
        return Failing;
      }
      ghost var before := world.s;
      world.Do(was, MarkEmpty(w));
      NoneLeft(before.deps, key, 0);
      r := Closed;
    }

    // -------------------------------------------------------------------- one sweep

    /** Everything in front of the row: lock, in-flight check, retry budget, energy
        estimate, id bound. A session that holds the lock afterwards may create it. */
    method Prepare(ghost was: State, key: Key) returns (ready: bool, failing: bool)
      requires world.From(was) && Has(world.s, w) && world.s.sessions[w].phase.Reading? && world.s.sessions[w].key == key
      modifies world
      ensures world.From(was) && (failing ==> !ready && !world.reliable)
      ensures ready ==> Has(world.s, w) && world.s.sessions[w].phase.Ready? && world.s.sessions[w].key == key
    {
      hide Led, Later, IsMaxId, NoActive, LockFree, Enabled, Apply;
      ready := false;
      failing := Fails(world.reliable);
      world.Interfere(was, w);
      if failing || !LockFree(world.cfg, world.s, key) {
        return;
      }
      ghost var s0 := world.s;
      MayAcquire(world.cfg, s0, w);
      world.Do(was, Acquire(w));
      world.Interfere(was, w);
      failing := Fails(world.reliable);
      if failing {
        return;
      }
      var inflight := CountInflight(key);
      if inflight > 0 {
        return;
      }
      ghost var s1 := world.s;
      MayGoIdle(world.cfg, s1, w);
      world.Do(was, CheckIdle(w));
      world.Interfere(was, w);
      failing := Fails(world.reliable);
      var exhausted: bool := *;
      if failing || exhausted {
        return;
      }
      var maxId := MaxUnsweptDepositId(key);
      ghost var s2 := world.s;
      MayBeReady(world.cfg, s2, w, maxId);
      world.Do(was, ReadMaxId(w));
      assert world.s.sessions[w].phase.maxId == maxId;
      world.Interfere(was, w);
      ready := true;
    }

    /** The row, its energy, its body and the broadcast. Writes whose result the code
        ignores may be lost. */
    method SweepOne(ghost was: State, key: Key, amount: int) returns (r: Attempt)
      requires world.From(was) && Has(world.s, w) && world.s.sessions[w].phase.Reading? && world.s.sessions[w].key == key
      modifies world
      ensures world.From(was) && (r == Busy || (r == Failing && !world.reliable) || r == FailedRow || r.Sent?)
      ensures r.Sent? ==> WasSent(world.s, r.id, key, amount)
    {
      hide Led, Later, Enabled, Apply;
      var ready, failing := Prepare(was, key);
      if !ready {
        return if failing then Failing else Busy;
      }
      failing := Fails(world.reliable);
      if failing {
        return Failing;
      }
      r := FillRow(was, key, amount);
    }

    method FillRow(ghost was: State, key: Key, amount: int) returns (r: Attempt)
      requires world.From(was) && Has(world.s, w) && world.s.sessions[w].phase.Ready? && world.s.sessions[w].key == key
      modifies world
      ensures world.From(was)
      ensures r == FailedRow || (r.Sent? && WasSent(world.s, r.id, key, amount))
    {
      hide Led, Later, Enabled, Apply;
      ghost var s0 := world.s;
      MayCreate(world.cfg, s0, w, amount);
      world.Do(was, Create(w, amount));
      RowCreated(world.cfg, s0, w, amount, world.s);
      world.Interfere(was, w);
      var rented: bool := *;
      if !rented {
        FailSweep(was);
        return FailedRow;
      }
      var written: bool := *;
      if written {
        ghost var s1 := world.s;
        OwnerMay(world.cfg, s1, w);
        world.Do(was, HaveEnergy(w));
        OwnWrite(world.cfg, s1, HaveEnergy(w), world.s, w);
      }
      world.Interfere(was, w);
      var body: string := *;
      if body == "" {
        FailSweep(was);
        return FailedRow;
      }
      ghost var s2 := world.s;
      MaySign(world.cfg, s2, w, body);
      world.Do(was, Sign(w, body));
      OwnWrite(world.cfg, s2, Sign(w, body), world.s, w);
      r := StoreAndSend(was, key, amount);
    }

    /** The body is stored, then sent; what the network made of it is noted. */
    method StoreAndSend(ghost was: State, key: Key, amount: int) returns (r: Attempt)
      requires world.From(was) && Owns(world.s, w) && OwnRow(world.s, w).body != "" && OwnRow(world.s, w).raw == ""
      requires OwnRow(world.s, w).key == key && OwnRow(world.s, w).amount == amount
      modifies world
      ensures world.From(was)
      ensures r == FailedRow || (r.Sent? && WasSent(world.s, r.id, key, amount))
    {
      hide Led, Later, Enabled, Apply, WasSent;
      var stored: bool := *;
      if stored {
        var expiredAt: int := *;
        ghost var s0 := world.s;
        OwnerMay(world.cfg, s0, w);
        world.Do(was, Store(w, expiredAt));
        OwnWrite(world.cfg, s0, Store(w, expiredAt), world.s, w);
      }
      world.Interfere(was, w);
      ghost var s1 := world.s;
      OwnerMay(world.cfg, s1, w);
      world.Do(was, Action.Send(w));
      OwnWrite(world.cfg, s1, Action.Send(w), world.s, w);
      var id := world.s.sessions[w].phase.id;
      SentNow(world.s, w);
      ghost var s2 := world.s;
      world.Interfere(was, w);
      SentStays(s2, world.s, id, key, amount);
      var res: SendResult := *;
      if res == Permanent {
        FailSweep(was);
        return FailedRow;
      }
      var written: bool := *;
      if written {
        ghost var s3 := world.s;
        OwnerMay(world.cfg, s3, w);
        world.Do(was, MarkSent(w, res == Accepted));
        SentStays(s3, world.s, id, key, amount);
      }
      r := Sent(id);
    }

    /** failSweep on the worker's own row: no guard, and a lost write goes unnoticed. */
    method FailSweep(ghost was: State)
      requires world.From(was) && Owns(world.s, w)
      modifies world
      ensures world.From(was)
    {
      hide Led, Later, Enabled, Apply;
      var written: bool := *;
      if written {
        OwnFails(world.cfg, world.s, w);
        world.Do(was, FailOwn(w));
      }
    }

    // --------------------------------------------------------------------- a round

    /** The first addresses, up to the limit, with a confirmed, unswept deposit of the
        token that is not internal; of these, the deposit wallets. */
    method Candidates(contract: string, limit: nat, isDeposit: string -> bool) returns (keys: seq<Key>, found: seq<Key>)
      ensures AreCandidates(world.s, contract, limit, isDeposit, keys, found)
    {
      var all: seq<Key> := [];
      var i := 0;
      while i < |world.s.deps| && |all| < limit
        invariant 0 <= i <= |world.s.deps| && |all| <= limit
        invariant forall j, k :: 0 <= j < k < |all| ==> all[j] != all[k]
        invariant forall key :: key in all ==> key.contract == contract && HasOpen(world.s.deps, i, key)
        invariant forall j :: 0 <= j < i && Open(world.s.deps[j], contract) ==> world.s.deps[j].key in all
      {
        var d := world.s.deps[i];
        if Open(d, contract) && d.key !in all {
          all := all + [d.key];
        }
        i := i + 1;
      }
      assert i < |world.s.deps| ==> forall key :: key in all && HasOpen(world.s.deps, i, key) ==> HasOpen(world.s.deps, |world.s.deps|, key);
      found, keys := all, [];
      var k := 0;
      while k < |all|
        invariant 0 <= k <= |all| && forall key :: key in keys <==> key in all[..k] && isDeposit(key.address)
        invariant forall i, j :: 0 <= i < j < |keys| ==> keys[i] != keys[j]
      {
        assert all[..k + 1] == all[..k] + [all[k]];
        if isDeposit(all[k].address) {
          keys := keys + [all[k]];
        }
        k := k + 1;
      }
      assert all[..k] == all;
    }

    /** One round over the candidates of a token, every one of them: empty addresses are
        closed out, small balances wait until they were skipped often enough or went
        stale, the rest is swept. Every lock is given back. */
    method RoundToken(ghost was: State, contract: string, limit: nat, isDeposit: string -> bool)
      returns (ok: bool, ghost queried: State, ghost keys: seq<Key>, ghost found: seq<Key>, ghost tried: seq<Attempt>)
      requires world.From(was) && w !in world.s.sessions
      modifies world
      ensures world.From(was) && w !in world.s.sessions && (world.reliable ==> ok)
      ensures ok ==> Led(world.cfg, was, queried) && Led(world.cfg, queried, world.s) && |tried| == |keys|
      ensures ok ==> AreCandidates(queried, contract, limit, isDeposit, keys, found)
      ensures ok ==> forall k :: 0 <= k < |keys| ==> Came(world.s, keys[k], tried[k]) && (world.reliable ==> tried[k] != Failing)
    {
      hide Led, Later, Apply, Enabled, AreCandidates, Came;
      world.Interfere(was, w);
      queried, keys, found, tried := world.s, [], [], [];
      var failed := Fails(world.reliable);
      if failed {
        return false, queried, keys, found, tried;
      }
      var candidates, all := Candidates(contract, limit, isDeposit);
      keys, found := candidates, all;
      LedAnew(world.cfg, was, queried);
      var k := 0;
      while k < |candidates|
        invariant 0 <= k <= |candidates| && |tried| == k && keys == candidates && world.From(queried) && w !in world.s.sessions
        invariant forall j :: 0 <= j < k ==> Came(world.s, keys[j], tried[j]) && (world.reliable ==> tried[j] != Failing)
      {
        ghost var mid := world.s;
        LedAnew(world.cfg, queried, mid);
        var r, balance, skips, stale := RoundOne(mid, candidates[k]);
        LedInv(world.cfg, mid, world.s);
        forall j | 0 <= j < k ensures Came(world.s, keys[j], tried[j]) {
          CameStays(mid, world.s, keys[j], tried[j]);
        }
        CameNow(world.s, candidates[k], r, balance);
        LedOn(world.cfg, queried, mid, world.s);
        tried := tried + [r];
        k := k + 1;
      }
      LedOn(world.cfg, was, queried, world.s);
      ok := true;
    }

    /** One candidate. What is sent is its whole balance; below the threshold only
        after it was skipped often enough or went stale. */
    method RoundOne(ghost was: State, key: Key) returns (r: Attempt, balance: int, skips: nat, stale: bool)
      requires world.From(was) && w !in world.s.sessions
      modifies world
      ensures world.From(was) && w !in world.s.sessions && (world.reliable ==> r != Failing)
      ensures r.Sent? ==> balance > 0 && WasSent(world.s, r.id, key, balance)
      ensures r == Closed ==> balance <= 0 && AllSwept(world.s, key)
      ensures r == Nothing ==> balance <= 0 && NeverConfirmed(world.s, key)
      ensures r == Small <==> r != Failing && 0 < balance < minUnits && !stale && !(maxSkips > 0 && skips >= maxSkips)
    {
      hide Led, Later, LockFree, NoActive, MaxId, MarkDeps, Covered, Enabled, Apply, WasSent;
      r, skips := Failing, 0;
      balance := *;
      stale := *;
      world.Interfere(was, w);
      var failed := Fails(world.reliable);
      if failed {
        return;
      }
      ghost var idle := world.s;
      MayRead(world.cfg, idle, w, key);
      world.Do(was, ReadBalance(w, key));
      if balance <= 0 {
        r := MarkSweptEmpty(was, key);
      } else {
        var ok := true;
        if balance < minUnits {
          ok, skips := RecordSkip(was, key);
        }
        if ok {
          var wait := balance < minUnits && !(maxSkips > 0 && skips >= maxSkips) && !stale;
          if wait {
            r := Small;
          } else {
            r := SweepOne(was, key, balance);
          }
        }
      }
      ghost var left := world.s;
      Leave(was);
      if r.Sent? { SentStays(left, world.s, r.id, key, balance); }
    }

    // ------------------------------------------------------------------ reconcile

    /** The first rows, up to the limit, that are signed and in flight. */
    method Query(limit: nat) returns (ids: seq<nat>, rows: seq<Sweep>)
      ensures IsBatch(world.s, ids, limit) && |rows| == |ids|
      ensures forall k :: 0 <= k < |ids| ==> world.s.sweeps[ids[k]] == rows[k]
    {
      ids, rows := [], [];
      var i := 0;
      while i < |world.s.sweeps| && |ids| < limit
        invariant 0 <= i <= |world.s.sweeps| && |ids| == |rows| <= limit
        invariant forall k :: 0 <= k < |ids| ==> ids[k] < i && world.s.sweeps[ids[k]] == rows[k] && OnNetwork(rows[k])
        invariant forall j, k :: 0 <= j < k < |ids| ==> ids[j] < ids[k]
        invariant forall j: nat :: j < i && OnNetwork(world.s.sweeps[j]) ==> j in ids
      {
        if OnNetwork(world.s.sweeps[i]) {
          ids, rows := ids + [i], rows + [world.s.sweeps[i]];
        }
        i := i + 1;
      }
    }

    /** The loop has read the batch. */
    method TakeAll(ghost was: State, ids: seq<nat>)
      requires world.From(was) && forall k :: 0 <= k < |ids| ==> ids[k] < |world.s.sweeps| && OnNetwork(world.s.sweeps[ids[k]])
      modifies world
      ensures world.From(was) && world.s.sweeps == old(world.s.sweeps)
      ensures forall k :: 0 <= k < |ids| ==> HasCopy(world.s, w, ids[k])
    {
      hide Led, Later;
      var k := 0;
      while k < |ids|
        invariant 0 <= k <= |ids| && world.From(was) && world.s.sweeps == old(world.s.sweeps)
        invariant forall j :: 0 <= j < k ==> HasCopy(world.s, w, ids[j])
      {
        world.Do(was, Take(w, ids[k]));
        k := k + 1;
      }
    }

    /** The unlocked loop: each row of the batch by its receipt, if it has one. */
    method Reconcile(ghost was: State)
      returns (ok: bool, ghost queried: State, ghost ids: seq<nat>, ghost results: seq<Outcome>)
      requires world.From(was)
      modifies world
      ensures world.From(was) && (world.reliable ==> ok)
      ensures ok ==> Led(world.cfg, was, queried) && Led(world.cfg, queried, world.s) && IsBatch(queried, ids, 100) && |results| == |ids|
      ensures ok ==> forall k :: 0 <= k < |ids| ==> Noted(world.cfg, world.s, ids[k], queried.sweeps[ids[k]], results[k])
      ensures ok && world.reliable ==> forall k :: 0 <= k < |ids| ==> Through(results[k], world.signs(queried.sweeps[ids[k]].key))
    {
      hide Led, Later, OnNetwork, CopyOf, Noted, HasCopy;
      world.Interfere(was, w);
      queried, ids, results := world.s, [], [];
      var failed := Fails(world.reliable);
      if failed {
        return false, queried, ids, results;
      }
      var work, rows := Query(100);
      ids := work;
      LedAnew(world.cfg, was, queried);
      TakeAll(queried, work);
      CopiesTaken(world.cfg, queried, world.s, w, work, rows);
      var k := 0;
      while k < |work|
        invariant 0 <= k <= |work| && |results| == k && ids == work && world.From(queried)
        invariant forall j :: k <= j < |work| ==> CopyOf(world.cfg, world.s, w, work[j], rows[j])
        invariant forall j :: 0 <= j < k ==> Noted(world.cfg, world.s, work[j], rows[j], results[j])
        invariant world.reliable ==> forall j :: 0 <= j < k ==> Through(results[j], world.signs(rows[j].key))
      {
        ghost var mid := world.s;
        LedAnew(world.cfg, queried, mid);
        var r := ReconcileRow(mid, work[k], rows[k]);
        LedInv(world.cfg, mid, world.s);
        forall j | 0 <= j < k ensures Noted(world.cfg, world.s, work[j], rows[j], results[j]) {
          NotedStays(world.cfg, mid, world.s, work[j], rows[j], results[j]);
        }
        forall j | k < j < |work| ensures CopyOf(world.cfg, world.s, w, work[j], rows[j]) {
          CopyStays(world.cfg, mid, world.s, w, work[j], rows[j]);
        }
        LedOn(world.cfg, queried, mid, world.s);
        results := results + [r];
        k := k + 1;
      }
      LedOn(world.cfg, was, queried, world.s);
      ok := true;
    }

    method Forget(ghost was: State, id: nat)
      requires world.From(was)
      modifies world
      ensures world.From(was) && world.s == Dropped(old(world.s), w, id)
    {
      hide Led, Later;
      if (w, id) in world.s.copies {
        world.Do(was, Drop(w, id));
      } else {
        assert world.s.copies - {(w, id)} == world.s.copies;
      }
    }

    /** One row from a copy read earlier: failed or confirmed by its receipt, or else
        sent again or released. */
    method ReconcileRow(ghost was: State, id: nat, row: Sweep) returns (r: Outcome)
      requires world.From(was) && CopyOf(world.cfg, world.s, w, id, row)
      modifies world
      ensures world.From(was) && OtherCopies(old(world.s), world.s, w, id) && (w, id) !in world.s.copies
      ensures Noted(world.cfg, world.s, id, row, r) && Settles(world.s, id, r)
      ensures world.reliable ==> Through(r, world.signs(row.key))
    {
      hide Led, Later, MarkDeps, Covered, Enabled, Apply, CopyOf, Settled;
      ghost var start := world.s;
      world.Interfere(was, w);
      CopyStays(world.cfg, start, world.s, w, id, row);
      var failed := Fails(world.reliable);
      var included: bool := *;
      var succeeded: bool := *;
      if failed {
        r := Interrupted;
      } else if !included {
        var now;
        r, now := SettleAbsent(was, id, row);
      } else {
        r := SettleByReceipt(was, id, row, succeeded);
      }
      ghost var done := world.s;
      Forget(was, id);
      StillNoted(world.cfg, done, world.s, id, row, r);
    }

    /** A failed receipt fails the row whatever its status; a successful one confirms it
        if it is still in flight. */
    method SettleByReceipt(ghost was: State, id: nat, row: Sweep, succeeded: bool) returns (r: Outcome)
      requires world.From(was) && CopyOf(world.cfg, world.s, w, id, row)
      modifies world
      ensures world.From(was) && OtherCopies(old(world.s), world.s, w, id)
      ensures Noted(world.cfg, world.s, id, row, r) && Settles(world.s, id, r)
      ensures r == (if succeeded then ConfirmedOnChain else FailedOnChain) || (r == Interrupted && !world.reliable)
    {
      hide Led, Later, MarkDeps, Covered, Enabled, Apply;
      ghost var start := world.s;
      var failed := Fails(world.reliable);
      if failed {
        return Interrupted;
      }
      if !succeeded {
        MayFailRow(world.cfg, start, id, w);
        world.Do(was, FailRow(w, id));
        LoopCopies(world.cfg, start, FailRow(w, id), world.s, w, id);
        r := FailedOnChain;
      } else {
        MayConfirm(world.cfg, start, w, id);
        world.Do(was, ConfirmRow(w, id));
        LoopCopies(world.cfg, start, ConfirmRow(w, id), world.s, w, id);
        r := ConfirmedOnChain;
      }
    }

    /** Not on chain: the stored bytes are sent again until they expire, then the row is
        released. Without stored bytes or expiration nothing is done. */
    method SettleAbsent(ghost was: State, id: nat, row: Sweep) returns (r: Outcome, now: int)
      requires world.From(was) && CopyOf(world.cfg, world.s, w, id, row)
      modifies world
      ensures world.From(was) && OtherCopies(old(world.s), world.s, w, id) && old(world.s.now) <= now <= world.s.now
      ensures Noted(world.cfg, world.s, id, row, r) && Settles(world.s, id, r)
      ensures Expired(row, now) ==> r == Released || (r == Interrupted && !world.reliable)
      ensures !Expired(row, now) && row.raw == "" ==> r == Waiting
      ensures !Expired(row, now) && row.raw != "" ==> r in {Unsigned, Resent, Refused} || (r == Interrupted && !world.reliable)
      ensures world.reliable && world.signs(row.key) ==> r != Unsigned
    {
      hide Led, Later, Enabled, Apply, RowLater;
      ghost var start := world.s;
      world.Interfere(was, w);
      HeadLater(start, world.s);
      CopyStays(world.cfg, start, world.s, w, id, row);
      now := world.s.now;
      if !Expired(row, now) {
        if row.raw == "" {
          r := Waiting;
          return;
        }
        r := Rebroadcast(was, id, row);
        return;
      }
      ghost var read := world.s;
      world.Interfere(was, w);
      HeadLater(read, world.s);
      CopyStays(world.cfg, read, world.s, w, id, row);
      var failed := Fails(world.reliable);
      if failed {
        r := Interrupted;
        return;
      }
      ghost var mid := world.s;
      MayExpire(world.cfg, mid, w, id, row);
      world.Do(was, ExpireRow(w, id));
      LoopCopies(world.cfg, mid, ExpireRow(w, id), world.s, w, id);
      HeadLater(mid, world.s);
      r := Released;
    }

    /** Signs the stored bytes again, and sends them only under the stored txid. A
        permanent refusal fails the row, whatever its status. */
    method Rebroadcast(ghost was: State, id: nat, row: Sweep) returns (r: Outcome)
      requires world.From(was) && CopyOf(world.cfg, world.s, w, id, row) && row.raw != ""
      modifies world
      ensures world.From(was) && OtherCopies(old(world.s), world.s, w, id) && old(world.s.now) <= world.s.now
      ensures Noted(world.cfg, world.s, id, row, r) && Settles(world.s, id, r)
      ensures r in {Unsigned, Resent, Refused} || (r == Interrupted && !world.reliable)
      ensures !world.signs(row.key) ==> r == Unsigned && unchanged(world)
      ensures world.reliable && world.signs(row.key) ==> r != Unsigned
    {
      hide Led, Later, Enabled, Apply, RowLater;
      ghost var start := world.s;
      var unsigned := Fails(world.reliable);
      CopySigned(world.cfg, start, w, id, row);
      if unsigned || !world.signs(row.key) || world.cfg.txidOf(row.raw) != row.txid {
        r := Unsigned;
        return;
      }
      MayResend(world.cfg, start, w, id, row);
      world.Do(was, Resend(w, id));
      LoopCopies(world.cfg, start, Resend(w, id), world.s, w, id);
      HeadLater(start, world.s);
      ghost var sent := world.s;
      CopyStays(world.cfg, start, sent, w, id, row);
      world.Interfere(was, w);
      HeadLater(sent, world.s);
      CopyStays(world.cfg, sent, world.s, w, id, row);
      NotedStays(world.cfg, sent, world.s, id, row, Resent);
      var res: SendResult := *;
      if res != Permanent {
        return Resent;
      }
      r := GiveUp(was, id, row);
    }

    /** The network refused the bytes for good: the row is failed. */
    method GiveUp(ghost was: State, id: nat, row: Sweep) returns (r: Outcome)
      requires world.From(was) && CopyOf(world.cfg, world.s, w, id, row) && row.raw != "" && Noted(world.cfg, world.s, id, row, Refused)
      modifies world
      ensures world.From(was) && OtherCopies(old(world.s), world.s, w, id) && old(world.s.now) <= world.s.now
      ensures Noted(world.cfg, world.s, id, row, r) && Settles(world.s, id, r)
      ensures r == Refused || (r == Interrupted && !world.reliable)
    {
      hide Led, Later, Enabled, Apply, CopyOf;
      var failed := Fails(world.reliable);
      if failed {
        return Interrupted;
      }
      ghost var mid := world.s;
      MayRefuse(world.cfg, mid, w, id, row);
      world.Do(was, Refuse(w, id));
      LoopCopies(world.cfg, mid, Refuse(w, id), world.s, w, id);
      HeadLater(mid, world.s);
      NotedStays(world.cfg, mid, world.s, id, row, Refused);
      r := Refused;
    }
  }

  predicate Expired(row: Sweep, now: int)
  {
    row.expiredAt.Some? && row.expiredAt.value <= now
  }

  /** A loop's copy of a row, as it was read. */
  predicate CopyOf(cfg: Config, s: State, r: nat, id: nat, row: Sweep)
  {
    HasCopy(s, r, id) && RowLater(row, s.sweeps[id]) && row.txid != "" && RowSound(cfg, row)
  }

  lemma CopyStays(cfg: Config, s: State, s': State, r: nat, id: nat, row: Sweep)
    requires CopyOf(cfg, s, r, id, row) && Later(s, s') && ((r, id) in s.copies ==> (r, id) in s'.copies)
    ensures CopyOf(cfg, s', r, id, row)
  {
    hide RowSound;
    assert RowLater(s.sweeps[id], s'.sweeps[id]);
  }

  /** The txid read is that of the stored bytes. */
  lemma CopySigned(cfg: Config, s: State, r: nat, id: nat, row: Sweep)
    requires CopyOf(cfg, s, r, id, row) && row.raw != ""
    ensures cfg.txidOf(row.raw) == row.txid
  {
  }

  lemma CopiesTaken(cfg: Config, queried: State, s: State, r: nat, ids: seq<nat>, rows: seq<Sweep>)
    requires Led(cfg, queried, s) && s.sweeps == queried.sweeps && |ids| == |rows|
    requires forall k :: 0 <= k < |ids| ==> HasCopy(s, r, ids[k]) && queried.sweeps[ids[k]] == rows[k] && OnNetwork(rows[k])
    ensures forall k :: 0 <= k < |ids| ==> CopyOf(cfg, s, r, ids[k], rows[k])
  {
    hide OwnersSound, CopiesSound, DepsSound, BoundsSound, MarksSound, LocksExclusive, OneActive, Reaches, Later;
  }

  /** The other rows of the batch are still to be dealt with. */
  ghost predicate OtherCopies(s: State, s': State, r: nat, id: nat)
  {
    forall i: nat :: i != id && (r, i) in s.copies ==> (r, i) in s'.copies
  }

  lemma {:induction false} LoopCopies(cfg: Config, s: State, a: Action, s': State, r: nat, id: nat)
    requires Next(cfg, s, a, s') && LoopOf(a) == Some(r) && a.id == id
    ensures OtherCopies(s, s', r, id) && (a.Resend? ==> s'.copies == s.copies)
  {
    hide LockFree, NoActive, MaxId, MarkDeps, Covered;
  }

  /** What a result says about the network and the clock. */
  predicate Noted(cfg: Config, s: State, id: nat, row: Sweep, r: Outcome)
  {
    match r
    case Resent => (id, row.raw) in s.sent && cfg.txidOf(row.raw) == row.txid
    case Refused => (id, row.raw) in s.sent && cfg.txidOf(row.raw) == row.txid
    case Released => Expired(row, s.now)
    case Waiting => row.raw == "" && row.expiredAt.None?
    case _ => true
  }

  /** What it says about the row just settled. */
  predicate Settles(s: State, id: nat, r: Outcome)
  {
    match r
    case Refused => RowIs(s, id, Failed)
    case FailedOnChain => RowIs(s, id, Failed)
    case Released => id < |s.sweeps| && !Reconcilable(s.sweeps[id].status)
    case ConfirmedOnChain => id < |s.sweeps| && Settled(s, id)
    case _ => true
  }

  /** Nothing failed on the way to this result. */
  predicate Through(r: Outcome, signs: bool)
  {
    r != Interrupted && (signs ==> r != Unsigned)
  }

  lemma NotedStays(cfg: Config, s: State, s': State, id: nat, row: Sweep, r: Outcome)
    requires Noted(cfg, s, id, row, r) && Later(s, s')
    ensures Noted(cfg, s', id, row, r)
  {
  }

  /** The rows signed and in flight, oldest first, none left out below the limit. */
  predicate IsBatch(s: State, ids: seq<nat>, limit: nat)
  {
    && |ids| <= limit && (forall j, k :: 0 <= j < k < |ids| ==> ids[j] < ids[k])
    && (forall k :: 0 <= k < |ids| ==> ids[k] < |s.sweeps| && OnNetwork(s.sweeps[ids[k]]))
    && (|ids| < limit ==> forall i: nat :: i < |s.sweeps| && OnNetwork(s.sweeps[i]) ==> i in ids)
  }

  /** Right after its confirmation a row is out of flight, every deposit it covers is
      swept and its skip counter is gone. */
  predicate Settled(s: State, id: nat)
    requires id < |s.sweeps|
  {
    var row := s.sweeps[id];
    && !Reconcilable(row.status) && row.key !in s.skips
    && forall i :: 0 <= i < |s.deps| ==> !Covered(s.deps[i], i, row.key, row.depositMaxId)
  }

  lemma {:induction false} NoneLeft(deps: seq<Dep>, key: Key, maxId: nat)
    ensures forall i :: 0 <= i < |deps| ==> !Covered(MarkDeps(deps, key, maxId)[i], i, key, maxId)
    ensures maxId == 0 ==> forall i :: 0 <= i < |deps| ==> !Unswept(MarkDeps(deps, key, maxId)[i], key)
  {
    hide MarkDeps;
    forall i | 0 <= i < |deps| ensures !Covered(MarkDeps(deps, key, maxId)[i], i, key, maxId) {
      MarkDepsAt(deps, key, maxId, i);
    }
  }

  lemma MayConfirm(cfg: Config, s: State, r: nat, id: nat)
    requires HasCopy(s, r, id)
    ensures Enabled(cfg, s, ConfirmRow(r, id))
    ensures var s' := Apply(cfg, s, ConfirmRow(r, id)); id < |s'.sweeps| && Settled(s', id)
  {
    hide MarkDeps, Covered;
    NoneLeft(s.deps, s.sweeps[id].key, s.sweeps[id].depositMaxId);
  }

  lemma MayRead(cfg: Config, s: State, w: nat, key: Key)
    requires w !in s.sessions
    ensures Enabled(cfg, s, ReadBalance(w, key))
    ensures var s' := Apply(cfg, s, ReadBalance(w, key)); Has(s', w) && s'.sessions[w].phase.Reading? && s'.sessions[w].key == key
  {
  }

  lemma MayResend(cfg: Config, s: State, r: nat, id: nat, row: Sweep)
    requires CopyOf(cfg, s, r, id, row) && row.raw != ""
    ensures Enabled(cfg, s, Resend(r, id)) && (id, row.raw) in Apply(cfg, s, Resend(r, id)).sent
  {
  }

  lemma MayRefuse(cfg: Config, s: State, r: nat, id: nat, row: Sweep)
    requires CopyOf(cfg, s, r, id, row) && row.raw != ""
    ensures Enabled(cfg, s, Refuse(r, id)) && RowIs(Apply(cfg, s, Refuse(r, id)), id, Failed)
  {
  }

  lemma MayExpire(cfg: Config, s: State, r: nat, id: nat, row: Sweep)
    requires CopyOf(cfg, s, r, id, row) && Expired(row, s.now)
    ensures Enabled(cfg, s, ExpireRow(r, id))
    ensures var s' := Apply(cfg, s, ExpireRow(r, id)); id < |s'.sweeps| && !Reconcilable(s'.sweeps[id].status)
  {
  }

  /** Forgetting the copy changes nothing else. */
  lemma StillNoted(cfg: Config, s: State, s': State, id: nat, row: Sweep, r: Outcome)
    requires s' == s.(copies := s'.copies) && Noted(cfg, s, id, row, r) && Settles(s, id, r)
    ensures Noted(cfg, s', id, row, r) && Settles(s', id, r)
  {
    hide Covered;
  }

  /** A deposit that makes its address a candidate. */
  predicate Open(d: Dep, contract: string)
  {
    d.confirmed && !d.swept && !d.internal && d.key.contract == contract
  }

  /** No deposit of the key is left to sweep. */
  predicate AllSwept(s: State, key: Key)
  {
    forall i :: 0 <= i < |s.deps| ==> !Unswept(s.deps[i], key)
  }

  predicate NeverConfirmed(s: State, key: Key)
  {
    forall i :: 0 <= i < |s.sweeps| && s.sweeps[i].key == key ==> s.sweeps[i].status != Confirmed
  }

  /** Of the first addresses, up to the limit, with an open deposit of the token, those
      of deposit wallets. */
  ghost predicate AreCandidates(s: State, contract: string, limit: nat, isDeposit: string -> bool, keys: seq<Key>, found: seq<Key>)
  {
    && |found| <= limit && (forall key :: key in keys <==> key in found && isDeposit(key.address))
    && (forall i, j :: 0 <= i < j < |keys| ==> keys[i] != keys[j])
    && (forall key :: key in found ==> key.contract == contract && HasOpen(s.deps, |s.deps|, key))
    && (|found| < limit ==> forall i :: 0 <= i < |s.deps| && Open(s.deps[i], contract) ==> s.deps[i].key in found)
  }

  predicate HasOpen(deps: seq<Dep>, n: nat, key: Key)
    requires n <= |deps|
  {
    exists i :: 0 <= i < n && deps[i].key == key && Open(deps[i], key.contract)
  }

  predicate WasSent(s: State, id: nat, key: Key, amount: int)
  {
    id < |s.sweeps| && s.sweeps[id].key == key && s.sweeps[id].amount == amount && s.sweeps[id].body != "" && (id, s.sweeps[id].body) in s.sent
  }

  /** What a candidate came to: if a body was sent, one of its rows is out. */
  predicate Came(s: State, key: Key, r: Attempt)
  {
    r.Sent? ==> r.id < |s.sweeps| && WasSent(s, r.id, key, s.sweeps[r.id].amount) && s.sweeps[r.id].amount > 0
  }

  lemma CameNow(s: State, key: Key, r: Attempt, balance: int)
    requires r.Sent? ==> balance > 0 && WasSent(s, r.id, key, balance)
    ensures Came(s, key, r)
  {
  }

  lemma CameStays(s: State, s': State, key: Key, r: Attempt)
    requires Came(s, key, r) && Later(s, s')
    ensures Came(s', key, r)
  {
    if r.Sent? { SentStays(s, s', r.id, key, s.sweeps[r.id].amount); }
  }

  lemma SentNow(s: State, w: nat)
    requires Owns(s, w) && OwnRow(s, w).body != "" && (s.sessions[w].phase.id, OwnRow(s, w).body) in s.sent
    ensures WasSent(s, s.sessions[w].phase.id, OwnRow(s, w).key, OwnRow(s, w).amount)
  {
  }

  lemma MayCreate(cfg: Config, s: State, w: nat, amount: int)
    requires Has(s, w) && s.sessions[w].phase.Ready?
    ensures Enabled(cfg, s, Create(w, amount))
  {
  }

  lemma SentStays(s: State, s': State, id: nat, key: Key, amount: int)
    requires WasSent(s, id, key, amount) && Later(s, s')
    ensures WasSent(s', id, key, amount)
  {
    assert RowLater(s.sweeps[id], s'.sweeps[id]);
  }

  lemma MayAcquire(cfg: Config, s: State, w: nat)
    requires Has(s, w) && s.sessions[w].phase.Reading? && LockFree(cfg, s, s.sessions[w].key)
    ensures Enabled(cfg, s, Acquire(w))
    ensures Apply(cfg, s, Acquire(w)) == Move(s, w, Locked(s.sessions[w].phase.readAt))
  {
    hide LockFree;
  }

  lemma MayGoIdle(cfg: Config, s: State, w: nat)
    requires Has(s, w) && s.sessions[w].phase.Locked? && NoActive(s, s.sessions[w].key)
    ensures Enabled(cfg, s, CheckIdle(w))
    ensures Apply(cfg, s, CheckIdle(w)) == Move(s, w, Idle(s.sessions[w].phase.readAt))
  {
    hide NoActive;
  }

  lemma MayBeReady(cfg: Config, s: State, w: nat, maxId: nat)
    requires Has(s, w) && s.sessions[w].phase.Idle? && maxId == MaxId(s, s.sessions[w].key, |s.deps|)
    ensures Enabled(cfg, s, ReadMaxId(w))
    ensures Apply(cfg, s, ReadMaxId(w)) == Move(s, w, Ready(s.sessions[w].phase.readAt, maxId, s.head))
  {
    hide MaxId;
  }

  /** An owner with a body may store it, send it and note that it was sent. */
  lemma OwnerMay(cfg: Config, s: State, w: nat)
    requires Owns(s, w)
    ensures Enabled(cfg, s, HaveEnergy(w))
    ensures OwnRow(s, w).body != "" && OwnRow(s, w).raw == "" ==> forall e :: Enabled(cfg, s, Store(w, e))
    ensures OwnRow(s, w).body != "" ==> Enabled(cfg, s, Send(w)) && forall b :: Enabled(cfg, s, MarkSent(w, b))
  {
  }

  lemma MaySign(cfg: Config, s: State, w: nat, body: string)
    requires Owns(s, w) && OwnRow(s, w).body == "" && body != ""
    ensures Enabled(cfg, s, Sign(w, body))
  {
  }

  /** Its writes keep what was asked for and what was signed. */
  lemma {:induction false} OwnWrite(cfg: Config, s: State, a: Action, s': State, w: nat)
    requires Owns(s, w) && Next(cfg, s, a, s') && Actor(a) == Some(w)
    requires a.HaveEnergy? || a.Sign? || a.Store? || a.Send? || a.MarkSent?
    ensures s'.sessions == s.sessions && Owns(s', w)
    ensures OwnRow(s', w).key == OwnRow(s, w).key && OwnRow(s', w).amount == OwnRow(s, w).amount
    ensures OwnRow(s', w).body == if a.Sign? then a.body else OwnRow(s, w).body
    ensures !a.Store? ==> OwnRow(s', w).raw == OwnRow(s, w).raw
    ensures a.Send? ==> (s.sessions[w].phase.id, OwnRow(s, w).body) in s'.sent
  {
    hide LockFree, NoActive, MaxId, MarkDeps, Covered;
  }

  lemma {:induction false} RowCreated(cfg: Config, s: State, w: nat, amount: int, s': State)
    requires Next(cfg, s, Create(w, amount), s')
    ensures Owns(s', w) && OwnRow(s', w).key == s.sessions[w].key && OwnRow(s', w).amount == amount
    ensures OwnRow(s', w).body == OwnRow(s', w).raw == ""
  {
    hide LockFree, NoActive, MaxId, MarkDeps, Covered;
  }

  lemma OwnFails(cfg: Config, s: State, w: nat)
    requires Owns(s, w)
    ensures Enabled(cfg, s, FailOwn(w))
  {
  }
}
