/** What one withdraw worker shares with everybody else: the tables and the chain.
    Before every operation of the worker, other workers, the api process and the
    network may take any number of steps. */
module WithdrawWorld {
  import opened Wrappers
  import opened ChainLog
  import opened WithdrawState
  import opened WithdrawSafety
  import opened HotWallet
  import opened WithdrawGuarantees

  /** Steps that are not a withdraw worker's. */
  predicate Outside(a: Action)
  {
    a.Submit? || a.Include? || a.Solidify? || a.Fork? || a.Advance? || a.ReadAbsent? || a.Refuse? || a.Refill?
  }

  ghost predicate OthersRun(cfg: Config, sole: bool, states: seq<State>, actions: seq<Action>)
  {
    Run(cfg, states, actions) && (sole ==> forall i :: 0 <= i < |actions| ==> Outside(actions[i]))
  }

  /** Steps of others; with a sole worker, none of them a worker's. */
  ghost predicate Moved(cfg: Config, sole: bool, s: State, s': State)
  {
    exists states, actions :: OthersRun(cfg, sole, states, actions) && states[0] == s && states[|actions|] == s'
  }

  lemma MovedSelf(cfg: Config, sole: bool, s: State)
    ensures Moved(cfg, sole, s, s)
  {
    assert OthersRun(cfg, sole, [s], []);
  }

  lemma {:induction false} OthersConcat(cfg: Config, sole: bool, s1: seq<State>, a1: seq<Action>, s2: seq<State>, a2: seq<Action>)
    requires OthersRun(cfg, sole, s1, a1) && OthersRun(cfg, sole, s2, a2) && s1[|a1|] == s2[0]
    ensures OthersRun(cfg, sole, s1 + s2[1..], a1 + a2)
    ensures (s1 + s2[1..])[0] == s1[0] && (s1 + s2[1..])[|a1 + a2|] == s2[|a2|]
  {
    hide Next;
    RunConcat(cfg, s1, a1, s2, a2);
  }

  lemma {:induction false} MovedTrans(cfg: Config, sole: bool, s: State, t: State, u: State)
    requires Moved(cfg, sole, s, t) && Moved(cfg, sole, t, u)
    ensures Moved(cfg, sole, s, u)
  {
    hide Next, Outside;
    var s1, a1 :| OthersRun(cfg, sole, s1, a1) && s1[0] == s && s1[|a1|] == t;
    var s2, a2 :| OthersRun(cfg, sole, s2, a2) && s2[0] == t && s2[|a2|] == u;
    OthersConcat(cfg, sole, s1, a1, s2, a2);
  }

  lemma MovedStep(cfg: Config, sole: bool, s: State, t: State, a: Action, t': State)
    requires Moved(cfg, sole, s, t) && Next(cfg, t, a, t') && (sole ==> Outside(a))
    ensures Moved(cfg, sole, s, t')
  {
    hide Next;
    assert OthersRun(cfg, sole, [t, t'], [a]);
    assert Moved(cfg, sole, t, t');
    MovedTrans(cfg, sole, s, t, t');
  }

  lemma MovedReaches(cfg: Config, sole: bool, s: State, s': State)
    requires Moved(cfg, sole, s, s')
    ensures Reaches(cfg, s, s')
  {
    hide Next;
  }

  /** Steps of others neither sign nor settle: slack does not shrink, and what is in
      flight stays. */
  lemma {:induction false} MovedSlack(cfg: Config, s: State, s': State, c: string)
    requires Inv(cfg, s) && Moved(cfg, true, s, s') && Configured(cfg, s')
    ensures s.solid <= |s.chain| && s'.solid <= |s'.chain|
    ensures Slack(cfg, s, s.solid, c) <= Slack(cfg, s', s'.solid, c)
    ensures InFlightUnits(s', c) == InFlightUnits(s, c)
  {
    hide Next, Inv, Configured, Slack, InFlightUnits;
    var states, actions :| OthersRun(cfg, true, states, actions) && states[0] == s && states[|actions|] == s';
    OutsideSlack(cfg, states, actions, |actions|, c);
  }

  lemma {:induction false} OutsideSlack(cfg: Config, states: seq<State>, actions: seq<Action>, n: nat, c: string)
    requires Run(cfg, states, actions) && Inv(cfg, states[0]) && Configured(cfg, states[|actions|]) && n <= |actions|
    requires forall i :: 0 <= i < |actions| ==> Outside(actions[i])
    ensures states[0].solid <= |states[0].chain| && states[n].solid <= |states[n].chain|
    ensures Slack(cfg, states[0], states[0].solid, c) <= Slack(cfg, states[n], states[n].solid, c)
    ensures InFlightUnits(states[n], c) == InFlightUnits(states[0], c)
  {
    hide Next, Inv, Configured, Slack, InFlightUnits;
    InvBounds(cfg, states[0]);
    if n > 0 {
      OutsideSlack(cfg, states, actions, n - 1, c);
      SoundAt(cfg, states, actions, n - 1);
      InvBounds(cfg, states[n - 1]);
      var s, a, s' := states[n - 1], actions[n - 1], states[n];
      assert Next(cfg, s, a, s');
      SlackKept(cfg, s, a, s', c);
      InFlightKept(cfg, s, a, s', c);
    }
  }

  /** A sole worker keeps every token of the hot wallet solvent. */
  ghost predicate Covers(cfg: Config, sole: bool, s: State, s': State)
  {
    sole && Configured(cfg, s') ==> forall c :: Solvent(cfg, s, c) ==> Solvent(cfg, s', c)
  }

  /** What a stretch of execution, the worker's own and others' steps, keeps. */
  ghost predicate Kept(cfg: Config, sole: bool, s: State, s': State)
  {
    && Inv(cfg, s') && DeepIsSolid(cfg, s')
    && Reaches(cfg, s, s') && Later(s, s') && Covers(cfg, sole, s, s')
  }

  lemma {:induction false} KeptSelf(cfg: Config, sole: bool, s: State)
    requires Inv(cfg, s) && DeepIsSolid(cfg, s)
    ensures Kept(cfg, sole, s, s)
  {
    hide Inv, DeepIsSolid, Reaches, Later;
    InvBounds(cfg, s);
    ReachesSelf(cfg, s);
    LaterSelf(s);
  }

  lemma {:induction false} KeptTrans(cfg: Config, sole: bool, s: State, t: State, u: State)
    requires Inv(cfg, s) && Kept(cfg, sole, s, t) && Kept(cfg, sole, t, u)
    ensures Kept(cfg, sole, s, u)
  {
    hide Inv, DeepIsSolid, Reaches, Solvent, Configured, TablesLater, OrdersLater;
    InvBounds(cfg, s);
    ReachesTrans(cfg, s, t, u);
    LaterTrans(s, t, u);
    if sole && Configured(cfg, u) {
      ConfiguredBefore(cfg, t, u);
    }
  }

  lemma {:induction false} MovedKept(cfg: Config, sole: bool, s: State, s': State)
    requires Inv(cfg, s) && DeepIsSolid(cfg, s) && Moved(cfg, sole, s, s')
    ensures Kept(cfg, sole, s, s')
  {
    hide Inv, DeepIsSolid, Reaches, Slack, Configured, TablesLater, OrdersLater, Moved;
    MovedReaches(cfg, sole, s, s');
    ReachInv(cfg, s, s');
    ReachDeep(cfg, s, s');
    if sole && Configured(cfg, s') {
      forall c | Solvent(cfg, s, c) ensures Solvent(cfg, s', c) {
        MovedSlack(cfg, s, s', c);
      }
    }
  }

  lemma {:induction false} ReachDeep(cfg: Config, s: State, s': State)
    requires DeepIsSolid(cfg, s) && Reaches(cfg, s, s')
    ensures DeepIsSolid(cfg, s')
  {
    hide DeepIsSolid, Enabled, Apply;
    var states, actions :| Run(cfg, states, actions) && states[0] == s && states[|actions|] == s';
    if actions != [] {
      assert Next(cfg, states[|actions| - 1], actions[|actions| - 1], states[|actions|]);
    }
  }

  /** A step of the worker other than signing. */
  lemma {:induction false} StepKept(cfg: Config, sole: bool, s: State, a: Action, s': State)
    requires Inv(cfg, s) && DeepIsSolid(cfg, s) && Next(cfg, s, a, s') && !a.Sign?
    ensures Kept(cfg, sole, s, s')
  {
    hide Inv, DeepIsSolid, Reaches, Slack, Configured, Later, Next;
    InvBounds(cfg, s);
    ReachesSelf(cfg, s);
    ReachesStep(cfg, s, s, a, s');
    ReachDeep(cfg, s, s');
    StepInv(cfg, s, a, s');
    StepLater(cfg, s, a, s');
    if sole && Configured(cfg, s') {
      ConfiguredAcross(cfg, s, s');
      forall c | Solvent(cfg, s, c) ensures Solvent(cfg, s', c) {
        SlackKept(cfg, s, a, s', c);
      }
    }
  }

  lemma ConfiguredAcross(cfg: Config, s: State, s': State)
    requires Configured(cfg, s') && Later(s, s')
    ensures Configured(cfg, s)
  {
    ConfiguredBefore(cfg, s, s');
  }

  /** Signing, if the slack covers it whenever the deployment is sound. */
  lemma {:induction false} SignKept(cfg: Config, sole: bool, s: State, a: Action, s': State)
    requires Inv(cfg, s) && DeepIsSolid(cfg, s) && Next(cfg, s, a, s') && a.Sign? && s.solid <= |s.chain|
    requires sole && Configured(cfg, s) ==>
               forall c :: SignsToken(s, a, c) ==> SignedUnits(s, a, c) <= Slack(cfg, s, s.solid, c)
    ensures Kept(cfg, sole, s, s')
  {
    hide Inv, DeepIsSolid, Reaches, Slack, Configured, Later, Next;
    InvBounds(cfg, s);
    ReachesSelf(cfg, s);
    ReachesStep(cfg, s, s, a, s');
    ReachDeep(cfg, s, s');
    StepInv(cfg, s, a, s');
    StepLater(cfg, s, a, s');
    if sole && Configured(cfg, s') {
      ConfiguredAcross(cfg, s, s');
      forall c | Solvent(cfg, s, c) ensures Solvent(cfg, s', c) {
        SignSpends(cfg, s, a, s', c);
      }
    }
  }

  lemma KeptEnds(cfg: Config, sole: bool, s: State, s': State)
    requires Kept(cfg, sole, s, s')
    ensures Inv(cfg, s') && DeepIsSolid(cfg, s') && Later(s, s') && Reaches(cfg, s, s')
  {
  }

  /** A worker's copy of a row: the row may have moved on since. */
  predicate Snapshot(s: State, id: nat, row: Order)
  {
    id < |s.orders| && OrderLater(row, s.orders[id])
  }

  lemma SnapshotStays(s: State, s': State, id: nat, row: Order)
    requires Snapshot(s, id, row) && Later(s, s')
    ensures Snapshot(s', id, row)
  {
    assert OrderLater(s.orders[id], s'.orders[id]);
  }

  /** The slack of token c covers one more transfer of this amount. */
  ghost predicate Room(cfg: Config, sole: bool, s: State, c: string, amount: int)
  {
    sole && Configured(cfg, s) ==> s.solid <= |s.chain| && amount <= Slack(cfg, s, s.solid, c)
  }

  lemma {:induction false} RoomStays(cfg: Config, sole: bool, s: State, s': State, c: string, amount: int)
    requires Inv(cfg, s) && Room(cfg, sole, s, c, amount) && Moved(cfg, sole, s, s') && Later(s, s')
    ensures Room(cfg, sole, s', c, amount)
  {
    hide Inv, Moved, Configured, Slack, Later;
    if sole && Configured(cfg, s') {
      ConfiguredAcross(cfg, s, s');
      MovedSlack(cfg, s, s', c);
    }
  }

  /** checkBalance: a balance read and a later sum leave room for the difference. */
  lemma {:induction false} RoomByCheck(cfg: Config, sole: bool, s: State, s': State, c: string, amount: int)
    requires Inv(cfg, s) && Moved(cfg, sole, s, s') && Later(s, s')
    requires amount + InFlightUnits(s', c) <= Balance(cfg, s, c)
    ensures Room(cfg, sole, s', c, amount)
  {
    hide Inv, Moved, Configured, Slack, Later, InFlightUnits, Balance;
    if sole && Configured(cfg, s') {
      ConfiguredAcross(cfg, s, s');
      MovedSlack(cfg, s, s', c);
      CheckIsCautious(cfg, s, c);
    }
  }

  /** An order's compare-and-swap leaves chain and head alone. */
  lemma RowStepDeep(cfg: Config, s: State, a: Action, id: nat)
    requires Enabled(cfg, s, a) && DeepIsSolid(cfg, s) && Targets(a, id)
    ensures DeepIsSolid(cfg, Apply(cfg, s, a))
  {
    hide Enabled, DecodeLog, EventKey, Enqueue;
  }

  lemma AbsentDeep(cfg: Config, s: State, txid: string)
    requires DeepIsSolid(cfg, s) && forall j :: 0 <= j < |s.chain| ==> cfg.txidOf(s.chain[j].raw) != txid
    ensures Enabled(cfg, s, ReadAbsent(txid)) && DeepIsSolid(cfg, Apply(cfg, s, ReadAbsent(txid)))
  {
  }

  lemma SendDeep(cfg: Config, s: State, id: nat)
    requires DeepIsSolid(cfg, s) && id < |s.orders| && s.orders[id].raw != ""
    ensures Enabled(cfg, s, Send(id)) && DeepIsSolid(cfg, Apply(cfg, s, Send(id)))
  {
  }

  lemma RefuseDeep(cfg: Config, s: State, txid: string)
    requires DeepIsSolid(cfg, s) && (cfg.honest ==> !InChain(cfg, s.chain, txid))
    ensures Enabled(cfg, s, Refuse(txid)) && DeepIsSolid(cfg, Apply(cfg, s, Refuse(txid)))
  {
    hide InChain;
  }

  lemma SentLater(s: State, s': State)
    requires Later(s, s')
    ensures s.sent <= s'.sent
  {
  }

  lemma BodyStays(s: State, s': State, id: nat)
    requires Later(s, s') && id < |s.orders| && s.orders[id].raw != ""
    ensures id < |s'.orders| && s'.orders[id].raw == s.orders[id].raw
  {
    assert OrderLater(s.orders[id], s'.orders[id]);
  }

  // ------------------------------------------------------------ the shared world

  /** What a node made of a broadcast: on its way, unknown, or refused for good. */
  datatype SendResult = Accepted | Unclear(code: string) | Permanent(code: string)

  /** sole says that no other worker runs, reliable that nodes, signer and database
      never fail to answer. The signer signs transfers of allowed contracts only. */
  class World {
    const cfg: Config
    const sole: bool
    const reliable: bool
    const allowed: string -> bool
    var s: State

    constructor (cfg: Config, sole: bool, reliable: bool, allowed: string -> bool)
      ensures this.cfg == cfg && this.sole == sole && this.reliable == reliable && this.allowed == allowed
      ensures s == Empty && From(Empty)
    {
      this.cfg, this.sole, this.reliable, this.allowed, s := cfg, sole, reliable, allowed, Empty;
      EmptyInv(cfg);
      KeptSelf(cfg, sole, Empty);
    }

    /** The worker and everybody else, stepping by the protocol, led from `was` to
        here. */
    ghost predicate From(was: State)
      reads this
    {
      Inv(cfg, was) && Kept(cfg, sole, was, s)
    }

    lemma Ends(was: State)
      requires From(was)
      ensures Inv(cfg, s) && DeepIsSolid(cfg, s)
    {
    }

    /** Anybody else's steps, in any number and order, taking at most `within`. */
    method InterfereBriefly(ghost was: State, within: nat)
      requires From(was)
      modifies this`s
      ensures From(was) && Inv(cfg, s) && Later(old(s), s) && Moved(cfg, sole, old(s), s)
      ensures s.now <= old(s).now + within
    {
      hide Inv, DeepIsSolid, Enabled, Apply, Kept, Moved, Later;
      var until := s.now + within;
      var steps: nat := *;
      KeptEnds(cfg, sole, was, s);
      MovedSelf(cfg, sole, s);
      while steps > 0
        invariant Moved(cfg, sole, old(s), s)
        invariant s.now <= until
      {
        var a: Action := *;
        if (sole ==> Outside(a)) && Enabled(cfg, s, a) {
          var s' := Apply(cfg, s, a);
          if DeepIsSolid(cfg, s') && s'.now <= until {
            MovedStep(cfg, sole, old(s), s, a, s');
            s := s';
          }
        }
        steps := steps - 1;
      }
      MovedKept(cfg, sole, old(s), s);
      KeptEnds(cfg, sole, old(s), s);
      KeptTrans(cfg, sole, was, old(s), s);
    }

    method Interfere(ghost was: State)
      requires From(was)
      modifies this`s
      ensures From(was) && Inv(cfg, s) && Later(old(s), s) && Moved(cfg, sole, old(s), s)
    {
      var within: nat := *;
      InterfereBriefly(was, within);
    }

    /** One step of the worker itself. */
    method Do(ghost was: State, a: Action)
      requires From(was) && Enabled(cfg, s, a) && DeepIsSolid(cfg, Apply(cfg, s, a)) && !a.Sign?
      modifies this`s
      ensures From(was) && Inv(cfg, s) && Later(old(s), s) && s == Apply(cfg, old(s), a)
    {
      hide Inv, DeepIsSolid, Enabled, Apply, Kept, Later;
      KeptEnds(cfg, sole, was, s);
      s := Apply(cfg, s, a);
      StepKept(cfg, sole, old(s), a, s);
      KeptEnds(cfg, sole, old(s), s);
      KeptTrans(cfg, sole, was, old(s), s);
    }

    /** A guarded update of one order, with its outbox row if it settles it. */
    method Update(ghost was: State, id: nat, a: Action)
      requires From(was) && Enabled(cfg, s, a) && Targets(a, id) && !a.Sign?
      modifies this`s
      ensures From(was) && Inv(cfg, s) && Later(old(s), s) && s == Apply(cfg, old(s), a)
    {
      hide Inv, DeepIsSolid, Enabled, Apply, Kept, Later;
      KeptEnds(cfg, sole, was, s);
      RowStepDeep(cfg, s, a, id);
      Do(was, a);
    }

    /** A node is asked for a receipt, on the solidity path only for irreversible
        blocks. It may not answer. A missing txid is a fact others may rely on. */
    method TxInfoById(ghost was: State, txid: string, solidity: bool) returns (ok: bool, info: Option<TxInfo>, k: nat)
      requires From(was)
      modifies this`s
      ensures From(was) && Inv(cfg, s) && Later(old(s), s)
      ensures ok && info.Some? ==> k < |s.chain| && cfg.txidOf(s.chain[k].raw) == txid && s.chain[k].info == info.value
      ensures ok && info.Some? && solidity ==> k < s.solid
      ensures ok && info.None? && !solidity ==> (txid, s.now) in s.absent
      ensures ok && info.None? ==> !InChain(cfg, if solidity then s.chain[..s.solid] else s.chain, txid)
      ensures reliable ==> ok
    {
      hide Inv, DeepIsSolid, Kept, Moved, OrdersLater;
      ok, info, k := false, None, 0;
      Ends(was);
      InvBounds(cfg, s);
      Interfere(was);
      Ends(was);
      var failed := Fails(reliable);
      if failed {
        return;
      }
      InvBounds(cfg, s);
      var limit := if solidity then s.solid else |s.chain|;
      while k < limit && cfg.txidOf(s.chain[k].raw) != txid
        invariant k <= limit
        invariant forall j :: 0 <= j < k ==> cfg.txidOf(s.chain[j].raw) != txid
      {
        k := k + 1;
      }
      ok := true;
      if k < limit {
        info := Some(s.chain[k].info);
      } else if !solidity {
        ghost var mid := s;
        AbsentDeep(cfg, s, txid);
        Do(was, ReadAbsent(txid));
        LaterTrans(old(s), mid, s);
      }
    }

    /** A node is given the signed body of an order. Only an answer that refuses it
        for good says anything about its future. */
    method Send(ghost was: State, id: nat, raw: string) returns (r: SendResult)
      requires From(was) && id < |s.orders| && s.orders[id].raw == raw != ""
      modifies this`s
      ensures From(was) && Inv(cfg, s) && Later(old(s), s)
      ensures r.Accepted? ==> (id, raw) in s.sent
      ensures r.Permanent? ==> cfg.txidOf(raw) in s.dead
      ensures reliable ==> (id, raw) in s.sent && !r.Unclear?
    {
      hide Inv, DeepIsSolid, Kept, Moved, InChain, Later;
      Ends(was);
      InvBounds(cfg, s);
      Interfere(was);
      Ends(was);
      BodyStays(old(s), s, id);
      var failed := Fails(reliable);
      if failed {
        return Unclear("node_error");
      }
      ghost var ready := s;
      SendDeep(cfg, s, id);
      Do(was, Action.Send(id));
      assert (id, raw) in s.sent;
      LaterTrans(old(s), ready, s);
      ghost var sent := s;
      Interfere(was);
      SentLater(sent, s);
      LaterTrans(old(s), sent, s);
      Ends(was);
      var accepted: bool := *;
      if accepted || (cfg.honest && InChain(cfg, s.chain, cfg.txidOf(raw))) {
        return Accepted;
      }
      var lost := Fails(reliable);
      var code := AnyText();
      if lost {
        return Unclear(code);
      }
      ghost var mid := s;
      RefuseDeep(cfg, s, cfg.txidOf(raw));
      Do(was, Refuse(cfg.txidOf(raw)));
      assert cfg.txidOf(raw) in s.dead;
      SentLater(mid, s);
      LaterTrans(old(s), mid, s);
      r := Permanent(code);
    }

    /** The compare-and-swap from created to signed. */
    method DoSign(ghost was: State, id: nat, raw: string, expiredAt: int)
      requires From(was) && IsOrder(s, id, Created) && SignedFor(cfg, s.orders[id], raw)
      requires Room(cfg, sole, s, cfg.token(s.orders[id].symbol).value, s.orders[id].amount)
      modifies this`s
      ensures From(was) && Inv(cfg, s) && Later(old(s), s) && s == Apply(cfg, old(s), Sign(id, raw, expiredAt))
    {
      hide Inv, DeepIsSolid, Apply, Kept, Later, Configured, Slack, SignedFor, Room, Enabled, SignsToken, SignedUnits, IsOrder;
      KeptEnds(cfg, sole, was, s);
      InvBounds(cfg, s);
      var a := Sign(id, raw, expiredAt);
      SignReady(cfg, s, id, raw, expiredAt);
      SignFits(cfg, sole, s, id, raw, expiredAt);
      s := Apply(cfg, s, a);
      SignKept(cfg, sole, old(s), a, s);
      KeptEnds(cfg, sole, old(s), s);
      KeptTrans(cfg, sole, was, old(s), s);
    }
  }

  lemma SignReady(cfg: Config, s: State, id: nat, raw: string, expiredAt: int)
    requires DeepIsSolid(cfg, s) && IsOrder(s, id, Created) && SignedFor(cfg, s.orders[id], raw)
    ensures Enabled(cfg, s, Sign(id, raw, expiredAt)) && id < |s.orders| && cfg.token(s.orders[id].symbol).Some?
    ensures DeepIsSolid(cfg, Apply(cfg, s, Sign(id, raw, expiredAt)))
  {
    hide DeepIsSolid;
    RowStepDeep(cfg, s, Sign(id, raw, expiredAt), id);
  }

  lemma {:induction false} SignFits(cfg: Config, sole: bool, s: State, id: nat, raw: string, expiredAt: int)
    requires id < |s.orders| && SignedFor(cfg, s.orders[id], raw) && s.solid <= |s.chain|
    requires Room(cfg, sole, s, cfg.token(s.orders[id].symbol).value, s.orders[id].amount)
    ensures sole && Configured(cfg, s) ==>
              forall c :: SignsToken(s, Sign(id, raw, expiredAt), c) ==>
                SignedUnits(s, Sign(id, raw, expiredAt), c) <= Slack(cfg, s, s.solid, c)
  {
    hide Slack, Margin;
  }
}
