/** When the balance check fails its purpose: exactly without a single signer or with a
    settlement between its two reads. One run each, in which every signing passed the
    comparison of checkBalance and the hot wallet still ends up short. */
module HotWalletLimits {
  import opened Wrappers
  import opened ChainLog
  import opened WithdrawState
  import opened WithdrawLimits
  import opened HotWallet

  /** A run in a sound deployment whose signings all passed the comparison, and which
      ends with less in the wallet than the orders in flight will take. */
  ghost predicate Overdrawn(cfg: Config, states: seq<State>, actions: seq<Action>, c: string, unsettled: bool, alone: bool)
  {
    && Deployed(cfg, states, actions)
    && AllCompared(cfg, states, actions, c, unsettled, alone)
    && Pending(cfg, states[|actions|], |states[|actions|].chain|, c) > Balance(cfg, states[|actions|], c)
  }

  /** Two orders of one token and amount, and a body for each. */
  predicate Pair(cfg: Config, o: Order, p: Order, r1: string, r2: string)
  {
    && Fresh(cfg, o) && Fresh(cfg, p) && o.orderNo != p.orderNo
    && SignedFor(cfg, o, r1) && SignedFor(cfg, p, r2) && cfg.txidOf(r1) != cfg.txidOf(r2)
    && o.contract == p.contract && o.amount == p.amount
    && cfg.token(o.symbol) == Some(o.contract) && cfg.token(p.symbol) == Some(p.contract)
    && cfg.solidityConfirm && cfg.honest && cfg.expiry(r1) > 0
  }

  function Signed0(cfg: Config, o: Order, raw: string): (o': Order)
  {
    SignedOrder(cfg, o, raw, cfg.expiry(raw) + cfg.latency)
  }

  function Sign0(cfg: Config, id: nat, raw: string): (r: Action)
  {
    Sign(id, raw, cfg.expiry(raw) + cfg.latency)
  }

  lemma TotalOfTwo(a: Order, b: Order, w: Order -> nat)
    ensures Total([a, b], w) == w(a) + w(b)
  {
    TotalSnoc([], a, w);
    TotalSnoc([a], b, w);
    assert [] + [a] == [a] && [a] + [b] == [a, b];
  }

  function Funded(o: Order, orders: seq<Order>): (s': State)
  {
    Empty.(funded := map[o.contract := Positive(o.amount)], orders := orders)
  }

  /** Two workers read the same balance and the same empty sum, and both sign. */
  lemma {:induction false} SecondSignerOverdraws(cfg: Config, o: Order, p: Order, r1: string, r2: string)
    returns (states: seq<State>, actions: seq<Action>)
    requires Pair(cfg, o, p, r1, r2)
    ensures Overdrawn(cfg, states, actions, o.contract, true, false)
  {
    hide Next, SignedFor, Compared, Balance, InChain, Funded, Signed0, Spent;
    var c := o.contract;
    var o', p' := Signed0(cfg, o, r1), Signed0(cfg, p, r2);
    states := [Empty, Funded(o, []), Funded(o, [o]), Funded(o, [o, p]), Funded(o, [o', p]), Funded(o, [o', p'])];
    actions := [Refill(c, Positive(o.amount)), Submit(o), Submit(p), Sign0(cfg, 0, r1), Sign0(cfg, 1, r2)];
    SecondSignerRun(cfg, o, p, r1, r2);
    assert Run(cfg, states, actions);
    SecondSignerCompared(cfg, states, actions, o, p, r1, r2);
    SecondSignerShort(cfg, o, p, r1, r2);
    assert Overdrawn(cfg, states, actions, c, true, false);
  }

  lemma {:induction false} SecondSignerRun(cfg: Config, o: Order, p: Order, r1: string, r2: string)
    requires Pair(cfg, o, p, r1, r2)
    ensures Next(cfg, Empty, Refill(o.contract, Positive(o.amount)), Funded(o, []))
    ensures Next(cfg, Funded(o, []), Submit(o), Funded(o, [o]))
    ensures Next(cfg, Funded(o, [o]), Submit(p), Funded(o, [o, p]))
    ensures Next(cfg, Funded(o, [o, p]), Sign0(cfg, 0, r1), Funded(o, [Signed0(cfg, o, r1), p]))
    ensures Next(cfg, Funded(o, [Signed0(cfg, o, r1), p]), Sign0(cfg, 1, r2), Funded(o, [Signed0(cfg, o, r1), Signed0(cfg, p, r2)]))
  {
    hide DecodeLog, EventKey;
  }

  lemma {:induction false} SecondSignerCompared(cfg: Config, states: seq<State>, actions: seq<Action>, o: Order, p: Order, r1: string, r2: string)
    requires Pair(cfg, o, p, r1, r2) && |states| == |actions| + 1 == 6
    requires states[3] == Funded(o, [o, p]) && states[4] == Funded(o, [Signed0(cfg, o, r1), p])
    requires actions[3] == Sign0(cfg, 0, r1) && actions[4] == Sign0(cfg, 1, r2)
    ensures Compared(cfg, states, actions, 3, o.contract, true, false) && Compared(cfg, states, actions, 4, o.contract, true, false)
  {
    hide SignedFor;
    TotalOfTwo(o, p, InFlightWeight(o.contract));
    assert ComparedAt(cfg, states, actions, 3, 3, 3, o.contract, true, false);
    assert ComparedAt(cfg, states, actions, 3, 3, 4, o.contract, true, false);
  }

  lemma {:induction false} SecondSignerShort(cfg: Config, o: Order, p: Order, r1: string, r2: string)
    requires Pair(cfg, o, p, r1, r2)
    ensures var s := Funded(o, [Signed0(cfg, o, r1), Signed0(cfg, p, r2)]);
      Configured(cfg, s) && Pending(cfg, s, |s.chain|, o.contract) > Balance(cfg, s, o.contract)
  {
    TotalOfTwo(Signed0(cfg, o, r1), Signed0(cfg, p, r2), PendingWeight(cfg, [], o.contract));
    assert Funded(o, [Signed0(cfg, o, r1), Signed0(cfg, p, r2)]).chain[..0] == [];
  }

  // ---------------------------------------------- a settlement between the reads

  /** Order o signed and sent, then included, irreversible, and settled. */
  function Sent1(cfg: Config, o: Order, p: Order, r1: string): (s': State)
  {
    Funded(o, [Signed0(cfg, o, r1), p]).(sent := {(0, r1)})
  }

  function Settled1(cfg: Config, o: Order, p: Order, r1: string, info: TxInfo): (s': State)
  {
    var s := PaidState(Sent1(cfg, o, p, r1), r1, info);
    Settle(s, 0, ConfirmedOrder(s.orders[0], info), "success")
  }

  function Resigned1(cfg: Config, o: Order, p: Order, r1: string, info: TxInfo, r2: string): (s': State)
  {
    var s := Settled1(cfg, o, p, r1, info);
    s.(orders := [s.orders[0], Signed0(cfg, p, r2)])
  }

  /** One worker reads the balance, then an order in flight is included and settled,
      then the worker sums what is in flight: that order is counted by neither read. */
  lemma {:induction false} SettlementBetweenReadsOverdraws(cfg: Config, o: Order, p: Order, r1: string, r2: string, info: TxInfo)
    returns (states: seq<State>, actions: seq<Action>)
    requires Pair(cfg, o, p, r1, r2) && PaidBy(cfg, o, r1, info) && cfg.hot != ""
    ensures Overdrawn(cfg, states, actions, o.contract, false, true)
  {
    hide Next, SignedFor, Compared, Balance, InChain, PaidBy, Funded, Sent1, Settled1, Resigned1, PaidState, Spent, OwnLogsOnly;
    var c := o.contract;
    var o' := Signed0(cfg, o, r1);
    var s5 := Sent1(cfg, o, p, r1);
    states := [Empty, Funded(o, []), Funded(o, [o]), Funded(o, [o, p]), Funded(o, [o', p]), s5,
               s5.(chain := [Entry(r1, info)]), PaidState(s5, r1, info), Settled1(cfg, o, p, r1, info),
               Resigned1(cfg, o, p, r1, info, r2)];
    actions := [Refill(c, Positive(o.amount)), Submit(o), Submit(p), Sign0(cfg, 0, r1), Send(0),
                Include(Entry(r1, info)), Solidify(1), Confirm(0, 0), Sign0(cfg, 1, r2)];
    SecondSignerRun(cfg, o, p, r1, r2);
    SettledRun(cfg, o, p, r1, r2, info);
    assert Run(cfg, states, actions);
    SettledCompared(cfg, states, actions, o, p, r1, r2, info);
    SettledShort(cfg, o, p, r1, r2, info);
  }

  lemma {:induction false} SettledRun(cfg: Config, o: Order, p: Order, r1: string, r2: string, info: TxInfo)
    requires Pair(cfg, o, p, r1, r2) && PaidBy(cfg, o, r1, info)
    ensures var s4, s5 := Funded(o, [Signed0(cfg, o, r1), p]), Sent1(cfg, o, p, r1);
      var s6, s7, s8 := s5.(chain := [Entry(r1, info)]), PaidState(s5, r1, info), Settled1(cfg, o, p, r1, info);
      && Next(cfg, s4, Send(0), s5) && Next(cfg, s5, Include(Entry(r1, info)), s6) && Next(cfg, s6, Solidify(1), s7)
      && Next(cfg, s7, Confirm(0, 0), s8) && Next(cfg, s8, Sign0(cfg, 1, r2), Resigned1(cfg, o, p, r1, info, r2))
  {
    hide Pays, OwnLogsOnly, EventKey, Enqueue;
    var s5 := Sent1(cfg, o, p, r1);
    ConfirmStep(cfg, PaidState(s5, r1, info), 0, o, r1, info, cfg.expiry(r1) + cfg.latency);
    assert (0, r1) in s5.sent;
    assert [] + [Entry(r1, info)] == [Entry(r1, info)];
  }

  lemma {:induction false} SettledCompared(cfg: Config, states: seq<State>, actions: seq<Action>, o: Order, p: Order, r1: string, r2: string,
                                           info: TxInfo)
    requires Pair(cfg, o, p, r1, r2) && |states| == |actions| + 1 == 10
    requires states[3] == Funded(o, [o, p]) && states[5] == Sent1(cfg, o, p, r1) && states[8] == Settled1(cfg, o, p, r1, info)
    requires actions[3] == Sign0(cfg, 0, r1) && actions[8] == Sign0(cfg, 1, r2)
    ensures Compared(cfg, states, actions, 3, o.contract, false, true) && Compared(cfg, states, actions, 8, o.contract, false, true)
  {
    hide SignedFor;
    TotalOfTwo(o, p, InFlightWeight(o.contract));
    var done := ConfirmedOrder(Signed0(cfg, o, r1), info);
    assert states[8].orders == [done, p];
    TotalOfTwo(done, p, InFlightWeight(o.contract));
    assert ComparedAt(cfg, states, actions, 3, 3, 3, o.contract, false, true);
    assert ComparedAt(cfg, states, actions, 5, 8, 8, o.contract, false, true);
  }

  lemma {:induction false} SettledShort(cfg: Config, o: Order, p: Order, r1: string, r2: string, info: TxInfo)
    requires Pair(cfg, o, p, r1, r2) && PaidBy(cfg, o, r1, info) && cfg.hot != ""
    ensures var s := Resigned1(cfg, o, p, r1, info, r2);
      Configured(cfg, s) && Pending(cfg, s, |s.chain|, o.contract) > Balance(cfg, s, o.contract)
  {
    hide OwnLogsOnly, Pays, Moves;
    var s := Resigned1(cfg, o, p, r1, info, r2);
    PaysIffListed(cfg, o.(from := cfg.hot), Entry(r1, info));
    TotalOfTwo(s.orders[0], s.orders[1], PendingWeight(cfg, s.chain, o.contract));
    assert s.chain[..|s.chain|] == s.chain && s.chain[..0] == [];
    assert s.chain == [Entry(r1, info)];
    assert Spend(cfg, s.chain[0], o.contract) == o.amount;
    assert Spent(cfg, s.chain, o.contract) == o.amount;
  }

  /** A comparison under a condition is one without it. */
  lemma {:induction false} Weaker(cfg: Config, states: seq<State>, actions: seq<Action>, c: string, unsettled: bool, alone: bool)
    requires Overdrawn(cfg, states, actions, c, unsettled, alone)
    ensures Overdrawn(cfg, states, actions, c, false, alone) && Overdrawn(cfg, states, actions, c, unsettled, false)
  {
    hide Configured, Next, SignedUnits, InFlightUnits, Balance, Pending, SignsToken;
    forall i | 0 <= i < |actions| && SignsToken(states[i], actions[i], c)
      ensures Compared(cfg, states, actions, i, c, false, alone) && Compared(cfg, states, actions, i, c, unsettled, false)
    {
      var r: nat, q: nat :| ComparedAt(cfg, states, actions, r, q, i, c, unsettled, alone);
      assert ComparedAt(cfg, states, actions, r, q, i, c, false, alone);
      assert ComparedAt(cfg, states, actions, r, q, i, c, unsettled, false);
    }
  }

  /** Signings that all passed the comparison can overdraw the wallet exactly when
      another signing came after the reads or a settlement between them. */
  lemma {:induction false} OverdrawnIff(cfg: Config, o: Order, p: Order, r1: string, r2: string, info: TxInfo, unsettled: bool, alone: bool)
    requires Pair(cfg, o, p, r1, r2) && PaidBy(cfg, o, r1, info) && cfg.hot != ""
    ensures (exists states, actions :: Overdrawn(cfg, states, actions, o.contract, unsettled, alone)) <==> !unsettled || !alone
  {
    hide Overdrawn, Pair, PaidBy;
    if !alone {
      var states, actions := SecondSignerOverdraws(cfg, o, p, r1, r2);
      Weaker(cfg, states, actions, o.contract, true, false);
      assert Overdrawn(cfg, states, actions, o.contract, unsettled, alone);
    } else if !unsettled {
      var states, actions := SettlementBetweenReadsOverdraws(cfg, o, p, r1, r2, info);
      assert Overdrawn(cfg, states, actions, o.contract, unsettled, alone);
    } else {
      forall states, actions ensures !Overdrawn(cfg, states, actions, o.contract, true, true) {
        NeverOverdrawn(cfg, states, actions, o.contract);
      }
    }
  }

  lemma {:induction false} NeverOverdrawn(cfg: Config, states: seq<State>, actions: seq<Action>, c: string)
    ensures !Overdrawn(cfg, states, actions, c, true, true)
  {
    hide AllCompared, Pending, Balance, Configured, Next;
    if Overdrawn(cfg, states, actions, c, true, true) { WalletCoversOrders(cfg, states, actions, |actions|, c); }
  }

  /** Such deployments exist: two orders of 5 and bodies naming them. */
  lemma {:induction false} BothOverdraw()
    ensures exists cfg: Config, o: Order, p: Order, r1: string, r2: string, info: TxInfo ::
              Pair(cfg, o, p, r1, r2) && PaidBy(cfg, o, r1, info) && cfg.hot != ""
  {
    hide PaidBy;
    var cfg, o, raw, info := Instance(true);
    var p := o.(orderNo := o.orderNo + "2");
    assert Pair(cfg, o, p, raw, raw + "x");
  }
}
