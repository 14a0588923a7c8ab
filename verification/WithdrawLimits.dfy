/** Where the guarantees stop: each condition of WithdrawGuarantees is needed, shown
    by a run of the protocol that breaks the promise as soon as it is dropped. */
module WithdrawLimits {
  import opened Wrappers
  import opened ChainLog
  import opened WithdrawState
  import opened WithdrawSafety
  import opened WithdrawGuarantees

  predicate Fresh(cfg: Config, o: Order)
  {
    o.status == Created && Unsigned(o) && (o.from == "" || o.from == cfg.hot)
  }

  function SignedOrder(cfg: Config, o: Order, raw: string, expiredAt: int): (o': Order)
  {
    o.(status := Signed, txid := cfg.txidOf(raw), raw := raw, from := cfg.hot, expiredAt := expiredAt)
  }

  /** A receipt a node could serve for the body: the order's transfer, and no other
      transfer of the hot wallet. */
  predicate PaidBy(cfg: Config, o: Order, raw: string, info: TxInfo)
  {
    Pays(cfg, info, o.(from := cfg.hot)) && OwnLogsOnly(cfg, Entry(raw, info))
  }

  /** One order, signed and broadcast, the clock at `at`. */
  function SentState(cfg: Config, o: Order, raw: string, expiredAt: int, at: int): (s': State)
  {
    Empty.(orders := [SignedOrder(cfg, o, raw, expiredAt)], sent := {(0, raw)}, now := at)
  }

  lemma {:induction false} SentReachable(cfg: Config, o: Order, raw: string, expiredAt: int, at: int)
    requires Fresh(cfg, o) && SignedFor(cfg, o, raw) && cfg.solidityConfirm && at >= 0
    ensures Reaches(cfg, Empty, SentState(cfg, o, raw, expiredAt, at))
  {
    hide Reaches, DecodeLog;
    var s1 := Empty.(orders := [o]);
    var s2 := Empty.(orders := [SignedOrder(cfg, o, raw, expiredAt)]);
    var s3 := s2.(sent := {(0, raw)});
    assert Next(cfg, Empty, Submit(o), s1);
    assert Next(cfg, s1, Sign(0, raw, expiredAt), s2);
    assert Next(cfg, s2, Send(0), s3);
    assert Next(cfg, s3, Advance(0, at), SentState(cfg, o, raw, expiredAt, at));
    ReachesSelf(cfg, Empty);
    ReachesStep(cfg, Empty, Empty, Submit(o), s1);
    ReachesStep(cfg, Empty, s1, Sign(0, raw, expiredAt), s2);
    ReachesStep(cfg, Empty, s2, Send(0), s3);
    ReachesStep(cfg, Empty, s3, Advance(0, at), SentState(cfg, o, raw, expiredAt, at));
  }

  /** Its body included and irreversible. */
  function PaidState(s: State, raw: string, info: TxInfo): (s': State)
  {
    s.(chain := [Entry(raw, info)], solid := 1)
  }

  lemma {:induction false} PaidReachable(cfg: Config, s: State, raw: string, info: TxInfo)
    requires Reaches(cfg, Empty, s) && cfg.solidityConfirm && s.chain == [] && s.solid == 0
    requires (0, raw) in s.sent && s.now < cfg.expiry(raw) && cfg.txidOf(raw) !in s.dead
    requires OwnLogsOnly(cfg, Entry(raw, info))
    ensures Reaches(cfg, Empty, PaidState(s, raw, info))
  {
    hide Reaches, OwnLogsOnly;
    var s1 := s.(chain := [Entry(raw, info)]);
    assert [] + [Entry(raw, info)] == [Entry(raw, info)];
    assert Next(cfg, s, Include(Entry(raw, info)), s1);
    assert Next(cfg, s1, Solidify(1), PaidState(s, raw, info));
    ReachesStep(cfg, Empty, s, Include(Entry(raw, info)), s1);
    ReachesStep(cfg, Empty, s1, Solidify(1), PaidState(s, raw, info));
  }

  /** An order signed with this body and expiration is reported failed while that body
      is irreversibly on the chain and pays it. */
  ghost predicate PaidRow(cfg: Config, s: State, raw: string, expiredAt: int, id: nat, k: nat)
  {
    && IsOrder(s, id, Failed) && s.orders[id].raw == raw && s.orders[id].expiredAt == expiredAt
    && Belongs(s, id, k) && FinalEntry(cfg, s, s.orders[id].txid, k) && Pays(cfg, s.chain[k].info, s.orders[id])
    && EventKey(s.orders[id]) in s.outbox && s.outbox[EventKey(s.orders[id])].result == "failed"
  }

  ghost predicate RefundedAndPaid(cfg: Config, s: State, raw: string, expiredAt: int)
  {
    exists id: nat, k: nat :: PaidRow(cfg, s, raw, expiredAt, id, k)
  }

  /** A body that can be included and pays its order. */
  predicate Payable(cfg: Config, o: Order, raw: string, info: TxInfo)
  {
    Fresh(cfg, o) && SignedFor(cfg, o, raw) && PaidBy(cfg, o, raw, info) && cfg.solidityConfirm && cfg.expiry(raw) > 0
  }

  lemma {:induction false} FailedPaid(cfg: Config, s: State, o: Order, raw: string, info: TxInfo, expiredAt: int, a: Action, s': State)
    requires cfg.solidityConfirm && s.outbox == map[] && s.orders == [SignedOrder(cfg, o, raw, expiredAt)]
    requires s.chain == [Entry(raw, info)] && s.solid == 1 && (0, raw) in s.sent && PaidBy(cfg, o, raw, info)
    requires Next(cfg, s, a, s') && a.Fail? && a.id == 0
    ensures RefundedAndPaid(cfg, s', raw, expiredAt)
  {
    hide Pays, OwnLogsOnly, Proves, EventKey;
    PaysIgnoresOutcome(cfg, info, o.(from := cfg.hot), s'.orders[0]);
    assert PaidRow(cfg, s', raw, expiredAt, 0, 0);
  }

  /** The expiry race: wherever the margin is missing, an inclusion between the absent
      answer and the clock reading leads to a refund of a paid order. */
  lemma {:induction false} MarginIsNeeded(cfg: Config, o: Order, raw: string, info: TxInfo, expiredAt: int)
    requires Payable(cfg, o, raw, info) && !Margin(cfg, SignedOrder(cfg, o, raw, expiredAt))
    ensures exists s :: Reaches(cfg, Empty, s) && RefundedAndPaid(cfg, s, raw, expiredAt)
  {
    hide Reaches, Pays, OwnLogsOnly, RefundedAndPaid, SignedFor, EventKey;
    var readAt := cfg.expiry(raw) - 1;
    var clockAt := readAt + cfg.latency;
    var txid := cfg.txidOf(raw);
    var s1 := SentState(cfg, o, raw, expiredAt, readAt);
    SentReachable(cfg, o, raw, expiredAt, readAt);
    var s2 := s1.(absent := {(txid, readAt)});
    assert Next(cfg, s1, ReadAbsent(txid), s2);
    ReachesStep(cfg, Empty, s1, ReadAbsent(txid), s2);
    var s3 := PaidState(s2, raw, info);
    PaidReachable(cfg, s2, raw, info);
    var s4 := s3.(now := clockAt);
    assert Next(cfg, s3, Advance(0, clockAt), s4);
    ReachesStep(cfg, Empty, s3, Advance(0, clockAt), s4);
    var a := Fail(0, Lapsed(readAt, clockAt), "expired");
    assert Enabled(cfg, s4, a);
    var s5 := Apply(cfg, s4, a);
    ReachesStep(cfg, Empty, s4, a, s5);
    FailedPaid(cfg, s4, o, raw, info, expiredAt, a, s5);
  }

  /** Without an honest network a refused body may still be included, and no expiration
      helps. */
  lemma {:induction false} HonestyIsNeeded(cfg: Config, o: Order, raw: string, info: TxInfo, expiredAt: int)
    requires Payable(cfg, o, raw, info) && !cfg.honest
    ensures exists s :: Reaches(cfg, Empty, s) && RefundedAndPaid(cfg, s, raw, expiredAt)
  {
    hide Reaches, Pays, OwnLogsOnly, RefundedAndPaid, SignedFor, EventKey;
    var txid := cfg.txidOf(raw);
    var s1 := SentState(cfg, o, raw, expiredAt, 0);
    SentReachable(cfg, o, raw, expiredAt, 0);
    var s2 := PaidState(s1, raw, info);
    PaidReachable(cfg, s1, raw, info);
    var s3 := s2.(dead := {txid});
    assert Next(cfg, s2, Refuse(txid), s3);
    ReachesStep(cfg, Empty, s2, Refuse(txid), s3);
    var a := Fail(0, Refused, "sig_error");
    assert Enabled(cfg, s3, a);
    var s4 := Apply(cfg, s3, a);
    ReachesStep(cfg, Empty, s3, a, s4);
    FailedPaid(cfg, s3, o, raw, info, expiredAt, a, s4);
  }

  /** An order signed with a body and a stored expiration can be refunded although that
      body paid it exactly when the expiration lacks the margin or the network includes
      what it refused. */
  lemma {:induction false} RefundedAndPaidIff(cfg: Config, o: Order, raw: string, info: TxInfo, expiredAt: int)
    requires Payable(cfg, o, raw, info)
    ensures (exists s :: Reaches(cfg, Empty, s) && RefundedAndPaid(cfg, s, raw, expiredAt))
            <==> !Margin(cfg, SignedOrder(cfg, o, raw, expiredAt)) || !cfg.honest
  {
    hide Reaches, Payable, PaidRow;
    if !cfg.honest {
      HonestyIsNeeded(cfg, o, raw, info, expiredAt);
    } else if !Margin(cfg, SignedOrder(cfg, o, raw, expiredAt)) {
      MarginIsNeeded(cfg, o, raw, info, expiredAt);
    } else {
      forall s | Reaches(cfg, Empty, s) ensures !RefundedAndPaid(cfg, s, raw, expiredAt) {
        if RefundedAndPaid(cfg, s, raw, expiredAt) {
          var id: nat, k: nat :| PaidRow(cfg, s, raw, expiredAt, id, k);
          PaidRowLacks(cfg, s, raw, expiredAt, id, k);
        }
      }
    }
  }

  lemma {:induction false} PaidRowLacks(cfg: Config, s: State, raw: string, expiredAt: int, id: nat, k: nat)
    requires Reaches(cfg, Empty, s) && cfg.honest && PaidRow(cfg, s, raw, expiredAt, id, k)
    ensures expiredAt < cfg.expiry(raw) + cfg.latency
  {
    hide Reaches, Pays, EventKey;
    if Margin(cfg, s.orders[id]) { RefundedIsUnpaid(cfg, s, id, k); }
  }

  // ---------------------------------------------------------- the token contract

  /** Workers pay out the contract configured for the order's symbol. The receipt of
      an order's own body can carry the order's transfer exactly when that is the
      contract recorded with the order. */
  lemma {:induction false} PaysIffListed(cfg: Config, o: Order, e: Entry)
    requires SignedFor(cfg, o, e.raw) && o.from == cfg.hot != "" && OwnLogsOnly(cfg, e)
    ensures Pays(cfg, e.info, o) <==> Moves(cfg, e) && cfg.token(o.symbol) == Some(o.contract)
  {
    hide DecodeLog;
    if Pays(cfg, e.info, o) {
      var i :| 0 <= i < |e.info.log| && var t := DecodeLog(cfg.codec, e.info.log[i]); t.Some? && Matches(o, t.value);
      assert DecodeLog(cfg.codec, e.info.log[i]) == Some(cfg.intent(e.raw));
    }
    if Moves(cfg, e) && cfg.token(o.symbol) == Some(o.contract) { MovesPaysListed(cfg, o, e); }
  }

  /** So once the configured contract of a symbol differs from the recorded one, the
      tokens leave the hot wallet and the order can still never be confirmed. */
  lemma {:induction false} RelistedOrderNeverConfirms(cfg: Config, s: State, id: nat)
    requires Reaches(cfg, Empty, s) && id < |s.orders| && cfg.hot != ""
    requires forall r, r' :: cfg.txidOf(r) == cfg.txidOf(r') ==> r == r'
    requires cfg.token(s.orders[id].symbol) != Some(s.orders[id].contract)
    ensures s.orders[id].status != Confirmed
  {
    hide Pays, Moves, SignedFor, OwnLogsOnly, Reaches;
    EmptyInv(cfg);
    ReachInv(cfg, Empty, s);
    var o := s.orders[id];
    if o.status == Confirmed {
      assert Justified(cfg, s, o) && OrderShape(cfg, o);
      var k: nat :| FinalEntry(cfg, s, o.txid, k) && Pays(cfg, s.chain[k].info, o);
      assert s.chain[k].raw == o.raw && OwnLogsOnly(cfg, s.chain[k]);
      PaysIffListed(cfg, o, s.chain[k]);
    }
  }

  /** Failed, while a body of it that was included moved the tokens of order o. */
  ghost predicate RefundedRow(cfg: Config, s: State, o: Order, id: nat, k: nat)
  {
    && IsOrder(s, id, Failed) && Margin(cfg, s.orders[id])
    && (s.orders[id].symbol, s.orders[id].contract, s.orders[id].to, s.orders[id].amount) == (o.symbol, o.contract, o.to, o.amount)
    && EventKey(s.orders[id]) in s.outbox && s.outbox[EventKey(s.orders[id])].result == "failed"
    && Belongs(s, id, k) && FinalEntry(cfg, s, s.orders[id].txid, k) && Moves(cfg, s.chain[k])
  }

  ghost predicate RefundedAndMoved(cfg: Config, s: State, o: Order)
  {
    exists id: nat, k: nat :: RefundedRow(cfg, s, o, id, k)
  }

  /** A body that can be included and moves what it encodes. */
  predicate Movable(cfg: Config, o: Order, raw: string, info: TxInfo)
  {
    Fresh(cfg, o) && SignedFor(cfg, o, raw) && Moves(cfg, Entry(raw, info)) && OwnLogsOnly(cfg, Entry(raw, info))
    && cfg.solidityConfirm && cfg.expiry(raw) > 0 && cfg.hot != ""
  }

  /** The run of a relisted order, margin and all: its body moves the tokens for good,
      the receipt does not match the recorded contract, the order is refunded. */
  lemma {:induction false} RelistedOrderIsRefunded(cfg: Config, o: Order, raw: string, info: TxInfo)
    requires Movable(cfg, o, raw, info) && cfg.token(o.symbol) != Some(o.contract)
    ensures exists s :: Reaches(cfg, Empty, s) && RefundedAndMoved(cfg, s, o)
  {
    hide Reaches, Pays, OwnLogsOnly, SignedFor, EventKey, Moves;
    var expiredAt := cfg.expiry(raw) + cfg.latency;
    var s1 := SentState(cfg, o, raw, expiredAt, 0);
    SentReachable(cfg, o, raw, expiredAt, 0);
    var s2 := PaidState(s1, raw, info);
    PaidReachable(cfg, s1, raw, info);
    SignedForSigned(cfg, o, raw, expiredAt);
    PaysIffListed(cfg, SignedOrder(cfg, o, raw, expiredAt), Entry(raw, info));
    var a := Fail(0, Receipt(0), "no_transfer_event");
    assert Enabled(cfg, s2, a);
    var s3 := Apply(cfg, s2, a);
    ReachesStep(cfg, Empty, s2, a, s3);
    assert RefundedRow(cfg, s3, o, 0, 0);
  }

  lemma SignedForSigned(cfg: Config, o: Order, raw: string, expiredAt: int)
    requires SignedFor(cfg, o, raw)
    ensures SignedFor(cfg, SignedOrder(cfg, o, raw, expiredAt), raw)
  {
  }

  /** On an honest network and with the margin, an order can be refunded although its
      tokens left exactly when its recorded contract is not the configured one. */
  lemma {:induction false} RefundedAndMovedIffRelisted(cfg: Config, o: Order, raw: string, info: TxInfo)
    requires cfg.honest && Movable(cfg, o, raw, info)
    ensures (exists s :: Reaches(cfg, Empty, s) && RefundedAndMoved(cfg, s, o)) <==> cfg.token(o.symbol) != Some(o.contract)
  {
    hide Reaches, Movable, RefundedRow;
    if cfg.token(o.symbol) != Some(o.contract) {
      RelistedOrderIsRefunded(cfg, o, raw, info);
    } else {
      forall s | Reaches(cfg, Empty, s) ensures !RefundedAndMoved(cfg, s, o) {
        if RefundedAndMoved(cfg, s, o) {
          var id: nat, k: nat :| RefundedRow(cfg, s, o, id, k);
          ListedRow(cfg, s, o, id, k);
        }
      }
    }
  }

  lemma {:induction false} ListedRow(cfg: Config, s: State, o: Order, id: nat, k: nat)
    requires Reaches(cfg, Empty, s) && cfg.honest && RefundedRow(cfg, s, o, id, k)
    ensures cfg.token(o.symbol) != Some(o.contract)
  {
    hide Reaches, Moves, EventKey, Margin;
    if cfg.token(o.symbol) == Some(o.contract) { RefundedMovesNothing(cfg, s, id, k); }
  }

  // ------------------------------------------------------------ two orders, one body

  /** Confirmed orders are paid by different transactions exactly when their txids
      differ. */
  lemma {:induction false} OwnTransferIffOwnTxid(cfg: Config, s: State, i: nat, j: nat, k: nat, m: nat)
    requires Reaches(cfg, Empty, s) && IsOrder(s, i, Confirmed) && IsOrder(s, j, Confirmed)
    requires FinalEntry(cfg, s, s.orders[i].txid, k) && FinalEntry(cfg, s, s.orders[j].txid, m)
    ensures k == m <==> s.orders[i].txid == s.orders[j].txid
  {
    hide Inv;
    EmptyInv(cfg);
    ReachInv(cfg, Empty, s);
    if s.orders[i].txid == s.orders[j].txid { IncludedOnce(cfg, s, k, m); }
  }

  /** The step signs order i with a body whose txid the row of order j already has. */
  predicate Reuses(cfg: Config, s: State, a: Action, i: nat, j: nat)
  {
    a.Sign? && a.id == i && i != j && j < |s.orders| && s.orders[j].raw != "" && s.orders[j].txid == cfg.txidOf(a.raw)
  }

  /** A body comes into a row by signing it only. */
  lemma {:induction false} BodyOrigin(cfg: Config, s: State, a: Action, s': State, i: nat)
    requires Next(cfg, s, a, s') && i < |s'.orders| && s'.orders[i].raw != ""
    ensures i < |s.orders|
    ensures if a.Sign? && a.id == i then s'.orders[i].txid == cfg.txidOf(a.raw)
            else s.orders[i].raw != "" && s'.orders[i].txid == s.orders[i].txid
  {
    hide Pays, Proves, EventKey, DeepIsSolid, OwnLogsOnly, InChain, SignedFor, Enqueue;
  }

  /** Two rows share a txid only if one was signed with the other's. */
  lemma {:induction false} SharedByReuse(cfg: Config, states: seq<State>, actions: seq<Action>, i: nat, j: nat, n: nat)
    requires Run(cfg, states, actions) && states[0] == Empty && n <= |actions| && i != j
    requires i < |states[n].orders| && j < |states[n].orders| && states[n].orders[i].raw != "" && states[n].orders[j].raw != ""
    requires states[n].orders[i].txid == states[n].orders[j].txid
    ensures exists k :: 0 <= k < |actions| && (Reuses(cfg, states[k], actions[k], i, j) || Reuses(cfg, states[k], actions[k], j, i))
    decreases n
  {
    hide Next;
    var s, a := states[n - 1], actions[n - 1];
    assert Next(cfg, states[n - 1], actions[n - 1], states[n]);
    BodyOrigin(cfg, s, a, states[n], i);
    BodyOrigin(cfg, s, a, states[n], j);
    if !Reuses(cfg, s, a, i, j) && !Reuses(cfg, s, a, j, i) { SharedByReuse(cfg, states, actions, i, j, n - 1); }
  }

  /** A reused txid stays shared. */
  lemma {:induction false} ReuseShares(cfg: Config, states: seq<State>, actions: seq<Action>, i: nat, j: nat, k: nat)
    requires Run(cfg, states, actions) && states[0] == Empty && k < |actions| && Reuses(cfg, states[k], actions[k], i, j)
    ensures var s := states[|actions|];
      i < |s.orders| && j < |s.orders| && s.orders[i].txid == s.orders[j].txid
  {
    hide Inv, TablesLater, Pays, Proves, EventKey, DeepIsSolid, OwnLogsOnly, InChain;
    EmptyInv(cfg);
    RunInv(cfg, states, actions, k + 1);
    Onwards(cfg, states, actions, k + 1);
    assert Next(cfg, states[k], actions[k], states[k + 1]);
    assert OrderLater(states[k + 1].orders[i], states[|actions|].orders[i]);
    assert OrderLater(states[k + 1].orders[j], states[|actions|].orders[j]);
  }

  lemma {:induction false} Onwards(cfg: Config, states: seq<State>, actions: seq<Action>, n: nat)
    requires Run(cfg, states, actions) && n <= |actions| && Inv(cfg, states[n])
    ensures OrdersLater(states[n], states[|actions|])
  {
    hide Inv, OrdersLater, TablesLater, Next;
    assert Run(cfg, states[n..], actions[n..]) by {
      forall i | 0 <= i < |actions[n..]| ensures Next(cfg, states[n..][i], actions[n..][i], states[n..][i + 1]) {
        assert Next(cfg, states[n + i], actions[n + i], states[n + i + 1]);
      }
    }
    RunInv(cfg, states[n..], actions[n..], |actions| - n);
  }

  /** In every run one payment confirms two orders exactly if one of them was signed
      with a body whose txid the other's row already had. */
  lemma {:induction false} SharedPaymentIffReused(cfg: Config, states: seq<State>, actions: seq<Action>, i: nat, j: nat, k: nat, m: nat)
    requires Run(cfg, states, actions) && states[0] == Empty && i != j
    requires var s := states[|actions|]; IsOrder(s, i, Confirmed) && IsOrder(s, j, Confirmed)
    requires var s := states[|actions|]; FinalEntry(cfg, s, s.orders[i].txid, k) && FinalEntry(cfg, s, s.orders[j].txid, m)
    ensures k == m <==>
            exists n :: 0 <= n < |actions| && (Reuses(cfg, states[n], actions[n], i, j) || Reuses(cfg, states[n], actions[n], j, i))
  {
    hide Next, Inv, Reuses;
    var s := states[|actions|];
    assert Reaches(cfg, Empty, s);
    OwnTransferIffOwnTxid(cfg, s, i, j, k, m);
    EmptyInv(cfg);
    ReachInv(cfg, Empty, s);
    ConfirmedHasBody(cfg, s, i);
    ConfirmedHasBody(cfg, s, j);
    if k == m { SharedByReuse(cfg, states, actions, i, j, |actions|); }
    if n :| 0 <= n < |actions| && (Reuses(cfg, states[n], actions[n], i, j) || Reuses(cfg, states[n], actions[n], j, i)) {
      if Reuses(cfg, states[n], actions[n], i, j) {
        ReuseShares(cfg, states, actions, i, j, n);
      } else {
        ReuseShares(cfg, states, actions, j, i, n);
      }
    }
  }

  lemma ConfirmedHasBody(cfg: Config, s: State, id: nat)
    requires Inv(cfg, s) && IsOrder(s, id, Confirmed)
    ensures s.orders[id].raw != ""
  {
    hide ChainOnce, SentBound, OutboxExact, OutcomesJustified, NetworkKept;
    assert OrderShape(cfg, s.orders[id]);
  }

  function ConfirmedOrder(o: Order, info: TxInfo): (o': Order)
  {
    WithBlock(o.(status := Confirmed, failCode := ""), info.blockNumber)
  }

  lemma {:induction false} ConfirmStep(cfg: Config, s: State, id: nat, o: Order, raw: string, info: TxInfo, expiredAt: int)
    requires cfg.solidityConfirm && s.chain == [Entry(raw, info)] && s.solid == 1
    requires id < |s.orders| && s.orders[id] == SignedOrder(cfg, o, raw, expiredAt) && PaidBy(cfg, o, raw, info)
    ensures Next(cfg, s, Confirm(id, 0), Settle(s, id, ConfirmedOrder(s.orders[id], info), "success"))
  {
    hide Pays, OwnLogsOnly;
    PaysIgnoresOutcome(cfg, info, o.(from := cfg.hot), s.orders[id]);
  }

  /** Nothing keeps a node from building the same body for two equal orders (same
      recipient, amount and instant). Then one transfer confirms both. */
  lemma {:induction false} SharedBodyConfirmsTwice(cfg: Config, o: Order, p: Order, raw: string, info: TxInfo)
    requires Payable(cfg, o, raw, info) && Payable(cfg, p, raw, info) && o.orderNo != p.orderNo
    ensures exists s :: Reaches(cfg, Empty, s) && IsOrder(s, 0, Confirmed) && IsOrder(s, 1, Confirmed) && |s.chain| == 1
  {
    hide Reaches, Pays, OwnLogsOnly, SignedFor, EventKey, Settle;
    var s1 := SentState(cfg, o, raw, 9, 0);
    SentReachable(cfg, o, raw, 9, 0);
    var s2 := s1.(orders := s1.orders + [p]);
    assert Next(cfg, s1, Submit(p), s2);
    ReachesStep(cfg, Empty, s1, Submit(p), s2);
    var s3 := s2.(orders := s2.orders[1 := SignedOrder(cfg, p, raw, 9)]);
    assert Next(cfg, s2, Sign(1, raw, 9), s3);
    ReachesStep(cfg, Empty, s2, Sign(1, raw, 9), s3);
    var s4 := PaidState(s3, raw, info);
    PaidReachable(cfg, s3, raw, info);
    ConfirmBoth(cfg, s4, o, p, raw, info, 9);
  }

  lemma {:induction false} ConfirmBoth(cfg: Config, s: State, o: Order, p: Order, raw: string, info: TxInfo, expiredAt: int)
    requires Reaches(cfg, Empty, s) && cfg.solidityConfirm && s.chain == [Entry(raw, info)] && s.solid == 1
    requires PaidBy(cfg, o, raw, info) && PaidBy(cfg, p, raw, info)
    requires s.orders == [SignedOrder(cfg, o, raw, expiredAt), SignedOrder(cfg, p, raw, expiredAt)]
    ensures exists t :: Reaches(cfg, Empty, t) && IsOrder(t, 0, Confirmed) && IsOrder(t, 1, Confirmed) && |t.chain| == 1
  {
    hide Reaches, PaidBy, EventKey, Next;
    ConfirmStep(cfg, s, 0, o, raw, info, expiredAt);
    var s1 := Settle(s, 0, ConfirmedOrder(s.orders[0], info), "success");
    ReachesStep(cfg, Empty, s, Confirm(0, 0), s1);
    ConfirmStep(cfg, s1, 1, p, raw, info, expiredAt);
    var s2 := Settle(s1, 1, ConfirmedOrder(s1.orders[1], info), "success");
    ReachesStep(cfg, Empty, s1, Confirm(1, 0), s2);
    assert IsOrder(s2, 0, Confirmed) && IsOrder(s2, 1, Confirmed);
  }

  // ------------------------------------------------------------- it does happen

  /** A deployment, an order, a body and a receipt that meet the conditions above. */
  lemma {:induction false} Instance(honest: bool) returns (cfg: Config, o: Order, raw: string, info: TxInfo)
    ensures Payable(cfg, o, raw, info) && cfg.honest == honest && cfg.latency > 0 && cfg.hot != ""
    ensures cfg.token(o.symbol) == Some(o.contract) && SignedFor(cfg, o, raw + "x") && cfg.txidOf(raw + "x") != cfg.txidOf(raw)
  {
    hide DecodeLog, NormResult;
    var codec, lg, t := SampleTransfer();
    raw := "0a02";
    info := TxInfo("a1", 7, "", "", "SUCCESS", [lg]);
    cfg := Config(codec, r => "tx" + r, _ => t, _ => 60, _ => Some(t.contract), t.from, true, 0, 1, honest);
    o := Order("N1", "USDT", t.contract, t.from, t.to, 5, Created, "", "", 0, 0, "", 0);
    SuccessText();
    assert |cfg.txidOf(raw + "x")| == |cfg.txidOf(raw)| + 1;
    assert DecodeLog(cfg.codec, info.log[0]) == Some(t) && Matches(o, t);
    assert o.(from := cfg.hot) == o;
  }

  /** A deployment in which a relisted order's body moves its tokens. */
  lemma {:induction false} RelistingHappens()
    ensures exists cfg: Config, o: Order, raw: string, info: TxInfo ::
              cfg.honest && Movable(cfg, o, raw, info) && cfg.token(o.symbol) != Some(o.contract)
  {
    hide Moves, OwnLogsOnly, Pays;
    var cfg, o, raw, info := Instance(true);
    var e := Entry(raw, info);
    SignedForSigned(cfg, o, raw, 0);
    PaysIffListed(cfg, SignedOrder(cfg, o, raw, 0), e);
    PaysIgnoresOutcome(cfg, info, o.(from := cfg.hot), SignedOrder(cfg, o, raw, 0));
    var p := o.(contract := o.contract + "x");
    assert |p.contract| == |o.contract| + 1;
    assert Movable(cfg, p, raw, info);
  }

  /** Two orders of one body, as SharedBodyConfirmsTwice asks for, exist. */
  lemma {:induction false} SharedBodyHappens()
    ensures exists cfg: Config, o: Order, p: Order, raw: string, info: TxInfo ::
              Payable(cfg, o, raw, info) && Payable(cfg, p, raw, info) && o.orderNo != p.orderNo
  {
    hide Pays, OwnLogsOnly;
    var cfg, o, raw, info := Instance(true);
    var p := o.(orderNo := o.orderNo + "2");
    assert |p.orderNo| == |o.orderNo| + 1;
    PaysIgnoresOutcome(cfg, info, o.(from := cfg.hot), p.(from := cfg.hot));
    assert Payable(cfg, p, raw, info);
  }

  /** Both failures do happen, each without the other's cause: on an honest network
      with the stored expiration equal to the one in the body, and with the margin on a
      network that includes what it refused. */
  lemma {:induction false} RefundedAndPaidHappens(honest: bool)
    ensures exists cfg: Config, s, raw, expiredAt: int ::
              && Reaches(cfg, Empty, s) && RefundedAndPaid(cfg, s, raw, expiredAt)
              && cfg.honest == honest && (cfg.expiry(raw) + cfg.latency <= expiredAt <==> !honest)
  {
    hide Reaches, RefundedAndPaid, SignedFor, PaidBy;
    var cfg, o, raw, info := Instance(honest);
    var expiredAt := cfg.expiry(raw) + if honest then 0 else cfg.latency;
    RefundedAndPaidIff(cfg, o, raw, info, expiredAt);
    var s :| Reaches(cfg, Empty, s) && RefundedAndPaid(cfg, s, raw, expiredAt);
  }
}
