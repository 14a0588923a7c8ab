/** The promises of the withdrawal service, for every run from an empty table. */
module WithdrawGuarantees {
  import opened Wrappers
  import opened ChainLog
  import opened WithdrawState
  import opened WithdrawSafety

  /** The k-th included body is one that was broadcast for order id. */
  predicate Belongs(s: State, id: nat, k: nat)
  {
    k < |s.chain| && (id, s.chain[k].raw) in s.sent
  }

  lemma {:induction false} SentIsStored(cfg: Config, s: State, id: nat, r: string)
    requires Inv(cfg, s) && (id, r) in s.sent
    ensures id < |s.orders| && s.orders[id].raw == r != "" && s.orders[id].txid == cfg.txidOf(r)
  {
    hide SignedFor, ChainOnce, OutboxExact, OutcomesJustified, NetworkKept;
    assert OrderShape(cfg, s.orders[id]);
  }

  lemma {:induction false} IncludedOnce(cfg: Config, s: State, j: nat, k: nat)
    requires Inv(cfg, s) && j < |s.chain| && k < |s.chain| && cfg.txidOf(s.chain[j].raw) == cfg.txidOf(s.chain[k].raw)
    ensures j == k
  {
    hide OrdersShaped, SentBound, OutboxExact, OutcomesJustified, NetworkKept, OwnLogsOnly;
  }

  lemma SentStays(s: State, s': State, id: nat, r: string)
    requires Later(s, s') && (id, r) in s.sent
    ensures (id, r) in s'.sent
  {
  }

  /** Now and later, every broadcast of an order carries the body stored in its row,
      under the txid of that body. */
  lemma {:induction false} OneBodyPerOrder(cfg: Config, s: State, s': State, id: nat, r: string, r': string)
    requires Reaches(cfg, Empty, s) && Reaches(cfg, s, s')
    requires (id, r) in s.sent && (id, r') in s'.sent
    ensures r == r' && id < |s'.orders| && s'.orders[id].raw == r && s'.orders[id].txid == cfg.txidOf(r)
  {
    hide Inv, Later;
    EmptyInv(cfg);
    ReachInv(cfg, Empty, s);
    ReachInv(cfg, s, s');
    SentStays(s, s', id, r);
    SentIsStored(cfg, s', id, r);
    SentIsStored(cfg, s', id, r');
  }

  /** So at most one included transaction belongs to an order. */
  lemma {:induction false} OneTransferPerOrder(cfg: Config, s: State, id: nat, j: nat, k: nat)
    requires Reaches(cfg, Empty, s)
    requires Belongs(s, id, j) && Belongs(s, id, k)
    ensures j == k
  {
    hide Inv;
    EmptyInv(cfg);
    ReachInv(cfg, Empty, s);
    SentIsStored(cfg, s, id, s.chain[j].raw);
    SentIsStored(cfg, s, id, s.chain[k].raw);
    IncludedOnce(cfg, s, j, k);
  }

  /** The refund margin: the stored expiration lies a query's latency beyond the one
      in the signed body. */
  predicate Margin(cfg: Config, o: Order)
  {
    cfg.expiry(o.raw) + cfg.latency <= o.expiredAt
  }

  /** A confirmed order is backed by an irreversible successful receipt holding its
      own transfer. */
  lemma {:induction false} ConfirmedIsPaid(cfg: Config, s: State, id: nat)
    requires Reaches(cfg, Empty, s) && IsOrder(s, id, Confirmed)
    ensures exists k: nat :: FinalEntry(cfg, s, s.orders[id].txid, k) && Pays(cfg, s.chain[k].info, s.orders[id])
  {
    hide SignedFor, Pays, Proves, FinalEntry;
    EmptyInv(cfg);
    ReachInv(cfg, Empty, s);
    assert Justified(cfg, s, s.orders[id]);
  }

  /** Why an order with a body was failed. */
  lemma {:induction false} FailedHasProof(cfg: Config, s: State, id: nat)
    requires Inv(cfg, s) && IsOrder(s, id, Failed) && s.orders[id].raw != ""
    ensures exists why :: Proves(cfg, s, s.orders[id], why)
  {
    hide OrdersShaped, SentBound, OutboxExact, NetworkKept, ChainOnce, Proves;
    assert Justified(cfg, s, s.orders[id]);
  }

  lemma {:induction false} RejectedHasNoBody(cfg: Config, s: State, id: nat)
    requires Inv(cfg, s) && IsOrder(s, id, Rejected)
    ensures s.orders[id].raw == ""
  {
    hide SentBound, OutboxExact, NetworkKept, ChainOnce, OutcomesJustified;
    assert OrderShape(cfg, s.orders[id]);
  }

  /** A refused txid is not included, and neither is one that was missing when its
      body had already expired. */
  lemma {:induction false} NotIncluded(cfg: Config, s: State, k: nat)
    requires Inv(cfg, s) && k < |s.chain|
    ensures cfg.honest ==> cfg.txidOf(s.chain[k].raw) !in s.dead
    ensures forall at :: (cfg.txidOf(s.chain[k].raw), at) in s.absent ==> at < cfg.expiry(s.chain[k].raw)
  {
    hide OrdersShaped, SentBound, OutboxExact, ChainOnce, OutcomesJustified;
  }

  /** A failed or rejected order never pays: on an honest network, and with the
      refund margin, no included body of it makes its transfer. */
  lemma {:induction false} RefundedIsUnpaid(cfg: Config, s: State, id: nat, k: nat)
    requires Reaches(cfg, Empty, s) && cfg.honest
    requires (IsOrder(s, id, Failed) && Margin(cfg, s.orders[id])) || IsOrder(s, id, Rejected)
    requires Belongs(s, id, k)
    ensures IsOrder(s, id, Failed) && !Pays(cfg, s.chain[k].info, s.orders[id])
  {
    hide Inv, Pays;
    EmptyInv(cfg);
    ReachInv(cfg, Empty, s);
    SentIsStored(cfg, s, id, s.chain[k].raw);
    if IsOrder(s, id, Rejected) { RejectedHasNoBody(cfg, s, id); }
    FailedHasProof(cfg, s, id);
    var why :| Proves(cfg, s, s.orders[id], why);
    NotIncluded(cfg, s, k);
    if why.Receipt? { IncludedOnce(cfg, s, why.k, k); }
  }

  /** The receipt of an order's own body that moved tokens pays the order, if the
      configured contract is the recorded one. */
  lemma {:induction false} MovesPaysListed(cfg: Config, o: Order, e: Entry)
    requires SignedFor(cfg, o, e.raw) && (o.from == "" || o.from == cfg.hot) && Moves(cfg, e)
    requires cfg.token(o.symbol) == Some(o.contract)
    ensures Pays(cfg, e.info, o)
  {
    hide DecodeLog;
    var i :| 0 <= i < |e.info.log| && DecodeLog(cfg.codec, e.info.log[i]) == Some(cfg.intent(e.raw));
    assert Matches(o, cfg.intent(e.raw));
  }

  lemma BoundRow(cfg: Config, s: State, id: nat)
    requires Inv(cfg, s) && id < |s.orders| && s.orders[id].raw != ""
    ensures SignedFor(cfg, s.orders[id], s.orders[id].raw) && s.orders[id].from == cfg.hot
  {
    hide ChainOnce, SentBound, OutboxExact, OutcomesJustified, NetworkKept, SignedFor;
    assert OrderShape(cfg, s.orders[id]);
  }

  /** A refunded order, its recorded contract being the configured one, moved no
      tokens at all: none of its bodies that was included did. */
  lemma {:induction false} RefundedMovesNothing(cfg: Config, s: State, id: nat, k: nat)
    requires Reaches(cfg, Empty, s) && cfg.honest
    requires (IsOrder(s, id, Failed) && Margin(cfg, s.orders[id])) || IsOrder(s, id, Rejected)
    requires cfg.token(s.orders[id].symbol) == Some(s.orders[id].contract)
    requires Belongs(s, id, k)
    ensures !Moves(cfg, s.chain[k])
  {
    hide Inv, Pays, Moves, SignedFor, Margin, Reaches;
    RefundedIsUnpaid(cfg, s, id, k);
    EmptyInv(cfg);
    ReachInv(cfg, Empty, s);
    SentIsStored(cfg, s, id, s.chain[k].raw);
    BoundRow(cfg, s, id);
    if Moves(cfg, s.chain[k]) { MovesPaysListed(cfg, s.orders[id], s.chain[k]); }
  }

  /** Confirmed and paid, or refunded and unpaid, and it stays that way: a settled
      row and its outbox row never change again. */
  lemma {:induction false} OutcomesAreFinal(cfg: Config, s: State, s': State, id: nat)
    requires Reaches(cfg, Empty, s) && Reaches(cfg, s, s') && id < |s.orders| && s.orders[id].status.Terminal()
    ensures id < |s'.orders| && s'.orders[id] == s.orders[id]
    ensures EventKey(s.orders[id]) in s.outbox && EventKey(s.orders[id]) in s'.outbox
    ensures s'.outbox[EventKey(s.orders[id])] == s.outbox[EventKey(s.orders[id])] == EventOf(s.orders[id])
  {
    hide SignedFor, Pays, Proves, OrderShape;
    EmptyInv(cfg);
    ReachInv(cfg, Empty, s);
    ReachInv(cfg, s, s');
    assert OrderLater(s.orders[id], s'.orders[id]);
  }

  /** The event "withdraw:<order_no>" exists exactly for terminal orders, tells their
      status and result, and there is no other event. */
  lemma {:induction false} OutboxMatchesOrders(cfg: Config, s: State, key: string)
    requires Reaches(cfg, Empty, s)
    ensures key in s.outbox <==>
            exists id :: 0 <= id < |s.orders| && EventKey(s.orders[id]) == key && s.orders[id].status.Terminal()
    ensures forall id :: 0 <= id < |s.orders| && s.orders[id].status.Terminal() ==>
              EventKey(s.orders[id]) in s.outbox && s.outbox[EventKey(s.orders[id])] == EventOf(s.orders[id])
    ensures forall i, j :: 0 <= i < j < |s.orders| ==> EventKey(s.orders[i]) != EventKey(s.orders[j])
  {
    hide SignedFor, Pays, Proves, OrderShape, EventKey;
    EmptyInv(cfg);
    ReachInv(cfg, Empty, s);
    forall i, j | 0 <= i < j < |s.orders| ensures EventKey(s.orders[i]) != EventKey(s.orders[j]) {
      KeysDiffer(s.orders[i], s.orders[j]);
    }
  }

  /** Everything on the chain irreversible. */
  function AllSolid(s: State): (s': State)
  {
    s.(solid := |s.chain|)
  }

  /** An order in flight is settled by its receipt if it is on the chain, and otherwise
      by its expiration once the clock is past it. */
  lemma {:induction false} SettlesFrom(cfg: Config, s: State, id: nat)
    requires IsInFlight(s, id) && s.solid == |s.chain|
    ensures exists s' :: Reaches(cfg, s, s') && id < |s'.orders| && s'.orders[id].status.Terminal()
  {
    hide Reaches, Pays, EventKey;
    var txid := s.orders[id].txid;
    ReachesSelf(cfg, s);
    if k: nat :| k < |s.chain| && cfg.txidOf(s.chain[k].raw) == txid {
      var a := if Pays(cfg, s.chain[k].info, s.orders[id]) then Confirm(id, k) else Fail(id, Receipt(k), "receipt");
      ReachesStep(cfg, s, s, a, Apply(cfg, s, a));
      assert Apply(cfg, s, a).orders[id].status.Terminal();
    } else {
      var late := if s.now < s.orders[id].expiredAt then s.orders[id].expiredAt else s.now;
      LapsesAt(cfg, s, id, late);
    }
  }

  lemma {:induction false} LapsesAt(cfg: Config, s: State, id: nat, late: int)
    requires IsInFlight(s, id) && s.solid == |s.chain| && !InChain(cfg, s.chain, s.orders[id].txid)
    requires s.now <= late && s.orders[id].expiredAt <= late
    ensures exists s' :: Reaches(cfg, s, s') && id < |s'.orders| && s'.orders[id].status.Terminal()
  {
    hide Reaches, Pays, EventKey, InChain;
    var txid := s.orders[id].txid;
    var s1 := s.(now := late);
    var s2 := s1.(absent := s.absent + {(txid, late)});
    var a := Fail(id, Lapsed(late, late), "expired");
    ReachesSelf(cfg, s);
    ReachesStep(cfg, s, s, Advance(s.head, late), s1);
    ReachesStep(cfg, s, s1, ReadAbsent(txid), s2);
    ReachesStep(cfg, s, s2, a, Apply(cfg, s2, a));
    assert Apply(cfg, s2, a).orders[id].status.Terminal();
  }

  lemma {:induction false} FailsFrom(cfg: Config, s: State, id: nat)
    requires IsOrder(s, id, Created) && s.solid == |s.chain|
    ensures exists s' :: Reaches(cfg, s, s') && id < |s'.orders| && s'.orders[id].status.Terminal()
  {
    hide Reaches, EventKey;
    var a := Reject(id, "");
    ReachesSelf(cfg, s);
    ReachesStep(cfg, s, s, a, Apply(cfg, s, a));
    assert Apply(cfg, s, a).orders[id].status.Terminal();
  }

  /** No order is ever stuck: from every reachable state it can still reach an outcome,
      and every outcome is reported. */
  lemma {:induction false} NeverStuck(cfg: Config, s: State, id: nat)
    requires Reaches(cfg, Empty, s) && id < |s.orders|
    ensures exists s' :: Reaches(cfg, s, s') && id < |s'.orders| && s'.orders[id].status.Terminal()
                         && EventKey(s'.orders[id]) in s'.outbox && s'.outbox[EventKey(s'.orders[id])] == EventOf(s'.orders[id])
  {
    hide Reaches, Inv, Pays, EventKey;
    EmptyInv(cfg);
    ReachInv(cfg, Empty, s);
    InvBounds(cfg, s);
    var solid := AllSolid(s);
    ReachesSelf(cfg, s);
    var s': State;
    if s.orders[id].status.Terminal() {
      s' := s;
    } else {
      ReachesStep(cfg, s, s, Solidify(|s.chain|), solid);
      if s.orders[id].status.Created? { FailsFrom(cfg, solid, id); } else { SettlesFrom(cfg, solid, id); }
      s' :| Reaches(cfg, solid, s') && id < |s'.orders| && s'.orders[id].status.Terminal();
      ReachesTrans(cfg, s, solid, s');
    }
    ReachesTrans(cfg, Empty, s, s');
    OutboxMatchesOrders(cfg, s', EventKey(s'.orders[id]));
  }
}
