/** What every run of the withdrawal protocol keeps, whatever the interleaving of
    workers, crashes, forks and node answers: one order is one signed body, its
    outcome is reported exactly once, and paying out and refunding exclude each
    other. */
module WithdrawSafety {
  import opened ChainLog
  import opened WithdrawState

  // ---------------------------------------------------------------- the invariant

  predicate Unsigned(o: Order)
  {
    o.raw == "" && o.txid == ""
  }

  /** Bound to one body: signed for the order's own transfer, txid fixed by it. */
  predicate Bound(cfg: Config, o: Order)
  {
    SignedFor(cfg, o, o.raw) && o.txid == cfg.txidOf(o.raw) && o.from == cfg.hot
  }

  predicate OrderShape(cfg: Config, o: Order)
  {
    match o.status
    case Created => Unsigned(o) && (o.from == "" || o.from == cfg.hot)
    case Rejected => Unsigned(o)
    case Failed => Unsigned(o) || Bound(cfg, o)
    case _ => Bound(cfg, o)
  }

  ghost predicate OrdersShaped(cfg: Config, s: State)
  {
    && s.solid <= |s.chain|
    && (forall id :: 0 <= id < |s.orders| ==> OrderShape(cfg, s.orders[id]))
    && (forall i, j :: 0 <= i < j < |s.orders| ==> s.orders[i].orderNo != s.orders[j].orderNo)
  }

  /** Whatever was broadcast for an order is the body stored in its row. */
  ghost predicate SentBound(s: State)
  {
    forall p :: p in s.sent ==> p.0 < |s.orders| && s.orders[p.0].raw == p.1 && p.1 != ""
  }

  /** Each txid is in the chain at most once, and only after a broadcast. */
  ghost predicate ChainOnce(cfg: Config, s: State)
  {
    && (forall k :: 0 <= k < |s.chain| ==> WasSent(s.sent, s.chain[k].raw) && OwnLogsOnly(cfg, s.chain[k]))
    && (forall j, k :: 0 <= j < k < |s.chain| ==> cfg.txidOf(s.chain[j].raw) != cfg.txidOf(s.chain[k].raw))
  }

  function ResultOf(st: Status): (r: string)
  {
    if st == Confirmed then "success" else if st == Rejected then "rejected" else "failed"
  }

  function EventOf(o: Order): (r: Event)
  {
    Event(o.orderNo, o.status, ResultOf(o.status), o.txid, o.failCode)
  }

  /** An outbox row exists exactly for the terminal orders and tells their outcome. */
  ghost predicate OutboxExact(s: State)
  {
    && (forall id :: 0 <= id < |s.orders| ==> (EventKey(s.orders[id]) in s.outbox <==> s.orders[id].status.Terminal()))
    && (forall id :: 0 <= id < |s.orders| && s.orders[id].status.Terminal() ==>
          s.outbox[EventKey(s.orders[id])] == EventOf(s.orders[id]))
    && (forall key :: key in s.outbox ==> exists id :: 0 <= id < |s.orders| && EventKey(s.orders[id]) == key)
  }

  ghost predicate Justified(cfg: Config, s: State, o: Order)
  {
    && (o.status == Confirmed ==> exists k: nat :: FinalEntry(cfg, s, o.txid, k) && Pays(cfg, s.chain[k].info, o))
    && (o.status == Failed && o.raw != "" ==> exists why :: Proves(cfg, s, o, why))
  }

  ghost predicate OutcomesJustified(cfg: Config, s: State)
  {
    forall id :: 0 <= id < |s.orders| ==> Justified(cfg, s, s.orders[id])
  }

  /** What the network promised about refused and missing txids. */
  ghost predicate NetworkKept(cfg: Config, s: State)
  {
    && (cfg.honest ==> forall k :: 0 <= k < |s.chain| ==> cfg.txidOf(s.chain[k].raw) !in s.dead)
    && (forall p :: p in s.absent ==> p.1 <= s.now)
    && (forall p, k :: p in s.absent && 0 <= k < |s.chain| && cfg.txidOf(s.chain[k].raw) == p.0 ==>
          p.1 < cfg.expiry(s.chain[k].raw))
  }

  ghost predicate Inv(cfg: Config, s: State)
  {
    && OrdersShaped(cfg, s) && SentBound(s) && ChainOnce(cfg, s) && OutboxExact(s)
    && OutcomesJustified(cfg, s) && NetworkKept(cfg, s)
  }

  // ------------------------------------------------------- what can only grow

  /** The future of one row: its request never changes, a written body never
      changes, statuses only move forward and a terminal row is frozen. */
  predicate OrderLater(o: Order, o': Order)
  {
    && (o'.orderNo, o'.symbol, o'.contract, o'.to, o'.amount) == (o.orderNo, o.symbol, o.contract, o.to, o.amount)
    && (o.raw != "" ==> (o'.raw, o'.txid, o'.from, o'.expiredAt) == (o.raw, o.txid, o.from, o.expiredAt))
    && (o.status.Terminal() ==> o' == o)
    && (o.status != Created ==> o'.status != Created)
    && (o.status == Broadcast ==> o'.status != Signed)
  }

  ghost predicate OrdersLater(s: State, s': State)
  {
    && |s.orders| <= |s'.orders|
    && (forall id :: 0 <= id < |s.orders| ==> OrderLater(s.orders[id], s'.orders[id]))
  }

  ghost predicate TablesLater(s: State, s': State)
  {
    && (forall key :: key in s.outbox ==> key in s'.outbox && s'.outbox[key] == s.outbox[key])
    && s.sent <= s'.sent && s.absent <= s'.absent && s.dead <= s'.dead
    && s.now <= s'.now && s.head <= s'.head
    && s.solid <= s'.solid <= |s'.chain|
    && (forall k :: 0 <= k < s.solid <= |s.chain| ==> s'.chain[k] == s.chain[k])
  }

  ghost predicate Later(s: State, s': State)
  {
    OrdersLater(s, s') && TablesLater(s, s')
  }

  /** The row an action writes, if it writes one that exists. */
  predicate Targets(a: Action, id: nat)
  {
    match a
    case Reject(i, _) => i == id
    case Halt(i, _, _) => i == id
    case FailHalted(i, _, _) => i == id
    case Sign(i, _, _) => i == id
    case MarkBroadcast(i, _) => i == id
    case Confirm(i, _) => i == id
    case Fail(i, _, _) => i == id
    case _ => false
  }

  lemma {:induction false} StepFrame(cfg: Config, s: State, a: Action, s': State)
    requires Next(cfg, s, a, s')
    ensures |s'.orders| == |s.orders| + if a.Submit? then 1 else 0
    ensures forall id :: 0 <= id < |s.orders| && !Targets(a, id) ==> s'.orders[id] == s.orders[id]
    ensures a.Submit? ==> s'.orders[|s.orders|] == a.order && Unsigned(a.order) && a.order.status == Created
                          && (a.order.from == "" || a.order.from == cfg.hot)
                          && forall i :: 0 <= i < |s.orders| ==> s.orders[i].orderNo != a.order.orderNo
  {
    hide DecodeLog, Pays, OwnLogsOnly, InChain, Proves, SignedFor, DeepIsSolid, EventKey, Enqueue, AddFunds;
  }

  /** What the written row may become. */
  lemma {:induction false} StepTarget(cfg: Config, s: State, a: Action, s': State, id: nat)
    requires Next(cfg, s, a, s') && Targets(a, id) && id < |s.orders| && OrderShape(cfg, s.orders[id])
    ensures id < |s'.orders| && OrderShape(cfg, s'.orders[id]) && OrderLater(s.orders[id], s'.orders[id])
    ensures !s.orders[id].status.Terminal()
  {
    hide DecodeLog, Pays, OwnLogsOnly, InChain, Proves, DeepIsSolid, EventKey, Enqueue, AddFunds;
  }

  lemma {:induction false} StepOrdersLater(cfg: Config, s: State, a: Action, s': State)
    requires OrdersShaped(cfg, s) && Next(cfg, s, a, s')
    ensures OrdersLater(s, s')
  {
    hide Next, OrderShape;
    StepFrame(cfg, s, a, s');
    forall id | 0 <= id < |s.orders| ensures OrderLater(s.orders[id], s'.orders[id]) {
      if Targets(a, id) { StepTarget(cfg, s, a, s', id); }
    }
  }

  lemma {:induction false} StepTablesLater(cfg: Config, s: State, a: Action, s': State)
    requires s.solid <= |s.chain| && Next(cfg, s, a, s')
    ensures TablesLater(s, s')
  {
    hide DecodeLog, Pays, OwnLogsOnly, InChain, Proves, SignedFor, DeepIsSolid, EventKey, AddFunds;
  }

  lemma LaterSelf(s: State)
    requires s.solid <= |s.chain|
    ensures Later(s, s)
  {
  }

  lemma LaterTrans(s: State, t: State, u: State)
    requires s.solid <= |s.chain| && Later(s, t) && Later(t, u)
    ensures Later(s, u)
  {
    forall id | 0 <= id < |s.orders| ensures OrderLater(s.orders[id], u.orders[id]) {
      assert OrderLater(s.orders[id], t.orders[id]) && OrderLater(t.orders[id], u.orders[id]);
    }
  }

  // ------------------------------------------------- every step keeps the invariant

  lemma {:induction false} StepShaped(cfg: Config, s: State, a: Action, s': State)
    requires OrdersShaped(cfg, s) && Next(cfg, s, a, s')
    ensures OrdersShaped(cfg, s')
  {
    hide Next, OrderShape;
    StepFrame(cfg, s, a, s');
    StepTablesLater(cfg, s, a, s');
    StepOrdersLater(cfg, s, a, s');
    forall id | 0 <= id < |s'.orders| ensures OrderShape(cfg, s'.orders[id]) {
      if id == |s.orders| {
        CreatedShape(cfg, a.order);
      } else if Targets(a, id) {
        StepTarget(cfg, s, a, s', id);
      }
    }
    forall i, j | 0 <= i < j < |s'.orders| ensures s'.orders[i].orderNo != s'.orders[j].orderNo {
      assert OrderLater(s.orders[i], s'.orders[i]);
      if j < |s.orders| { assert OrderLater(s.orders[j], s'.orders[j]); }
    }
  }

  lemma CreatedShape(cfg: Config, o: Order)
    requires o.status == Created && Unsigned(o) && (o.from == "" || o.from == cfg.hot)
    ensures OrderShape(cfg, o)
  {
  }

  lemma {:induction false} StepSentBound(cfg: Config, s: State, a: Action, s': State)
    requires Inv(cfg, s) && Next(cfg, s, a, s')
    ensures SentBound(s')
  {
    hide DecodeLog, Pays, OwnLogsOnly, InChain, Proves, DeepIsSolid, EventKey, Enqueue, AddFunds, ChainOnce,
      OutcomesJustified, NetworkKept, OutboxExact, TablesLater, OrderShape, SignedFor;
    StepOrdersLater(cfg, s, a, s');
    forall p | p in s'.sent ensures p.0 < |s'.orders| && s'.orders[p.0].raw == p.1 && p.1 != "" {
      if p in s.sent {
        assert OrderLater(s.orders[p.0], s'.orders[p.0]);
      }
    }
  }

  lemma {:induction false} StepChainOnce(cfg: Config, s: State, a: Action, s': State)
    requires ChainOnce(cfg, s) && s.solid <= |s.chain| && Next(cfg, s, a, s')
    ensures ChainOnce(cfg, s')
  {
    hide DecodeLog, Pays, OwnLogsOnly, Proves, DeepIsSolid, EventKey, Enqueue, AddFunds, SignedFor;
    forall k | 0 <= k < |s'.chain|
      ensures WasSent(s'.sent, s'.chain[k].raw) && OwnLogsOnly(cfg, s'.chain[k])
    {
      if k < |s.chain| {
        assert s'.chain[k] == s.chain[k];
        var p :| p in s.sent && p.1 == s.chain[k].raw;
        assert p in s'.sent && p.1 == s'.chain[k].raw;
      } else {
        assert a.Include? && s'.chain[k] == a.entry;
      }
    }
    forall j, k | 0 <= j < k < |s'.chain| ensures cfg.txidOf(s'.chain[j].raw) != cfg.txidOf(s'.chain[k].raw) {
      assert s'.chain[j] == s.chain[j];
      if k < |s.chain| { assert s'.chain[k] == s.chain[k]; }
    }
  }

  lemma {:induction false} StepNetworkKept(cfg: Config, s: State, a: Action, s': State)
    requires NetworkKept(cfg, s) && s.solid <= |s.chain| && Next(cfg, s, a, s')
    ensures NetworkKept(cfg, s')
  {
    hide DecodeLog, Pays, OwnLogsOnly, Proves, DeepIsSolid, EventKey, Enqueue, AddFunds, SignedFor;
  }

  lemma {:induction false} ProofsLast(cfg: Config, s: State, s': State, o: Order, why: Evidence)
    requires Proves(cfg, s, o, why) && TablesLater(s, s')
    ensures Proves(cfg, s', o, why)
  {
    hide Pays;
  }

  lemma {:induction false} JustifiedLasts(cfg: Config, s: State, s': State, o: Order)
    requires Justified(cfg, s, o) && TablesLater(s, s')
    ensures Justified(cfg, s', o)
  {
    hide Pays, Proves;
    if o.status == Confirmed {
      var k: nat :| FinalEntry(cfg, s, o.txid, k) && Pays(cfg, s.chain[k].info, o);
      assert FinalEntry(cfg, s', o.txid, k) && Pays(cfg, s'.chain[k].info, o);
    }
    if o.status == Failed && o.raw != "" {
      var why :| Proves(cfg, s, o, why);
      ProofsLast(cfg, s, s', o, why);
    }
  }

  /** Settling touches nothing a receipt is compared with. */
  lemma PaysIgnoresOutcome(cfg: Config, info: TxInfo, o: Order, o': Order)
    requires (o'.contract, o'.from, o'.to, o'.amount) == (o.contract, o.from, o.to, o.amount)
    ensures Pays(cfg, info, o') == Pays(cfg, info, o)
  {
    hide DecodeLog;
    assert forall t :: Matches(o', t) == Matches(o, t);
  }

  lemma {:induction false} ConfirmJustified(cfg: Config, s: State, a: Action, s': State)
    requires Next(cfg, s, a, s') && a.Confirm? && s.solid <= |s.chain|
    ensures Justified(cfg, s', s'.orders[a.id])
  {
    hide Pays, DeepIsSolid, Enqueue, EventKey;
    var o, o' := s.orders[a.id], s'.orders[a.id];
    PaysIgnoresOutcome(cfg, s.chain[a.k].info, o, o');
    assert FinalEntry(cfg, s', o'.txid, a.k) && Pays(cfg, s'.chain[a.k].info, o');
  }

  lemma {:induction false} FailJustified(cfg: Config, s: State, a: Action, s': State)
    requires Next(cfg, s, a, s') && a.Fail? && s.solid <= |s.chain|
    ensures Justified(cfg, s', s'.orders[a.id])
  {
    hide Pays, DeepIsSolid, Enqueue, EventKey;
    var o, o' := s.orders[a.id], s'.orders[a.id];
    if a.why.Receipt? { PaysIgnoresOutcome(cfg, s.chain[a.why.k].info, o, o'); }
    assert Proves(cfg, s', o', a.why);
  }

  lemma {:induction false} OpenJustified(cfg: Config, s: State, a: Action, s': State, id: nat)
    requires Next(cfg, s, a, s') && Targets(a, id) && id < |s.orders| && OrderShape(cfg, s.orders[id])
    requires !a.Confirm? && !a.Fail?
    ensures id < |s'.orders| && Justified(cfg, s', s'.orders[id])
  {
    hide DecodeLog, Pays, OwnLogsOnly, InChain, Proves, DeepIsSolid, EventKey, Enqueue, AddFunds, SignedFor;
  }

  lemma {:induction false} StepJustified(cfg: Config, s: State, a: Action, s': State)
    requires OutcomesJustified(cfg, s) && OrdersShaped(cfg, s) && Next(cfg, s, a, s')
    ensures OutcomesJustified(cfg, s')
  {
    hide Next, OrderShape, Pays, Proves, FinalEntry, TablesLater, OrderLater;
    StepFrame(cfg, s, a, s');
    StepTablesLater(cfg, s, a, s');
    forall id | 0 <= id < |s'.orders| ensures Justified(cfg, s', s'.orders[id]) {
      if id < |s.orders| && !Targets(a, id) {
        JustifiedLasts(cfg, s, s', s.orders[id]);
      } else if a.Confirm? {
        ConfirmJustified(cfg, s, a, s');
      } else if a.Fail? {
        FailJustified(cfg, s, a, s');
      } else if id < |s.orders| {
        OpenJustified(cfg, s, a, s', id);
      }
    }
  }

  // The outbox.

  lemma {:induction false} SettleOutbox(s: State, id: nat, o: Order, result: string)
    requires OutboxExact(s) && id < |s.orders| && !s.orders[id].status.Terminal()
    requires forall i, j :: 0 <= i < j < |s.orders| ==> s.orders[i].orderNo != s.orders[j].orderNo
    requires o.orderNo == s.orders[id].orderNo && o.status.Terminal() && result == ResultOf(o.status)
    ensures OutboxExact(Settle(s, id, o, result))
  {
    var s' := Settle(s, id, o, result);
    forall i | 0 <= i < |s.orders| && i != id ensures EventKey(s.orders[i]) != EventKey(o) {
      KeysDiffer(s.orders[i], o);
    }
    forall key | key in s'.outbox ensures exists i :: 0 <= i < |s'.orders| && EventKey(s'.orders[i]) == key {
      if key == EventKey(o) {
        assert EventKey(s'.orders[id]) == key;
      } else {
        var i :| 0 <= i < |s.orders| && EventKey(s.orders[i]) == key;
        assert EventKey(s'.orders[i]) == key;
      }
    }
  }

  lemma KeysDiffer(a: Order, b: Order)
    requires a.orderNo != b.orderNo
    ensures EventKey(a) != EventKey(b)
  {
    assert EventKey(a)[9..] == a.orderNo && EventKey(b)[9..] == b.orderNo;
  }

  /** Steps that settle nothing leave the outbox and every row's outcome alone. */
  lemma {:induction false} QuietOutbox(s: State, s': State)
    requires OutboxExact(s) && s'.outbox == s.outbox && |s'.orders| >= |s.orders|
    requires forall i :: 0 <= i < |s.orders| ==>
               s'.orders[i].orderNo == s.orders[i].orderNo &&
               (s'.orders[i] == s.orders[i] || (!s.orders[i].status.Terminal() && !s'.orders[i].status.Terminal()))
    requires forall i :: |s.orders| <= i < |s'.orders| ==>
               !s'.orders[i].status.Terminal() && forall j :: 0 <= j < |s.orders| ==> s.orders[j].orderNo != s'.orders[i].orderNo
    ensures OutboxExact(s')
  {
    forall i | |s.orders| <= i < |s'.orders| ensures EventKey(s'.orders[i]) !in s'.outbox {
      if EventKey(s'.orders[i]) in s.outbox {
        var j :| 0 <= j < |s.orders| && EventKey(s.orders[j]) == EventKey(s'.orders[i]);
        KeysDiffer(s.orders[j], s'.orders[i]);
      }
    }
    forall key | key in s'.outbox ensures exists i :: 0 <= i < |s'.orders| && EventKey(s'.orders[i]) == key {
      var j :| 0 <= j < |s.orders| && EventKey(s.orders[j]) == key;
      assert EventKey(s'.orders[j]) == key;
    }
  }

  predicate Settles(a: Action)
  {
    a.Reject? || a.FailHalted? || a.Confirm? || a.Fail?
  }

  lemma {:induction false} SettleStep(cfg: Config, s: State, a: Action, s': State)
    requires Next(cfg, s, a, s') && Settles(a) && s.solid <= |s.chain|
    ensures exists id: nat, o: Order ::
              && Targets(a, id) && id < |s.orders| && s' == Settle(s, id, o, ResultOf(o.status))
              && o.orderNo == s.orders[id].orderNo && o.status.Terminal() && !s.orders[id].status.Terminal()
  {
    hide DecodeLog, Pays, OwnLogsOnly, InChain, Proves, DeepIsSolid, EventKey, Enqueue, AddFunds, SignedFor;
    assert s' == Settle(s, a.id, s'.orders[a.id], ResultOf(s'.orders[a.id].status));
  }

  lemma {:induction false} QuietStep(cfg: Config, s: State, a: Action, s': State)
    requires Next(cfg, s, a, s') && !Settles(a) && OrdersShaped(cfg, s)
    ensures s'.outbox == s.outbox
    ensures forall i :: 0 <= i < |s.orders| && Targets(a, i) ==> i < |s'.orders| && !s'.orders[i].status.Terminal()
  {
    hide DecodeLog, Pays, OwnLogsOnly, InChain, Proves, DeepIsSolid, EventKey, AddFunds, SignedFor, OrderShape;
  }

  lemma {:induction false} StepOutbox(cfg: Config, s: State, a: Action, s': State)
    requires OutboxExact(s) && OrdersShaped(cfg, s) && Next(cfg, s, a, s')
    ensures OutboxExact(s')
  {
    hide OutboxExact, Next, OrderShape, Settle;
    if Settles(a) {
      SettleStep(cfg, s, a, s');
      var id: nat, o: Order :|
        && Targets(a, id) && id < |s.orders| && s' == Settle(s, id, o, ResultOf(o.status))
        && o.orderNo == s.orders[id].orderNo && o.status.Terminal() && !s.orders[id].status.Terminal();
      SettleOutbox(s, id, o, ResultOf(o.status));
    } else {
      StepFrame(cfg, s, a, s');
      StepOrdersLater(cfg, s, a, s');
      QuietStep(cfg, s, a, s');
      forall i | 0 <= i < |s.orders| && Targets(a, i) ensures !s.orders[i].status.Terminal() {
        StepTarget(cfg, s, a, s', i);
      }
      QuietOutbox(s, s');
    }
  }

  lemma {:induction false} StepInv(cfg: Config, s: State, a: Action, s': State)
    requires Inv(cfg, s) && Next(cfg, s, a, s')
    ensures Inv(cfg, s')
  {
    hide OrdersShaped, ChainOnce, OutboxExact, OutcomesJustified, NetworkKept, SentBound, Next;
    assert s.solid <= |s.chain| by { ShapedBounds(cfg, s); }
    StepShaped(cfg, s, a, s');
    StepSentBound(cfg, s, a, s');
    StepChainOnce(cfg, s, a, s');
    StepOutbox(cfg, s, a, s');
    StepJustified(cfg, s, a, s');
    StepNetworkKept(cfg, s, a, s');
  }

  lemma ShapedBounds(cfg: Config, s: State)
    requires OrdersShaped(cfg, s)
    ensures s.solid <= |s.chain|
  {
  }

  lemma {:induction false} RunInv(cfg: Config, states: seq<State>, actions: seq<Action>, n: nat)
    requires Run(cfg, states, actions) && Inv(cfg, states[0]) && n <= |actions|
    ensures Inv(cfg, states[n]) && Later(states[0], states[n])
  {
    hide Inv, Later, Next;
    if n == 0 {
      InvBounds(cfg, states[0]);
      LaterSelf(states[0]);
    } else {
      RunInv(cfg, states, actions, n - 1);
      InvBounds(cfg, states[0]);
      InvBounds(cfg, states[n - 1]);
      assert Next(cfg, states[n - 1], actions[n - 1], states[n]);
      StepInv(cfg, states[n - 1], actions[n - 1], states[n]);
      StepLater(cfg, states[n - 1], actions[n - 1], states[n]);
      LaterTrans(states[0], states[n - 1], states[n]);
    }
  }

  lemma InvBounds(cfg: Config, s: State)
    requires Inv(cfg, s)
    ensures OrdersShaped(cfg, s) && s.solid <= |s.chain|
  {
  }

  lemma StepLater(cfg: Config, s: State, a: Action, s': State)
    requires OrdersShaped(cfg, s) && s.solid <= |s.chain| && Next(cfg, s, a, s')
    ensures Later(s, s')
  {
    hide Next;
    StepOrdersLater(cfg, s, a, s');
    StepTablesLater(cfg, s, a, s');
  }

  /** Every reachable state satisfies the invariant and only grows from there. */
  lemma {:induction false} ReachInv(cfg: Config, s: State, s': State)
    requires Inv(cfg, s) && Reaches(cfg, s, s')
    ensures Inv(cfg, s') && Later(s, s')
  {
    var states, actions :| Run(cfg, states, actions) && states[0] == s && states[|actions|] == s';
    RunInv(cfg, states, actions, |actions|);
  }

  lemma EmptyInv(cfg: Config)
    ensures Inv(cfg, Empty)
  {
  }
}
