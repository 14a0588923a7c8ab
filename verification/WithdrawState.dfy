/** Withdrawal orders, their outbox rows and the chain they are paid on, as one
    state, together with every atomic step any number of withdraw workers, the api
    process and the network can take (internal/withdraw/worker.go). A worker that
    crashes simply takes no further step. */
module WithdrawState {
  import opened Wrappers
  import opened ChainLog

  datatype Status = Created | Signed | Broadcast | Confirmed | Failed | Rejected
  {
    predicate Terminal() { Confirmed? || Failed? || Rejected? }

    predicate InFlight() { Signed? || Broadcast? }
  }

  /** A withdraw_record row; its id is its position in the table. Empty strings are
      columns not written yet. */
  datatype Order = Order(orderNo: string, symbol: string, contract: string, from: string, to: string, amount: int,
                         status: Status, txid: string, raw: string, expiredAt: int,
                         haltCount: nat, failCode: string, blockNumber: int)

  /** A notify_outbox row of type withdraw_result. */
  datatype Event = Event(orderNo: string, status: Status, result: string, txid: string, failCode: string)

  /** A transaction body in a block, with its receipt. */
  datatype Entry = Entry(raw: string, info: TxInfo)

  /** What never changes while the workers run. The functions are the foreign parts:
      the hash of a raw body, the transfer it encodes and the expiration in it. */
  datatype Config = Config(
    codec: Codec,
    txidOf: string -> string,
    intent: string -> Transfer,
    expiry: string -> int,
    token: string -> Option<string>,
    hot: string,
    solidityConfirm: bool,
    confirmBlocks: int,
    latency: nat,
    honest: bool)

  /** orders and outbox are the tables. sent records every broadcast ever made, chain
      the included bodies (the first `solid` of them irreversible), head and now the
      chain height and the time, absent the moments a node reported a txid missing,
      dead the txids a node refused for good, funded the tokens paid into the hot
      wallet per contract. */
  datatype State = State(
    orders: seq<Order>,
    outbox: map<string, Event>,
    sent: set<(nat, string)>,
    chain: seq<Entry>,
    solid: nat,
    head: int,
    now: int,
    absent: set<(string, int)>,
    dead: set<string>,
    funded: map<string, nat>)

  /** Why an in-flight order may be settled as failed. */
  datatype Evidence =
    | Refused                            // permanent broadcast rejection
    | Lapsed(readAt: int, clockAt: int)  // absent when read, expired when the clock was read
    | Receipt(k: nat)                    // final receipt without the order's transfer

  datatype Action =
    | Submit(order: Order)
    | Reject(id: nat, reason: string)
    | Halt(id: nat, attempt: nat, code: string)
    | FailHalted(id: nat, attempt: nat, code: string)
    | Sign(id: nat, raw: string, expiredAt: int)
    | Send(id: nat)
    | MarkBroadcast(id: nat, code: string)
    | Confirm(id: nat, k: nat)
    | Fail(id: nat, why: Evidence, code: string)
    | Include(entry: Entry)
    | Solidify(solid: nat)
    | Fork(length: nat)
    | Advance(head: int, now: int)
    | ReadAbsent(txid: string)
    | Refuse(txid: string)
    | Refill(contract: string, amount: nat)

  function EventKey(o: Order): (r: string)
  {
    "withdraw:" + o.orderNo
  }

  predicate WasSent(sent: set<(nat, string)>, raw: string)
  {
    exists p :: p in sent && p.1 == raw
  }

  predicate InChain(cfg: Config, chain: seq<Entry>, txid: string)
  {
    exists k :: 0 <= k < |chain| && cfg.txidOf(chain[k].raw) == txid
  }

  /** The receipt carries the transfer this order was supposed to make: its token
      contract, its own hot wallet (when recorded), its destination, its amount. */
  predicate Matches(o: Order, t: Transfer)
  {
    t.contract == o.contract && (o.from == "" || t.from == o.from) && t.to == o.to && t.amount == o.amount
  }

  predicate Transferred(cfg: Config, info: TxInfo, o: Order)
  {
    exists i :: 0 <= i < |info.log| && var t := DecodeLog(cfg.codec, info.log[i]); t.Some? && Matches(o, t.value)
  }

  predicate Pays(cfg: Config, info: TxInfo, o: Order)
  {
    info.Succeeded() && Transferred(cfg, info, o)
  }

  /** The transfer a signed body encodes: the configured contract of the order's
      symbol, paid by the hot wallet. */
  predicate SignedFor(cfg: Config, o: Order, raw: string)
  {
    && raw != ""
    && o.amount > 0
    && cfg.token(o.symbol).Some?
    && cfg.intent(raw) == Transfer(cfg.token(o.symbol).value, cfg.hot, o.to, o.amount)
  }

  /** An entry moves tokens out of the hot wallet only as its own body says. */
  predicate Moves(cfg: Config, e: Entry)
  {
    e.info.Succeeded() &&
    exists i :: 0 <= i < |e.info.log| && DecodeLog(cfg.codec, e.info.log[i]) == Some(cfg.intent(e.raw))
  }

  /** Token logs of an included body are the transfer it encodes or none of the hot
      wallet's. */
  predicate OwnLogsOnly(cfg: Config, e: Entry)
  {
    forall i :: 0 <= i < |e.info.log| ==>
      var t := DecodeLog(cfg.codec, e.info.log[i]);
      t.Some? && t.value.from == cfg.hot ==> t.value == cfg.intent(e.raw)
  }

  /** Without a solidity node, depth below the head is what counts as irreversible. */
  predicate DeepIsSolid(cfg: Config, s: State)
  {
    !cfg.solidityConfirm ==>
      forall k :: 0 <= k < |s.chain| && s.head - s.chain[k].info.blockNumber >= cfg.confirmBlocks ==> k < s.solid
  }

  predicate IsOrder(s: State, id: nat, st: Status)
  {
    id < |s.orders| && s.orders[id].status == st
  }

  predicate IsInFlight(s: State, id: nat)
  {
    id < |s.orders| && s.orders[id].status.InFlight()
  }

  predicate FinalEntry(cfg: Config, s: State, txid: string, k: nat)
  {
    k < s.solid <= |s.chain| && cfg.txidOf(s.chain[k].raw) == txid
  }

  predicate Proves(cfg: Config, s: State, o: Order, why: Evidence)
  {
    match why
    case Refused => o.txid in s.dead
    case Lapsed(readAt, clockAt) =>
      (o.txid, readAt) in s.absent && readAt <= clockAt <= s.now && clockAt - readAt <= cfg.latency && o.expiredAt <= clockAt
    case Receipt(k) => FinalEntry(cfg, s, o.txid, k) && !Pays(cfg, s.chain[k].info, o)
  }

  /** When a step can happen. Steps on orders carry the guard of their compare-and-
      swap and what the worker has seen; steps of the network carry the assumptions
      made about it: a txid is included at most once, only after it was broadcast and
      before its expiration, never below the irreversible blocks, and an honest
      network never includes what a node refused for good. */
  predicate Enabled(cfg: Config, s: State, a: Action)
  {
    match a
    case Submit(o) =>
      && o.status == Created && o.txid == "" && o.raw == ""
      && (o.from == "" || o.from == cfg.hot)
      && forall i :: 0 <= i < |s.orders| ==> s.orders[i].orderNo != o.orderNo
    case Reject(id, _) => IsOrder(s, id, Created)
    case Halt(id, _, _) => IsOrder(s, id, Created)
    case FailHalted(id, _, _) => IsOrder(s, id, Created)
    case Sign(id, raw, _) => IsOrder(s, id, Created) && SignedFor(cfg, s.orders[id], raw)
    case Send(id) => id < |s.orders| && s.orders[id].raw != ""
    case MarkBroadcast(id, _) => IsOrder(s, id, Signed)
    case Confirm(id, k) =>
      IsInFlight(s, id) && FinalEntry(cfg, s, s.orders[id].txid, k) && Pays(cfg, s.chain[k].info, s.orders[id])
    case Fail(id, why, code) => IsInFlight(s, id) && Proves(cfg, s, s.orders[id], why) && code != ""
    case Include(e) =>
      && WasSent(s.sent, e.raw)
      && !InChain(cfg, s.chain, cfg.txidOf(e.raw))
      && s.now < cfg.expiry(e.raw)
      && (cfg.honest ==> cfg.txidOf(e.raw) !in s.dead)
      && OwnLogsOnly(cfg, e)
    case Solidify(n) => s.solid <= n <= |s.chain|
    case Fork(n) => s.solid <= n <= |s.chain|
    case Advance(head, now) => s.head <= head && s.now <= now
    case ReadAbsent(txid) => !InChain(cfg, s.chain, txid)
    case Refuse(txid) => cfg.honest ==> !InChain(cfg, s.chain, txid)
    case Refill(_, _) => true
  }

  function Enqueue(outbox: map<string, Event>, key: string, e: Event): (r: map<string, Event>)
  {
    if key in outbox then outbox else outbox[key := e]
  }

  /** A status change and its outbox row, in one transaction. */
  function Settle(s: State, id: nat, o: Order, result: string): (s': State)
    requires id < |s.orders|
  {
    s.(orders := s.orders[id := o],
       outbox := Enqueue(s.outbox, EventKey(o), Event(o.orderNo, o.status, result, o.txid, o.failCode)))
  }

  /** block_number is only written once a block is known. */
  function WithBlock(o: Order, blockNumber: int): (o': Order)
  {
    if blockNumber > 0 then o.(blockNumber := blockNumber) else o
  }

  function AddFunds(funded: map<string, nat>, contract: string, amount: nat): (r: map<string, nat>)
  {
    funded[contract := (if contract in funded then funded[contract] else 0) + amount]
  }

  function Apply(cfg: Config, s: State, a: Action): (s': State)
    requires Enabled(cfg, s, a)
  {
    match a
    case Submit(o) => s.(orders := s.orders + [o])
    case Reject(id, _) =>
      Settle(s, id, s.orders[id].(status := Rejected, failCode := "risk_rejected"), "rejected")
    case Halt(id, attempt, code) =>
      s.(orders := s.orders[id := s.orders[id].(haltCount := attempt, failCode := code)])
    case FailHalted(id, attempt, code) =>
      Settle(s, id, s.orders[id].(status := Failed, haltCount := attempt, failCode := code), "failed")
    case Sign(id, raw, expiredAt) =>
      s.(orders := s.orders[id := s.orders[id].(status := Signed, txid := cfg.txidOf(raw), raw := raw,
                                                from := cfg.hot, expiredAt := expiredAt)])
    case Send(id) => s.(sent := s.sent + {(id, s.orders[id].raw)})
    case MarkBroadcast(id, code) =>
      s.(orders := s.orders[id := s.orders[id].(status := Broadcast, failCode := code)])
    case Confirm(id, k) =>
      Settle(s, id, WithBlock(s.orders[id].(status := Confirmed, failCode := ""), s.chain[k].info.blockNumber), "success")
    case Fail(id, why, code) =>
      var o := s.orders[id].(status := Failed, failCode := code);
      Settle(s, id, if why.Receipt? then WithBlock(o, s.chain[why.k].info.blockNumber) else o, "failed")
    case Include(e) => s.(chain := s.chain + [e])
    case Solidify(n) => s.(solid := n)
    case Fork(n) => s.(chain := s.chain[..n])
    case Advance(head, now) => s.(head := head, now := now)
    case ReadAbsent(txid) => s.(absent := s.absent + {(txid, s.now)})
    case Refuse(txid) => s.(dead := s.dead + {txid})
    case Refill(contract, amount) => s.(funded := AddFunds(s.funded, contract, amount))
  }

  /** One step; after it, depth below the head must still mean irreversible. */
  predicate Next(cfg: Config, s: State, a: Action, s': State)
  {
    Enabled(cfg, s, a) && s' == Apply(cfg, s, a) && DeepIsSolid(cfg, s')
  }

  /** A run: the states it passes through and the actions between them. */
  ghost predicate Run(cfg: Config, states: seq<State>, actions: seq<Action>)
  {
    && |states| == |actions| + 1
    && forall i :: 0 <= i < |actions| ==> Next(cfg, states[i], actions[i], states[i + 1])
  }

  ghost predicate Reaches(cfg: Config, s: State, s': State)
  {
    exists states, actions :: Run(cfg, states, actions) && states[0] == s && states[|actions|] == s'
  }

  const Empty := State([], map[], {}, [], 0, 0, 0, {}, {}, map[])

  lemma ReachesSelf(cfg: Config, s: State)
    ensures Reaches(cfg, s, s)
  {
    assert Run(cfg, [s], []);
  }

  lemma ReachesStep(cfg: Config, s: State, t: State, a: Action, t': State)
    requires Reaches(cfg, s, t) && Next(cfg, t, a, t')
    ensures Reaches(cfg, s, t')
  {
    assert Run(cfg, [t, t'], [a]);
    assert Reaches(cfg, t, t');
    ReachesTrans(cfg, s, t, t');
  }

  lemma {:induction false} RunConcat(cfg: Config, s1: seq<State>, a1: seq<Action>, s2: seq<State>, a2: seq<Action>)
    requires Run(cfg, s1, a1) && Run(cfg, s2, a2) && s1[|a1|] == s2[0]
    ensures Run(cfg, s1 + s2[1..], a1 + a2)
  {
    hide Next;
    var states, actions := s1 + s2[1..], a1 + a2;
    forall i | 0 <= i < |actions| ensures Next(cfg, states[i], actions[i], states[i + 1]) {
      if i < |a1| {
        assert Next(cfg, s1[i], a1[i], s1[i + 1]);
      } else {
        var j := i - |a1|;
        assert Next(cfg, s2[j], a2[j], s2[j + 1]);
        assert states[i] == s2[j] && states[i + 1] == s2[j + 1];
      }
    }
  }

  lemma ReachesTrans(cfg: Config, s: State, t: State, u: State)
    requires Reaches(cfg, s, t) && Reaches(cfg, t, u)
    ensures Reaches(cfg, s, u)
  {
    hide Next;
    var s1, a1 :| Run(cfg, s1, a1) && s1[0] == s && s1[|a1|] == t;
    var s2, a2 :| Run(cfg, s2, a2) && s2[0] == t && s2[|a2|] == u;
    RunConcat(cfg, s1, a1, s2, a2);
    var states := s1 + s2[1..];
    assert states[|a1 + a2|] == u;
  }
}
