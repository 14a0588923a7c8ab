/** One withdraw worker (internal/withdraw/worker.go), statement by statement, next to
    any number of others. Each method leads from state to state by steps of the
    protocol only, so everything proved about runs holds for the code; a crash is a
    method that stops after any of its steps. */
module WithdrawWorker {
  import opened Wrappers
  import opened Text
  import opened Address
  import opened ChainLog
  import opened WithdrawState
  import opened WithdrawSafety
  import opened WithdrawGuarantees
  import opened HotWallet
  import opened WithdrawWorld
  import Tx

  const FAIL_BALANCE := "hot_wallet_insufficient"
  const FAIL_ENERGY := "energy_rental_failed"
  const FAIL_EXPIRED := "expired"
  const FAIL_NO_TRANSFER := "no_transfer_event"
  const FAIL_UNKNOWN := "unknown"
  const DEFAULT_HALT_MAX_RETRIES: nat := 10
  const DEFAULT_EXPIRATION_SECONDS: nat := 60

  /** Fault is any database or node error: the round ends for this order. */
  datatype Outcome = Fault | Busy | Underway | TurnedDown | Halted | HaltedFailed

  datatype Settlement = Failing | Skipped | Waiting | Resent | Settled

  /** What the lock, the tables a worker only reads, the fee and the signer answer in
      one execution; an empty body is a refusal to sign. */
  datatype Fee = Covered | Uncovered | Unknown

  datatype Answers = Answers(granted: bool, listed: bool, overLimit: bool, fee: Fee, body: string)

  method AnyAnswers() returns (a: Answers)
  {
    a := *;
  }

  /** The reasons to reject an order outright. */
  predicate Rejectable(cfg: Config, selector: Tx.Selector, row: Order, a: Answers)
  {
    || !IsValidAddress(cfg.codec.sum, row.to) || a.listed || row.amount <= 0 || a.overLimit
    || cfg.token(row.symbol).None? || Tx.TransferCalldata(cfg.codec.sum, selector, row.to, row.amount).Err?
  }

  predicate NotCreated(s: State, id: nat)
  {
    id < |s.orders| && s.orders[id].status != Created
  }

  predicate IsTerminal(s: State, id: nat)
  {
    id < |s.orders| && s.orders[id].status.Terminal()
  }

  /** A worker's copy of a row that has its body. */
  predicate SignedCopy(s: State, id: nat, row: Order)
  {
    Snapshot(s, id, row) && row.raw != ""
  }

  lemma SignedCopyIs(s: State, id: nat, row: Order)
    requires SignedCopy(s, id, row)
    ensures var o := s.orders[id]; (o.raw, o.txid, o.from, o.expiredAt) == (row.raw, row.txid, row.from, row.expiredAt)
    ensures var o := s.orders[id]; (o.contract, o.to, o.amount) == (row.contract, row.to, row.amount)
  {
  }

  // -------------------------------------------------------------------- receipts

  /** The receipt holds the transfer this order was supposed to produce. */
  method TransferredIn(cfg: Config, info: TxInfo, row: Order) returns (found: bool)
    ensures found == Transferred(cfg, info, row)
  {
    hide HexToAddress, Tx.ParseUint256, EqualFold;
    var codec := cfg.codec;
    var i := 0;
    while i < |info.log|
      invariant 0 <= i <= |info.log|
      invariant forall j :: 0 <= j < i ==> var t := DecodeLog(codec, info.log[j]); !(t.Some? && Matches(row, t.value))
    {
      var lg := info.log[i];
      i := i + 1;
      if |lg.topics| != 3 || !EqualFold(lg.topics[0], codec.topic) {
        continue;
      }
      var contract := HexToAddress(codec.sum, lg.address);
      if contract.Err? || contract.value != row.contract {
        continue;
      }
      var from := HexToAddress(codec.sum, lg.topics[1]);
      if from.Err? || (row.from != "" && from.value != row.from) {
        continue;
      }
      var to := HexToAddress(codec.sum, lg.topics[2]);
      if to.Err? || to.value != row.to {
        continue;
      }
      var value := Tx.ParseUint256(lg.data);
      if value.Some? && value.value == row.amount {
        return true;
      }
    }
    found := false;
  }

  class Worker {
    const world: World
    const selector: Tx.Selector
    const haltMaxRetries: int
    const txExpirationSec: int

    constructor (world: World, selector: Tx.Selector, haltMaxRetries: int, txExpirationSec: int)
      ensures this.world == world
    {
      this.world, this.selector, this.haltMaxRetries, this.txExpirationSec := world, selector, haltMaxRetries, txExpirationSec;
    }

    // ------------------------------------------------- settling a created order

    /** Only a created order is rejected, and it is no longer created afterwards. */
    method Reject(ghost was: State, id: nat, row: Order, reason: string) returns (ok: bool)
      requires world.From(was) && Snapshot(world.s, id, row)
      modifies world
      ensures world.From(was) && Snapshot(world.s, id, row)
      ensures (world.reliable ==> ok) && (ok ==> NotCreated(world.s, id))
    {
      hide Inv, Later;
      world.Interfere(was);
      SnapshotStays(old(world.s), world.s, id, row);
      var failed := Fails(world.reliable);
      if failed {
        return false;
      }
      if world.s.orders[id].status == Created {
        ghost var mid := world.s;
        world.Update(was, id, Action.Reject(id, reason));
        SnapshotStays(mid, world.s, id, row);
      }
      ok := true;
    }

    function HaltLimit(): (r: int)
    {
      if haltMaxRetries > 0 then haltMaxRetries else DEFAULT_HALT_MAX_RETRIES
    }

    /** Counts the halt, and fails the order when it was halted too often. A failed
        bookkeeping write is ignored. */
    method Halt(ghost was: State, id: nat, row: Order, failCode: string) returns (r: Outcome)
      requires world.From(was) && Snapshot(world.s, id, row)
      modifies world
      ensures world.From(was) && Snapshot(world.s, id, row)
      ensures r == Halted <==> row.haltCount + 1 < HaltLimit()
      ensures r == Halted || r == HaltedFailed || (r == Fault && !world.reliable)
      ensures r == HaltedFailed ==> NotCreated(world.s, id)
      ensures r == Halted && world.reliable ==>
                NotCreated(world.s, id) || (world.s.orders[id].haltCount == row.haltCount + 1 && world.s.orders[id].failCode == failCode)
    {
      hide Inv, Later;
      var attempt := row.haltCount + 1;
      if attempt >= HaltLimit() {
        var ok := FailHalted(was, id, row, failCode, attempt);
        return if ok then HaltedFailed else Fault;
      }
      world.Interfere(was);
      SnapshotStays(old(world.s), world.s, id, row);
      var failed := Fails(world.reliable);
      if !failed && world.s.orders[id].status == Created {
        ghost var mid := world.s;
        world.Update(was, id, Action.Halt(id, attempt, failCode));
        SnapshotStays(mid, world.s, id, row);
      }
      r := Halted;
    }

    method FailHalted(ghost was: State, id: nat, row: Order, failCode: string, attempt: nat) returns (ok: bool)
      requires world.From(was) && Snapshot(world.s, id, row)
      modifies world
      ensures world.From(was) && Snapshot(world.s, id, row)
      ensures (world.reliable ==> ok) && (ok ==> NotCreated(world.s, id))
    {
      hide Inv, Later;
      world.Interfere(was);
      SnapshotStays(old(world.s), world.s, id, row);
      var failed := Fails(world.reliable);
      if failed {
        return false;
      }
      if world.s.orders[id].status == Created {
        ghost var mid := world.s;
        world.Update(was, id, Action.FailHalted(id, attempt, failCode));
        SnapshotStays(mid, world.s, id, row);
      }
      ok := true;
    }

    // ----------------------------------------------------------- the balance check

    /** The sum query over the rows of the payer and token that are in flight. */
    method InflightUnits(contract: string, from: string) returns (sum: int)
      requires Inv(world.cfg, world.s) && from == world.cfg.hot
      ensures sum == InFlightUnits(world.s, contract)
    {
      hide Inv;
      var i := 0;
      sum := 0;
      var rows := world.s.orders;
      while i < |rows|
        invariant 0 <= i <= |rows|
        invariant sum == Total(rows[..i], InFlightWeight(contract))
      {
        InFlightRow(world.cfg, world.s, i);
        assert rows[..i + 1][..i] == rows[..i];
        if rows[i].from == from && rows[i].contract == contract && rows[i].status.InFlight() {
          sum := sum + rows[i].amount;
        }
        i := i + 1;
      }
      assert rows[..i] == rows;
    }

    /** Whether the balance read covers the amount and what was then summed up as in
        flight. If so there is room for it, also in later states of a sole worker. */
    method CheckBalance(ghost was: State, id: nat, row: Order, contract: string, amount: int)
      returns (enough: bool, r: Outcome, ghost read: State, ghost summed: State)
      requires world.From(was) && Snapshot(world.s, id, row)
      modifies world
      ensures world.From(was) && Snapshot(world.s, id, row) && Inv(world.cfg, world.s)
      ensures enough ==> Room(world.cfg, world.sole, world.s, contract, amount)
      ensures enough || r == Fault || r == Halted || (r == HaltedFailed && NotCreated(world.s, id))
      ensures enough || r != Fault ==>
                && Later(old(world.s), read) && Later(read, summed)
                && (enough <==> amount + InFlightUnits(summed, contract) <= Balance(world.cfg, read, contract))
      ensures world.reliable ==> enough || r != Fault
    {
      hide Inv, Later, Room, Moved;
      enough, r, read, summed := false, Fault, world.s, world.s;
      world.Interfere(was);
      SnapshotStays(old(world.s), world.s, id, row);
      read := world.s;
      var unread := Fails(world.reliable);
      if unread {
        return;
      }
      var balance := Balance(world.cfg, world.s, contract);
      world.Interfere(was);
      SnapshotStays(read, world.s, id, row);
      summed := world.s;
      var unsummed := Fails(world.reliable);
      if unsummed {
        return;
      }
      var inflight := InflightUnits(contract, world.cfg.hot);
      var needed := amount + inflight;
      if balance >= needed {
        RoomByCheck(world.cfg, world.sole, read, world.s, contract, amount);
        enough := true;
        return;
      }
      r := Halt(was, id, row, FAIL_BALANCE);
      world.Ends(was);
    }

    // ------------------------------------------------------------------- execution

    /** riskCheck: an error, a reason to reject, or neither. */
    method RiskCheck(row: Order, a: Answers) returns (ok: bool, refused: bool)
      ensures world.reliable ==> ok
      ensures ok ==> (refused <==> !IsValidAddress(world.cfg.codec.sum, row.to) || a.listed || row.amount <= 0 || a.overLimit)
    {
      if !IsValidAddress(world.cfg.codec.sum, row.to) {
        return true, true;
      }
      var failed := Fails(world.reliable);
      if failed {
        return false, false;
      }
      if a.listed || row.amount <= 0 {
        return true, true;
      }
      return true, a.overLimit;
    }

    /** From created to signed and on the network, or rejected, halted or left for
        the next round. A sole worker stays solvent: From says so. */
    method Execute(ghost was: State, id: nat, row: Order, a: Answers) returns (r: Outcome)
      requires world.From(was) && Snapshot(world.s, id, row)
      modifies world
      ensures world.From(was) && Snapshot(world.s, id, row)
      ensures r == Underway || r == TurnedDown || r == HaltedFailed ==> NotCreated(world.s, id)
      ensures r == Busy <==> !a.granted
      ensures world.reliable && a.granted ==> (r == TurnedDown <==> Rejectable(world.cfg, selector, row, a))
      ensures world.reliable && r == Fault ==> a.fee == Unknown || !SignedFor(world.cfg, row, a.body)
      ensures r == Underway ==> SignedFor(world.cfg, row, a.body) && a.fee == Covered
    {
      hide Inv, Later, Room, Moved, Tx.TransferCalldata, IsValidAddress, SignedFor;
      if !a.granted {
        return Busy;
      }
      var ok, refused := RiskCheck(row, a);
      if !ok {
        return Fault;
      }
      var token := world.cfg.token(row.symbol);
      var data := Tx.EncodeTRC20Transfer(world.cfg.codec.sum, selector, row.to, row.amount);
      if refused || token.None? || row.amount <= 0 || data.Err? {
        var reason := if refused then "risk" else if token.None? then "unsupported symbol " + row.symbol
                      else if row.amount <= 0 then "invalid amount" else "invalid destination";
        var written := Reject(was, id, row, reason);
        return if written then TurnedDown else Fault;
      }
      r := PayOut(was, id, row, token.value, a);
    }

    /** Balance, fee, body, signature: in this order. */
    method PayOut(ghost was: State, id: nat, row: Order, contract: string, a: Answers) returns (r: Outcome)
      requires world.From(was) && Snapshot(world.s, id, row) && world.cfg.token(row.symbol) == Some(contract)
      modifies world
      ensures world.From(was) && Snapshot(world.s, id, row)
      ensures r == Fault || r == Halted || (r == HaltedFailed && NotCreated(world.s, id)) || (r == Underway && NotCreated(world.s, id))
      ensures world.reliable && r == Fault ==> a.fee == Unknown || !SignedFor(world.cfg, row, a.body)
      ensures r == Underway ==> SignedFor(world.cfg, row, a.body) && a.fee == Covered
    {
      hide Inv, Later, Room, Moved, SignedFor;
      var enough, halted, read, summed := CheckBalance(was, id, row, contract, row.amount);
      if !enough {
        return halted;
      }
      ghost var checked := world.s;
      world.Interfere(was);
      SnapshotStays(checked, world.s, id, row);
      RoomStays(world.cfg, world.sole, checked, world.s, contract, row.amount);
      if a.fee == Unknown {
        return Fault;
      }
      if a.fee == Uncovered {
        r := Halt(was, id, row, FAIL_ENERGY);
        return;
      }
      if !SignedFor(world.cfg, row, a.body) {
        return Fault;
      }
      ghost var won: bool;
      r, won := SignAndSend(was, id, row, a.body);
    }

    /** The created-to-signed swap for a body the signer vouches for, and its first
        broadcast; if another worker was first, nothing. */
    method SignAndSend(ghost was: State, id: nat, row: Order, raw: string) returns (r: Outcome, ghost won: bool)
      requires world.From(was) && Snapshot(world.s, id, row) && SignedFor(world.cfg, row, raw)
      requires Inv(world.cfg, world.s) && Room(world.cfg, world.sole, world.s, world.cfg.token(row.symbol).value, row.amount)
      modifies world
      ensures world.From(was) && Snapshot(world.s, id, row)
      ensures (r == Fault && !world.reliable) || (r == Underway && NotCreated(world.s, id))
      ensures won ==> world.s.orders[id].raw == raw && (world.reliable ==> (id, raw) in world.s.sent)
      ensures world.sole && r == Underway && old(world.s.orders[id].status) == Created ==> won
    {
      hide Inv, Later, Room, DeepIsSolid, SentBound, Moved;
      won := false;
      world.Interfere(was);
      SnapshotStays(old(world.s), world.s, id, row);
      RoomStays(world.cfg, world.sole, old(world.s), world.s, world.cfg.token(row.symbol).value, row.amount);
      OthersLeave(world.cfg, world.sole, old(world.s), world.s, id);
      var failed := Fails(world.reliable);
      if failed {
        return Fault, won;
      }
      if world.s.orders[id].status != Created {
        return Underway, won;
      }
      ghost var mid := world.s;
      SignedForCopy(world.cfg, mid, id, row, raw);
      world.DoSign(was, id, raw, world.s.now + ExpirationSeconds());
      SnapshotStays(mid, world.s, id, row);
      Broadcast(was, id, world.s.orders[id]);
      r, won := Underway, true;
    }

    function ExpirationSeconds(): (r: nat)
    {
      if txExpirationSec > 0 then txExpirationSec else DEFAULT_EXPIRATION_SECONDS
    }

    /** Sends the body just signed. A refusal for good settles the order at once;
        anything else leaves it to reconciliation. */
    method Broadcast(ghost was: State, id: nat, row: Order)
      requires world.From(was) && SignedCopy(world.s, id, row) && row.txid == world.cfg.txidOf(row.raw)
      modifies world
      ensures world.From(was) && SignedCopy(world.s, id, row)
      ensures world.reliable ==> (id, row.raw) in world.s.sent && world.s.orders[id].status != Status.Signed
    {
      hide Inv, Later, DeepIsSolid;
      SignedCopyIs(world.s, id, row);
      var result := world.Send(was, id, row.raw);
      SnapshotStays(old(world.s), world.s, id, row);
      ghost var sent := world.s;
      if result.Permanent? {
        var settled := Finish(was, id, row, false, result.code, Evidence.Refused);
        SentLater(sent, world.s);
        return;
      }
      world.Interfere(was);
      SnapshotStays(sent, world.s, id, row);
      SentLater(sent, world.s);
      var failed := Fails(world.reliable);
      if !failed && world.s.orders[id].status == Status.Signed {
        ghost var mid := world.s;
        world.Update(was, id, MarkBroadcast(id, if result.Unclear? then result.code else ""));
        SnapshotStays(mid, world.s, id, row);
      }
    }

    // ---------------------------------------------------------------- settlement

    /** Settles an order in flight on the evidence given, if it still is in flight. */
    method Finish(ghost was: State, id: nat, row: Order, confirmed: bool, failCode: string, why: Evidence) returns (ok: bool)
      requires world.From(was) && SignedCopy(world.s, id, row)
      requires if confirmed then why.Receipt? && PaidBy(world.cfg, world.s, row, why) else Proves(world.cfg, world.s, row, why)
      modifies world
      ensures world.From(was) && SignedCopy(world.s, id, row) && Later(old(world.s), world.s)
      ensures (world.reliable ==> ok) && (ok ==> IsTerminal(world.s, id))
    {
      hide Inv, Later, DeepIsSolid, Proves, PaidBy, OrderLater, Enabled, Apply, Kept;
      world.Ends(was);
      InvBounds(world.cfg, world.s);
      world.Interfere(was);
      SnapshotStays(old(world.s), world.s, id, row);
      EvidenceStays(world.cfg, old(world.s), world.s, id, row, why, confirmed);
      var failed := Fails(world.reliable);
      if failed {
        return false;
      }
      CopyStatus(world.cfg, world.s, id, row);
      if world.s.orders[id].status.InFlight() {
        var code := if !confirmed && failCode == "" then FAIL_UNKNOWN else failCode;
        var a := if confirmed then Confirm(id, why.k) else Fail(id, why, code);
        ghost var mid := world.s;
        FinishReady(world.cfg, mid, id, row, why, confirmed, code);
        world.Update(was, id, a);
        SnapshotStays(mid, world.s, id, row);
        LaterTrans(old(world.s), mid, world.s);
        FinishDone(world.cfg, mid, a, world.s);
      }
      ok := true;
    }

    /** The receipt a settlement may rest on, if it is irreversible already. */
    method FinalInfo(ghost was: State, txid: string, head: int) returns (ok: bool, info: Option<TxInfo>, k: nat)
      requires world.From(was) && (world.cfg.solidityConfirm || head <= was.head)
      modifies world
      ensures world.From(was) && Later(old(world.s), world.s) && Inv(world.cfg, world.s)
      ensures ok && info.Some? ==> FinalEntry(world.cfg, world.s, txid, k) && world.s.chain[k].info == info.value
      ensures ok && info.None? ==> NotFinal(world.cfg, world.s, txid, head)
      ensures world.reliable ==> ok
    {
      hide Inv, OrdersLater;
      ok, info, k := world.TxInfoById(was, txid, world.cfg.solidityConfirm);
      world.Ends(was);
      InvBounds(world.cfg, world.s);
      if world.cfg.solidityConfirm || !ok || info.None? {
        return;
      }
      if head - info.value.blockNumber < world.cfg.confirmBlocks {
        OnlyEntry(world.cfg, world.s, txid, k, head);
        info := None;
      }
    }

    /** The signer signs the stored body again: for an allowed contract, and to the
        stored txid. */
    predicate Resignable(row: Order)
    {
      world.allowed(row.contract) && row.txid == world.cfg.txidOf(row.raw)
    }

    /** Sends the stored body again. It is signed anew, and only under its own txid. */
    method Rebroadcast(ghost was: State, id: nat, row: Order) returns (r: Settlement)
      requires world.From(was) && SignedCopy(world.s, id, row)
      modifies world
      ensures world.From(was) && SignedCopy(world.s, id, row)
      ensures r == Resent ==> (id, row.raw) in world.s.sent
      ensures r == Settled ==> IsTerminal(world.s, id)
      ensures r != Skipped && r != Waiting && Later(old(world.s), world.s)
      ensures !Resignable(row) ==> r == Failing && unchanged(world)
      ensures world.reliable && Resignable(row) ==> r != Failing
    {
      hide Inv, Later, DeepIsSolid, PaidBy;
      world.Ends(was);
      InvBounds(world.cfg, world.s);
      LaterSelf(world.s);
      var unsigned := Fails(world.reliable);
      if unsigned || !world.allowed(row.contract) {
        return Failing;
      }
      var txid := world.cfg.txidOf(row.raw);
      if txid != row.txid {
        return Failing;
      }
      SignedCopyIs(world.s, id, row);
      var res := world.Send(was, id, row.raw);
      SnapshotStays(old(world.s), world.s, id, row);
      match res
      case Accepted => r := Resent;
      case Unclear(_) => r := Failing;
      case Permanent(code) =>
        ghost var refused := world.s;
        var done := Finish(was, id, row, false, code, Evidence.Refused);
        LaterTrans(old(world.s), refused, world.s);
        r := if done then Settled else Failing;
    }

    /** An order whose txid was missing at readAt, the clock at `now` since. */
    method SettleAbsent(ghost was: State, id: nat, row: Order, readAt: int, now: int) returns (r: Settlement)
      requires world.From(was) && SignedCopy(world.s, id, row)
      requires (row.txid, readAt) in world.s.absent && readAt <= now <= world.s.now && now - readAt <= world.cfg.latency
      modifies world
      ensures world.From(was) && SignedCopy(world.s, id, row)
      ensures r == Resent ==> now < row.expiredAt && (id, row.raw) in world.s.sent && MissingBefore(world.s, row.txid, row.expiredAt)
      ensures r == Settled ==> IsTerminal(world.s, id)
      ensures r == Resent || r == Settled || r == Failing
      ensures world.reliable && (now >= row.expiredAt || Resignable(row)) ==> r != Failing
    {
      hide Inv, Later, DeepIsSolid, Pays;
      if now < row.expiredAt {
        ghost var missing := world.s;
        assert MissingBefore(missing, row.txid, row.expiredAt);
        r := Rebroadcast(was, id, row);
        MissingStays(missing, world.s, row.txid, row.expiredAt);
      } else {
        var done := Finish(was, id, row, false, FAIL_EXPIRED, Lapsed(readAt, now));
        r := if done then Settled else Failing;
      }
    }

    /** One order in flight against the chain: sent again while missing and not
        expired, failed once expired, settled by its irreversible receipt. */
    method ReconcileOne(ghost was: State, id: nat, row: Order, head: int) returns (r: Settlement)
      requires world.From(was) && Snapshot(world.s, id, row) && (row.txid != "" ==> row.raw != "") && (world.cfg.solidityConfirm || head <= was.head)
      modifies world
      ensures world.From(was) && Snapshot(world.s, id, row)
      ensures r == Skipped <==> row.txid == ""
      ensures r == Resent ==> (id, row.raw) in world.s.sent && MissingBefore(world.s, row.txid, row.expiredAt)
      ensures r == Settled ==> IsTerminal(world.s, id)
      ensures r == Waiting ==> NotFinal(world.cfg, world.s, row.txid, head)
      ensures world.reliable && Resignable(row) ==> r != Failing
    {
      hide Inv, OrdersLater, DeepIsSolid, PaidBy, OrderLater, MissingBefore, NotFinal;
      if row.txid == "" {
        return Skipped;
      }
      var ok, info, k := world.TxInfoById(was, row.txid, false);
      SnapshotStays(old(world.s), world.s, id, row);
      if !ok {
        return Failing;
      }
      ghost var read := world.s;
      var readAt := world.s.now;
      world.InterfereBriefly(was, world.cfg.latency);
      SnapshotStays(read, world.s, id, row);
      var now := world.s.now;
      if info.None? {
        r := SettleAbsent(was, id, row, readAt, now);
        return;
      }
      r := SettleByReceipt(was, id, row, head);
    }

    /** An order whose txid is on the chain: it waits for the irreversible receipt,
        and is then paid or failed as that receipt says. */
    method SettleByReceipt(ghost was: State, id: nat, row: Order, head: int) returns (r: Settlement)
      requires world.From(was) && SignedCopy(world.s, id, row) && (world.cfg.solidityConfirm || head <= was.head)
      modifies world
      ensures world.From(was) && SignedCopy(world.s, id, row)
      ensures r == Waiting ==> NotFinal(world.cfg, world.s, row.txid, head)
      ensures r == Waiting || (r == Settled && IsTerminal(world.s, id)) || (r == Failing && !world.reliable)
    {
      hide Inv, Later, DeepIsSolid, PaidBy, OrderLater, Transferred;
      var ok, final, k := FinalInfo(was, row.txid, head);
      SnapshotStays(old(world.s), world.s, id, row);
      if !ok {
        return Failing;
      }
      if final.None? {
        return Waiting;
      }
      ReceiptDecides(world.cfg, world.s, row, k);
      var done: bool;
      if !final.value.Succeeded() {
        done := Finish(was, id, row, false, "receipt", Receipt(k));
      } else {
        var paid := TransferredIn(world.cfg, final.value, row);
        if !paid {
          done := Finish(was, id, row, false, FAIL_NO_TRANSFER, Receipt(k));
        } else {
          done := Finish(was, id, row, true, "", Receipt(k));
        }
      }
      r := if done then Settled else Failing;
    }

    /** At most `limit` rows with a wanted status, by ascending id. */
    method Query(ghost was: State, limit: nat, wanted: Status -> bool) returns (ids: seq<nat>, rows: seq<Order>)
      requires world.From(was)
      modifies world
      ensures world.From(was) && Inv(world.cfg, world.s) && Copies(world.s, ids, rows)
      ensures forall i :: 0 <= i < |ids| ==> wanted(rows[i].status) && OrderShape(world.cfg, rows[i])
      ensures Batch(world.s, ids, limit, wanted)
    {
      hide Inv, Later, DeepIsSolid, Kept, OrderShape, OrderLater, Copies;
      world.Interfere(was);
      ids, rows := [], [];
      NoCopies(world.s);
      var i := 0;
      while i < |world.s.orders| && |ids| < limit
        invariant world.From(was) && Inv(world.cfg, world.s)
        invariant 0 <= i <= |world.s.orders| && |ids| == |rows| <= limit && Copies(world.s, ids, rows)
        invariant forall j :: 0 <= j < |ids| ==> wanted(rows[j].status) && OrderShape(world.cfg, rows[j])
        invariant forall j :: 0 <= j < |ids| ==> ids[j] < i && wanted(world.s.orders[ids[j]].status)
        invariant forall j: nat :: j < i && wanted(world.s.orders[j].status) ==> j in ids
      {
        if wanted(world.s.orders[i].status) {
          ShapeAt(world.cfg, world.s, i);
          CopiesSnoc(world.s, ids, rows, i);
          ids, rows := ids + [i], rows + [world.s.orders[i]];
        }
        i := i + 1;
      }
    }

    /** The batch of orders in flight, each against the chain. What was settled is
        terminal; in a reliable deployment nothing fails but orders of a contract the
        signer no longer allows. */
    method Reconcile(ghost was: State) returns (ok: bool, ghost queried: State, ghost ids: seq<nat>, ghost results: seq<Settlement>)
      requires world.From(was)
      modifies world
      ensures world.From(was) && (world.reliable ==> ok)
      ensures Batch(queried, ids, 100, (st: Status) => st.InFlight()) && Later(was, queried) && Later(queried, world.s)
      ensures ok ==> |results| == |ids| && forall k :: 0 <= k < |ids| && results[k] == Settled ==> IsTerminal(world.s, ids[k])
      ensures ok && world.reliable ==>
                forall k :: 0 <= k < |ids| && world.allowed(queried.orders[ids[k]].contract) ==> results[k] != Failing
    {
      hide Inv, Later, DeepIsSolid, Snapshot, OrderShape, Copies, Kept, Moved, Batch;
      var work, rows := Query(was, 100, (st: Status) => st.InFlight());
      ids, results := work, [];
      CopiesMatch(world.s, work, rows);
      CopiesSigned(world.cfg, rows);
      queried := world.s;
      KeptEnds(world.cfg, world.sole, was, queried);
      world.Interfere(was);
      CopiesStay(queried, world.s, work, rows);
      var failed := Fails(world.reliable);
      if failed {
        return false, queried, ids, results;
      }
      ghost var start := world.s;
      world.Ends(was);
      KeptSelf(world.cfg, world.sole, start);
      results := ReconcileAll(start, work, rows);
      Continues(world.cfg, world.sole, was, start, world.s);
      Ordered(world.cfg, queried, start, world.s);
      ok := true;
    }

    /** The rows of a batch in turn, all against the head read first. */
    method ReconcileAll(ghost start: State, work: seq<nat>, rows: seq<Order>) returns (ghost results: seq<Settlement>)
      requires world.From(start) && start == world.s && Copies(start, work, rows)
      requires forall i :: 0 <= i < |rows| ==> rows[i].raw != "" && rows[i].txid == world.cfg.txidOf(rows[i].raw)
      modifies world
      ensures world.From(start) && |results| == |work| == |rows|
      ensures forall k :: 0 <= k < |work| && results[k] == Settled ==> IsTerminal(world.s, work[k])
      ensures world.reliable ==> forall k :: 0 <= k < |work| && world.allowed(rows[k].contract) ==> results[k] != Failing
    {
      hide Inv, Later, DeepIsSolid, Snapshot, OrderShape, Copies, Kept, Moved;
      var head := if world.cfg.solidityConfirm then 0 else world.s.head;
      results := [];
      CopiesMatch(start, work, rows);
      var i := 0;
      while i < |work|
        invariant world.From(start) && 0 <= i <= |work| && |results| == i
        invariant forall k :: 0 <= k < i && results[k] == Settled ==> IsTerminal(world.s, work[k])
        invariant world.reliable ==> forall k :: 0 <= k < i && world.allowed(rows[k].contract) ==> results[k] != Failing
      {
        ghost var mid := world.s;
        CopiesFrom(world.cfg, world.sole, start, mid, work, rows);
        CopiesMatch(mid, work, rows);
        Restarts(world.cfg, world.sole, start, mid);
        var r := ReconcileOne(mid, work[i], rows[i], head);
        Continues(world.cfg, world.sole, start, mid, world.s);
        forall k | 0 <= k < i && results[k] == Settled ensures IsTerminal(world.s, work[k]) {
          TerminalStays(mid, world.s, work[k]);
        }
        results := results + [r];
        i := i + 1;
      }
    }

    /** The batch of created orders. Those that were moved on are no longer created. */
    method ProcessCreated(ghost was: State) returns (ok: bool, ghost queried: State, ghost ids: seq<nat>, ghost results: seq<Outcome>)
      requires world.From(was)
      modifies world
      ensures world.From(was) && (world.reliable ==> ok)
      ensures ok ==> Batch(queried, ids, 20, (st: Status) => st.Created?) && Later(was, queried) && Later(queried, world.s)
      ensures ok ==> |results| == |ids|
      ensures ok ==> forall k :: 0 <= k < |ids| && results[k] in {Underway, TurnedDown, HaltedFailed} ==> NotCreated(world.s, ids[k])
    {
      hide Inv, Later, DeepIsSolid, Snapshot, OrderShape, Copies, Kept, Moved, Batch;
      queried, ids, results := world.s, [], [];
      var failed := Fails(world.reliable);
      if failed {
        return false, queried, ids, results;
      }
      var work, rows := Query(was, 20, (st: Status) => st.Created?);
      queried, ids := world.s, work;
      KeptEnds(world.cfg, world.sole, was, queried);
      KeptSelf(world.cfg, world.sole, queried);
      var i := 0;
      while i < |work|
        invariant world.From(queried) && 0 <= i <= |work| == |ids| && |results| == i && ids == work
        invariant forall k :: 0 <= k < i && results[k] in {Underway, TurnedDown, HaltedFailed} ==> NotCreated(world.s, ids[k])
      {
        ghost var mid := world.s;
        CopiesFrom(world.cfg, world.sole, queried, mid, work, rows);
        CopiesMatch(mid, work, rows);
        Restarts(world.cfg, world.sole, queried, mid);
        var a := AnyAnswers();
        var r := Execute(mid, work[i], rows[i], a);
        Continues(world.cfg, world.sole, queried, mid, world.s);
        forall k | 0 <= k < i && results[k] in {Underway, TurnedDown, HaltedFailed} ensures NotCreated(world.s, ids[k]) {
          NotCreatedStays(mid, world.s, ids[k]);
        }
        results := results + [r];
        i := i + 1;
      }
      Continues(world.cfg, world.sole, was, queried, world.s);
      KeptEnds(world.cfg, world.sole, queried, world.s);
      ok := true;
    }

    /** Any number of rounds from empty tables. Whatever the others did, the state is
        one the protocol reaches, and a sole worker in a sound deployment leaves the
        hot wallet with what the orders in flight will take. */
    method Run(rounds: nat)
      requires world.From(Empty)
      modifies world
      ensures Reaches(world.cfg, Empty, world.s)
      ensures world.sole && Configured(world.cfg, world.s) ==>
                forall c :: Pending(world.cfg, world.s, |world.s.chain|, c) <= Balance(world.cfg, world.s, c)
    {
      hide Inv, Later, DeepIsSolid, Configured, Pending, Balance, Kept;
      var i := 0;
      while i < rounds
        invariant 0 <= i <= rounds && world.From(Empty)
      {
        var executed, created, ids, outcomes := ProcessCreated(Empty);
        var reconciled, open, ids', settlements := Reconcile(Empty);
        i := i + 1;
      }
      KeptCovers(world.cfg, world.sole, world.s);
    }
  }

  lemma {:induction false} KeptCovers(cfg: Config, sole: bool, s: State)
    requires Kept(cfg, sole, Empty, s)
    ensures Reaches(cfg, Empty, s)
    ensures sole && Configured(cfg, s) ==> forall c :: Pending(cfg, s, |s.chain|, c) <= Balance(cfg, s, c)
  {
    hide Inv, Later, DeepIsSolid, Configured, Pending, Reaches, Spent, Solvent;
    InvBounds(cfg, s);
    if sole && Configured(cfg, s) {
      forall c ensures Pending(cfg, s, |s.chain|, c) <= Balance(cfg, s, c) {
        EmptySolvent(cfg, c);
        SolventSlack(cfg, s, c);
        SlackClimbs(cfg, s, s.solid, |s.chain|, c);
        assert s.chain[..|s.chain|] == s.chain;
      }
    }
  }

  lemma EmptySolvent(cfg: Config, c: string)
    ensures Solvent(cfg, Empty, c)
  {
    EmptySlack(cfg, c);
  }

  lemma SolventSlack(cfg: Config, s: State, c: string)
    requires Solvent(cfg, s, c)
    ensures s.solid <= |s.chain| && Slack(cfg, s, s.solid, c) >= 0
  {
    hide Slack;
  }

  lemma CopiesFrom(cfg: Config, sole: bool, start: State, s: State, ids: seq<nat>, rows: seq<Order>)
    requires Kept(cfg, sole, start, s) && Copies(start, ids, rows)
    ensures Copies(s, ids, rows)
  {
    hide Inv, Later, DeepIsSolid, Snapshot;
    CopiesStay(start, s, ids, rows);
  }

  lemma ShapeAt(cfg: Config, s: State, i: nat)
    requires Inv(cfg, s) && i < |s.orders|
    ensures OrderShape(cfg, s.orders[i]) && OrderLater(s.orders[i], s.orders[i])
  {
    hide ChainOnce, SentBound, OutboxExact, OutcomesJustified, NetworkKept, OrderShape;
  }

  lemma CopiesMatch(s: State, ids: seq<nat>, rows: seq<Order>)
    requires Copies(s, ids, rows)
    ensures |ids| == |rows| && forall i :: 0 <= i < |ids| ==> Snapshot(s, ids[i], rows[i])
    ensures forall i :: 0 <= i < |ids| ==> ids[i] < |s.orders| && rows[i].contract == s.orders[ids[i]].contract
  {
  }

  lemma CopiesSigned(cfg: Config, rows: seq<Order>)
    requires forall i :: 0 <= i < |rows| ==> rows[i].status.InFlight() && OrderShape(cfg, rows[i])
    ensures forall i :: 0 <= i < |rows| ==> rows[i].raw != "" && rows[i].txid == cfg.txidOf(rows[i].raw)
  {
  }

  /** No receipt of the txid counts as irreversible yet. */
  predicate NotFinal(cfg: Config, s: State, txid: string, head: int)
  {
    if cfg.solidityConfirm then s.solid <= |s.chain| && !InChain(cfg, s.chain[..s.solid], txid)
    else forall k :: 0 <= k < |s.chain| && cfg.txidOf(s.chain[k].raw) == txid ==> head - s.chain[k].info.blockNumber < cfg.confirmBlocks
  }

  /** A node reported the txid missing before the given time. */
  ghost predicate MissingBefore(s: State, txid: string, time: int)
  {
    exists at :: (txid, at) in s.absent && at < time
  }

  lemma MissingStays(s: State, s': State, txid: string, time: int)
    requires MissingBefore(s, txid, time) && Later(s, s')
    ensures MissingBefore(s', txid, time)
  {
    var at :| (txid, at) in s.absent && at < time;
    assert (txid, at) in s'.absent;
  }

  lemma {:induction false} OnlyEntry(cfg: Config, s: State, txid: string, k: nat, head: int)
    requires Inv(cfg, s) && k < |s.chain| && cfg.txidOf(s.chain[k].raw) == txid && !cfg.solidityConfirm
    requires head - s.chain[k].info.blockNumber < cfg.confirmBlocks
    ensures NotFinal(cfg, s, txid, head)
  {
    hide Inv;
    forall j | 0 <= j < |s.chain| && cfg.txidOf(s.chain[j].raw) == txid ensures j == k {
      IncludedOnce(cfg, s, j, k);
    }
  }

  /** With a sole worker nobody else moves an order it has not signed. */
  lemma {:induction false} OthersLeave(cfg: Config, sole: bool, s: State, s': State, id: nat)
    requires Moved(cfg, sole, s, s') && id < |s.orders|
    ensures sole ==> id < |s'.orders| && s'.orders[id] == s.orders[id]
  {
    hide Next;
    if sole {
      var states, actions :| OthersRun(cfg, sole, states, actions) && states[0] == s && states[|actions|] == s';
      OutsideRow(cfg, states, actions, |actions|, id);
    }
  }

  lemma {:induction false} OutsideRow(cfg: Config, states: seq<State>, actions: seq<Action>, n: nat, id: nat)
    requires OthersRun(cfg, true, states, actions) && n <= |actions| && id < |states[0].orders|
    ensures id < |states[n].orders| && states[n].orders[id] == states[0].orders[id]
  {
    hide Next;
    if n > 0 {
      OutsideRow(cfg, states, actions, n - 1, id);
      assert Next(cfg, states[n - 1], actions[n - 1], states[n]) && Outside(actions[n - 1]);
      StepFrame(cfg, states[n - 1], actions[n - 1], states[n]);
    }
  }

  /** An irreversible receipt either pays the copy of the order or proves it unpaid. */
  lemma ReceiptDecides(cfg: Config, s: State, row: Order, k: nat)
    requires FinalEntry(cfg, s, row.txid, k)
    ensures s.chain[k].info.Succeeded() && Transferred(cfg, s.chain[k].info, row) ==> PaidBy(cfg, s, row, Receipt(k))
    ensures !(s.chain[k].info.Succeeded() && Transferred(cfg, s.chain[k].info, row)) ==> Proves(cfg, s, row, Receipt(k))
  {
    hide Transferred;
  }

  /** The first `limit` rows with a wanted status. */
  ghost predicate Batch(s: State, ids: seq<nat>, limit: nat, wanted: Status -> bool)
  {
    && |ids| <= limit
    && (forall k :: 0 <= k < |ids| ==> ids[k] < |s.orders| && wanted(s.orders[ids[k]].status))
    && (forall i: nat :: i < |s.orders| && wanted(s.orders[i].status) ==> i in ids || (|ids| == limit && forall k :: 0 <= k < limit ==> ids[k] < i))
  }

  lemma Restarts(cfg: Config, sole: bool, s: State, t: State)
    requires Kept(cfg, sole, s, t)
    ensures Inv(cfg, t) && Kept(cfg, sole, t, t) && s.head <= t.head
  {
    hide Inv, DeepIsSolid, Reaches, Covers;
    KeptSelf(cfg, sole, t);
  }

  lemma Continues(cfg: Config, sole: bool, s: State, t: State, u: State)
    requires Inv(cfg, s) && Kept(cfg, sole, s, t) && Kept(cfg, sole, t, u)
    ensures Kept(cfg, sole, s, u) && Later(t, u)
  {
    hide Inv, DeepIsSolid, Reaches, Covers, Later;
    KeptTrans(cfg, sole, s, t, u);
  }

  lemma Ordered(cfg: Config, s: State, t: State, u: State)
    requires Inv(cfg, s) && Later(s, t) && Later(t, u)
    ensures Later(s, u)
  {
    hide Inv, Later;
    InvBounds(cfg, s);
    LaterTrans(s, t, u);
  }

  lemma TerminalStays(s: State, s': State, id: nat)
    requires IsTerminal(s, id) && Later(s, s')
    ensures IsTerminal(s', id)
  {
    assert OrderLater(s.orders[id], s'.orders[id]);
  }

  lemma NotCreatedStays(s: State, s': State, id: nat)
    requires NotCreated(s, id) && Later(s, s')
    ensures NotCreated(s', id)
  {
    assert OrderLater(s.orders[id], s'.orders[id]);
  }

  /** Copies of several rows. */
  predicate Copies(s: State, ids: seq<nat>, rows: seq<Order>)
  {
    |ids| == |rows| && forall i :: 0 <= i < |ids| ==> Snapshot(s, ids[i], rows[i])
  }

  lemma NoCopies(s: State)
    ensures Copies(s, [], [])
  {
  }

  lemma CopiesSnoc(s: State, ids: seq<nat>, rows: seq<Order>, i: nat)
    requires Copies(s, ids, rows) && i < |s.orders|
    ensures Copies(s, ids + [i], rows + [s.orders[i]])
  {
  }

  lemma CopiesStay(s: State, s': State, ids: seq<nat>, rows: seq<Order>)
    requires Copies(s, ids, rows) && Later(s, s')
    ensures Copies(s', ids, rows)
  {
    hide Snapshot, Later;
    forall i | 0 <= i < |ids| ensures Snapshot(s', ids[i], rows[i]) {
      SnapshotStays(s, s', ids[i], rows[i]);
    }
  }

  /** The irreversible receipt named by the evidence pays the order. */
  predicate PaidBy(cfg: Config, s: State, o: Order, why: Evidence)
  {
    why.Receipt? && FinalEntry(cfg, s, o.txid, why.k) && Pays(cfg, s.chain[why.k].info, o)
  }

  /** Evidence about a signed copy is evidence about the row, now and later. */
  lemma {:induction false} EvidenceStays(cfg: Config, s: State, s': State, id: nat, row: Order, why: Evidence, confirmed: bool)
    requires Later(s, s') && SignedCopy(s', id, row)
    requires if confirmed then PaidBy(cfg, s, row, why) else Proves(cfg, s, row, why)
    ensures if confirmed then PaidBy(cfg, s', row, why) else Proves(cfg, s', row, why)
    ensures if confirmed then PaidBy(cfg, s', s'.orders[id], why) else Proves(cfg, s', s'.orders[id], why)
  {
    hide Pays;
    SignedCopyIs(s', id, row);
    if !confirmed { ProofsLast(cfg, s, s', row, why); }
    forall info ensures Pays(cfg, info, s'.orders[id]) == Pays(cfg, info, row) {
      PaysIgnoresOutcome(cfg, info, row, s'.orders[id]);
    }
  }

  lemma CopyStatus(cfg: Config, s: State, id: nat, row: Order)
    requires Inv(cfg, s) && SignedCopy(s, id, row)
    ensures s.orders[id].status.InFlight() || s.orders[id].status.Terminal()
  {
    SignedCopyIs(s, id, row);
    StoredStatus(cfg, s, id);
  }

  lemma FinishReady(cfg: Config, s: State, id: nat, row: Order, why: Evidence, confirmed: bool, code: string)
    requires IsInFlight(s, id) && (!confirmed ==> code != "")
    requires if confirmed then PaidBy(cfg, s, s.orders[id], why) else Proves(cfg, s, s.orders[id], why)
    ensures var a := if confirmed then Confirm(id, why.k) else Fail(id, why, code);
      Enabled(cfg, s, a) && Targets(a, id)
  {
    hide Pays, Proves;
  }

  lemma FinishDone(cfg: Config, s: State, a: Action, s': State)
    requires Enabled(cfg, s, a) && (a.Confirm? || a.Fail?) && s' == Apply(cfg, s, a)
    ensures IsTerminal(s', a.id)
  {
    hide Pays, Proves, EventKey, Enqueue;
  }

  lemma SignedForCopy(cfg: Config, s: State, id: nat, row: Order, raw: string)
    requires Snapshot(s, id, row) && SignedFor(cfg, row, raw)
    ensures SignedFor(cfg, s.orders[id], raw)
    ensures s.orders[id].amount == row.amount && s.orders[id].symbol == row.symbol
  {
  }

  /** In-flight rows are the hot wallet's and weigh their amount. */
  lemma InFlightRow(cfg: Config, s: State, i: nat)
    requires Inv(cfg, s) && i < |s.orders|
    ensures s.orders[i].status.InFlight() ==> s.orders[i].from == cfg.hot && s.orders[i].amount > 0
  {
    hide ChainOnce, SentBound, OutboxExact, OutcomesJustified, NetworkKept;
    assert OrderShape(cfg, s.orders[i]);
  }
}
