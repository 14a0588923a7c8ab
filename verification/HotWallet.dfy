/** The hot wallet's token balance against what the signed orders will still take
    from it (checkBalance and inflightUnits in internal/withdraw/worker.go). */
module HotWallet {
  import opened Wrappers
  import opened ChainLog
  import opened WithdrawState
  import opened WithdrawSafety
  import opened WithdrawGuarantees

  // ------------------------------------------------------------------------ sums

  function Total(os: seq<Order>, weight: Order -> nat): (r: nat)
  {
    if os == [] then 0 else Total(os[..|os| - 1], weight) + weight(os[|os| - 1])
  }

  lemma {:induction false} TotalUpdate(os: seq<Order>, id: nat, o: Order, weight: Order -> nat)
    requires id < |os|
    ensures Total(os[id := o], weight) + weight(os[id]) == Total(os, weight) + weight(o)
  {
    var init := os[..|os| - 1];
    if id == |os| - 1 {
      assert os[id := o][..|os| - 1] == init;
    } else {
      TotalUpdate(init, id, o, weight);
      assert os[id := o][..|os| - 1] == init[id := o];
    }
  }

  lemma TotalSnoc(os: seq<Order>, o: Order, weight: Order -> nat)
    ensures Total(os + [o], weight) == Total(os, weight) + weight(o)
  {
    assert (os + [o])[..|os|] == os;
  }

  lemma {:induction false} TotalLe(os: seq<Order>, w: Order -> nat, w': Order -> nat)
    requires forall o :: o in os ==> w(o) <= w'(o)
    ensures Total(os, w) <= Total(os, w')
  {
    if os != [] {
      TotalLe(os[..|os| - 1], w, w');
    }
  }

  /** Lowering the weight of one element lowers the total as much. */
  lemma {:induction false} TotalDrop(os: seq<Order>, id: nat, w: Order -> nat, w': Order -> nat, x: nat)
    requires id < |os| && (forall o :: o in os ==> w(o) <= w'(o)) && w(os[id]) + x <= w'(os[id])
    ensures Total(os, w) + x <= Total(os, w')
  {
    var init := os[..|os| - 1];
    if id == |os| - 1 {
      TotalLe(init, w, w');
    } else {
      TotalDrop(init, id, w, w', x);
    }
  }

  // -------------------------------------------------------- balance and commitments

  function Positive(x: int): (r: nat)
  {
    if x > 0 then x else 0
  }

  /** What an in-flight order of token c will still take. */
  function InFlightWeight(c: string): (r: Order -> nat)
  {
    (o: Order) => if o.status.InFlight() && o.contract == c then Positive(o.amount) else 0
  }

  /** The same, as long as its txid is not in the given part of the chain. */
  function PendingWeight(cfg: Config, chain: seq<Entry>, c: string): (r: Order -> nat)
  {
    (o: Order) => if o.status.InFlight() && o.contract == c && !InChain(cfg, chain, o.txid) then Positive(o.amount) else 0
  }

  function Pending(cfg: Config, s: State, n: nat, c: string): (r: nat)
    requires n <= |s.chain|
  {
    Total(s.orders, PendingWeight(cfg, s.chain[..n], c))
  }

  /** inflightUnits. */
  function InFlightUnits(s: State, c: string): (r: nat)
  {
    Total(s.orders, InFlightWeight(c))
  }

  function Spend(cfg: Config, e: Entry, c: string): (r: nat)
  {
    if Moves(cfg, e) && cfg.intent(e.raw).contract == c && cfg.intent(e.raw).from == cfg.hot
    then cfg.intent(e.raw).amount else 0
  }

  function Spent(cfg: Config, chain: seq<Entry>, c: string): (r: nat)
  {
    if chain == [] then 0 else Spent(cfg, chain[..|chain| - 1], c) + Spend(cfg, chain[|chain| - 1], c)
  }

  function Funds(s: State, c: string): (r: nat)
  {
    if c in s.funded then s.funded[c] else 0
  }

  /** The balance a node reports: funds received minus what included orders moved. */
  function Balance(cfg: Config, s: State, c: string): (r: int)
  {
    Funds(s, c) - Spent(cfg, s.chain, c)
  }

  /** What is left once every in-flight order not in the first n entries is paid too. */
  function Slack(cfg: Config, s: State, n: nat, c: string): (r: int)
    requires n <= |s.chain|
  {
    Funds(s, c) - Spent(cfg, s.chain[..n], c) - Pending(cfg, s, n, c)
  }

  /** Solvency judged on the irreversible part of the chain. */
  predicate Solvent(cfg: Config, s: State, c: string)
  {
    s.solid <= |s.chain| && Slack(cfg, s, s.solid, c) >= 0
  }

  /** The deployment conditions: every order still names the configured contract and
      every body has the refund margin. */
  predicate Configured(cfg: Config, s: State)
  {
    && cfg.honest
    && forall id :: 0 <= id < |s.orders| ==>
         cfg.token(s.orders[id].symbol) == Some(s.orders[id].contract) &&
         (s.orders[id].raw != "" ==> Margin(cfg, s.orders[id]))
  }

  lemma {:induction false} SpentMono(cfg: Config, chain: seq<Entry>, n: nat, c: string)
    requires n <= |chain|
    ensures Spent(cfg, chain[..n], c) <= Spent(cfg, chain, c)
  {
    if n == |chain| {
      assert chain[..n] == chain;
    } else {
      SpentMono(cfg, chain[..|chain| - 1], n, c);
      assert chain[..|chain| - 1][..n] == chain[..n];
    }
  }

  // ------------------------------------- included but not irreversible: in flight

  /** An included body of a settled order is irreversible. */
  lemma {:induction false} SettledBelow(cfg: Config, s: State, id: nat, k: nat)
    requires Inv(cfg, s) && Configured(cfg, s) && id < |s.orders| && k < |s.chain|
    requires s.orders[id].raw == s.chain[k].raw != "" && s.orders[id].txid == cfg.txidOf(s.chain[k].raw)
    requires s.orders[id].status == Confirmed || s.orders[id].status == Failed
    ensures k < s.solid
  {
    hide Pays, Inv;
    var o := s.orders[id];
    if o.status == Confirmed {
      ConfirmedHasEntry(cfg, s, id);
      var j: nat :| FinalEntry(cfg, s, o.txid, j) && Pays(cfg, s.chain[j].info, o);
      IncludedOnce(cfg, s, j, k);
    } else {
      FailedHasProof(cfg, s, id);
      var why :| Proves(cfg, s, o, why);
      NotIncluded(cfg, s, k);
      if why.Receipt? { IncludedOnce(cfg, s, why.k, k); }
    }
  }

  /** An entry above the irreversible part belongs to an order still in flight. */
  lemma {:induction false} OpenEntryInFlight(cfg: Config, s: State, k: nat) returns (id: nat)
    requires Inv(cfg, s) && Configured(cfg, s) && s.solid <= k < |s.chain|
    ensures IsInFlight(s, id) && s.orders[id].raw == s.chain[k].raw != "" && s.orders[id].txid == cfg.txidOf(s.chain[k].raw)
    ensures SignedFor(cfg, s.orders[id], s.orders[id].raw)
  {
    hide Inv, Configured, SignedFor;
    EntryWasSent(cfg, s, k);
    var p :| p in s.sent && p.1 == s.chain[k].raw;
    id := p.0;
    assert p == (id, s.chain[k].raw);
    SentIsStored(cfg, s, id, s.chain[k].raw);
    StoredStatus(cfg, s, id);
    if s.orders[id].status == Confirmed || s.orders[id].status == Failed { SettledBelow(cfg, s, id, k); }
  }

  lemma EntryWasSent(cfg: Config, s: State, k: nat)
    requires Inv(cfg, s) && k < |s.chain|
    ensures WasSent(s.sent, s.chain[k].raw)
  {
    hide OrdersShaped, SentBound, OutboxExact, OutcomesJustified, NetworkKept, OwnLogsOnly;
  }

  lemma StoredStatus(cfg: Config, s: State, id: nat)
    requires Inv(cfg, s) && id < |s.orders| && s.orders[id].raw != ""
    ensures s.orders[id].status.InFlight() || s.orders[id].status == Confirmed || s.orders[id].status == Failed
    ensures s.orders[id].txid == cfg.txidOf(s.orders[id].raw) && SignedFor(cfg, s.orders[id], s.orders[id].raw)
  {
    hide ChainOnce, SentBound, OutboxExact, OutcomesJustified, NetworkKept, SignedFor;
    assert OrderShape(cfg, s.orders[id]);
  }

  lemma ConfirmedHasEntry(cfg: Config, s: State, id: nat)
    requires Inv(cfg, s) && IsOrder(s, id, Confirmed)
    ensures exists k: nat :: FinalEntry(cfg, s, s.orders[id].txid, k) && Pays(cfg, s.chain[k].info, s.orders[id])
  {
    hide OrdersShaped, ChainOnce, SentBound, OutboxExact, NetworkKept, Pays, Proves, FinalEntry;
    assert Justified(cfg, s, s.orders[id]);
  }

  // -------------------------------------------------------- slack along the chain

  lemma InChainMono(cfg: Config, chain: seq<Entry>, n: nat, txid: string)
    requires n < |chain|
    ensures InChain(cfg, chain[..n], txid) ==> InChain(cfg, chain[..n + 1], txid)
  {
    if k :| 0 <= k < n && cfg.txidOf(chain[..n][k].raw) == txid {
      assert cfg.txidOf(chain[..n + 1][k].raw) == txid;
    }
  }

  /** The order an entry belongs to stops being pending with it, and that frees at
      least what the entry spends. */
  lemma {:induction false} EntryFrees(cfg: Config, s: State, n: nat, c: string)
    requires Inv(cfg, s) && Configured(cfg, s) && s.solid <= n < |s.chain|
    ensures Pending(cfg, s, n + 1, c) + Spend(cfg, s.chain[n], c) <= Pending(cfg, s, n, c)
  {
    hide Inv, InChain, Moves;
    var id := OpenEntryInFlight(cfg, s, n);
    var e, o := s.chain[n], s.orders[id];
    var before, after := PendingWeight(cfg, s.chain[..n], c), PendingWeight(cfg, s.chain[..n + 1], c);
    forall p | p in s.orders ensures after(p) <= before(p) {
      InChainMono(cfg, s.chain, n, p.txid);
    }
    OwnInclusion(cfg, s, n, o.txid);
    assert o.amount > 0;
    assert after(o) + Spend(cfg, e, c) <= before(o);
    TotalDrop(s.orders, id, after, before, Spend(cfg, e, c));
  }

  lemma OwnInclusion(cfg: Config, s: State, n: nat, txid: string)
    requires Inv(cfg, s) && n < |s.chain| && txid == cfg.txidOf(s.chain[n].raw)
    ensures !InChain(cfg, s.chain[..n], txid) && InChain(cfg, s.chain[..n + 1], txid)
  {
    hide OrdersShaped, SentBound, OutboxExact, OutcomesJustified, NetworkKept, OwnLogsOnly;
    assert cfg.txidOf(s.chain[..n + 1][n].raw) == txid;
  }

  /** Irreversible or not, each further entry leaves at least as much slack. */
  lemma {:induction false} SlackClimbs(cfg: Config, s: State, m: nat, n: nat, c: string)
    requires Inv(cfg, s) && Configured(cfg, s) && s.solid <= m <= n <= |s.chain|
    ensures Slack(cfg, s, m, c) <= Slack(cfg, s, n, c)
    decreases n
  {
    hide Inv, Configured, Pending, Spend;
    if m < n {
      SlackClimbs(cfg, s, m, n - 1, c);
      EntryFrees(cfg, s, n - 1, c);
      assert s.chain[..n][..n - 1] == s.chain[..n - 1];
    }
  }

  // -------------------------------------------------------------- slack over steps

  /** Totals over rows that each weigh at most what they did, and new weightless rows. */
  lemma {:induction false} TotalShrinks(os: seq<Order>, os': seq<Order>, w: Order -> nat)
    requires |os| <= |os'|
    requires forall i :: 0 <= i < |os| ==> w(os'[i]) <= w(os[i])
    requires forall i :: |os| <= i < |os'| ==> w(os'[i]) == 0
    ensures Total(os', w) <= Total(os, w)
  {
    if |os| < |os'| {
      TotalShrinks(os, os'[..|os'| - 1], w);
    } else if os != [] {
      TotalShrinks(os[..|os| - 1], os'[..|os'| - 1], w);
    }
  }

  /** Steps other than signing and settling weigh no row differently. */
  lemma {:induction false} RowWeight(cfg: Config, s: State, a: Action, s': State, id: nat, chain: seq<Entry>, c: string)
    requires OrdersShaped(cfg, s) && Next(cfg, s, a, s') && Targets(a, id) && id < |s.orders| && !a.Sign?
    ensures id < |s'.orders|
    ensures PendingWeight(cfg, chain, c)(s'.orders[id]) <= PendingWeight(cfg, chain, c)(s.orders[id])
    ensures !a.Confirm? && !a.Fail? ==> InFlightWeight(c)(s'.orders[id]) == InFlightWeight(c)(s.orders[id])
  {
    hide DecodeLog, Pays, OwnLogsOnly, InChain, Proves, DeepIsSolid, EventKey, Enqueue, AddFunds, SignedFor, OrderShape;
  }

  lemma {:induction false} PendingShrinks(cfg: Config, s: State, a: Action, s': State, chain: seq<Entry>, c: string)
    requires OrdersShaped(cfg, s) && Next(cfg, s, a, s') && !a.Sign?
    ensures Total(s'.orders, PendingWeight(cfg, chain, c)) <= Total(s.orders, PendingWeight(cfg, chain, c))
  {
    hide Next, OrdersShaped, InChain;
    StepFrame(cfg, s, a, s');
    forall i | 0 <= i < |s.orders|
      ensures PendingWeight(cfg, chain, c)(s'.orders[i]) <= PendingWeight(cfg, chain, c)(s.orders[i])
    {
      if Targets(a, i) { RowWeight(cfg, s, a, s', i, chain, c); }
    }
    TotalShrinks(s.orders, s'.orders, PendingWeight(cfg, chain, c));
  }

  lemma {:induction false} FundsStay(cfg: Config, s: State, a: Action, s': State, c: string)
    requires Next(cfg, s, a, s')
    ensures Funds(s, c) <= Funds(s', c)
  {
    hide DecodeLog, Pays, OwnLogsOnly, InChain, Proves, DeepIsSolid, EventKey, Enqueue, SignedFor;
  }

  lemma {:induction false} SolidStays(cfg: Config, s: State, a: Action, s': State)
    requires Next(cfg, s, a, s') && s.solid <= |s.chain| && !a.Solidify?
    ensures s'.solid == s.solid <= |s'.chain| && s'.chain[..s'.solid] == s.chain[..s.solid]
  {
    hide DecodeLog, Pays, OwnLogsOnly, InChain, Proves, DeepIsSolid, EventKey, Enqueue, SignedFor, AddFunds;
  }

  /** Whatever is included, forked away, settled or refilled, slack only grows. */
  lemma {:induction false} SlackKept(cfg: Config, s: State, a: Action, s': State, c: string)
    requires Inv(cfg, s) && Configured(cfg, s) && Next(cfg, s, a, s') && !a.Sign?
    ensures s.solid <= |s.chain| && s'.solid <= |s'.chain| && Slack(cfg, s, s.solid, c) <= Slack(cfg, s', s'.solid, c)
  {
    hide Inv, Next, Configured, PendingWeight, Spent;
    InvBounds(cfg, s);
    FundsStay(cfg, s, a, s', c);
    if a.Solidify? {
      Solidified(cfg, s, a, s');
      SlackClimbs(cfg, s, s.solid, s'.solid, c);
    } else {
      SolidStays(cfg, s, a, s');
      PendingShrinks(cfg, s, a, s', s.chain[..s.solid], c);
    }
  }

  lemma Solidified(cfg: Config, s: State, a: Action, s': State)
    requires Next(cfg, s, a, s') && a.Solidify?
    ensures s.solid <= s'.solid <= |s.chain| && s' == s.(solid := s'.solid)
  {
    hide DeepIsSolid;
  }

  function SignedUnits(s: State, a: Action, c: string): (r: nat)
  {
    if a.Sign? && a.id < |s.orders| && s.orders[a.id].contract == c then Positive(s.orders[a.id].amount) else 0
  }

  /** Signing takes from the slack what it adds to the orders in flight. */
  lemma {:induction false} SignSpends(cfg: Config, s: State, a: Action, s': State, c: string)
    requires Inv(cfg, s) && Next(cfg, s, a, s') && a.Sign?
    ensures s.solid <= |s.chain| && s'.solid <= |s'.chain|
    ensures Slack(cfg, s, s.solid, c) - SignedUnits(s, a, c) <= Slack(cfg, s', s'.solid, c)
    ensures InFlightUnits(s', c) == InFlightUnits(s, c) + SignedUnits(s, a, c)
  {
    hide Inv, InChain, SignedFor, DeepIsSolid, Spent;
    InvBounds(cfg, s);
    var w := PendingWeight(cfg, s.chain[..s.solid], c);
    TotalUpdate(s.orders, a.id, s'.orders[a.id], w);
    TotalUpdate(s.orders, a.id, s'.orders[a.id], InFlightWeight(c));
  }

  lemma {:induction false} InFlightKept(cfg: Config, s: State, a: Action, s': State, c: string)
    requires OrdersShaped(cfg, s) && Next(cfg, s, a, s') && !a.Sign? && !a.Confirm? && !a.Fail?
    ensures InFlightUnits(s', c) == InFlightUnits(s, c)
  {
    hide Next, OrdersShaped;
    StepFrame(cfg, s, a, s');
    forall i | 0 <= i < |s.orders| ensures InFlightWeight(c)(s'.orders[i]) == InFlightWeight(c)(s.orders[i]) {
      if Targets(a, i) { RowWeight(cfg, s, a, s', i, [], c); }
    }
    TotalShrinks(s.orders, s'.orders, InFlightWeight(c));
    if a.Submit? {
      TotalSnoc(s'.orders[..|s.orders|], a.order, InFlightWeight(c));
      assert s'.orders == s'.orders[..|s.orders|] + [a.order];
      TotalShrinks(s'.orders[..|s.orders|], s.orders, InFlightWeight(c));
    } else {
      TotalShrinks(s'.orders, s.orders, InFlightWeight(c));
    }
  }

  // ------------------------------------------------------------------ whole runs

  lemma {:induction false} ConfiguredBefore(cfg: Config, s: State, s': State)
    requires Configured(cfg, s') && OrdersLater(s, s')
    ensures Configured(cfg, s)
  {
    forall id | 0 <= id < |s.orders|
      ensures cfg.token(s.orders[id].symbol) == Some(s.orders[id].contract) && (s.orders[id].raw != "" ==> Margin(cfg, s.orders[id]))
    {
      assert OrderLater(s.orders[id], s'.orders[id]);
    }
  }

  /** A run from the empty tables in a well-configured deployment. */
  ghost predicate Deployed(cfg: Config, states: seq<State>, actions: seq<Action>)
  {
    Run(cfg, states, actions) && states[0] == Empty && Configured(cfg, states[|actions|])
  }

  lemma DeployedAt(cfg: Config, states: seq<State>, actions: seq<Action>, n: nat)
    requires Deployed(cfg, states, actions) && n <= |actions|
    ensures Inv(cfg, states[n]) && Configured(cfg, states[n])
  {
    hide Inv, Configured, Next;
    EmptyInv(cfg);
    SoundAt(cfg, states, actions, n);
  }

  lemma {:induction false} SoundAt(cfg: Config, states: seq<State>, actions: seq<Action>, n: nat)
    requires Run(cfg, states, actions) && Inv(cfg, states[0]) && Configured(cfg, states[|actions|]) && n <= |actions|
    ensures Inv(cfg, states[n]) && Configured(cfg, states[n])
  {
    hide Inv, Configured, Next, OrdersLater, TablesLater;
    RunInv(cfg, states, actions, n);
    Suffix(cfg, states, actions, n);
    RunInv(cfg, states[n..], actions[n..], |actions| - n);
    ConfiguredBefore(cfg, states[n], states[|actions|]);
  }

  lemma Suffix(cfg: Config, states: seq<State>, actions: seq<Action>, n: nat)
    requires Run(cfg, states, actions) && n <= |actions|
    ensures Run(cfg, states[n..], actions[n..]) && states[n..][|actions| - n] == states[|actions|]
  {
    hide Next;
    forall i | 0 <= i < |actions[n..]| ensures Next(cfg, states[n..][i], actions[n..][i], states[n..][i + 1]) {
      assert Next(cfg, states[n + i], actions[n + i], states[n + i + 1]);
    }
  }

  /** Without settlements, slack and in-flight amounts together do not shrink. */
  lemma {:induction false} CoverKept(cfg: Config, states: seq<State>, actions: seq<Action>, r: nat, q: nat, c: string)
    requires Deployed(cfg, states, actions) && r <= q <= |actions|
    requires forall j :: r <= j < q ==> !actions[j].Confirm? && !actions[j].Fail?
    ensures states[r].solid <= |states[r].chain| && states[q].solid <= |states[q].chain|
    ensures Slack(cfg, states[r], states[r].solid, c) + InFlightUnits(states[r], c) <=
            Slack(cfg, states[q], states[q].solid, c) + InFlightUnits(states[q], c)
    decreases q
  {
    hide Inv, Configured, Next, Slack, InFlightUnits;
    DeployedAt(cfg, states, actions, q);
    InvBounds(cfg, states[q]);
    if r < q {
      CoverKept(cfg, states, actions, r, q - 1, c);
      DeployedAt(cfg, states, actions, q - 1);
      InvBounds(cfg, states[q - 1]);
      var s, a, s' := states[q - 1], actions[q - 1], states[q];
      assert Next(cfg, s, a, s');
      if a.Sign? {
        SignSpends(cfg, s, a, s', c);
      } else {
        SlackKept(cfg, s, a, s', c);
        InFlightKept(cfg, s, a, s', c);
      }
    }
  }

  predicate SignsToken(s: State, a: Action, c: string)
  {
    a.Sign? && a.id < |s.orders| && s.orders[a.id].contract == c
  }

  /** Without signing, slack does not shrink. */
  lemma {:induction false} SlackHeld(cfg: Config, states: seq<State>, actions: seq<Action>, q: nat, n: nat, c: string)
    requires Deployed(cfg, states, actions) && q <= n <= |actions|
    requires forall j :: q <= j < n ==> !SignsToken(states[j], actions[j], c)
    ensures states[q].solid <= |states[q].chain| && states[n].solid <= |states[n].chain|
    ensures Slack(cfg, states[q], states[q].solid, c) <= Slack(cfg, states[n], states[n].solid, c)
    decreases n
  {
    hide Inv, Configured, Next, Slack, InFlightUnits;
    DeployedAt(cfg, states, actions, n);
    InvBounds(cfg, states[n]);
    if q < n {
      SlackHeld(cfg, states, actions, q, n - 1, c);
      DeployedAt(cfg, states, actions, n - 1);
      InvBounds(cfg, states[n - 1]);
      var s, a, s' := states[n - 1], actions[n - 1], states[n];
      assert Next(cfg, s, a, s');
      if a.Sign? {
        SignSpends(cfg, s, a, s', c);
      } else {
        SlackKept(cfg, s, a, s', c);
      }
    }
  }

  /** The comparison of checkBalance in front of the i-th step, a signing: the balance
      was read at step r, the in-flight amounts were summed at step q. If unsettled, no
      order was settled between the two reads; if alone, none of the token was signed
      after them. */
  ghost predicate ComparedAt(cfg: Config, states: seq<State>, actions: seq<Action>, r: nat, q: nat, i: nat, c: string,
                             unsettled: bool, alone: bool)
    requires |states| == |actions| + 1 && i < |actions|
  {
    && r <= q <= i
    && (unsettled ==> forall j :: r <= j < q ==> !actions[j].Confirm? && !actions[j].Fail?)
    && (alone ==> forall j :: q <= j < i ==> !SignsToken(states[j], actions[j], c))
    && SignedUnits(states[i], actions[i], c) + InFlightUnits(states[q], c) <= Balance(cfg, states[r], c)
  }

  ghost predicate Compared(cfg: Config, states: seq<State>, actions: seq<Action>, i: nat, c: string,
                           unsettled: bool, alone: bool)
    requires |states| == |actions| + 1 && i < |actions|
  {
    exists r: nat, q: nat :: ComparedAt(cfg, states, actions, r, q, i, c, unsettled, alone)
  }

  /** Every signing of the token was preceded by the comparison. */
  ghost predicate AllCompared(cfg: Config, states: seq<State>, actions: seq<Action>, c: string, unsettled: bool, alone: bool)
    requires |states| == |actions| + 1
  {
    forall i :: 0 <= i < |actions| && SignsToken(states[i], actions[i], c) ==>
      Compared(cfg, states, actions, i, c, unsettled, alone)
  }

  /** What checkBalance compares is never more than the slack. */
  lemma {:induction false} CheckIsCautious(cfg: Config, s: State, c: string)
    requires s.solid <= |s.chain|
    ensures Balance(cfg, s, c) <= Slack(cfg, s, s.solid, c) + InFlightUnits(s, c)
  {
    hide InChain, Spent;
    SpentMono(cfg, s.chain, s.solid, c);
    TotalLe(s.orders, PendingWeight(cfg, s.chain[..s.solid], c), InFlightWeight(c));
  }

  lemma {:induction false} CheckedSlack(cfg: Config, states: seq<State>, actions: seq<Action>, r: nat, q: nat, i: nat, c: string)
    requires Deployed(cfg, states, actions) && i < |actions| && ComparedAt(cfg, states, actions, r, q, i, c, true, true)
    ensures states[i].solid <= |states[i].chain| && SignedUnits(states[i], actions[i], c) <= Slack(cfg, states[i], states[i].solid, c)
  {
    hide Next, Configured, Slack, InFlightUnits, Balance, SignedUnits, SignsToken;
    CoverKept(cfg, states, actions, r, q, c);
    SlackHeld(cfg, states, actions, q, i, c);
    CheckIsCautious(cfg, states[r], c);
  }

  lemma {:induction false} SolventThroughout(cfg: Config, states: seq<State>, actions: seq<Action>, n: nat, c: string)
    requires Deployed(cfg, states, actions) && n <= |actions|
    requires AllCompared(cfg, states, actions, c, true, true)
    ensures Solvent(cfg, states[n], c)
  {
    hide Inv, Configured, Next, Slack, InFlightUnits, ComparedAt;
    if n == 0 {
      EmptySlack(cfg, c);
    } else {
      SolventThroughout(cfg, states, actions, n - 1, c);
      DeployedAt(cfg, states, actions, n - 1);
      var s, a, s' := states[n - 1], actions[n - 1], states[n];
      assert Next(cfg, s, a, s');
      if SignsToken(s, a, c) {
        assert Compared(cfg, states, actions, n - 1, c, true, true);
        var r: nat, q: nat :| ComparedAt(cfg, states, actions, r, q, n - 1, c, true, true);
        CheckedSlack(cfg, states, actions, r, q, n - 1, c);
        SignSpends(cfg, s, a, s', c);
      } else if a.Sign? {
        SignSpends(cfg, s, a, s', c);
      } else {
        SlackKept(cfg, s, a, s', c);
      }
    }
  }

  lemma EmptySlack(cfg: Config, c: string)
    ensures Slack(cfg, Empty, 0, c) == 0
  {
  }

  /** If every signing was preceded by such a check, the hot wallet always holds what
      the orders in flight and not yet included will take, in every state of the run
      and whatever is included, forked away, refilled or settled meanwhile. */
  lemma {:induction false} WalletCoversOrders(cfg: Config, states: seq<State>, actions: seq<Action>, n: nat, c: string)
    requires Deployed(cfg, states, actions) && n <= |actions|
    requires AllCompared(cfg, states, actions, c, true, true)
    ensures Pending(cfg, states[n], |states[n].chain|, c) <= Balance(cfg, states[n], c)
  {
    hide Inv, Configured, Next, Pending, InFlightUnits, AllCompared, Spent, SignsToken;
    SolventThroughout(cfg, states, actions, n, c);
    DeployedAt(cfg, states, actions, n);
    var s := states[n];
    SlackClimbs(cfg, s, s.solid, |s.chain|, c);
    assert s.chain[..|s.chain|] == s.chain;
  }
}
