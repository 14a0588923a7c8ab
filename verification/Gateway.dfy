/** The failover loop over the nodes (call and Broadcast in internal/chain/gateway.go):
    what it contacts, what it answers and why it ends. Times are milliseconds. */
module Gateway {
  import opened Wrappers
  import opened RateLimit

  /** What came back from a node. */
  datatype Outcome = Answered(body: string) | Undecodable | Failing | Throttled

  /** One request: to which node, when, until when that was parked, and its outcome. */
  datatype Contact = Contact(node: nat, at: int, parkedUntil: int, payload: string, outcome: Outcome)

  datatype Reply = Reply(body: string) | Cancelled | Unavailable

  /** Requests to open nodes only, with one payload, the answer last if there is one. */
  ghost predicate Proper(log: seq<Contact>, nodes: nat, payload: string, answer: Option<string>)
  {
    && (forall k :: 0 <= k < |log| ==> log[k].node < nodes && log[k].payload == payload && log[k].parkedUntil <= log[k].at)
    && (forall k :: 0 <= k < |log| && log[k].outcome.Answered? ==> k == |log| - 1 && answer == Some(log[k].outcome.body))
    && (answer.Some? ==> |log| > 0 && log[|log| - 1].outcome == Answered(answer.value))
  }

  lemma ProperConcat(a: seq<Contact>, b: seq<Contact>, nodes: nat, payload: string, answer: Option<string>)
    requires Proper(a, nodes, payload, None) && Proper(b, nodes, payload, answer)
    ensures Proper(a + b, nodes, payload, answer)
  {
  }

  predicate Contacted(log: seq<Contact>, n: nat)
  {
    exists k :: 0 <= k < |log| && log[k].node == n
  }

  lemma ContactedStays(a: seq<Contact>, b: seq<Contact>, n: nat)
    requires Contacted(a, n) || Contacted(b, n)
    ensures Contacted(a + b, n)
  {
    if k :| 0 <= k < |a| && a[k].node == n { assert (a + b)[k].node == n; }
    if k :| 0 <= k < |b| && b[k].node == n { assert (a + b)[|a| + k].node == n; }
  }

  /** The clock, and each node's cooldown. */
  class Nodes {
    const count: nat
    const cools: seq<Cooldown>
    var now: int

    constructor (count: nat, now: int)
      ensures this.count == count && this.now == now && Valid() && forall n :: 0 <= n < count ==> fresh(cools[n]) && cools[n].until == 0
    {
      var open: seq<Cooldown> := [];
      while |open| < count
        invariant |open| <= count && forall n :: 0 <= n < |open| ==> fresh(open[n]) && open[n].Valid() && open[n].until == 0
        invariant forall m, n :: 0 <= m < n < |open| ==> open[m] != open[n]
      {
        var c := new Cooldown();
        open := open + [c];
      }
      this.count, this.now, cools := count, now, open;
    }

    ghost predicate Valid()
      reads this, cools
    {
      && |cools| == count && (forall n :: 0 <= n < count ==> cools[n].Valid())
      && forall m, n :: 0 <= m < n < count ==> cools[m] != cools[n]
    }

    /** How long a node still refuses traffic. */
    function Left(n: nat): (left: int)
      requires n < |cools|
      reads this, cools
    {
      cools[n].Remaining(now)
    }

    ghost function Until(n: nat): (until: int)
      requires n < |cools|
      reads cools
    {
      cools[n].until
    }

    method Pass()
      modifies this`now
      ensures now >= old(now)
    {
      var later: int := *;
      if later > now {
        now := later;
      }
    }

    /** A timer fires no sooner than asked. */
    method Sleep(d: int)
      requires d >= 0
      modifies this`now
      ensures now >= old(now) + d
    {
      now := now + d;
      Pass();
    }

    /** One request: it takes its time, and a 429 parks the node. */
    method Do(n: nat, payload: string) returns (c: Contact)
      requires Valid() && n < count
      modifies this`now, cools[n]
      ensures Valid() && now >= old(now)
      ensures c.node == n && c.payload == payload && c.at == old(now) && c.parkedUntil == old(Until(n))
      ensures Until(n) == old(Until(n)) || (c.outcome.Throttled? && Until(n) <= now + MAX_RETRY_AFTER)
      ensures c.outcome.Throttled? ==> Left(n) > 0 && Until(n) >= old(Until(n))
    {
      var at, parked := now, cools[n].until;
      Pass();
      if * {
        var body := AnyText();
        return Contact(n, at, parked, payload, Answered(body));
      }
      if * {
        return Contact(n, at, parked, payload, Undecodable);
      }
      if * {
        return Contact(n, at, parked, payload, Failing);
      }
      var retryAfter: int := *;
      cools[n].Set(retryAfter, now);
      c := Contact(n, at, parked, payload, Throttled);
    }
  }

  class Gateway {
    const nodes: Nodes
    const retryPerNode: nat
    const rateLimitWait: int

    constructor (nodes: Nodes, retryPerNode: int, rateLimitWait: int)
      ensures this.nodes == nodes && this.retryPerNode >= 1 && this.rateLimitWait == rateLimitWait
    {
      this.nodes, this.rateLimitWait := nodes, rateLimitWait;
      this.retryPerNode := if retryPerNode > 1 then retryPerNode else 1;
    }

    /** The attempts at one open node: until an answer, a 429 or the last attempt. */
    method TryNode(n: nat, payload: string) returns (log: seq<Contact>, answer: Option<string>, throttled: bool)
      requires nodes.Valid() && n < nodes.count && nodes.Left(n) <= 0 && retryPerNode >= 1
      modifies nodes`now, nodes.cools[n]
      ensures nodes.Valid() && nodes.now >= old(nodes.now)
      ensures Proper(log, nodes.count, payload, answer) && 1 <= |log| <= retryPerNode
      ensures Contacted(log, n) && forall k :: 0 <= k < |log| ==> log[k].node == n
      ensures throttled ==> nodes.Left(n) > 0
    {
      log, answer, throttled := [], None, false;
      var attempt := 0;
      while attempt < retryPerNode && answer.None? && !throttled
        invariant 0 <= attempt <= retryPerNode && |log| == attempt
        invariant nodes.Valid() && nodes.now >= old(nodes.now)
        invariant if throttled then nodes.Left(n) > 0 else nodes.Left(n) <= 0
        invariant attempt == 0 ==> answer.None? && !throttled
        invariant Proper(log, nodes.count, payload, answer)
        invariant forall k :: 0 <= k < |log| ==> log[k].node == n
        decreases retryPerNode - attempt
      {
        var c := nodes.Do(n, payload);
        log := log + [c];
        attempt := attempt + 1;
        if c.outcome.Answered? {
          answer := Some(c.outcome.body);
        } else if c.outcome.Throttled? {
          throttled := true;
        }
      }
      assert log[0].node == n;
    }

    /** One pass over the nodes in priority order. Without an answer every node was
        contacted or found parked, and reopen is how long the first one stays so. */
    method Sweep(payload: string) returns (log: seq<Contact>, answer: Option<string>, reopen: int, ghost parked: set<nat>)
      requires nodes.Valid() && retryPerNode >= 1
      modifies nodes`now, nodes.cools
      ensures nodes.Valid() && nodes.now >= old(nodes.now) && reopen >= 0
      ensures Proper(log, nodes.count, payload, answer)
      ensures answer.None? ==> forall n :: 0 <= n < nodes.count ==> n in parked || Contacted(log, n)
      ensures parked != {} ==> reopen > 0
      ensures forall n :: n in parked ==> n < nodes.count && nodes.Until(n) > old(nodes.now)
    {
      log, answer, reopen, parked := [], None, 0, {};
      var n := 0;
      while n < nodes.count && answer.None?
        invariant 0 <= n <= nodes.count && reopen >= 0
        invariant nodes.Valid() && nodes.now >= old(nodes.now)
        invariant Proper(log, nodes.count, payload, answer)
        invariant answer.None? ==> forall i :: 0 <= i < n ==> i in parked || Contacted(log, i)
        invariant parked != {} ==> reopen > 0
        invariant forall i :: i in parked ==> i < n && nodes.Until(i) > old(nodes.now)
      {
        var left := nodes.Left(n);
        if left > 0 {
          if reopen == 0 || left < reopen {
            reopen := left;
          }
          parked := parked + {n};
        } else {
          var more, reply, throttled := TryNode(n, payload);
          ProperConcat(log, more, nodes.count, payload, reply);
          forall i: nat | Contacted(log, i) || Contacted(more, i) ensures Contacted(log + more, i) {
            ContactedStays(log, more, i);
          }
          log, answer := log + more, reply;
          left := nodes.Left(n);
          if throttled && left > 0 && (reopen == 0 || left < reopen) {
            reopen := left;
          }
        }
        n := n + 1;
      }
    }

    /** call: an answer from a node, or none because every node failed or stayed parked
        for longer than the caller may wait. Each wait takes over 100 ms of that. */
    method Call(payload: string) returns (log: seq<Contact>, reply: Reply, waits: nat, ghost parked: set<nat>)
      requires nodes.Valid() && retryPerNode >= 1
      modifies nodes`now, nodes.cools
      ensures nodes.Valid() && nodes.now >= old(nodes.now)
      ensures Proper(log, nodes.count, payload, if reply.Reply? then Some(reply.body) else None)
      ensures reply.Unavailable? ==> forall n :: 0 <= n < nodes.count ==> n in parked || Contacted(log, n)
      ensures forall n :: n in parked ==> n < nodes.count && nodes.Until(n) > old(nodes.now)
      ensures waits > 0 ==> 101 * (waits - 1) < rateLimitWait
    {
      log, waits, parked := [], 0, {};
      var giveUp := nodes.now + rateLimitWait;
      while true
        invariant nodes.Valid() && nodes.now >= old(nodes.now) + 101 * waits
        invariant Proper(log, nodes.count, payload, None)
        invariant waits > 0 ==> 101 * (waits - 1) < rateLimitWait
        decreases giveUp - nodes.now
      {
        ghost var begun := nodes.now;
        var more, answer, reopen, skipped := Sweep(payload);
        ProperConcat(log, more, nodes.count, payload, answer);
        forall i: nat | Contacted(more, i) ensures Contacted(log + more, i) {
          ContactedStays(log, more, i);
        }
        log, parked := log + more, skipped;
        assert begun >= old(nodes.now);
        if answer.Some? {
          reply := Reply(answer.value);
          return;
        }
        if reopen <= 0 || nodes.now + reopen > giveUp {
          reply := Unavailable;
          return;
        }
        if * {
          reply := Cancelled;
          return;
        }
        nodes.Sleep(reopen + 100);
        waits := waits + 1;
      }
    }

    /** Broadcast: the same bytes to each open node once, in order, until one answers;
        nothing is retried and nothing waited for. */
    method Broadcast(payload: string) returns (log: seq<Contact>, answer: Option<string>)
      requires nodes.Valid()
      modifies nodes`now, nodes.cools
      ensures nodes.Valid() && Proper(log, nodes.count, payload, answer) && |log| <= nodes.count
      ensures forall i, j :: 0 <= i < j < |log| ==> log[i].node < log[j].node
    {
      log, answer := [], None;
      var n := 0;
      while n < nodes.count && answer.None?
        invariant 0 <= n <= nodes.count && |log| <= n && nodes.Valid()
        invariant Proper(log, nodes.count, payload, answer)
        invariant forall k :: 0 <= k < |log| ==> log[k].node < n
        invariant forall i, j :: 0 <= i < j < |log| ==> log[i].node < log[j].node
      {
        if nodes.Left(n) <= 0 {
          var c := nodes.Do(n, payload);
          log := log + [c];
          if c.outcome.Answered? {
            answer := Some(c.outcome.body);
          }
        }
        n := n + 1;
      }
    }
  }
}
