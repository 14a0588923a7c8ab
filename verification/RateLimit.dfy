/** Request pacing (internal/chain/ratelimit.go): the token bucket in front of a node,
    over real numbers, and the cooldown a throttling node asks for, in milliseconds. */
module RateLimit {
  import opened Wrappers

  // --------------------------------------------------------------- the bucket

  /** One reservation: when it was made, when its caller may go, and how many tokens had
      been handed out by then on the bucket's own clock. */
  datatype Grant = Grant(now: real, release: real, mark: real)

  function Later(a: real, b: real): (r: real)
  {
    if a >= b then a else b
  }

  /** The tokens that time t is worth. */
  function Worth(qps: real, t: real): (r: real)
  {
    qps * t
  }

  /** A caller goes no earlier than the bucket's clock says, which never runs more than
      the burst behind real time. */
  predicate Sound(g: Grant, qps: real, burst: real)
  {
    g.mark >= Worth(qps, g.now) - burst + 1.0 && Worth(qps, g.release) == Later(Worth(qps, g.now), g.mark)
  }

  /** Each reservation moves that clock on by a token at least. */
  ghost predicate Paced(log: seq<Grant>, qps: real, burst: real)
  {
    && (forall k :: 0 <= k < |log| ==> Sound(log[k], qps, burst))
    && (forall k :: 0 < k < |log| ==> log[k].mark >= log[k - 1].mark + 1.0)
  }

  lemma {:induction false} MarksApart(log: seq<Grant>, qps: real, burst: real, i: nat, j: nat)
    requires Paced(log, qps, burst) && i <= j < |log|
    ensures log[j].mark >= log[i].mark + (j - i) as real
    decreases j - i
  {
    hide Sound;
    if i < j {
      MarksApart(log, qps, burst, i, j - 1);
      assert (j - i) as real == (j - 1 - i) as real + 1.0;
    }
  }

  lemma Spread(qps: real, a: real, b: real)
    ensures Worth(qps, a - b) == Worth(qps, a) - Worth(qps, b)
  {
  }

  lemma Sum(qps: real, a: real, b: real)
    ensures Worth(qps, a + b) == Worth(qps, a) + Worth(qps, b)
  {
  }

  lemma Nothing(qps: real)
    ensures Worth(qps, 0.0) == 0.0
  {
  }

  lemma {:induction false} WorthBound(log: seq<Grant>, qps: real, burst: real, i: nat, j: nat)
    requires Paced(log, qps, burst) && burst >= 1.0 && i <= j < |log|
    ensures (j - i) as real + 1.0 <= burst + Worth(qps, log[j].release) - Worth(qps, log[i].release)
  {
    hide Worth;
    MarksApart(log, qps, burst, i, j);
    assert Sound(log[i], qps, burst) && Sound(log[j], qps, burst);
  }

  /** The rate bound, for any readings of the clock: between the releases of any two
      reservations lie at most a burst more than the rate allows. */
  lemma {:induction false} RateBound(log: seq<Grant>, qps: real, burst: real, i: nat, j: nat)
    requires Paced(log, qps, burst) && burst >= 1.0 && i <= j < |log|
    ensures (j - i + 1) as real <= burst + qps * (log[j].release - log[i].release)
  {
    hide Paced;
    WorthBound(log, qps, burst, i, j);
    Spread(qps, log[j].release, log[i].release);
    assert (j - i + 1) as real == (j - i) as real + 1.0;
  }

  lemma Quotient(qps: real, x: real) returns (q: real)
    requires qps > 0.0
    ensures q == x / qps && qps * q == x && (x >= 0.0 ==> q >= 0.0)
  {
    q := x / qps;
    if q < 0.0 { Negative(qps, q); }
  }

  lemma Negative(a: real, b: real)
    requires a > 0.0 && b < 0.0
    ensures a * b < 0.0
  {
  }

  /** The history goes on with a grant that keeps the pace. */
  lemma {:induction false} PacedSnoc(log: seq<Grant>, qps: real, burst: real, g: Grant)
    requires Paced(log, qps, burst) && Sound(g, qps, burst)
    requires |log| > 0 ==> g.mark >= log[|log| - 1].mark + 1.0
    ensures Paced(log + [g], qps, burst)
  {
    hide Sound;
  }

  class Limiter {
    const qps: real
    const burst: real
    var tokens: real
    var last: Option<real>
    ghost var log: seq<Grant>

    /** newLimiter with a positive rate: at least one token, and all of them there. */
    constructor (qps: real, burst: int, now: real)
      requires qps > 0.0
      ensures Valid() && log == [] && this.qps == qps && this.burst == (if burst < 1 then 1.0 else burst as real)
    {
      var b := if burst < 1 then 1.0 else burst as real;
      this.qps, this.burst, tokens, last, log := qps, b, b, Some(now), [];
    }

    /** The bucket agrees with its history: it holds what time has brought since the
        last mark. */
    ghost predicate Valid()
      reads this
    {
      && qps > 0.0 && burst >= 1.0 && last.Some? && tokens <= burst
      && Paced(log, qps, burst)
      && (|log| > 0 ==> tokens == Worth(qps, last.value) - log[|log| - 1].mark)
    }

    /** Takes one token, whatever the clock says, and tells how long to sleep first. */
    method Reserve(now: real) returns (delay: real)
      requires Valid()
      modifies this
      ensures Valid() && delay >= 0.0 && last == Some(now)
      ensures |log| == |old(log)| + 1 && log[..|old(log)|] == old(log)
      ensures log[|old(log)|].now == now && log[|old(log)|].release == now + delay
      ensures var gained := old(tokens) + Worth(qps, now - old(last).value);
        tokens == (if gained > burst then burst else gained) - 1.0
      ensures if tokens >= 0.0 then delay == 0.0 else Worth(qps, delay) == -tokens
    {
      hide Paced, Worth;
      Spread(qps, now, last.value);
      if last.Some? {
        tokens := tokens + Worth(qps, now - last.value);
        if tokens > burst {
          tokens := burst;
        }
      }
      last := Some(now);
      tokens := tokens - 1.0;
      if tokens >= 0.0 {
        delay := 0.0;
      } else {
        delay := Delay(tokens);
      }
      Nothing(qps);
      Sum(qps, now, delay);
      ghost var g := Grant(now, now + delay, Worth(qps, now) - tokens);
      PacedSnoc(log, qps, burst, g);
      log := log + [g];
    }

    method Delay(short: real) returns (delay: real)
      requires qps > 0.0 && short < 0.0
      ensures Worth(qps, delay) == -short && delay >= 0.0
    {
      delay := -short / qps;
      var q := Quotient(qps, -short);
    }
  }

  /** newLimiter: no rate, no limiter. */
  method NewLimiter(qps: real, burst: int, now: real) returns (l: Limiter?)
    ensures l == null <==> qps <= 0.0
    ensures l != null ==> fresh(l) && l.Valid() && l.log == []
  {
    if qps <= 0.0 {
      return null;
    }
    l := new Limiter(qps, burst, now);
  }

  // ------------------------------------------------------------- the cooldown

  const MAX_RETRY_AFTER: int := 120_000
  const DEFAULT_RETRY_AFTER: int := 5_000

  function Clamped(d: int): (r: int)
  {
    if d <= 0 then DEFAULT_RETRY_AFTER else if d > MAX_RETRY_AFTER then MAX_RETRY_AFTER else d
  }

  /** Until when a node refuses traffic. */
  class Cooldown {
    var until: int
    ghost var latest: int

    constructor ()
      ensures Valid() && until == 0
    {
      until, latest := 0, 0;
    }

    /** Never more than two minutes past the latest moment it was set. */
    ghost predicate Valid()
      reads this
    {
      until <= latest + MAX_RETRY_AFTER
    }

    method Set(d: int, now: int)
      requires Valid()
      modifies this
      ensures Valid() && until >= old(until) && latest == (if now > old(latest) then now else old(latest))
      ensures until == (if now + Clamped(d) > old(until) then now + Clamped(d) else old(until))
      ensures now < until
    {
      var wait := d;
      if wait <= 0 {
        wait := DEFAULT_RETRY_AFTER;
      }
      if wait > MAX_RETRY_AFTER {
        wait := MAX_RETRY_AFTER;
      }
      if now + wait > until {
        until := now + wait;
      }
      latest := if now > latest then now else latest;
    }

    function Remaining(now: int): (r: int)
      reads this
    {
      until - now
    }
  }
}
