/** Positional numerals: big-endian digit sequences in any base. Base 256 is what
    big.Int.SetBytes and Bytes do, base 58 and base 10 are the text codecs. */
module Digits {

  function Pow(b: nat, n: nat): (r: nat)
  {
    if n == 0 then 1 else b * Pow(b, n - 1)
  }

  predicate InBase(ds: seq<nat>, b: nat)
  {
    forall i :: 0 <= i < |ds| ==> ds[i] < b
  }

  function Value(ds: seq<nat>, b: nat): (r: nat)
  {
    if |ds| == 0 then 0 else Value(ds[..|ds| - 1], b) * b + ds[|ds| - 1]
  }

  /** The numeral of n without leading zeros; zero has the empty numeral. */
  function Numeral(n: nat, b: nat): (r: seq<nat>)
    requires b >= 2
  {
    if n == 0 then [] else Numeral(n / b, b) + [n % b]
  }

  predicate Minimal(ds: seq<nat>)
  {
    ds != [] ==> ds[0] != 0
  }

  function Zeros(n: nat): (r: seq<nat>)
    ensures |r| == n
    ensures forall i :: 0 <= i < n ==> r[i] == 0
  {
    if n == 0 then [] else [0] + Zeros(n - 1)
  }

  /** How many leading zero digits a sequence has. */
  function LeadingZeros(ds: seq<nat>): (n: nat)
    ensures n <= |ds|
    ensures forall i :: 0 <= i < n ==> ds[i] == 0
    ensures n < |ds| ==> ds[n] != 0
  {
    if ds != [] && ds[0] == 0 then 1 + LeadingZeros(ds[1..]) else 0
  }

  lemma {:induction false} PowPositive(b: nat, n: nat)
    requires b >= 1
    ensures Pow(b, n) >= 1
  {
    if n > 0 { PowPositive(b, n - 1); }
  }

  lemma {:induction false} PowAdd(b: nat, m: nat, n: nat)
    ensures Pow(b, m + n) == Pow(b, m) * Pow(b, n)
  {
    if m > 0 {
      PowAdd(b, m - 1, n);
      assert b * (Pow(b, m - 1) * Pow(b, n)) == (b * Pow(b, m - 1)) * Pow(b, n);
    }
  }

  lemma {:induction false} PowMono(b: nat, m: nat, n: nat)
    requires b >= 1 && m <= n
    ensures Pow(b, m) <= Pow(b, n)
  {
    PowAdd(b, m, n - m);
    PowPositive(b, n - m);
    MulLe(1, Pow(b, n - m), Pow(b, m));
  }

  lemma MulLe(x: int, y: int, b: int)
    requires x <= y && b >= 0
    ensures x * b <= y * b
  {
  }

  lemma Euclid(n: nat, b: nat)
    requires b > 0
    ensures n == (n / b) * b + n % b && 0 <= n % b < b
  {
  }

  lemma Spread(v: int, b: int)
    ensures (v + 1) * b == v * b + b
  {
  }

  lemma DivBelow(n: nat, b: nat, p: nat)
    requires b > 0
    ensures n / b < p <==> n < b * p
  {
    var q := n / b;
    Euclid(n, b);
    Spread(q, b);
    if q < p { MulLe(q + 1, p, b); } else { MulLe(p, q, b); }
  }

  /** Division undoes appending a digit. */
  lemma {:induction false} Split(v: nat, d: nat, b: nat)
    requires d < b
    ensures (v * b + d) / b == v && (v * b + d) % b == d
  {
    var n := v * b + d;
    Euclid(n, b);
    var q := n / b;
    Spread(q, b);
    Spread(v, b);
    if q < v { MulLe(q + 1, v, b); }
    if q > v { MulLe(v + 1, q, b); }
  }

  lemma ValueSnoc(ds: seq<nat>, d: nat, b: nat)
    ensures Value(ds + [d], b) == Value(ds, b) * b + d
  {
    assert (ds + [d])[..|ds|] == ds;
  }

  lemma {:induction false} NumeralSnoc(v: nat, d: nat, b: nat)
    requires b >= 2 && d < b && (v > 0 || d > 0)
    ensures Numeral(v * b + d, b) == Numeral(v, b) + [d]
  {
    Split(v, d, b);
    if v > 0 { MulLe(1, v, b); }
  }

  lemma {:induction false} NumeralValue(n: nat, b: nat)
    requires b >= 2
    ensures Value(Numeral(n, b), b) == n
    ensures InBase(Numeral(n, b), b) && Minimal(Numeral(n, b))
  {
    if n > 0 {
      Euclid(n, b);
      NumeralValue(n / b, b);
      ValueSnoc(Numeral(n / b, b), n % b, b);
    }
  }

  lemma {:induction false} ValueNumeral(ds: seq<nat>, b: nat)
    requires b >= 2 && InBase(ds, b) && Minimal(ds)
    ensures Numeral(Value(ds, b), b) == ds
  {
    if ds != [] {
      var init, d := ds[..|ds| - 1], ds[|ds| - 1];
      ValueNumeral(init, b);
      assert init == [] ==> d == ds[0];
      assert init != [] ==> Value(init, b) > 0;
      NumeralSnoc(Value(init, b), d, b);
      assert ds == init + [d];
    }
  }

  lemma ShiftSum(v: nat, p: nat, w: nat, b: nat)
    ensures (v * p + w) * b == v * (b * p) + w * b
  {
    assert (v * p) * b == v * (b * p);
  }

  lemma {:induction false} ValueConcat(a: seq<nat>, c: seq<nat>, b: nat)
    ensures Value(a + c, b) == Value(a, b) * Pow(b, |c|) + Value(c, b)
  {
    if c == [] {
      assert a + c == a;
    } else {
      var init, d := c[..|c| - 1], c[|c| - 1];
      ValueConcat(a, init, b);
      assert (a + c)[..|a + c| - 1] == a + init;
      ShiftSum(Value(a, b), Pow(b, |init|), Value(init, b), b);
    }
  }

  lemma {:induction false} ValueZeros(n: nat, b: nat)
    ensures Value(Zeros(n), b) == 0
  {
    if n > 0 {
      ValueZeros(n - 1, b);
      assert Zeros(n)[..n - 1] == Zeros(n - 1);
    }
  }

  lemma {:induction false} ValuePadded(n: nat, ds: seq<nat>, b: nat)
    ensures Value(Zeros(n) + ds, b) == Value(ds, b)
  {
    ValueConcat(Zeros(n), ds, b);
    ValueZeros(n, b);
  }

  lemma {:induction false} ValueBound(ds: seq<nat>, b: nat)
    requires InBase(ds, b)
    ensures Value(ds, b) < Pow(b, |ds|)
  {
    if ds != [] {
      var init := ds[..|ds| - 1];
      ValueBound(init, b);
      MulLe(Value(init, b) + 1, Pow(b, |init|), b);
      Spread(Value(init, b), b);
    }
  }

  /** Bounds on the value fix the length of the numeral. */
  lemma {:induction false} NumeralLength(n: nat, b: nat, k: nat)
    requires b >= 2
    ensures n < Pow(b, k) <==> |Numeral(n, b)| <= k
  {
    if n == 0 {
      PowPositive(b, k);
    } else if k > 0 {
      NumeralLength(n / b, b, k - 1);
      DivBelow(n, b, Pow(b, k - 1));
    }
  }

  /** Padding and stripping: a sequence is its leading zeros and a minimal rest. */
  lemma {:induction false} StripZeros(ds: seq<nat>, b: nat)
    requires b >= 2 && InBase(ds, b)
    ensures ds == Zeros(LeadingZeros(ds)) + Numeral(Value(ds, b), b)
  {
    var n := LeadingZeros(ds);
    var rest := ds[n..];
    assert ds == Zeros(n) + rest;
    ValuePadded(n, rest, b);
    ValueNumeral(rest, b);
  }

  /** The numeral of n padded to exactly width digits. */
  function Padded(n: nat, b: nat, width: nat): (ds: seq<nat>)
    requires b >= 2 && n < Pow(b, width)
    ensures |ds| == width && InBase(ds, b) && Value(ds, b) == n
  {
    NumeralLength(n, b, width);
    NumeralValue(n, b);
    var ds := Numeral(n, b);
    ValuePadded(width - |ds|, ds, b);
    Zeros(width - |ds|) + ds
  }

  lemma {:induction false} ValueCons(d: nat, rest: seq<nat>, b: nat)
    ensures Value([d] + rest, b) == d * Pow(b, |rest|) + Value(rest, b)
  {
    ValueConcat([d], rest, b);
    assert Value([d], b) == d by { ValueSnoc([], d, b); assert [] + [d] == [d]; }
  }

  /** Tighter bounds fix the leading digit as well. */
  lemma {:induction false} LeadingDigit(n: nat, b: nat, k: nat, d: nat, low: nat)
    requires b >= 2 && 1 <= d < b
    requires low == d * Pow(b, k) && low <= n < low + Pow(b, k)
    ensures |Numeral(n, b)| == k + 1 && Numeral(n, b)[0] == d
  {
    var ds := [d] + Padded(n - low, b, k);
    ValueCons(d, ds[1..], b);
    assert ds == [d] + ds[1..] && ds[1..] == Padded(n - low, b, k);
    assert InBase(ds, b);
    ValueNumeral(ds, b);
  }

  /** Two sequences of one length with one value are the same sequence. */
  lemma {:induction false} ValueInjective(a: seq<nat>, c: seq<nat>, b: nat)
    requires InBase(a, b) && InBase(c, b) && |a| == |c| && Value(a, b) == Value(c, b)
    ensures a == c
  {
    if a != [] {
      var i, j := a[..|a| - 1], c[..|c| - 1];
      Split(Value(i, b), a[|a| - 1], b);
      Split(Value(j, b), c[|c| - 1], b);
      ValueInjective(i, j, b);
      assert a == i + [a[|a| - 1]] && c == j + [c[|c| - 1]];
    }
  }
}
