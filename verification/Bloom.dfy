/** The address filter (internal/bloom/bloom.go): a bit array in 64-bit words and two
    FNV-based hashes. Sizing needs logarithms and comes as parameters. */
module Bloom {

  const TWO_64: nat := 0x1_0000_0000_0000_0000
  const FNV_OFFSET_1: bv64 := 14695981039346656037
  const FNV_OFFSET_2: bv64 := 1099511628211
  const FNV_PRIME: bv64 := 1099511628211

  // -------------------------------------------------------------------- hashes

  function ByteAt(key: string, i: nat): (r: bv64)
    requires i < |key|
  {
    (key[i] as int % 256) as bv64
  }

  function Step1(h: bv64, b: bv64): (r: bv64)
  {
    (h ^ b) * FNV_PRIME
  }

  function Step2(h: bv64, b: bv64): (r: bv64)
  {
    var sum := (h + b) * FNV_PRIME;
    sum ^ (sum >> 29)
  }

  function Fnv1(key: string, n: nat): (r: bv64)
    requires n <= |key|
  {
    if n == 0 then FNV_OFFSET_1 else Step1(Fnv1(key, n - 1), ByteAt(key, n - 1))
  }

  function Fnv2(key: string, n: nat): (r: bv64)
    requires n <= |key|
  {
    if n == 0 then FNV_OFFSET_2 else Step2(Fnv2(key, n - 1), ByteAt(key, n - 1))
  }

  function MakeOdd(h: bv64): (r: bv64)
  {
    if h & 1 == 0 then h + 1 else h
  }

  /** The step is odd, so that it can reach every bit position of an even size. */
  lemma StepIsOdd(h: bv64)
    ensures MakeOdd(h) & 1 == 1
  {
  }

  method Hashes(key: string) returns (h1: bv64, h2: bv64)
    ensures h1 == Fnv1(key, |key|) && h2 == MakeOdd(Fnv2(key, |key|))
  {
    hide Step1, Step2, ByteAt, MakeOdd;
    h1 := FNV_OFFSET_1;
    h2 := FNV_OFFSET_2;
    var i := 0;
    while i < |key|
      invariant 0 <= i <= |key| && h1 == Fnv1(key, i) && h2 == Fnv2(key, i)
    {
      h1 := Step1(h1, ByteAt(key, i));
      h2 := Step2(h2, ByteAt(key, i));
      i := i + 1;
    }
    h2 := MakeOdd(h2);
  }

  /** The i-th bit of a key: 64-bit arithmetic that wraps, then reduced to the size. */
  function Index(h1: nat, h2: nat, i: nat, m: nat): (idx: nat)
    requires m > 0
    ensures idx < m
  {
    (h1 + i * h2) % TWO_64 % m
  }

  function Number(h: bv64): (r: nat)
  {
    h as nat
  }

  function KeyIndex(key: string, i: nat, m: nat): (idx: nat)
    requires m > 0
    ensures idx < m
  {
    Index(Number(Fnv1(key, |key|)), Number(MakeOdd(Fnv2(key, |key|))), i, m)
  }

  // ---------------------------------------------------------------- the filter

  class BloomFilter {
    const bits: array2<bool>
    const m: nat
    const k: nat
    const capacity: nat
    var count: nat
    ghost var keys: set<string>

    /** An empty filter for m bits and k hashes. */
    constructor (expected: nat, m: nat, k: nat)
      requires m > 0 && k >= 1
      ensures Valid() && fresh(bits) && keys == {} && count == 0
      ensures this.m == m && this.k == k && capacity == (if expected == 0 then 1 else expected)
    {
      capacity := if expected == 0 then 1 else expected;
      this.m, this.k := m, k;
      bits := new bool[(m + 63) / 64, 64]((_, _) => false);
      count := 0;
      keys := {};
    }

    predicate Bit(idx: nat)
      reads bits
      requires idx < m && m <= 64 * bits.Length0 && bits.Length1 == 64
    {
      bits[idx / 64, idx % 64]
    }

    /** All bits of the key are set. */
    ghost predicate Hit(key: string)
      reads bits
      requires m > 0 && m <= 64 * bits.Length0 && bits.Length1 == 64
    {
      forall i :: 0 <= i < k ==> Bit(KeyIndex(key, i, m))
    }

    /** Every index falls into the words, and every added key has its bits. */
    ghost predicate Valid()
      reads this, bits
    {
      && m > 0 && k >= 1 && bits.Length0 == (m + 63) / 64 && bits.Length1 == 64 && m <= 64 * bits.Length0
      && "" !in keys && forall key :: key in keys ==> Hit(key)
    }

    method Add(address: string)
      requires Valid()
      modifies this`count, this`keys, bits
      ensures Valid() && keys == (if address == "" then old(keys) else old(keys) + {address})
      ensures count == (if address == "" then old(count) else old(count) + 1)
      ensures forall idx :: 0 <= idx < m ==>
                (Bit(idx) <==> old(Bit(idx)) || (address != "" && exists i :: 0 <= i < k && KeyIndex(address, i, m) == idx))
    {
      hide KeyIndex, Index, Number, Fnv1, Fnv2, MakeOdd, ByteAt, Step1, Step2;
      if address == "" {
        return;
      }
      var h1, h2 := Hashes(address);
      var i := 0;
      while i < k
        invariant 0 <= i <= k && unchanged(this)
        invariant forall idx :: 0 <= idx < m ==>
                    (Bit(idx) <==> old(Bit(idx)) || exists j :: 0 <= j < i && KeyIndex(address, j, m) == idx)
      {
        var idx := Index(Number(h1), Number(h2), i, m);
        IndexIs(address, h1, h2, i, m);
        SetBit(idx);
        i := i + 1;
      }
      count := count + 1;
      keys := keys + {address};
    }

    method SetBit(idx: nat)
      requires idx < m && m <= 64 * bits.Length0 && bits.Length1 == 64
      modifies bits
      ensures forall p :: 0 <= p < m ==> (Bit(p) <==> old(Bit(p)) || p == idx)
    {
      bits[idx / 64, idx % 64] := true;
      forall p | 0 <= p < m ensures Bit(p) <==> old(Bit(p)) || p == idx {
        SamePosition(p, idx);
      }
    }

    /** Exactly whether all bits are set: never false for a key that was added. */
    method MayContain(key: string) returns (r: bool)
      requires Valid()
      ensures r <==> key != "" && Hit(key)
      ensures key in keys ==> r
    {
      hide KeyIndex, Index, Number, Fnv1, Fnv2, MakeOdd, ByteAt, Step1, Step2;
      if key == "" {
        return false;
      }
      var h1, h2 := Hashes(key);
      var i := 0;
      while i < k
        invariant 0 <= i <= k
        invariant forall j :: 0 <= j < i ==> Bit(KeyIndex(key, j, m))
      {
        var idx := Index(Number(h1), Number(h2), i, m);
        IndexIs(key, h1, h2, i, m);
        if !bits[idx / 64, idx % 64] {
          return false;
        }
        i := i + 1;
      }
      r := true;
    }
  }

  lemma IndexIs(key: string, h1: bv64, h2: bv64, i: nat, m: nat)
    requires m > 0 && h1 == Fnv1(key, |key|) && h2 == MakeOdd(Fnv2(key, |key|))
    ensures KeyIndex(key, i, m) == Index(Number(h1), Number(h2), i, m)
  {
    hide Fnv1, Fnv2, MakeOdd, Index, Number;
  }

  lemma SamePosition(p: nat, q: nat)
    ensures p / 64 == q / 64 && p % 64 == q % 64 ==> p == q
  {
  }
}
