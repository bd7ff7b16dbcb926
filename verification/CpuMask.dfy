/** How cyclictest spreads its threads over the CPUs of an affinity mask. */
module CpuMask {
  import opened Arith

  /** The number of set bits below position n. */
  function BitsBelow(bits: seq<bool>, n: nat): (c: nat)
    requires n <= |bits|
    ensures c <= n
  {
    if n == 0 then 0 else BitsBelow(bits, n - 1) + if bits[n - 1] then 1 else 0
  }

  function PopCount(bits: seq<bool>): nat { BitsBelow(bits, |bits|) }

  lemma {:induction false} BitsBelowGrows(bits: seq<bool>, i: nat, j: nat)
    requires i <= j <= |bits|
    ensures BitsBelow(bits, i) <= BitsBelow(bits, j)
    ensures i < j && bits[i] ==> BitsBelow(bits, i) < BitsBelow(bits, j)
    decreases j
  {
    if i < j {
      BitsBelowGrows(bits, i, j - 1);
    }
  }

  /** The position of the m-th set bit, counting from 0. */
  function NthSet(bits: seq<bool>, m: nat): (i: nat)
    requires m < PopCount(bits)
    ensures i < |bits| && bits[i] && BitsBelow(bits, i) == m
  {
    NthSetBelow(bits, |bits|, m)
  }

  function NthSetBelow(bits: seq<bool>, n: nat, m: nat): (i: nat)
    requires n <= |bits| && m < BitsBelow(bits, n)
    ensures i < n && bits[i] && BitsBelow(bits, i) == m
  {
    if m < BitsBelow(bits, n - 1) then NthSetBelow(bits, n - 1, m) else n - 1
  }

  /** Set bits and their ranks correspond one to one. */
  lemma NthSetIsBijective(bits: seq<bool>)
    ensures forall i :: 0 <= i < |bits| && bits[i] ==>
      BitsBelow(bits, i) < PopCount(bits) && NthSet(bits, BitsBelow(bits, i)) == i
    ensures forall m: nat, k: nat :: m < k < PopCount(bits) ==> NthSet(bits, m) < NthSet(bits, k)
  {
    forall i | 0 <= i < |bits| && bits[i]
      ensures BitsBelow(bits, i) < PopCount(bits) && NthSet(bits, BitsBelow(bits, i)) == i
    {
      BitsBelowGrows(bits, i, |bits|);
      SameRank(bits, i, NthSet(bits, BitsBelow(bits, i)));
    }
    forall m: nat, k: nat | m < k < PopCount(bits) ensures NthSet(bits, m) < NthSet(bits, k) {
      var i, j := NthSet(bits, m), NthSet(bits, k);
      if j <= i {
        BitsBelowGrows(bits, j, i);
        assert false;
      }
    }
  }

  lemma SameRank(bits: seq<bool>, i: nat, j: nat)
    requires i < |bits| && j < |bits| && bits[i] && bits[j] && BitsBelow(bits, i) == BitsBelow(bits, j)
    ensures i == j
  {
    if i < j {
      BitsBelowGrows(bits, i, j);
    } else if j < i {
      BitsBelowGrows(bits, j, i);
    }
  }

  /** The CPU of a thread when all set bits lie below maxCpus. */
  function CpuOf(bits: seq<bool>, thread: nat): nat
    requires PopCount(bits) > 0
  {
    NthSet(bits, thread % PopCount(bits))
  }

  /** The CPU the code gives it. */
  function Chosen(bits: seq<bool>, thread: nat, maxCpus: nat): nat
    requires PopCount(bits) > 0
  {
    if CpuOf(bits, thread) < maxCpus then CpuOf(bits, thread) else 0
  }

  // ------------------------------------------------------------------ the code

  predicate IsBitSet(mask: array<bool>, i: nat)
    reads mask
  {
    i < mask.Length && mask[i]
  }

  /** rt_numa_bitmask_count */
  method BitmaskCount(mask: array<bool>) returns (numBits: nat)
    ensures numBits == PopCount(mask[..])
  {
    numBits := 0;
    for i := 0 to mask.Length
      invariant numBits == BitsBelow(mask[..], i)
    {
      if IsBitSet(mask, i) {
        numBits := numBits + 1;
      }
    }
  }

  /** cpu_for_thread.  A mask without set bits is refused when the option is parsed.  If the wanted bit does
      not lie below maxCpus the answer is 0. */
  method CpuForThread(mask: array<bool>, threadNum: nat, maxCpus: nat) returns (cpu: nat)
    requires PopCount(mask[..]) > 0
    ensures cpu == Chosen(mask[..], threadNum, maxCpus)
  {
    var numCpus := BitmaskCount(mask);
    var m := threadNum % numCpus;
    ghost var bits := mask[..];
    ghost var wanted := NthSet(bits, m);
    var seen := 0;
    for i := 0 to maxCpus
      invariant seen == BitsBelow(bits, if i < |bits| then i else |bits|)
      invariant wanted >= i
    {
      if IsBitSet(mask, i) {
        if seen == m {
          SameRank(bits, i, wanted);
          return i;
        }
        seen := seen + 1;
      }
    }
    return 0;
  }

  // ------------------------------------------------------------------ the load

  /** The thread numbered by the rank of a CPU is placed on it. */
  lemma RankedThread(bits: seq<bool>, i: nat)
    requires i < |bits| && bits[i]
    ensures BitsBelow(bits, i) < PopCount(bits) && CpuOf(bits, BitsBelow(bits, i)) == i
  {
    var m := BitsBelow(bits, i);
    BitsBelowGrows(bits, i, |bits|);
    QuotientIs(m, PopCount(bits), 0, m);
    SameRank(bits, i, NthSet(bits, m));
  }

  /** No set bit, except perhaps bit 0, lies at or beyond maxCpus. */
  predicate Fits(bits: seq<bool>, maxCpus: nat) {
    forall i :: 0 <= i < |bits| && bits[i] ==> i == 0 || i < maxCpus
  }

  /** Every thread is given its own CPU of the mask exactly if the mask fits; and some CPU of the mask exactly if
      bit 0 is set or no bit lies at or beyond maxCpus. */
  lemma PlacedOnMaskExactlyWhen(bits: seq<bool>, maxCpus: nat)
    requires PopCount(bits) > 0
    ensures (forall t: nat :: Chosen(bits, t, maxCpus) == CpuOf(bits, t))
       <==> Fits(bits, maxCpus)
    ensures (forall t: nat :: bits[Chosen(bits, t, maxCpus)])
       <==> bits[0] || (forall i :: 0 <= i < |bits| && bits[i] ==> i < maxCpus)
  {
    forall i | 0 <= i < |bits| && bits[i] ensures CpuOf(bits, BitsBelow(bits, i)) == i {
      RankedThread(bits, i);
    }
    forall t: nat ensures CpuOf(bits, t) < |bits| && bits[CpuOf(bits, t)] {}
    forall i | 0 <= i < |bits| && bits[i] && i >= maxCpus
      ensures Chosen(bits, BitsBelow(bits, i), maxCpus) == 0
    {}
  }

  /** How many of the `count` threads from `first` on are placed on this CPU. */
  function Load(bits: seq<bool>, maxCpus: nat, cpu: nat, first: nat, count: nat): nat
    requires PopCount(bits) > 0
  {
    if count == 0 then 0
    else Load(bits, maxCpus, cpu, first, count - 1) + if Chosen(bits, first + count - 1, maxCpus) == cpu then 1 else 0
  }

  /** A CPU that is nobody's substitute. */
  predicate Plain(bits: seq<bool>, maxCpus: nat, cpu: nat) { cpu > 0 || Fits(bits, maxCpus) }

  predicate Usable(bits: seq<bool>, maxCpus: nat, cpu: nat) {
    cpu < |bits| && bits[cpu] && (cpu == 0 || cpu < maxCpus)
  }

  /** The numbers below n that leave remainder r when divided by p. */
  function Congruent(n: nat, p: nat, r: nat): nat
    requires r < p
  {
    (n + p - 1 - r) / p
  }

  lemma NextCongruent(n: nat, p: nat, r: nat)
    requires r < p
    ensures Congruent(n + 1, p, r) == Congruent(n, p, r) + if n % p == r then 1 else 0
  {
    var q, k := n / p, n % p;
    assert n == p * q + k;
    if k < r {
      QuotientIs(n + p - 1 - r, p, q, k + p - 1 - r);
      QuotientIs(n + p - r, p, q, k + p - r);
    } else if k == r {
      QuotientIs(n + p - 1 - r, p, q, p - 1);
      QuotientIs(n + p - r, p, q + 1, 0);
    } else {
      QuotientIs(n + p - 1 - r, p, q + 1, k - 1 - r);
      QuotientIs(n + p - r, p, q + 1, k - r);
    }
  }

  lemma ChosenForRank(bits: seq<bool>, maxCpus: nat, m: nat, thread: nat)
    requires m < PopCount(bits) && Usable(bits, maxCpus, NthSet(bits, m)) && Plain(bits, maxCpus, NthSet(bits, m))
    ensures Chosen(bits, thread, maxCpus) == NthSet(bits, m) <==> thread % PopCount(bits) == m
  {
    assert BitsBelow(bits, CpuOf(bits, thread)) == thread % PopCount(bits) && BitsBelow(bits, NthSet(bits, m)) == m;
    assert bits[CpuOf(bits, thread)];
  }

  lemma {:induction false} LoadIsCongruent(bits: seq<bool>, maxCpus: nat, m: nat, first: nat, count: nat)
    requires m < PopCount(bits) && Usable(bits, maxCpus, NthSet(bits, m)) && Plain(bits, maxCpus, NthSet(bits, m))
    ensures var p := PopCount(bits);
      Load(bits, maxCpus, NthSet(bits, m), first, count) == Congruent(first + count, p, m) - Congruent(first, p, m)
  {
    if count > 0 {
      LoadIsCongruent(bits, maxCpus, m, first, count - 1);
      NextCongruent(first + count - 1, PopCount(bits), m);
      ChosenForRank(bits, maxCpus, m, first + count - 1);
    }
  }

  /** Adding t to x adds the quotient of t, rounded down or up, to that of x. */
  lemma QuotientsDiffer(x: nat, t: nat, p: nat)
    requires p > 0
    ensures t / p <= (x + t) / p - x / p <= (t + p - 1) / p
  {
    var a, b, i, j := x / p, t / p, x % p, t % p;
    assert x == p * a + i && t == p * b + j;
    assert x + t == p * (a + b) + (i + j);
    if i + j < p {
      QuotientIs(x + t, p, a + b, i + j);
    } else {
      assert p * (a + b + 1) == p * (a + b) + p;
      QuotientIs(x + t, p, a + b + 1, i + j - p);
    }
    if j == 0 {
      QuotientIs(t + p - 1, p, b, p - 1);
    } else {
      assert p * (b + 1) == p * b + p;
      QuotientIs(t + p - 1, p, b + 1, j - 1);
    }
  }

  /** Any `count` consecutive threads put the quotient of count by the number of CPUs in the mask, rounded down
      or up, on each of those CPUs below maxCpus, and nothing on the others.  Only for CPU 0 the mask must fit: it
      takes the threads of all bits beyond. */
  lemma LoadIsEven(bits: seq<bool>, maxCpus: nat, cpu: nat, first: nat, count: nat)
    requires PopCount(bits) > 0
    ensures Plain(bits, maxCpus, cpu) ==>
      var load, p := Load(bits, maxCpus, cpu, first, count), PopCount(bits);
      if Usable(bits, maxCpus, cpu) then count / p <= load <= (count + p - 1) / p else load == 0
  {
    if Plain(bits, maxCpus, cpu) {
      var p := PopCount(bits);
      if Usable(bits, maxCpus, cpu) {
        NthSetIsBijective(bits);
        var m := BitsBelow(bits, cpu);
        LoadIsCongruent(bits, maxCpus, m, first, count);
        QuotientsDiffer(first + p - 1 - m, count, p);
      } else {
        NoLoad(bits, maxCpus, cpu, first, count);
      }
    }
  }

  lemma {:induction false} NoLoad(bits: seq<bool>, maxCpus: nat, cpu: nat, first: nat, count: nat)
    requires PopCount(bits) > 0 && !Usable(bits, maxCpus, cpu) && Plain(bits, maxCpus, cpu)
    ensures Load(bits, maxCpus, cpu, first, count) == 0
  {
    if count > 0 {
      NoLoad(bits, maxCpus, cpu, first, count - 1);
      assert bits[CpuOf(bits, first + count - 1)];
    }
  }
}
