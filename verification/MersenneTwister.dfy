/** The batch Mersenne Twister of src/common/randommt.cpp against the plain recurrence it computes,
    for any state length n and offset m. */
module MersenneTwister {

  const N: nat := 624
  const M: nat := 397
  const K: bv32 := 0x9908B0DF

  function MixBits(u: bv32, v: bv32): bv32 {
    (u & 0x80000000) | (v & 0x7FFFFFFF)
  }

  /** The next word from the word m places on and two neighbouring ones. */
  function Twist(far: bv32, s0: bv32, s1: bv32): bv32 {
    far ^ (MixBits(s0, s1) >> 1) ^ (if s1 & 1 != 0 then K else 0)
  }

  /** The same in the words of section [rand.eng.mers] of ISO/IEC 14882: y joins the upper bit of one
      word to the lower 31 of the next, and the constant is added when y, not the next word, is odd. */
  function StandardNext(far: bv32, u: bv32, v: bv32): bv32 {
    var y := MixBits(u, v);
    var alpha: bv32 := if y & 1 == 1 then 0x9908B0DF else 0;
    far ^ (y >> 1) ^ alpha
  }

  lemma LowBitOfMix(u: bv32, v: bv32)
    ensures MixBits(u, v) & 1 == 1 <==> v & 1 != 0
  {
  }

  lemma TwistIsStandard(far: bv32, u: bv32, v: bv32)
    ensures Twist(far, u, v) == StandardNext(far, u, v)
  {
    hide MixBits;
    LowBitOfMix(u, v);
  }

  function Temper(word: bv32): bv32 {
    var a := word ^ (word >> 11);
    var b := a ^ ((a << 7) & 0x9D2C5680);
    var c := b ^ ((b << 15) & 0xEFC60000);
    c ^ (c >> 18)
  }

  /** The tempering of the same section, with the parameters it gives mt19937. */
  function StandardTemper(x: bv32): bv32 {
    var z1 := x ^ ((x >> 11) & 0xFFFFFFFF);
    var z2 := z1 ^ ((z1 << 7) & 0x9D2C5680);
    var z3 := z2 ^ ((z2 << 15) & 0xEFC60000);
    z3 ^ (z3 >> 18)
  }

  lemma TemperIsStandard(word: bv32)
    ensures Temper(word) == StandardTemper(word)
  {
  }

  function FirstSeed(seed: bv32): bv32 { seed | 1 }

  function NextSeed(word: bv32): bv32 { word * 69069 }

  /** The j-th word of the initial state. */
  function Seeded(seed: bv32, j: nat): bv32 {
    if j == 0 then FirstSeed(seed) else NextSeed(Seeded(seed, j - 1))
  }

  /** All words a seed gives are odd. */
  lemma {:induction false} SeededIsOdd(seed: bv32, j: nat)
    ensures Seeded(seed, j) & 1 == 1
  {
    if j > 0 {
      SeededIsOdd(seed, j - 1);
    }
  }

  /** The first words of the seed taken when none is given. Bit 0 of a seed does not matter. */
  lemma FirstWords(seed: bv32)
    ensures Seeded(4357, 0) == 4357 && Seeded(4357, 1) == 300933633 && Seeded(4357, 2) == 1838352333
            && Seeded(4357, 3) == 1039116329
    ensures forall j :: Seeded(seed | 1, j) == Seeded(seed, j)
  {
    assert Seeded(4357, 1) == 300933633;
    assert Seeded(4357, 2) == 1838352333;
    forall j ensures Seeded(seed | 1, j) == Seeded(seed, j) {
      LowBitIsNoMatter(seed, j);
    }
  }

  lemma {:induction false} LowBitIsNoMatter(seed: bv32, j: nat)
    ensures Seeded(seed | 1, j) == Seeded(seed, j)
  {
    if j > 0 {
      LowBitIsNoMatter(seed, j - 1);
    }
  }

  /** The infinite sequence: the initial state, then x[k] from x[k-n], x[k-n+1] and x[k-n+m]. */
  function X(seed: bv32, n: nat, m: nat, k: nat): bv32
    requires 0 < m < n
  {
    if k < n then Seeded(seed, k)
    else StandardNext(X(seed, n, m, k - n + m), X(seed, n, m, k - n), X(seed, n, m, k - n + 1))
  }

  lemma Recurrence(seed: bv32, n: nat, m: nat, k: nat, far: nat)
    requires 0 < m < n && far == k + m
    ensures X(seed, n, m, k + n) == Twist(X(seed, n, m, far), X(seed, n, m, k), X(seed, n, m, k + 1))
  {
    hide Twist, StandardNext;
    TwistIsStandard(X(seed, n, m, far), X(seed, n, m, k), X(seed, n, m, k + 1));
  }

  class Generator {
    const n: nat
    const m: nat
    const state: array<bv32>
    var next: nat
    var left: int
    ghost var seed: bv32
    ghost var drawn: nat
    ghost var base: nat

    ghost predicate WellFormed() {
      0 < m < n && state.Length == n + 1
    }

    /** The state holds the words of the sequence from `base` on; `drawn` numbers were drawn. */
    ghost predicate Valid()
      reads this, state
    {
      && WellFormed()
      && -1 <= left < n
      && if left == -1 then seed == 4357 && drawn == 0
         else
           && Holds(base)
           && if left == 0 then drawn == base else next == n - left && drawn + n == base + next
    }

    ghost predicate Holds(from: nat)
      requires WellFormed()
      reads this`seed, state
    {
      forall i :: 0 <= i < n ==> state[i] == X(seed, n, m, from + i)
    }

    /** The generator before anyone has seeded it. */
    constructor (n: nat, m: nat)
      requires 0 < m < n
      ensures Valid() && fresh(state) && this.n == n && this.m == m
      ensures seed == 4357 && drawn == 0
    {
      this.n, this.m := n, m;
      state := new bv32[n + 1](_ => 0);
      left, next := -1, 0;
      seed, drawn, base := 4357, 0, 0;
    }

    method Seed(newSeed: bv32)
      requires WellFormed()
      modifies this, state
      ensures Valid() && left == 0 && seed == newSeed && drawn == 0
    {
      hide NextSeed, FirstSeed;
      seed, drawn, base := newSeed, 0, 0;
      var x := FirstSeed(newSeed);
      left := 0;
      state[0] := x;
      var j := 1;
      while j < n
        invariant 1 <= j <= n
        invariant x == Seeded(newSeed, j - 1)
        invariant forall i :: 0 <= i < j ==> state[i] == Seeded(newSeed, i)
        modifies state
      {
        x := NextSeed(x);
        state[j] := x;
        j := j + 1;
      }
    }

    /** Makes the next block in place and returns its first number. */
    method Reload() returns (r: bv32)
      requires WellFormed() && (left < -1 || (left == -1 && Holds(drawn)))
      modifies this, state
      ensures Valid() && left == n - 1
      ensures seed == (if old(left) < -1 then 4357 else old(seed))
      ensures drawn == (if old(left) < -1 then 0 else old(drawn)) + 1
      ensures r == Temper(X(seed, n, m, n + drawn - 1))
    {
      hide Twist, Temper, Seeded, X, Half, Holds;
      if left < -1 {
        Seed(4357);
      }
      base := drawn;
      left, next := n - 1, 1;
      NoneRewritten();
      var s0, s1 := Front();
      s0 := Back(s0, s1);
      s1 := Last(s0);
      AllRewritten();
      base, drawn := base + n, drawn + 1;
      r := Temper(s1);
    }

    /** The first p words are made anew, the others are still the old ones. */
    ghost predicate Half(p: nat)
      requires WellFormed() && p <= n
      reads this`seed, this`base, state
    {
      && (forall i :: p <= i < n ==> state[i] == X(seed, n, m, base + i))
      && (forall i :: 0 <= i < p ==> state[i] == X(seed, n, m, base + n + i))
    }

    lemma NoneRewritten()
      requires WellFormed() && Holds(base)
      ensures Half(0)
    {
    }

    lemma AllRewritten()
      requires WellFormed() && Half(n)
      ensures Holds(base + n)
    {
    }

    /** One word, from those at p and p + 1 of the old block and the one m further on. */
    method Word(p: nat, far: nat, s0: bv32, s1: bv32)
      requires WellFormed() && p < n - 1 && far < n && Half(p)
      requires s0 == X(seed, n, m, base + p) && s1 == X(seed, n, m, base + p + 1)
      requires far == if p < n - m then p + m else p + m - n
      modifies state
      ensures Half(p + 1)
    {
      hide Twist, X;
      Recurrence(seed, n, m, base + p, base + p + m);
      state[p] := Twist(state[far], s0, s1);
    }

    /** The words whose far word is still an old one. */
    method Front() returns (s0: bv32, s1: bv32)
      requires WellFormed() && Half(0)
      modifies state
      ensures Half(n - m) && s0 == X(seed, n, m, base + n - m)
      ensures m > 1 ==> s1 == X(seed, n, m, base + n - m + 1)
    {
      hide Twist, X;
      s0, s1 := state[0], state[1];
      var p0, p2, pm := 0, 2, m;
      while p0 < n - m
        invariant 0 <= p0 <= n - m && p2 == p0 + 2 && pm == p0 + m
        invariant s0 == X(seed, n, m, base + p0)
        invariant p0 < n - 1 ==> s1 == X(seed, n, m, base + p0 + 1)
        invariant Half(p0)
      {
        Word(p0, pm, s0, s1);
        s0, s1 := s1, state[p2];
        p0, p2, pm := p0 + 1, p2 + 1, pm + 1;
      }
    }

    /** The words whose far word is a new one, all but the last. */
    method Back(first: bv32, second: bv32) returns (s0: bv32)
      requires WellFormed() && Half(n - m) && first == X(seed, n, m, base + n - m)
      requires m > 1 ==> second == X(seed, n, m, base + n - m + 1)
      modifies state
      ensures Half(n - 1) && s0 == X(seed, n, m, base + n - 1)
    {
      hide Twist, X;
      var p0, p2, pm := n - m, n - m + 2, 0;
      var s1;
      s0, s1 := first, second;
      while p0 < n - 1
        invariant n - m <= p0 <= n - 1 && p2 == p0 + 2 && pm == p0 - (n - m)
        invariant s0 == X(seed, n, m, base + p0)
        invariant p0 < n - 1 ==> s1 == X(seed, n, m, base + p0 + 1)
        invariant Half(p0)
      {
        Word(p0, pm, s0, s1);
        s0, s1 := s1, state[p2];
        p0, p2, pm := p0 + 1, p2 + 1, pm + 1;
      }
    }

    /** The last word, whose neighbour is the first of the new ones. */
    method Last(s0: bv32) returns (s1: bv32)
      requires WellFormed() && Half(n - 1) && s0 == X(seed, n, m, base + n - 1)
      modifies state
      ensures Half(n) && s1 == X(seed, n, m, base + n)
    {
      hide Twist, X;
      s1 := state[0];
      Recurrence(seed, n, m, base + n - 1, base + n - 1 + m);
      state[n - 1] := Twist(state[m - 1], s0, s1);
    }

    /** The k-th number drawn after seeding is the tempered k-th word behind the initial state. */
    method Random() returns (r: bv32)
      requires Valid()
      modifies this, state
      ensures Valid() && left >= 0 && seed == old(seed) && drawn == old(drawn) + 1
      ensures r == Temper(X(seed, n, m, n + old(drawn)))
    {
      hide Twist, Temper, X;
      left := left - 1;
      if left < 0 {
        r := Reload();
        return;
      }
      r := Temper(state[next]);
      next := next + 1;
      drawn := drawn + 1;
    }
  }

  /** What a user of the generator sees: seeded with any number, it delivers the tempered words of
      the sequence one after the other, across all block boundaries. */
  method Draw(seed: bv32, count: nat) returns (numbers: seq<bv32>)
    ensures |numbers| == count
    ensures forall k :: 0 <= k < count ==> numbers[k] == Temper(X(seed, N, M, N + k))
  {
    hide Temper, X;
    var g := new Generator(N, M);
    g.Seed(seed);
    numbers := [];
    while |numbers| < count
      invariant g.Valid() && fresh(g) && fresh(g.state) && g.n == N && g.m == M
      invariant g.seed == seed && g.drawn == |numbers| <= count
      invariant forall k :: 0 <= k < |numbers| ==> numbers[k] == Temper(X(seed, N, M, N + k))
    {
      var r := g.Random();
      numbers := numbers + [r];
    }
  }
}
