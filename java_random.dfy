/** The linear congruential generator of java.util.Random (through
    ChunkRand), and the affine-map algebra of the LCG helper class that
    rewinds it: advancing by n steps is itself one affine step. */
module JavaRandom {

  const MULTIPLIER: int := 0x5_DEEC_E66D
  const ADDEND: int := 0xB
  const MODULUS: int := 0x1_0000_0000_0000  // 2^48

  /** The 48-bit internal state of a generator. */
  type Seed = s: int | 0 <= s < MODULUS

  /** An affine step `s -> (multiplier * s + addend) mod 2^48`. */
  datatype Lcg = Lcg(multiplier: Seed, addend: Seed)

  /** The generator of java.util.Random. */
  const JAVA: Lcg := Lcg(MULTIPLIER, ADDEND)

  /** The step that leaves every state as it is. */
  const IDENTITY: Lcg := Lcg(1, 0)

  function NextSeed(g: Lcg, s: Seed): Seed
  {
    (g.multiplier * s + g.addend) % MODULUS
  }

  /** One draw of java.util.Random: the state it moves to. */
  function Step(s: Seed): Seed
  {
    NextSeed(JAVA, s)
  }

  /** The state after `n` draws. */
  function Advance(s: Seed, n: nat): Seed
    decreases n
  {
    if n == 0 then s else Advance(Step(s), n - 1)
  }

  /** `g` followed by `h`, as one affine step. */
  function Then(g: Lcg, h: Lcg): (r: Lcg)
    ensures forall s: Seed :: NextSeed(r, s) == NextSeed(h, NextSeed(g, s))
  {
    var r := Lcg((h.multiplier * g.multiplier) % MODULUS,
                 (h.multiplier * g.addend + h.addend) % MODULUS);
    forall s: Seed ensures NextSeed(r, s) == NextSeed(h, NextSeed(g, s)) {
      ThenAt(g, h, s);
    }
    r
  }

  /** `g` repeated `n` times, as one affine step (what the library's
      `combine(n)` computes by binary exponentiation). */
  function Combine(g: Lcg, n: nat): Lcg
  {
    if n == 0 then IDENTITY else Then(g, Combine(g, n - 1))
  }

  /** `LCG.JAVA.combine(-5)`: the step that rewinds five draws, with the
      coefficients the library's exponentiation yields. */
  const FAILED_DUNGEON: Lcg := Lcg(0x3559_DC50_D715, 0xDA6C_C5B2_FD55)

  // ---------------------------------------------------------------------
  // Properties of the generator algebra

  /** Advancing by `a` and then by `b` is advancing by `a + b`. */
  lemma {:induction false} AdvanceAdd(s: Seed, a: nat, b: nat)
    ensures Advance(Advance(s, a), b) == Advance(s, a + b)
    decreases a
  {
    if a > 0 {
      AdvanceAdd(Step(s), a - 1, b);
    }
  }

  /** `Combine(JAVA, n)` advances a state by exactly `n` draws. */
  lemma {:induction false} CombineAdvances(n: nat, s: Seed)
    ensures NextSeed(Combine(JAVA, n), s) == Advance(s, n)
    decreases n
  {
    if n > 0 {
      CombineAdvances(n - 1, Step(s));
    }
  }

  /** `h` undoes `g` when their composition is the identity map. */
  lemma UndoneBy(g: Lcg, h: Lcg, s: Seed)
    requires (h.multiplier * g.multiplier) % MODULUS == 1
    requires (h.multiplier * g.addend + h.addend) % MODULUS == 0
    ensures NextSeed(h, NextSeed(g, s)) == s
  {
    ThenAt(g, h, s);
  }

  /** Five draws of java.util.Random as one affine step. */
  const JAVA_FIVE: Lcg := Lcg(0x6E00_FCF9_C03D, 0x5D56_92AC_E2BF)

  /** JAVA_FIVE is JAVA composed five times. */
  lemma CombineJavaFive()
    ensures Combine(JAVA, 5) == JAVA_FIVE
  {
    CombineNext(0, IDENTITY, JAVA);
    CombineNext(1, JAVA, Lcg(0xBB20_B460_0A69, 0x40_942D_E6BA));
    CombineNext(2, Lcg(0xBB20_B460_0A69, 0x40_942D_E6BA), Lcg(0xD498_BD0A_C4B5, 0xAA8_544E_593D));
    CombineNext(3, Lcg(0xD498_BD0A_C4B5, 0xAA8_544E_593D), Lcg(0x32EB_772C_5F11, 0x2D38_73C4_CD04));
    CombineNext(4, Lcg(0x32EB_772C_5F11, 0x2D38_73C4_CD04), JAVA_FIVE);
  }

  /** One more draw on top of a known combination. */
  lemma CombineNext(n: nat, c: Lcg, next: Lcg)
    requires Combine(JAVA, n) == c
    requires next == Lcg((c.multiplier * MULTIPLIER) % MODULUS,
                         (c.multiplier * ADDEND + c.addend) % MODULUS)
    ensures Combine(JAVA, n + 1) == next
  {
  }

  /** Five draws are one JAVA_FIVE step. */
  lemma AdvanceFive(s: Seed)
    ensures Advance(s, 5) == NextSeed(JAVA_FIVE, s)
  {
    CombineJavaFive();
    CombineAdvances(5, s);
  }

  /** FAILED_DUNGEON undoes JAVA_FIVE. */
  lemma FailedDungeonAfterFive(s: Seed)
    ensures NextSeed(FAILED_DUNGEON, NextSeed(JAVA_FIVE, s)) == s
  {
    UndoneBy(JAVA_FIVE, FAILED_DUNGEON, s);
  }

  /** JAVA_FIVE undoes FAILED_DUNGEON. */
  lemma FiveAfterFailedDungeon(s: Seed)
    ensures NextSeed(JAVA_FIVE, NextSeed(FAILED_DUNGEON, s)) == s
  {
    UndoneBy(FAILED_DUNGEON, JAVA_FIVE, s);
  }

  /** The library's `combine(-5)` step is the exact inverse of five draws:
      it rewinds them, and five draws undo it. */
  lemma FailedDungeonRewindsFive(s: Seed)
    ensures NextSeed(FAILED_DUNGEON, Advance(s, 5)) == s
    ensures Advance(NextSeed(FAILED_DUNGEON, s), 5) == s
  {
    AdvanceFive(s);
    AdvanceFive(NextSeed(FAILED_DUNGEON, s));
    FailedDungeonAfterFive(s);
    FiveAfterFailedDungeon(s);
  }

  // ---------------------------------------------------------------------
  // Drawing bounded integers

  function Pow2(k: nat): (r: nat)
    ensures r >= 1
  {
    if k == 0 then 1 else 2 * Pow2(k - 1)
  }

  /** The bounds for which `nextInt` takes its top-bits branch. */
  predicate IsPowerOfTwo(n: nat)
  {
    n == 1 || (n > 1 && n % 2 == 0 && IsPowerOfTwo(n / 2))
  }

  /** A bound `nextInt` accepts and answers from the top bits of the state. */
  predicate IsTopBitsBound(bound: nat)
  {
    IsPowerOfTwo(bound) && bound <= 0x8000_0000
  }

  function Log2(n: nat): (k: nat)
    requires IsPowerOfTwo(n)
    ensures Pow2(k) == n
  {
    if n == 1 then 0 else 1 + Log2(n / 2)
  }

  /** `nextInt(bound)` for a power-of-two bound, drawn from state `s`:
      `next(31)` is the state after one step shifted right by 17, and the
      result is `(bound * next(31)) >> 31`. */
  function NextIntFrom(s: Seed, bound: nat): int
    requires IsTopBitsBound(bound)
  {
    Scaled31(Step(s), bound)
  }

  /** `(bound * (t >>> 17)) >> 31`. */
  function Scaled31(t: Seed, bound: nat): int
  {
    (bound * (t / 0x2_0000)) / 0x8000_0000
  }

  /** For a bound 2^k, `nextInt` returns the top k bits of the next state,
      so its result lies in [0, bound). */
  lemma NextIntTopBits(s: Seed, bound: nat)
    requires IsTopBitsBound(bound)
    ensures Log2(bound) <= 31
    ensures NextIntFrom(s, bound) == Step(s) / Pow2(48 - Log2(bound))
    ensures 0 <= NextIntFrom(s, bound) < bound
  {
    ScaledTopBits(Step(s), bound);
  }

  lemma ScaledTopBits(t: Seed, bound: nat)
    requires IsTopBitsBound(bound)
    ensures Log2(bound) <= 31
    ensures Scaled31(t, bound) == t / Pow2(48 - Log2(bound))
    ensures 0 <= Scaled31(t, bound) < bound
  {
    Log2AtMost31(bound);
    TopBits(t, Log2(bound));
  }

  lemma Log2AtMost31(bound: nat)
    requires IsTopBitsBound(bound)
    ensures Log2(bound) <= 31
  {
    Pow2Of48();
    if Log2(bound) > 31 {
      Pow2Increasing(31, Log2(bound));
      assert false;
    }
  }

  /** The arithmetic behind NextIntTopBits, for a 48-bit value `t`. */
  lemma TopBits(t: nat, k: nat)
    requires t < MODULUS && k <= 31
    ensures Scaled31(t, Pow2(k)) == t / Pow2(48 - k)
    ensures t / Pow2(48 - k) < Pow2(k)
  {
    Pow2Of48();
    Pow2Add(k, 31 - k);
    MulDivCancel(Pow2(k), t / Pow2(17), Pow2(31 - k));
    DivDiv(t, Pow2(17), Pow2(31 - k));
    Pow2Add(17, 31 - k);
    Pow2Add(48 - k, k);
    DivBelow(t, Pow2(48 - k), Pow2(k));
  }

  // ---------------------------------------------------------------------
  // Seeding

  /** Java's `setSeed(seed)`: the state is `(seed ^ MULTIPLIER) & (2^48 - 1)`,
      i.e. the low 48 bits of `seed` XOR-ed with the multiplier. */
  function Scramble(seed: int): Seed
  {
    XorMultiplier(seed % MODULUS)
  }

  /** `s ^ MULTIPLIER` on 48-bit values. */
  function XorMultiplier(s: Seed): Seed
  {
    Pow2Of48();
    XorBelow(s, MULTIPLIER, 48);
    Xor(s, MULTIPLIER)
  }

  /** Bitwise XOR of two naturals, lowest bit first. */
  function Xor(a: nat, b: nat): nat
    decreases a + b
  {
    if a == 0 && b == 0 then 0
    else (if a % 2 == b % 2 then 0 else 1) + 2 * Xor(a / 2, b / 2)
  }

  /** The lowest bit of the XOR is the XOR of the lowest bits, and the rest
      is the XOR of the rest (also when both are zero). */
  lemma XorStep(a: nat, b: nat)
    ensures Xor(a, b) == (if a % 2 == b % 2 then 0 else 1) + 2 * Xor(a / 2, b / 2)
  {
  }

  /** The XOR of two `width`-bit values fits in `width` bits. */
  lemma {:induction false} XorBelow(a: nat, b: nat, width: nat)
    requires a < Pow2(width) && b < Pow2(width)
    ensures Xor(a, b) < Pow2(width)
    decreases width
  {
    if width > 0 && (a > 0 || b > 0) {
      XorBelow(a / 2, b / 2, width - 1);
    }
  }

  /** XOR-ing with the same value twice gives the value back. */
  lemma {:induction false} XorTwice(a: nat, b: nat)
    ensures Xor(Xor(a, b), b) == a
    decreases a + b
  {
    if a > 0 || b > 0 {
      var r := Xor(a, b);
      XorTwice(a / 2, b / 2);
      XorStep(r, b);
      assert r % 2 == (if a % 2 == b % 2 then 0 else 1) && r / 2 == Xor(a / 2, b / 2);
    }
  }

  /** XOR-ing with the multiplier twice gives the value back. */
  lemma XorMultiplierInvolution(s: Seed)
    ensures XorMultiplier(XorMultiplier(s)) == s
  {
    XorTwice(s, MULTIPLIER);
  }

  /** Seeding with any value whose low 48 bits are `s ^ MULTIPLIER` gives
      the state `s`. */
  lemma ScrambleOfXored(s: Seed, seed: int)
    requires seed % MODULUS == XorMultiplier(s)
    ensures Scramble(seed) == s
  {
    XorMultiplierInvolution(s);
  }

  // ---------------------------------------------------------------------
  // Arithmetic helpers

  lemma ModShift(x: int, k: int)
    ensures (x + k * MODULUS) % MODULUS == x % MODULUS
  {
  }

  lemma ModMulRight(a: int, b: int)
    ensures (a * (b % MODULUS)) % MODULUS == (a * b) % MODULUS
  {
    var q, r := b / MODULUS, b % MODULUS;
    assert a * b == a * r + (a * q) * MODULUS;
    ModShift(a * r, a * q);
  }

  lemma ModAddLeft(a: int, b: int)
    ensures ((a % MODULUS) + b) % MODULUS == (a + b) % MODULUS
  {
    ModShift((a % MODULUS) + b, a / MODULUS);
  }

  lemma ThenAt(g: Lcg, h: Lcg, s: Seed)
    ensures ((h.multiplier * g.multiplier) % MODULUS * s
             + (h.multiplier * g.addend + h.addend) % MODULUS) % MODULUS
         == NextSeed(h, NextSeed(g, s))
  {
    var hm, gm, ga, ha := h.multiplier, g.multiplier, g.addend, h.addend;
    var u := gm * s + ga;
    ReduceInner(hm, u, ha);
    Expand(hm, gm, ga, ha, s);
    ReduceProduct(hm * gm, s, hm * ga + ha);
  }

  lemma ReduceInner(a: int, u: int, b: int)
    ensures (a * (u % MODULUS) + b) % MODULUS == (a * u + b) % MODULUS
  {
    ModMulRight(a, u);
    ModAddLeft(a * (u % MODULUS), b);
    ModAddLeft(a * u, b);
  }

  lemma Expand(hm: int, gm: int, ga: int, ha: int, s: int)
    ensures hm * (gm * s + ga) + ha == (hm * gm) * s + (hm * ga + ha)
  {
  }

  lemma ReduceProduct(p: int, s: int, c: int)
    ensures (p * s + c) % MODULUS == ((p % MODULUS) * s + c % MODULUS) % MODULUS
  {
    var q, pm := p / MODULUS, p % MODULUS;
    var cq, cm := c / MODULUS, c % MODULUS;
    assert p * s == pm * s + (q * s) * MODULUS;
    ModShift(pm * s + cm, q * s + cq);
  }

  lemma {:induction false} Pow2Add(a: nat, b: nat)
    ensures Pow2(a + b) == Pow2(a) * Pow2(b)
    decreases a
  {
    if a > 0 {
      Pow2Add(a - 1, b);
    }
  }

  lemma Pow2Of48()
    ensures Pow2(48) == MODULUS
    ensures Pow2(31) == 0x8000_0000
    ensures Pow2(17) == 0x2_0000
  {
    assert Pow2(8) == 0x100;
    Pow2Add(8, 8);
    assert Pow2(16) == 0x1_0000;
    Pow2Add(16, 16);
    assert Pow2(32) == 0x1_0000_0000;
    Pow2Add(16, 32);
    Pow2Add(1, 16);
    assert Pow2(1) == 2;
    Pow2Add(1, 31);
  }

  lemma {:induction false} Pow2Increasing(a: nat, b: nat)
    requires a < b
    ensures Pow2(a) < Pow2(b)
    decreases b
  {
    if a < b - 1 {
      Pow2Increasing(a, b - 1);
    }
  }

  lemma MulAtLeast(k: int, d: int)
    requires k >= 1 && d > 0
    ensures k * d >= d
  {
    assert k * d == (k - 1) * d + d;
  }

  lemma DivUnique(x: int, d: int, q: int, r: int)
    requires d > 0 && x == q * d + r && 0 <= r < d
    ensures x / d == q && x % d == r
  {
    var q', r' := x / d, x % d;
    assert x == q' * d + r';
    assert (q - q') * d == r' - r;
    if q > q' { MulAtLeast(q - q', d); }
    if q < q' { MulAtLeast(q' - q, d); }
  }

  lemma DivDiv(x: nat, b: nat, c: nat)
    requires b > 0 && c > 0
    ensures x / b / c == x / (b * c)
  {
    var q := x / b / c;
    var r := x / b % c;
    var t := x % b;
    assert x / b == q * c + r;
    assert x == (x / b) * b + t;
    assert x == (q * c + r) * b + t;
    assert x == q * (b * c) + (r * b + t);
    assert r * b <= (c - 1) * b;
    assert 0 <= r * b + t < b * c;
    DivUnique(x, b * c, q, r * b + t);
  }

  lemma MulDivCancel(m: nat, x: nat, c: nat)
    requires m > 0 && c > 0
    ensures (m * x) / (m * c) == x / c
  {
    var q, r := x / c, x % c;
    assert x == q * c + r;
    assert m * x == q * (m * c) + m * r;
    assert m * r < m * c;
    DivUnique(m * x, m * c, q, m * r);
  }

  lemma DivBelow(x: nat, p: nat, q: nat)
    requires p > 0 && x < p * q
    ensures x / p < q
  {
  }

  /** The generator a `ChunkRand` holds. */
  class ChunkRand {
    var seed: Seed

    /** `nextInt(bound)` for a power-of-two bound: one draw. */
    method NextInt(bound: nat) returns (r: int)
      requires IsTopBitsBound(bound)
      modifies this
      ensures r == NextIntFrom(old(seed), bound)
      ensures seed == Step(old(seed))
    {
      r := Scaled31(Step(seed), bound);
      seed := Step(seed);
    }
  }
}
