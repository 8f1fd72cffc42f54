/**
 Where a document comes in the draw of the calibration sample: SplitMix64 of its 64-bit
 hash. Every step of the scrambling can be undone, so no two hashes share a place.
 */
module SamplePriority {
  const WORD := 0x1_0000_0000_0000_0000

  /** An unsigned 64-bit word. */
  type Word = x: nat | x < WORD

  // ---- exclusive or and right shift, bit by bit ----

  function Xor(x: nat, y: nat): nat {
    if x == 0 && y == 0 then 0
    else 2 * Xor(x / 2, y / 2) + if x % 2 == y % 2 then 0 else 1
  }

  /** `x >> k`. */
  function Shift(x: nat, k: nat): (r: nat)
    ensures r <= x
    ensures k > 0 && x > 0 ==> r < x
    decreases k
  {
    if k == 0 then x else Shift(x / 2, k - 1)
  }

  lemma {:induction false} XorCancels(x: nat, y: nat, z: nat)
    requires Xor(x, z) == Xor(y, z)
    ensures x == y
    decreases x + y + z
  {
    if x > 0 || y > 0 || z > 0 {
      assert Xor(x / 2, z / 2) == Xor(x, z) / 2 == Xor(y, z) / 2 == Xor(y / 2, z / 2);
      XorCancels(x / 2, y / 2, z / 2);
    }
  }

  lemma {:induction false} ShiftXor(x: nat, y: nat, k: nat)
    ensures Shift(Xor(x, y), k) == Xor(Shift(x, k), Shift(y, k))
    decreases k
  {
    if k > 0 {
      assert Xor(x, y) / 2 == Xor(x / 2, y / 2);
      ShiftXor(x / 2, y / 2, k - 1);
    }
  }

  lemma {:induction false} ShiftShift(x: nat, j: nat, k: nat)
    ensures Shift(Shift(x, j), k) == Shift(x, j + k)
    decreases j
  {
    if j > 0 {
      ShiftShift(x / 2, j - 1, k);
    }
  }

  function Power2(k: nat): (r: nat)
    ensures r > 0
  {
    if k == 0 then 1 else 2 * Power2(k - 1)
  }

  lemma TwiceProduct(a: nat, b: nat)
    ensures (2 * a) * b == 2 * (a * b)
  {
  }

  lemma {:induction false} Power2Adds(j: nat, k: nat)
    ensures Power2(j + k) == Power2(j) * Power2(k)
  {
    if j > 0 {
      Power2Adds(j - 1, k);
      assert Power2(j + k) == 2 * Power2(j - 1 + k);
      TwiceProduct(Power2(j - 1), Power2(k));
    }
  }

  lemma {:induction false} ShiftOut(x: nat, k: nat)
    ensures Shift(x, k) == 0 <==> x < Power2(k)
    decreases k
  {
    if k > 0 {
      ShiftOut(x / 2, k - 1);
    }
  }

  lemma XorBelow(x: nat, y: nat, k: nat)
    requires x < Power2(k) && y < Power2(k)
    ensures Xor(x, y) < Power2(k)
  {
    ShiftOut(x, k);
    ShiftOut(y, k);
    ShiftXor(x, y, k);
    ShiftOut(Xor(x, y), k);
  }

  lemma Doubled(j: nat, k: nat, power: nat)
    requires j == k && Power2(k) == power
    ensures Power2(j + k) == power * power
  {
    Power2Adds(j, k);
  }

  lemma WordIsPower2()
    ensures Power2(64) == WORD
  {
    Doubled(4, 4, 16);
    Doubled(8, 8, 0x100);
    Doubled(16, 16, 0x1_0000);
    Doubled(32, 32, 0x1_0000_0000);
  }

  /** Exclusive or of two words is a word. */
  lemma XorIsWord(x: Word, y: Word)
    ensures Xor(x, y) < WORD
  {
    WordIsPower2();
    XorBelow(x, y, 64);
  }

  // ---- the priority ----

  function XorWord(x: Word, y: Word): Word {
    XorIsWord(x, y);
    Xor(x, y)
  }

  function WrappingAdd(x: Word, y: Word): Word {
    (x + y) % WORD
  }

  function WrappingMul(x: Word, y: Word): Word {
    (x * y) % WORD
  }

  /** `z ^ (z >> k)`. */
  function XorShift(z: Word, k: nat): Word {
    XorWord(z, Shift(z, k))
  }

  const SAMPLE_SEED: Word := 0x5eed_ca1b_0000_0001

  const SHIFT_1: nat := 30

  const SHIFT_2: nat := 27

  const SHIFT_3: nat := 31

  const GAMMA: Word := 0x9e37_79b9_7f4a_7c15

  const MULTIPLIER_1: Word := 0xbf58_476d_1ce4_e5b9

  const MULTIPLIER_2: Word := 0x94d0_49bb_1331_11eb

  /** One round of the scrambling. */
  function Mix(z: Word, k: nat, m: Word): Word {
    WrappingMul(XorShift(z, k), m)
  }

  function Seeded(hash: Word): Word {
    WrappingAdd(XorWord(hash, SAMPLE_SEED), GAMMA)
  }

  function Scramble(z: Word, k1: nat, m1: Word, k2: nat, m2: Word, k3: nat): Word {
    XorShift(Mix(Mix(z, k1, m1), k2, m2), k3)
  }

  /** SplitMix64 of the document's hash mixed with the seed. */
  function Priority(hash: Word): Word {
    Scramble(Seeded(hash), SHIFT_1, MULTIPLIER_1, SHIFT_2, MULTIPLIER_2, SHIFT_3)
  }

  // ---- no two documents share a priority ----

  /** Shifting a word right and mixing it back in loses nothing: the top bits are unchanged,
      and each lower one can be recovered from those above. */
  lemma {:induction false} XorShiftIsInjective(x: nat, y: nat, k: nat)
    requires k > 0 && Xor(x, Shift(x, k)) == Xor(y, Shift(y, k))
    ensures x == y
    decreases x + y
  {
    if x > 0 || y > 0 {
      ShiftXor(x, Shift(x, k), k);
      ShiftXor(y, Shift(y, k), k);
      XorShiftIsInjective(Shift(x, k), Shift(y, k), k);
      XorCancels(x, y, Shift(x, k));
    }
  }

  // the multipliers' inverses modulo 2^64
  const INVERSE_1: Word := 0x96de_1b17_3f11_9089

  const INVERSE_2: Word := 0x3196_42b2_d24d_8ec3

  lemma AddIsInjective(x: Word, y: Word, z: Word)
    requires WrappingAdd(x, z) == WrappingAdd(y, z)
    ensures x == y
  {
  }

  lemma MultipleOfWord(x: Word, n: int)
    ensures (x + n * WORD) % WORD == x
  {
  }

  lemma MulUndone(x: Word, m: Word, inverse: Word)
    requires m * inverse % WORD == 1
    ensures WrappingMul(x, m) * inverse % WORD == x
  {
    var a, b := x * m / WORD, m * inverse / WORD;
    assert x * m == a * WORD + WrappingMul(x, m);
    assert m * inverse == b * WORD + 1;
    calc {
      WrappingMul(x, m) * inverse;
      (x * m - a * WORD) * inverse;
      x * (m * inverse) - a * inverse * WORD;
      x * (b * WORD + 1) - a * inverse * WORD;
      x + (x * b - a * inverse) * WORD;
    }
    MultipleOfWord(x, x * b - a * inverse);
  }

  /** Multiplying by a number with an inverse modulo 2^64 loses nothing. */
  lemma MulIsInjective(x: Word, y: Word, m: Word, inverse: Word)
    requires m * inverse % WORD == 1 && WrappingMul(x, m) == WrappingMul(y, m)
    ensures x == y
  {
    MulUndone(x, m, inverse);
    MulUndone(y, m, inverse);
  }

  lemma MixIsInjective(x: Word, y: Word, k: nat, m: Word, inverse: Word)
    requires k > 0 && m * inverse % WORD == 1 && Mix(x, k, m) == Mix(y, k, m)
    ensures x == y
  {
    MulIsInjective(XorShift(x, k), XorShift(y, k), m, inverse);
    XorShiftIsInjective(x, y, k);
  }

  lemma SeededIsInjective(x: Word, y: Word)
    requires Seeded(x) == Seeded(y)
    ensures x == y
  {
    AddIsInjective(XorWord(x, SAMPLE_SEED), XorWord(y, SAMPLE_SEED), GAMMA);
    XorCancels(x, y, SAMPLE_SEED);
  }

  lemma Inverses()
    ensures MULTIPLIER_1 * INVERSE_1 % WORD == 1
    ensures MULTIPLIER_2 * INVERSE_2 % WORD == 1
  {
    assert 0xbf58_476d_1ce4_e5b9 * 0x96de_1b17_3f11_9089 % 0x1_0000_0000_0000_0000 == 1;
    assert 0x94d0_49bb_1331_11eb * 0x3196_42b2_d24d_8ec3 % 0x1_0000_0000_0000_0000 == 1;
  }

  lemma ScrambleIsInjective(x: Word, y: Word, k1: nat, m1: Word, k2: nat, m2: Word, k3: nat, inverse1: Word, inverse2: Word)
    requires k1 > 0 && k2 > 0 && k3 > 0
    requires m1 * inverse1 % WORD == 1 && m2 * inverse2 % WORD == 1
    requires Scramble(x, k1, m1, k2, m2, k3) == Scramble(y, k1, m1, k2, m2, k3)
    ensures x == y
  {
    XorShiftIsInjective(Mix(Mix(x, k1, m1), k2, m2), Mix(Mix(y, k1, m1), k2, m2), k3);
    MixIsInjective(Mix(x, k1, m1), Mix(y, k1, m1), k2, m2, inverse2);
    MixIsInjective(x, y, k1, m1, inverse1);
  }

  /** No two documents share a priority, so the draw order has no ties. */
  lemma PriorityIsInjective(x: Word, y: Word)
    requires Priority(x) == Priority(y)
    ensures x == y
  {
    Inverses();
    ScrambleIsInjective(
      Seeded(x), Seeded(y), SHIFT_1, MULTIPLIER_1, SHIFT_2, MULTIPLIER_2, SHIFT_3,
      INVERSE_1, INVERSE_2);
    SeededIsInjective(x, y);
  }
}
