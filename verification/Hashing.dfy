/** The integer hashes that generated code computes, over 64-bit words, with their inverses.  A word
    is a number below 2^64; sums, products and left shifts wrap around. */
module Hashing {

  const N := 0x1_0000_0000_0000_0000

  type Word = x: int | 0 <= x < N

  type Int32 = x: int | -0x8000_0000 <= x < 0x8000_0000

  function Pow2(k: nat): (p: nat)
    ensures p > 0
  {
    if k == 0 then 1 else 2 * Pow2(k - 1)
  }

  /** Logical right shift by `k` bits. */
  function Shr(x: nat, k: nat): (r: nat)
    ensures r <= x && (k > 0 && x > 0 ==> r < x)
    decreases k
  {
    if k == 0 then x else Shr(x / 2, k - 1)
  }

  /** Exclusive or, bit by bit. */
  function Xor(a: nat, b: nat): nat
    decreases a + b
  {
    if a == 0 then b else if b == 0 then a
    else 2 * Xor(a / 2, b / 2) + (if a % 2 == b % 2 then 0 else 1)
  }

  lemma {:induction false} XorHalves(a: nat, b: nat)
    ensures Xor(a, b) / 2 == Xor(a / 2, b / 2)
    ensures Xor(a, b) % 2 == if a % 2 == b % 2 then 0 else 1
  {
  }

  lemma {:induction false} XorCommutes(a: nat, b: nat)
    ensures Xor(a, b) == Xor(b, a)
    decreases a + b
  {
    if a > 0 && b > 0 {
      XorCommutes(a / 2, b / 2);
    }
  }

  lemma {:induction false} XorAssociates(a: nat, b: nat, c: nat)
    ensures Xor(Xor(a, b), c) == Xor(a, Xor(b, c))
    decreases a + b + c
  {
    if a > 0 && b > 0 && c > 0 {
      XorAssociates(a / 2, b / 2, c / 2);
      var l, r := Xor(Xor(a, b), c), Xor(a, Xor(b, c));
      XorHalves(a, b);
      XorHalves(b, c);
      XorHalves(Xor(a, b), c);
      XorHalves(a, Xor(b, c));
      assert l == 2 * (l / 2) + l % 2 && r == 2 * (r / 2) + r % 2;
    }
  }

  lemma {:induction false} XorSelf(a: nat)
    ensures Xor(a, a) == 0
  {
    if a > 0 {
      XorSelf(a / 2);
    }
  }

  /** Xor undoes itself. */
  lemma XorTwice(a: nat, b: nat)
    ensures Xor(Xor(a, b), b) == a
  {
    XorAssociates(a, b, b);
    XorSelf(b);
  }

  lemma XorCancels(a: nat, b: nat)
    ensures Xor(a, b) == 0 ==> a == b
  {
    XorTwice(a, b);
  }

  lemma {:induction false} XorBound(a: nat, b: nat, k: nat)
    requires a < Pow2(k) && b < Pow2(k)
    ensures Xor(a, b) < Pow2(k)
    decreases k
  {
    if a > 0 && b > 0 {
      XorBound(a / 2, b / 2, k - 1);
    }
  }

  lemma {:induction false} ShrXor(a: nat, b: nat, k: nat)
    ensures Shr(Xor(a, b), k) == Xor(Shr(a, k), Shr(b, k))
    decreases k
  {
    if k > 0 {
      XorHalves(a, b);
      ShrXor(a / 2, b / 2, k - 1);
    }
  }

  /** `x ^ (x >> k)`. */
  function XorShift(x: nat, k: nat): nat {
    Xor(x, Shr(x, k))
  }

  /** Each group of `k` bits is recovered from the one above it. */
  function UnXorShift(y: nat, k: nat): nat
    requires k > 0
    decreases y
  {
    if y == 0 then 0 else Xor(y, UnXorShift(Shr(y, k), k))
  }

  lemma {:induction false} ShiftOfZero(k: nat)
    ensures Shr(0, k) == 0 && XorShift(0, k) == 0
    decreases k
  {
    if k > 0 {
      ShiftOfZero(k - 1);
    }
  }

  lemma {:induction false} UnshiftShift(x: nat, k: nat)
    requires k > 0
    ensures UnXorShift(XorShift(x, k), k) == x
    decreases x
  {
    ShiftOfZero(k);
    if x > 0 {
      var s := Shr(x, k);
      var y := XorShift(x, k);
      ShrXor(x, s, k);
      UnshiftShift(s, k);
      XorTwice(x, s);
      XorCancels(x, s);
    }
  }

  lemma {:induction false} ShiftUnshift(y: nat, k: nat)
    requires k > 0
    ensures XorShift(UnXorShift(y, k), k) == y
    decreases y
  {
    ShiftOfZero(k);
    if y > 0 {
      var z := UnXorShift(Shr(y, k), k);
      ShiftUnshift(Shr(y, k), k);
      ShrXor(y, z, k);
      XorTwice(z, Shr(z, k));
      XorTwice(y, z);
    }
  }

  lemma EightBits(k: nat)
    ensures Pow2(k + 8) == 256 * Pow2(k)
  {
    assert Pow2(k + 2) == 4 * Pow2(k);
    assert Pow2(k + 4) == 16 * Pow2(k);
    assert Pow2(k + 6) == 64 * Pow2(k);
  }

  lemma WordBound()
    ensures Pow2(64) == N
  {
    hide Pow2;
    EightBits(56);
    EightBits(48);
    EightBits(40);
    EightBits(32);
    EightBits(24);
    EightBits(16);
    EightBits(8);
    EightBits(0);
    OneIsPow2();
  }

  lemma OneIsPow2()
    ensures Pow2(0) == 1
  {
  }

  lemma XorWord(a: Word, b: Word)
    ensures Xor(a, b) < N
  {
    WordBound();
    XorBound(a, b, 64);
  }

  lemma {:induction false} UnXorShiftWord(y: Word, k: nat)
    requires k > 0
    ensures UnXorShift(y, k) < N
    decreases y
  {
    if y > 0 {
      UnXorShiftWord(Shr(y, k), k);
      XorWord(y, UnXorShift(Shr(y, k), k));
    }
  }

  function Mix(x: Word, k: nat): Word {
    XorWord(x, Shr(x, k));
    XorShift(x, k)
  }

  function Unmix(y: Word, k: nat): Word
    requires k > 0
  {
    UnXorShiftWord(y, k);
    UnXorShift(y, k)
  }

  function Mul(x: Word, c: Word): Word {
    (x * c) % N
  }

  lemma ModOfMultiple(x: Word, t: int)
    ensures (x + t * N) % N == x
  {
  }

  /** Multiplying by an odd constant is undone by its inverse. */
  lemma MulInverse(x: Word, c: Word, d: Word)
    requires (c * d) % N == 1
    ensures Mul(Mul(x, c), d) == x
  {
    var q, r := (x * c) / N, (x * c) % N;
    var k := (c * d) / N;
    assert c * d == k * N + 1;
    calc {
      r * d;
      (x * c - q * N) * d;
      x * (c * d) - q * N * d;
      x * (k * N + 1) - q * N * d;
      x + (x * k - q * d) * N;
    }
    ModOfMultiple(x, x * k - q * d);
  }

  const A: Word := 0xff51afd7ed558ccd
  const B: Word := 0xc4ceb9fe1a85ec53
  const C: Word := 0x85ebca6b
  const D: Word := 0xc2b2ae35
  const A_INVERSE: Word := 0x4f74430c22a54005
  const B_INVERSE: Word := 0x9cb4b2f8129337db
  const C_INVERSE: Word := 0x000a7324a5cb9243
  const D_INVERSE: Word := 0xd16e308e7ed1b41d

  /** `hashInt64`. */
  function HashInt64(key: Word): Word {
    Mix(Mul(Mix(Mul(Mix(key, 33), A), 33), B), 33)
  }

  function UnhashInt64(h: Word): Word {
    Unmix(Mul(Unmix(Mul(Unmix(h, 33), B_INVERSE), 33), A_INVERSE), 33)
  }

  /** The 64-bit pattern of a signed 32-bit number. */
  function SignExtend(x: Int32): Word {
    if x < 0 then x + N else x
  }

  /** `hashInt32`: the key is sign-extended and the steps work on 64 bits. */
  function HashInt32(key: Int32): Word {
    Mix(Mul(Mix(Mul(Mix(SignExtend(key), 16), C), 13), D), 16)
  }

  function Unhash32Word(h: Word): Word {
    Unmix(Mul(Unmix(Mul(Unmix(h, 16), D_INVERSE), 13), C_INVERSE), 16)
  }

  lemma MixInverse(x: Word, k: nat)
    requires k > 0
    ensures Unmix(Mix(x, k), k) == x && Mix(Unmix(x, k), k) == x
  {
    UnshiftShift(x, k);
    ShiftUnshift(x, k);
  }

  /** `hashInt64` is a bijection on 64-bit words. */
  lemma HashInt64Bijective(x: Word)
    ensures UnhashInt64(HashInt64(x)) == x
    ensures HashInt64(UnhashInt64(x)) == x
  {
    hide Mix, Unmix, Mul;
    var a := Mix(x, 33);
    var b := Mix(Mul(a, A), 33);
    MixInverse(x, 33);
    MulInverse(a, A, A_INVERSE);
    MixInverse(Mul(a, A), 33);
    MulInverse(b, B, B_INVERSE);
    MixInverse(Mul(b, B), 33);
    var c := Unmix(x, 33);
    var d := Unmix(Mul(c, B_INVERSE), 33);
    MulInverse(c, B_INVERSE, B);
    MixInverse(Mul(c, B_INVERSE), 33);
    MulInverse(d, A_INVERSE, A);
    MixInverse(Mul(d, A_INVERSE), 33);
  }

  lemma HashInt32Invertible(x: Int32)
    ensures Unhash32Word(HashInt32(x)) == SignExtend(x)
  {
    hide Mix, Unmix, Mul, SignExtend;
    var s := SignExtend(x);
    var a := Mix(s, 16);
    var b := Mix(Mul(a, C), 13);
    MixInverse(s, 16);
    MulInverse(a, C, C_INVERSE);
    MixInverse(Mul(a, C), 13);
    MulInverse(b, D, D_INVERSE);
    MixInverse(Mul(b, D), 16);
  }

  /** Comparing the hashes of two DATE or two DSTRING values decides whether the values are equal. */
  lemma HashesDecideEquality(a: Word, b: Word, c: Int32, d: Int32)
    ensures HashInt64(a) == HashInt64(b) <==> a == b
    ensures HashInt32(c) == HashInt32(d) <==> c == d
  {
    hide HashInt64, HashInt32, UnhashInt64, Unhash32Word;
    HashInt64Bijective(a);
    HashInt64Bijective(b);
    HashInt32Invertible(c);
    HashInt32Invertible(d);
  }

  /** One attribute's hash is mixed into the seed of a record's hash. */
  function Combine(seed: Word, hv: Word): Word {
    var sum := (hv + 0x9e3779b9 + seed * 64 + Shr(seed, 2)) % N;
    XorWord(sum, seed);
    Xor(sum, seed)
  }

  lemma SumInjective(a: Word, b: Word, rest: int)
    requires (a + rest) % N == (b + rest) % N
    ensures a == b
  {
    var q, r := (a + rest) / N, (b + rest) / N;
    assert a - b == (q - r) * N;
  }

  lemma CombineInjective(seed: Word, a: Word, b: Word)
    requires Combine(seed, a) == Combine(seed, b)
    ensures a == b
  {
    hide Xor, Shr;
    var rest := 0x9e3779b9 + seed * 64 + Shr(seed, 2);
    XorTwice((a + rest) % N, seed);
    XorTwice((b + rest) % N, seed);
    SumInjective(a, b, rest);
  }

  /** From every seed every word can be reached. */
  lemma CombineOnto(seed: Word, target: Word) returns (hv: Word)
    ensures Combine(seed, hv) == target
  {
    var rest := 0x9e3779b9 + seed * 64 + Shr(seed, 2);
    XorWord(target, seed);
    hide Xor, Shr;
    var sum := Xor(target, seed);
    hv := (sum - rest) % N;
    SumOf(sum, rest);
    XorTwice(target, seed);
  }

  lemma SumOf(sum: Word, rest: int)
    ensures ((sum - rest) % N + rest) % N == sum
  {
    var q := (sum - rest) / N;
    assert (sum - rest) % N + rest == sum - q * N;
    ModOfMultiple(sum, -q);
  }

  /** The hash of a record from the hashes of its attributes, first to last. */
  function CombineAll(seed: Word, hs: seq<Word>): Word
    decreases |hs|
  {
    if hs == [] then seed else CombineAll(Combine(seed, hs[0]), hs[1..])
  }

  /** The loop over the attributes of a record construction. */
  method HashRecord(hs: seq<Word>) returns (seed: Word)
    ensures seed == CombineAll(0, hs)
  {
    hide Combine;
    seed := 0;
    for i := 0 to |hs|
      invariant CombineAll(seed, hs[i..]) == CombineAll(0, hs)
    {
      assert hs[i..][1..] == hs[i + 1..];
      seed := Combine(seed, hs[i]);
    }
  }

  lemma {:induction false} CombineAllLast(seed: Word, hs: seq<Word>, h: Word)
    ensures CombineAll(seed, hs + [h]) == Combine(CombineAll(seed, hs), h)
    decreases |hs|
  {
    hide Combine;
    if hs == [] {
      assert (hs + [h])[1..] == [];
    } else {
      assert (hs + [h])[1..] == hs[1..] + [h];
      CombineAllLast(Combine(seed, hs[0]), hs[1..], h);
    }
  }

  /** Records that agree on all attributes but the last collide only if the last ones do. */
  lemma LastAttributeDecides(hs: seq<Word>, a: Word, b: Word)
    ensures CombineAll(0, hs + [a]) == CombineAll(0, hs + [b]) <==> a == b
  {
    hide Combine, CombineAll;
    CombineAllLast(0, hs, a);
    CombineAllLast(0, hs, b);
    if Combine(CombineAll(0, hs), a) == Combine(CombineAll(0, hs), b) {
      CombineInjective(CombineAll(0, hs), a, b);
    }
  }
}
