/** Two records of two integers with the same hash. */
module HashCollision {
  import opened Hashing

  // The exclusive or of numbers is that of their bits, by halves of ever larger numbers.

  lemma XorOfBits(x: nat, y: nat)
    requires x < 2 && y < 2
    ensures Xor(x, y) == if x == y then 0 else 1
  {
  }

  lemma XorTwo(a: nat, b: nat, x: nat, y: nat)
    requires x < 2 && y < 2
    ensures Xor(2 * a + x, 2 * b + y) == 2 * Xor(a, b) + Xor(x, y)
  {
    hide Xor;
    XorHalves(2 * a + x, 2 * b + y);
    XorOfBits(x, y);
    var r := Xor(2 * a + x, 2 * b + y);
    assert (2 * a + x) / 2 == a && (2 * b + y) / 2 == b;
    assert r == 2 * (r / 2) + r % 2;
  }

  lemma XorFour(a: nat, b: nat, x: nat, y: nat)
    requires x < 4 && y < 4
    ensures Xor(4 * a + x, 4 * b + y) == 4 * Xor(a, b) + Xor(x, y)
  {
    hide Xor;
    XorTwo(2 * a + x / 2, 2 * b + y / 2, x % 2, y % 2);
    XorTwo(a, b, x / 2, y / 2);
    XorTwo(x / 2, y / 2, x % 2, y % 2);
  }

  lemma XorSixteen(a: nat, b: nat, x: nat, y: nat)
    requires x < 16 && y < 16
    ensures Xor(16 * a + x, 16 * b + y) == 16 * Xor(a, b) + Xor(x, y)
  {
    hide Xor;
    XorFour(4 * a + x / 4, 4 * b + y / 4, x % 4, y % 4);
    XorFour(a, b, x / 4, y / 4);
    XorFour(x / 4, y / 4, x % 4, y % 4);
  }

  lemma XorByteApart(a: nat, b: nat, x: nat, y: nat)
    requires x < 0x100 && y < 0x100
    ensures Xor(0x100 * a + x, 0x100 * b + y) == 0x100 * Xor(a, b) + Xor(x, y)
  {
    hide Xor;
    XorSixteen(16 * a + x / 16, 16 * b + y / 16, x % 16, y % 16);
    XorSixteen(a, b, x / 16, y / 16);
    XorSixteen(x / 16, y / 16, x % 16, y % 16);
  }

  /** The exclusive or of two bytes, bit by bit. */
  function Bit(p: bv8, m: bv8): nat {
    if p & m != 0 then 1 else 0
  }

  function Pair(p: bv8, m: bv8): nat {
    2 * Bit(p, m) + Bit(p, m >> 1)
  }

  function Digit(p: bv8, m: bv8): nat {
    4 * Pair(p, m) + Pair(p, m >> 2)
  }

  lemma Digits(p: bv8)
    ensures p as nat == 16 * Digit(p, 128) + Digit(p, 8)
  {
  }

  predicate Mask(m: bv8) {
    m == 128 || m == 64 || m == 32 || m == 16 || m == 8 || m == 4 || m == 2 || m == 1
  }

  lemma BitOfXor(p: bv8, q: bv8, m: bv8)
    requires Mask(m)
    ensures Xor(Bit(p, m), Bit(q, m)) == Bit(p ^ q, m) && Bit(p, m) < 2 && Bit(q, m) < 2
  {
  }

  lemma PairOfXor(p: bv8, q: bv8, m: bv8)
    requires Mask(m) && Mask(m >> 1)
    ensures Xor(Pair(p, m), Pair(q, m)) == Pair(p ^ q, m) && Pair(p, m) < 4 && Pair(q, m) < 4
  {
    hide Xor, Bit;
    BitOfXor(p, q, m);
    BitOfXor(p, q, m >> 1);
    XorTwo(Bit(p, m), Bit(q, m), Bit(p, m >> 1), Bit(q, m >> 1));
  }

  lemma DigitOfXor(p: bv8, q: bv8, m: bv8)
    requires m == 128 || m == 8
    ensures Xor(Digit(p, m), Digit(q, m)) == Digit(p ^ q, m) && Digit(p, m) < 16 && Digit(q, m) < 16
  {
    hide Xor, Pair;
    PairOfXor(p, q, m);
    PairOfXor(p, q, m >> 2);
    XorFour(Pair(p, m), Pair(q, m), Pair(p, m >> 2), Pair(q, m >> 2));
  }

  function Val(p: bv8): (r: nat)
    ensures r < 0x100
  {
    p as nat
  }

  lemma XorOfBytes(p: bv8, q: bv8)
    ensures Xor(Val(p), Val(q)) == Val(p ^ q)
  {
    hide Xor, Digit;
    Digits(p);
    Digits(q);
    Digits(p ^ q);
    DigitOfXor(p, q, 128);
    DigitOfXor(p, q, 8);
    XorSixteen(Digit(p, 128), Digit(q, 128), Digit(p, 8), Digit(q, 8));
  }

  /** A word by its bytes. */
  datatype Bytes = Bytes(a: bv8, b: bv8, c: bv8, d: bv8, e: bv8, f: bv8, g: bv8, h: bv8)

  function After(v: nat, x: nat): nat {
    0x100 * v + x
  }

  /** Four more bytes. */
  function Four(v: nat, a: bv8, b: bv8, c: bv8, d: bv8): nat {
    After(After(After(After(v, Val(a)), Val(b)), Val(c)), Val(d))
  }

  function Eight(u: nat, w: Bytes): nat {
    Four(Four(u, w.a, w.b, w.c, w.d), w.e, w.f, w.g, w.h)
  }

  function Num(w: Bytes): nat {
    Eight(0, w)
  }

  lemma AfterApart(v: nat, w: nat, x: nat, y: nat)
    requires x < 0x100 && y < 0x100
    ensures Xor(After(v, x), After(w, y)) == After(Xor(v, w), Xor(x, y))
  {
    hide Xor;
    XorByteApart(v, w, x, y);
  }

  lemma NextByte(v: nat, w: nat, p: bv8, q: bv8)
    ensures Xor(After(v, Val(p)), After(w, Val(q))) == After(Xor(v, w), Val(p ^ q))
  {
    hide Xor, Val, After;
    XorOfBytes(p, q);
    AfterApart(v, w, Val(p), Val(q));
  }

  lemma NextFour(v: nat, w: nat, a: bv8, b: bv8, c: bv8, d: bv8, e: bv8, f: bv8, g: bv8, h: bv8)
    ensures Xor(Four(v, a, b, c, d), Four(w, e, f, g, h)) == Four(Xor(v, w), a ^ e, b ^ f, c ^ g, d ^ h)
  {
    hide Xor, Val, After;
    NextByte(v, w, a, e);
    var v1, w1 := After(v, Val(a)), After(w, Val(e));
    NextByte(v1, w1, b, f);
    var v2, w2 := After(v1, Val(b)), After(w1, Val(f));
    NextByte(v2, w2, c, g);
    NextByte(After(v2, Val(c)), After(w2, Val(g)), d, h);
  }

  lemma NumIs(w: Bytes)
    ensures Num(w) == 0x100_0000_0000_0000 * Val(w.a) + 0x1_0000_0000_0000 * Val(w.b) + 0x100_0000_0000 * Val(w.c)
                      + 0x1_0000_0000 * Val(w.d) + 0x100_0000 * Val(w.e) + 0x1_0000 * Val(w.f) + 0x100 * Val(w.g)
                      + Val(w.h)
  {
    hide Val;
  }

  lemma XorOfWords(v: Bytes, w: Bytes) returns (x: Bytes)
    ensures x == Bytes(v.a ^ w.a, v.b ^ w.b, v.c ^ w.c, v.d ^ w.d, v.e ^ w.e, v.f ^ w.f, v.g ^ w.g, v.h ^ w.h)
    ensures Xor(Num(v), Num(w)) == Num(x)
  {
    x := Bytes(v.a ^ w.a, v.b ^ w.b, v.c ^ w.c, v.d ^ w.d, v.e ^ w.e, v.f ^ w.f, v.g ^ w.g, v.h ^ w.h);
    hide Xor, Eight;
    XorSelf(0);
    NextWord(0, 0, v, w);
  }

  lemma NextWord(u: nat, t: nat, v: Bytes, w: Bytes)
    ensures Xor(Eight(u, v), Eight(t, w))
         == Eight(Xor(u, t), Bytes(v.a ^ w.a, v.b ^ w.b, v.c ^ w.c, v.d ^ w.d, v.e ^ w.e, v.f ^ w.f, v.g ^ w.g, v.h ^ w.h))
  {
    hide Xor, Four;
    NextFour(u, t, v.a, v.b, v.c, v.d, w.a, w.b, w.c, w.d);
    NextFour(Four(u, v.a, v.b, v.c, v.d), Four(t, w.a, w.b, w.c, w.d), v.e, v.f, v.g, v.h, w.e, w.f, w.g, w.h);
  }

  // Shifts by constants.

  lemma ShrTwo(x: nat)
    ensures Shr(x, 2) == x / 4
  {
    assert Shr(x, 2) == Shr(x / 2 / 2, 0);
  }

  lemma ShrNext(x: nat, k: nat)
    ensures Shr(x, k + 1) == Shr(x / 2, k)
  {
  }

  lemma ShrFour(x: nat, k: nat)
    ensures Shr(x, k + 4) == Shr(x / 16, k)
  {
    hide Shr;
    ShrNext(x, k + 3);
    ShrNext(x / 2, k + 2);
    ShrNext(x / 4, k + 1);
    ShrNext(x / 8, k);
    assert x / 2 / 2 == x / 4 && x / 4 / 2 == x / 8 && x / 8 / 2 == x / 16;
  }

  lemma ShrSixteen(x: nat)
    ensures Shr(x, 16) == x / 0x1_0000
  {
    hide Shr;
    ShrFour(x, 12);
    ShrFour(x / 16, 8);
    ShrFour(x / 0x100, 4);
    ShrFour(x / 0x1000, 0);
    ShrNone(x / 0x1_0000);
  }

  lemma ShrThirteen(x: nat)
    ensures Shr(x, 13) == x / 0x2000
  {
    hide Shr;
    ShrFour(x, 9);
    ShrFour(x / 16, 5);
    ShrFour(x / 0x100, 1);
    ShrOne(x / 0x1000);
  }

  lemma ShrNone(x: nat)
    ensures Shr(x, 0) == x
  {
  }

  lemma ShrOne(x: nat)
    ensures Shr(x, 1) == x / 2
  {
  }

  // The hashes.

  lemma ZeroHash()
    ensures HashInt32(0) == 0
  {
    hide Mix;
    MixOfZero(16);
    MixOfZero(13);
    assert Mul(0, C) == 0 && Mul(0, D) == 0;
  }

  lemma MixOfZero(k: nat)
    ensures Mix(0, k) == 0
  {
    ShiftOfZero(k);
  }

  /** The first attribute's hash meets an empty seed. */
  lemma FirstCombined(h: Word)
    ensures Combine(0, h) == (h + 0x9e3779b9) % N
  {
    ShrTwo(0);
    assert Xor((h + 0x9e3779b9) % N, 0) == (h + 0x9e3779b9) % N;
  }

  lemma TwoCombined(g: Word, h: Word)
    ensures CombineAll(0, [g, h]) == Combine(Combine(0, g), h)
  {
    hide Combine;
    assert [g, h][1..] == [h] && [h][1..] == [];
    assert CombineAll(0, [g, h]) == CombineAll(Combine(0, g), [h]);
    assert CombineAll(Combine(0, g), [h]) == CombineAll(Combine(Combine(0, g), h), []);
  }

  lemma RightFirst()
    ensures Xor(0xfffffffffd9e73e7, 0x0000fffffffffd9e) == 0xffff000002618e79
  {
    hide Xor, Num;
    var v := Bytes(0xff, 0xff, 0xff, 0xff, 0xfd, 0x9e, 0x73, 0xe7);
    var w := Bytes(0x00, 0x00, 0xff, 0xff, 0xff, 0xff, 0xfd, 0x9e);
    var x := XorOfWords(v, w);
    NumIs(v);
    NumIs(w);
    NumIs(x);
  }

  lemma RightSecond()
    ensures Xor(0x36d3e0749f450693, 0x0001b69f03a4fa28) == 0x36d256eb9ce1fcbb
  {
    hide Xor, Num;
    var v := Bytes(0x36, 0xd3, 0xe0, 0x74, 0x9f, 0x45, 0x06, 0x93);
    var w := Bytes(0x00, 0x01, 0xb6, 0x9f, 0x03, 0xa4, 0xfa, 0x28);
    var x := XorOfWords(v, w);
    NumIs(v);
    NumIs(w);
    NumIs(x);
  }

  lemma RightThird()
    ensures Xor(0x4d567a1084966cb7, 0x00004d567a108496) == 0x4d563746fe86e821
  {
    hide Xor, Num;
    var v := Bytes(0x4d, 0x56, 0x7a, 0x10, 0x84, 0x96, 0x6c, 0xb7);
    var w := Bytes(0x00, 0x00, 0x4d, 0x56, 0x7a, 0x10, 0x84, 0x96);
    var x := XorOfWords(v, w);
    NumIs(v);
    NumIs(w);
    NumIs(x);
  }

  lemma RightHash()
    ensures HashInt32(-39947289) == 0x4d563746fe86e821
  {
    hide Xor, Shr;
    RightFirst();
    RightSecond();
    RightThird();
    ShrSixteen(0xfffffffffd9e73e7);
    ShrThirteen(0x36d3e0749f450693);
    ShrSixteen(0x4d567a1084966cb7);
    assert Mul(0xffff000002618e79, C) == 0x36d3e0749f450693;
    assert Mul(0x36d256eb9ce1fcbb, D) == 0x4d567a1084966cb7;
  }

  lemma LeftFirst()
    ensures Xor(0xffffffffe1b6aba8, 0x0000ffffffffe1b6) == 0xffff00001e494a1e
  {
    hide Xor, Num;
    var v := Bytes(0xff, 0xff, 0xff, 0xff, 0xe1, 0xb6, 0xab, 0xa8);
    var w := Bytes(0x00, 0x00, 0xff, 0xff, 0xff, 0xff, 0xe1, 0xb6);
    var x := XorOfWords(v, w);
    NumIs(v);
    NumIs(w);
    NumIs(x);
  }

  lemma LeftSecond()
    ensures Xor(0x456cf8bb1ca7a68a, 0x00022b67c5d8e53d) == 0x456ed3dcd97f43b7
  {
    hide Xor, Num;
    var v := Bytes(0x45, 0x6c, 0xf8, 0xbb, 0x1c, 0xa7, 0xa6, 0x8a);
    var w := Bytes(0x00, 0x02, 0x2b, 0x67, 0xc5, 0xd8, 0xe5, 0x3d);
    var x := XorOfWords(v, w);
    NumIs(v);
    NumIs(w);
    NumIs(x);
  }

  lemma LeftThird()
    ensures Xor(0x6053a45b4a9d66e3, 0x00006053a45b4a9d) == 0x6053c408eec62c7e
  {
    hide Xor, Num;
    var v := Bytes(0x60, 0x53, 0xa4, 0x5b, 0x4a, 0x9d, 0x66, 0xe3);
    var w := Bytes(0x00, 0x00, 0x60, 0x53, 0xa4, 0x5b, 0x4a, 0x9d);
    var x := XorOfWords(v, w);
    NumIs(v);
    NumIs(w);
    NumIs(x);
  }

  lemma LeftHash()
    ensures HashInt32(-508122200) == 0x6053c408eec62c7e
  {
    hide Xor, Shr;
    LeftFirst();
    LeftSecond();
    LeftThird();
    ShrSixteen(0xffffffffe1b6aba8);
    ShrThirteen(0x456cf8bb1ca7a68a);
    ShrSixteen(0x6053a45b4a9d66e3);
    assert Mul(0xffff00001e494a1e, C) == 0x456cf8bb1ca7a68a;
    assert Mul(0x456ed3dcd97f43b7, D) == 0x6053a45b4a9d66e3;
  }

  lemma RightRecord()
    ensures Xor(0x4d56376f522aae88, 0x000000009e3779b9) == 0x4d56376fcc1dd731
  {
    hide Xor, Num;
    var v := Bytes(0x4d, 0x56, 0x37, 0x6f, 0x52, 0x2a, 0xae, 0x88);
    var w := Bytes(0x00, 0x00, 0x00, 0x00, 0x9e, 0x37, 0x79, 0xb9);
    var x := XorOfWords(v, w);
    NumIs(v);
    NumIs(w);
    NumIs(x);
  }

  lemma LeftRecord()
    ensures Xor(0x2d05f36640e07106, 0x6053c4098cfda637) == 0x4d56376fcc1dd731
  {
    hide Xor, Num;
    var v := Bytes(0x2d, 0x05, 0xf3, 0x66, 0x40, 0xe0, 0x71, 0x06);
    var w := Bytes(0x60, 0x53, 0xc4, 0x09, 0x8c, 0xfd, 0xa6, 0x37);
    var x := XorOfWords(v, w);
    NumIs(v);
    NumIs(w);
    NumIs(x);
  }

  /** Attribute hashes that combine to the same record hash. */
  lemma Collision()
    ensures CombineAll(0, [HashInt32(0), HashInt32(-39947289)]) == CombineAll(0, [HashInt32(-508122200), HashInt32(0)])
  {
    hide Xor, Shr, HashInt32;
    RightHash();
    LeftHash();
    ZeroHash();
    TwoCombined(0, 0x4d563746fe86e821);
    TwoCombined(0x6053c408eec62c7e, 0);
    RightRecord();
    LeftRecord();
    ShrTwo(0x000000009e3779b9);
    ShrTwo(0x6053c4098cfda637);
    FirstCombined(0);
    FirstCombined(0x6053c408eec62c7e);
  }
}
