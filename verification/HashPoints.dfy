/** The 64-bit hash at a point that all its steps change, and what its shifts are. */
module HashPoints {
  import opened HashCollision
  import opened Hashing

  lemma ShrThirtyThree(x: nat)
    ensures Shr(x, 33) == x / 0x2_0000_0000
  {
    hide Shr;
    ShrFour(x, 29);
    ShrFour(x / 16, 25);
    ShrFour(x / 0x100, 21);
    ShrFour(x / 0x1000, 17);
    ShrFour(x / 0x1_0000, 13);
    ShrThirteen(x / 0x10_0000);
    assert x / 16 / 16 == x / 0x100 && x / 0x100 / 16 == x / 0x1000 && x / 0x1000 / 16 == x / 0x1_0000;
    assert x / 0x1_0000 / 16 == x / 0x10_0000 && x / 0x10_0000 / 0x2000 == x / 0x2_0000_0000;
  }

  lemma First()
    ensures Xor(0xffffffffffffffff, 0x000000007fffffff) == 0xffffffff80000000
  {
    hide Xor, Num;
    var v := Bytes(0xff, 0xff, 0xff, 0xff, 0xff, 0xff, 0xff, 0xff);
    var w := Bytes(0x00, 0x00, 0x00, 0x00, 0x7f, 0xff, 0xff, 0xff);
    var x := XorOfWords(v, w);
    NumIs(v);
    NumIs(w);
    NumIs(x);
  }

  lemma Second()
    ensures Xor(0x0955399980000000, 0x0000000004aa9ccc) == 0x0955399984aa9ccc
  {
    hide Xor, Num;
    var v := Bytes(0x09, 0x55, 0x39, 0x99, 0x80, 0x00, 0x00, 0x00);
    var w := Bytes(0x00, 0x00, 0x00, 0x00, 0x04, 0xaa, 0x9c, 0xcc);
    var x := XorOfWords(v, w);
    NumIs(v);
    NumIs(w);
    NumIs(x);
  }

  lemma Third()
    ensures Xor(0x64b5720b79d8e624, 0x00000000325ab905) == 0x64b5720b4b825f21
  {
    hide Xor, Num;
    var v := Bytes(0x64, 0xb5, 0x72, 0x0b, 0x79, 0xd8, 0xe6, 0x24);
    var w := Bytes(0x00, 0x00, 0x00, 0x00, 0x32, 0x5a, 0xb9, 0x05);
    var x := XorOfWords(v, w);
    NumIs(v);
    NumIs(w);
    NumIs(x);
  }

  /** The hash of -1, that is, of the word with all bits set. */
  lemma HashOfMinusOne()
    ensures HashInt64(0xffffffffffffffff) == 0x64b5720b4b825f21
  {
    hide Xor, Shr;
    First();
    Second();
    Third();
    ShrThirtyThree(0xffffffffffffffff);
    ShrThirtyThree(0x0955399980000000);
    ShrThirtyThree(0x64b5720b79d8e624);
    assert Mul(0xffffffff80000000, A) == 0x0955399980000000;
    assert Mul(0x0955399984aa9ccc, B) == 0x64b5720b79d8e624;
  }
}
