/** The population count and count-trailing-zeros graphs, as the machine operations they are composed of,
    against the recursive definitions. */
module BitCount {

  const ONE: bv6 := 1

  /** The lowest bit. */
  function Bit32(x: bv32): nat {
    if x & 1 == 1 then 1 else 0
  }

  function Half32(x: bv32): bv32 {
    x >> ONE
  }

  /** The number of one bits: the lowest bit and the rest. */
  function Ones32(x: bv32): nat
    decreases x
  {
    if x == 0 then 0 else Bit32(x) + Ones32(Half32(x))
  }

  /** Trailing zero bits; all 32 of them in zero. */
  function TrailingZeros32(x: bv32): nat
    decreases x
  {
    if x == 0 then 32 else if x & 1 == 1 then 0 else 1 + TrailingZeros32(Half32(x))
  }

  /** The number a word stands for. */
  function Num32(x: bv32): nat
    decreases x
  {
    if x == 0 then 0 else 1 + Num32(x - 1)
  }

  /** One level of the population count: neighbouring fields are added. */
  function Fold32(x: bv32, shift: bv6, mask: bv32): bv32
    requires shift < 32
  {
    ((x >> shift) & mask) + (x & mask)
  }

  function Popcnt32(x: bv32): bv32 {
    var a := Fold32(x, 1, 0x5555_5555);
    var b := Fold32(a, 2, 0x3333_3333);
    var c := Fold32(b, 4, 0x0f0f_0f0f);
    var d := Fold32(c, 8, 0x00ff_00ff);
    Fold32(d, 16, 0x0000_ffff)
  }

  /** Everything above the lowest one bit. */
  function Smear32(x: bv32): bv32 {
    var a := x | (x << 1);
    var b := a | (a << 2);
    var c := b | (b << 4);
    var d := c | (c << 8);
    d | (d << 16)
  }

  function Ctz32(x: bv32): bv32 {
    Popcnt32(0xffff_ffff ^ Smear32(x))
  }

  // ----- Sums of bits -----

  lemma {:induction false} NumAdd32(a: bv32, b: bv32)
    requires a <= 64 && b <= 64
    ensures Num32(a + b) == Num32(a) + Num32(b)
    decreases b
  {
    if b != 0 {
      assert a + b != 0 && a + b - 1 == a + (b - 1);
      NumAdd32(a, b - 1);
    } else {
      assert a + b == a;
    }
  }

  lemma OnesStep32(x: bv32)
    ensures Ones32(x) == Bit32(x) + Ones32(Half32(x))
  {
    if x == 0 { assert Half32(x) == 0; }
  }

  /** The ones among the four lowest bits. */
  function Nibble32(x: bv32): nat {
    Bit32(x) + Bit32(Half32(x)) + Bit32(Half32(Half32(x))) + Bit32(Half32(Half32(Half32(x))))
  }

  function Drop32(x: bv32): bv32 {
    Half32(Half32(Half32(Half32(x))))
  }

  lemma OnesFour32(x: bv32)
    ensures Ones32(x) == Nibble32(x) + Ones32(Drop32(x))
  {
    hide Ones32, Bit32, Half32;
    OnesStep32(x);
    OnesStep32(Half32(x));
    OnesStep32(Half32(Half32(x)));
    OnesStep32(Half32(Half32(Half32(x))));
  }

  /** The same count as a sum of words. */
  function NibbleSum32(x: bv32): bv32 {
    (x & 1) + (Half32(x) & 1) + (Half32(Half32(x)) & 1) + (Half32(Half32(Half32(x))) & 1)
  }

  lemma NibbleNum32(x: bv32)
    ensures Num32(NibbleSum32(x)) == Nibble32(x) && UpTo32(NibbleSum32(x), 4)
  {
    hide Num32, Bit32, Half32;
    var x1 := Half32(x);
    var x2 := Half32(x1);
    var x3 := Half32(x2);
    var a, b, c, d := x & 1, x1 & 1, x2 & 1, x3 & 1;
    BitNum32(x);
    BitNum32(x1);
    BitNum32(x2);
    BitNum32(x3);
    NumAdd32(a, b);
    NumAdd32(a + b, c);
    NumAdd32(a + b + c, d);
  }

  lemma BitNum32(x: bv32)
    ensures Num32(x & 1) == Bit32(x) && x & 1 <= 1
  {
    var b := x & 1;
    assert b == 0 || b == 1;
    assert Num32(1) == 1 + Num32(0);
  }

  /** A word in nibbles, lowest first. */
  lemma OnesNibbles32(x: bv32)
    ensures var x1 := Drop32(x);
      var x2 := Drop32(x1);
      var x3 := Drop32(x2);
      var x4 := Drop32(x3);
      var x5 := Drop32(x4);
      var x6 := Drop32(x5);
      var x7 := Drop32(x6);
      Ones32(x) == Nibble32(x) + Nibble32(x1) + Nibble32(x2) + Nibble32(x3) + Nibble32(x4) + Nibble32(x5)
          + Nibble32(x6) + Nibble32(x7)
  {
    hide Ones32, Nibble32, Drop32;
    var x1 := Drop32(x);
    var x2 := Drop32(x1);
    var x3 := Drop32(x2);
    var x4 := Drop32(x3);
    var x5 := Drop32(x4);
    var x6 := Drop32(x5);
    var x7 := Drop32(x6);
    OnesFour32(x);
    OnesFour32(x1);
    OnesFour32(x2);
    OnesFour32(x3);
    OnesFour32(x4);
    OnesFour32(x5);
    OnesFour32(x6);
    OnesFour32(x7);
    NothingLeft32(x);
    assert Ones32(0) == 0 by { OnesOfZero32(); }
  }

  lemma OnesOfZero32()
    ensures Ones32(0) == 0
  {
  }

  lemma NothingLeft32(x: bv32)
    ensures Drop32(Drop32(Drop32(Drop32(Drop32(Drop32(Drop32(Drop32(x)))))))) == 0
  {
  }

  function Field32(x: bv32, shift: bv6, mask: bv32): bv32
    requires shift < 32
  {
    (x >> shift) & mask
  }

  function Add32(a: bv32, b: bv32): bv32 {
    a + b
  }

  lemma NumSum32(a: bv32, b: bv32, k: bv32)
    requires a <= k && b <= k && k <= 16
    ensures Num32(Add32(a, b)) == Num32(a) + Num32(b) && Add32(a, b) <= Add32(k, k)
  {
    hide Num32;
    NumAdd32(a, b);
  }

  /** After two levels each four-bit field holds the ones of that nibble. */
  lemma Nibbles32(x: bv32)
    ensures var b := Fold32(Fold32(x, 1, 0x5555_5555), 2, 0x3333_3333);
      var x1 := Drop32(x);
      var x2 := Drop32(x1);
      var x3 := Drop32(x2);
      && Field32(b, 0, 0xf) == NibbleSum32(x) && Field32(b, 4, 0xf) == NibbleSum32(x1)
      && Field32(b, 8, 0xf) == NibbleSum32(x2) && Field32(b, 12, 0xf) == NibbleSum32(x3)
  {
  }

  lemma HighNibbles32(x: bv32)
    ensures var b := Fold32(Fold32(x, 1, 0x5555_5555), 2, 0x3333_3333);
      var x4 := Drop32(Drop32(Drop32(Drop32(x))));
      var x5 := Drop32(x4);
      var x6 := Drop32(x5);
      var x7 := Drop32(x6);
      && Field32(b, 16, 0xf) == NibbleSum32(x4) && Field32(b, 20, 0xf) == NibbleSum32(x5)
      && Field32(b, 24, 0xf) == NibbleSum32(x6) && Field32(b, 28, 0xf) == NibbleSum32(x7)
  {
  }

  /** The other levels add nibbles to bytes, bytes to half words, and the halves. */
  lemma Bytes32(b: bv32)
    ensures var c := Fold32(b, 4, 0x0f0f_0f0f);
      && Field32(c, 0, 0xff) == Add32(Field32(b, 4, 0xf), Field32(b, 0, 0xf))
        && Field32(c, 8, 0xff) == Add32(Field32(b, 12, 0xf), Field32(b, 8, 0xf))
      && Field32(c, 16, 0xff) == Add32(Field32(b, 20, 0xf), Field32(b, 16, 0xf))
        && Field32(c, 24, 0xff) == Add32(Field32(b, 28, 0xf), Field32(b, 24, 0xf))
  {
  }

  lemma Halves32(c: bv32)
    ensures var d := Fold32(c, 8, 0x00ff_00ff);
      && Field32(d, 0, 0xffff) == Add32(Field32(c, 8, 0xff), Field32(c, 0, 0xff))
      && Field32(d, 16, 0xffff) == Add32(Field32(c, 24, 0xff), Field32(c, 16, 0xff))
  {
  }

  lemma Whole32(d: bv32)
    ensures Fold32(d, 16, 0x0000_ffff) == Add32(Field32(d, 16, 0xffff), Field32(d, 0, 0xffff))
  {
  }

  predicate UpTo32(x: bv32, k: bv32) {
    x <= k
  }

  lemma NumFour32(a: bv32, b: bv32)
    requires UpTo32(a, 4) && UpTo32(b, 4)
    ensures Num32(Add32(a, b)) == Num32(a) + Num32(b) && UpTo32(Add32(a, b), 8)
  {
    NumSum32(a, b, 4);
  }

  lemma NumEight32(a: bv32, b: bv32)
    requires UpTo32(a, 8) && UpTo32(b, 8)
    ensures Num32(Add32(a, b)) == Num32(a) + Num32(b) && UpTo32(Add32(a, b), 16)
  {
    NumSum32(a, b, 8);
  }

  lemma NumSixteen32(a: bv32, b: bv32)
    requires UpTo32(a, 16) && UpTo32(b, 16)
    ensures Num32(Add32(a, b)) == Num32(a) + Num32(b)
  {
    NumSum32(a, b, 16);
  }

  /** Numbers of fields add up level by level. */
  lemma LevelNums32(b: bv32)
    requires UpTo32(Field32(b, 0, 0xf), 4) && UpTo32(Field32(b, 4, 0xf), 4) && UpTo32(Field32(b, 8, 0xf), 4)
    requires UpTo32(Field32(b, 12, 0xf), 4)
    requires UpTo32(Field32(b, 16, 0xf), 4) && UpTo32(Field32(b, 20, 0xf), 4) && UpTo32(Field32(b, 24, 0xf), 4)
    requires UpTo32(Field32(b, 28, 0xf), 4)
    ensures Num32(Fold32(Fold32(Fold32(b, 4, 0x0f0f_0f0f), 8, 0x00ff_00ff), 16, 0x0000_ffff))
      == Num32(Field32(b, 0, 0xf)) + Num32(Field32(b, 4, 0xf)) + Num32(Field32(b, 8, 0xf)) + Num32(Field32(b, 12, 0xf))
       + Num32(Field32(b, 16, 0xf)) + Num32(Field32(b, 20, 0xf)) + Num32(Field32(b, 24, 0xf))
         + Num32(Field32(b, 28, 0xf))
  {
    hide Num32, Fold32, Field32, Add32, UpTo32;
    var c := Fold32(b, 4, 0x0f0f_0f0f);
    var d := Fold32(c, 8, 0x00ff_00ff);
    Bytes32(b);
    Halves32(c);
    Whole32(d);
    NumFour32(Field32(b, 4, 0xf), Field32(b, 0, 0xf));
    NumFour32(Field32(b, 12, 0xf), Field32(b, 8, 0xf));
    NumFour32(Field32(b, 20, 0xf), Field32(b, 16, 0xf));
    NumFour32(Field32(b, 28, 0xf), Field32(b, 24, 0xf));
    NumEight32(Field32(c, 8, 0xff), Field32(c, 0, 0xff));
    NumEight32(Field32(c, 24, 0xff), Field32(c, 16, 0xff));
    NumSixteen32(Field32(d, 16, 0xffff), Field32(d, 0, 0xffff));
  }

  /** The population count graph counts the ones. */
  lemma PopcntCounts32(x: bv32)
    ensures Num32(Popcnt32(x)) == Ones32(x)
  {
    hide Fold32, Num32, Ones32, Nibble32, NibbleSum32, Drop32, Field32, UpTo32;
    var b := Fold32(Fold32(x, 1, 0x5555_5555), 2, 0x3333_3333);
    var x1 := Drop32(x);
    var x2 := Drop32(x1);
    var x3 := Drop32(x2);
    var x4 := Drop32(x3);
    var x5 := Drop32(x4);
    var x6 := Drop32(x5);
    var x7 := Drop32(x6);
    Nibbles32(x);
    HighNibbles32(x);
    OnesNibbles32(x);
    NibbleNum32(x);
    NibbleNum32(x1);
    NibbleNum32(x2);
    NibbleNum32(x3);
    NibbleNum32(x4);
    NibbleNum32(x5);
    NibbleNum32(x6);
    NibbleNum32(x7);
    LevelNums32(b);
  }

  // ----- Trailing zeros -----

  /** The bits below the lowest one bit. */
  function Tail32(x: bv32): bv32 {
    0xffff_ffff ^ Smear32(x)
  }

  lemma TailOdd32(x: bv32)
    requires x & 1 == 1
    ensures Tail32(x) == 0
  {
  }

  lemma TailEven32(x: bv32)
    requires x & 1 == 0 && x != 0
    ensures Half32(x) != 0 && Tail32(x) & 1 == 1 && Half32(Tail32(x)) == Tail32(Half32(x))
  {
  }

  lemma TailZero32()
    ensures Ones32(Tail32(0)) == 32
  {
    assert Tail32(0) == 0xffff_ffff;
    OnesNibbles32(0xffff_ffff);
  }

  lemma {:induction false} TailCounts32(x: bv32)
    ensures Ones32(Tail32(x)) == TrailingZeros32(x)
    decreases x
  {
    if x == 0 {
      TailZero32();
    } else if x & 1 == 1 {
      TailOdd32(x);
    } else {
      TailEven32(x);
      hide Tail32, Smear32;
      TailCounts32(Half32(x));
      OnesStep32(Tail32(x));
    }
  }

  /** The count-trailing-zeros graph counts them, also in zero. */
  lemma CtzCounts32(x: bv32)
    ensures Num32(Ctz32(x)) == TrailingZeros32(x)
  {
    hide Smear32, Popcnt32, Num32, Ones32, TrailingZeros32;
    TailCounts32(x);
    PopcntCounts32(Tail32(x));
  }
}
