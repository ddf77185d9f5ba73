/** The 64-bit population count and count-trailing-zeros graphs: one level more than the 32-bit ones. */
module BitCount64 {

  const ONE: bv7 := 1

  /** The lowest bit. */
  function Bit64(x: bv64): nat {
    if x & 1 == 1 then 1 else 0
  }

  function Half64(x: bv64): bv64 {
    x >> ONE
  }

  /** The number of one bits: the lowest bit and the rest. */
  function Ones64(x: bv64): nat
    decreases x
  {
    if x == 0 then 0 else Bit64(x) + Ones64(Half64(x))
  }

  /** Trailing zero bits; all 64 of them in zero. */
  function TrailingZeros64(x: bv64): nat
    decreases x
  {
    if x == 0 then 64 else if x & 1 == 1 then 0 else 1 + TrailingZeros64(Half64(x))
  }

  /** The number a word stands for. */
  function Num64(x: bv64): nat
    decreases x
  {
    if x == 0 then 0 else 1 + Num64(x - 1)
  }

  /** One level of the population count: neighbouring fields are added. */
  function Fold64(x: bv64, shift: bv7, mask: bv64): bv64
    requires shift < 64
  {
    ((x >> shift) & mask) + (x & mask)
  }

  function Popcnt64(x: bv64): bv64 {
    var a := Fold64(x, 1, 0x5555_5555_5555_5555);
    var b := Fold64(a, 2, 0x3333_3333_3333_3333);
    var c := Fold64(b, 4, 0x0f0f_0f0f_0f0f_0f0f);
    var d := Fold64(c, 8, 0x00ff_00ff_00ff_00ff);
    var e := Fold64(d, 16, 0x0000_ffff_0000_ffff);
    Fold64(e, 32, 0x0000_0000_ffff_ffff)
  }

  /** Everything above the lowest one bit. */
  function Smear64(x: bv64): bv64 {
    var a := x | (x << 1);
    var b := a | (a << 2);
    var c := b | (b << 4);
    var d := c | (c << 8);
    var e := d | (d << 16);
    e | (e << 32)
  }

  function Ctz64(x: bv64): bv64 {
    Popcnt64(0xffff_ffff_ffff_ffff ^ Smear64(x))
  }

  // ----- Sums of bits -----

  lemma {:induction false} NumAdd64(a: bv64, b: bv64)
    requires a <= 64 && b <= 64
    ensures Num64(a + b) == Num64(a) + Num64(b)
    decreases b
  {
    if b != 0 {
      assert a + b != 0 && a + b - 1 == a + (b - 1);
      NumAdd64(a, b - 1);
    } else {
      assert a + b == a;
    }
  }

  lemma OnesStep64(x: bv64)
    ensures Ones64(x) == Bit64(x) + Ones64(Half64(x))
  {
    if x == 0 { assert Half64(x) == 0; }
  }

  /** The ones among the four lowest bits. */
  function Nibble64(x: bv64): nat {
    Bit64(x) + Bit64(Half64(x)) + Bit64(Half64(Half64(x))) + Bit64(Half64(Half64(Half64(x))))
  }

  function Drop64(x: bv64): bv64 {
    Half64(Half64(Half64(Half64(x))))
  }

  /** Without its lowest bits. */
  function Shift64(x: bv64, s: bv7): bv64
    requires s <= 64
  {
    x >> s
  }

  lemma OnesFour64(x: bv64)
    ensures Ones64(x) == Nibble64(x) + Ones64(Drop64(x))
  {
    hide Ones64, Bit64, Half64;
    OnesStep64(x);
    OnesStep64(Half64(x));
    OnesStep64(Half64(Half64(x)));
    OnesStep64(Half64(Half64(Half64(x))));
  }

  lemma DropShift64(x: bv64, s: bv7)
    requires s <= 60
    ensures Drop64(Shift64(x, s)) == Shift64(x, s + 4)
  {
  }

  lemma OnesAt64(x: bv64, s: bv7, t: bv7)
    requires s <= 60 && t == s + 4
    ensures Ones64(Shift64(x, s)) == Nibble64(Shift64(x, s)) + Ones64(Shift64(x, t))
  {
    DropShift64(x, s);
    hide Ones64, Nibble64, Drop64, Shift64;
    OnesFour64(Shift64(x, s));
  }

  /** The same count as a sum of words. */
  function NibbleSum64(x: bv64): bv64 {
    (x & 1) + (Half64(x) & 1) + (Half64(Half64(x)) & 1) + (Half64(Half64(Half64(x))) & 1)
  }

  predicate UpTo64(x: bv64, k: bv64) {
    x <= k
  }

  lemma NibbleNum64(x: bv64)
    ensures Num64(NibbleSum64(x)) == Nibble64(x) && UpTo64(NibbleSum64(x), 4)
  {
    hide Num64, Bit64, Half64;
    var x1 := Half64(x);
    var x2 := Half64(x1);
    var x3 := Half64(x2);
    var a, b, c, d := x & 1, x1 & 1, x2 & 1, x3 & 1;
    BitNum64(x);
    BitNum64(x1);
    BitNum64(x2);
    BitNum64(x3);
    NumAdd64(a, b);
    NumAdd64(a + b, c);
    NumAdd64(a + b + c, d);
  }

  lemma BitNum64(x: bv64)
    ensures Num64(x & 1) == Bit64(x) && x & 1 <= 1
  {
    var b := x & 1;
    assert b == 0 || b == 1;
    assert Num64(1) == 1 + Num64(0);
  }

  function Field64(x: bv64, shift: bv7, mask: bv64): bv64
    requires shift < 64
  {
    (x >> shift) & mask
  }

  function Add64(a: bv64, b: bv64): bv64 {
    a + b
  }

  lemma NumSum64(a: bv64, b: bv64, k: bv64)
    requires UpTo64(a, k) && UpTo64(b, k) && k <= 32
    ensures Num64(Add64(a, b)) == Num64(a) + Num64(b) && UpTo64(Add64(a, b), Add64(k, k))
  {
    hide Num64;
    NumAdd64(a, b);
  }

  /** The first two levels. */
  function Pairs64(x: bv64): bv64 {
    Fold64(Fold64(x, 1, 0x5555_5555_5555_5555), 2, 0x3333_3333_3333_3333)
  }

  lemma NibbleFields0(x: bv64)
    ensures var b := Pairs64(x);
      && Field64(b, 0, 0xf) == NibbleSum64(Shift64(x, 0))
      && Field64(b, 4, 0xf) == NibbleSum64(Shift64(x, 4))
      && Field64(b, 8, 0xf) == NibbleSum64(Shift64(x, 8))
      && Field64(b, 12, 0xf) == NibbleSum64(Shift64(x, 12))
  {
  }

  lemma NibbleFields1(x: bv64)
    ensures var b := Pairs64(x);
      && Field64(b, 16, 0xf) == NibbleSum64(Shift64(x, 16))
      && Field64(b, 20, 0xf) == NibbleSum64(Shift64(x, 20))
      && Field64(b, 24, 0xf) == NibbleSum64(Shift64(x, 24))
      && Field64(b, 28, 0xf) == NibbleSum64(Shift64(x, 28))
  {
  }

  lemma NibbleFields2(x: bv64)
    ensures var b := Pairs64(x);
      && Field64(b, 32, 0xf) == NibbleSum64(Shift64(x, 32))
      && Field64(b, 36, 0xf) == NibbleSum64(Shift64(x, 36))
      && Field64(b, 40, 0xf) == NibbleSum64(Shift64(x, 40))
      && Field64(b, 44, 0xf) == NibbleSum64(Shift64(x, 44))
  {
  }

  lemma NibbleFields3(x: bv64)
    ensures var b := Pairs64(x);
      && Field64(b, 48, 0xf) == NibbleSum64(Shift64(x, 48))
      && Field64(b, 52, 0xf) == NibbleSum64(Shift64(x, 52))
      && Field64(b, 56, 0xf) == NibbleSum64(Shift64(x, 56))
      && Field64(b, 60, 0xf) == NibbleSum64(Shift64(x, 60))
  {
  }

  /** The other levels add nibbles to bytes, bytes to half words, half words to words, and the halves. */
  lemma LowBytes64(b: bv64)
    ensures var c := Fold64(b, 4, 0x0f0f_0f0f_0f0f_0f0f);
      && Field64(c, 0, 0xff) == Add64(Field64(b, 4, 0xf), Field64(b, 0, 0xf))
      && Field64(c, 8, 0xff) == Add64(Field64(b, 12, 0xf), Field64(b, 8, 0xf))
      && Field64(c, 16, 0xff) == Add64(Field64(b, 20, 0xf), Field64(b, 16, 0xf))
      && Field64(c, 24, 0xff) == Add64(Field64(b, 28, 0xf), Field64(b, 24, 0xf))
  {
  }

  lemma HighBytes64(b: bv64)
    ensures var c := Fold64(b, 4, 0x0f0f_0f0f_0f0f_0f0f);
      && Field64(c, 32, 0xff) == Add64(Field64(b, 36, 0xf), Field64(b, 32, 0xf))
      && Field64(c, 40, 0xff) == Add64(Field64(b, 44, 0xf), Field64(b, 40, 0xf))
      && Field64(c, 48, 0xff) == Add64(Field64(b, 52, 0xf), Field64(b, 48, 0xf))
      && Field64(c, 56, 0xff) == Add64(Field64(b, 60, 0xf), Field64(b, 56, 0xf))
  {
  }

  lemma LowHalves64(c: bv64)
    ensures var d := Fold64(c, 8, 0x00ff_00ff_00ff_00ff);
      && Field64(d, 0, 0xffff) == Add64(Field64(c, 8, 0xff), Field64(c, 0, 0xff))
      && Field64(d, 16, 0xffff) == Add64(Field64(c, 24, 0xff), Field64(c, 16, 0xff))
  {
  }

  lemma HighHalves64(c: bv64)
    ensures var d := Fold64(c, 8, 0x00ff_00ff_00ff_00ff);
      && Field64(d, 32, 0xffff) == Add64(Field64(c, 40, 0xff), Field64(c, 32, 0xff))
      && Field64(d, 48, 0xffff) == Add64(Field64(c, 56, 0xff), Field64(c, 48, 0xff))
  {
  }

  lemma LowWord64(d: bv64)
    ensures var e := Fold64(d, 16, 0x0000_ffff_0000_ffff);
      && Field64(e, 0, 0xffff_ffff) == Add64(Field64(d, 16, 0xffff), Field64(d, 0, 0xffff))
  {
  }

  lemma HighWord64(d: bv64)
    ensures var e := Fold64(d, 16, 0x0000_ffff_0000_ffff);
      && Field64(e, 32, 0xffff_ffff) == Add64(Field64(d, 48, 0xffff), Field64(d, 32, 0xffff))
  {
  }

  lemma Whole64(e: bv64)
    ensures Fold64(e, 32, 0x0000_0000_ffff_ffff) == Add64(Field64(e, 32, 0xffff_ffff), Field64(e, 0, 0xffff_ffff))
  {
    LowField64(e);
    hide Field64;
  }

  lemma LowField64(e: bv64)
    ensures Field64(e, 0, 0xffff_ffff) == e & 0xffff_ffff && Field64(e, 32, 0xffff_ffff) == (e >> 32) & 0xffff_ffff
  {
  }

  lemma NumFour64(a: bv64, b: bv64)
    requires UpTo64(a, 4) && UpTo64(b, 4)
    ensures Num64(Add64(a, b)) == Num64(a) + Num64(b) && UpTo64(Add64(a, b), 8)
  {
    NumSum64(a, b, 4);
  }

  lemma NumEight64(a: bv64, b: bv64)
    requires UpTo64(a, 8) && UpTo64(b, 8)
    ensures Num64(Add64(a, b)) == Num64(a) + Num64(b) && UpTo64(Add64(a, b), 16)
  {
    NumSum64(a, b, 8);
  }

  lemma NumSixteen64(a: bv64, b: bv64)
    requires UpTo64(a, 16) && UpTo64(b, 16)
    ensures Num64(Add64(a, b)) == Num64(a) + Num64(b) && UpTo64(Add64(a, b), 32)
  {
    NumSum64(a, b, 16);
  }

  lemma NumThirtyTwo64(a: bv64, b: bv64)
    requires UpTo64(a, 32) && UpTo64(b, 32)
    ensures Num64(Add64(a, b)) == Num64(a) + Num64(b)
  {
    NumSum64(a, b, 32);
  }

  /** Numbers of fields add up level by level. */
  lemma LevelNums64(b: bv64)
    requires UpTo64(Field64(b, 0, 0xf), 4) && UpTo64(Field64(b, 4, 0xf), 4) && UpTo64(Field64(b, 8, 0xf), 4)
    requires UpTo64(Field64(b, 12, 0xf), 4)
    requires UpTo64(Field64(b, 16, 0xf), 4) && UpTo64(Field64(b, 20, 0xf), 4) && UpTo64(Field64(b, 24, 0xf), 4)
    requires UpTo64(Field64(b, 28, 0xf), 4)
    requires UpTo64(Field64(b, 32, 0xf), 4) && UpTo64(Field64(b, 36, 0xf), 4) && UpTo64(Field64(b, 40, 0xf), 4)
    requires UpTo64(Field64(b, 44, 0xf), 4)
    requires UpTo64(Field64(b, 48, 0xf), 4) && UpTo64(Field64(b, 52, 0xf), 4) && UpTo64(Field64(b, 56, 0xf), 4)
    requires UpTo64(Field64(b, 60, 0xf), 4)
    ensures Num64(Fold64(Fold64(Fold64(Fold64(b, 4, 0x0f0f_0f0f_0f0f_0f0f), 8, 0x00ff_00ff_00ff_00ff), 16,
      0x0000_ffff_0000_ffff), 32, 0x0000_0000_ffff_ffff))
      == Num64(Field64(b, 0, 0xf)) + Num64(Field64(b, 4, 0xf)) + Num64(Field64(b, 8, 0xf)) + Num64(Field64(b, 12, 0xf))
       + Num64(Field64(b, 16, 0xf)) + Num64(Field64(b, 20, 0xf)) + Num64(Field64(b, 24, 0xf))
         + Num64(Field64(b, 28, 0xf))
       + Num64(Field64(b, 32, 0xf)) + Num64(Field64(b, 36, 0xf)) + Num64(Field64(b, 40, 0xf))
         + Num64(Field64(b, 44, 0xf))
       + Num64(Field64(b, 48, 0xf)) + Num64(Field64(b, 52, 0xf)) + Num64(Field64(b, 56, 0xf))
         + Num64(Field64(b, 60, 0xf))
  {
    hide Num64, Fold64, Field64, Add64, UpTo64;
    var c := Fold64(b, 4, 0x0f0f_0f0f_0f0f_0f0f);
    var d := Fold64(c, 8, 0x00ff_00ff_00ff_00ff);
    var e := Fold64(d, 16, 0x0000_ffff_0000_ffff);
    LowBytes64(b);
    HighBytes64(b);
    LowHalves64(c);
    HighHalves64(c);
    LowWord64(d);
    HighWord64(d);
    Whole64(e);
    NumFour64(Field64(b, 4, 0xf), Field64(b, 0, 0xf));
    NumFour64(Field64(b, 12, 0xf), Field64(b, 8, 0xf));
    NumFour64(Field64(b, 20, 0xf), Field64(b, 16, 0xf));
    NumFour64(Field64(b, 28, 0xf), Field64(b, 24, 0xf));
    NumFour64(Field64(b, 36, 0xf), Field64(b, 32, 0xf));
    NumFour64(Field64(b, 44, 0xf), Field64(b, 40, 0xf));
    NumFour64(Field64(b, 52, 0xf), Field64(b, 48, 0xf));
    NumFour64(Field64(b, 60, 0xf), Field64(b, 56, 0xf));
    NumEight64(Field64(c, 8, 0xff), Field64(c, 0, 0xff));
    NumEight64(Field64(c, 24, 0xff), Field64(c, 16, 0xff));
    NumEight64(Field64(c, 40, 0xff), Field64(c, 32, 0xff));
    NumEight64(Field64(c, 56, 0xff), Field64(c, 48, 0xff));
    NumSixteen64(Field64(d, 16, 0xffff), Field64(d, 0, 0xffff));
    NumSixteen64(Field64(d, 48, 0xffff), Field64(d, 32, 0xffff));
    NumThirtyTwo64(Field64(e, 32, 0xffff_ffff), Field64(e, 0, 0xffff_ffff));
  }

  lemma AllShifted64(x: bv64)
    ensures Shift64(x, 0) == x && Shift64(x, 64) == 0
  {
  }

  lemma OnesOfZero64()
    ensures Ones64(0) == 0
  {
  }

  /** A word in nibbles, lowest first. */
  lemma OnesNibbles64(x: bv64)
    ensures Ones64(x) == Nibble64(Shift64(x, 0)) + Nibble64(Shift64(x, 4)) + Nibble64(Shift64(x, 8))
      + Nibble64(Shift64(x, 12))
      + Nibble64(Shift64(x, 16)) + Nibble64(Shift64(x, 20)) + Nibble64(Shift64(x, 24)) + Nibble64(Shift64(x, 28))
      + Nibble64(Shift64(x, 32)) + Nibble64(Shift64(x, 36)) + Nibble64(Shift64(x, 40)) + Nibble64(Shift64(x, 44))
      + Nibble64(Shift64(x, 48)) + Nibble64(Shift64(x, 52)) + Nibble64(Shift64(x, 56)) + Nibble64(Shift64(x, 60))
  {
    hide Ones64, Nibble64, Shift64;
    AllShifted64(x);
    OnesOfZero64();
    OnesAt64(x, 0, 4);
    OnesAt64(x, 4, 8);
    OnesAt64(x, 8, 12);
    OnesAt64(x, 12, 16);
    OnesAt64(x, 16, 20);
    OnesAt64(x, 20, 24);
    OnesAt64(x, 24, 28);
    OnesAt64(x, 28, 32);
    OnesAt64(x, 32, 36);
    OnesAt64(x, 36, 40);
    OnesAt64(x, 40, 44);
    OnesAt64(x, 44, 48);
    OnesAt64(x, 48, 52);
    OnesAt64(x, 52, 56);
    OnesAt64(x, 56, 60);
    OnesAt64(x, 60, 64);
  }

  /** The population count graph counts the ones. */
  lemma PopcntCounts64(x: bv64)
    ensures Num64(Popcnt64(x)) == Ones64(x)
  {
    assert Popcnt64(x) == Fold64(Fold64(Fold64(Fold64(Pairs64(x), 4, 0x0f0f_0f0f_0f0f_0f0f), 8,
        0x00ff_00ff_00ff_00ff), 16, 0x0000_ffff_0000_ffff), 32, 0x0000_0000_ffff_ffff) by {
      hide Fold64;
    }
    hide Fold64, Num64, Ones64, Nibble64, NibbleSum64, Shift64, Field64, UpTo64, Pairs64, Popcnt64;
    NibbleFields0(x);
    NibbleFields1(x);
    NibbleFields2(x);
    NibbleFields3(x);
    OnesNibbles64(x);
    NibbleNum64(Shift64(x, 0));
    NibbleNum64(Shift64(x, 4));
    NibbleNum64(Shift64(x, 8));
    NibbleNum64(Shift64(x, 12));
    NibbleNum64(Shift64(x, 16));
    NibbleNum64(Shift64(x, 20));
    NibbleNum64(Shift64(x, 24));
    NibbleNum64(Shift64(x, 28));
    NibbleNum64(Shift64(x, 32));
    NibbleNum64(Shift64(x, 36));
    NibbleNum64(Shift64(x, 40));
    NibbleNum64(Shift64(x, 44));
    NibbleNum64(Shift64(x, 48));
    NibbleNum64(Shift64(x, 52));
    NibbleNum64(Shift64(x, 56));
    NibbleNum64(Shift64(x, 60));
    LevelNums64(Pairs64(x));
  }

  // ----- Trailing zeros -----

  /** The bits below the lowest one bit. */
  function Tail64(x: bv64): bv64 {
    0xffff_ffff_ffff_ffff ^ Smear64(x)
  }

  lemma TailOdd64(x: bv64)
    requires x & 1 == 1
    ensures Tail64(x) == 0
  {
  }

  lemma TailEven64(x: bv64)
    requires x & 1 == 0 && x != 0
    ensures Half64(x) != 0 && Tail64(x) & 1 == 1 && Half64(Tail64(x)) == Tail64(Half64(x))
  {
  }

  lemma TailZero64()
    ensures Ones64(Tail64(0)) == 64
  {
    assert Tail64(0) == 0xffff_ffff_ffff_ffff;
    OnesNibbles64(0xffff_ffff_ffff_ffff);
  }

  lemma {:induction false} TailCounts64(x: bv64)
    ensures Ones64(Tail64(x)) == TrailingZeros64(x)
    decreases x
  {
    if x == 0 {
      TailZero64();
    } else if x & 1 == 1 {
      TailOdd64(x);
    } else {
      TailEven64(x);
      hide Tail64, Smear64;
      TailCounts64(Half64(x));
      OnesStep64(Tail64(x));
    }
  }

  /** The count-trailing-zeros graph counts them, also in zero. */
  lemma CtzCounts64(x: bv64)
    ensures Num64(Ctz64(x)) == TrailingZeros64(x)
  {
    hide Smear64, Popcnt64, Num64, Ones64, TrailingZeros64;
    TailCounts64(x);
    PopcntCounts64(Tail64(x));
  }
}
