/** Unsigned LEB128: the two writers, the two readers and the size count of the prototype. */
module Leb128 {

  type byte = x: int | 0 <= x < 256

  const U32: nat := 0x1_0000_0000

  function Pow2(n: nat): (p: nat)
    ensures p > 0
  {
    if n == 0 then 1 else 2 * Pow2(n - 1)
  }

  /** `x >> n` on an unsigned number. */
  function Shr(x: nat, n: nat): nat {
    if n == 0 then x else Shr(x / 2, n - 1)
  }

  /** The canonical encoding: seven bits a byte, least significant first. */
  function Encode(x: nat): (s: seq<byte>)
    ensures |s| > 0
    decreases x
  {
    if x < 128 then [x] else [x % 128 + 128] + Encode(x / 128)
  }

  datatype Status = NoError | Invalid | Missing

  /** What a reader makes of the bytes from pc: the value modulo 2^32, how many bytes it used, and
      whether the encoding was complete. */
  datatype Read = Read(value: nat, length: nat, status: Status)

  /** At most five bytes, as long as the high bit is set: the bytes a reader consumes. */
  function Taken(code: seq<byte>, pc: nat, n: nat): (len: nat)
    requires pc <= |code|
    ensures len <= n && pc + len <= |code|
    decreases n
  {
    if n == 0 || pc == |code| then 0
    else if code[pc] < 128 then 1
    else 1 + Taken(code, pc + 1, n - 1)
  }

  /** The number a sequence of groups denotes. */
  function Value(s: seq<byte>): nat {
    if s == [] then 0 else s[0] % 128 + 128 * Value(s[1..])
  }

  function ReadAt(code: seq<byte>, pc: nat): Read
    requires pc <= |code|
  {
    var len := Taken(code, pc, 5);
    Read(Value(code[pc..pc + len]) % U32, len,
         if len == 0 then Missing
         else if code[pc + len - 1] >= 128 then Invalid
         else NoError)
  }

  lemma {:induction false} Pow2Add(a: nat, b: nat)
    ensures Pow2(a + b) == Pow2(a) * Pow2(b)
  {
    if a > 0 {
      Pow2Add(a - 1, b);
      assert 2 * Pow2(a - 1) * Pow2(b) == 2 * (Pow2(a - 1) * Pow2(b));
    }
  }

  /** Groups of seven bits are weighted by powers of 128. */
  lemma {:induction false} ValueAppend(s: seq<byte>, b: byte)
    ensures Value(s + [b]) == Value(s) + b % 128 * Pow2(7 * |s|)
  {
    if s == [] {
      assert s + [b] == [b];
    } else {
      assert (s + [b])[1..] == s[1..] + [b];
      ValueAppend(s[1..], b);
      Pow2Add(7, 7 * (|s| - 1));
      assert Pow2(7) == 128;
      var p, x := Pow2(7 * (|s| - 1)), b % 128;
      assert 128 * (x * p) == x * (128 * p);
    }
  }

  /** Bits below a shift and a group shifted by it do not overlap, so or is plus; so for every shift but the
      first, before which there are no bits. */
  lemma OrIsAdd(acc: bv32, group: bv32)
    requires group < 0x80
    ensures acc < 0x80 ==> acc | (group << 7) == acc + (group << 7)
    ensures acc < 0x4000 ==> acc | (group << 14) == acc + (group << 14)
    ensures acc < 0x20_0000 ==> acc | (group << 21) == acc + (group << 21)
    ensures acc < 0x1000_0000 ==> acc | (group << 28) == acc + (group << 28)
  {
  }

  /** `acc | ((b & 0x7F) << shift)` in 32 bits, as numbers. */
  function OrGroup(acc: nat, b: byte, shift: nat): nat {
    (acc + b % 128 * Pow2(shift)) % U32
  }

  lemma OrGroupValue(s: seq<byte>, b: byte)
    ensures OrGroup(Value(s) % U32, b, 7 * |s|) == Value(s + [b]) % U32
  {
    hide Value, Pow2;
    ValueAppend(s, b);
    var x := b % 128 * Pow2(7 * |s|);
    ModAdd(Value(s), x);
  }

  lemma ModAdd(v: nat, x: nat)
    ensures (v % U32 + x) % U32 == (v + x) % U32
  {
    ModPlus(v / U32, v % U32 + x);
  }

  lemma {:induction false} ModPlus(k: nat, r: nat)
    ensures (k * U32 + r) % U32 == r % U32
  {
    if k > 0 {
      ModPlus(k - 1, r);
      assert k * U32 + r == (k - 1) * U32 + r + U32;
    }
  }

  /** One more byte with its high bit set. */
  lemma {:induction false} TakenMore(code: seq<byte>, pc: nat, k: nat, n: nat)
    requires k < n && pc + k < |code| && forall i :: pc <= i < pc + k ==> code[i] >= 128
    ensures Taken(code, pc, n) == if code[pc + k] < 128 then k + 1 else k + 1 + Taken(code, pc + k + 1, n - k - 1)
    decreases k
  {
    if k > 0 {
      TakenMore(code, pc + 1, k - 1, n - 1);
    }
  }

  lemma {:induction false} TakenAll(code: seq<byte>, pc: nat, k: nat, n: nat)
    requires k <= n && pc + k <= |code| && forall i :: pc <= i < pc + k ==> code[i] >= 128
    requires k == n || pc + k == |code|
    ensures Taken(code, pc, n) == k
    decreases k
  {
    if k > 0 {
      TakenAll(code, pc + 1, k - 1, n - 1);
    }
  }

  /** The reader of the function decoder: a loop over the bytes up to the limit. */
  method ReadUnsignedLEB128Operand(code: seq<byte>, pc: nat) returns (status: Status, length: nat, result: nat)
    requires pc <= |code|
    ensures Read(result, length, status) == ReadAt(code, pc)
  {
    result := 0;
    var ptr := pc;
    var end := if pc + 5 <= |code| then pc + 5 else |code|;
    var shift := 0;
    var b: byte := 0;
    while ptr < end
      invariant pc <= ptr <= end && shift == 7 * (ptr - pc)
      invariant result == Value(code[pc..ptr]) % U32
      invariant b == if ptr == pc then 0 else code[ptr - 1]
      invariant forall i :: pc <= i < ptr ==> code[i] >= 128
    {
      b := code[ptr];
      assert code[pc..ptr + 1] == code[pc..ptr] + [b];
      OrGroupValue(code[pc..ptr], b);
      TakenMore(code, pc, ptr - pc, 5);
      result := OrGroup(result, b, shift);
      ptr := ptr + 1;
      if b < 128 {
        return NoError, ptr - pc, result;
      }
      shift := shift + 7;
    }
    TakenAll(code, pc, ptr - pc, 5);
    length := ptr - pc;
    status := if b >= 128 then Invalid else Missing;
  }

  /** The writer behind UnsignedLEB128From: a byte of the value shifted right, high bit set while more
      is left. */
  method UnsignedLEB128From(x: nat) returns (output: seq<byte>)
    ensures output == Encode(x)
  {
    output := [];
    var next: byte := 0;
    var shift := 0;
    var more := true;
    while more
      invariant more ==> output + Encode(Shr(x, shift)) == Encode(x)
      invariant !more ==> output == Encode(x)
      decreases more, Shr(x, shift)
    {
      var rest := Shr(x, shift);
      more := rest >= 128;
      next := if more then rest % 128 + 128 else rest;
      ShrGroup(x, shift);
      assert more ==> output + ([next] + Encode(Shr(x, shift + 7))) == output + [next] + Encode(Shr(x, shift + 7));
      output := output + [next];
      shift := shift + 7;
    }
  }

  lemma {:induction false} ShrGroup(x: nat, n: nat)
    ensures Shr(x, n + 7) == Shr(x, n) / 128
    decreases n
  {
    if n > 0 {
      ShrGroup(x / 2, n - 1);
    } else {
      var y := x / 2 / 2 / 2;
      assert Shr(x, 7) == Shr(x / 2, 6) == Shr(x / 2 / 2, 5) == Shr(y, 4);
      assert Shr(y, 4) == Shr(y / 2, 3) == Shr(y / 2 / 2, 2) == Shr(y / 2 / 2 / 2, 1) == y / 2 / 2 / 2 / 2;
      assert y == x / 8 && y / 2 / 2 / 2 / 2 == y / 16;
      assert Shr(x, 0) == x;
    }
  }

  /** The writer of the module: the same bytes for any size. */
  method EmitVarInt(val: nat) returns (out: seq<byte>)
    ensures out == Encode(val)
  {
    out := [];
    var v := val;
    while v / 128 > 0
      invariant out + Encode(v) == Encode(val)
      decreases v
    {
      assert out + ([v % 128 + 128] + Encode(v / 128)) == out + [v % 128 + 128] + Encode(v / 128);
      out := out + [v % 128 + 128];
      v := v / 128;
    }
    out := out + [v];
  }

  /** The size pass counts the bytes of a non-zero count by shifting it away. */
  method VarIntSize(size: nat) returns (n: nat)
    ensures size > 0 ==> n == |Encode(size)|
    ensures size == 0 ==> n == 0
  {
    n := 0;
    var s := size;
    while s > 0
      invariant size > 0 ==> n + (if s > 0 then |Encode(s)| else 0) == |Encode(size)|
      invariant size == 0 ==> n == 0 && s == 0
      decreases s
    {
      n := n + 1;
      s := s / 128;
    }
  }

  /** Encodings read back: for every 32-bit value and any following bytes, each reader returns the value
      and its length without error. */
  lemma {:induction false} ReadEncode(x: nat, prefix: seq<byte>, rest: seq<byte>)
    requires x < U32
    ensures ReadAt(prefix + Encode(x) + rest, |prefix|) == Read(x, |Encode(x)|, NoError)
  {
    var code, pc := prefix + Encode(x) + rest, |prefix|;
    hide Value, Pow2, Encode;
    FiveGroups();
    EncodeShape(x, 5);
    forall i | 0 <= i < |Encode(x)| ensures code[pc + i] == Encode(x)[i] {}
    TakenMore(code, pc, |Encode(x)| - 1, 5);
    assert code[pc..pc + |Encode(x)|] == Encode(x);
  }

  lemma FiveGroups()
    ensures Pow2(7 * 5) > U32
  {
    Pow2Add(8, 27);
    Pow2Add(8, 19);
    Pow2Add(8, 11);
    assert Pow2(8) == 256 && Pow2(11) == 2048;
  }

  lemma {:induction false} EncodeShape(x: nat, n: nat)
    requires n > 0 && x < Pow2(7 * n)
    ensures var s := Encode(x);
      && |s| <= n && Value(s) == x && s[|s| - 1] < 128 && forall i :: 0 <= i < |s| - 1 ==> s[i] >= 128
    decreases n
  {
    if x >= 128 {
      Pow2Add(7, 7 * (n - 1));
      assert Pow2(7 * 1) == 128;
      EncodeShape(x / 128, n - 1);
      assert Encode(x)[1..] == Encode(x / 128);
    }
  }
}
