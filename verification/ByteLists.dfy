/** Bytes at a position of a buffer, and integers as little-endian bytes. */
module ByteLists {
  import opened Leb128
  import opened Opcodes

  /** The low bytes of n, least significant first. */
  function Word(n: nat, bytes: nat): (r: seq<byte>)
    ensures |r| == bytes
  {
    if bytes == 0 then [] else [n % 256] + Word(n / 256, bytes - 1)
  }

  predicate Has(code: seq<byte>, pc: nat, bs: seq<byte>) {
    pc + |bs| <= |code| && code[pc..pc + |bs|] == bs
  }

  lemma HasCat(code: seq<byte>, pc: nat, a: seq<byte>, b: seq<byte>)
    requires Has(code, pc, a + b)
    ensures Has(code, pc, a) && Has(code, pc + |a|, b)
  {
    var c := code[pc..pc + |a + b|];
    assert c[..|a|] == a && c[|a|..] == b;
    assert code[pc..pc + |a|] == c[..|a|] && code[pc + |a|..pc + |a| + |b|] == c[|a|..];
  }

  lemma HasFour(code: seq<byte>, pc: nat, a: seq<byte>, b: seq<byte>, c: seq<byte>, d: seq<byte>)
    requires Has(code, pc, a + b + c + d)
    ensures Has(code, pc, a) && Has(code, pc + |a|, b) && Has(code, pc + |a| + |b|, c)
    ensures Has(code, pc + |a| + |b| + |c|, d)
  {
    hide Has;
    HasCat(code, pc, a + b + c, d);
    HasCat(code, pc, a + b, c);
    HasCat(code, pc, a, b);
  }

  lemma HasAt(code: seq<byte>, pc: nat, bs: seq<byte>, i: nat)
    requires Has(code, pc, bs) && i < |bs|
    ensures pc + i < |code| && code[pc + i] == bs[i]
  {
    assert code[pc..pc + |bs|][i] == code[pc + i];
  }

  lemma ReadHas(code: seq<byte>, pc: nat, x: nat)
    requires x < U32 && Has(code, pc, Encode(x))
    ensures ReadAt(code, pc) == Read(x, |Encode(x)|, NoError)
  {
    hide ReadAt;
    var rest := code[pc + |Encode(x)|..];
    assert code == code[..pc] + Encode(x) + rest;
    ReadEncode(x, code[..pc], rest);
  }

  lemma {:induction false} WordReads(code: seq<byte>, pc: nat, n: nat, k: nat)
    requires Has(code, pc, Word(n, k)) && n < Pow2(8 * k)
    ensures LittleEndian(code, pc, k) == n
    decreases k
  {
    if k > 0 {
      HasAt(code, pc, Word(n, k), 0);
      HasCat(code, pc, [n % 256], Word(n / 256, k - 1));
      Pow2Add(8, 8 * (k - 1));
      assert Pow2(8) == 256;
      WordReads(code, pc + 1, n / 256, k - 1);
    }
  }

  lemma FourBytes()
    ensures Pow2(8 * 4) == U32
  {
    Pow2Add(16, 16);
    Pow2Add(8, 8);
    assert Pow2(8) == 256;
  }
}
