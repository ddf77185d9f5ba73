/** Reading integers from a buffer of bytes with a cursor, a limit and a first-error state. */
module ByteDecoder {
  import opened Leb128
  import opened Opcodes

  /** What a read gives: a value and the position after it, or an error. */
  datatype Reading<+T> = Off | At(value: T, pc: nat)

  /** A fixed number of bytes, least significant first. */
  function Fixed(code: seq<byte>, limit: nat, pc: nat, n: nat): (r: Reading<nat>)
    ensures r.At? ==> r.pc == pc + n <= limit
  {
    if pc + n > limit || limit > |code| then Off else At(LittleEndian(code, pc, n), pc + n)
  }

  /** A variable-length number: the reader of function bodies, stopped at the limit. */
  function Varint(code: seq<byte>, limit: nat, pc: nat): (r: Reading<nat>)
    ensures r.At? ==> pc < r.pc <= limit
  {
    if pc + 1 > limit || limit > |code| then Off
    else
      var r := ReadAt(code[..limit], pc);
      if r.status.NoError? then At(r.value, pc + r.length) else Off
  }

  class Decoder {
    const bytes: seq<byte>
    var pc: nat
    var limit: nat
    var failed: bool

    ghost predicate Valid()
      reads this
    {
      pc <= limit <= |bytes|
    }

    constructor (bytes: seq<byte>)
      ensures Valid() && this.bytes == bytes && pc == 0 && limit == |bytes| && !failed
    {
      this.bytes := bytes;
      pc, limit, failed := 0, |bytes|, false;
    }

    /** The first error ends the decoding: the cursor moves to the limit. */
    method Error()
      requires Valid()
      modifies this`failed, this`pc
      ensures Valid() && failed && pc == limit
    {
      failed := true;
      pc := limit;
    }

    method CheckAvailable(size: nat) returns (ok: bool)
      requires Valid()
      modifies this`failed, this`pc
      ensures Valid() && ok == (old(pc) + size <= limit)
      ensures if ok then pc == old(pc) && failed == old(failed) else failed
    {
      ok := pc + size <= limit;
      if !ok { Error(); }
    }

    method ReadU8() returns (val: nat)
      requires Valid()
      modifies this`failed, this`pc
      ensures Valid() && val < 256
      ensures Fixed(bytes, limit, old(pc), 1) == if old(pc) + 1 <= limit then At(val, pc) else Off
      ensures if old(pc) + 1 <= limit then failed == old(failed) else failed
    {
      var ok := CheckAvailable(1);
      if !ok { return 0; }
      val := bytes[pc];
      pc := pc + 1;
      assert LittleEndian(bytes, old(pc), 1) == val + 256 * LittleEndian(bytes, pc, 0);
    }

    method ReadU16() returns (val: nat)
      requires Valid()
      modifies this`failed, this`pc
      ensures Valid() && val < 0x1_0000
      ensures Fixed(bytes, limit, old(pc), 2) == if old(pc) + 2 <= limit then At(val, pc) else Off
      ensures if old(pc) + 2 <= limit then failed == old(failed) else failed
    {
      var ok := CheckAvailable(2);
      if !ok { return 0; }
      var b0, b1 := bytes[pc], bytes[pc + 1];
      val := b1 * 256 + b0;
      assert LittleEndian(bytes, pc + 1, 1) == b1 + 256 * LittleEndian(bytes, pc + 2, 0);
      pc := pc + 2;
    }

    method ReadU32() returns (val: nat)
      requires Valid()
      modifies this`failed, this`pc
      ensures Valid() && val < 0x1_0000_0000
      ensures Fixed(bytes, limit, old(pc), 4) == if old(pc) + 4 <= limit then At(val, pc) else Off
      ensures if old(pc) + 4 <= limit then failed == old(failed) else failed
    {
      var ok := CheckAvailable(4);
      if !ok { return 0; }
      var b0, b1, b2, b3 := bytes[pc], bytes[pc + 1], bytes[pc + 2], bytes[pc + 3];
      val := b3 * 0x100_0000 + b2 * 0x1_0000 + b1 * 0x100 + b0;
      assert LittleEndian(bytes, pc + 3, 1) == b3 + 256 * LittleEndian(bytes, pc + 4, 0) == b3;
      assert LittleEndian(bytes, pc + 2, 2) == b2 + 256 * b3;
      assert LittleEndian(bytes, pc + 1, 3) == b1 + 256 * (b2 + 256 * b3);
      pc := pc + 4;
    }

    /** The variable-length reader agrees with the one for function bodies on value, length and failure. */
    method ReadU32v() returns (val: nat)
      requires Valid()
      modifies this`failed, this`pc
      ensures Valid()
      ensures Varint(bytes, limit, old(pc)).At? ==>
        Varint(bytes, limit, old(pc)) == At(val, pc) && failed == old(failed)
      ensures Varint(bytes, limit, old(pc)).Off? ==> failed
    {
      var ok := CheckAvailable(1);
      if !ok { return 0; }
      ghost var code := bytes[..limit];
      var pos := pc;
      var end := if pc + 5 > limit then limit else pc + 5;
      val := 0;
      var shift := 0;
      var b: byte := 0;
      while pc < end
        invariant pos <= pc <= end && Groups(code, pos, pc, val, shift) && failed == old(failed)
        invariant pos < pc ==> b >= 128
      {
        b := bytes[pc];
        NextGroup(code, pos, pc, val, shift);
        val := OrGroup(val, b, shift);
        pc := pc + 1;
        if b < 128 { return; }
        shift := shift + 7;
      }
      NoEnd(code, pos, pc, val, shift);
      Error();
    }
  }

  /** Groups with their high bit set were read from pos up to pc. */
  predicate Groups(code: seq<byte>, pos: nat, pc: nat, val: nat, shift: nat) {
    && pos <= pc <= |code| && shift == 7 * (pc - pos) && val == Value(code[pos..pc]) % U32
    && forall i :: pos <= i < pc ==> code[i] >= 128
  }

  lemma NextGroup(code: seq<byte>, pos: nat, pc: nat, val: nat, shift: nat)
    requires Groups(code, pos, pc, val, shift) && pc < |code| && pc < pos + 5
    ensures var v := OrGroup(val, code[pc], shift);
      if code[pc] >= 128 then Groups(code, pos, pc + 1, v, shift + 7)
      else ReadAt(code, pos) == Read(v, pc + 1 - pos, NoError)
  {
    hide Value, OrGroup;
    assert code[pos..pc + 1] == code[pos..pc] + [code[pc]];
    OrGroupValue(code[pos..pc], code[pc]);
    TakenMore(code, pos, pc - pos, 5);
  }

  lemma NoEnd(code: seq<byte>, pos: nat, pc: nat, val: nat, shift: nat)
    requires Groups(code, pos, pc, val, shift) && pos < pc && (pc == pos + 5 || pc == |code|) && pc <= pos + 5
    ensures ReadAt(code, pos).status == Invalid
  {
    hide Value;
    TakenAll(code, pos, pc - pos, 5);
  }
}
