/** The byte encoding of instructions: what the decoder reads at one position of a function body. */
module Opcodes {
  import opened Syntax
  import opened Leb128

  datatype Sig = Sig(params: seq<ValueType>, ret: LocalType)

  predicate SigOk(s: Sig) {
    !s.ret.End?
  }

  type FunctionSig = s: Sig | SigOk(s) witness Sig([], Stmt)

  /** The module a function is decoded in. */
  datatype ModuleEnv = ModuleEnv(globals: seq<ValueType>, functions: seq<FunctionSig>, signatures: seq<FunctionSig>,
    asmJs: bool)

  datatype Fetched = Bad | Got(instr: Instr, len: nat)

  /** Little-endian value of n bytes; the caller checks that they are there. */
  function LittleEndian(code: seq<byte>, pc: nat, n: nat): nat
    requires pc + n <= |code|
    decreases n
  {
    if n == 0 then 0 else code[pc] + 256 * LittleEndian(code, pc + 1, n - 1)
  }

  /** The same bytes as a two's complement number with the given half range. */
  function Signed(x: nat, half: nat): int {
    if x < half then x else x - 2 * half
  }

  function Pure(code: nat, params: seq<ValueType>, result: ValueType): Op {
    Operator(code, 0, params, result, false, false, false, false)
  }

  predicate Between(lo: nat, x: nat, hi: nat) {
    lo <= x <= hi
  }

  /** The signature of an operator with fixed signature: parameters and result. */
  function SimpleSig(c: byte): (seq<ValueType>, LocalType) {
    if Between(0x40, c, 0x56) then ([I32, I32], I32)
    else if Between(0x57, c, 0x5a) then ([I32], I32)
    else if Between(0x5b, c, 0x67) then ([I64, I64], I64)
    else if Between(0x68, c, 0x71) then ([I64, I64], I32)
    else if Between(0x72, c, 0x74) then ([I64], I64)
    else if Between(0x75, c, 0x7a) || c == 0x7d then ([F32, F32], F32)
    else if Between(0x7b, c, 0x82) then ([F32], F32)
    else if Between(0x83, c, 0x88) then ([F32, F32], I32)
    else if Between(0x89, c, 0x8e) || c == 0x91 then ([F64, F64], F64)
    else if Between(0x8f, c, 0x96) then ([F64], F64)
    else if Between(0x97, c, 0x9c) then ([F64, F64], I32)
    else if c == 0x9d || c == 0x9f || c == 0xb4 then ([F32], I32)
    else if c == 0x9e || c == 0xa0 then ([F64], I32)
    else if c == 0xa1 then ([I64], I32)
    else if c == 0xa2 || c == 0xa4 then ([F32], I64)
    else if c == 0xa3 || c == 0xa5 || c == 0xb5 then ([F64], I64)
    else if c == 0xa6 || c == 0xa7 then ([I32], I64)
    else if c == 0xa8 || c == 0xa9 || c == 0xad then ([I32], F32)
    else if c == 0xaa || c == 0xab then ([I64], F32)
    else if c == 0xac then ([F64], F32)
    else if c == 0xae || c == 0xaf then ([I32], F64)
    else if c == 0xb0 || c == 0xb1 || c == 0xb3 then ([I64], F64)
    else if c == 0xb2 then ([F32], F64)
    else ([], Stmt)
  }

  /** Division and remainder check their divisor. */
  predicate SimpleTraps(c: byte) {
    Between(0x43, c, 0x46) || Between(0x5e, c, 0x61)
  }

  function LoadType(c: byte): LocalType {
    if Between(0x20, c, 0x23) || c == 0x2a then I32
    else if Between(0x24, c, 0x29) || c == 0x2b then I64
    else if c == 0x2c then F32
    else if c == 0x2d then F64
    else Stmt
  }

  function StoreType(c: byte): LocalType {
    if c == 0x2e || c == 0x2f || c == 0x33 then I32
    else if Between(0x30, c, 0x32) || c == 0x34 then I64
    else if c == 0x35 then F32
    else if c == 0x36 then F64
    else Stmt
  }

  /** An index operand: variable length, at pc + 1. */
  function IndexOperand(code: seq<byte>, pc: nat): (r: Read)
    requires pc < |code|
    ensures r.status.NoError? ==> pc + 1 + r.length <= |code| && r.length > 0
  {
    ReadAt(code, pc + 1)
  }

  /** Memory access byte and, when its offset bit is set, a variable-length offset. */
  function MemoryOperand(code: seq<byte>, pc: nat): (r: Read)
    requires pc < |code|
    ensures r.status.NoError? ==> pc + r.length <= |code| && r.length >= 2
  {
    if pc + 2 > |code| then Read(0, 0, Missing)
    else if code[pc + 1] / 16 % 2 == 0 then Read(0, 2, NoError)
    else
      var r := ReadAt(code, pc + 2);
      Read(r.value, r.length + 2, r.status)
  }

  function Call(s: FunctionSig, code: nat, index: nat, indirect: bool): Op {
    Operator(code, index, (if indirect then [I32] else []) + s.params, s.ret, indirect, true, false, false)
  }

  /** Constants: the bits that follow the opcode. */
  function FetchConst(code: seq<byte>, pc: nat): Fetched
    requires pc < |code| && 0x09 <= code[pc] <= 0x0d
  {
    var n := if code[pc] == 0x09 then 1 else if code[pc] == 0x0a || code[pc] == 0x0d then 4 else 8;
    if pc + 1 + n > |code| then Bad
    else
      var bits := LittleEndian(code, pc + 1, n);
      if code[pc] == 0x09 then Got(Const(I32, Signed(bits, 0x80)), 2)
      else if code[pc] == 0x0a then Got(Const(I32, Signed(bits, 0x8000_0000)), 5)
      else if code[pc] == 0x0b then Got(Const(I64, Signed(bits, 0x8000_0000_0000_0000)), 9)
      else if code[pc] == 0x0c then Got(Const(F64, bits), 9)
      else Got(Const(F32, bits), 5)
  }

  /** Locals, globals and calls: an index that names something. */
  function FetchIndexed(menv: ModuleEnv, code: seq<byte>, pc: nat): Fetched
    requires pc < |code| && 0x0e <= code[pc] <= 0x13
  {
    var r := IndexOperand(code, pc);
    var i, len := r.value, 1 + r.length;
    if !r.status.NoError? then Bad
    else if code[pc] == 0x0e then Got(GetLocal(i), len)
    else if code[pc] == 0x0f then Got(SetLocal(i), len)
    else if code[pc] <= 0x11 then
      if i >= |menv.globals| then Bad
      else if code[pc] == 0x10 then Got(Apply(Operator(0x10, i, [], menv.globals[i], false, true, false, false)), len)
      else Got(Apply(Operator(0x11, i, [menv.globals[i]], menv.globals[i], false, true, true, true)), len)
    else if code[pc] == 0x12 then
      if i >= |menv.functions| then Bad else Got(Apply(Call(menv.functions[i], 0x12, i, false)), len)
    else if i >= |menv.signatures| then Bad
    else Got(Apply(Call(menv.signatures[i], 0x13, i, true)), len)
  }

  function FetchMemory(menv: ModuleEnv, code: seq<byte>, pc: nat): Fetched
    requires pc < |code| && (IsValue(LoadType(code[pc])) || IsValue(StoreType(code[pc])))
  {
    var r := MemoryOperand(code, pc);
    var c, load, store := code[pc], LoadType(code[pc]), StoreType(code[pc]);
    if !r.status.NoError? then Bad
    else if IsValue(load) then Got(Apply(Operator(c, r.value, [I32], load, !menv.asmJs, true, false, false)), r.length)
    else Got(Apply(Operator(c, r.value, [I32, store], store, !menv.asmJs, true, true, false)), r.length)
  }

  /** Control instructions with a one-byte operand. */
  function FetchByte(code: seq<byte>, pc: nat): Fetched
    requires pc < |code| && code[pc] in {0x01, 0x02, 0x06, 0x07}
  {
    if pc + 2 > |code| then Bad
    else
      var n := code[pc + 1];
      Got(if code[pc] == 0x01 then Block(n) else if code[pc] == 0x02 then Loop(n)
          else if code[pc] == 0x06 then Br(n) else BrIf(n), 2)
  }

  /** The instruction at pc and its length; `tableswitch` (0x08) is not part of this model. */
  function Fetch(menv: ModuleEnv, code: seq<byte>, pc: nat): (f: Fetched)
    requires pc < |code|
    ensures f.Got? ==> f.len > 0 && pc + f.len <= |code|
  {
    var c := code[pc];
    if c in {0x01, 0x02, 0x06, 0x07} then FetchByte(code, pc)
    else if c == 0x00 then Got(Nop, 1)
    else if c == 0x03 then Got(If, 1)
    else if c == 0x04 then Got(IfElse, 1)
    else if c == 0x05 then Got(Select, 1)
    else if c == 0x14 then Got(Return, 1)
    else if c == 0x15 then Got(Unreachable, 1)
    else if 0x09 <= c <= 0x0d then FetchConst(code, pc)
    else if 0x0e <= c <= 0x13 then FetchIndexed(menv, code, pc)
    else if IsValue(LoadType(c)) || IsValue(StoreType(c)) then FetchMemory(menv, code, pc)
    else if c == 0x3b then Got(Apply(Pure(c, [], I32)), 1)
    else if c == 0x39 then Got(Apply(Pure(c, [I32], I32)), 1)
    else
      var (params, ret) := SimpleSig(c);
      if !IsValue(ret) then Bad
      else Got(Apply(Operator(c, 0, params, ret, SimpleTraps(c), false, false, false)), 1)
  }
}
