/** Every part of a module by position: which bytes hold which field, and when a part is refused. */
module ModuleParts {
  import opened Syntax
  import opened Leb128
  import opened Opcodes
  import opened ByteDecoder
  import opened Modules
  import Y = Layout
  import M = Assembly
  import F = FunctionMeaning

  function Short(code: seq<byte>, at: nat): nat
    requires at + 2 <= |code|
  {
    var lo: nat, hi: nat := code[at], code[at + 1];
    lo + 0x100 * hi
  }

  function Long(code: seq<byte>, at: nat): nat
    requires at + 4 <= |code|
  {
    Short(code, at) + 0x1_0000 * Short(code, at + 2)
  }

  /** A flag in a byte. */
  predicate Flag(b: byte, mask: bv8) {
    (b as bv8) & mask != 0
  }

  lemma FlagIs(b: byte)
    ensures Bit(b, 1) == Flag(b, 1) && Bit(b, 2) == Flag(b, 2) && Bit(b, 4) == Flag(b, 4) && Bit(b, 8) == Flag(b, 8)
  {
  }

  lemma FixedIs(code: seq<byte>, limit: nat, pc: nat)
    ensures Fixed(code, limit, pc, 1) == if pc + 1 <= limit <= |code| then At(code[pc] as nat, pc + 1) else Off
    ensures Fixed(code, limit, pc, 2) == if pc + 2 <= limit <= |code| then At(Short(code, pc), pc + 2) else Off
    ensures Fixed(code, limit, pc, 4) == if pc + 4 <= limit <= |code| then At(Long(code, pc), pc + 4) else Off
  {
    if pc + 1 <= limit <= |code| { Lowest(code, pc, 0); }
    if pc + 2 <= limit <= |code| {
      Lowest(code, pc, 1);
      Lowest(code, pc + 1, 0);
    }
    if pc + 4 <= limit <= |code| {
      Lowest(code, pc, 3);
      Lowest(code, pc + 1, 2);
      Lowest(code, pc + 2, 1);
      Lowest(code, pc + 3, 0);
    }
  }

  lemma Lowest(code: seq<byte>, pc: nat, n: nat)
    requires pc + n + 1 <= |code|
    ensures LittleEndian(code, pc, n + 1) == code[pc] + 256 * LittleEndian(code, pc + 1, n)
    ensures n == 0 ==> LittleEndian(code, pc, n + 1) == code[pc]
  {
  }

  /** The memory: smallest size, largest size, and whether it is exported; nothing else of the module changes. */
  lemma MemoryIs(code: seq<byte>, limit: nat, pc: nat, m: WasmModule)
    ensures ReadMemory(code, limit, pc, m) ==
      if pc + 3 <= limit <= |code| then
        At(m.(minMem := code[pc], maxMem := code[pc + 1], memExport := code[pc + 2] != 0), pc + 3)
      else Off
  {
    hide Fixed;
    FixedIs(code, limit, pc);
    FixedIs(code, limit, pc + 1);
    FixedIs(code, limit, pc + 2);
  }

  /** A global: where its name is, its memory type, and whether it is exported. */
  lemma GlobalIs(code: seq<byte>, limit: nat, pc: nat)
    ensures ReadGlobal(code, limit, pc) ==
      if pc + 6 <= limit <= |code| && Long(code, pc) <= limit && code[pc + 4] < 10 then
        At(Global(Long(code, pc), code[pc + 4], code[pc + 5] != 0), pc + 6)
      else Off
  {
    hide Fixed;
    FixedIs(code, limit, pc);
    FixedIs(code, limit, pc + 4);
    FixedIs(code, limit, pc + 5);
  }

  /** A data segment: destination, source, size, and whether it is loaded. */
  lemma SegmentIs(code: seq<byte>, limit: nat, pc: nat)
    ensures ReadSegment(code, limit, pc) ==
      if pc + 13 <= limit <= |code| && Long(code, pc + 4) <= limit then
        At(Segment(Long(code, pc), Long(code, pc + 4), Long(code, pc + 8), code[pc + 12] != 0), pc + 13)
      else Off
  {
    hide Fixed, Long;
    FixedIs(code, limit, pc);
    FixedIs(code, limit, pc + 4);
    FixedIs(code, limit, pc + 8);
    FixedIs(code, limit, pc + 12);
  }

  lemma EntryIs(code: seq<byte>, limit: nat, pc: nat, functions: nat)
    ensures ReadEntry(code, limit, pc, functions) ==
      if pc + 2 <= limit <= |code| && Short(code, pc) < functions then At(Short(code, pc), pc + 2) else Off
  {
    hide Fixed;
    FixedIs(code, limit, pc);
  }

  /** The codes of value types are in the order of the loads of whole words. */
  predicate IsCode(c: byte, ty: LocalType) {
    (c == 0 && ty.Stmt?) || (IsValue(ty) && c == 1 + M.TypeCode(ty))
  }

  lemma TypeIs(code: seq<byte>, limit: nat, pc: nat, ty: LocalType)
    ensures ReadType(code, limit, pc) == At(ty, pc + 1) <==> pc + 1 <= limit <= |code| && IsCode(code[pc], ty)
    ensures ReadType(code, limit, pc).At? ==> ReadType(code, limit, pc).pc == pc + 1
  {
    hide Fixed;
    FixedIs(code, limit, pc);
  }

  lemma {:induction false} ParamsAre(code: seq<byte>, limit: nat, pc: nat, ts: seq<ValueType>)
    requires pc <= limit
    ensures ReadParams(code, limit, pc, |ts|) == At(ts, pc + |ts|)
      <==> pc + |ts| <= limit && (ts == [] || limit <= |code|)
           && forall i :: 0 <= i < |ts| ==> IsCode(code[pc + i], ts[i])
    decreases |ts|
  {
    hide ReadType, IsCode;
    if ts != [] {
      TypeIs(code, limit, pc, ts[0]);
      assert ts == [ts[0]] + ts[1..];
      if pc + 1 <= limit {
        ParamsAre(code, limit, pc + 1, ts[1..]);
        if pc + |ts| <= limit <= |code| {
          Shifted(code, pc, ts);
        }
      }
    }
  }

  lemma Shifted(code: seq<byte>, pc: nat, ts: seq<ValueType>)
    requires ts != [] && pc + |ts| <= |code|
    ensures (forall i :: 0 <= i < |ts| ==> IsCode(code[pc + i], ts[i]))
       <==> IsCode(code[pc], ts[0]) && forall i :: 0 <= i < |ts[1..]| ==> IsCode(code[pc + 1 + i], ts[1..][i])
  {
    hide IsCode;
    if IsCode(code[pc], ts[0]) && forall i :: 0 <= i < |ts[1..]| ==> IsCode(code[pc + 1 + i], ts[1..][i]) {
      forall i | 0 <= i < |ts| ensures IsCode(code[pc + i], ts[i]) {
        if i > 0 { assert IsCode(code[pc + 1 + (i - 1)], ts[1..][i - 1]); }
      }
    }
    if forall i :: 0 <= i < |ts| ==> IsCode(code[pc + i], ts[i]) {
      assert IsCode(code[pc + 0], ts[0]);
      forall i | 0 <= i < |ts[1..]| ensures IsCode(code[pc + 1 + i], ts[1..][i]) {
        assert IsCode(code[pc + (i + 1)], ts[i + 1]);
      }
    }
  }

  /** A signature: the number of parameters, the type of the result, and the types of the parameters. */
  lemma SigIs(code: seq<byte>, limit: nat, pc: nat, s: FunctionSig)
    ensures ReadSig(code, limit, pc) == At(s, pc + 2 + |s.params|)
      <==> pc + 2 + |s.params| <= limit <= |code| && code[pc] == |s.params| && IsCode(code[pc + 1], s.ret)
           && forall i :: 0 <= i < |s.params| ==> IsCode(code[pc + 2 + i], s.params[i])
  {
    hide Fixed, ReadType, ReadParams, IsCode;
    FixedIs(code, limit, pc);
    TypeIs(code, limit, pc + 1, s.ret);
    if pc + 2 <= limit { ParamsAre(code, limit, pc + 2, s.params); }
  }

  /** Where the locals of a function entry, and then the size of its body, are. */
  function LocalsAt(code: seq<byte>, pc: nat): nat
    requires pc < |code|
  {
    pc + 3 + if Flag(code[pc], 1) then 4 else 0
  }

  function SizeAt(code: seq<byte>, pc: nat): nat
    requires pc < |code|
  {
    LocalsAt(code, pc) + if Flag(code[pc], 4) then 8 else 0
  }

  /** The entry is complete, and what it names is there. */
  predicate EntryFits(code: seq<byte>, limit: nat, pc: nat, sigs: seq<FunctionSig>) {
    && pc + 3 <= limit <= |code| && Short(code, pc + 1) < |sigs|
    && (Flag(code[pc], 1) ==> pc + 7 <= limit && Long(code, pc + 3) <= limit)
    && (!Flag(code[pc], 2) ==>
        SizeAt(code, pc) + 2 <= limit && SizeAt(code, pc) + 2 + Short(code, SizeAt(code, pc)) <= limit)
  }

  /** The numbers of locals of each type, none if the flag is not set. */
  function LocalCount(code: seq<byte>, pc: nat, k: nat): nat
    requires pc < |code| && k < 4 && SizeAt(code, pc) <= |code|
  {
    if Flag(code[pc], 4) then Short(code, LocalsAt(code, pc) + 2 * k) else 0
  }

  function FunctionAt(code: seq<byte>, limit: nat, pc: nat, sigs: seq<FunctionSig>): Function
    requires EntryFits(code, limit, pc, sigs)
  {
    var index := Short(code, pc + 1);
    var name := if Flag(code[pc], 1) then Long(code, pc + 3) else 0;
    if Flag(code[pc], 2) then Function(sigs[index], index, name, 0, 0, 0, 0, 0, 0, Flag(code[pc], 8), true)
    else
      var at := SizeAt(code, pc) + 2;
      Function(sigs[index], index, name, at, at + Short(code, at - 2), LocalCount(code, pc, 0), LocalCount(code, pc, 1),
               LocalCount(code, pc, 2), LocalCount(code, pc, 3), Flag(code[pc], 8), false)
  }

  lemma BodyIs(code: seq<byte>, limit: nat, pc: nat, f: Function, locals: bool)
    ensures var at := pc + if locals then 8 else 0;
      ReadBody(code, limit, pc, f, locals) ==
        if at + 2 <= limit <= |code| && at + 2 + Short(code, at) <= limit then
          At(f.(codeStart := at + 2, codeEnd := at + 2 + Short(code, at),
                int32s := if locals then Short(code, pc) else 0, int64s := if locals then Short(code, pc + 2) else 0,
                float32s := if locals then Short(code, pc + 4) else 0,
                float64s := if locals then Short(code, pc + 6) else 0), at + 2 + Short(code, at))
        else Off
  {
    hide Fixed, Short;
    FixedIs(code, limit, pc);
    FixedIs(code, limit, pc + 2);
    FixedIs(code, limit, pc + 4);
    FixedIs(code, limit, pc + 6);
    FixedIs(code, limit, pc + 8);
  }

  /** A function entry: flags, signature, and by the flags a name, counts of locals, and a body. */
  lemma FunctionIs(code: seq<byte>, limit: nat, pc: nat, sigs: seq<FunctionSig>)
    ensures ReadFunction(code, limit, pc, sigs) ==
      if EntryFits(code, limit, pc, sigs) then
        At(FunctionAt(code, limit, pc, sigs),
           if Flag(code[pc], 2) then LocalsAt(code, pc) else FunctionAt(code, limit, pc, sigs).codeEnd)
      else Off
  {
    hide Fixed, Short, Long, Flag, Bit, ReadBody;
    FixedIs(code, limit, pc);
    FixedIs(code, limit, pc + 1);
    FixedIs(code, limit, pc + 3);
    if pc + 3 <= limit <= |code| {
      FlagIs(code[pc]);
      var index := Short(code, pc + 1);
      if index < |sigs| && !Flag(code[pc], 2) {
        var name := if Flag(code[pc], 1) then ReadOffset(code, limit, pc + 3) else At(0, pc + 3);
        if name.At? {
          var f := Function(sigs[index], index, name.value, 0, 0, 0, 0, 0, 0, Flag(code[pc], 8), false);
          BodyIs(code, limit, name.pc, f, Flag(code[pc], 4));
        }
      }
    }
  }

  // ----- Types of memory -----

  /** Integers of one, two, four or eight bytes, and the two floats. */
  datatype Mem = IntMem(log: nat, signed: bool) | FloatMem(wide: bool)

  function MemCode(k: Mem): MemType
    requires k.IntMem? ==> k.log < 4
  {
    match k
    case IntMem(log, signed) => 2 * log + if signed then 0 else 1
    case FloatMem(wide) => if wide then 9 else 8
  }

  lemma Powers()
    ensures Pow2(0) == 1 && Pow2(1) == 2 && Pow2(2) == 4 && Pow2(3) == 8
  {
  }

  /** A global takes the bytes of its memory type, and is worked on as the smallest value type that holds it. */
  lemma MemIs(k: Mem)
    requires k.IntMem? ==> k.log < 4
    ensures Y.MemSize(MemCode(k)) == if k.IntMem? then Pow2(k.log) else if k.wide then 8 else 4
    ensures ValueTypeOf(MemCode(k)) == if k.IntMem? then M.Int(k.log == 3) else M.Float(k.wide)
  {
    hide Pow2;
    Powers();
  }

  /** Every memory type is one of those. */
  lemma MemNamed(t: MemType) returns (k: Mem)
    ensures (k.IntMem? ==> k.log < 4) && MemCode(k) == t
  {
    k := if t < 8 then IntMem(t / 2, t % 2 == 0) else FloatMem(t == 9);
  }

  /** The bytes of a value of a type: as many as its constants are written in. */
  function Bytes(ty: ValueType): nat {
    var l := if ty.I32? then M.I32Const(0) else if ty.I64? then M.I64Const(0)
             else if ty.F32? then M.F32Const(0) else M.F64Const(0);
    |M.Assemble(ModuleEnv([], [], [], false), l)| - 1
  }

  /** Whole values in memory are as long as constants in code, and parts are shorter. */
  lemma GlobalsHold(t: MemType)
    ensures Y.MemSize(t) <= Bytes(ValueTypeOf(t)) && (t >= 4 ==> Y.MemSize(t) == Bytes(ValueTypeOf(t)))
  {
    ConstantBytes(ValueTypeOf(t));
  }

  lemma ConstantBytes(ty: ValueType)
    ensures Bytes(ty) == if ty.I32? || ty.F32? then 4 else 8
  {
  }

  /** A value takes the fewest stack words that hold it. */
  lemma WordsHold(ty: ValueType, wide: bool)
    ensures var n, word := Y.Words(ty, wide), if wide then 8 else 4; (n - 1) * word < Bytes(ty) <= n * word
  {
    ConstantBytes(ty);
  }

  /** The two floats go to float registers, and the two integers to the others. */
  lemma Classes(wide: bool)
    ensures Y.IsFloat(M.Float(wide)) && !Y.IsFloat(M.Int(wide))
  {
  }

  // ----- What is verified -----

  /** A body is verified with the parameters of its signature, its own locals in order, and its result. */
  lemma VerifiedAs(f: Function)
    ensures F.LocalTypes(DeclOf(f)) == f.sig.params + F.Copies(f.int32s, I32) + F.Copies(f.int64s, I64)
      + F.Copies(f.float32s, F32) + F.Copies(f.float64s, F64)
    ensures DeclOf(f).ret == f.sig.ret && DeclOf(f).params == f.sig.params
  {
  }

  /** And with the value types of the globals and the signatures of the functions in their order. */
  lemma {:induction false} VerifiedIn(gs: seq<Global>, fs: seq<Function>)
    ensures |GlobalTypes(gs)| == |gs| && forall i :: 0 <= i < |gs| ==> GlobalTypes(gs)[i] == ValueTypeOf(gs[i].ty)
    ensures |Signatures(fs)| == |fs| && forall i :: 0 <= i < |fs| ==> Signatures(fs)[i] == fs[i].sig
    decreases |gs| + |fs|
  {
    if gs != [] { VerifiedIn(gs[1..], []); }
    if fs != [] && gs == [] { VerifiedIn(gs, fs[1..]); }
    if fs != [] && gs != [] { VerifiedIn([], fs); }
  }
}
