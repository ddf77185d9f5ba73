/** An assembly language for function bodies: instructions by name, how they are written as bytes, and what they
    are. Reading an instruction gives exactly what was written. */
module Assembly {
  import opened Syntax
  import opened Leb128
  import opened Opcodes
  import opened ByteLists

  // ----- Operators with a fixed signature -----

  datatype IntOp = Add | Sub | Mul | DivS | DivU | RemS | RemU | And | Ior | Xor | Shl | ShrU | ShrS
  datatype IntTest = Eq | Ne | LtS | LeS | LtU | LeU | GtS | GeS | GtU | GeU
  datatype IntCount = Clz | Ctz | Popcnt
  datatype FloatOp = FAdd | FSub | FMul | FDiv | FMin | FMax | FCopySign
  datatype FloatUn = FAbs | FNeg | FCeil | FFloor | FTrunc | FNearestInt | FSqrt
  datatype FloatTest = FEq | FNe | FLt | FLe | FGt | FGe

  datatype Conversion =
    | I32SConvertF32 | I32SConvertF64 | I32UConvertF32 | I32UConvertF64 | I32ConvertI64
    | I64SConvertF32 | I64SConvertF64 | I64UConvertF32 | I64UConvertF64 | I64SConvertI32 | I64UConvertI32
    | F32SConvertI32 | F32UConvertI32 | F32SConvertI64 | F32UConvertI64 | F32ConvertF64 | F32ReinterpretI32
    | F64SConvertI32 | F64UConvertI32 | F64SConvertI64 | F64UConvertI64 | F64ConvertF32 | F64ReinterpretI64
    | I32ReinterpretF32 | I64ReinterpretF64

  /** Integer and float operators come in two widths. */
  datatype Simple =
    | IntBin(wide: bool, bin: IntOp)
    | IntCmp(wide: bool, test: IntTest)
    | IntCnt(wide: bool, count: IntCount)
    | BoolNot
    | FloatBin(wide: bool, fbin: FloatOp)
    | FloatUnary(wide: bool, fun: FloatUn)
    | FloatCmp(wide: bool, ftest: FloatTest)
    | Convert(conv: Conversion)

  function Int(wide: bool): ValueType {
    if wide then I64 else I32
  }

  function Float(wide: bool): ValueType {
    if wide then F64 else F32
  }

  function From(c: Conversion): ValueType {
    match c
    case I32SConvertF32 | I32UConvertF32 | I64SConvertF32 | I64UConvertF32 | F64ConvertF32 | I32ReinterpretF32 => F32
    case I32SConvertF64 | I32UConvertF64 | I64SConvertF64 | I64UConvertF64 | F32ConvertF64 | I64ReinterpretF64 => F64
    case I32ConvertI64 | F32SConvertI64 | F32UConvertI64 | F64SConvertI64 | F64UConvertI64 | F64ReinterpretI64 => I64
    case _ => I32
  }

  function To(c: Conversion): ValueType {
    match c
    case I32SConvertF32 | I32SConvertF64 | I32UConvertF32 | I32UConvertF64 | I32ConvertI64 | I32ReinterpretF32 => I32
    case F32SConvertI32 | F32UConvertI32 | F32SConvertI64 | F32UConvertI64 | F32ConvertF64 | F32ReinterpretI32 => F32
    case F64SConvertI32 | F64UConvertI32 | F64SConvertI64 | F64UConvertI64 | F64ConvertF32 | F64ReinterpretI64 => F64
    case _ => I64
  }

  function Params(s: Simple): seq<ValueType> {
    match s
    case IntBin(w, _) => [Int(w), Int(w)]
    case IntCmp(w, _) => [Int(w), Int(w)]
    case IntCnt(w, _) => [Int(w)]
    case BoolNot => [I32]
    case FloatBin(w, _) => [Float(w), Float(w)]
    case FloatUnary(w, _) => [Float(w)]
    case FloatCmp(w, _) => [Float(w), Float(w)]
    case Convert(c) => [From(c)]
  }

  /** A test gives a 32-bit integer, whatever it compares. */
  function Result(s: Simple): ValueType {
    match s
    case IntBin(w, _) => Int(w)
    case IntCmp(_, _) => I32
    case IntCnt(w, _) => Int(w)
    case BoolNot => I32
    case FloatBin(w, _) => Float(w)
    case FloatUnary(w, _) => Float(w)
    case FloatCmp(_, _) => I32
    case Convert(c) => To(c)
  }

  predicate Divides(s: Simple) {
    s.IntBin? && (s.bin.DivS? || s.bin.DivU? || s.bin.RemS? || s.bin.RemU?)
  }

  function IntOpAt(k: nat): IntOp {
    if k == 0 then Add else if k == 1 then Sub else if k == 2 then Mul else if k == 3 then DivS else if k == 4 then DivU
    else if k == 5 then RemS else if k == 6 then RemU else if k == 7 then And else if k == 8 then Ior
    else if k == 9 then Xor else if k == 10 then Shl else if k == 11 then ShrU else ShrS
  }

  function IntOpCode(o: IntOp): nat {
    match o
    case Add => 0 case Sub => 1 case Mul => 2 case DivS => 3 case DivU => 4 case RemS => 5 case RemU => 6
    case And => 7 case Ior => 8 case Xor => 9 case Shl => 10 case ShrU => 11 case ShrS => 12
  }

  function IntTestAt(k: nat): IntTest {
    if k == 0 then Eq else if k == 1 then Ne else if k == 2 then LtS else if k == 3 then LeS else if k == 4 then LtU
    else if k == 5 then LeU else if k == 6 then GtS else if k == 7 then GeS else if k == 8 then GtU else GeU
  }

  function IntTestCode(o: IntTest): nat {
    match o
    case Eq => 0 case Ne => 1 case LtS => 2 case LeS => 3 case LtU => 4
    case LeU => 5 case GtS => 6 case GeS => 7 case GtU => 8 case GeU => 9
  }

  function IntCountAt(k: nat): IntCount {
    if k == 0 then Clz else if k == 1 then Ctz else Popcnt
  }

  function IntCountCode(o: IntCount): nat {
    match o
    case Clz => 0 case Ctz => 1 case Popcnt => 2
  }

  function FloatOpCode(o: FloatOp): nat {
    match o
    case FAdd => 0 case FSub => 1 case FMul => 2 case FDiv => 3 case FMin => 4 case FMax => 5 case FCopySign => 8
  }

  function FloatUnCode(o: FloatUn): nat {
    match o
    case FAbs => 6 case FNeg => 7 case FCeil => 9 case FFloor => 10 case FTrunc => 11 case FNearestInt => 12
    case FSqrt => 13
  }

  function FloatTestCode(o: FloatTest): nat {
    match o
    case FEq => 14 case FNe => 15 case FLt => 16 case FLe => 17 case FGt => 18 case FGe => 19
  }

  /** The k-th float operator of one width. */
  function FloatAt(wide: bool, k: nat): Simple {
    if k == 0 then FloatBin(wide, FAdd) else if k == 1 then FloatBin(wide, FSub)
      else if k == 2 then FloatBin(wide, FMul)
    else if k == 3 then FloatBin(wide, FDiv) else if k == 4 then FloatBin(wide, FMin)
    else if k == 5 then FloatBin(wide, FMax) else if k == 6 then FloatUnary(wide, FAbs)
    else if k == 7 then FloatUnary(wide, FNeg) else if k == 8 then FloatBin(wide, FCopySign)
    else if k == 9 then FloatUnary(wide, FCeil) else if k == 10 then FloatUnary(wide, FFloor)
    else if k == 11 then FloatUnary(wide, FTrunc) else if k == 12 then FloatUnary(wide, FNearestInt)
    else if k == 13 then FloatUnary(wide, FSqrt) else if k == 14 then FloatCmp(wide, FEq)
    else if k == 15 then FloatCmp(wide, FNe) else if k == 16 then FloatCmp(wide, FLt)
    else if k == 17 then FloatCmp(wide, FLe) else if k == 18 then FloatCmp(wide, FGt) else FloatCmp(wide, FGe)
  }

  function ConversionCode(c: Conversion): nat {
    match c
    case I32SConvertF32 => 0x9d case I32SConvertF64 => 0x9e case I32UConvertF32 => 0x9f case I32UConvertF64 => 0xa0
    case I32ConvertI64 => 0xa1 case I64SConvertF32 => 0xa2 case I64SConvertF64 => 0xa3 case I64UConvertF32 => 0xa4
    case I64UConvertF64 => 0xa5 case I64SConvertI32 => 0xa6 case I64UConvertI32 => 0xa7 case F32SConvertI32 => 0xa8
    case F32UConvertI32 => 0xa9 case F32SConvertI64 => 0xaa case F32UConvertI64 => 0xab case F32ConvertF64 => 0xac
    case F32ReinterpretI32 => 0xad case F64SConvertI32 => 0xae case F64UConvertI32 => 0xaf case F64SConvertI64 => 0xb0
    case F64UConvertI64 => 0xb1 case F64ConvertF32 => 0xb2 case F64ReinterpretI64 => 0xb3
    case I32ReinterpretF32 => 0xb4 case I64ReinterpretF64 => 0xb5
  }

  function ConversionAt(k: nat): Conversion {
    if k == 0x9d then I32SConvertF32 else if k == 0x9e then I32SConvertF64 else if k == 0x9f then I32UConvertF32
    else if k == 0xa0 then I32UConvertF64 else if k == 0xa1 then I32ConvertI64 else if k == 0xa2 then I64SConvertF32
    else if k == 0xa3 then I64SConvertF64 else if k == 0xa4 then I64UConvertF32 else if k == 0xa5 then I64UConvertF64
    else if k == 0xa6 then I64SConvertI32 else if k == 0xa7 then I64UConvertI32 else if k == 0xa8 then F32SConvertI32
    else if k == 0xa9 then F32UConvertI32 else if k == 0xaa then F32SConvertI64 else if k == 0xab then F32UConvertI64
    else if k == 0xac then F32ConvertF64 else if k == 0xad then F32ReinterpretI32 else if k == 0xae then F64SConvertI32
    else if k == 0xaf then F64UConvertI32 else if k == 0xb0 then F64SConvertI64 else if k == 0xb1 then F64UConvertI64
    else if k == 0xb2 then F64ConvertF32 else if k == 0xb3 then F64ReinterpretI64
    else if k == 0xb4 then I32ReinterpretF32 else I64ReinterpretF64
  }

  function Opcode(s: Simple): (c: byte)
    ensures 0x40 <= c <= 0xb5
  {
    match s
    case IntBin(w, o) => (if w then 0x5b else 0x40) + IntOpCode(o)
    case IntCmp(w, o) => (if w then 0x68 else 0x4d) + IntTestCode(o)
    case IntCnt(w, o) => (if w then 0x72 else 0x57) + IntCountCode(o)
    case BoolNot => 0x5a
    case FloatBin(w, o) => (if w then 0x89 else 0x75) + FloatOpCode(o)
    case FloatUnary(w, o) => (if w then 0x89 else 0x75) + FloatUnCode(o)
    case FloatCmp(w, o) => (if w then 0x89 else 0x75) + FloatTestCode(o)
    case Convert(c) => ConversionCode(c)
  }

  function SimpleAt(c: byte): Simple {
    if c < 0x4d then IntBin(false, IntOpAt(if c < 0x40 then 0 else c - 0x40))
    else if c < 0x57 then IntCmp(false, IntTestAt(c - 0x4d))
    else if c < 0x5a then IntCnt(false, IntCountAt(c - 0x57))
    else if c == 0x5a then BoolNot
    else if c < 0x68 then IntBin(true, IntOpAt(c - 0x5b))
    else if c < 0x72 then IntCmp(true, IntTestAt(c - 0x68))
    else if c < 0x75 then IntCnt(true, IntCountAt(c - 0x72))
    else if c < 0x89 then FloatAt(false, c - 0x75)
    else if c < 0x9d then FloatAt(true, c - 0x89)
    else Convert(ConversionAt(c))
  }

  lemma FloatPlaced(wide: bool, k: nat)
    requires k < 20
    ensures Opcode(FloatAt(wide, k)) == (if wide then 0x89 else 0x75) + k
  {
  }

  lemma ConversionPlaced(c: byte)
    requires 0x9d <= c <= 0xb5
    ensures ConversionCode(ConversionAt(c)) == c
  {
  }

  /** Every opcode of the range is the opcode of an operator. */
  lemma OpcodesNamed(c: byte)
    requires 0x40 <= c <= 0xb5
    ensures Opcode(SimpleAt(c)) == c
  {
    hide ConversionCode, ConversionAt, FloatAt;
    if 0x75 <= c < 0x89 { FloatPlaced(false, c - 0x75); }
    if 0x89 <= c < 0x9d { FloatPlaced(true, c - 0x89); }
    if 0x9d <= c { ConversionPlaced(c); }
  }

  lemma ConversionSigs(c: Conversion)
    ensures SimpleSig(ConversionCode(c)) == ([From(c)], To(c))
  {
  }

  /** The signature table: every operator has the operand and result types of its name, and exactly the divisions
      and remainders check their operands. */
  lemma SignaturesNamed(s: Simple)
    ensures SimpleSig(Opcode(s)) == (Params(s), Result(s)) && (SimpleTraps(Opcode(s)) <==> Divides(s))
  {
    hide ConversionCode, From, To;
    if s.Convert? { ConversionSigs(s.conv); ConversionFar(s.conv); }
  }

  lemma ConversionFar(c: Conversion)
    ensures 0x9d <= ConversionCode(c) <= 0xb5
  {
  }

  // ----- Memory accesses -----

  /** Part of a word in memory: 8, 16 or 32 bits. */
  datatype Part = P8 | P16 | P32

  datatype Load = PartLoad(wide: bool, part: Part, signed: bool) | WholeLoad(ty: ValueType)
  datatype Store = PartStore(wide: bool, part: Part) | WholeStore(ty: ValueType)

  /** A 32-bit integer has no 32-bit part. */
  predicate LoadOk(l: Load) {
    l.PartLoad? && !l.wide ==> !l.part.P32?
  }

  predicate StoreOk(s: Store) {
    s.PartStore? && !s.wide ==> !s.part.P32?
  }

  function LoadResult(l: Load): ValueType {
    match l
    case PartLoad(w, _, _) => Int(w)
    case WholeLoad(ty) => ty
  }

  function Stored(s: Store): ValueType {
    match s
    case PartStore(w, _) => Int(w)
    case WholeStore(ty) => ty
  }

  function PartCode(p: Part): nat {
    match p
    case P8 => 0 case P16 => 1 case P32 => 2
  }

  function TypeCode(ty: ValueType): nat {
    match ty
    case I32 => 0 case I64 => 1 case F32 => 2 case F64 => 3
  }

  function LoadCode(l: Load): (c: byte)
    ensures 0x20 <= c <= 0x2d
  {
    match l
    case PartLoad(w, p, s) => (if w then 0x24 else 0x20) + 2 * PartCode(p) + if s then 0 else 1
    case WholeLoad(ty) => 0x2a + TypeCode(ty)
  }

  function StoreCode(s: Store): (c: byte)
    ensures 0x2e <= c <= 0x36
  {
    match s
    case PartStore(w, p) => (if w then 0x30 else 0x2e) + PartCode(p)
    case WholeStore(ty) => 0x33 + TypeCode(ty)
  }

  function TypeAt(k: nat): ValueType {
    if k == 0 then I32 else if k == 1 then I64 else if k == 2 then F32 else F64
  }

  function PartAt(k: nat): Part {
    if k == 0 then P8 else if k == 1 then P16 else P32
  }

  function LoadAt(c: byte): Load {
    if c < 0x24 then PartLoad(false, PartAt(if c < 0x20 then 0 else (c - 0x20) / 2), c % 2 == 0)
    else if c < 0x2a then PartLoad(true, PartAt((c - 0x24) / 2), c % 2 == 0)
    else WholeLoad(TypeAt(c - 0x2a))
  }

  function StoreAt(c: byte): Store {
    if c < 0x30 then PartStore(false, PartAt(if c < 0x2e then 0 else c - 0x2e))
    else if c < 0x33 then PartStore(true, PartAt(c - 0x30))
    else WholeStore(TypeAt(c - 0x33))
  }

  /** Every load and store has the type of the word it is a part of. */
  lemma AccessesNamed(l: Load, s: Store)
    requires LoadOk(l) && StoreOk(s)
    ensures LoadType(LoadCode(l)) == LoadResult(l) && StoreType(LoadCode(l)) == Stmt
    ensures StoreType(StoreCode(s)) == Stored(s) && LoadType(StoreCode(s)) == Stmt
  {
  }

  lemma LoadsNamed(c: byte)
    requires IsValue(LoadType(c))
    ensures LoadOk(LoadAt(c)) && LoadCode(LoadAt(c)) == c
  {
  }

  lemma StoresNamed(c: byte)
    requires IsValue(StoreType(c))
    ensures StoreOk(StoreAt(c)) && StoreCode(StoreAt(c)) == c
  {
  }

  // ----- Instructions -----

  /** One instruction as it is written; an index or offset is written as groups of seven bits. */
  datatype Line =
    | NopLine | IfLine | IfElseLine | SelectLine | ReturnLine | UnreachableLine
    | BlockLine(n: byte) | LoopLine(n: byte) | BrLine(n: byte) | BrIfLine(n: byte)
    | I8Const(i: int) | I32Const(i: int) | I64Const(i: int) | F32Const(f: int) | F64Const(f: int)
    | GetLocalLine(index: seq<byte>) | SetLocalLine(index: seq<byte>)
    | LoadGlobal(index: seq<byte>) | StoreGlobal(index: seq<byte>)
    | CallFunction(index: seq<byte>) | CallIndirect(index: seq<byte>)
    | LoadLine(load: Load, access: byte, offset: seq<byte>)
    | StoreLine(store: Store, access: byte, offset: seq<byte>)
    | MemorySize | GrowMemory
    | SimpleLine(op: Simple)

  /** A number written in groups of seven bits: at most five, of which only the last has its top bit clear. */
  predicate Groups(s: seq<byte>) {
    0 < |s| <= 5 && s[|s| - 1] < 128 && forall i :: 0 <= i < |s| - 1 ==> s[i] >= 128
  }

  function Number(s: seq<byte>): nat {
    Value(s) % U32
  }

  /** The access byte says whether an offset follows. */
  predicate OffsetOk(access: byte, offset: seq<byte>) {
    if (access as bv8) & 0x10 != 0 then Groups(offset) else offset == []
  }

  lemma OffsetBit(access: byte)
    ensures (access as bv8) & 0x10 != 0 <==> access / 16 % 2 == 1
  {
  }

  function Half(bytes: nat): int {
    if bytes == 1 then 0x80 else if bytes == 4 then 0x8000_0000 else 0x8000_0000_0000_0000
  }

  /** Operands are in range, and what an index names is there. */
  predicate LineOk(menv: ModuleEnv, l: Line) {
    match l
    case I8Const(i) => 0 - Half(1) <= i < Half(1)
    case I32Const(i) => 0 - Half(4) <= i < Half(4)
    case I64Const(i) => 0 - Half(8) <= i < Half(8)
    case F32Const(f) => 0 <= f < 2 * Half(4)
    case F64Const(f) => 0 <= f < 2 * Half(8)
    case GetLocalLine(x) => Groups(x)
    case SetLocalLine(x) => Groups(x)
    case LoadGlobal(x) => Groups(x) && Number(x) < |menv.globals|
    case StoreGlobal(x) => Groups(x) && Number(x) < |menv.globals|
    case CallFunction(x) => Groups(x) && Number(x) < |menv.functions|
    case CallIndirect(x) => Groups(x) && Number(x) < |menv.signatures|
    case LoadLine(load, a, x) => LoadOk(load) && OffsetOk(a, x)
    case StoreLine(store, a, x) => StoreOk(store) && OffsetOk(a, x)
    case _ => true
  }

  /** Two's complement in the given number of bytes. */
  function Complement(i: int, bytes: nat): nat
    requires 0 - Half(bytes) <= i
  {
    if i >= 0 then i else i + 2 * Half(bytes)
  }

  function Assemble(menv: ModuleEnv, l: Line): seq<byte>
    requires LineOk(menv, l)
  {
    match l
    case NopLine => [0x00]
    case BlockLine(n) => [0x01, n]
    case LoopLine(n) => [0x02, n]
    case IfLine => [0x03]
    case IfElseLine => [0x04]
    case SelectLine => [0x05]
    case BrLine(n) => [0x06, n]
    case BrIfLine(n) => [0x07, n]
    case I8Const(i) => [0x09] + Word(Complement(i, 1), 1)
    case I32Const(i) => [0x0a] + Word(Complement(i, 4), 4)
    case I64Const(i) => [0x0b] + Word(Complement(i, 8), 8)
    case F64Const(f) => [0x0c] + Word(f, 8)
    case F32Const(f) => [0x0d] + Word(f, 4)
    case GetLocalLine(x) => [0x0e] + x
    case SetLocalLine(x) => [0x0f] + x
    case LoadGlobal(x) => [0x10] + x
    case StoreGlobal(x) => [0x11] + x
    case CallFunction(x) => [0x12] + x
    case CallIndirect(x) => [0x13] + x
    case ReturnLine => [0x14]
    case UnreachableLine => [0x15]
    case LoadLine(load, a, x) => [LoadCode(load), a] + x
    case StoreLine(store, a, x) => [StoreCode(store), a] + x
    case GrowMemory => [0x39]
    case MemorySize => [0x3b]
    case SimpleLine(op) => [Opcode(op)]
  }

  /** What an instruction is. Globals, calls and memory are effects. Divisions, indirect calls and, outside of
      asm.js, memory accesses can trap. A store has the value it stores, and only a store of a global is strict. */
  function Means(menv: ModuleEnv, l: Line): Instr
    requires LineOk(menv, l)
  {
    match l
    case NopLine => Nop
    case BlockLine(n) => Block(n)
    case LoopLine(n) => Loop(n)
    case IfLine => If
    case IfElseLine => IfElse
    case SelectLine => Select
    case BrLine(n) => Br(n)
    case BrIfLine(n) => BrIf(n)
    case I8Const(i) => Const(I32, i)
    case I32Const(i) => Const(I32, i)
    case I64Const(i) => Const(I64, i)
    case F32Const(f) => Const(F32, f)
    case F64Const(f) => Const(F64, f)
    case GetLocalLine(x) => GetLocal(Number(x))
    case SetLocalLine(x) => SetLocal(Number(x))
    case LoadGlobal(x) =>
      Apply(Operator(0x10, Number(x), [], menv.globals[Number(x)], false, true, false, false))
    case StoreGlobal(x) =>
      var ty := menv.globals[Number(x)];
      Apply(Operator(0x11, Number(x), [ty], ty, false, true, true, true))
    case CallFunction(x) =>
      var sig := menv.functions[Number(x)];
      Apply(Operator(0x12, Number(x), sig.params, sig.ret, false, true, false, false))
    case CallIndirect(x) =>
      var sig := menv.signatures[Number(x)];
      Apply(Operator(0x13, Number(x), [I32] + sig.params, sig.ret, true, true, false, false))
    case ReturnLine => Return
    case UnreachableLine => Unreachable
    case LoadLine(load, _, x) =>
      Apply(Operator(LoadCode(load), Number(x), [I32], LoadResult(load), !menv.asmJs, true, false, false))
    case StoreLine(store, _, x) =>
      Apply(Operator(StoreCode(store), Number(x), [I32, Stored(store)], Stored(store), !menv.asmJs, true, true, false))
    case GrowMemory => Apply(Operator(0x39, 0, [I32], I32, false, false, false, false))
    case MemorySize => Apply(Operator(0x3b, 0, [], I32, false, false, false, false))
    case SimpleLine(op) => Apply(Operator(Opcode(op), 0, Params(op), Result(op), Divides(op), false, false, false))
  }

  // ----- Reading what was written -----

  lemma GroupsRead(code: seq<byte>, pc: nat, x: seq<byte>)
    requires Groups(x) && Has(code, pc, x)
    ensures ReadAt(code, pc) == Read(Number(x), |x|, NoError)
  {
    hide Value;
    forall i | 0 <= i < |x| ensures code[pc + i] == x[i] { HasAt(code, pc, x, i); }
    TakenMore(code, pc, |x| - 1, 5);
  }

  lemma IndexReads(menv: ModuleEnv, code: seq<byte>, pc: nat, c: byte, x: seq<byte>)
    requires 0x0e <= c <= 0x13 && Groups(x) && Has(code, pc, [c] + x)
    ensures pc < |code| && code[pc] == c && IndexOperand(code, pc) == Read(Number(x), |x|, NoError)
  {
    hide Groups, ReadAt, Number;
    HasCat(code, pc, [c], x);
    HasAt(code, pc, [c], 0);
    GroupsRead(code, pc + 1, x);
  }

  lemma AccessReads(code: seq<byte>, pc: nat, c: byte, a: byte, x: seq<byte>)
    requires OffsetOk(a, x) && Has(code, pc, [c, a] + x)
    ensures pc + 1 < |code| && code[pc] == c && MemoryOperand(code, pc) == Read(Number(x), 2 + |x|, NoError)
  {
    hide Groups, ReadAt, Value;
    HasCat(code, pc, [c, a], x);
    HasAt(code, pc, [c, a], 0);
    HasAt(code, pc, [c, a], 1);
    OffsetBit(a);
    if x != [] { GroupsRead(code, pc + 2, x); } else { NoGroups(); }
  }

  lemma NoGroups()
    ensures Number([]) == 0 && !Groups([])
  {
  }

  lemma OneByte()
    ensures Pow2(0) == 1 && Pow2(8) == 0x100
  {
  }

  lemma EightBytes()
    ensures Pow2(0) == 1 && Pow2(8) == 0x100 && Pow2(32) == 0x1_0000_0000 && Pow2(64) == 0x1_0000_0000_0000_0000
  {
    hide Pow2;
    OneByte();
    Pow2Add(8, 8);
    Pow2Add(16, 16);
    Pow2Add(32, 32);
  }

  lemma WordFetched(code: seq<byte>, pc: nat, c: byte, n: nat, k: nat)
    requires k in {1, 4, 8} && n < 2 * Half(k) && Has(code, pc, [c] + Word(n, k))
    ensures pc + 1 + k <= |code| && code[pc] == c && LittleEndian(code, pc + 1, k) == n
  {
    hide Word, LittleEndian, Pow2;
    HasCat(code, pc, [c], Word(n, k));
    HasAt(code, pc, [c], 0);
    EightBytes();
    WordReads(code, pc + 1, n, k);
  }

  lemma ConstReads(menv: ModuleEnv, code: seq<byte>, pc: nat, l: Line)
    requires (l.I8Const? || l.I32Const? || l.I64Const? || l.F32Const? || l.F64Const?) && LineOk(menv, l)
    requires Has(code, pc, Assemble(menv, l))
    ensures pc < |code| && 0x09 <= code[pc] <= 0x0d
    ensures FetchConst(code, pc) == Got(Means(menv, l), |Assemble(menv, l)|)
  {
    hide Has, Word, LittleEndian;
    match l
    case I8Const(i) => WordFetched(code, pc, 0x09, Complement(i, 1), 1);
    case I32Const(i) => WordFetched(code, pc, 0x0a, Complement(i, 4), 4);
    case I64Const(i) => WordFetched(code, pc, 0x0b, Complement(i, 8), 8);
    case F64Const(f) => WordFetched(code, pc, 0x0c, f, 8);
    case F32Const(f) => WordFetched(code, pc, 0x0d, f, 4);
  }

  lemma IndexedReads(menv: ModuleEnv, code: seq<byte>, pc: nat, l: Line)
    requires l.GetLocalLine? || l.SetLocalLine? || l.LoadGlobal? || l.StoreGlobal? || l.CallFunction? || l.CallIndirect?
    requires LineOk(menv, l) && Has(code, pc, Assemble(menv, l))
    ensures pc < |code| && 0x0e <= code[pc] <= 0x13
    ensures FetchIndexed(menv, code, pc) == Got(Means(menv, l), |Assemble(menv, l)|)
  {
    hide Has, IndexOperand, Groups, Number;
    var c := if l.GetLocalLine? then 0x0e else if l.SetLocalLine? then 0x0f else if l.LoadGlobal? then 0x10
             else if l.StoreGlobal? then 0x11 else if l.CallFunction? then 0x12 else 0x13;
    IndexReads(menv, code, pc, c, l.index);
    if l.CallFunction? {
      assert [] + menv.functions[Number(l.index)].params == menv.functions[Number(l.index)].params;
    }
  }

  lemma MemoryReads(menv: ModuleEnv, code: seq<byte>, pc: nat, l: Line)
    requires (l.LoadLine? || l.StoreLine?) && LineOk(menv, l) && Has(code, pc, Assemble(menv, l))
    ensures pc < |code| && 0x20 <= code[pc] <= 0x36 && (IsValue(LoadType(code[pc])) || IsValue(StoreType(code[pc])))
    ensures FetchMemory(menv, code, pc) == Got(Means(menv, l), |Assemble(menv, l)|)
  {
    hide Has, MemoryOperand, OffsetOk, Number, LoadType, StoreType, LoadOk, StoreOk;
    if l.LoadLine? {
      LoadNamed(l.load);
      AccessReads(code, pc, LoadCode(l.load), l.access, l.offset);
    } else {
      StoreNamed(l.store);
      AccessReads(code, pc, StoreCode(l.store), l.access, l.offset);
    }
  }

  lemma LoadNamed(l: Load)
    requires LoadOk(l)
    ensures LoadType(LoadCode(l)) == LoadResult(l)
  {
    AccessesNamed(l, WholeStore(I32));
  }

  lemma StoreNamed(s: Store)
    requires StoreOk(s)
    ensures StoreType(StoreCode(s)) == Stored(s) && LoadType(StoreCode(s)) == Stmt
  {
    AccessesNamed(WholeLoad(I32), s);
  }

  lemma NoAccess(c: byte)
    requires c < 0x20 || 0x36 < c
    ensures !IsValue(LoadType(c)) && !IsValue(StoreType(c))
  {
  }

  lemma SimpleReads(menv: ModuleEnv, code: seq<byte>, pc: nat, op: Simple)
    requires Has(code, pc, [Opcode(op)])
    ensures pc < |code| && Fetch(menv, code, pc) == Got(Means(menv, SimpleLine(op)), 1)
  {
    hide Has, Opcode, LoadType, StoreType, SimpleSig, SimpleTraps;
    HasAt(code, pc, [Opcode(op)], 0);
    NoAccess(Opcode(op));
    SignaturesNamed(op);
  }

  lemma ShortReads(menv: ModuleEnv, code: seq<byte>, pc: nat, l: Line)
    requires LineOk(menv, l) && Has(code, pc, Assemble(menv, l))
    requires |Assemble(menv, l)| <= 2
    requires (Assemble(menv, l)[0] < 0x09 || Assemble(menv, l)[0] in {0x14, 0x15, 0x39, 0x3b})
    ensures pc < |code| && Fetch(menv, code, pc) == Got(Means(menv, l), |Assemble(menv, l)|)
  {
    hide Has, LoadType, StoreType, SimpleSig, SimpleTraps, Opcode, LoadCode, StoreCode, Word;
    var s := Assemble(menv, l);
    HasAt(code, pc, s, 0);
    if |s| == 2 { HasAt(code, pc, s, 1); }
    NoAccess(s[0]);
  }

  /** Reading an instruction wherever it stands in code gives what was written, and its length. */
  lemma ReadsAssembled(menv: ModuleEnv, code: seq<byte>, pc: nat, l: Line)
    requires LineOk(menv, l) && Has(code, pc, Assemble(menv, l))
    ensures pc < |code| && Fetch(menv, code, pc) == Got(Means(menv, l), |Assemble(menv, l)|)
  {
    hide Has, FetchConst, FetchIndexed, FetchMemory, LoadType, StoreType, SimpleSig, SimpleTraps, Opcode, LoadCode,
         StoreCode, Word, Groups, OffsetOk;
    match l
    case I8Const(_) => ConstReads(menv, code, pc, l);
    case I32Const(_) => ConstReads(menv, code, pc, l);
    case I64Const(_) => ConstReads(menv, code, pc, l);
    case F32Const(_) => ConstReads(menv, code, pc, l);
    case F64Const(_) => ConstReads(menv, code, pc, l);
    case GetLocalLine(_) => IndexedReads(menv, code, pc, l);
    case SetLocalLine(_) => IndexedReads(menv, code, pc, l);
    case LoadGlobal(_) => IndexedReads(menv, code, pc, l);
    case StoreGlobal(_) => IndexedReads(menv, code, pc, l);
    case CallFunction(_) => IndexedReads(menv, code, pc, l);
    case CallIndirect(_) => IndexedReads(menv, code, pc, l);
    case LoadLine(_, _, _) => MemoryReads(menv, code, pc, l);
    case StoreLine(_, _, _) => MemoryReads(menv, code, pc, l);
    case SimpleLine(op) => SimpleReads(menv, code, pc, op);
    case _ => ShortReads(menv, code, pc, l);
  }

  // ----- Everything that is read was written -----

  /** The lowest byte of a number. */
  lemma LowByte(b: byte, rest: nat, bound: nat)
    requires rest < bound
    ensures (b + 256 * rest) % 256 == b && (b + 256 * rest) / 256 == rest && b + 256 * rest < 256 * bound
  {
  }

  /** Any bytes are those of the number they stand for. */
  lemma {:induction false} WordWritten(code: seq<byte>, pc: nat, k: nat)
    requires pc + k <= |code|
    ensures LittleEndian(code, pc, k) < Pow2(8 * k) && code[pc..pc + k] == Word(LittleEndian(code, pc, k), k)
    decreases k
  {
    hide Pow2;
    if k == 0 {
      assert code[pc..pc] == [];
      EightBytes();
    } else {
      WordWritten(code, pc + 1, k - 1);
      EightBytes();
      Pow2Add(8, 8 * (k - 1));
      LowByte(code[pc], LittleEndian(code, pc + 1, k - 1), Pow2(8 * (k - 1)));
      assert code[pc..pc + k] == [code[pc]] + code[pc + 1..pc + k];
    }
  }

  lemma GroupsWritten(code: seq<byte>, pc: nat)
    requires pc <= |code| && ReadAt(code, pc).status.NoError?
    ensures var r := ReadAt(code, pc);
      pc + r.length <= |code| && Groups(code[pc..pc + r.length]) && Number(code[pc..pc + r.length]) == r.value
  {
    hide Value;
    TakenShape(code, pc, 5);
  }

  lemma {:induction false} TakenShape(code: seq<byte>, pc: nat, n: nat)
    requires pc <= |code|
    ensures forall i :: pc <= i < pc + Taken(code, pc, n) - 1 ==> code[i] >= 128
    decreases n
  {
    if n > 0 && pc < |code| && code[pc] >= 128 { TakenShape(code, pc + 1, n - 1); }
  }

  function ConstLine(code: seq<byte>, pc: nat): Line
    requires pc < |code| && 0x09 <= code[pc] <= 0x0d && FetchConst(code, pc).Got?
  {
    var i := FetchConst(code, pc).instr;
    if code[pc] == 0x09 then I8Const(i.bits) else if code[pc] == 0x0a then I32Const(i.bits)
    else if code[pc] == 0x0b then I64Const(i.bits)
    else if code[pc] == 0x0c then F64Const(i.bits) else F32Const(i.bits)
  }

  lemma ConstWritten(menv: ModuleEnv, code: seq<byte>, pc: nat)
    requires pc < |code| && 0x09 <= code[pc] <= 0x0d && FetchConst(code, pc).Got?
    ensures var l := ConstLine(code, pc);
      LineOk(menv, l) && Has(code, pc, Assemble(menv, l))
          && FetchConst(code, pc) == Got(Means(menv, l), |Assemble(menv, l)|)
  {
    hide Word, LittleEndian, Pow2;
    var k := if code[pc] == 0x09 then 1 else if code[pc] == 0x0a || code[pc] == 0x0d then 4 else 8;
    WordWritten(code, pc + 1, k);
    EightBytes();
    var n := LittleEndian(code, pc + 1, k);
    assert code[pc..pc + 1 + k] == [code[pc]] + code[pc + 1..pc + 1 + k];
    var l := ConstLine(code, pc);
    assert Assemble(menv, l) == [code[pc]] + Word(n, k);
  }

  function IndexedLine(c: byte, x: seq<byte>): Line {
    if c == 0x0e then GetLocalLine(x) else if c == 0x0f then SetLocalLine(x) else if c == 0x10 then LoadGlobal(x)
    else if c == 0x11 then StoreGlobal(x) else if c == 0x12 then CallFunction(x) else CallIndirect(x)
  }

  lemma IndexedWritten(menv: ModuleEnv, code: seq<byte>, pc: nat)
    requires pc < |code| && 0x0e <= code[pc] <= 0x13 && FetchIndexed(menv, code, pc).Got?
    ensures pc < pc + FetchIndexed(menv, code, pc).len <= |code|
    ensures var l := IndexedLine(code[pc], code[pc + 1..pc + FetchIndexed(menv, code, pc).len]);
      LineOk(menv, l) && Has(code, pc, Assemble(menv, l))
  {
    hide ReadAt, Groups, Number;
    GroupsWritten(code, pc + 1);
    var len := FetchIndexed(menv, code, pc).len;
    assert code[pc..pc + len] == [code[pc]] + code[pc + 1..pc + len];
  }

  function MemoryLine(code: seq<byte>, pc: nat, len: nat): Line
    requires 2 <= len && pc + len <= |code|
  {
    var x := code[pc + 2..pc + len];
    if code[pc] < 0x2e then LoadLine(LoadAt(code[pc]), code[pc + 1], x)
      else StoreLine(StoreAt(code[pc]), code[pc + 1], x)
  }

  lemma MemoryWritten(menv: ModuleEnv, code: seq<byte>, pc: nat)
    requires pc < |code| && (IsValue(LoadType(code[pc])) || IsValue(StoreType(code[pc])))
    requires FetchMemory(menv, code, pc).Got?
    ensures 2 <= FetchMemory(menv, code, pc).len && pc + FetchMemory(menv, code, pc).len <= |code|
    ensures var l := MemoryLine(code, pc, FetchMemory(menv, code, pc).len);
      LineOk(menv, l) && Has(code, pc, Assemble(menv, l))
  {
    hide ReadAt, Groups, LoadAt, StoreAt, LoadCode, StoreCode, LoadType, StoreType, LoadOk, StoreOk;
    var len := FetchMemory(menv, code, pc).len;
    AccessCode(code[pc]);
    OffsetBit(code[pc + 1]);
    if code[pc + 1] / 16 % 2 == 1 { GroupsWritten(code, pc + 2); }
    assert code[pc..pc + len] == [code[pc], code[pc + 1]] + code[pc + 2..pc + len];
  }

  lemma AccessCode(c: byte)
    requires IsValue(LoadType(c)) || IsValue(StoreType(c))
    ensures if c < 0x2e then LoadOk(LoadAt(c)) && LoadCode(LoadAt(c)) == c
      else StoreOk(StoreAt(c)) && StoreCode(StoreAt(c)) == c
  {
    if IsValue(LoadType(c)) { LoadsNamed(c); } else { StoresNamed(c); }
  }

  /** The line of an instruction without operands that are groups or words. */
  function ShortLine(c: byte, n: byte): Line {
    if c == 0x00 then NopLine else if c == 0x01 then BlockLine(n) else if c == 0x02 then LoopLine(n)
    else if c == 0x03 then IfLine else if c == 0x04 then IfElseLine else if c == 0x05 then SelectLine
    else if c == 0x06 then BrLine(n) else if c == 0x07 then BrIfLine(n) else if c == 0x14 then ReturnLine
    else if c == 0x15 then UnreachableLine else if c == 0x39 then GrowMemory else if c == 0x3b then MemorySize
    else SimpleLine(SimpleAt(c))
  }

  lemma NoOpcode(c: byte)
    requires IsValue(SimpleSig(c).1)
    ensures 0x40 <= c <= 0xb5
  {
  }

  /** The line that stands at a position where an instruction can be read. */
  function LineAt(menv: ModuleEnv, code: seq<byte>, pc: nat): Line
    requires pc < |code| && Fetch(menv, code, pc).Got?
  {
    var c, len := code[pc], Fetch(menv, code, pc).len;
    if 0x09 <= c <= 0x0d then ConstLine(code, pc)
    else if 0x0e <= c <= 0x13 then IndexedLine(c, code[pc + 1..pc + len])
    else if len >= 2 && (IsValue(LoadType(c)) || IsValue(StoreType(c))) then MemoryLine(code, pc, len)
    else ShortLine(c, if len == 2 then code[pc + 1] else 0)
  }

  lemma ShortWritten(menv: ModuleEnv, code: seq<byte>, pc: nat)
    requires pc < |code| && Fetch(menv, code, pc).Got? && !(0x09 <= code[pc] <= 0x13)
    requires !IsValue(LoadType(code[pc])) && !IsValue(StoreType(code[pc]))
    ensures var l := LineAt(menv, code, pc); LineOk(menv, l) && Has(code, pc, Assemble(menv, l))
  {
    hide LoadType, StoreType, SimpleSig, SimpleTraps, SimpleAt, Opcode;
    var c, len := code[pc], Fetch(menv, code, pc).len;
    assert len == 1 ==> code[pc..pc + 1] == [c];
    assert len == 2 ==> code[pc..pc + 2] == [c, code[pc + 1]];
    if c !in {0x00, 0x01, 0x02, 0x03, 0x04, 0x05, 0x06, 0x07, 0x14, 0x15, 0x39, 0x3b} {
      NoOpcode(c);
      OpcodesNamed(c);
    }
  }

  /** Wherever an instruction can be read, a line stands there that means it. */
  lemma ReadWasAssembled(menv: ModuleEnv, code: seq<byte>, pc: nat)
    requires pc < |code| && Fetch(menv, code, pc).Got?
    ensures var l := LineAt(menv, code, pc);
      LineOk(menv, l) && Has(code, pc, Assemble(menv, l))
          && Fetch(menv, code, pc) == Got(Means(menv, l), |Assemble(menv, l)|)
  {
    hide Has, FetchConst, FetchIndexed, FetchMemory, LoadType, StoreType, SimpleSig, SimpleTraps, Assemble, Means,
         LineOk,
         ConstLine, IndexedLine, MemoryLine, ShortLine;
    var c := code[pc];
    if 0x09 <= c <= 0x0d { ConstWritten(menv, code, pc); }
    else if 0x0e <= c <= 0x13 { IndexedWritten(menv, code, pc); }
    else if IsValue(LoadType(c)) || IsValue(StoreType(c)) { MemoryAt(menv, code, pc); }
    else { ShortWritten(menv, code, pc); }
    ReadsAssembled(menv, code, pc, LineAt(menv, code, pc));
  }

  lemma MemoryAt(menv: ModuleEnv, code: seq<byte>, pc: nat)
    requires pc < |code| && Fetch(menv, code, pc).Got? && (IsValue(LoadType(code[pc])) || IsValue(StoreType(code[pc])))
    ensures var l := LineAt(menv, code, pc); LineOk(menv, l) && Has(code, pc, Assemble(menv, l))
  {
    hide FetchMemory, MemoryLine, Assemble, LineOk, Has, ConstLine, ShortLine, IndexedLine;
    assert !(code[pc] < 0x20 || code[pc] in {0x39, 0x3b});
    MemoryWritten(menv, code, pc);
  }

  /** A line of the given meaning and length stands at pc. */
  predicate Stands(menv: ModuleEnv, code: seq<byte>, pc: nat, l: Line, i: Instr, len: nat) {
    LineOk(menv, l) && Has(code, pc, Assemble(menv, l)) && Means(menv, l) == i && |Assemble(menv, l)| == len
  }

  /** An instruction is read exactly where one is written. */
  lemma FetchIff(menv: ModuleEnv, code: seq<byte>, pc: nat, i: Instr, len: nat)
    requires pc < |code|
    ensures Fetch(menv, code, pc) == Got(i, len) <==> exists l :: Stands(menv, code, pc, l, i, len)
  {
    hide Has, Fetch, Assemble, Means, LineOk, LineAt;
    if Fetch(menv, code, pc) == Got(i, len) {
      ReadWasAssembled(menv, code, pc);
      assert Stands(menv, code, pc, LineAt(menv, code, pc), i, len);
    }
    if l :| Stands(menv, code, pc, l, i, len) { ReadsAssembled(menv, code, pc, l); }
  }
}
