/** Modules as the decoder reads them from bytes, and what holds of every module it accepts. */
module Modules {
  import opened Syntax
  import opened Leb128
  import opened Opcodes
  import opened ByteDecoder
  import F = FunctionMeaning
  import D = DecodeFunction

  /** Codes of memory types: signed and unsigned integers of 1, 2, 4 and 8 bytes, then the floats. */
  type MemType = x: int | 0 <= x < 10

  datatype Global = Global(name: nat, ty: MemType, exported: bool)

  datatype Function = Function(sig: FunctionSig, sigIndex: nat, name: nat, codeStart: nat, codeEnd: nat,
                               int32s: nat, int64s: nat, float32s: nat, float64s: nat, exported: bool, external: bool)

  datatype Segment = Segment(dest: nat, source: nat, size: nat, init: bool)

  datatype WasmModule = WasmModule(minMem: nat, maxMem: nat, memExport: bool, globals: seq<Global>,
                                   signatures: seq<FunctionSig>, functions: seq<Function>,
                                   segments: seq<Segment>, table: seq<nat>)

  const EMPTY: WasmModule := WasmModule(0, 0, false, [], [], [], [], [])

  // ----- Parts -----

  /** A type code: nothing, or one of the four value types. */
  function TypeOfCode(c: nat): LocalType {
    if c == 0 then Stmt else if c == 1 then I32 else if c == 2 then I64 else if c == 3 then F32 else if c == 4 then F64
      else End
  }

  function ReadType(code: seq<byte>, limit: nat, pc: nat): (r: Reading<LocalType>)
    ensures r.At? ==> pc < r.pc <= limit
  {
    match Fixed(code, limit, pc, 1)
    case Off => Off
    case At(c, pc1) => if TypeOfCode(c).End? then Off else At(TypeOfCode(c), pc1)
  }

  function ReadParams(code: seq<byte>, limit: nat, pc: nat, n: nat): (r: Reading<seq<ValueType>>)
    ensures r.At? ==> |r.value| == n && pc <= r.pc && (pc <= limit ==> r.pc <= limit)
    decreases n
  {
    if n == 0 then At([], pc)
    else
      match ReadType(code, limit, pc)
      case Off => Off
      case At(ty, pc1) =>
        if ty.Stmt? then Off
        else
          match ReadParams(code, limit, pc1, n - 1)
          case Off => Off
          case At(rest, pc2) => At([ty] + rest, pc2)
  }

  function ReadSig(code: seq<byte>, limit: nat, pc: nat): (r: Reading<FunctionSig>)
    ensures r.At? ==> pc < r.pc <= limit
  {
    match Fixed(code, limit, pc, 1)
    case Off => Off
    case At(count, pc1) =>
      match ReadType(code, limit, pc1)
      case Off => Off
      case At(ret, pc2) =>
        match ReadParams(code, limit, pc2, count)
        case Off => Off
        case At(params, pc3) => At(Sig(params, ret), pc3)
  }

  /** An offset into the module. */
  function ReadOffset(code: seq<byte>, limit: nat, pc: nat): (r: Reading<nat>)
    ensures r.At? ==> pc < r.pc <= limit
  {
    match Fixed(code, limit, pc, 4)
    case Off => Off
    case At(offset, pc1) => if offset > limit then Off else At(offset, pc1)
  }

  function ReadGlobal(code: seq<byte>, limit: nat, pc: nat): (r: Reading<Global>)
    ensures r.At? ==> pc < r.pc <= limit
  {
    match ReadOffset(code, limit, pc)
    case Off => Off
    case At(name, pc1) =>
      match Fixed(code, limit, pc1, 1)
      case Off => Off
      case At(ty, pc2) =>
        if ty >= 10 then Off
        else
          match Fixed(code, limit, pc2, 1)
          case Off => Off
          case At(exported, pc3) => At(Global(name, ty, exported != 0), pc3)
  }

  predicate Bit(bits: nat, mask: nat) {
    if mask == 1 then bits % 2 == 1 else if mask == 2 then bits / 2 % 2 == 1 else if mask == 4 then bits / 4 % 2 == 1
      else bits / 8 % 2 == 1
  }

  datatype Counts = Counts(int32s: nat, int64s: nat, float32s: nat, float64s: nat)

  function ReadCounts(code: seq<byte>, limit: nat, pc: nat): (r: Reading<Counts>)
    ensures r.At? ==> pc < r.pc <= limit
  {
    var a, b := Fixed(code, limit, pc, 2), Fixed(code, limit, pc + 2, 2);
    var c, d := Fixed(code, limit, pc + 4, 2), Fixed(code, limit, pc + 6, 2);
    if a.Off? || b.Off? || c.Off? || d.Off? then Off else At(Counts(a.value, b.value, c.value, d.value), d.pc)
  }

  /** The rest of a function that is not imported: counts of locals if declared, then its body. */
  function ReadBody(code: seq<byte>, limit: nat, pc: nat, f: Function, locals: bool): (r: Reading<Function>)
    ensures r.At? ==> pc < r.pc <= limit
  {
    match if locals then ReadCounts(code, limit, pc) else At(Counts(0, 0, 0, 0), pc)
    case Off => Off
    case At(n, pc1) =>
      match Fixed(code, limit, pc1, 2)
      case Off => Off
      case At(size, pc2) =>
        if pc2 + size > limit then Off
        else At(f.(codeStart := pc2, codeEnd := pc2 + size, int32s := n.int32s, int64s := n.int64s,
                   float32s := n.float32s, float64s := n.float64s), pc2 + size)
  }

  function ReadFunction(code: seq<byte>, limit: nat, pc: nat, sigs: seq<FunctionSig>): (r: Reading<Function>)
    ensures r.At? ==> pc < r.pc <= limit
  {
    match Fixed(code, limit, pc, 1)
    case Off => Off
    case At(bits, pc1) =>
      match Fixed(code, limit, pc1, 2)
      case Off => Off
      case At(index, pc2) =>
        if index >= |sigs| then Off
        else
          match if Bit(bits, 1) then ReadOffset(code, limit, pc2) else At(0, pc2)
          case Off => Off
          case At(name, pc3) =>
            var f := Function(sigs[index], index, name, 0, 0, 0, 0, 0, 0, Bit(bits, 8), Bit(bits, 2));
            if f.external then At(f, pc3) else ReadBody(code, limit, pc3, f, Bit(bits, 4))
  }

  function ReadSegment(code: seq<byte>, limit: nat, pc: nat): (r: Reading<Segment>)
    ensures r.At? ==> pc < r.pc <= limit
  {
    match Fixed(code, limit, pc, 4)
    case Off => Off
    case At(dest, pc1) =>
      match ReadOffset(code, limit, pc1)
      case Off => Off
      case At(source, pc2) =>
        match Fixed(code, limit, pc2, 4)
        case Off => Off
        case At(size, pc3) =>
          match Fixed(code, limit, pc3, 1)
          case Off => Off
          case At(init, pc4) => At(Segment(dest, source, size, init != 0), pc4)
  }

  function ReadEntry(code: seq<byte>, limit: nat, pc: nat, functions: nat): (r: Reading<nat>)
    ensures r.At? ==> pc < r.pc <= limit
  {
    match Fixed(code, limit, pc, 2)
    case Off => Off
    case At(index, pc1) => if index >= functions then Off else At(index, pc1)
  }

  /** A declared number of parts, one after the other. */
  function Many<T>(read: nat -> Reading<T>, limit: nat, pc: nat, n: nat): (r: Reading<seq<T>>)
    requires forall p: nat :: read(p).At? ==> p <= read(p).pc <= limit
    ensures r.At? ==> |r.value| == n && pc <= r.pc && (pc <= limit ==> r.pc <= limit)
    decreases n
  {
    if n == 0 then At([], pc)
    else
      match read(pc)
      case Off => Off
      case At(x, pc1) =>
        match Many(read, limit, pc1, n - 1)
        case Off => Off
        case At(xs, pc2) => At([x] + xs, pc2)
  }

  function Section<T>(code: seq<byte>, limit: nat, pc: nat, read: nat -> Reading<T>): (r: Reading<seq<T>>)
    requires forall p: nat :: read(p).At? ==> p <= read(p).pc <= limit
    ensures r.At? ==> pc < r.pc <= limit
  {
    match Varint(code, limit, pc)
    case Off => Off
    case At(n, pc1) => Many(read, limit, pc1, n)
  }

  function SigReader(code: seq<byte>, limit: nat): nat -> Reading<FunctionSig> {
    (p: nat) => ReadSig(code, limit, p)
  }

  function FunctionReader(code: seq<byte>, limit: nat, sigs: seq<FunctionSig>): nat -> Reading<Function> {
    (p: nat) => ReadFunction(code, limit, p, sigs)
  }

  function GlobalReader(code: seq<byte>, limit: nat): nat -> Reading<Global> {
    (p: nat) => ReadGlobal(code, limit, p)
  }

  function SegmentReader(code: seq<byte>, limit: nat): nat -> Reading<Segment> {
    (p: nat) => ReadSegment(code, limit, p)
  }

  function EntryReader(code: seq<byte>, limit: nat, functions: nat): nat -> Reading<nat> {
    (p: nat) => ReadEntry(code, limit, p, functions)
  }

  // ----- Sections -----

  function ValueTypeOf(t: MemType): ValueType {
    if t < 6 then I32 else if t < 8 then I64 else if t == 8 then F32 else F64
  }

  function GlobalTypes(gs: seq<Global>): seq<ValueType> {
    if gs == [] then [] else [ValueTypeOf(gs[0].ty)] + GlobalTypes(gs[1..])
  }

  function Signatures(fs: seq<Function>): seq<FunctionSig> {
    if fs == [] then [] else [fs[0].sig] + Signatures(fs[1..])
  }

  function DeclOf(f: Function): F.Decl {
    F.Decl(f.sig.params, f.int32s, f.int64s, f.float32s, f.float64s, f.sig.ret)
  }

  /** The body of a function passes the function decoder. */
  predicate Verified(code: seq<byte>, asmJs: bool, m: WasmModule, f: Function) {
    f.external || (f.codeStart <= f.codeEnd <= |code|
      && D.Decode(ModuleEnv(GlobalTypes(m.globals), Signatures(m.functions), m.signatures, asmJs), DeclOf(f),
                  code[f.codeStart..f.codeEnd]).Accepted?)
  }

  predicate AllVerified(code: seq<byte>, asmJs: bool, m: WasmModule) {
    forall i :: 0 <= i < |m.functions| ==> Verified(code, asmJs, m, m.functions[i])
  }

  const MEMORY: nat := 0
  const SIGNATURES: nat := 1
  const FUNCTIONS: nat := 2
  const GLOBALS: nat := 3
  const SEGMENTS: nat := 4
  const TABLE: nat := 5
  const END: nat := 6

  function ReadMemory(code: seq<byte>, limit: nat, pc: nat, m: WasmModule): (r: Reading<WasmModule>)
    ensures r.At? ==> pc < r.pc <= limit
  {
    var a, b, c := Fixed(code, limit, pc, 1), Fixed(code, limit, pc + 1, 1), Fixed(code, limit, pc + 2, 1);
    if a.Off? || b.Off? || c.Off? then Off
    else At(m.(minMem := a.value, maxMem := b.value, memExport := c.value != 0), c.pc)
  }

  /** One section of the given kind, after its code. */
  function ReadSection(code: seq<byte>, limit: nat, pc: nat, kind: nat, seen: set<nat>, m: WasmModule, verify: bool,
      asmJs: bool): (r: Reading<WasmModule>)
    ensures r.At? ==> pc < r.pc <= limit
  {
    if kind == MEMORY then ReadMemory(code, limit, pc, m)
    else if kind == SIGNATURES then
      (match Section(code, limit, pc, SigReader(code, limit))
       case Off => Off
       case At(xs, pc1) => At(m.(signatures := xs), pc1))
    else if kind == FUNCTIONS then
      if SIGNATURES !in seen then Off
      else
        (match Section(code, limit, pc, FunctionReader(code, limit, m.signatures))
         case Off => Off
         case At(xs, pc1) =>
           var m1 := m.(functions := xs);
           if verify && !AllVerified(code, asmJs, m1) then Off else At(m1, pc1))
    else if kind == GLOBALS then
      (match Section(code, limit, pc, GlobalReader(code, limit))
       case Off => Off
       case At(xs, pc1) => At(m.(globals := xs), pc1))
    else if kind == SEGMENTS then
      (match Section(code, limit, pc, SegmentReader(code, limit))
       case Off => Off
       case At(xs, pc1) => At(m.(segments := xs), pc1))
    else if kind == TABLE then
      if FUNCTIONS !in seen then Off
      else
        (match Section(code, limit, pc, EntryReader(code, limit, |m.functions|))
         case Off => Off
         case At(xs, pc1) => At(m.(table := xs), pc1))
    else Off
  }

  datatype Loading = Failed | Loaded(m: WasmModule)

  /** Sections up to the end of the bytes or an end marker, none of them twice. */
  function Sections(code: seq<byte>, limit: nat, pc: nat, seen: set<nat>, m: WasmModule, verify: bool,
      asmJs: bool): Loading
    requires pc <= limit <= |code|
    decreases limit - pc
  {
    if pc == limit then Loaded(m)
    else
      var kind := code[pc];
      if kind in seen then Failed
      else if kind == END then Loaded(m)
      else
        match ReadSection(code, limit, pc + 1, kind, seen, m, verify, asmJs)
        case Off => Failed
        case At(m1, pc1) => Sections(code, limit, pc1, seen + {kind as nat}, m1, verify, asmJs)
  }

  function DecodeModule(code: seq<byte>, verify: bool, asmJs: bool): Loading {
    Sections(code, |code|, 0, {}, EMPTY, verify, asmJs)
  }

  // ----- Accepted modules -----

  predicate FunctionFits(n: nat, m: WasmModule, f: Function) {
    && f.sigIndex < |m.signatures| && f.sig == m.signatures[f.sigIndex] && f.name <= n
    && f.codeStart <= f.codeEnd <= n && (f.external ==> f.codeEnd == 0)
  }

  /** Indices name something, and offsets stay inside the module. */
  predicate WellFormed(n: nat, m: WasmModule) {
    && (forall i :: 0 <= i < |m.functions| ==> FunctionFits(n, m, m.functions[i]))
    && (forall i :: 0 <= i < |m.globals| ==> m.globals[i].name <= n)
    && (forall i :: 0 <= i < |m.segments| ==> m.segments[i].source <= n)
    && (forall i :: 0 <= i < |m.table| ==> m.table[i] < |m.functions|)
  }

  /** A section's parts are there only if the section is. */
  predicate Sealed(seen: set<nat>, m: WasmModule) {
    && (FUNCTIONS !in seen ==> m.functions == [] && m.table == []) && (SIGNATURES !in seen ==> m.signatures == [])
    && (GLOBALS !in seen ==> m.globals == [])
    && (FUNCTIONS in seen ==> SIGNATURES in seen) && (TABLE in seen ==> FUNCTIONS in seen)
  }

  lemma {:induction false} ManyAll<T>(read: nat -> Reading<T>, limit: nat, pc: nat, n: nat, ok: T -> bool)
    requires forall p: nat :: read(p).At? ==> p <= read(p).pc <= limit
    requires forall p: nat :: read(p).At? ==> ok(read(p).value)
    ensures var r := Many(read, limit, pc, n); r.At? ==> forall i :: 0 <= i < |r.value| ==> ok(r.value[i])
    decreases n
  {
    if n > 0 && read(pc).At? { ManyAll(read, limit, read(pc).pc, n - 1, ok); }
  }

  lemma SectionAll<T>(code: seq<byte>, limit: nat, pc: nat, read: nat -> Reading<T>, ok: T -> bool)
    requires forall p: nat :: read(p).At? ==> p <= read(p).pc <= limit
    requires forall p: nat :: read(p).At? ==> ok(read(p).value)
    ensures var r := Section(code, limit, pc, read); r.At? ==> forall i :: 0 <= i < |r.value| ==> ok(r.value[i])
  {
    var v := Varint(code, limit, pc);
    if v.At? { ManyAll(read, limit, v.pc, v.value, ok); }
  }

  /** One section keeps the module well-formed. */
  lemma SectionFits(code: seq<byte>, limit: nat, pc: nat, kind: nat, seen: set<nat>, m: WasmModule, verify: bool,
      asmJs: bool)
    requires limit <= |code| && kind !in seen && WellFormed(limit, m) && Sealed(seen, m)
    ensures var r := ReadSection(code, limit, pc, kind, seen, m, verify, asmJs);
      r.At? ==> WellFormed(limit, r.value) && Sealed(seen + {kind}, r.value)
  {
    hide Section, AllVerified, ReadSig, ReadFunction, ReadGlobal, ReadSegment, ReadEntry;
    if kind == FUNCTIONS {
      forall p: nat | ReadFunction(code, limit, p, m.signatures).At? ensures FunctionFits(limit, m,
        ReadFunction(code, limit, p, m.signatures).value) {
        FunctionReads(code, limit, p, m);
      }
      SectionAll(code, limit, pc, FunctionReader(code, limit, m.signatures),
          (f: Function) => FunctionFits(limit, m, f));
    } else if kind == GLOBALS {
      forall p: nat | ReadGlobal(code, limit, p).At?
        ensures ReadGlobal(code, limit, p).value.name <= limit
      {
        GlobalReads(code, limit, p);
      }
      SectionAll(code, limit, pc, GlobalReader(code, limit), (g: Global) => g.name <= limit);
    } else if kind == SEGMENTS {
      forall p: nat | ReadSegment(code, limit, p).At?
        ensures ReadSegment(code, limit, p).value.source <= limit
      {
        SegmentReads(code, limit, p);
      }
      SectionAll(code, limit, pc, SegmentReader(code, limit), (s: Segment) => s.source <= limit);
    } else if kind == TABLE {
      forall p: nat | ReadEntry(code, limit, p, |m.functions|).At? ensures ReadEntry(code, limit, p,
        |m.functions|).value < |m.functions| {
        EntryReads(code, limit, p, |m.functions|);
      }
      SectionAll(code, limit, pc, EntryReader(code, limit, |m.functions|), (i: nat) => i < |m.functions|);
    }
  }

  lemma FunctionReads(code: seq<byte>, limit: nat, p: nat, m: WasmModule)
    ensures var r := ReadFunction(code, limit, p, m.signatures); r.At? ==> FunctionFits(limit, m, r.value)
  {
  }

  lemma GlobalReads(code: seq<byte>, limit: nat, p: nat)
    ensures var r := ReadGlobal(code, limit, p); r.At? ==> r.value.name <= limit
  {
  }

  lemma SegmentReads(code: seq<byte>, limit: nat, p: nat)
    ensures var r := ReadSegment(code, limit, p); r.At? ==> r.value.source <= limit
  {
  }

  lemma EntryReads(code: seq<byte>, limit: nat, p: nat, n: nat)
    ensures var r := ReadEntry(code, limit, p, n); r.At? ==> r.value < n
  {
  }

  lemma GlobalsVerified(code: seq<byte>, asmJs: bool, m: WasmModule, gs: seq<Global>)
    requires AllVerified(code, asmJs, m) && m.globals == []
    ensures AllVerified(code, asmJs, m.(globals := gs))
  {
    hide D.Decode, Signatures;
    assert GlobalTypes([]) == [];
    var m' := m.(globals := gs);
    forall i | 0 <= i < |m'.functions| ensures Verified(code, asmJs, m', m'.functions[i]) {
      var f := m.functions[i];
      assert Verified(code, asmJs, m, f);
      if !f.external {
        var sigs := Signatures(m.functions);
        D.LaterGlobals(ModuleEnv([], sigs, m.signatures, asmJs), ModuleEnv(GlobalTypes(gs), sigs, m.signatures, asmJs),
            DeclOf(f),
                       code[f.codeStart..f.codeEnd]);
      }
    }
  }

  /** One section keeps the functions verified, whether it comes before or after them. */
  lemma SectionVerifies(code: seq<byte>, limit: nat, pc: nat, kind: nat, seen: set<nat>, m: WasmModule, verify: bool,
      asmJs: bool)
    requires limit <= |code| && kind !in seen && Sealed(seen, m) && (verify ==> AllVerified(code, asmJs, m))
    ensures var r := ReadSection(code, limit, pc, kind, seen, m, verify, asmJs);
      r.At? && verify ==> AllVerified(code, asmJs, r.value)
  {
    hide Section, D.Decode, ReadSig, ReadFunction, ReadGlobal, ReadSegment, ReadEntry, GlobalTypes, Signatures;
    var r := ReadSection(code, limit, pc, kind, seen, m, verify, asmJs);
    if r.At? && verify && kind == GLOBALS {
      GlobalsVerified(code, asmJs, m, r.value.globals);
    } else if r.At? && verify && kind != FUNCTIONS {
      forall i | 0 <= i < |r.value.functions| ensures Verified(code, asmJs, r.value, r.value.functions[i]) {
        assert Verified(code, asmJs, m, m.functions[i]);
      }
    }
  }

  // ----- Declared counts -----

  predicate IsList(kind: nat) {
    SIGNATURES <= kind <= TABLE
  }

  /** The length of the list a section of the given kind fills. */
  function Length(m: WasmModule, kind: nat): nat {
    if kind == SIGNATURES then |m.signatures| else if kind == FUNCTIONS then |m.functions|
    else if kind == GLOBALS then |m.globals| else if kind == SEGMENTS then |m.segments| else |m.table|
  }

  /** The counts that the sections declare. */
  function Declared(code: seq<byte>, limit: nat, pc: nat, seen: set<nat>, m: WasmModule, verify: bool,
      asmJs: bool): map<nat, nat>
    requires pc <= limit <= |code|
    decreases limit - pc
  {
    if pc == limit || code[pc] in seen || code[pc] == END then map[]
    else
      match ReadSection(code, limit, pc + 1, code[pc], seen, m, verify, asmJs)
      case Off => map[]
      case At(m1, pc1) =>
        var rest := Declared(code, limit, pc1, seen + {code[pc] as nat}, m1, verify, asmJs);
        if IsList(code[pc]) && Varint(code, limit,
          pc + 1).At? then rest[code[pc] as nat := Varint(code, limit, pc + 1).value] else rest
  }

  /** A section fills its list with as many parts as it declares, and no other list. */
  lemma SectionCounts(code: seq<byte>, limit: nat, pc: nat, kind: nat, seen: set<nat>, m: WasmModule, verify: bool,
      asmJs: bool)
    ensures var r := ReadSection(code, limit, pc, kind, seen, m, verify, asmJs);
      r.At? ==>
        && (IsList(kind) ==> Varint(code, limit, pc).At? && Length(r.value, kind) == Varint(code, limit, pc).value)
        && forall k :: IsList(k) && k != kind ==> Length(r.value, k) == Length(m, k)
  {
    hide Varint, Many, AllVerified, ReadSig, ReadFunction, ReadGlobal, ReadSegment, ReadEntry;
  }

  lemma {:induction false} SectionsCount(code: seq<byte>, limit: nat, pc: nat, seen: set<nat>, m: WasmModule,
      verify: bool, asmJs: bool)
    requires pc <= limit <= |code|
    ensures var r, n := Sections(code, limit, pc, seen, m, verify, asmJs),
      Declared(code, limit, pc, seen, m, verify, asmJs);
      && (forall k :: k in n ==> IsList(k) && k !in seen)
      && (r.Loaded? ==> forall k :: IsList(k) ==> Length(r.m, k) == if k in n then n[k] else Length(m, k))
    decreases limit - pc
  {
    hide ReadSection, Length, Varint;
    if pc < limit && code[pc] !in seen && code[pc] != END {
      SectionCounts(code, limit, pc + 1, code[pc], seen, m, verify, asmJs);
      var r := ReadSection(code, limit, pc + 1, code[pc], seen, m, verify, asmJs);
      if r.At? { SectionsCount(code, limit, r.pc, seen + {code[pc] as nat}, r.value, verify, asmJs); }
    }
  }

  lemma {:induction false} SectionsFit(code: seq<byte>, limit: nat, pc: nat, seen: set<nat>, m: WasmModule,
      verify: bool, asmJs: bool)
    requires pc <= limit <= |code| && WellFormed(limit, m) && Sealed(seen, m)
    requires (verify ==> AllVerified(code, asmJs, m))
    ensures var r := Sections(code, limit, pc, seen, m, verify, asmJs);
      r.Loaded? ==> WellFormed(limit, r.m) && (verify ==> AllVerified(code, asmJs, r.m))
    decreases limit - pc
  {
    hide ReadSection, WellFormed, Sealed, AllVerified;
    if pc < limit && code[pc] !in seen && code[pc] != END {
      SectionFits(code, limit, pc + 1, code[pc], seen, m, verify, asmJs);
      SectionVerifies(code, limit, pc + 1, code[pc], seen, m, verify, asmJs);
      var r := ReadSection(code, limit, pc + 1, code[pc], seen, m, verify, asmJs);
      if r.At? { SectionsFit(code, limit, r.pc, seen + {code[pc] as nat}, r.value, verify, asmJs); }
    }
  }

  /** Every byte string the decoder accepts is a well-formed module, whose lists are as long as declared; if bodies
      are verified they are so in the environment of the whole module. */
  lemma AcceptedWellFormed(code: seq<byte>, verify: bool, asmJs: bool)
    ensures var r, n := DecodeModule(code, verify, asmJs), Declared(code, |code|, 0, {}, EMPTY, verify, asmJs);
      r.Loaded? ==>
        && WellFormed(|code|, r.m) && (verify ==> AllVerified(code, asmJs, r.m))
        && forall k :: IsList(k) ==> Length(r.m, k) == if k in n then n[k] else 0
  {
    hide Sections, Declared;
    SectionsFit(code, |code|, 0, {}, EMPTY, verify, asmJs);
    SectionsCount(code, |code|, 0, {}, EMPTY, verify, asmJs);
  }

  /** The kinds of the sections read, in order. */
  function Kinds(code: seq<byte>, limit: nat, pc: nat, seen: set<nat>, m: WasmModule, verify: bool,
      asmJs: bool): seq<nat>
    requires pc <= limit <= |code|
    decreases limit - pc
  {
    if pc == limit || code[pc] in seen || code[pc] == END then []
    else
      match ReadSection(code, limit, pc + 1, code[pc], seen, m, verify, asmJs)
      case Off => []
      case At(m1, pc1) => [code[pc]] + Kinds(code, limit, pc1, seen + {code[pc] as nat}, m1, verify, asmJs)
  }

  predicate Before(ks: seq<nat>, a: nat, b: nat) {
    forall i :: 0 <= i < |ks| && ks[i] == b ==> exists j :: 0 <= j < i && ks[j] == a
  }

  predicate BeforeOr(seen: set<nat>, ks: seq<nat>, a: nat, b: nat) {
    a in seen || Before(ks, a, b)
  }

  /** No section twice, signatures before functions, functions before the table. */
  lemma {:induction false} KindsOrdered(code: seq<byte>, limit: nat, pc: nat, seen: set<nat>, m: WasmModule,
      verify: bool, asmJs: bool)
    requires pc <= limit <= |code|
    ensures var ks := Kinds(code, limit, pc, seen, m, verify, asmJs);
      && (forall i :: 0 <= i < |ks| ==> ks[i] !in seen) && (forall i, j :: 0 <= i < j < |ks| ==> ks[i] != ks[j])
      && BeforeOr(seen, ks, SIGNATURES, FUNCTIONS) && BeforeOr(seen, ks, FUNCTIONS, TABLE)
    decreases limit - pc
  {
    if pc < limit && code[pc] !in seen && code[pc] != END {
      var k: nat := code[pc];
      var r := ReadSection(code, limit, pc + 1, k, seen, m, verify, asmJs);
      if r.At? {
        assert (k == FUNCTIONS ==> SIGNATURES in seen) && (k == TABLE ==> FUNCTIONS in seen);
        hide ReadSection;
        KindsOrdered(code, limit, r.pc, seen + {k}, r.value, verify, asmJs);
        var rest := Kinds(code, limit, r.pc, seen + {k}, r.value, verify, asmJs);
        FirstBefore(seen, k, rest, SIGNATURES, FUNCTIONS);
        FirstBefore(seen, k, rest, FUNCTIONS, TABLE);
      }
    }
  }

  lemma FirstBefore(seen: set<nat>, k: nat, rest: seq<nat>, a: nat, b: nat)
    requires a != b && (k == b ==> a in seen) && BeforeOr(seen + {k}, rest, a, b)
    ensures BeforeOr(seen, [k] + rest, a, b)
  {
    if a !in seen {
      var ks := [k] + rest;
      forall i | 0 <= i < |ks| && ks[i] == b ensures exists j :: 0 <= j < i && ks[j] == a {
        if k == a {
          assert ks[0] == a;
        } else {
          assert rest[i - 1] == b;
          var j :| 0 <= j < i - 1 && rest[j] == a;
          assert ks[j + 1] == a;
        }
      }
    }
  }
}
