/** The module decoder as it runs: a cursor over the bytes, loops over the parts of each section, and a first
    error that ends everything. */
module ModuleDecoder {
  import opened Syntax
  import opened Leb128
  import opened Opcodes
  import opened ByteDecoder
  import opened Modules

  method DecodeType(d: Decoder) returns (ty: LocalType)
    requires d.Valid() && !d.failed
    modifies d`failed, d`pc
    ensures d.Valid() && !ty.End?
    ensures var r := ReadType(d.bytes, d.limit, old(d.pc)); if d.failed then r.Off? else r == At(ty, d.pc)
  {
    var c := d.ReadU8();
    ty := Stmt;
    if !d.failed {
      ty := TypeOfCode(c);
      if ty.End? {
        ty := Stmt;
        d.Error();
      }
    }
  }

  method DecodeSig(d: Decoder) returns (sig: FunctionSig)
    requires d.Valid() && !d.failed
    modifies d`failed, d`pc
    ensures d.Valid()
    ensures var r := ReadSig(d.bytes, d.limit, old(d.pc)); if d.failed then r.Off? else r == At(sig, d.pc)
  {
    sig := Sig([], Stmt);
    var count := d.ReadU8();
    if d.failed { return; }
    var ret := DecodeType(d);
    if d.failed { return; }
    ghost var start := d.pc;
    var params: seq<ValueType> := [];
    var i := 0;
    ghost var all := ReadParams(d.bytes, d.limit, start, count);
    if all.At? { assert [] + all.value == all.value; }
    while i < count
      invariant 0 <= i <= count && d.Valid() && !d.failed && |params| == i
      invariant ReadParams(d.bytes, d.limit, start, count) == match ReadParams(d.bytes, d.limit, d.pc, count - i)
        case Off => Off
        case At(rest, pc) => At(params + rest, pc)
    {
      ghost var before := d.pc;
      var ty := DecodeType(d);
      if !d.failed && ty.Stmt? { d.Error(); }
      if d.failed { return; }
      ghost var rest := ReadParams(d.bytes, d.limit, d.pc, count - i - 1);
      if rest.At? { assert params + ([ty] + rest.value) == params + [ty] + rest.value; }
      params := params + [ty];
      i := i + 1;
    }
    assert params + [] == params;
    sig := Sig(params, ret);
  }

  method DecodeOffset(d: Decoder) returns (offset: nat)
    requires d.Valid() && !d.failed
    modifies d`failed, d`pc
    ensures d.Valid()
    ensures var r := ReadOffset(d.bytes, d.limit, old(d.pc)); if d.failed then r.Off? else r == At(offset, d.pc)
  {
    offset := d.ReadU32();
    if !d.failed && offset > d.limit { d.Error(); }
  }

  method DecodeGlobal(d: Decoder) returns (g: Global)
    requires d.Valid() && !d.failed
    modifies d`failed, d`pc
    ensures d.Valid()
    ensures var r := ReadGlobal(d.bytes, d.limit, old(d.pc)); if d.failed then r.Off? else r == At(g, d.pc)
  {
    g := Global(0, 4, false);
    var name := DecodeOffset(d);
    if d.failed { return; }
    var ty := d.ReadU8();
    if !d.failed && ty >= 10 { d.Error(); }
    if d.failed { return; }
    var exported := d.ReadU8();
    g := Global(name, ty, exported != 0);
  }

  method DecodeCounts(d: Decoder) returns (n: Counts)
    requires d.Valid() && !d.failed
    modifies d`failed, d`pc
    ensures d.Valid()
    ensures var r := ReadCounts(d.bytes, d.limit, old(d.pc)); if d.failed then r.Off? else r == At(n, d.pc)
  {
    n := Counts(0, 0, 0, 0);
    var a := d.ReadU16();
    if d.failed { return; }
    var b := d.ReadU16();
    if d.failed { return; }
    var c := d.ReadU16();
    if d.failed { return; }
    var e := d.ReadU16();
    n := Counts(a, b, c, e);
  }

  method DecodeBody(d: Decoder, f: Function, locals: bool) returns (f': Function)
    requires d.Valid() && !d.failed
    modifies d`failed, d`pc
    ensures d.Valid()
    ensures var r := ReadBody(d.bytes, d.limit, old(d.pc), f, locals); if d.failed then r.Off? else r == At(f', d.pc)
  {
    hide ReadCounts;
    f' := f;
    var n := Counts(0, 0, 0, 0);
    if locals { n := DecodeCounts(d); }
    if d.failed { return; }
    var size := d.ReadU16();
    if d.failed { return; }
    if d.pc + size > d.limit {
      d.Error();
      return;
    }
    f' := f.(codeStart := d.pc, codeEnd := d.pc + size, int32s := n.int32s, int64s := n.int64s,
             float32s := n.float32s, float64s := n.float64s);
    d.pc := d.pc + size;
  }

  method DecodeFunction(d: Decoder, sigs: seq<FunctionSig>) returns (f: Function)
    requires d.Valid() && !d.failed
    modifies d`failed, d`pc
    ensures d.Valid()
    ensures var r := ReadFunction(d.bytes, d.limit, old(d.pc), sigs); if d.failed then r.Off? else r == At(f, d.pc)
  {
    hide ReadBody, ReadOffset;
    f := Function(Sig([], Stmt), 0, 0, 0, 0, 0, 0, 0, 0, false, false);
    var bits := d.ReadU8();
    if d.failed { return; }
    var index := d.ReadU16();
    if !d.failed && index >= |sigs| { d.Error(); }
    if d.failed { return; }
    var name := 0;
    if Bit(bits, 1) { name := DecodeOffset(d); }
    if d.failed { return; }
    f := Function(sigs[index], index, name, 0, 0, 0, 0, 0, 0, Bit(bits, 8), Bit(bits, 2));
    if !f.external { f := DecodeBody(d, f, Bit(bits, 4)); }
  }

  method DecodeSegment(d: Decoder) returns (s: Segment)
    requires d.Valid() && !d.failed
    modifies d`failed, d`pc
    ensures d.Valid()
    ensures var r := ReadSegment(d.bytes, d.limit, old(d.pc)); if d.failed then r.Off? else r == At(s, d.pc)
  {
    hide ReadOffset;
    s := Segment(0, 0, 0, false);
    var dest := d.ReadU32();
    if d.failed { return; }
    var source := DecodeOffset(d);
    if d.failed { return; }
    var size := d.ReadU32();
    if d.failed { return; }
    var init := d.ReadU8();
    s := Segment(dest, source, size, init != 0);
  }

  method DecodeEntry(d: Decoder, functions: nat) returns (i: nat)
    requires d.Valid() && !d.failed
    modifies d`failed, d`pc
    ensures d.Valid()
    ensures var r := ReadEntry(d.bytes, d.limit, old(d.pc), functions); if d.failed then r.Off? else r == At(i, d.pc)
  {
    i := d.ReadU16();
    if !d.failed && i >= functions { d.Error(); }
  }

  /** The parts of a section read so far, and what is left of it. */
  ghost predicate Midway<T>(read: nat -> Reading<T>, limit: nat, start: nat, n: nat, xs: seq<T>, pc: nat)
    requires forall p: nat :: read(p).At? ==> p <= read(p).pc <= limit
  {
    && |xs| <= n
    && Many(read, limit, start, n) == match Many(read, limit, pc, n - |xs|)
       case Off => Off
       case At(rest, end) => At(xs + rest, end)
  }

  lemma MidwayStart<T>(read: nat -> Reading<T>, limit: nat, start: nat, n: nat)
    requires forall p: nat :: read(p).At? ==> p <= read(p).pc <= limit
    ensures Midway(read, limit, start, n, [], start)
  {
    var r := Many(read, limit, start, n);
    if r.At? { assert [] + r.value == r.value; }
  }

  lemma MidwayStep<T>(read: nat -> Reading<T>, limit: nat, start: nat, n: nat, xs: seq<T>, pc: nat)
    requires forall p: nat :: read(p).At? ==> p <= read(p).pc <= limit
    requires Midway(read, limit, start, n, xs, pc) && |xs| < n
    ensures if read(pc).Off? then Many(read, limit, start, n).Off?
            else Midway(read, limit, start, n, xs + [read(pc).value], read(pc).pc)
  {
    if read(pc).At? {
      var x, pc1 := read(pc).value, read(pc).pc;
      var rest := Many(read, limit, pc1, n - |xs| - 1);
      if rest.At? { assert xs + ([x] + rest.value) == xs + [x] + rest.value; }
    }
  }

  lemma MidwayEnd<T>(read: nat -> Reading<T>, limit: nat, start: nat, n: nat, xs: seq<T>, pc: nat)
    requires forall p: nat :: read(p).At? ==> p <= read(p).pc <= limit
    requires Midway(read, limit, start, n, xs, pc) && |xs| == n
    ensures Many(read, limit, start, n) == At(xs, pc)
  {
    assert xs + [] == xs;
  }

  method DecodeSignatures(d: Decoder) returns (xs: seq<FunctionSig>)
    requires d.Valid() && !d.failed
    modifies d`failed, d`pc
    ensures d.Valid()
    ensures var r := Section(d.bytes, d.limit, old(d.pc), SigReader(d.bytes, d.limit));
      if d.failed then r.Off? else r == At(xs, d.pc)
  {
    hide ReadSig, Many;
    xs := [];
    var n := d.ReadU32v();
    if d.failed { return; }
    ghost var read, start := SigReader(d.bytes, d.limit), d.pc;
    MidwayStart(read, d.limit, start, n);
    while |xs| < n
      invariant d.Valid() && !d.failed && Midway(read, d.limit, start, n, xs, d.pc)
      decreases n - |xs|
    {
      MidwayStep(read, d.limit, start, n, xs, d.pc);
      var x := DecodeSig(d);
      if d.failed { return; }
      xs := xs + [x];
    }
    MidwayEnd(read, d.limit, start, n, xs, d.pc);
  }

  method DecodeFunctions(d: Decoder, sigs: seq<FunctionSig>) returns (xs: seq<Function>)
    requires d.Valid() && !d.failed
    modifies d`failed, d`pc
    ensures d.Valid()
    ensures var r := Section(d.bytes, d.limit, old(d.pc), FunctionReader(d.bytes, d.limit, sigs));
      if d.failed then r.Off? else r == At(xs, d.pc)
  {
    hide ReadFunction, Many;
    xs := [];
    var n := d.ReadU32v();
    if d.failed { return; }
    ghost var read, start := FunctionReader(d.bytes, d.limit, sigs), d.pc;
    MidwayStart(read, d.limit, start, n);
    while |xs| < n
      invariant d.Valid() && !d.failed && Midway(read, d.limit, start, n, xs, d.pc)
      decreases n - |xs|
    {
      MidwayStep(read, d.limit, start, n, xs, d.pc);
      var x := DecodeFunction(d, sigs);
      if d.failed { return; }
      xs := xs + [x];
    }
    MidwayEnd(read, d.limit, start, n, xs, d.pc);
  }

  method DecodeGlobals(d: Decoder) returns (xs: seq<Global>)
    requires d.Valid() && !d.failed
    modifies d`failed, d`pc
    ensures d.Valid()
    ensures var r := Section(d.bytes, d.limit, old(d.pc), GlobalReader(d.bytes, d.limit));
      if d.failed then r.Off? else r == At(xs, d.pc)
  {
    hide ReadGlobal, Many;
    xs := [];
    var n := d.ReadU32v();
    if d.failed { return; }
    ghost var read, start := GlobalReader(d.bytes, d.limit), d.pc;
    MidwayStart(read, d.limit, start, n);
    while |xs| < n
      invariant d.Valid() && !d.failed && Midway(read, d.limit, start, n, xs, d.pc)
      decreases n - |xs|
    {
      MidwayStep(read, d.limit, start, n, xs, d.pc);
      var x := DecodeGlobal(d);
      if d.failed { return; }
      xs := xs + [x];
    }
    MidwayEnd(read, d.limit, start, n, xs, d.pc);
  }

  method DecodeSegments(d: Decoder) returns (xs: seq<Segment>)
    requires d.Valid() && !d.failed
    modifies d`failed, d`pc
    ensures d.Valid()
    ensures var r := Section(d.bytes, d.limit, old(d.pc), SegmentReader(d.bytes, d.limit));
      if d.failed then r.Off? else r == At(xs, d.pc)
  {
    hide ReadSegment, Many;
    xs := [];
    var n := d.ReadU32v();
    if d.failed { return; }
    ghost var read, start := SegmentReader(d.bytes, d.limit), d.pc;
    MidwayStart(read, d.limit, start, n);
    while |xs| < n
      invariant d.Valid() && !d.failed && Midway(read, d.limit, start, n, xs, d.pc)
      decreases n - |xs|
    {
      MidwayStep(read, d.limit, start, n, xs, d.pc);
      var x := DecodeSegment(d);
      if d.failed { return; }
      xs := xs + [x];
    }
    MidwayEnd(read, d.limit, start, n, xs, d.pc);
  }

  method DecodeTable(d: Decoder, functions: nat) returns (xs: seq<nat>)
    requires d.Valid() && !d.failed
    modifies d`failed, d`pc
    ensures d.Valid()
    ensures var r := Section(d.bytes, d.limit, old(d.pc), EntryReader(d.bytes, d.limit, functions));
      if d.failed then r.Off? else r == At(xs, d.pc)
  {
    hide ReadEntry, Many;
    xs := [];
    var n := d.ReadU32v();
    if d.failed { return; }
    ghost var read, start := EntryReader(d.bytes, d.limit, functions), d.pc;
    MidwayStart(read, d.limit, start, n);
    while |xs| < n
      invariant d.Valid() && !d.failed && Midway(read, d.limit, start, n, xs, d.pc)
      decreases n - |xs|
    {
      MidwayStep(read, d.limit, start, n, xs, d.pc);
      var x := DecodeEntry(d, functions);
      if d.failed { return; }
      xs := xs + [x];
    }
    MidwayEnd(read, d.limit, start, n, xs, d.pc);
  }

  /** Each function body in turn goes through the function decoder. */
  method VerifyFunctions(code: seq<byte>, asmJs: bool, m: WasmModule) returns (ok: bool)
    ensures ok == AllVerified(code, asmJs, m)
  {
    hide Verified;
    var i := 0;
    while i < |m.functions|
      invariant 0 <= i <= |m.functions| && forall j :: 0 <= j < i ==> Verified(code, asmJs, m, m.functions[j])
    {
      if !Verified(code, asmJs, m, m.functions[i]) { return false; }
      i := i + 1;
    }
    ok := true;
  }

  method DecodeMemory(d: Decoder, m: WasmModule) returns (m': WasmModule)
    requires d.Valid() && !d.failed
    modifies d`failed, d`pc
    ensures d.Valid()
    ensures var r := ReadMemory(d.bytes, d.limit, old(d.pc), m); if d.failed then r.Off? else r == At(m', d.pc)
  {
    m' := m;
    var a := d.ReadU8();
    if d.failed { return; }
    var b := d.ReadU8();
    if d.failed { return; }
    var c := d.ReadU8();
    m' := m.(minMem := a, maxMem := b, memExport := c != 0);
  }

  method DecodeSection(d: Decoder, kind: nat, seen: set<nat>, m: WasmModule, verify: bool, asmJs: bool)
    returns (m': WasmModule)
    requires d.Valid() && !d.failed
    modifies d`failed, d`pc
    ensures d.Valid()
    ensures var r := ReadSection(d.bytes, d.limit, old(d.pc), kind, seen, m, verify, asmJs);
      if d.failed then r.Off? else r == At(m', d.pc)
  {
    hide Section, ReadMemory, AllVerified;
    m' := m;
    if kind == MEMORY {
      m' := DecodeMemory(d, m);
    } else if kind == SIGNATURES {
      var xs := DecodeSignatures(d);
      m' := m.(signatures := xs);
    } else if kind == FUNCTIONS {
      if SIGNATURES !in seen { d.Error(); return; }
      var xs := DecodeFunctions(d, m.signatures);
      if d.failed { return; }
      m' := m.(functions := xs);
      if verify {
        var ok := VerifyFunctions(d.bytes, asmJs, m');
        if !ok { d.Error(); }
      }
    } else if kind == GLOBALS {
      var xs := DecodeGlobals(d);
      m' := m.(globals := xs);
    } else if kind == SEGMENTS {
      var xs := DecodeSegments(d);
      m' := m.(segments := xs);
    } else if kind == TABLE {
      if FUNCTIONS !in seen { d.Error(); return; }
      var xs := DecodeTable(d, |m.functions|);
      m' := m.(table := xs);
    } else {
      d.Error();
    }
  }

  /** The section loop. */
  method Decode(code: seq<byte>, verify: bool, asmJs: bool) returns (r: Loading)
    ensures r == DecodeModule(code, verify, asmJs)
    ensures r.Loaded? ==> WellFormed(|code|, r.m) && (verify ==> AllVerified(code, asmJs, r.m))
  {
    hide ReadSection, WellFormed, AllVerified, Declared;
    AcceptedWellFormed(code, verify, asmJs);
    var d := new Decoder(code);
    var m, seen := EMPTY, {};
    while d.pc < d.limit
      invariant d.Valid() && !d.failed && d.bytes == code && d.limit == |code|
      invariant Sections(code, |code|, d.pc, seen, m, verify, asmJs) == DecodeModule(code, verify, asmJs)
      decreases d.limit - d.pc
    {
      var kind: nat := code[d.pc];
      d.pc := d.pc + 1;
      if kind in seen { return Failed; }
      if kind == END { return Loaded(m); }
      m := DecodeSection(d, kind, seen, m, verify, asmJs);
      if d.failed { return Failed; }
      seen := seen + {kind};
    }
    r := Loaded(m);
  }
}
