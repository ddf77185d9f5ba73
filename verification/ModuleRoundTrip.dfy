/** What the writer writes, the decoder reads back. */
module ModuleRoundTrip {
  import opened Syntax
  import opened Leb128
  import opened Opcodes
  import opened ByteLists
  import opened ByteDecoder
  import opened Modules
  import opened ModuleWriter

  /** The modules the format can hold: counts, indices and sizes fit their fields, imports have no locals, and
      indices name something. */
  predicate Encodable(w: WModule) {
    && (forall i :: 0 <= i < |w.signatures| ==> |w.signatures[i].params| < 256)
    && (forall i :: 0 <= i < |w.functions| ==> FunctionOk(w, w.functions[i]))
    && (forall i :: 0 <= i < |w.segments| ==> w.segments[i].dest < U32 && |w.segments[i].data| < U32)
    && (forall i :: 0 <= i < |w.table| ==> w.table[i] < |w.functions| && w.table[i] < 0x1_0000)
    && |w.globals| < U32 && |w.signatures| < U32 && |w.functions| < U32 && |w.segments| < U32 && |w.table| < U32
    && |ModuleBytes(w)| < U32
  }

  predicate FunctionOk(w: WModule, f: WFunction) {
    && f.sigIndex < |w.signatures| && f.sigIndex < 0x1_0000 && |f.body| < 0x1_0000
    && f.counts.int32s < 0x1_0000 && f.counts.int64s < 0x1_0000 && f.counts.float32s < 0x1_0000
      && f.counts.float64s < 0x1_0000
    && (f.external ==> !HasLocals(f))
  }

  // ----- Parts -----

  lemma ByteHas(code: seq<byte>, limit: nat, pc: nat, b: byte)
    requires Has(code, pc, [b]) && pc + 1 <= limit <= |code|
    ensures Fixed(code, limit, pc, 1) == At(b, pc + 1)
  {
    HasAt(code, pc, [b], 0);
    assert LittleEndian(code, pc, 1) == code[pc] + 256 * LittleEndian(code, pc + 1, 0);
  }

  lemma WordHas(code: seq<byte>, limit: nat, pc: nat, n: nat, k: nat)
    requires Has(code, pc, Word(n, k)) && ((k == 2 && n < 0x1_0000) || (k == 4 && n < U32)) && pc + k <= limit <= |code|
    ensures Fixed(code, limit, pc, k) == At(n, pc + k)
  {
    hide Word, Pow2, LittleEndian;
    FourBytes();
    TwoBytes();
    WordReads(code, pc, n, k);
  }

  lemma TwoBytes()
    ensures Pow2(8 * 2) == 0x1_0000
  {
    Pow2Add(8, 8);
    assert Pow2(8) == 256;
  }

  lemma VarintHas(code: seq<byte>, pc: nat, n: nat)
    requires Has(code, pc, Encode(n)) && n < U32
    ensures Varint(code, |code|, pc) == At(n, pc + |Encode(n)|)
  {
    hide Encode, ReadAt;
    assert code[..|code|] == code;
    ReadHas(code, pc, n);
  }

  lemma TypeHas(code: seq<byte>, pc: nat, t: LocalType)
    requires Has(code, pc, [CodeOfType(t)]) && !t.End?
    ensures ReadType(code, |code|, pc) == At(t, pc + 1)
  {
    hide Fixed;
    ByteHas(code, |code|, pc, CodeOfType(t));
  }

  lemma {:induction false} ParamsHas(code: seq<byte>, pc: nat, ts: seq<ValueType>)
    requires Has(code, pc, TypeCodes(ts))
    ensures ReadParams(code, |code|, pc, |ts|) == At(ts, pc + |ts|)
    decreases |ts|
  {
    hide ReadType, Has;
    if ts != [] {
      HasCat(code, pc, [CodeOfType(ts[0])], TypeCodes(ts[1..]));
      TypeHas(code, pc, ts[0]);
      ParamsHas(code, pc + 1, ts[1..]);
      assert [ts[0]] + ts[1..] == ts;
    }
  }

  lemma SigHas(code: seq<byte>, pc: nat, s: FunctionSig)
    requires Has(code, pc, SigBytes(s)) && |s.params| < 256
    ensures ReadSig(code, |code|, pc) == At(s, pc + |SigBytes(s)|)
  {
    hide Has, ReadType, ReadParams, Fixed;
    var n: byte := |s.params|;
    assert SigBytes(s) == [n] + ([CodeOfType(s.ret)] + TypeCodes(s.params));
    HasCat(code, pc, [n], [CodeOfType(s.ret)] + TypeCodes(s.params));
    HasCat(code, pc + 1, [CodeOfType(s.ret)], TypeCodes(s.params));
    InBounds(code, pc, [n]);
    ByteHas(code, |code|, pc, n);
    TypeHas(code, pc + 1, s.ret);
    ParamsHas(code, pc + 2, s.params);
  }

  lemma InBounds(code: seq<byte>, pc: nat, bs: seq<byte>)
    requires Has(code, pc, bs)
    ensures pc + |bs| <= |code|
  {
  }

  lemma GlobalShape(g: WGlobal, x: byte)
    requires x == if g.exported then 1 else 0
    ensures GlobalBytes(g) == Word(0, 4) + ([g.ty as byte] + [x])
  {
    hide Word;
  }

  lemma GlobalHas(code: seq<byte>, pc: nat, g: WGlobal)
    requires Has(code, pc, GlobalBytes(g))
    ensures ReadGlobal(code, |code|, pc) == At(Global(0, g.ty, g.exported), pc + 6)
  {
    var x: byte := if g.exported then 1 else 0;
    hide Has, Word, Fixed, GlobalBytes;
    GlobalShape(g, x);
    InBounds(code, pc, GlobalBytes(g));
    HasCat(code, pc, Word(0, 4), [g.ty as byte] + [x]);
    HasCat(code, pc + 4, [g.ty as byte], [x]);
    WordHas(code, |code|, pc, 0, 4);
    ByteHas(code, |code|, pc + 4, g.ty);
    ByteHas(code, |code|, pc + 5, x);
  }

  lemma CountsHas(code: seq<byte>, pc: nat, n: Counts)
    requires Has(code, pc, CountBytes(n)) && n.int32s < 0x1_0000 && n.int64s < 0x1_0000 && n.float32s < 0x1_0000
    requires n.float64s < 0x1_0000
    ensures ReadCounts(code, |code|, pc) == At(n, pc + 8)
  {
    InBounds(code, pc, CountBytes(n));
    hide Has, Word, Fixed;
    HasFour(code, pc, Word(n.int32s, 2), Word(n.int64s, 2), Word(n.float32s, 2), Word(n.float64s, 2));
    WordHas(code, |code|, pc, n.int32s, 2);
    WordHas(code, |code|, pc + 2, n.int64s, 2);
    WordHas(code, |code|, pc + 4, n.float32s, 2);
    WordHas(code, |code|, pc + 6, n.float64s, 2);
  }

  /** Where the body of a function written at pc starts. */
  function BodyAt(f: WFunction, pc: nat): nat {
    if f.external then 0 else pc + FunctionHeaderSize(f)
  }

  /** The function as read back. */
  function Reread(w: WModule, f: WFunction, pc: nat): Function
    requires FunctionOk(w, f)
  {
    var n := if f.external then Counts(0, 0, 0, 0) else f.counts;
    Function(w.signatures[f.sigIndex], f.sigIndex, 0, BodyAt(f, pc), BodyAt(f, pc) + FunctionBodySize(f),
             n.int32s, n.int64s, n.float32s, n.float64s, f.exported, f.external)
  }

  lemma BitsOf(f: WFunction)
    ensures var b := DeclBits(f);
      !Bit(b, 1) && Bit(b, 2) == f.external && Bit(b, 4) == HasLocals(f) && Bit(b, 8) == f.exported
  {
  }

  function CountsOf(f: WFunction): seq<byte> {
    if HasLocals(f) then CountBytes(f.counts) else []
  }

  lemma FunctionParts(code: seq<byte>, pc: nat, f: WFunction)
    requires Has(code, pc, FunctionBytes(f))
    ensures pc + |FunctionBytes(f)| <= |code|
    ensures Has(code, pc, [DeclBits(f)]) && Has(code, pc + 1, Word(f.sigIndex, 2)) && Has(code, pc + 3, CountsOf(f))
    ensures !f.external ==> Has(code, pc + 3 + |CountsOf(f)|, Word(|f.body|, 2) + f.body)
    ensures |FunctionBytes(f)| == 3 + |CountsOf(f)| + if f.external then 0 else 2 + |f.body|
  {
    var body := if f.external then [] else Word(|f.body|, 2) + f.body;
    InBounds(code, pc, FunctionBytes(f));
    hide Has, Word, DeclBits, HasLocals, CountBytes;
    assert FunctionBytes(f) == [DeclBits(f)] + Word(f.sigIndex, 2) + CountsOf(f) + body;
    hide FunctionBytes, CountsOf;
    HasFour(code, pc, [DeclBits(f)], Word(f.sigIndex, 2), CountsOf(f), body);
  }

  lemma FunctionHas(code: seq<byte>, pc: nat, w: WModule, f: WFunction)
    requires Has(code, pc, FunctionBytes(f)) && FunctionOk(w, f)
    ensures ReadFunction(code, |code|, pc, w.signatures) == At(Reread(w, f, pc), pc + |FunctionBytes(f)|)
    ensures !f.external ==> Has(code, BodyAt(f, pc), f.body)
  {
    BitsOf(f);
    hide Has, Word, Fixed, DeclBits, Bit, ReadBody, HasLocals, FunctionBytes;
    FunctionParts(code, pc, f);
    ByteHas(code, |code|, pc, DeclBits(f));
    WordHas(code, |code|, pc + 1, f.sigIndex, 2);
    if !f.external { BodyHas(code, pc + 3, w, f); }
  }

  lemma BodyHas(code: seq<byte>, pc: nat, w: WModule, f: WFunction)
    requires FunctionOk(w, f) && !f.external
    requires Has(code, pc, CountsOf(f)) && Has(code, pc + |CountsOf(f)|, Word(|f.body|, 2) + f.body)
    ensures var n := if HasLocals(f) then 8 else 0;
      var g := Function(w.signatures[f.sigIndex], f.sigIndex, 0, 0, 0, 0, 0, 0, 0, f.exported, f.external);
      && Has(code, pc + n + 2, f.body)
      && ReadBody(code, |code|, pc, g, HasLocals(f)) == At(g.(codeStart := pc + n + 2, codeEnd := pc + n + 2 + |f.body|,
           int32s := f.counts.int32s, int64s := f.counts.int64s, float32s := f.counts.float32s,
             float64s := f.counts.float64s), pc + n + 2 + |f.body|)
  {
    var n := if HasLocals(f) then 8 else 0;
    hide Has, Word, Fixed, ReadCounts;
    HasCat(code, pc + n, Word(|f.body|, 2), f.body);
    InBounds(code, pc + n + 2, f.body);
    WordHas(code, |code|, pc + n, |f.body|, 2);
    if HasLocals(f) { CountsHas(code, pc, f.counts); }
  }

  lemma SegmentHas(code: seq<byte>, pc: nat, s: WSegment, at: nat)
    requires Has(code, pc, SegmentBytes(s, at)) && s.dest < U32 && |s.data| < U32 && at <= |code| < U32
    ensures ReadSegment(code, |code|, pc) == At(Segment(s.dest, at, |s.data|, true), pc + 13)
  {
    InBounds(code, pc, SegmentBytes(s, at));
    hide Has, Word, Fixed;
    HasFour(code, pc, Word(s.dest, 4), Word(at, 4), Word(|s.data|, 4), [1]);
    WordHas(code, |code|, pc, s.dest, 4);
    WordHas(code, |code|, pc + 4, at, 4);
    WordHas(code, |code|, pc + 8, |s.data|, 4);
    ByteHas(code, |code|, pc + 12, 1);
  }

  // ----- Lists of parts -----

  function RereadGlobals(gs: seq<WGlobal>): (r: seq<Global>)
    ensures |r| == |gs| && forall i :: 0 <= i < |gs| ==> r[i] == Global(0, gs[i].ty, gs[i].exported)
  {
    if gs == [] then [] else [Global(0, gs[0].ty, gs[0].exported)] + RereadGlobals(gs[1..])
  }

  /** Functions written one after the other from pc. */
  function RereadFunctions(w: WModule, fs: seq<WFunction>, pc: nat): (r: seq<Function>)
    requires forall i :: 0 <= i < |fs| ==> FunctionOk(w, fs[i])
    ensures |r| == |fs|
  {
    if fs == [] then [] else [Reread(w, fs[0], pc)] + RereadFunctions(w, fs[1..], pc + |FunctionBytes(fs[0])|)
  }

  function RereadSegments(ss: seq<WSegment>, at: nat): (r: seq<Segment>)
    ensures |r| == |ss|
  {
    if ss == [] then [] else [Segment(ss[0].dest, at, |ss[0].data|, true)] + RereadSegments(ss[1..], at + |ss[0].data|)
  }

  lemma {:induction false} GlobalsHas(code: seq<byte>, pc: nat, gs: seq<WGlobal>)
    requires Has(code, pc, Globals(gs))
    ensures Many(GlobalReader(code, |code|), |code|, pc, |gs|) == At(RereadGlobals(gs), pc + |Globals(gs)|)
    decreases |gs|
  {
    hide Has, ReadGlobal, GlobalBytes;
    if gs != [] {
      HasCat(code, pc, GlobalBytes(gs[0]), Globals(gs[1..]));
      GlobalHas(code, pc, gs[0]);
      GlobalsHas(code, pc + 6, gs[1..]);
    }
  }

  lemma {:induction false} SigsHas(code: seq<byte>, pc: nat, ss: seq<FunctionSig>)
    requires Has(code, pc, Sigs(ss)) && forall i :: 0 <= i < |ss| ==> |ss[i].params| < 256
    ensures Many(SigReader(code, |code|), |code|, pc, |ss|) == At(ss, pc + |Sigs(ss)|)
    decreases |ss|
  {
    hide Has, ReadSig, SigBytes;
    if ss != [] {
      HasCat(code, pc, SigBytes(ss[0]), Sigs(ss[1..]));
      SigHas(code, pc, ss[0]);
      SigsHas(code, pc + |SigBytes(ss[0])|, ss[1..]);
      assert [ss[0]] + ss[1..] == ss;
    }
  }

  lemma {:induction false} FunctionsHas(code: seq<byte>, pc: nat, w: WModule, fs: seq<WFunction>)
    requires Has(code, pc, Functions(fs)) && forall i :: 0 <= i < |fs| ==> FunctionOk(w, fs[i])
    ensures Many(FunctionReader(code, |code|, w.signatures), |code|, pc, |fs|)
      == At(RereadFunctions(w, fs, pc), pc + |Functions(fs)|)
    decreases |fs|
  {
    hide Has, ReadFunction, FunctionBytes, FunctionOk, Reread;
    if fs != [] {
      HasCat(code, pc, FunctionBytes(fs[0]), Functions(fs[1..]));
      FunctionHas(code, pc, w, fs[0]);
      FunctionsHas(code, pc + |FunctionBytes(fs[0])|, w, fs[1..]);
    }
  }

  lemma {:induction false} SegmentsHas(code: seq<byte>, pc: nat, ss: seq<WSegment>, at: nat)
    requires Has(code, pc, SegmentHeaders(ss, at)) && Has(code, at, Data(ss)) && |code| < U32
    requires forall i :: 0 <= i < |ss| ==> ss[i].dest < U32 && |ss[i].data| < U32
    ensures Many(SegmentReader(code, |code|), |code|, pc, |ss|)
      == At(RereadSegments(ss, at), pc + |SegmentHeaders(ss, at)|)
    decreases |ss|
  {
    hide Has, ReadSegment, SegmentBytes;
    InBounds(code, at, Data(ss));
    if ss != [] {
      HasCat(code, pc, SegmentBytes(ss[0], at), SegmentHeaders(ss[1..], at + |ss[0].data|));
      HasCat(code, at, ss[0].data, Data(ss[1..]));
      SegmentHas(code, pc, ss[0], at);
      SegmentsHas(code, pc + 13, ss[1..], at + |ss[0].data|);
    }
  }

  lemma {:induction false} EntriesHas(code: seq<byte>, pc: nat, t: seq<nat>, functions: nat)
    requires Has(code, pc, Entries(t)) && forall i :: 0 <= i < |t| ==> t[i] < functions && t[i] < 0x1_0000
    ensures Many(EntryReader(code, |code|, functions), |code|, pc, |t|) == At(t, pc + |Entries(t)|)
    decreases |t|
  {
    hide Has, Word, Fixed;
    if t != [] {
      HasCat(code, pc, Word(t[0], 2), Entries(t[1..]));
      InBounds(code, pc, Word(t[0], 2));
      WordHas(code, |code|, pc, t[0], 2);
      EntriesHas(code, pc + 2, t[1..], functions);
      assert [t[0]] + t[1..] == t;
    }
  }

  // ----- Sections -----

  function Seen(seen: set<nat>, kind: nat, n: nat): set<nat> {
    if n == 0 then seen else seen + {kind}
  }

  /** A section that is there: its code, its count, its content. */
  lemma SectionHas(code: seq<byte>, pc: nat, kind: byte, n: nat, content: seq<byte>)
    requires 0 < n < U32 && Has(code, pc, SectionBytes(kind, n, content))
    ensures pc < |code| && code[pc] == kind && Varint(code, |code|, pc + 1) == At(n, pc + 1 + |Encode(n)|)
    ensures Has(code, pc + 1 + |Encode(n)|, content) && |SectionBytes(kind, n, content)| == 1 + |Encode(n)| + |content|
  {
    hide Encode, Has;
    HasCat(code, pc, [kind] + Encode(n), content);
    HasCat(code, pc, [kind], Encode(n));
    HasAt(code, pc, [kind], 0);
    VarintHas(code, pc + 1, n);
  }

  lemma StepGlobals(code: seq<byte>, pc: nat, seen: set<nat>, m: WasmModule, gs: seq<WGlobal>, verify: bool,
      asmJs: bool)
    requires var s := SectionBytes(3, |gs|, Globals(gs)); Has(code, pc, s) && pc + |s| <= |code|
    requires 3 !in seen && m.globals == [] && |gs| < U32
    ensures Sections(code, |code|, pc, seen, m, verify, asmJs)
      == Sections(code, |code|, pc + |SectionBytes(3, |gs|, Globals(gs))|, Seen(seen, 3, |gs|),
        m.(globals := RereadGlobals(gs)), verify, asmJs)
  {
    hide Has, Encode, Globals, Many, Varint, AllVerified;
    if gs != [] {
      SectionHas(code, pc, 3, |gs|, Globals(gs));
      GlobalsHas(code, pc + 1 + |Encode(|gs|)|, gs);
    } else {
      assert m.(globals := RereadGlobals(gs)) == m;
    }
  }

  lemma StepSigs(code: seq<byte>, pc: nat, seen: set<nat>, m: WasmModule, ss: seq<FunctionSig>, verify: bool,
      asmJs: bool)
    requires var s := SectionBytes(1, |ss|, Sigs(ss)); Has(code, pc, s) && pc + |s| <= |code|
    requires 1 !in seen && m.signatures == [] && |ss| < U32 && forall i :: 0 <= i < |ss| ==> |ss[i].params| < 256
    ensures Sections(code, |code|, pc, seen, m, verify, asmJs)
      == Sections(code, |code|, pc + |SectionBytes(1, |ss|, Sigs(ss))|, Seen(seen, 1, |ss|), m.(signatures := ss),
        verify, asmJs)
  {
    hide Has, Encode, Sigs, Many, Varint, AllVerified;
    if ss != [] {
      SectionHas(code, pc, 1, |ss|, Sigs(ss));
      SigsHas(code, pc + 1 + |Encode(|ss|)|, ss);
    } else {
      assert m.(signatures := ss) == m;
    }
  }

  /** Where the functions of a module written at pc begin. */
  function FunctionsAt(pc: nat, n: nat): nat {
    pc + 1 + |Encode(n)|
  }

  lemma StepFunctions(code: seq<byte>, pc: nat, seen: set<nat>, m: WasmModule, w: WModule, verify: bool, asmJs: bool)
    requires var s := SectionBytes(2, |w.functions|, Functions(w.functions)); Has(code, pc, s) && pc + |s| <= |code|
    requires 2 !in seen && m.functions == [] && |w.functions| < U32
    requires forall i :: 0 <= i < |w.functions| ==> FunctionOk(w, w.functions[i])
    requires m.signatures == w.signatures && (w.signatures != [] ==> 1 in seen)
    ensures var m1 := m.(functions := RereadFunctions(w, w.functions, FunctionsAt(pc, |w.functions|)));
      Sections(code, |code|, pc, seen, m, verify, asmJs)
      == if w.functions != [] && verify && !AllVerified(code, asmJs, m1) then Failed
         else Sections(code, |code|, pc + |SectionBytes(2, |w.functions|, Functions(w.functions))|,
           Seen(seen, 2, |w.functions|), m1, verify, asmJs)
  {
    hide Has, Encode, Functions, Many, Varint, AllVerified;
    var fs := w.functions;
    if fs != [] {
      assert FunctionOk(w, fs[0]);
      SectionHas(code, pc, 2, |fs|, Functions(fs));
      FunctionsHas(code, pc + 1 + |Encode(|fs|)|, w, fs);
    } else {
      assert m.(functions := []) == m;
    }
  }

  lemma StepSegments(code: seq<byte>, pc: nat, seen: set<nat>, m: WasmModule, ss: seq<WSegment>, at: nat, verify: bool,
      asmJs: bool)
    requires var s := SectionBytes(4, |ss|, SegmentHeaders(ss, at)); Has(code, pc, s) && pc + |s| <= |code|
    requires 4 !in seen && m.segments == [] && |ss| < U32 && Has(code, at, Data(ss)) && |code| < U32
    requires forall i :: 0 <= i < |ss| ==> ss[i].dest < U32 && |ss[i].data| < U32
    ensures Sections(code, |code|, pc, seen, m, verify, asmJs)
      == Sections(code, |code|, pc + |SectionBytes(4, |ss|, SegmentHeaders(ss, at))|, Seen(seen, 4, |ss|),
        m.(segments := RereadSegments(ss, at)), verify, asmJs)
  {
    hide Has, Encode, SegmentHeaders, Many, Varint, AllVerified, Data;
    if ss != [] {
      SectionHas(code, pc, 4, |ss|, SegmentHeaders(ss, at));
      SegmentsHas(code, pc + 1 + |Encode(|ss|)|, ss, at);
    } else {
      assert m.(segments := RereadSegments(ss, at)) == m;
    }
  }

  lemma StepTable(code: seq<byte>, pc: nat, seen: set<nat>, m: WasmModule, t: seq<nat>, verify: bool, asmJs: bool)
    requires var s := SectionBytes(5, |t|, Entries(t)); Has(code, pc, s) && pc + |s| <= |code|
    requires 5 !in seen && m.table == [] && |t| < U32
    requires (forall i :: 0 <= i < |t| ==> t[i] < |m.functions| && t[i] < 0x1_0000)
    requires m.functions != [] ==> 2 in seen
    ensures Sections(code, |code|, pc, seen, m, verify, asmJs)
      == Sections(code, |code|, pc + |SectionBytes(5, |t|, Entries(t))|, Seen(seen, 5, |t|), m.(table := t), verify,
        asmJs)
  {
    hide Has, Encode, Entries, Many, Varint, AllVerified;
    if t != [] {
      assert t[0] < |m.functions|;
      SectionHas(code, pc, 5, |t|, Entries(t));
      EntriesHas(code, pc + 1 + |Encode(|t|)|, t, |m.functions|);
    } else {
      assert m.(table := t) == m;
    }
  }

  /** Where the function section of a written module stands. */
  function FunctionSectionAt(w: WModule): nat {
    4 + |SectionBytes(3, |w.globals|, Globals(w.globals))| + |SectionBytes(1, |w.signatures|, Sigs(w.signatures))|
  }

  /** The module up to its functions, as the decoder has it when it verifies them. */
  function Front(w: WModule): WasmModule
    requires Encodable(w)
  {
    EMPTY.(minMem := 16, maxMem := 16, globals := RereadGlobals(w.globals), signatures := w.signatures,
           functions := RereadFunctions(w, w.functions, FunctionsAt(FunctionSectionAt(w), |w.functions|)))
  }

  /** The module as read back. */
  function Back(w: WModule): WasmModule
    requires Encodable(w)
  {
    Front(w).(segments := RereadSegments(w.segments, HeaderSize(w)), table := w.table)
  }

  lemma StepMemory(code: seq<byte>, verify: bool, asmJs: bool)
    requires Has(code, 0, MEMORY_SECTION)
    ensures |code| >= 4 && DecodeModule(code, verify, asmJs)
      == Sections(code, |code|, 4, {MEMORY}, EMPTY.(minMem := 16, maxMem := 16), verify, asmJs)
  {
    InBounds(code, 0, MEMORY_SECTION);
    forall i | 0 <= i < 4 ensures code[i] == MEMORY_SECTION[i] { HasAt(code, 0, MEMORY_SECTION, i); }
    hide Sections, Has;
    forall i: nat | 1 <= i < 4 ensures Fixed(code, |code|, i, 1) == At(code[i], i + 1) {
      assert LittleEndian(code, i, 1) == code[i] + 256 * LittleEndian(code, i + 1, 0);
    }
    assert ReadMemory(code, |code|, 1, EMPTY) == At(EMPTY.(minMem := 16, maxMem := 16), 4);
    FirstSection(code, verify, asmJs);
  }

  lemma FirstSection(code: seq<byte>, verify: bool, asmJs: bool)
    requires |code| >= 4 && code[0] == MEMORY
    requires ReadMemory(code, |code|, 1, EMPTY) == At(EMPTY.(minMem := 16, maxMem := 16), 4)
    ensures DecodeModule(code, verify, asmJs)
      == Sections(code, |code|, 4, {MEMORY}, EMPTY.(minMem := 16, maxMem := 16), verify, asmJs)
  {
    hide ReadMemory;
    assert {} + {code[0] as nat} == {MEMORY};
  }

  /** Main theorem: the bytes of every encodable module decode to that module, and fail only if a function
      body is rejected. */
  lemma RoundTrip(w: WModule, verify: bool, asmJs: bool)
    requires Encodable(w)
    ensures DecodeModule(ModuleBytes(w), verify, asmJs)
      == if w.functions != [] && verify && !AllVerified(ModuleBytes(w), asmJs, Front(w)) then Failed
        else Loaded(Back(w))
  {
    hide Has, ModuleBytes, HeaderSize, SectionBytes, Globals, Sigs, Functions, SegmentHeaders, Entries, Data, EndMark,
         Encode, Sections,
      AllVerified, DecodeModule, FunctionOk, RereadFunctions, RereadSegments, RereadGlobals;
    var code, hs := ModuleBytes(w), HeaderSize(w);
    HeaderPlaces(w);
    StepMemory(code, verify, asmJs);
    var p2 := 4 + |SectionBytes(3, |w.globals|, Globals(w.globals))|;
    var p3 := FunctionSectionAt(w);
    var p4 := p3 + |SectionBytes(2, |w.functions|, Functions(w.functions))|;
    var p5 := p4 + |SectionBytes(4, |w.segments|, SegmentHeaders(w.segments, hs))|;
    var p6 := p5 + |SectionBytes(5, |w.table|, Entries(w.table))|;
    var m0 := EMPTY.(minMem := 16, maxMem := 16);
    StepGlobals(code, 4, {MEMORY}, m0, w.globals, verify, asmJs);
    var m1, s1 := m0.(globals := RereadGlobals(w.globals)), Seen({MEMORY}, 3, |w.globals|);
    StepSigs(code, p2, s1, m1, w.signatures, verify, asmJs);
    var m2, s2 := m1.(signatures := w.signatures), Seen(s1, 1, |w.signatures|);
    StepFunctions(code, p3, s2, m2, w, verify, asmJs);
    var m3, s3 := Front(w), Seen(s2, 2, |w.functions|);
    assert m3 == m2.(functions := RereadFunctions(w, w.functions, FunctionsAt(p3, |w.functions|)));
    StepSegments(code, p4, s3, m3, w.segments, hs, verify, asmJs);
    var m4, s4 := m3.(segments := RereadSegments(w.segments, hs)), Seen(s3, 4, |w.segments|);
    StepTable(code, p5, s4, m4, w.table, verify, asmJs);
    var m5, s5 := m4.(table := w.table), Seen(s4, 5, |w.table|);
    LastStep(w, code, p6, s5, m5, verify, asmJs);
  }

  lemma LastStep(w: WModule, code: seq<byte>, pc: nat, seen: set<nat>, m: WasmModule, verify: bool, asmJs: bool)
    requires Has(code, pc, EndMark(w)) && |code| == pc + |EndMark(w)| + |Data(w.segments)| && 6 !in seen
    ensures Sections(code, |code|, pc, seen, m, verify, asmJs) == Loaded(m)
  {
    if Data(w.segments) != [] { HasAt(code, pc, [6], 0); }
  }

  /** A function as read back: same flags, signature and counts, and its body exactly. */
  predicate SameFunction(code: seq<byte>, w: WModule, f: WFunction, g: Function) {
    && g.sigIndex == f.sigIndex < |w.signatures| && g.sig == w.signatures[f.sigIndex] && g.exported == f.exported
      && g.external == f.external
    && Counts(g.int32s, g.int64s, g.float32s, g.float64s) == (if f.external then Counts(0, 0, 0, 0) else f.counts)
    && (f.external || (g.codeStart <= g.codeEnd <= |code| && code[g.codeStart..g.codeEnd] == f.body))
  }

  lemma {:induction false} BodiesAt(code: seq<byte>, pc: nat, w: WModule, fs: seq<WFunction>, i: nat)
    requires Has(code, pc, Functions(fs)) && (forall j :: 0 <= j < |fs| ==> FunctionOk(w, fs[j])) && i < |fs|
    ensures SameFunction(code, w, fs[i], RereadFunctions(w, fs, pc)[i])
    decreases |fs|
  {
    HasCat(code, pc, FunctionBytes(fs[0]), Functions(fs[1..]));
    hide ReadFunction, FunctionBytes;
    FunctionHas(code, pc, w, fs[0]);
    if i > 0 { BodiesAt(code, pc + |FunctionBytes(fs[0])|, w, fs[1..], i - 1); }
  }

  predicate SameSegment(code: seq<byte>, s: WSegment, g: Segment) {
    g.dest == s.dest && g.init && g.source + g.size <= |code| && code[g.source..g.source + g.size] == s.data
  }

  lemma {:induction false} DataAt(code: seq<byte>, ss: seq<WSegment>, at: nat, i: nat)
    requires Has(code, at, Data(ss)) && i < |ss|
    ensures SameSegment(code, ss[i], RereadSegments(ss, at)[i])
    decreases |ss|
  {
    HasCat(code, at, ss[0].data, Data(ss[1..]));
    if i > 0 { DataAt(code, ss[1..], at + |ss[0].data|, i - 1); }
  }

  /** The module read back has the same globals, signatures and table, and every function body and data
      segment byte for byte. */
  lemma BackIsSame(w: WModule)
    requires Encodable(w)
    ensures var m, code := Back(w), ModuleBytes(w);
      && |m.globals| == |w.globals| && (forall i :: 0 <= i < |w.globals| ==>
        m.globals[i] == Global(0, w.globals[i].ty, w.globals[i].exported))
      && m.signatures == w.signatures && m.table == w.table && |m.functions| == |w.functions|
        && |m.segments| == |w.segments|
      && (forall i :: 0 <= i < |w.functions| ==> SameFunction(code, w, w.functions[i], m.functions[i]))
      && (forall i :: 0 <= i < |w.segments| ==> SameSegment(code, w.segments[i], m.segments[i]))
  {
    hide Has, ModuleBytes, HeaderSize, SectionBytes, Globals, Sigs, Functions, SegmentHeaders, Entries, Data, EndMark,
         Encode,
      FunctionOk, RereadFunctions, RereadSegments, RereadGlobals, SameFunction;
    var m, code, hs := Back(w), ModuleBytes(w), HeaderSize(w);
    HeaderPlaces(w);
    forall i | 0 <= i < |w.functions| ensures SameFunction(code, w, w.functions[i], m.functions[i]) {
      SectionHas(code, FunctionSectionAt(w), 2, |w.functions|, Functions(w.functions));
      BodiesAt(code, FunctionsAt(FunctionSectionAt(w), |w.functions|), w, w.functions, i);
    }
    forall i | 0 <= i < |w.segments| ensures SameSegment(code, w.segments[i], m.segments[i]) {
      DataAt(code, w.segments, hs, i);
    }
  }
}
