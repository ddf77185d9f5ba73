/** Writing a module: sizes are computed first, then a header cursor and a body cursor fill one buffer. */
module ModuleWriter {
  import opened Syntax
  import opened Leb128
  import opened Opcodes
  import opened ByteLists
  import opened Modules

  datatype WGlobal = WGlobal(ty: MemType, exported: bool)
  datatype WFunction = WFunction(sigIndex: nat, counts: Counts, exported: bool, external: bool, body: seq<byte>)
  datatype WSegment = WSegment(data: seq<byte>, dest: nat)
  datatype WModule = WModule(globals: seq<WGlobal>, signatures: seq<FunctionSig>, functions: seq<WFunction>,
                             segments: seq<WSegment>, table: seq<nat>)

  // ----- The bytes of a module -----

  function CodeOfType(t: LocalType): byte {
    match t
    case I32 => 1
    case I64 => 2
    case F32 => 3
    case F64 => 4
    case _ => 0
  }

  function TypeCodes(ts: seq<ValueType>): (r: seq<byte>)
    ensures |r| == |ts|
  {
    if ts == [] then [] else [CodeOfType(ts[0])] + TypeCodes(ts[1..])
  }

  function SigBytes(s: FunctionSig): (r: seq<byte>)
    ensures |r| == 2 + |s.params|
  {
    [|s.params| % 256, CodeOfType(s.ret)] + TypeCodes(s.params)
  }

  function GlobalBytes(g: WGlobal): (r: seq<byte>)
    ensures |r| == 6
  {
    Word(0, 4) + [g.ty, if g.exported then 1 else 0]
  }

  predicate HasLocals(f: WFunction) {
    f.counts.int32s + f.counts.int64s + f.counts.float32s + f.counts.float64s > 0
  }

  function DeclBits(f: WFunction): byte {
    (if f.exported then 8 else 0) + (if f.external then 2 else 0) + (if HasLocals(f) then 4 else 0)
  }

  function CountBytes(n: Counts): (r: seq<byte>)
    ensures |r| == 8
  {
    Word(n.int32s, 2) + Word(n.int64s, 2) + Word(n.float32s, 2) + Word(n.float64s, 2)
  }

  function FunctionBytes(f: WFunction): seq<byte> {
    [DeclBits(f)] + Word(f.sigIndex, 2) + (if HasLocals(f) then CountBytes(f.counts) else [])
      + if f.external then [] else Word(|f.body|, 2) + f.body
  }

  /** A data segment's header; its bytes go to the body area, from the given offset. */
  function SegmentBytes(s: WSegment, at: nat): (r: seq<byte>)
    ensures |r| == 13
  {
    Word(s.dest, 4) + Word(at, 4) + Word(|s.data|, 4) + [1]
  }

  function Globals(gs: seq<WGlobal>): (r: seq<byte>)
    ensures |r| == 6 * |gs|
  {
    if gs == [] then [] else GlobalBytes(gs[0]) + Globals(gs[1..])
  }

  function Sigs(ss: seq<FunctionSig>): seq<byte> {
    if ss == [] then [] else SigBytes(ss[0]) + Sigs(ss[1..])
  }

  function Functions(fs: seq<WFunction>): seq<byte> {
    if fs == [] then [] else FunctionBytes(fs[0]) + Functions(fs[1..])
  }

  function SegmentHeaders(ss: seq<WSegment>, at: nat): (r: seq<byte>)
    ensures |r| == 13 * |ss|
  {
    if ss == [] then [] else SegmentBytes(ss[0], at) + SegmentHeaders(ss[1..], at + |ss[0].data|)
  }

  function Data(ss: seq<WSegment>): seq<byte> {
    if ss == [] then [] else ss[0].data + Data(ss[1..])
  }

  function Entries(t: seq<nat>): (r: seq<byte>)
    ensures |r| == 2 * |t|
  {
    if t == [] then [] else Word(t[0], 2) + Entries(t[1..])
  }

  /** A section with a count; nothing at all if the count is zero. */
  function SectionBytes(kind: byte, n: nat, content: seq<byte>): seq<byte> {
    if n == 0 then [] else [kind] + Encode(n) + content
  }

  const MEMORY_SECTION: seq<byte> := [0, 16, 16, 0]

  function EndMark(w: WModule): seq<byte> {
    if Data(w.segments) == [] then [] else [6]
  }

  /** The header area, when the body area starts at the given offset. */
  function Header(w: WModule, at: nat): seq<byte> {
    MEMORY_SECTION + (SectionBytes(3, |w.globals|, Globals(w.globals))
      + (SectionBytes(1, |w.signatures|, Sigs(w.signatures))
      + (SectionBytes(2, |w.functions|, Functions(w.functions))
        + (SectionBytes(4, |w.segments|, SegmentHeaders(w.segments, at))
      + (SectionBytes(5, |w.table|, Entries(w.table)) + EndMark(w))))))
  }

  function HeaderSize(w: WModule): (n: nat)
    ensures forall at: nat :: |Header(w, at)| == n
  {
    |Header(w, 0)|
  }

  function ModuleBytes(w: WModule): seq<byte> {
    Header(w, HeaderSize(w)) + Data(w.segments)
  }

  // ----- Sizes -----

  /** What the size pass adds for a section that is there: its code and its count. */
  method SectionSize(n: nat) returns (size: nat)
    ensures size == if n == 0 then 0 else 1 + |Encode(n)|
  {
    var digits := VarIntSize(n);
    size := if n == 0 then 0 else 1 + digits;
  }

  method SizePass(w: WModule) returns (header: nat, body: nat)
    ensures header == HeaderSize(w) && body == |Data(w.segments)|
  {
    hide Encode, Header, HeaderSize, Sigs, Functions, Data, SectionBytes;
    header := 4;
    var n := SectionSize(|w.signatures|);
    var sigs := SigsSize(w.signatures);
    header := header + n + sigs;
    n := SectionSize(|w.globals|);
    header := header + n + 6 * |w.globals|;
    n := SectionSize(|w.functions|);
    var functions := FunctionsSize(w.functions);
    header := header + n + functions;
    n := SectionSize(|w.segments|);
    header := header + n + 13 * |w.segments|;
    body := DataSize(w.segments);
    n := SectionSize(|w.table|);
    header := header + n + 2 * |w.table|;
    if body > 0 { header := header + 1; }
    HeaderParts(w);
  }

  lemma HeaderParts(w: WModule)
    ensures HeaderSize(w) == 4 + (if w.globals == [] then 0 else 1 + |Encode(|w.globals|)| + 6 * |w.globals|)
      + (if w.signatures == [] then 0 else 1 + |Encode(|w.signatures|)|) + |Sigs(w.signatures)|
      + (if w.functions == [] then 0 else 1 + |Encode(|w.functions|)|) + |Functions(w.functions)|
      + (if w.segments == [] then 0 else 1 + |Encode(|w.segments|)| + 13 * |w.segments|)
      + (if w.table == [] then 0 else 1 + |Encode(|w.table|)| + 2 * |w.table|) + |EndMark(w)|
  {
    hide Encode, Data;
  }

  method SigsSize(ss: seq<FunctionSig>) returns (n: nat)
    ensures n == |Sigs(ss)|
  {
    n := 0;
    var i := 0;
    assert ss[0..] == ss;
    while i < |ss|
      invariant 0 <= i <= |ss| && n + |Sigs(ss[i..])| == |Sigs(ss)|
    {
      assert ss[i..][1..] == ss[i + 1..];
      n := n + 2 + |ss[i].params|;
      i := i + 1;
    }
  }

  function FunctionHeaderSize(f: WFunction): nat {
    3 + (if HasLocals(f) then 8 else 0) + if f.external then 0 else 2
  }

  function FunctionBodySize(f: WFunction): nat {
    if f.external then 0 else |f.body|
  }

  method FunctionsSize(fs: seq<WFunction>) returns (n: nat)
    ensures n == |Functions(fs)|
  {
    n := 0;
    var i := 0;
    assert fs[0..] == fs;
    while i < |fs|
      invariant 0 <= i <= |fs| && n + |Functions(fs[i..])| == |Functions(fs)|
    {
      assert fs[i..][1..] == fs[i + 1..];
      n := n + FunctionHeaderSize(fs[i]) + FunctionBodySize(fs[i]);
      i := i + 1;
    }
  }

  method DataSize(ss: seq<WSegment>) returns (n: nat)
    ensures n == |Data(ss)|
  {
    n := 0;
    var i := 0;
    assert ss[0..] == ss;
    while i < |ss|
      invariant 0 <= i <= |ss| && n + |Data(ss[i..])| == |Data(ss)|
    {
      assert ss[i..][1..] == ss[i + 1..];
      n := n + |ss[i].data|;
      i := i + 1;
    }
  }

  // ----- Writing -----

  /** The buffer holds the module's bytes up to the header cursor and, in the body area from hs on, up to the
      body cursor. */
  ghost predicate Filled(buffer: array<byte>, bytes: seq<byte>, h: nat, hs: nat, b: nat)
    reads buffer
  {
    && buffer.Length == |bytes| && h <= hs <= b <= |bytes|
    && (forall i :: 0 <= i < h ==> buffer[i] == bytes[i]) && (forall i :: hs <= i < b ==> buffer[i] == bytes[i])
  }

  /** Copy bytes to a position of the buffer. */
  method Put(buffer: array<byte>, at: nat, bs: seq<byte>)
    requires at + |bs| <= buffer.Length
    modifies buffer
    ensures forall i :: 0 <= i < |bs| ==> buffer[at + i] == bs[i]
    ensures forall i :: 0 <= i < buffer.Length && !(at <= i < at + |bs|) ==> buffer[i] == old(buffer[i])
  {
    var k := 0;
    while k < |bs|
      invariant 0 <= k <= |bs|
      invariant forall i :: 0 <= i < k ==> buffer[at + i] == bs[i]
      invariant forall i :: 0 <= i < buffer.Length && !(at <= i < at + k) ==> buffer[i] == old(buffer[i])
    {
      buffer[at + k] := bs[k];
      k := k + 1;
    }
  }

  /** Write at the header cursor; the write stays inside the header area. */
  method PutHeader(buffer: array<byte>, ghost bytes: seq<byte>, h: nat, hs: nat, b: nat, bs: seq<byte>)
    returns (h': nat)
    requires Filled(buffer, bytes, h, hs, b) && Has(bytes, h, bs) && h + |bs| <= hs
    modifies buffer
    ensures h' == h + |bs| && Filled(buffer, bytes, h', hs, b)
  {
    Put(buffer, h, bs);
    h' := h + |bs|;
    forall i | h <= i < h' ensures buffer[i] == bytes[i] {
      HasAt(bytes, h, bs, i - h);
      assert buffer[h + (i - h)] == bs[i - h];
    }
  }

  /** Write at the body cursor. */
  method PutBody(buffer: array<byte>, ghost bytes: seq<byte>, h: nat, hs: nat, b: nat, bs: seq<byte>) returns (b': nat)
    requires Filled(buffer, bytes, h, hs, b) && Has(bytes, b, bs)
    modifies buffer
    ensures b' == b + |bs| && Filled(buffer, bytes, h, hs, b')
  {
    Put(buffer, b, bs);
    b' := b + |bs|;
    forall i | b <= i < b' ensures buffer[i] == bytes[i] {
      HasAt(bytes, b, bs, i - b);
      assert buffer[b + (i - b)] == bs[i - b];
    }
  }

  /** The code and count of a section. */
  method PutSection(buffer: array<byte>, ghost bytes: seq<byte>, h: nat, hs: nat, b: nat, kind: byte, n: nat,
      ghost content: seq<byte>) returns (h': nat)
    requires Filled(buffer, bytes, h, hs, b) && n > 0 && Has(bytes, h, SectionBytes(kind, n, content))
    requires h + |SectionBytes(kind, n, content)| <= hs
    modifies buffer
    ensures h' == h + 1 + |Encode(n)| && Filled(buffer, bytes, h', hs, b) && Has(bytes, h', content)
  {
    hide Encode, Has, Filled;
    HasCat(bytes, h, [kind] + Encode(n), content);
    HasCat(bytes, h, [kind], Encode(n));
    h' := PutHeader(buffer, bytes, h, hs, b, [kind]);
    var count := EmitVarInt(n);
    h' := PutHeader(buffer, bytes, h', hs, b, count);
  }

  method WriteGlobals(buffer: array<byte>, ghost bytes: seq<byte>, h: nat, hs: nat, b: nat, gs: seq<WGlobal>)
    returns (h': nat)
    requires Filled(buffer, bytes, h, hs, b) && Has(bytes, h, Globals(gs)) && h + |Globals(gs)| <= hs
    modifies buffer
    ensures h' == h + |Globals(gs)| && Filled(buffer, bytes, h', hs, b)
  {
    hide Has, Filled, GlobalBytes;
    h' := h;
    var i := 0;
    assert gs[0..] == gs;
    while i < |gs|
      invariant 0 <= i <= |gs| && Filled(buffer, bytes, h', hs, b) && Has(bytes, h', Globals(gs[i..]))
      invariant h' + |Globals(gs[i..])| == h + |Globals(gs)|
    {
      assert gs[i..][1..] == gs[i + 1..];
      HasCat(bytes, h', GlobalBytes(gs[i]), Globals(gs[i + 1..]));
      h' := PutHeader(buffer, bytes, h', hs, b, GlobalBytes(gs[i]));
      i := i + 1;
    }
  }

  method WriteSigs(buffer: array<byte>, ghost bytes: seq<byte>, h: nat, hs: nat, b: nat, ss: seq<FunctionSig>)
    returns (h': nat)
    requires Filled(buffer, bytes, h, hs, b) && Has(bytes, h, Sigs(ss)) && h + |Sigs(ss)| <= hs
    modifies buffer
    ensures h' == h + |Sigs(ss)| && Filled(buffer, bytes, h', hs, b)
  {
    hide Has, Filled, SigBytes;
    h' := h;
    var i := 0;
    assert ss[0..] == ss;
    while i < |ss|
      invariant 0 <= i <= |ss| && Filled(buffer, bytes, h', hs, b) && Has(bytes, h', Sigs(ss[i..]))
      invariant h' + |Sigs(ss[i..])| == h + |Sigs(ss)|
    {
      assert ss[i..][1..] == ss[i + 1..];
      HasCat(bytes, h', SigBytes(ss[i]), Sigs(ss[i + 1..]));
      h' := PutHeader(buffer, bytes, h', hs, b, SigBytes(ss[i]));
      i := i + 1;
    }
  }

  /** One function: flags, signature, counts of locals, and its body, all in the header area. */
  method Serialize(buffer: array<byte>, ghost bytes: seq<byte>, h: nat, hs: nat, b: nat, f: WFunction) returns (h': nat)
    requires Filled(buffer, bytes, h, hs, b) && Has(bytes, h, FunctionBytes(f)) && h + |FunctionBytes(f)| <= hs
    modifies buffer
    ensures h' == h + |FunctionBytes(f)| && Filled(buffer, bytes, h', hs, b)
  {
    var counts := if HasLocals(f) then CountBytes(f.counts) else [];
    var body := if f.external then [] else Word(|f.body|, 2) + f.body;
    assert FunctionBytes(f) == [DeclBits(f)] + Word(f.sigIndex, 2) + counts + body;
    hide Has, Filled, FunctionBytes, Word;
    HasFour(bytes, h, [DeclBits(f)], Word(f.sigIndex, 2), counts, body);
    h' := PutHeader(buffer, bytes, h, hs, b, [DeclBits(f)]);
    h' := PutHeader(buffer, bytes, h', hs, b, Word(f.sigIndex, 2));
    if HasLocals(f) { h' := PutHeader(buffer, bytes, h', hs, b, counts); }
    if !f.external { h' := PutHeader(buffer, bytes, h', hs, b, body); }
  }

  method WriteFunctions(buffer: array<byte>, ghost bytes: seq<byte>, h: nat, hs: nat, b: nat, fs: seq<WFunction>)
    returns (h': nat)
    requires Filled(buffer, bytes, h, hs, b) && Has(bytes, h, Functions(fs)) && h + |Functions(fs)| <= hs
    modifies buffer
    ensures h' == h + |Functions(fs)| && Filled(buffer, bytes, h', hs, b)
  {
    hide Has, Filled, FunctionBytes;
    h' := h;
    var i := 0;
    assert fs[0..] == fs;
    while i < |fs|
      invariant 0 <= i <= |fs| && Filled(buffer, bytes, h', hs, b) && Has(bytes, h', Functions(fs[i..]))
      invariant h' + |Functions(fs[i..])| == h + |Functions(fs)|
    {
      assert fs[i..][1..] == fs[i + 1..];
      HasCat(bytes, h', FunctionBytes(fs[i]), Functions(fs[i + 1..]));
      h' := Serialize(buffer, bytes, h', hs, b, fs[i]);
      i := i + 1;
    }
  }

  /** Data segments move both cursors. */
  method WriteSegments(buffer: array<byte>, ghost bytes: seq<byte>, h: nat, hs: nat, ss: seq<WSegment>)
    returns (h': nat, b': nat)
    requires Filled(buffer, bytes, h, hs, hs) && Has(bytes, h, SegmentHeaders(ss, hs))
    requires h + |SegmentHeaders(ss, hs)| <= hs
    requires Has(bytes, hs, Data(ss))
    modifies buffer
    ensures h' == h + |SegmentHeaders(ss, hs)| && b' == hs + |Data(ss)| && Filled(buffer, bytes, h', hs, b')
  {
    hide Has, Filled, SegmentBytes;
    h', b' := h, hs;
    var i := 0;
    assert ss[0..] == ss;
    while i < |ss|
      invariant 0 <= i <= |ss| && Filled(buffer, bytes, h', hs, b') && Has(bytes, h', SegmentHeaders(ss[i..], b'))
      invariant Has(bytes, b', Data(ss[i..]))
      invariant h' + |SegmentHeaders(ss[i..], b')| == h + |SegmentHeaders(ss, hs)|
      invariant b' + |Data(ss[i..])| == hs + |Data(ss)|
    {
      assert ss[i..][1..] == ss[i + 1..];
      HasCat(bytes, h', SegmentBytes(ss[i], b'), SegmentHeaders(ss[i + 1..], b' + |ss[i].data|));
      HasCat(bytes, b', ss[i].data, Data(ss[i + 1..]));
      h' := PutHeader(buffer, bytes, h', hs, b', SegmentBytes(ss[i], b'));
      b' := PutBody(buffer, bytes, h', hs, b', ss[i].data);
      i := i + 1;
    }
  }

  method WriteTable(buffer: array<byte>, ghost bytes: seq<byte>, h: nat, hs: nat, b: nat, t: seq<nat>) returns (h': nat)
    requires Filled(buffer, bytes, h, hs, b) && Has(bytes, h, Entries(t)) && h + |Entries(t)| <= hs
    modifies buffer
    ensures h' == h + |Entries(t)| && Filled(buffer, bytes, h', hs, b)
  {
    hide Has, Filled, Word;
    h' := h;
    var i := 0;
    assert t[0..] == t;
    while i < |t|
      invariant 0 <= i <= |t| && Filled(buffer, bytes, h', hs, b) && Has(bytes, h', Entries(t[i..]))
      invariant h' + |Entries(t[i..])| == h + |Entries(t)|
    {
      assert t[i..][1..] == t[i + 1..];
      HasCat(bytes, h', Word(t[i], 2), Entries(t[i + 1..]));
      h' := PutHeader(buffer, bytes, h', hs, b, Word(t[i], 2));
      i := i + 1;
    }
  }

  /** Where each section of the header stands. */
  lemma HeaderPlaces(w: WModule)
    ensures var bytes, hs := ModuleBytes(w), HeaderSize(w);
      var p1 := 4;
      var p2 := p1 + |SectionBytes(3, |w.globals|, Globals(w.globals))|;
      var p3 := p2 + |SectionBytes(1, |w.signatures|, Sigs(w.signatures))|;
      var p4 := p3 + |SectionBytes(2, |w.functions|, Functions(w.functions))|;
      var p5 := p4 + |SectionBytes(4, |w.segments|, SegmentHeaders(w.segments, hs))|;
      var p6 := p5 + |SectionBytes(5, |w.table|, Entries(w.table))|;
      && Has(bytes, 0, MEMORY_SECTION) && Has(bytes, p1, SectionBytes(3, |w.globals|, Globals(w.globals)))
      && Has(bytes, p2, SectionBytes(1, |w.signatures|, Sigs(w.signatures)))
      && Has(bytes, p3, SectionBytes(2, |w.functions|, Functions(w.functions)))
      && Has(bytes, p4, SectionBytes(4, |w.segments|, SegmentHeaders(w.segments, hs)))
      && Has(bytes, p5, SectionBytes(5, |w.table|, Entries(w.table))) && Has(bytes, p6, EndMark(w))
      && p6 + |EndMark(w)| == hs && Has(bytes, hs, Data(w.segments)) && |bytes| == hs + |Data(w.segments)|
  {
    hide Has, SectionBytes, Globals, Sigs, Functions, SegmentHeaders, Entries, Data, EndMark;
    var hs := HeaderSize(w);
    var a, b := SectionBytes(3, |w.globals|, Globals(w.globals)), SectionBytes(1, |w.signatures|, Sigs(w.signatures));
    var c, d := SectionBytes(2, |w.functions|, Functions(w.functions)),
        SectionBytes(4, |w.segments|, SegmentHeaders(w.segments, hs));
    var e, f, data := SectionBytes(5, |w.table|, Entries(w.table)), EndMark(w), Data(w.segments);
    assert Header(w, hs) == MEMORY_SECTION + (a + (b + (c + (d + (e + f)))));
    assert ModuleBytes(w) == Header(w, hs) + data && |Header(w, hs)| == hs;
    Places(ModuleBytes(w), MEMORY_SECTION, a, b, c, d, e, f, data);
  }

  lemma Places(bytes: seq<byte>, m: seq<byte>, a: seq<byte>, b: seq<byte>, c: seq<byte>, d: seq<byte>, e: seq<byte>,
      f: seq<byte>, data: seq<byte>)
    requires bytes == (m + (a + (b + (c + (d + (e + f)))))) + data
    ensures Has(bytes, 0, m) && Has(bytes, |m|, a) && Has(bytes, |m| + |a|, b) && Has(bytes, |m| + |a| + |b|, c)
    ensures Has(bytes, |m| + |a| + |b| + |c|, d) && Has(bytes, |m| + |a| + |b| + |c| + |d|, e)
    ensures Has(bytes, |m| + |a| + |b| + |c| + |d| + |e|, f)
    ensures Has(bytes, |m| + |a| + |b| + |c| + |d| + |e| + |f|, data)
  {
    assert Has(bytes, 0, bytes);
    hide Has;
    HasCat(bytes, 0, m + (a + (b + (c + (d + (e + f))))), data);
    HasCat(bytes, 0, m, a + (b + (c + (d + (e + f)))));
    HasCat(bytes, |m|, a, b + (c + (d + (e + f))));
    HasCat(bytes, |m| + |a|, b, c + (d + (e + f)));
    HasCat(bytes, |m| + |a| + |b|, c, d + (e + f));
    HasCat(bytes, |m| + |a| + |b| + |c|, d, e + f);
    HasCat(bytes, |m| + |a| + |b| + |c| + |d|, e, f);
  }

  /** The whole writer: both cursors end exactly where the size pass said, and the buffer is the module. */
  method WriteTo(w: WModule) returns (buffer: array<byte>)
    ensures fresh(buffer) && buffer[..] == ModuleBytes(w)
  {
    hide Has, Filled, ModuleBytes, HeaderSize, SectionBytes, Globals, Sigs, Functions, SegmentHeaders, Entries, Data,
         EndMark, Encode;
    var hs, size := SizePass(w);
    HeaderPlaces(w);
    ghost var bytes := ModuleBytes(w);
    buffer := new byte[hs + size];
    NothingYet(buffer, bytes, hs);
    var h := PutHeader(buffer, bytes, 0, hs, hs, MEMORY_SECTION);
    h := GlobalSection(buffer, bytes, h, hs, hs, w.globals);
    h := SigSection(buffer, bytes, h, hs, hs, w.signatures);
    h := FunctionSection(buffer, bytes, h, hs, hs, w.functions);
    var b := hs;
    h, b := SegmentSection(buffer, bytes, h, hs, w.segments);
    h := TableSection(buffer, bytes, h, hs, b, w.table);
    if size > 0 {
      MarkIsOne(w);
      h := PutHeader(buffer, bytes, h, hs, b, [6]);
    } else {
      MarkIsNone(w);
    }
    assert h == hs && b == |bytes|;
    AllFilled(buffer, bytes, hs);
  }

  lemma NothingYet(buffer: array<byte>, bytes: seq<byte>, hs: nat)
    requires buffer.Length == |bytes| && hs <= |bytes|
    ensures Filled(buffer, bytes, 0, hs, hs)
  {
  }

  lemma AllFilled(buffer: array<byte>, bytes: seq<byte>, hs: nat)
    requires Filled(buffer, bytes, hs, hs, |bytes|)
    ensures buffer[..] == bytes
  {
  }

  lemma MarkIsOne(w: WModule)
    requires |Data(w.segments)| > 0
    ensures EndMark(w) == [6]
  {
  }

  lemma MarkIsNone(w: WModule)
    requires |Data(w.segments)| == 0
    ensures EndMark(w) == []
  {
  }

  method GlobalSection(buffer: array<byte>, ghost bytes: seq<byte>, h: nat, hs: nat, b: nat, gs: seq<WGlobal>)
    returns (h': nat)
    requires var s := SectionBytes(3, |gs|, Globals(gs));
      Filled(buffer, bytes, h, hs, b) && Has(bytes, h, s) && h + |s| <= hs
    modifies buffer
    ensures h' == h + |SectionBytes(3, |gs|, Globals(gs))| && Filled(buffer, bytes, h', hs, b)
  {
    hide Has, Filled, Encode, Globals;
    h' := h;
    if |gs| > 0 {
      h' := PutSection(buffer, bytes, h, hs, b, 3, |gs|, Globals(gs));
      h' := WriteGlobals(buffer, bytes, h', hs, b, gs);
    }
  }

  method SigSection(buffer: array<byte>, ghost bytes: seq<byte>, h: nat, hs: nat, b: nat, ss: seq<FunctionSig>)
    returns (h': nat)
    requires var s := SectionBytes(1, |ss|, Sigs(ss));
      Filled(buffer, bytes, h, hs, b) && Has(bytes, h, s) && h + |s| <= hs
    modifies buffer
    ensures h' == h + |SectionBytes(1, |ss|, Sigs(ss))| && Filled(buffer, bytes, h', hs, b)
  {
    hide Has, Filled, Encode, Sigs;
    h' := h;
    if |ss| > 0 {
      h' := PutSection(buffer, bytes, h, hs, b, 1, |ss|, Sigs(ss));
      h' := WriteSigs(buffer, bytes, h', hs, b, ss);
    }
  }

  method FunctionSection(buffer: array<byte>, ghost bytes: seq<byte>, h: nat, hs: nat, b: nat, fs: seq<WFunction>)
    returns (h': nat)
    requires var s := SectionBytes(2, |fs|, Functions(fs));
      Filled(buffer, bytes, h, hs, b) && Has(bytes, h, s) && h + |s| <= hs
    modifies buffer
    ensures h' == h + |SectionBytes(2, |fs|, Functions(fs))| && Filled(buffer, bytes, h', hs, b)
  {
    hide Has, Filled, Encode, Functions;
    h' := h;
    if |fs| > 0 {
      h' := PutSection(buffer, bytes, h, hs, b, 2, |fs|, Functions(fs));
      h' := WriteFunctions(buffer, bytes, h', hs, b, fs);
    }
  }

  method SegmentSection(buffer: array<byte>, ghost bytes: seq<byte>, h: nat, hs: nat, ss: seq<WSegment>)
    returns (h': nat, b': nat)
    requires var s := SectionBytes(4, |ss|, SegmentHeaders(ss, hs));
      Filled(buffer, bytes, h, hs, hs) && Has(bytes, h, s) && h + |s| <= hs
    requires Has(bytes, hs, Data(ss))
    modifies buffer
    ensures h' == h + |SectionBytes(4, |ss|, SegmentHeaders(ss, hs))| && b' == hs + |Data(ss)|
    ensures Filled(buffer, bytes, h', hs, b')
  {
    h', b' := h, hs;
    if |ss| > 0 {
      hide Has, Filled, Encode, SegmentHeaders, Data;
      h' := PutSection(buffer, bytes, h, hs, hs, 4, |ss|, SegmentHeaders(ss, hs));
      h', b' := WriteSegments(buffer, bytes, h', hs, ss);
    }
  }

  method TableSection(buffer: array<byte>, ghost bytes: seq<byte>, h: nat, hs: nat, b: nat, t: seq<nat>)
    returns (h': nat)
    requires var s := SectionBytes(5, |t|, Entries(t));
      Filled(buffer, bytes, h, hs, b) && Has(bytes, h, s) && h + |s| <= hs
    modifies buffer
    ensures h' == h + |SectionBytes(5, |t|, Entries(t))| && Filled(buffer, bytes, h', hs, b)
  {
    hide Has, Filled, Encode, Entries;
    h' := h;
    if |t| > 0 {
      h' := PutSection(buffer, bytes, h, hs, b, 5, |t|, Entries(t));
      h' := WriteTable(buffer, bytes, h', hs, b, t);
    }
  }
}
