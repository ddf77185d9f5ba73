/** Storage that is handed out: locations of parameters and returns, and offsets of globals. */
module Layout {
  import opened Syntax
  import opened Leb128
  import opened Modules

  /** A register of one class, or a stack slot; slots grow downwards from -1. */
  datatype Location = Gp(reg: nat) | Fp(reg: nat) | Slot(offset: int)

  predicate IsFloat(t: ValueType) {
    t.F32? || t.F64?
  }

  /** Words a value takes on the stack: two for 64-bit values where addresses have 32 bits. */
  function Words(t: ValueType, wide: bool): nat {
    if !wide && (t.I64? || t.F64?) then 2 else 1
  }

  /** Stack words of a location. */
  predicate Covers(l: Location, t: ValueType, wide: bool, word: int) {
    l.Slot? && l.offset - Words(t, wide) < word <= l.offset
  }

  /** Two values share no register of one class and no stack word. */
  ghost predicate Apart(a: Location, s: ValueType, b: Location, t: ValueType, wide: bool) {
    && (a.Gp? && b.Gp? ==> a.reg != b.reg) && (a.Fp? && b.Fp? ==> a.reg != b.reg)
    && forall word: int :: !(Covers(a, s, wide, word) && Covers(b, t, wide, word))
  }

  /** Stack words of the values that went to the stack. */
  function Spilled(ls: seq<Location>, ts: seq<ValueType>, wide: bool, n: nat): nat
    requires |ls| == |ts| && n <= |ls|
  {
    if n == 0 then 0 else Spilled(ls, ts, wide, n - 1) + if ls[n - 1].Slot? then Words(ts[n - 1], wide) else 0
  }

  /** The next register of the value's class, or the next stack slot. */
  function Handed(t: ValueType, gp: nat, fp: nat, stack: nat, gpCount: nat, fpCount: nat): Location {
    if IsFloat(t) then (if fp < fpCount then Fp(fp) else Slot(-1 - stack)) else if gp < gpCount then Gp(gp)
      else Slot(-1 - stack)
  }

  class Allocator {
    const gpCount: nat
    const fpCount: nat
    const wide: bool
    var gpOffset: nat
    var fpOffset: nat
    var stackOffset: nat

    constructor (gpCount: nat, fpCount: nat, wide: bool)
      ensures this.gpCount == gpCount && this.fpCount == fpCount && this.wide == wide
      ensures gpOffset == 0 && fpOffset == 0 && stackOffset == 0
    {
      this.gpCount, this.fpCount, this.wide := gpCount, fpCount, wide;
      gpOffset, fpOffset, stackOffset := 0, 0, 0;
    }

    /** The next register of the value's class, or the next stack slot. */
    method Next(t: ValueType) returns (l: Location)
      modifies this`gpOffset, this`fpOffset, this`stackOffset
      ensures l == Handed(t, old(gpOffset), old(fpOffset), old(stackOffset), gpCount, fpCount)
      ensures fpOffset == old(fpOffset) + (if l.Fp? then 1 else 0)
      ensures gpOffset == old(gpOffset) + (if l.Gp? then 1 else 0)
      ensures stackOffset == old(stackOffset) + if l.Slot? then Words(t, wide) else 0
    {
      if IsFloat(t) && fpOffset < fpCount {
        l := Fp(fpOffset);
        fpOffset := fpOffset + 1;
      } else if !IsFloat(t) && gpOffset < gpCount {
        l := Gp(gpOffset);
        gpOffset := gpOffset + 1;
      } else {
        l := Slot(-1 - stackOffset);
        stackOffset := stackOffset + Words(t, wide);
      }
    }
  }

  /** Everything handed out so far lies below the counters. */
  predicate Below(l: Location, t: ValueType, wide: bool, gp: nat, fp: nat, stack: nat) {
    match l
    case Gp(r) => r < gp
    case Fp(r) => r < fp
    case Slot(o) => -1 - stack < o - Words(t, wide) + 1 && o < 0
  }

  /** How many of the first n values are in one class. */
  function Earlier(ts: seq<ValueType>, n: nat, float: bool): nat
    requires n <= |ts|
  {
    if n == 0 then 0 else Earlier(ts, n - 1, float) + if IsFloat(ts[n - 1]) == float then 1 else 0
  }

  function Least(a: nat, b: nat): nat {
    if a < b then a else b
  }

  /** A value goes to the stack exactly when earlier values have taken all registers of its class. */
  predicate Placed(ts: seq<ValueType>, i: nat, l: Location, gpCount: nat, fpCount: nat)
    requires i < |ts|
  {
    var n := Earlier(ts, i, IsFloat(ts[i]));
    if IsFloat(ts[i]) then (if n < fpCount then l == Fp(n) else l.Slot?)
      else (if n < gpCount then l == Gp(n) else l.Slot?)
  }

  /** The loop over the parameters of a signature: every register is used before the stack is, locations are
      pairwise apart, and the stack offset is exactly what was spilled. */
  method ParameterLocations(ts: seq<ValueType>, gpCount: nat, fpCount: nat, wide: bool)
    returns (ls: seq<Location>, stackOffset: nat)
    ensures |ls| == |ts| && stackOffset == Spilled(ls, ts, wide, |ts|)
    ensures forall i :: 0 <= i < |ls| ==> Placed(ts, i, ls[i], gpCount, fpCount)
    ensures forall i, j :: 0 <= i < j < |ls| ==> Apart(ls[i], ts[i], ls[j], ts[j], wide)
    ensures forall i, word: int :: 0 <= i < |ls| && Covers(ls[i], ts[i], wide, word) ==> 0 - stackOffset <= word < 0
  {
    hide Apart, Below, Placed, Earlier, Least, Spilled, Covers, Words, Handed;
    var a := new Allocator(gpCount, fpCount, wide);
    ls := [];
    StartPlaced(ts, wide, gpCount, fpCount);
    assert ts[..0] == [];
    var i := 0;
    while i < |ts|
      invariant 0 <= i <= |ts| && |ls| == i
      invariant a.gpOffset == Least(Earlier(ts, i, false), gpCount)
      invariant a.fpOffset == Least(Earlier(ts, i, true), fpCount)
      invariant a.stackOffset == Spilled(ls, ts[..i], wide, i)
      invariant forall k :: 0 <= k < i ==> Below(ls[k], ts[k], wide, a.gpOffset, a.fpOffset, a.stackOffset)
      invariant forall k :: 0 <= k < i ==> Placed(ts, k, ls[k], gpCount, fpCount)
      invariant forall k, j :: 0 <= k < j < i ==> Apart(ls[k], ts[k], ls[j], ts[j], wide)
    {
      ghost var gp, fp, stack := a.gpOffset, a.fpOffset, a.stackOffset;
      var l := a.Next(ts[i]);
      NextPlaced(ts, i, gp, fp, stack, gpCount, fpCount);
      NextBelow(ts[i], wide, gp, fp, stack, gpCount, fpCount);
      forall k | 0 <= k < i
        ensures Apart(ls[k], ts[k], l, ts[i], wide) && Below(ls[k], ts[k], wide, a.gpOffset, a.fpOffset, a.stackOffset)
      {
        StaysApart(ls[k], ts[k], ts[i], wide, gp, fp, stack, gpCount, fpCount);
      }
      SpilledPrefix(ls, l, ts, wide, i);
      ls := ls + [l];
      i := i + 1;
    }
    stackOffset := a.stackOffset;
    assert ts[..i] == ts;
    forall k, word: int | 0 <= k < |ls| && Covers(ls[k], ts[k], wide, word) ensures 0 - stackOffset <= word < 0 {
      BelowCovers(ls[k], ts[k], wide, a.gpOffset, a.fpOffset, stackOffset, word);
    }
  }

  lemma StartPlaced(ts: seq<ValueType>, wide: bool, gpCount: nat, fpCount: nat)
    ensures 0 == Least(Earlier(ts, 0, false), gpCount) == Least(Earlier(ts, 0, true), fpCount)
      == Spilled([], [], wide, 0)
  {
  }

  lemma NextPlaced(ts: seq<ValueType>, i: nat, gp: nat, fp: nat, stack: nat, gpCount: nat, fpCount: nat)
    requires i < |ts| && gp == Least(Earlier(ts, i, false), gpCount) && fp == Least(Earlier(ts, i, true), fpCount)
    ensures var l := Handed(ts[i], gp, fp, stack, gpCount, fpCount);
      && Placed(ts, i, l, gpCount, fpCount)
      && gp + (if l.Gp? then 1 else 0) == Least(Earlier(ts, i + 1, false), gpCount)
      && fp + (if l.Fp? then 1 else 0) == Least(Earlier(ts, i + 1, true), fpCount)
  {
  }

  lemma NextBelow(t: ValueType, wide: bool, gp: nat, fp: nat, stack: nat, gpCount: nat, fpCount: nat)
    ensures var l := Handed(t, gp, fp, stack, gpCount, fpCount);
      Below(l, t, wide, gp + (if l.Gp? then 1 else 0), fp + (if l.Fp? then 1 else 0),
          stack + if l.Slot? then Words(t, wide) else 0)
  {
  }

  /** What lies below the counters is apart from what comes next, and stays below. */
  lemma StaysApart(a: Location, s: ValueType, t: ValueType, wide: bool, gp: nat, fp: nat, stack: nat, gpCount: nat,
      fpCount: nat)
    requires Below(a, s, wide, gp, fp, stack)
    ensures var l := Handed(t, gp, fp, stack, gpCount, fpCount);
      && Apart(a, s, l, t, wide)
      && Below(a, s, wide, gp + (if l.Gp? then 1 else 0), fp + (if l.Fp? then 1 else 0),
        stack + if l.Slot? then Words(t, wide) else 0)
  {
  }

  lemma BelowCovers(l: Location, t: ValueType, wide: bool, gp: nat, fp: nat, stack: nat, word: int)
    requires Below(l, t, wide, gp, fp, stack) && Covers(l, t, wide, word)
    ensures 0 - stack <= word < 0
  {
  }

  lemma SpilledPrefix(ls: seq<Location>, l: Location, ts: seq<ValueType>, wide: bool, i: nat)
    requires i < |ts| && |ls| == i
    ensures Spilled(ls + [l], ts[..i + 1], wide, i + 1) == Spilled(ls, ts[..i], wide, i)
      + if l.Slot? then Words(ts[i], wide) else 0
  {
    SpilledSame(ls, ts[..i], ls + [l], ts[..i + 1], wide, i);
  }

  lemma {:induction false} SpilledSame(ls: seq<Location>, ts: seq<ValueType>, ls': seq<Location>, ts': seq<ValueType>,
      wide: bool, n: nat)
    requires |ls| == |ts| && |ls'| == |ts'| && n <= |ls| && n <= |ls'|
    requires forall i :: 0 <= i < n ==> ls[i] == ls'[i] && ts[i] == ts'[i]
    ensures Spilled(ls, ts, wide, n) == Spilled(ls', ts', wide, n)
    decreases n
  {
    if n > 0 { SpilledSame(ls, ts, ls', ts', wide, n - 1); }
  }

  // ----- Globals -----

  function MemSize(t: MemType): (n: nat)
    ensures n in {1, 2, 4, 8}
  {
    if t < 2 then 1 else if t < 4 then 2 else if t < 6 || t == 8 then 4 else 8
  }

  /** Round up to a multiple of a size. */
  function Align(offset: nat, size: nat): (r: nat)
    requires size in {1, 2, 4, 8}
    ensures offset <= r < offset + size && r % size == 0
  {
    if size == 1 then offset
    else if size == 2 then (offset + 1) / 2 * 2
    else if size == 4 then (offset + 3) / 4 * 4
    else (offset + 7) / 8 * 8
  }

  /** Where the first n globals end, without wrap-around. */
  function EndOf(gs: seq<Global>, n: nat): nat
    requires n <= |gs|
  {
    if n == 0 then 0 else Align(EndOf(gs, n - 1), MemSize(gs[n - 1].ty)) + MemSize(gs[n - 1].ty)
  }

  lemma {:induction false} EndGrows(gs: seq<Global>, m: nat, n: nat)
    requires m <= n <= |gs|
    ensures EndOf(gs, m) <= EndOf(gs, n)
    decreases n
  {
    if m < n { EndGrows(gs, m, n - 1); }
  }

  function OffsetOf(gs: seq<Global>, i: nat): nat
    requires i < |gs|
  {
    Align(EndOf(gs, i), MemSize(gs[i].ty))
  }

  /** Every offset is a multiple of the size and inside the total, and no two globals overlap. */
  lemma OffsetsApart(gs: seq<Global>, i: nat, j: nat)
    requires i < |gs| && j < |gs|
    ensures OffsetOf(gs, i) % MemSize(gs[i].ty) == 0 && OffsetOf(gs, i) + MemSize(gs[i].ty) <= EndOf(gs, |gs|)
    ensures i < j ==> OffsetOf(gs, i) + MemSize(gs[i].ty) <= OffsetOf(gs, j)
  {
    hide Align, MemSize;
    EndNext(gs, i);
    EndGrows(gs, i + 1, |gs|);
    if i < j {
      EndNext(gs, j);
      EndGrows(gs, i + 1, j);
    }
  }

  function Wrap(x: nat): (r: nat)
    ensures r < U32 && (x < U32 <==> r == x)
  {
    x % U32
  }

  lemma WrapAdd(x: nat, k: nat)
    ensures Wrap(Wrap(x) + k) == Wrap(x + k)
  {
    ModAdd(x, k);
  }

  lemma AlignOnce(r: nat, size: nat)
    requires size in {1, 2, 4, 8}
    ensures Align(r + U32, size) == Align(r, size) + U32
  {
  }

  lemma {:induction false} AlignUp(q: nat, r: nat, size: nat)
    requires size in {1, 2, 4, 8}
    ensures Align(q * U32 + r, size) == q * U32 + Align(r, size)
  {
    hide Align;
    if q > 0 {
      AlignUp(q - 1, r, size);
      AlignOnce((q - 1) * U32 + r, size);
      assert q * U32 == (q - 1) * U32 + U32;
    }
  }

  /** Aligning in 32 bits is aligning and then wrapping around. */
  lemma WrapAlign(x: nat, size: nat)
    requires size in {1, 2, 4, 8}
    ensures Wrap(Align(Wrap(x), size)) == Wrap(Align(x, size))
  {
    AlignUp(x / U32, x % U32, size);
    ModPlus(x / U32, Align(x % U32, size));
  }

  lemma NothingYet(gs: seq<Global>)
    ensures EndOf(gs, 0) == 0
  {
  }

  lemma EndNext(gs: seq<Global>, i: nat)
    requires i < |gs|
    ensures OffsetOf(gs, i) == Align(EndOf(gs, i), MemSize(gs[i].ty))
    ensures EndOf(gs, i) <= OffsetOf(gs, i) && EndOf(gs, i + 1) == OffsetOf(gs, i) + MemSize(gs[i].ty)
  {
  }

  /** The loop keeps offsets in 32 bits: every offset, and the total, is what it would be without wrap-around
      exactly when that is below 2^32. */
  method AllocateGlobalsOffsets(gs: seq<Global>) returns (offsets: seq<nat>, total: nat)
    ensures |offsets| == |gs| && forall i :: 0 <= i < |gs| ==> offsets[i] == Wrap(OffsetOf(gs, i))
    ensures total == Wrap(EndOf(gs, |gs|))
  {
    hide Align, MemSize, EndOf, Wrap, OffsetOf;
    offsets := [];
    NothingYet(gs);
    var offset: nat, i := 0, 0;
    while i < |gs|
      invariant 0 <= i <= |gs| && |offsets| == i && offset == Wrap(EndOf(gs, i))
      invariant forall k :: 0 <= k < i ==> offsets[k] == Wrap(OffsetOf(gs, k))
    {
      var size := MemSize(gs[i].ty);
      EndNext(gs, i);
      WrapAlign(EndOf(gs, i), size);
      WrapAdd(OffsetOf(gs, i), size);
      var at := Wrap(Align(offset, size));
      offsets := offsets + [at];
      offset := Wrap(at + size);
      i := i + 1;
    }
    total := offset;
  }
}
