/** Linking: calls to functions that are not compiled yet go to placeholders, which are patched at the end;
    and indirect calls go through a table of signatures and code. */
module Linker {
  import opened Opcodes
  import opened Modules

  const MARKER: nat := 1_000_000_000

  /** A code object: its call sites, each meant for some function and jumping to some code. The pool offset of
      a placeholder says which function it stands for. */
  class Code {
    const poolOffset: nat
    const calls: seq<nat>
    var targets: seq<Code>

    constructor (poolOffset: nat, calls: seq<nat>, targets: seq<Code>)
      ensures this.poolOffset == poolOffset && this.calls == calls && this.targets == targets
    {
      this.poolOffset, this.calls, this.targets := poolOffset, calls, targets;
    }
  }

  class WasmLinker {
    var placeholder: seq<Code?>
    var functionCode: seq<Code?>

    constructor (size: nat)
      ensures Valid() && |functionCode| == size && forall i :: 0 <= i < size ==> functionCode[i] == null
    {
      placeholder := seq(size, i => null);
      functionCode := seq(size, i => null);
    }

    /** A call site meant for function k jumps to that function's code or to its placeholder. */
    ghost predicate Aims(c: Code, k: nat)
      reads this
    {
      k < |functionCode| == |placeholder| && (c == functionCode[k] || c == placeholder[k])
    }

    /** Every call site of the code jumps to the function it is meant for, or to that function's placeholder. */
    ghost predicate CallsAim(c: Code)
      reads this, c
    {
      |c.targets| == |c.calls| && forall s :: 0 <= s < |c.calls| ==> Aims(c.targets[s], c.calls[s])
    }

    /** What a function has is its placeholder or compiled code; a placeholder says which function it stands for. */
    ghost predicate Valid()
      reads this, functionCode
    {
      && |placeholder| == |functionCode|
      && (forall i :: 0 <= i < |placeholder| && placeholder[i] != null ==>
        placeholder[i].poolOffset == MARKER + i && functionCode[i] != null)
      && forall i :: 0 <= i < |functionCode| && functionCode[i] != null ==>
           (functionCode[i] == placeholder[i] || functionCode[i].poolOffset < MARKER) && CallsAim(functionCode[i])
    }

    /** The function has its compiled code. */
    ghost predicate Finished(i: nat)
      reads this
    {
      i < |functionCode| == |placeholder| && functionCode[i] != null && functionCode[i] != placeholder[i]
    }

    /** The code of a function, or a placeholder if there is none yet. */
    method GetFunctionCode(index: nat) returns (c: Code)
      requires Valid() && index < |functionCode|
      modifies this
      ensures Valid() && Aims(c, index) && c == functionCode[index]
      ensures |functionCode| == |old(functionCode)|
      ensures forall k, d: Code :: old(allocated(d)) && old(Aims(d, k)) ==> Aims(d, k)
      ensures forall i :: 0 <= i < |functionCode| && i != index ==>
        functionCode[i] == old(functionCode)[i] && placeholder[i] == old(placeholder)[i]
      ensures old(functionCode)[index] != null ==> functionCode == old(functionCode) && placeholder == old(placeholder)
    {
      if functionCode[index] == null {
        var code := new Code(MARKER + index, [], []);
        placeholder := placeholder[index := code];
        functionCode := functionCode[index := code];
      }
      c := functionCode[index];
    }

    /** A function is compiled; calls that were compiled before it still go to its placeholder. */
    method Finish(index: nat, code: Code)
      requires Valid() && index < |functionCode| && !Finished(index) && code.poolOffset < MARKER && CallsAim(code)
      modifies this`functionCode
      ensures Valid() && Finished(index) && functionCode == old(functionCode)[index := code]
      ensures forall k, d: Code :: old(allocated(d)) && old(Aims(d, k)) ==> Aims(d, k)
    {
      functionCode := functionCode[index := code];
    }

    /** Patch the call sites of one code object that still jump to placeholders. */
    method LinkFunction(code: Code)
      requires Valid() && CallsAim(code) && forall i :: 0 <= i < |functionCode| ==> functionCode[i] != null
      modifies code`targets
      ensures Valid() && Linked(code)
    {
      var s := 0;
      while s < |code.targets|
        invariant 0 <= s <= |code.targets| && Valid() && CallsAim(code)
        invariant forall k :: 0 <= k < s ==> code.targets[k] == functionCode[code.calls[k]]
      {
        var target := code.targets[s];
        assert Aims(target, code.calls[s]);
        if target.poolOffset >= MARKER {
          var index := target.poolOffset - MARKER;
          assert index == code.calls[s];
          var newTarget := functionCode[index];
          if target != newTarget {
            assert placeholder[index] == target;
            code.targets := code.targets[s := newTarget];
          }
        }
        s := s + 1;
      }
    }

    /** Every call site jumps to what its function has now. */
    ghost predicate Linked(c: Code)
      reads this, c
    {
      CallsAim(c) && forall s :: 0 <= s < |c.calls| ==> c.targets[s] == functionCode[c.calls[s]]
    }

    method LinkFunctions()
      requires Valid() && forall i :: 0 <= i < |functionCode| ==> functionCode[i] != null
      modifies functionCode
      ensures Valid() && forall i :: 0 <= i < |functionCode| ==> Linked(functionCode[i])
    {
      var i := 0;
      while i < |functionCode|
        invariant 0 <= i <= |functionCode| && Valid()
        invariant forall k :: 0 <= k < i ==> Linked(functionCode[k])
      {
        LinkFunction(functionCode[i]);
        i := i + 1;
      }
    }

    /** Link everything: every call site jumps to what its function has now, so no call site of a finished
        function is left on a placeholder; and the second half of the function table gets the final code. */
    method Link(table: array<Element>, functions: seq<nat>)
      requires Valid() && forall i :: 0 <= i < |functionCode| ==> functionCode[i] != null
      requires table.Length == 2 * |functions| && forall i :: 0 <= i < |functions| ==> functions[i] < |functionCode|
      modifies functionCode, table
      ensures Valid() && forall i :: 0 <= i < |functionCode| ==> Linked(functionCode[i])
      ensures forall i, s ::
        0 <= i < |functionCode| && 0 <= s < |functionCode[i].calls| && Finished(functionCode[i].calls[s]) ==>
          functionCode[i].targets[s].poolOffset < MARKER
      ensures forall i :: 0 <= i < |functions| ==>
        table[i] == old(table[i]) && table[i + |functions|] == Target(functionCode[functions[i]])
    {
      LinkFunctions();
      LinkTable(table, functions, functionCode);
    }
  }

  // ----- Indirect calls -----

  /** An element of the function table: nothing yet, a signature number, or code. */
  datatype Element = Hole | SigNumber(n: nat) | Target(code: Code)

  /** The table starts with the signature of every entry; the second half is for code. */
  method BuildFunctionTable(m: WasmModule) returns (table: array<Element>)
    requires forall i :: 0 <= i < |m.table| ==> m.table[i] < |m.functions|
    ensures fresh(table) && table.Length == 2 * |m.table|
    ensures forall i :: 0 <= i < |m.table| ==> table[i] == SigNumber(m.functions[m.table[i]].sigIndex)
  {
    var n := |m.table|;
    table := new Element[2 * n](i => Hole);
    var i := 0;
    while i < n
      invariant 0 <= i <= n
      invariant forall k :: 0 <= k < i ==> table[k] == SigNumber(m.functions[m.table[k]].sigIndex)
    {
      table[i] := SigNumber(m.functions[m.table[i]].sigIndex);
      i := i + 1;
    }
  }

  /** The second half gets the final code of every entry. */
  method LinkTable(table: array<Element>, functions: seq<nat>, codes: seq<Code?>)
    requires table.Length == 2 * |functions|
    requires forall i :: 0 <= i < |functions| ==> functions[i] < |codes| && codes[functions[i]] != null
    modifies table
    ensures forall i :: 0 <= i < |functions| ==>
      table[i] == old(table[i]) && table[i + |functions|] == Target(codes[functions[i]])
  {
    var n := |functions|;
    var i := 0;
    while i < n
      invariant 0 <= i <= n
      invariant forall k :: 0 <= k < n ==> table[k] == old(table[k])
      invariant forall k :: n <= k < n + i ==> table[k] == Target(codes[functions[k - n]])
    {
      table[i + n] := Target(codes[functions[i]]);
      i := i + 1;
    }
    forall k | 0 <= k < n ensures table[k + n] == Target(codes[functions[k]]) {
      assert table[k + n] == Target(codes[functions[k + n - n]]);
    }
  }

  /** The table holds the module's signatures and the final code of its functions. */
  ghost predicate TableOf(table: seq<Element>, m: WasmModule, codes: seq<Code?>) {
    && |table| == 2 * |m.table| && |codes| == |m.functions|
    && forall i :: 0 <= i < |m.table| ==>
         m.table[i] < |m.functions| && codes[m.table[i]] != null
         && table[i] == SigNumber(m.functions[m.table[i]].sigIndex) && table[i + |m.table|] == Target(codes[m.table[i]])
  }

  /** Build the table of a well-formed module and link it with the module's compiled functions. */
  method LinkModule(n: nat, m: WasmModule, linker: WasmLinker) returns (table: array<Element>)
    requires WellFormed(n, m) && linker.Valid() && |linker.functionCode| == |m.functions|
    requires forall i :: 0 <= i < |m.functions| ==> linker.Finished(i)
    modifies linker.functionCode
    ensures TableOf(table[..], m, linker.functionCode)
    ensures linker.Valid()
    ensures forall i :: 0 <= i < |m.functions| ==> linker.Finished(i) && linker.Linked(linker.functionCode[i])
  {
    table := BuildFunctionTable(m);
    forall i | 0 <= i < |linker.functionCode| ensures linker.functionCode[i] != null {
      assert linker.Finished(i);
    }
    linker.Link(table, m.table);
  }

  const WORD32: nat := 0x1_0000_0000

  /** The byte offset from a tagged address to element i of a fixed array: two header words less the tag, and
      eight bytes for every element before it. */
  function ElementAt(i: nat): nat {
    15 + 8 * i
  }

  /** The offset as the graph computes it, in 32-bit arithmetic: the key shifted left, then the base added. */
  function ElementOffset(key: nat, base: nat): nat {
    ((8 * key) % WORD32 + base) % WORD32
  }

  /** Load the element at a byte offset from the tagged address, if there is one. */
  function Load(table: seq<Element>, offset: nat): Element {
    var i := (offset - 15) / 8;
    if 0 <= i < |table| && offset == ElementAt(i) then table[i] else Hole
  }

  datatype Call = TrapInvalid | TrapSignature | Calls(code: Code) | Wild

  /** An indirect call: bounds check of the key, check of the signature loaded from the first half of the
      table, and a call of what is loaded from the second half. */
  function CallIndirect(table: seq<Element>, size: nat, key: nat, index: nat): Call {
    if key >= size then TrapInvalid
    else if Load(table, ElementOffset(key, ElementAt(0))) != SigNumber(index) then TrapSignature
    else
      var code := Load(table, ElementOffset(key, ElementAt(size)));
      if code.Target? then Calls(code.code) else Wild
  }

  /** Within a table whose byte offsets fit in 32 bits, the computed offsets find the elements. */
  lemma LoadFinds(table: seq<Element>, size: nat, key: nat)
    requires |table| == 2 * size && ElementAt(|table|) <= WORD32 && key < size
    ensures Load(table, ElementOffset(key, ElementAt(0))) == table[key]
    ensures Load(table, ElementOffset(key, ElementAt(size))) == table[key + size]
  {
    assert ElementOffset(key, ElementAt(0)) == ElementAt(key);
    assert ElementOffset(key, ElementAt(size)) == ElementAt(key + size);
  }

  /** An indirect call reaches code if and only if the key is in range and the entry's function has the
      signature asked for, and then it reaches that function's code; otherwise it traps, and for that reason. */
  lemma IndirectCallSafe(table: seq<Element>, m: WasmModule, codes: seq<Code?>, key: nat, index: nat, c: Code)
    requires TableOf(table, m, codes) && ElementAt(|table|) <= WORD32
    ensures CallIndirect(table, |m.table|, key, index) == Calls(c)
      <==> key < |m.table| && m.functions[m.table[key]].sigIndex == index && c == codes[m.table[key]]
    ensures CallIndirect(table, |m.table|, key, index) == TrapInvalid <==> key >= |m.table|
    ensures CallIndirect(table, |m.table|, key, index) == TrapSignature
      <==> key < |m.table| && m.functions[m.table[key]].sigIndex != index
  {
    if key < |m.table| {
      LoadFinds(table, |m.table|, key);
    }
  }
}
