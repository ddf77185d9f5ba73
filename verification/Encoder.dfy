/** The function encoder: variables are renumbered by kind, and the variable numbers inside an emitted body
    are rewritten to match. */
module Encoder {
  import opened Syntax
  import opened Leb128
  import F = FunctionMeaning

  /** A parameter or local of a function, in the order it was added. */
  datatype Variable = Variable(param: bool, ty: ValueType)

  /** Parameters come first, then the locals of each type. */
  function Class(v: Variable): nat
    ensures Class(v) < 5
  {
    if v.param then 0 else if v.ty == I32 then 1 else if v.ty == I64 then 2 else if v.ty == F32 then 3 else 4
  }

  /** How many of the first n variables are of class k. */
  function Count(vs: seq<Variable>, k: nat, n: nat): (c: nat)
    requires n <= |vs|
    ensures c <= n
  {
    if n == 0 then 0 else Count(vs, k, n - 1) + if Class(vs[n - 1]) == k then 1 else 0
  }

  /** Variables of the classes below k. */
  function Base(vs: seq<Variable>, k: nat): nat {
    if k == 0 then 0 else Base(vs, k - 1) + Count(vs, k - 1, |vs|)
  }

  /** The new number of variable i. */
  function NewIndex(vs: seq<Variable>, i: nat): nat
    requires i < |vs|
  {
    Base(vs, Class(vs[i])) + Count(vs, Class(vs[i]), i)
  }

  const U16: nat := 0x1_0000

  /** Numbers are kept in sixteen bits. */
  function Number(vs: seq<Variable>, i: nat): nat
    requires i < |vs|
  {
    NewIndex(vs, i) % U16
  }

  function Params(vs: seq<Variable>, n: nat): (ps: seq<ValueType>)
    requires n <= |vs|
    ensures |ps| == Count(vs, 0, n)
  {
    if n == 0 then [] else Params(vs, n - 1) + if vs[n - 1].param then [vs[n - 1].ty] else []
  }

  /** What the function would be declared as with unbounded counts. */
  function FullDecl(vs: seq<Variable>, ret: LocalType): F.Decl {
    F.Decl(Params(vs, |vs|), Count(vs, 1, |vs|), Count(vs, 2, |vs|), Count(vs, 3, |vs|), Count(vs, 4, |vs|), ret)
  }

  /** The declaration made of the parameters and counts that are written out. */
  function Written(params: seq<ValueType>, counts: seq<nat>, ret: LocalType): F.Decl
    requires |counts| == 5
  {
    F.Decl(params, counts[1], counts[2], counts[3], counts[4], ret)
  }

  /** What the function is declared as: the counts are kept in sixteen bits. */
  function DeclOf(vs: seq<Variable>, ret: LocalType): F.Decl {
    Written(Params(vs, |vs|), seq(5, k requires 0 <= k < 5 => Count(vs, k, |vs|) % U16), ret)
  }

  /** Numbers and counts fit sixteen bits. */
  predicate Fits16(vs: seq<Variable>) {
    |vs| <= U16 && forall k :: 1 <= k < 5 ==> Count(vs, k, |vs|) < U16
  }

  lemma DeclFits(vs: seq<Variable>, ret: LocalType)
    requires Fits16(vs)
    ensures DeclOf(vs, ret) == FullDecl(vs, ret)
  {
    hide Count;
    assert Count(vs, 1, |vs|) < U16 && Count(vs, 2, |vs|) < U16 && Count(vs, 3, |vs|) < U16 && Count(vs, 4, |vs|) < U16;
  }

  lemma {:induction false} CountGrows(vs: seq<Variable>, k: nat, m: nat, n: nat)
    requires m <= n <= |vs|
    ensures Count(vs, k, m) <= Count(vs, k, n)
    ensures m < n && Class(vs[m]) == k ==> Count(vs, k, m) < Count(vs, k, n)
    decreases n
  {
    if m < n {
      if m < n - 1 { CountGrows(vs, k, m, n - 1); }
    }
  }

  lemma {:induction false} BaseGrows(vs: seq<Variable>, j: nat, k: nat)
    requires j < k
    ensures Base(vs, j) + Count(vs, j, |vs|) <= Base(vs, k)
    decreases k
  {
    if j < k - 1 { BaseGrows(vs, j, k - 1); }
  }

  /** Every variable is of one class. */
  lemma {:induction false} AllCounted(vs: seq<Variable>, n: nat)
    requires n <= |vs|
    ensures Count(vs, 0, n) + Count(vs, 1, n) + Count(vs, 2, n) + Count(vs, 3, n) + Count(vs, 4, n) == n
    decreases n
  {
    if n > 0 { AllCounted(vs, n - 1); }
  }

  lemma Total(vs: seq<Variable>)
    ensures Base(vs, 5) == |vs|
    ensures Base(vs, 1) == Count(vs, 0, |vs|)
    ensures Base(vs, 2) == Base(vs, 1) + Count(vs, 1, |vs|)
    ensures Base(vs, 3) == Base(vs, 2) + Count(vs, 2, |vs|)
    ensures Base(vs, 4) == Base(vs, 3) + Count(vs, 3, |vs|)
  {
    hide Count;
    AllCounted(vs, |vs|);
    assert Base(vs, 0) == 0;
    assert Base(vs, 1) == Base(vs, 0) + Count(vs, 0, |vs|);
    assert Base(vs, 2) == Base(vs, 1) + Count(vs, 1, |vs|);
    assert Base(vs, 3) == Base(vs, 2) + Count(vs, 2, |vs|);
    assert Base(vs, 4) == Base(vs, 3) + Count(vs, 3, |vs|);
    assert Base(vs, 5) == Base(vs, 4) + Count(vs, 4, |vs|);
  }

  /** New numbers are distinct and below the number of variables. */
  lemma NewIndexDistinct(vs: seq<Variable>, i: nat, j: nat)
    requires i < j < |vs|
    ensures NewIndex(vs, i) < |vs| && NewIndex(vs, j) < |vs| && NewIndex(vs, i) != NewIndex(vs, j)
  {
    NewIndexBounds(vs, i);
    NewIndexBounds(vs, j);
    var a, b := Class(vs[i]), Class(vs[j]);
    if a == b {
      CountGrows(vs, a, i, j);
    } else if a < b {
      BaseGrows(vs, a, b);
    } else {
      BaseGrows(vs, b, a);
    }
  }

  lemma NewIndexBounds(vs: seq<Variable>, i: nat)
    requires i < |vs|
    ensures var k := Class(vs[i]);
      Base(vs, k) <= NewIndex(vs, i) < Base(vs, k) + Count(vs, k, |vs|) && NewIndex(vs, i) < |vs|
  {
    var k := Class(vs[i]);
    CountGrows(vs, k, i, |vs|);
    Total(vs);
    BaseGrows(vs, k, 5);
  }

  /** Parameters keep their order: the new number of a parameter is the number of parameters before it. */
  lemma ParamOrder(vs: seq<Variable>, i: nat)
    requires i < |vs| && vs[i].param
    ensures NewIndex(vs, i) == |Params(vs, i)| == Count(vs, 0, i)
  {
  }

  lemma {:induction false} ParamAt(vs: seq<Variable>, i: nat, n: nat)
    requires i < n <= |vs| && vs[i].param
    ensures Count(vs, 0, i) < |Params(vs, n)| && Params(vs, n)[Count(vs, 0, i)] == vs[i].ty
    decreases n
  {
    if i < n - 1 { ParamAt(vs, i, n - 1); }
  }

  /** The type of a variable number, found by taking the parameters and then the locals of each type off. */
  function GetLocalType(d: F.Decl, index: nat): LocalType {
    var p := |d.params|;
    if index < p then d.params[index]
    else if index - p < d.int32s then I32
    else if index - p - d.int32s < d.int64s then I64
    else if index - p - d.int32s - d.int64s < d.float32s then F32
    else if index - p - d.int32s - d.int64s - d.float32s < d.float64s then F64
    else Stmt
  }

  /** That is the list of types the function decoder works with. */
  lemma LocalTypeAt(d: F.Decl, index: nat)
    ensures var ts := F.LocalTypes(d);
      if index < |ts| then ts[index] == GetLocalType(d, index) else GetLocalType(d, index) == Stmt
  {
    var a := d.params;
    var b := a + F.Copies(d.int32s, I32);
    var c := b + F.Copies(d.int64s, I64);
    var e := c + F.Copies(d.float32s, F32);
    assert F.LocalTypes(d) == e + F.Copies(d.float64s, F64);
  }

  /** With unbounded counts, the decoder's type of the new number is the declared type of the variable. */
  lemma NewIndexTyped(vs: seq<Variable>, ret: LocalType, i: nat)
    requires i < |vs|
    ensures NewIndex(vs, i) < |F.LocalTypes(FullDecl(vs, ret))| == |vs|
    ensures GetLocalType(FullDecl(vs, ret), NewIndex(vs, i)) == vs[i].ty
  {
    hide Count, NewIndex;
    NewIndexBounds(vs, i);
    Total(vs);
    if vs[i].param {
      ParamOrder(vs, i);
      ParamAt(vs, i, |vs|);
    }
  }

  function Below(n: nat): (s: set<nat>)
    ensures |s| == n && forall x: nat :: x in s <==> x < n
  {
    if n == 0 then {} else Below(n - 1) + {n - 1}
  }

  predicate Distinct(f: seq<nat>) {
    forall i, j :: 0 <= i < j < |f| ==> f[i] != f[j]
  }

  function Elements(f: seq<nat>): (s: set<nat>)
    ensures forall x :: x in s <==> x in f
  {
    set x: nat | x in f
  }

  lemma {:induction false} ElementsSize(f: seq<nat>)
    requires Distinct(f)
    ensures |Elements(f)| == |f|
  {
    if f != [] {
      var n := |f| - 1;
      ElementsSize(f[..n]);
      assert f[n] !in f[..n];
      assert f == f[..n] + [f[n]];
      hide Elements, Distinct;
      assert Elements(f) == Elements(f[..n]) + {f[n]};
    }
  }

  lemma {:induction false} SubsetSize(a: set<nat>, b: set<nat>)
    requires a <= b
    ensures |a| <= |b|
    decreases |a|
  {
    if a != {} {
      var x :| x in a;
      SubsetSize(a - {x}, b - {x});
    }
  }

  /** Distinct numbers below n take every value below n. */
  lemma Pigeonhole(f: seq<nat>, k: nat)
    requires k < |f| && (forall i :: 0 <= i < |f| ==> f[i] < |f|) && Distinct(f)
    ensures k in f
  {
    ElementsSize(f);
    if k !in f {
      SubsetSize(Elements(f), Below(|f|) - {k});
    }
  }

  predicate Used(vs: seq<Variable>, k: nat) {
    exists i :: 0 <= i < |vs| && NewIndex(vs, i) == k
  }

  /** Renumbering is a permutation: every number below the count is the new number of some variable. */
  lemma NewIndexOnto(vs: seq<Variable>, k: nat)
    requires k < |vs|
    ensures Used(vs, k)
  {
    hide NewIndex;
    var f := seq(|vs|, i requires 0 <= i < |vs| => NewIndex(vs, i));
    forall i | 0 <= i < |vs| ensures f[i] < |vs| { NewIndexBounds(vs, i); }
    forall i, j | 0 <= i < j < |vs| ensures f[i] != f[j] { NewIndexDistinct(vs, i, j); }
    Pigeonhole(f, k);
    var i :| 0 <= i < |f| && f[i] == k;
    assert NewIndex(vs, i) == k;
  }

  /** More numbers below n than n cannot be distinct. */
  lemma Crowded(f: seq<nat>, n: nat)
    requires |f| > n && forall i :: 0 <= i < |f| ==> f[i] < n
    ensures !Distinct(f)
  {
    if Distinct(f) {
      ElementsSize(f);
      SubsetSize(Elements(f), Below(n));
    }
  }

  function Numbers(vs: seq<Variable>): (ns: seq<nat>)
    ensures |ns| == |vs| && forall i :: 0 <= i < |vs| ==> ns[i] == Number(vs, i)
  {
    seq(|vs|, i requires 0 <= i < |vs| => Number(vs, i))
  }

  /** Every variable has a number of its own, and the decoder finds its declared type there. */
  predicate Addressed(vs: seq<Variable>, ret: LocalType) {
    Distinct(Numbers(vs)) && forall i :: 0 <= i < |vs| ==> GetLocalType(DeclOf(vs, ret), Number(vs, i)) == vs[i].ty
  }

  /** A class of 65536 locals leaves nothing for the decoder to find. */
  lemma FullClass(vs: seq<Variable>, ret: LocalType, k: nat)
    requires 1 <= k < 5 && Count(vs, k, |vs|) == U16 == |vs|
    ensures forall index: nat :: GetLocalType(DeclOf(vs, ret), index).Stmt?
  {
    hide Count;
    AllCounted(vs, |vs|);
    assert forall j :: 0 <= j < 5 && j != k ==> Count(vs, j, |vs|) == 0;
    assert forall j :: 0 <= j < 5 ==> Count(vs, j, |vs|) % U16 == 0 || j == 0;
  }

  /** The decoder gets every variable right if and only if numbers and counts fit sixteen bits. */
  lemma AddressedIff(vs: seq<Variable>, ret: LocalType)
    ensures Addressed(vs, ret) <==> Fits16(vs)
  {
    hide Count, NewIndex, GetLocalType;
    if Fits16(vs) {
      DeclFits(vs, ret);
      forall i | 0 <= i < |vs| ensures Number(vs, i) == NewIndex(vs, i)
        && GetLocalType(DeclOf(vs, ret), Number(vs, i)) == vs[i].ty {
        NewIndexBounds(vs, i);
        NewIndexTyped(vs, ret, i);
      }
      forall i, j | 0 <= i < j < |vs| ensures Number(vs, i) != Number(vs, j) { NewIndexDistinct(vs, i, j); }
    } else if |vs| > U16 {
      Crowded(Numbers(vs), U16);
    } else {
      var k :| 1 <= k < 5 && Count(vs, k, |vs|) >= U16;
      FullClass(vs, ret, k);
      assert GetLocalType(DeclOf(vs, ret), Number(vs, 0)) != vs[0].ty;
    }
  }

  lemma {:induction false} CountAll(vs: seq<Variable>, k: nat, n: nat)
    requires n <= |vs| && forall i :: 0 <= i < |vs| ==> Class(vs[i]) == k
    ensures Count(vs, k, n) == n
    decreases n
  {
    if n > 0 { CountAll(vs, k, n - 1); }
  }

  /** So 65536 integer locals are declared as none. */
  lemma LocalsVanish(ret: LocalType)
    ensures var vs := seq(U16, i => Variable(false, I32));
      FullDecl(vs, ret).int32s == U16 && DeclOf(vs, ret).int32s == 0 && !Addressed(vs, ret)
  {
    hide GetLocalType, Addressed;
    var vs := seq(U16, i => Variable(false, I32));
    CountAll(vs, 1, |vs|);
    AddressedIff(vs, ret);
  }

  /** And 65537 integer parameters all have the right type, but two of them have the same number. */
  lemma NumbersRepeat(ret: LocalType)
    ensures var vs := seq(U16 + 1, i => Variable(true, I32));
      && (forall i :: 0 <= i < |vs| ==> GetLocalType(DeclOf(vs, ret), Number(vs, i)) == vs[i].ty)
      && Number(vs, 0) == Number(vs, U16)
  {
    var vs := seq(U16 + 1, i => Variable(true, I32));
    forall i | 0 <= i < |vs| ensures Number(vs, i) == i % U16 && GetLocalType(DeclOf(vs, ret), i % U16) == I32 {
      CountAll(vs, 0, i);
      CountAll(vs, 0, |vs|);
      ParamAt(vs, i % U16, |vs|);
      CountAll(vs, 0, i % U16);
    }
  }

  predicate UsedNumber(vs: seq<Variable>, k: nat) {
    exists i :: 0 <= i < |vs| && Number(vs, i) == k
  }

  /** In sixteen bits it still is exactly when there are at most 65536 variables. */
  lemma NumbersPermuteIff(vs: seq<Variable>)
    ensures (forall k: nat :: k < |vs| ==> UsedNumber(vs, k)) <==> |vs| <= U16
  {
    hide NewIndex;
    if |vs| <= U16 {
      forall k: nat | k < |vs| ensures UsedNumber(vs, k) {
        NewIndexOnto(vs, k);
        var i :| 0 <= i < |vs| && NewIndex(vs, i) == k;
        assert Number(vs, i) == k;
      }
    } else {
      assert !UsedNumber(vs, U16);
    }
  }

  /** Sixteen-bit counters of the five classes hold the sums of a and the counts so far. */
  predicate Counters(vs: seq<Variable>, counters: seq<nat>, a: seq<nat>, i: nat) {
    |counters| == 5 == |a| && i <= |vs| && forall k :: 0 <= k < 5 ==> counters[k] == (a[k] + Count(vs, k, i)) % U16
  }

  lemma CountersNext(vs: seq<Variable>, counters: seq<nat>, a: seq<nat>, i: nat)
    requires i < |vs| && Counters(vs, counters, a, i)
    ensures var k := Class(vs[i]); Counters(vs, counters[k := (counters[k] + 1) % U16], a, i + 1)
  {
    var c := Class(vs[i]);
    var r := counters[c := (counters[c] + 1) % U16];
    forall k | 0 <= k < 5 ensures r[k] == (a[k] + Count(vs, k, i + 1)) % U16 {
      if k == c { BumpMod(a[k] + Count(vs, k, i)); }
    }
  }

  lemma BumpMod(n: nat)
    ensures (n % U16 + 1) % U16 == (n + 1) % U16
  {
  }

  lemma AddMod(a: nat, b: nat)
    ensures (a % U16 + b % U16) % U16 == (a + b) % U16
  {
  }

  /** First pass: how many variables of each class there are. */
  method CountVars(vs: seq<Variable>) returns (counts: seq<nat>)
    ensures Counters(vs, counts, [0, 0, 0, 0, 0], |vs|)
  {
    counts := [0, 0, 0, 0, 0];
    var i := 0;
    assert forall k :: 0 <= k < 5 ==> Count(vs, k, 0) == 0;
    while i < |vs|
      invariant Counters(vs, counts, [0, 0, 0, 0, 0], i)
    {
      hide Counters;
      CountersNext(vs, counts, [0, 0, 0, 0, 0], i);
      assert |counts| == 5 by { Five(vs, counts, [0, 0, 0, 0, 0], i); }
      var k := Class(vs[i]);
      counts := counts[k := (counts[k] + 1) % U16];
      i := i + 1;
    }
  }

  lemma Five(vs: seq<Variable>, counters: seq<nat>, a: seq<nat>, i: nat)
    requires Counters(vs, counters, a, i)
    ensures |counters| == 5
  {
  }

  function Bases(vs: seq<Variable>): seq<nat> {
    [Base(vs, 0), Base(vs, 1), Base(vs, 2), Base(vs, 3), Base(vs, 4)]
  }

  /** Second pass: number each variable from where its class begins. */
  method IndexVars(vs: seq<Variable>) returns (params: seq<ValueType>, counts: seq<nat>, varIndex: array<nat>)
    ensures fresh(varIndex) && varIndex.Length == |vs| && forall i :: 0 <= i < |vs| ==> varIndex[i] == Number(vs, i)
    ensures params == Params(vs, |vs|) && Counters(vs, counts, [0, 0, 0, 0, 0], |vs|)
  {
    hide Base;
    counts := CountVars(vs);
    var next: seq<nat> := Starts(vs, counts);
    varIndex := new nat[|vs|];
    params := [];
    var i := 0;
    while i < |vs|
      invariant 0 <= i <= |vs| && params == Params(vs, i) && Counters(vs, next, Bases(vs), i)
      invariant forall j :: 0 <= j < i ==> varIndex[j] == Number(vs, j)
    {
      var k := Class(vs[i]);
      if vs[i].param { params := params + [vs[i].ty]; }
      varIndex[i] := next[k];
      assert next[k] == Number(vs, i) by { assert Bases(vs)[k] == Base(vs, k); }
      CountersNext(vs, next, Bases(vs), i);
      next := next[k := (next[k] + 1) % U16];
      i := i + 1;
    }
  }

  /** Where each class begins. */
  method Starts(vs: seq<Variable>, counts: seq<nat>) returns (next: seq<nat>)
    requires Counters(vs, counts, [0, 0, 0, 0, 0], |vs|)
    ensures Counters(vs, next, Bases(vs), 0)
  {
    hide Base, Count;
    Total(vs);
    NoneYet(vs);
    var a1 := counts[0];
    var a2 := Sum(a1, counts[1], Base(vs, 1), Count(vs, 1, |vs|));
    var a3 := Sum(a2, counts[2], Base(vs, 2), Count(vs, 2, |vs|));
    var a4 := Sum(a3, counts[3], Base(vs, 3), Count(vs, 3, |vs|));
    next := [0, a1, a2, a3, a4];
  }

  /** Sixteen-bit addition. */
  method Sum(a: nat, b: nat, ghost x: nat, ghost y: nat) returns (c: nat)
    requires a == x % U16 && b == y % U16
    ensures c == (x + y) % U16
  {
    AddMod(x, y);
    c := (a + b) % U16;
  }

  lemma NoneYet(vs: seq<Variable>)
    ensures Base(vs, 0) == 0 && forall k :: 0 <= k < 5 ==> Count(vs, k, 0) == 0
  {
  }

  // ----- Rewriting a body -----

  /** What was emitted: plain bytes, and variable numbers whose position is marked. */
  datatype Item = Raw(b: byte) | Local(x: nat)

  function ItemBytes(t: Item): (bs: seq<byte>)
    ensures |bs| > 0
  {
    match t
    case Raw(b) => [b]
    case Local(x) => Encode(x)
  }

  function Flat(items: seq<Item>): seq<byte> {
    if items == [] then [] else ItemBytes(items[0]) + Flat(items[1..])
  }

  /** The marked positions, when the items start at the given position. */
  function Marks(items: seq<Item>, at: nat): (ms: seq<nat>)
    ensures forall i :: 0 <= i < |ms| ==> ms[i] >= at
  {
    if items == [] then []
    else (if items[0].Local? then [at] else []) + Marks(items[1..], at + |ItemBytes(items[0])|)
  }

  predicate Numbered(items: seq<Item>, n: nat) {
    forall i :: 0 <= i < |items| && items[i].Local? ==> items[i].x < n && items[i].x < U32
  }

  /** The same items under new variable numbers. */
  function Renumbered(items: seq<Item>, index: seq<nat>): (r: seq<Item>)
    requires Numbered(items, |index|)
    ensures |r| == |items|
  {
    if items == [] then []
    else [if items[0].Local? then Local(index[items[0].x]) else items[0]] + Renumbered(items[1..], index)
  }

  lemma ReadItem(body: seq<byte>, i: nat, x: nat, rest: seq<byte>)
    requires i <= |body| && body[i..] == Encode(x) + rest && x < U32
    ensures ReadAt(body, i) == Read(x, |Encode(x)|, NoError) && i + |Encode(x)| <= |body|
    ensures body[i + |Encode(x)|..] == rest
  {
    hide Encode, ReadAt;
    ReadEncode(x, body[..i], rest);
    assert body == body[..i] + Encode(x) + rest;
    assert body[i + |Encode(x)|..] == body[i..][|Encode(x)|..];
  }

  /** Where the rewriting stands: what is left to read, and what is still to be written. */
  ghost predicate Rewriting(body: seq<byte>, i: nat, marks: seq<nat>, k: nat, index: seq<nat>, rest: seq<Item>,
      output: seq<byte>, whole: seq<byte>) {
    && i <= |body| && k <= |marks| && Numbered(rest, |index|) && body[i..] == Flat(rest) && marks[k..] == Marks(rest, i)
    && output + Flat(Renumbered(rest, index)) == whole
  }

  lemma RewriteMarked(body: seq<byte>, i: nat, marks: seq<nat>, k: nat, index: seq<nat>, rest: seq<Item>,
      output: seq<byte>, whole: seq<byte>)
    requires Rewriting(body, i, marks, k, index, rest, output, whole) && rest != [] && k < |marks| && marks[k] == i
    ensures rest[0].Local? && rest[0].x < |index| && ReadAt(body, i) == Read(rest[0].x, |Encode(rest[0].x)|, NoError)
    ensures Rewriting(body, i + |Encode(rest[0].x)|, marks, k + 1, index, rest[1..], output + Encode(index[rest[0].x]),
      whole)
  {
    hide Encode, ReadAt;
    MarkedFirst(rest, i, marks, k);
    var x := rest[0].x;
    ReadItem(body, i, x, Flat(rest[1..]));
    assert output + (Encode(index[x]) + Flat(Renumbered(rest[1..], index))) == output + Encode(index[x])
        + Flat(Renumbered(rest[1..], index));
  }

  lemma RewriteRaw(body: seq<byte>, i: nat, marks: seq<nat>, k: nat, index: seq<nat>, rest: seq<Item>,
      output: seq<byte>, whole: seq<byte>)
    requires Rewriting(body, i, marks, k, index, rest, output, whole) && rest != [] && (k < |marks| ==> marks[k] != i)
    ensures i < |body| && Rewriting(body, i + 1, marks, k, index, rest[1..], output + [body[i]], whole)
  {
    UnmarkedFirst(rest, i, marks, k);
    var b := rest[0].b;
    assert body[i..] == [b] + Flat(rest[1..]);
    assert body[i + 1..] == body[i..][1..] == Flat(rest[1..]);
    assert output + ([b] + Flat(Renumbered(rest[1..], index))) == output + [b] + Flat(Renumbered(rest[1..], index));
  }

  lemma RewriteStart(body: seq<byte>, marks: seq<nat>, index: seq<nat>, items: seq<Item>)
    requires Flat(items) == body && Marks(items, 0) == marks && Numbered(items, |index|)
    ensures Rewriting(body, 0, marks, 0, index, items, [], Flat(Renumbered(items, index)))
  {
  }

  /** There are items left exactly when there are bytes left; otherwise everything is written. */
  lemma RewriteLeft(body: seq<byte>, i: nat, marks: seq<nat>, k: nat, index: seq<nat>, rest: seq<Item>,
      output: seq<byte>, whole: seq<byte>)
    requires Rewriting(body, i, marks, k, index, rest, output, whole)
    ensures i <= |body| && k <= |marks| && (i < |body| <==> rest != []) && (i == |body| ==> output == whole)
  {
  }

  /** The rewriting loop changes the marked variable numbers, whatever their lengths, and nothing else. */
  method Rewrite(body: seq<byte>, marks: seq<nat>, index: seq<nat>, ghost items: seq<Item>) returns (output: seq<byte>)
    requires Flat(items) == body && Marks(items, 0) == marks && Numbered(items, |index|)
    requires forall i :: 0 <= i < |index| ==> index[i] < U16
    ensures output == Flat(Renumbered(items, index))
  {
    hide Rewriting, Encode, ReadAt, Flat, Marks, Renumbered, Numbered;
    output := [];
    var i, k := 0, 0;
    ghost var rest, whole := items, Flat(Renumbered(items, index));
    RewriteStart(body, marks, index, items);
    while i < |body|
      invariant Rewriting(body, i, marks, k, index, rest, output, whole)
      decreases |body| - i
    {
      RewriteLeft(body, i, marks, k, index, rest, output, whole);
      if k < |marks| && i == marks[k] {
        RewriteMarked(body, i, marks, k, index, rest, output, whole);
        var status, length, x := ReadUnsignedLEB128Operand(body, i);
        var bytes := UnsignedLEB128From(index[x]);
        output := output + bytes;
        i, k := i + length, k + 1;
      } else {
        RewriteRaw(body, i, marks, k, index, rest, output, whole);
        output := output + [body[i]];
        i := i + 1;
      }
      rest := rest[1..];
    }
    RewriteLeft(body, i, marks, k, index, rest, output, whole);
  }

  lemma MarkedFirst(rest: seq<Item>, i: nat, marks: seq<nat>, k: nat)
    requires rest != [] && k < |marks| && marks[k..] == Marks(rest, i) && marks[k] == i
    ensures rest[0].Local? && marks[k + 1..] == Marks(rest[1..], i + |ItemBytes(rest[0])|)
  {
    var more := Marks(rest[1..], i + |ItemBytes(rest[0])|);
    assert marks[k..][0] == i && (more != [] ==> more[0] > i);
    if rest[0].Local? { assert marks[k + 1..] == marks[k..][1..] == ([i] + more)[1..]; }
  }

  lemma UnmarkedFirst(rest: seq<Item>, i: nat, marks: seq<nat>, k: nat)
    requires rest != [] && k <= |marks| && marks[k..] == Marks(rest, i) && (k < |marks| ==> marks[k] != i)
    ensures rest[0].Raw? && marks[k..] == Marks(rest[1..], i + 1)
  {
    assert k < |marks| ==> marks[k..][0] == marks[k];
  }
}
