/** The emitted bytes parse back to the trees the statements stand for, and so, through the decoder, the
    graph of a compiled function does what the function says. */
module AsmParse {
  import S = Syntax
  import opened Graph
  import opened Leb128
  import opened Opcodes
  import opened ByteLists
  import opened Asm
  import opened AsmMeaning
  import opened LrParse

  predicate ExprOk(e: Expr)
    decreases e
  {
    match e
    case Num(n) => -0x8000_0000 <= n < 0x8000_0000
    case Var(x) => x < U32
    case AsIs(e') => ExprOk(e')
    case Op(c, args) =>
      S.IsValue(SimpleSig(c).1) && |SimpleSig(c).0| == |args| && forall i :: 0 <= i < |args| ==> ExprOk(args[i])
  }

  /** The statements the compiler gets right: blocks whose count comes out right, arms and loop bodies that
      emit something, jumps with a target less than 256 entries away, and a value returned if there is one
      to return. */
  predicate Fit(fe: S.FunEnv, s: Stmt, bs: seq<Breakable>)
    decreases s, 1
  {
    match s
    case Skip => true
    case Seq(l, ss) => Patched(s) == Emitted(s, 0) && FitFrom(fe, s, 0, bs + [Breakable(l, false)])
    case While(l, c, b) => ExprOk(c) && Loud(b) && Fit(fe, b, bs + [Breakable(l, true)])
    case Cond(c, a, b) => ExprOk(c) && (a.Skip? || Loud(a)) && Fit(fe, a, bs) && (b.Skip? || Loud(b)) && Fit(fe, b, bs)
    case Break(l) => Targets(bs, l, false) && Distance(bs, l, false) < 256
    case Continue(l) => Targets(bs, l, true) && Distance(bs, l, true) < 256
    case Ret(e) => if e.None? then fe.ret.Stmt? else !fe.ret.Stmt? && ExprOk(e.value)
    case Assign(x, e) => Elided(s) || (x < U32 && ExprOk(e))
    case Do(e) => ExprOk(e)
  }

  predicate FitFrom(fe: S.FunEnv, s: Stmt, i: nat, bs: seq<Breakable>)
    requires s.Seq? && i <= |s.body|
    decreases s, 0, |s.body| - i
  {
    i == |s.body| || (Fit(fe, s.body[i], bs) && (IsJump(s.body[i]) || FitFrom(fe, s, i + 1, bs)))
  }

  lemma NumFetch(menv: ModuleEnv, code: seq<byte>, pc: nat, n: int)
    requires -0x8000_0000 <= n < 0x8000_0000 && Has(code, pc, ExprBytes(Num(n)))
    ensures |ExprBytes(Num(n))| == 5 && Fetch(menv, code, pc) == Got(S.Const(S.I32, n), 5)
  {
    hide Word, Pow2, LittleEndian, SimpleSig, LoadType, StoreType;
    var w := Word(Unsigned(n), 4);
    HasCat(code, pc, [0x0a], w);
    HasAt(code, pc, [0x0a], 0);
    FourBytes();
    WordReads(code, pc + 1, Unsigned(n), 4);
    assert Signed(Unsigned(n), 0x8000_0000) == n;
  }

  lemma IndexFetch(menv: ModuleEnv, code: seq<byte>, pc: nat, c: byte, x: nat)
    requires x < U32 && c in {0x0e, 0x0f} && Has(code, pc, [c] + Encode(x))
    ensures Fetch(menv, code, pc) == Got(if c == 0x0e then S.GetLocal(x) else S.SetLocal(x), 1 + |Encode(x)|)
  {
    hide Encode;
    HasCat(code, pc, [c], Encode(x));
    HasAt(code, pc, [c], 0);
    ReadHas(code, pc + 1, x);
  }

  lemma OneMore(menv: ModuleEnv, fe: S.FunEnv, code: seq<byte>, pc: nat, t: S.Syn, mid: nat, n: nat, ts: seq<S.Syn>,
      end: nat)
    requires pc <= |code| && Parse(menv, fe, code, pc) == Parsed(t, mid)
    requires ParseMany(menv, fe, code, mid, n) == ParsedAll(ts, end)
    ensures ParseMany(menv, fe, code, pc, n + 1) == ParsedAll([t] + ts, end)
  {
    hide Parse;
  }

  lemma NoMore(menv: ModuleEnv, fe: S.FunEnv, code: seq<byte>, pc: nat)
    requires pc <= |code|
    ensures ParseMany(menv, fe, code, pc, 0) == ParsedAll([], pc)
  {
  }

  lemma Node(menv: ModuleEnv, fe: S.FunEnv, code: seq<byte>, pc: nat, instr: S.Instr, len: nat, kids: seq<S.Syn>,
      end: nat)
    requires pc < |code| && Fetch(menv, code, pc) == Got(instr, len)
    requires ParseMany(menv, fe, code, pc + len, S.Arity(fe, instr)) == ParsedAll(kids, end)
    ensures Parse(menv, fe, code, pc) == Parsed(S.Syn(instr, pc, len, kids), end)
  {
    hide Fetch, ParseMany;
  }

  lemma Node1(menv: ModuleEnv, fe: S.FunEnv, code: seq<byte>, pc: nat, instr: S.Instr, len: nat, k: S.Syn, end: nat)
    requires pc < |code| && Fetch(menv, code, pc) == Got(instr, len) && S.Arity(fe, instr) == 1
    requires Parse(menv, fe, code, pc + len) == Parsed(k, end)
    ensures Parse(menv, fe, code, pc) == Parsed(S.Syn(instr, pc, len, [k]), end)
  {
    hide Fetch, Parse, ParseMany;
    NoMore(menv, fe, code, end);
    OneMore(menv, fe, code, pc + len, k, end, 0, [], end);
    assert [k] + [] == [k];
    Node(menv, fe, code, pc, instr, len, [k], end);
  }

  lemma Node2(menv: ModuleEnv, fe: S.FunEnv, code: seq<byte>, pc: nat, instr: S.Instr, len: nat, k: S.Syn, q: nat,
      k': S.Syn, end: nat)
    requires pc < |code| && Fetch(menv, code, pc) == Got(instr, len) && S.Arity(fe, instr) == 2 && q <= |code|
    requires Parse(menv, fe, code, pc + len) == Parsed(k, q) && Parse(menv, fe, code, q) == Parsed(k', end)
    ensures Parse(menv, fe, code, pc) == Parsed(S.Syn(instr, pc, len, [k, k']), end)
  {
    hide Fetch, Parse, ParseMany;
    NoMore(menv, fe, code, end);
    OneMore(menv, fe, code, q, k', end, 0, [], end);
    OneMore(menv, fe, code, pc + len, k, q, 1, [k'] + [], end);
    assert [k] + ([k'] + []) == [k, k'];
    Node(menv, fe, code, pc, instr, len, [k, k'], end);
  }

  lemma Node3(menv: ModuleEnv, fe: S.FunEnv, code: seq<byte>, pc: nat, instr: S.Instr, len: nat, k: S.Syn, q: nat,
      k': S.Syn, q': nat, k'': S.Syn, end: nat)
    requires pc < |code| && Fetch(menv, code, pc) == Got(instr, len) && S.Arity(fe, instr) == 3 && q <= |code|
    requires q' <= |code|
    requires Parse(menv, fe, code, pc + len) == Parsed(k, q) && Parse(menv, fe, code, q) == Parsed(k', q')
    requires Parse(menv, fe, code, q') == Parsed(k'', end)
    ensures Parse(menv, fe, code, pc) == Parsed(S.Syn(instr, pc, len, [k, k', k'']), end)
  {
    hide Fetch, Parse, ParseMany;
    NoMore(menv, fe, code, end);
    OneMore(menv, fe, code, q', k'', end, 0, [], end);
    OneMore(menv, fe, code, q, k', q', 1, [k''] + [], end);
    OneMore(menv, fe, code, pc + len, k, q, 2, [k'] + ([k''] + []), end);
    assert [k] + ([k'] + ([k''] + [])) == [k, k', k''];
    Node(menv, fe, code, pc, instr, len, [k, k', k''], end);
  }

  lemma {:induction false} ParseE(menv: ModuleEnv, fe: S.FunEnv, code: seq<byte>, pc: nat, e: Expr) returns (t: S.Syn)
    requires ExprOk(e) && Has(code, pc, ExprBytes(e))
    ensures pc + |ExprBytes(e)| <= |code| && Parse(menv, fe, code, pc) == Parsed(t, pc + |ExprBytes(e)|)
    ensures CompilesE(t, e)
    decreases e, 1
  {
    hide Fetch, Parse, ParseMany, Encode;
    match e
    case Num(n) =>
      NumFetch(menv, code, pc, n);
      NoMore(menv, fe, code, pc + 5);
      Node(menv, fe, code, pc, S.Const(S.I32, n), 5, [], pc + 5);
      t := S.Syn(S.Const(S.I32, n), pc, 5, []);
    case Var(x) =>
      var len := 1 + |Encode(x)|;
      HasAt(code, pc, ExprBytes(e), 0);
      IndexFetch(menv, code, pc, 0x0e, x);
      NoMore(menv, fe, code, pc + len);
      Node(menv, fe, code, pc, S.GetLocal(x), len, [], pc + len);
      t := S.Syn(S.GetLocal(x), pc, len, []);
    case AsIs(e') => t := ParseE(menv, fe, code, pc, e');
    case Op(c, args) =>
      HasCat(code, pc, [c], ExprsBytes(e, 0));
      OpFetch(menv, code, pc, c);
      var ts := ParseEs(menv, fe, code, pc + 1, e, 0);
      Node(menv, fe, code, pc, S.Apply(OpOf(c)), 1, ts, pc + 1 + |ExprsBytes(e, 0)|);
      t := S.Syn(S.Apply(OpOf(c)), pc, 1, ts);
  }

  lemma OpFetch(menv: ModuleEnv, code: seq<byte>, pc: nat, c: byte)
    requires S.IsValue(SimpleSig(c).1) && Has(code, pc, [c])
    ensures pc < |code| && Fetch(menv, code, pc) == Got(S.Apply(OpOf(c)), 1)
  {
    HasAt(code, pc, [c], 0);
    assert c >= 0x40;
  }

  lemma {:induction false} ParseEs(menv: ModuleEnv, fe: S.FunEnv, code: seq<byte>, pc: nat, e: Expr, i: nat)
    returns (ts: seq<S.Syn>)
    requires e.Op? && ExprOk(e) && i <= |e.args| && pc <= |code| && Has(code, pc, ExprsBytes(e, i))
    ensures ParseMany(menv, fe, code, pc, |e.args| - i) == ParsedAll(ts, pc + |ExprsBytes(e, i)|)
    ensures |ts| == |e.args| - i && forall j :: 0 <= j < |ts| ==> CompilesE(ts[j], e.args[i + j])
    decreases e, 0, |e.args| - i
  {
    hide Parse, ParseMany, ExprBytes;
    if i == |e.args| {
      ts := [];
      NoMore(menv, fe, code, pc);
    } else {
      var one := ExprBytes(e.args[i]);
      HasCat(code, pc, one, ExprsBytes(e, i + 1));
      var t := ParseE(menv, fe, code, pc, e.args[i]);
      var rest := ParseEs(menv, fe, code, pc + |one|, e, i + 1);
      ts := [t] + rest;
      OneMore(menv, fe, code, pc, t, pc + |one|, |e.args| - i - 1, rest, pc + |one| + |ExprsBytes(e, i + 1)|);
      forall j | 0 <= j < |ts| ensures CompilesE(ts[j], e.args[i + j]) {
        if j > 0 { assert ts[j] == rest[j - 1]; }
      }
    }
  }

  /** One byte of code. */
  lemma ByteFetch(menv: ModuleEnv, code: seq<byte>, pc: nat, c: byte)
    requires c in {0x00, 0x03, 0x04, 0x14} && Has(code, pc, [c])
    ensures pc < |code| && Fetch(menv, code, pc)
      == Got(if c == 0x00 then S.Nop else if c == 0x03 then S.If else if c == 0x04 then S.IfElse else S.Return, 1)
  {
    HasAt(code, pc, [c], 0);
  }

  lemma PairFetch(menv: ModuleEnv, code: seq<byte>, pc: nat, c: byte, n: byte)
    requires c in {0x01, 0x02, 0x06} && Has(code, pc, [c, n])
    ensures pc + 1 < |code| && Fetch(menv, code, pc)
      == Got(if c == 0x01 then S.Block(n) else if c == 0x02 then S.Loop(n) else S.Br(n), 2)
  {
    HasAt(code, pc, [c, n], 0);
    HasAt(code, pc, [c, n], 1);
  }

  /** A jump: a branch with nothing to carry. */
  lemma ParseJump(menv: ModuleEnv, fe: S.FunEnv, code: seq<byte>, pc: nat, d: byte) returns (t: S.Syn)
    requires Has(code, pc, [0x06, d, 0x00])
    ensures pc + 3 <= |code| && Parse(menv, fe, code, pc) == Parsed(t, pc + 3) && t.instr == S.Br(d) && OnlyNop(t)
  {
    hide Fetch, Parse, ParseMany;
    assert [0x06, d, 0x00] == [0x06, d] + [0x00];
    HasCat(code, pc, [0x06, d], [0x00]);
    PairFetch(menv, code, pc, 0x06, d);
    ByteFetch(menv, code, pc + 2, 0x00);
    NoMore(menv, fe, code, pc + 3);
    Node(menv, fe, code, pc + 2, S.Nop, 1, [], pc + 3);
    var nop := S.Syn(S.Nop, pc + 2, 1, []);
    Node1(menv, fe, code, pc, S.Br(d), 2, nop, pc + 3);
    t := S.Syn(S.Br(d), pc, 2, [nop]);
  }

  /** Every fitting statement that emits something emits the bytes of the tree it compiles to. */
  lemma {:induction false} ParseS(menv: ModuleEnv, fe: S.FunEnv, code: seq<byte>, pc: nat, s: Stmt, bs: seq<Breakable>)
    returns (t: S.Syn)
    requires Fit(fe, s, bs) && Loud(s) && Has(code, pc, Bytes(s, bs))
    ensures pc + |Bytes(s, bs)| <= |code| && Parse(menv, fe, code, pc) == Parsed(t, pc + |Bytes(s, bs)|)
    ensures Compiles(fe, t, s, bs)
    decreases s, 2
  {
    hide Parse, ExprBytes, CompilesE, Encode;
    match s
    case Seq(l, ss) => t := ParseSeq(menv, fe, code, pc, s, bs);
    case While(l, c, b) => t := ParseWhile(menv, fe, code, pc, s, bs);
    case Cond(c, a, b) => t := ParseCond(menv, fe, code, pc, s, bs);
    case Break(l) => t := ParseJump(menv, fe, code, pc, Distance(bs, l, false));
    case Continue(l) => t := ParseJump(menv, fe, code, pc, Distance(bs, l, true));
    case Ret(e) => t := ParseRet(menv, fe, code, pc, s, bs);
    case Assign(x, e) => t := ParseAssign(menv, fe, code, pc, s, bs);
    case Do(e) => t := ParseE(menv, fe, code, pc, e);
  }

  lemma ParseRet(menv: ModuleEnv, fe: S.FunEnv, code: seq<byte>, pc: nat, s: Stmt, bs: seq<Breakable>)
    returns (t: S.Syn)
    requires s.Ret? && Fit(fe, s, bs) && Has(code, pc, Bytes(s, bs))
    ensures pc + |Bytes(s, bs)| <= |code| && Parse(menv, fe, code, pc) == Parsed(t, pc + |Bytes(s, bs)|)
    ensures Compiles(fe, t, s, bs)
  {
    hide Fetch, Parse, ParseMany, ExprBytes;
    if s.value.None? {
      assert Bytes(s, bs) == [0x14];
      ByteFetch(menv, code, pc, 0x14);
      NoMore(menv, fe, code, pc + 1);
      Node(menv, fe, code, pc, S.Return, 1, [], pc + 1);
      t := S.Syn(S.Return, pc, 1, []);
    } else {
      var e := ExprBytes(s.value.value);
      HasCat(code, pc, [0x14], e);
      ByteFetch(menv, code, pc, 0x14);
      var k := ParseE(menv, fe, code, pc + 1, s.value.value);
      Node1(menv, fe, code, pc, S.Return, 1, k, pc + 1 + |e|);
      t := S.Syn(S.Return, pc, 1, [k]);
    }
  }

  lemma ParseAssign(menv: ModuleEnv, fe: S.FunEnv, code: seq<byte>, pc: nat, s: Stmt, bs: seq<Breakable>)
    returns (t: S.Syn)
    requires s.Assign? && !Elided(s) && Fit(fe, s, bs) && Has(code, pc, Bytes(s, bs))
    ensures pc + |Bytes(s, bs)| <= |code| && Parse(menv, fe, code, pc) == Parsed(t, pc + |Bytes(s, bs)|)
    ensures Compiles(fe, t, s, bs)
  {
    hide Fetch, Parse, ParseMany, ExprBytes, Encode;
    var to, e := [0x0f] + Encode(s.x), ExprBytes(s.e);
    HasCat(code, pc, to, e);
    HasAt(code, pc, to, 0);
    IndexFetch(menv, code, pc, 0x0f, s.x);
    var k := ParseE(menv, fe, code, pc + |to|, s.e);
    var end := pc + |to| + |e|;
    Node1(menv, fe, code, pc, S.SetLocal(s.x), |to|, k, end);
    t := S.Syn(S.SetLocal(s.x), pc, |to|, [k]);
  }

  lemma WhileParts(code: seq<byte>, pc: nat, s: Stmt, bs: seq<Breakable>)
    requires s.While? && Has(code, pc, Bytes(s, bs))
    ensures var c, b := ExprBytes(s.cond), Bytes(s.loop, bs + [Breakable(s.name, true)]);
      && Has(code, pc, [0x02, 1]) && Has(code, pc + 2, [0x03]) && Has(code, pc + 3, c)
        && Has(code, pc + 3 + |c|, [0x06, 0])
      && Has(code, pc + 5 + |c|, b) && |Bytes(s, bs)| == 5 + |c| + |b|
  {
    var c, b := ExprBytes(s.cond), Bytes(s.loop, bs + [Breakable(s.name, true)]);
    assert Bytes(s, bs) == [0x02, 1, 0x03] + c + [0x06, 0] + b;
    hide ExprBytes, Bytes, Has;
    assert [0x02, 1, 0x03] + c + [0x06, 0] + b == [0x02, 1] + ([0x03] + (c + ([0x06, 0] + b)));
    HasCat(code, pc, [0x02, 1], [0x03] + (c + ([0x06, 0] + b)));
    HasCat(code, pc + 2, [0x03], c + ([0x06, 0] + b));
    HasCat(code, pc + 3, c, [0x06, 0] + b);
    HasCat(code, pc + 3 + |c|, [0x06, 0], b);
  }

  lemma {:induction false} ParseWhile(menv: ModuleEnv, fe: S.FunEnv, code: seq<byte>, pc: nat, s: Stmt,
      bs: seq<Breakable>) returns (t: S.Syn)
    requires s.While? && Fit(fe, s, bs) && Has(code, pc, Bytes(s, bs))
    ensures pc + |Bytes(s, bs)| <= |code| && Parse(menv, fe, code, pc) == Parsed(t, pc + |Bytes(s, bs)|)
    ensures Compiles(fe, t, s, bs)
    decreases s, 1
  {
    hide Fetch, Parse, ParseMany, ExprBytes, Bytes, CompilesE, Has;
    var bs' := bs + [Breakable(s.name, true)];
    WhileParts(code, pc, s, bs);
    var q := pc + 3 + |ExprBytes(s.cond)|;
    var end := q + 2 + |Bytes(s.loop, bs')|;
    PairFetch(menv, code, pc, 0x02, 1);
    ByteFetch(menv, code, pc + 2, 0x03);
    PairFetch(menv, code, q, 0x06, 0);
    var kc := ParseE(menv, fe, code, pc + 3, s.cond);
    var kb := ParseS(menv, fe, code, q + 2, s.loop, bs');
    Node1(menv, fe, code, q, S.Br(0), 2, kb, end);
    var br := S.Syn(S.Br(0), q, 2, [kb]);
    Node2(menv, fe, code, pc + 2, S.If, 1, kc, q, br, end);
    var test := S.Syn(S.If, pc + 2, 1, [kc, br]);
    Node1(menv, fe, code, pc, S.Loop(1), 2, test, end);
    t := S.Syn(S.Loop(1), pc, 2, [test]);
  }

  lemma CondParts(code: seq<byte>, pc: nat, s: Stmt, bs: seq<Breakable>)
    requires s.Cond? && Has(code, pc, Bytes(s, bs))
    ensures var c, a, b := ExprBytes(s.cond), if s.yes.Skip? then [0x00] else Bytes(s.yes, bs), if s.no.Skip? then []
      else Bytes(s.no, bs);
      && Has(code, pc, [if s.no.Skip? then 0x03 else 0x04]) && Has(code, pc + 1, c) && Has(code, pc + 1 + |c|, a)
      && Has(code, pc + 1 + |c| + |a|, b) && |Bytes(s, bs)| == 1 + |c| + |a| + |b|
  {
    hide ExprBytes, Bytes, Has;
    CondBytes(s, bs);
    HasFour(code, pc, [if s.no.Skip? then 0x03 else 0x04], ExprBytes(s.cond),
            if s.yes.Skip? then [0x00] else Bytes(s.yes, bs), if s.no.Skip? then [] else Bytes(s.no, bs));
  }

  lemma {:induction false} ParseCond(menv: ModuleEnv, fe: S.FunEnv, code: seq<byte>, pc: nat, s: Stmt,
      bs: seq<Breakable>) returns (t: S.Syn)
    requires s.Cond? && Fit(fe, s, bs) && Has(code, pc, Bytes(s, bs))
    ensures pc + |Bytes(s, bs)| <= |code| && Parse(menv, fe, code, pc) == Parsed(t, pc + |Bytes(s, bs)|)
    ensures Compiles(fe, t, s, bs)
    decreases s, 1
  {
    hide Fetch, Parse, ParseMany, ExprBytes, Bytes, CompilesE, Has;
    CondParts(code, pc, s, bs);
    var q := pc + 1 + |ExprBytes(s.cond)|;
    var m := q + if s.yes.Skip? then 1 else |Bytes(s.yes, bs)|;
    var end := pc + |Bytes(s, bs)|;
    ByteFetch(menv, code, pc, if s.no.Skip? then 0x03 else 0x04);
    var kc := ParseE(menv, fe, code, pc + 1, s.cond);
    var ka := ParseArm(menv, fe, code, q, s.yes, bs);
    if s.no.Skip? {
      Node2(menv, fe, code, pc, S.If, 1, kc, q, ka, end);
      t := S.Syn(S.If, pc, 1, [kc, ka]);
    } else {
      var kb := ParseS(menv, fe, code, m, s.no, bs);
      Node3(menv, fe, code, pc, S.IfElse, 1, kc, q, ka, m, kb, end);
      t := S.Syn(S.IfElse, pc, 1, [kc, ka, kb]);
    }
  }

  /** The first arm of an if: a statement, or nothing where there is none. */
  lemma {:induction false} ParseArm(menv: ModuleEnv, fe: S.FunEnv, code: seq<byte>, pc: nat, s: Stmt,
      bs: seq<Breakable>) returns (t: S.Syn)
    requires Fit(fe, s, bs) && (s.Skip? || Loud(s)) && Has(code, pc, if s.Skip? then [0x00] else Bytes(s, bs))
    ensures var n := if s.Skip? then 1 else |Bytes(s, bs)|;
      pc + n <= |code| && Parse(menv, fe, code, pc) == Parsed(t, pc + n)
    ensures if s.Skip? then t.instr == S.Nop && t.kids == [] else Compiles(fe, t, s, bs)
    decreases s, 3
  {
    hide Fetch, Parse, ParseMany, Bytes, Compiles;
    if s.Skip? {
      ByteFetch(menv, code, pc, 0x00);
      NoMore(menv, fe, code, pc + 1);
      Node(menv, fe, code, pc, S.Nop, 1, [], pc + 1);
      t := S.Syn(S.Nop, pc, 1, []);
    } else {
      t := ParseS(menv, fe, code, pc, s, bs);
    }
  }

  lemma {:induction false} ParseSeq(menv: ModuleEnv, fe: S.FunEnv, code: seq<byte>, pc: nat, s: Stmt,
      bs: seq<Breakable>) returns (t: S.Syn)
    requires s.Seq? && Fit(fe, s, bs) && Has(code, pc, Bytes(s, bs))
    ensures pc + |Bytes(s, bs)| <= |code| && Parse(menv, fe, code, pc) == Parsed(t, pc + |Bytes(s, bs)|)
    ensures Compiles(fe, t, s, bs)
    decreases s, 1
  {
    hide Fetch, Parse, ParseMany, BytesFrom;
    var bs' := bs + [Breakable(s.name, false)];
    var n, b := Patched(s), BytesFrom(s, 0, bs');
    HasCat(code, pc, [0x01, n], b);
    PairFetch(menv, code, pc, 0x01, n);
    var ts := ParseList(menv, fe, code, pc + 2, s, 0, bs');
    Node(menv, fe, code, pc, S.Block(n), 2, ts, pc + 2 + |b|);
    t := S.Syn(S.Block(n), pc, 2, ts);
  }

  /** Statements i, i + 1, ... of a block, up to the first jump. */
  lemma {:induction false} ParseList(menv: ModuleEnv, fe: S.FunEnv, code: seq<byte>, pc: nat, s: Stmt, i: nat,
      bs: seq<Breakable>) returns (ts: seq<S.Syn>)
    requires s.Seq? && i <= |s.body| && FitFrom(fe, s, i, bs) && pc <= |code| && Has(code, pc, BytesFrom(s, i, bs))
    ensures ParseMany(menv, fe, code, pc, Emitted(s, i)) == ParsedAll(ts, pc + |BytesFrom(s, i, bs)|)
    ensures CompilesFrom(fe, ts, 0, s, i, bs)
    decreases s, 0, |s.body| - i, 1
  {
    hide Fetch, Parse, ParseMany, Compiles, Bytes, Fit, BytesFrom, Has, CompilesFrom, FitFrom, Emitted;
    ListParts(s, i, bs);
    if i == |s.body| {
      ts := [];
      NoMore(menv, fe, code, pc);
      Nothing(fe, s, bs);
    } else {
      ListFits(fe, s, i, bs);
      if !Loud(s.body[i]) {
        SilentEmitsNothing(s.body[i], bs);
        assert [] + BytesFrom(s, i + 1, bs) == BytesFrom(s, i + 1, bs);
        ts := ParseList(menv, fe, code, pc, s, i + 1, bs);
        SilentCompiles(fe, ts, s, i, bs);
      } else {
        ts := ParseFirst(menv, fe, code, pc, s, i, bs);
      }
    }
  }

  /** The next statement of a block, and the rest unless it is a jump. */
  lemma {:induction false} ParseFirst(menv: ModuleEnv, fe: S.FunEnv, code: seq<byte>, pc: nat, s: Stmt, i: nat,
      bs: seq<Breakable>) returns (ts: seq<S.Syn>)
    requires s.Seq? && i < |s.body| && Loud(s.body[i]) && Fit(fe, s.body[i], bs)
    requires (IsJump(s.body[i]) || FitFrom(fe, s, i + 1, bs))
    requires pc <= |code| && Has(code, pc, BytesFrom(s, i, bs))
    ensures ParseMany(menv, fe, code, pc, Emitted(s, i)) == ParsedAll(ts, pc + |BytesFrom(s, i, bs)|)
    ensures CompilesFrom(fe, ts, 0, s, i, bs)
    decreases s, 0, |s.body| - i, 0
  {
    hide Fetch, Parse, ParseMany, Compiles, Bytes, Fit, BytesFrom, Has, CompilesFrom, FitFrom, Emitted;
    ListParts(s, i, bs);
    EmittedIs(s, i);
    var one, last := Bytes(s.body[i], bs), IsJump(s.body[i]);
    var more := if last then [] else BytesFrom(s, i + 1, bs);
    assert BytesFrom(s, i, bs) == one + more;
    HasCat(code, pc, one, more);
    var t := ParseS(menv, fe, code, pc, s.body[i], bs);
    var rest := [];
    if last {
      NoMore(menv, fe, code, pc + |one|);
    } else {
      rest := ParseList(menv, fe, code, pc + |one|, s, i + 1, bs);
    }
    ts := [t] + rest;
    OneMore(menv, fe, code, pc, t, pc + |one|, if last then 0 else Emitted(s, i + 1), rest, pc + |one| + |more|);
    FirstCompiles(fe, t, rest, s, i, bs);
  }

  lemma Nothing(fe: S.FunEnv, s: Stmt, bs: seq<Breakable>)
    requires s.Seq?
    ensures Emitted(s, |s.body|) == 0 && CompilesFrom(fe, [], 0, s, |s.body|, bs)
  {
  }

  lemma ListFits(fe: S.FunEnv, s: Stmt, i: nat, bs: seq<Breakable>)
    requires s.Seq? && i < |s.body| && FitFrom(fe, s, i, bs)
    ensures Fit(fe, s.body[i], bs) && (IsJump(s.body[i]) || FitFrom(fe, s, i + 1, bs))
  {
    hide Fit;
  }

  lemma SilentCompiles(fe: S.FunEnv, ts: seq<S.Syn>, s: Stmt, i: nat, bs: seq<Breakable>)
    requires s.Seq? && i < |s.body| && !Loud(s.body[i]) && CompilesFrom(fe, ts, 0, s, i + 1, bs)
    ensures CompilesFrom(fe, ts, 0, s, i, bs) && Emitted(s, i) == Emitted(s, i + 1)
  {
    hide Compiles;
  }

  lemma FirstCompiles(fe: S.FunEnv, t: S.Syn, rest: seq<S.Syn>, s: Stmt, i: nat, bs: seq<Breakable>)
    requires s.Seq? && i < |s.body| && Loud(s.body[i]) && Compiles(fe, t, s.body[i], bs)
    requires if IsJump(s.body[i]) then rest == [] else CompilesFrom(fe, rest, 0, s, i + 1, bs)
    ensures CompilesFrom(fe, [t] + rest, 0, s, i, bs)
  {
    hide Compiles;
    if !IsJump(s.body[i]) {
      assert ([t] + rest)[1..] == rest[0..];
      CompilesOn(fe, [t] + rest, 1, rest, 0, s, i + 1, bs);
    }
  }

  lemma SilentEmitsNothing(s: Stmt, bs: seq<Breakable>)
    requires !Loud(s)
    ensures Bytes(s, bs) == [] && !IsJump(s)
  {
  }

  lemma EmittedIs(s: Stmt, i: nat)
    requires s.Seq? && i < |s.body| && Loud(s.body[i])
    ensures Emitted(s, i) == 1 + if IsJump(s.body[i]) then 0 else Emitted(s, i + 1)
  {
  }

  /** Trees that compile statements do so wherever they stand. */
  lemma {:induction false} CompilesOn(fe: S.FunEnv, ts: seq<S.Syn>, k: nat, ts': seq<S.Syn>, k': nat, s: Stmt, i: nat,
      bs: seq<Breakable>)
    requires s.Seq? && i <= |s.body| && k <= |ts| && k' <= |ts'| && ts[k..] == ts'[k'..]
    requires CompilesFrom(fe, ts', k', s, i, bs)
    ensures CompilesFrom(fe, ts, k, s, i, bs)
    decreases |s.body| - i
  {
    hide Compiles;
    if i < |s.body| {
      if !Loud(s.body[i]) {
        CompilesOn(fe, ts, k, ts', k', s, i + 1, bs);
      } else {
        assert ts[k..][0] == ts'[k'..][0] && ts[k + 1..] == ts[k..][1..] && ts'[k' + 1..] == ts'[k'..][1..];
        if !IsJump(s.body[i]) { CompilesOn(fe, ts, k + 1, ts', k' + 1, s, i + 1, bs); }
      }
    }
  }
}
