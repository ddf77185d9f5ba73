/** The decoder accepts a compiled function exactly when the function is well typed. */
module AsmTyping {
  import S = Syntax
  import opened Graph
  import opened Leb128
  import opened Opcodes
  import opened Asm
  import opened AsmMeaning
  import opened AsmParse
  import opened AsmFunction
  import opened LrParse
  import V = Ssa
  import F = FunctionMeaning
  import D = DecodeFunction

  function TypeOf(fe: S.FunEnv, e: Expr): S.LocalType {
    match e
    case Num(_) => S.I32
    case Var(x) => if x < |fe.locals| then fe.locals[x] else S.Stmt
    case AsIs(e') => TypeOf(fe, e')
    case Op(c, _) => SimpleSig(c).1
  }

  predicate ExprTyped(fe: S.FunEnv, e: Expr) {
    match e
    case Num(_) => true
    case Var(x) => x < |fe.locals|
    case AsIs(e') => ExprTyped(fe, e')
    case Op(c, args) =>
      |SimpleSig(c).0| == |args| && forall i :: 0 <= i < |args| ==>
        ExprTyped(fe, args[i]) && TypeOf(fe, args[i]) == SimpleSig(c).0[i]
  }

  /** Conditions are integers, and what is returned or assigned has the type of where it goes. */
  predicate Typed(fe: S.FunEnv, s: Stmt)
    decreases s, 1
  {
    match s
    case Skip => true
    case Seq(_, _) => TypedFrom(fe, s, 0)
    case While(_, c, b) => ExprTyped(fe, c) && TypeOf(fe, c).I32? && Typed(fe, b)
    case Cond(c, a, b) => ExprTyped(fe, c) && TypeOf(fe, c).I32? && Typed(fe, a) && Typed(fe, b)
    case Break(_) => true
    case Continue(_) => true
    case Ret(e) => e.Some? ==> ExprTyped(fe, e.value) && TypeOf(fe, e.value) == fe.ret
    case Assign(x, e) => Elided(s) || (x < |fe.locals| && ExprTyped(fe, e) && TypeOf(fe, e) == fe.locals[x])
    case Do(e) => ExprTyped(fe, e)
  }

  /** Statements i, i + 1, ... of a block, up to the first jump. */
  predicate TypedFrom(fe: S.FunEnv, s: Stmt, i: nat)
    requires s.Seq? && i <= |s.body|
    decreases s, 0, |s.body| - i
  {
    i == |s.body| || (Typed(fe, s.body[i]) && (IsJump(s.body[i]) || TypedFrom(fe, s, i + 1)))
  }

  /** An expression builds if and only if it is typed, and its tree has its type, whatever the state. */
  lemma {:induction false} ExprBuilds(fe: S.FunEnv, t: S.Syn, e: Expr, st: V.St)
    requires CompilesE(t, e)
    ensures var r := V.Run(fe, t, st);
      (r.Ok? <==> ExprTyped(fe, e)) && (r.Ok? ==>
        r.ty == TypeOf(fe, e) && S.IsValue(r.ty) && |r.s.blocks| == |st.blocks|)
    decreases e, 1
  {
    hide V.BuildOp;
    match e
    case Num(_) =>
    case Var(_) =>
    case AsIs(e') => ExprBuilds(fe, t, e', st);
    case Op(c, args) => ExprsBuild(fe, t, e, 0, st);
  }

  predicate ArgsTyped(fe: S.FunEnv, e: Expr, i: nat)
    requires e.Op? && |SimpleSig(e.code).0| == |e.args|
  {
    forall j :: i <= j < |e.args| ==> ExprTyped(fe, e.args[j]) && TypeOf(fe, e.args[j]) == SimpleSig(e.code).0[j]
  }

  lemma {:induction false} ExprsBuild(fe: S.FunEnv, t: S.Syn, e: Expr, i: nat, st: V.St)
    requires e.Op? && CompilesE(t, e) && i <= |e.args|
    ensures var k := V.RunKids(fe, t, i, st);
      (k.KOk? <==> ArgsTyped(fe, e, i)) && (k.KOk? ==> |k.s.blocks| == |st.blocks|)
    decreases e, 0, |e.args| - i
  {
    hide V.Run, ExprTyped, TypeOf, SimpleSig, OpOf;
    if i < |e.args| {
      ExprBuilds(fe, t.kids[i], e.args[i], st);
      var r := V.Run(fe, t.kids[i], st);
      OpSig(e.code);
      if r.Ok? { ExprsBuild(fe, t, e, i + 1, r.s); }
    }
  }

  lemma OpSig(c: byte)
    requires S.IsValue(SimpleSig(c).1)
    ensures OpOf(c).params == SimpleSig(c).0 && !OpOf(c).strict && OpOf(c).result == SimpleSig(c).1
  {
  }

  // ----- Statements -----

  /** A one-armed if runs its condition, then its arm in some state with the same blocks. */
  lemma IfRuns(fe: S.FunEnv, t: S.Syn, st: V.St) returns (st1: V.St)
    requires t.instr.If? && |t.kids| == 2 && V.Run(fe, t.kids[0], st).Ok?
    ensures var c, r := V.Run(fe, t.kids[0], st), V.Run(fe, t, st);
      && st1.blocks == c.s.blocks
      && (r.Ok? <==> V.Accepts(S.I32, c.ty) && V.Run(fe, t.kids[1], st1).Ok?)
      && (r.Ok? ==> r.s.blocks == V.Run(fe, t.kids[1], st1).s.blocks)
  {
    hide V.Goto;
    var c := V.Run(fe, t.kids[0], st);
    if c.s.cur.Go() {
      var (g, tc, fc) := V.BuildBranch(c.s.g, c.s.cur.control, c.node);
      st1 := V.St(g, V.Env(V.Reached, tc, c.s.cur.slots), c.s.blocks, c.s.log);
    } else {
      st1 := c.s.(cur := V.Kill(V.Unreached));
    }
  }

  /** A two-armed if runs its condition and both arms. */
  lemma IfElseRuns(fe: S.FunEnv, t: S.Syn, st: V.St) returns (st1: V.St, st2: V.St)
    requires t.instr.IfElse? && |t.kids| == 3 && V.Run(fe, t.kids[0], st).Ok?
    ensures var c, r := V.Run(fe, t.kids[0], st), V.Run(fe, t, st);
      var a := V.Run(fe, t.kids[1], st1);
      && st1.blocks == c.s.blocks && (a.Ok? ==> st2.blocks == a.s.blocks)
      && (r.Ok? <==> V.Accepts(S.I32, c.ty) && a.Ok? && V.Run(fe, t.kids[2], st2).Ok?)
      && (r.Ok? ==> r.s.blocks == V.Run(fe, t.kids[2], st2).s.blocks)
  {
    hide V.MergeInto;
    var c := V.Run(fe, t.kids[0], st);
    var (g, tc, fc) := if c.s.cur.Go() then V.BuildBranch(c.s.g, c.s.cur.control, c.node) else (c.s.g, 0, 0);
    st1 := V.St(g, V.Stolen(c.s.cur).(control := tc), c.s.blocks, c.s.log);
    var a := V.Run(fe, t.kids[1], st1);
    st2 := st1;
    if a.Ok? {
      var g2 := V.MergeInto(fe, a.s.g, a.s.cur, V.NewTarget(c.s.cur), a.ty, a.node).0;
      st2 := V.St(g2, V.Split(c.s.cur).(control := fc), a.s.blocks, a.s.log);
    }
  }

  /** A branch runs its operand. */
  lemma BrRuns(fe: S.FunEnv, t: S.Syn, st: V.St)
    requires t.instr.Br? && |t.kids| == 1 && t.instr.depth < |st.blocks|
    ensures var k, r := V.Run(fe, t.kids[0], st), V.Run(fe, t, st);
      (r.Ok? <==> k.Ok?) && (r.Ok? ==> |r.s.blocks| == |k.s.blocks|)
  {
    hide V.MergeInto;
    OneKid(fe, t, st);
  }

  lemma OneKid(fe: S.FunEnv, t: S.Syn, st: V.St)
    requires |t.kids| == 1
    ensures var k, r := V.RunKids(fe, t, 0, st), V.Run(fe, t.kids[0], st);
      && (k.KOk? <==> r.Ok? && V.KidOk(fe, t.instr, 0, r.ty))
      && (k.KOk? ==> k == V.KOk(r.s, [r.ty], [r.node]))
  {
    hide V.Run;
    var r := V.Run(fe, t.kids[0], st);
    if r.Ok? {
      assert V.RunKids(fe, t, 1, r.s) == V.KOk(r.s, [], []);
      assert [r.ty] + [] == [r.ty] && [r.node] + [] == [r.node];
    }
  }

  lemma {:induction false} PlacesMore(bs: seq<Breakable>, b: Breakable)
    ensures |Places(bs + [b])| == |Places(bs)| + if b.loop then 2 else 1
  {
    assert (bs + [b])[..|bs|] == bs;
  }

  /** A statement's tree builds if and only if the statement is typed, whatever the state. */
  lemma {:induction false} Builds(fe: S.FunEnv, t: S.Syn, s: Stmt, bs: seq<Breakable>, st: V.St)
    requires Compiles(fe, t, s, bs) && |st.blocks| == |Places(bs)|
    ensures var r := V.Run(fe, t, st); (r.Ok? <==> Typed(fe, s)) && (r.Ok? ==> |r.s.blocks| == |st.blocks|)
    decreases s, 2
  {
    hide V.Run, CompilesE, ExprTyped, TypeOf, Elided, Distance, Targets, Places;
    match s
    case Seq(_, _) => BlockBuilds(fe, t, s, bs, st);
    case While(_, _, _) => WhileBuilds(fe, t, s, bs, st);
    case Cond(_, _, _) => CondBuilds(fe, t, s, bs, st);
    case Break(l) => JumpBuilds(fe, t, bs, l, false, st);
    case Continue(l) => JumpBuilds(fe, t, bs, l, true, st);
    case Ret(_) => ReturnBuilds(fe, t, s, bs, st);
    case Assign(_, _) => AssignBuilds(fe, t, s, bs, st);
    case Do(e) => ExprBuilds(fe, t, e, st);
  }

  lemma JumpBuilds(fe: S.FunEnv, t: S.Syn, bs: seq<Breakable>, l: nat, again: bool, st: V.St)
    requires t.instr == S.Br(Distance(bs, l, again)) && OnlyNop(t) && Targets(bs, l, again)
    requires |st.blocks| == |Places(bs)|
    ensures var r := V.Run(fe, t, st); r.Ok? && |r.s.blocks| == |st.blocks|
  {
    DistanceFinds(bs, l, again);
    BrRuns(fe, t, st);
  }

  lemma ReturnBuilds(fe: S.FunEnv, t: S.Syn, s: Stmt, bs: seq<Breakable>, st: V.St)
    requires s.Ret? && Compiles(fe, t, s, bs)
    ensures var r := V.Run(fe, t, st);
      (r.Ok? <==> Typed(fe, s)) && (r.Ok? ==> |r.s.blocks| == |st.blocks| && !r.s.cur.Go())
  {
    hide CompilesE, ExprTyped, TypeOf;
    if s.value.Some? {
      OneKid(fe, t, st);
      ExprBuilds(fe, t.kids[0], s.value.value, st);
    }
  }

  lemma AssignBuilds(fe: S.FunEnv, t: S.Syn, s: Stmt, bs: seq<Breakable>, st: V.St)
    requires s.Assign? && Compiles(fe, t, s, bs)
    ensures var r := V.Run(fe, t, st); (r.Ok? <==> Typed(fe, s)) && (r.Ok? ==> |r.s.blocks| == |st.blocks|)
  {
    hide CompilesE, ExprTyped, TypeOf, Elided;
    OneKid(fe, t, st);
    ExprBuilds(fe, t.kids[0], s.e, st);
  }

  lemma {:induction false} CondBuilds(fe: S.FunEnv, t: S.Syn, s: Stmt, bs: seq<Breakable>, st: V.St)
    requires s.Cond? && Compiles(fe, t, s, bs) && |st.blocks| == |Places(bs)|
    ensures var r := V.Run(fe, t, st); (r.Ok? <==> Typed(fe, s)) && (r.Ok? ==> |r.s.blocks| == |st.blocks|)
    decreases s, 1
  {
    hide V.Run, CompilesE, ExprTyped, TypeOf, Places;
    ExprBuilds(fe, t.kids[0], s.cond, st);
    if ExprTyped(fe, s.cond) {
      if s.no.Skip? {
        var st1 := IfRuns(fe, t, st);
        ArmBuilds(fe, t.kids[1], s.yes, bs, st1);
      } else {
        var st1, st2 := IfElseRuns(fe, t, st);
        ArmBuilds(fe, t.kids[1], s.yes, bs, st1);
        if Typed(fe, s.yes) { Builds(fe, t.kids[2], s.no, bs, st2); }
      }
    } else {
      FirstFails(fe, t, st);
    }
  }

  lemma {:induction false} ArmBuilds(fe: S.FunEnv, t: S.Syn, s: Stmt, bs: seq<Breakable>, st: V.St)
    requires (if s.Skip? then t.instr == S.Nop && t.kids == [] else Compiles(fe, t, s, bs))
    requires |st.blocks| == |Places(bs)|
    ensures var r := V.Run(fe, t, st); (r.Ok? <==> Typed(fe, s)) && (r.Ok? ==> |r.s.blocks| == |st.blocks|)
    decreases s, 3
  {
    if !s.Skip? { Builds(fe, t, s, bs, st); }
  }

  lemma FirstFails(fe: S.FunEnv, t: S.Syn, st: V.St)
    requires (t.instr.If? || t.instr.IfElse?) && t.kids != [] && V.Run(fe, t.kids[0], st).Err?
    ensures V.Run(fe, t, st).Err?
  {
  }

  lemma {:induction false} WhileBuilds(fe: S.FunEnv, t: S.Syn, s: Stmt, bs: seq<Breakable>, st: V.St)
    requires s.While? && Compiles(fe, t, s, bs) && |st.blocks| == |Places(bs)|
    ensures var r := V.Run(fe, t, st); (r.Ok? <==> Typed(fe, s)) && (r.Ok? ==> |r.s.blocks| == |st.blocks|)
    decreases s, 1
  {
    hide V.Run, CompilesE, ExprTyped, TypeOf, Places;
    var test, bs', inner := t.kids[0], bs + [Breakable(s.name, true)], V.EnterLoop(fe, st);
    PlacesMore(bs, Breakable(s.name, true));
    LoopRuns(fe, t, st);
    ExprBuilds(fe, test.kids[0], s.cond, inner);
    if ExprTyped(fe, s.cond) {
      var st1 := IfRuns(fe, test, inner);
      BrRuns(fe, test.kids[1], st1);
      Builds(fe, test.kids[1].kids[0], s.loop, bs', st1);
    } else {
      FirstFails(fe, test, inner);
    }
  }

  lemma LoopRuns(fe: S.FunEnv, t: S.Syn, st: V.St)
    requires t.instr == S.Loop(1) && |t.kids| == 1
    ensures |V.EnterLoop(fe, st).blocks| == |st.blocks| + 2
    ensures var k, r := V.Run(fe, t.kids[0], V.EnterLoop(fe, st)), V.Run(fe, t, st);
      k.Ok? && |k.s.blocks| == |st.blocks| + 2 ==> r.Ok? && |r.s.blocks| == |st.blocks|
    ensures var k, r := V.Run(fe, t.kids[0], V.EnterLoop(fe, st)), V.Run(fe, t, st); r.Ok? ==> k.Ok?
  {
    hide V.PrepareForLoop, V.MergeInto;
    OneKid(fe, t, V.EnterLoop(fe, st));
  }

  lemma {:induction false} BlockBuilds(fe: S.FunEnv, t: S.Syn, s: Stmt, bs: seq<Breakable>, st: V.St)
    requires s.Seq? && Compiles(fe, t, s, bs) && |st.blocks| == |Places(bs)|
    ensures var r := V.Run(fe, t, st); (r.Ok? <==> Typed(fe, s)) && (r.Ok? ==> |r.s.blocks| == |st.blocks|)
    decreases s, 1
  {
    hide V.MergeInto, CompilesFrom, TypedFrom, Places;
    PlacesMore(bs, Breakable(s.name, false));
    ListBuilds(fe, t, 0, s, 0, bs + [Breakable(s.name, false)], V.EnterBlock(st));
  }

  lemma {:induction false} ListBuilds(fe: S.FunEnv, t: S.Syn, k: nat, s: Stmt, i: nat, bs: seq<Breakable>, st: V.St)
    requires s.Seq? && i <= |s.body| && k <= |t.kids| && CompilesFrom(fe, t.kids, k, s, i, bs)
    requires |st.blocks| == |Places(bs)|
    requires t.instr.Block?
    ensures var r := V.RunKids(fe, t, k, st);
      (r.KOk? <==> TypedFrom(fe, s, i)) && (r.KOk? ==> |r.s.blocks| == |st.blocks|)
    decreases s, 0, |s.body| - i
  {
    hide V.Run, Compiles, Typed, Places;
    if i < |s.body| {
      if !Loud(s.body[i]) {
        SilentTyped(fe, s.body[i]);
        ListBuilds(fe, t, k, s, i + 1, bs, st);
      } else {
        Builds(fe, t.kids[k], s.body[i], bs, st);
        var r := V.Run(fe, t.kids[k], st);
        if r.Ok? && !IsJump(s.body[i]) { ListBuilds(fe, t, k + 1, s, i + 1, bs, r.s); }
      }
    }
  }

  lemma SilentTyped(fe: S.FunEnv, s: Stmt)
    requires !Loud(s)
    ensures Typed(fe, s) && !IsJump(s)
  {
  }

  // ----- Functions -----

  /** Control does not come out of statements with a return among them, when nothing can be left. */
  lemma {:induction false} EndsDead(fe: S.FunEnv, t: S.Syn, k: nat, s: Stmt, i: nat, j: nat, st: V.St)
    requires s.Seq? && i <= j < |s.body| && s.body[j].Ret? && k <= |t.kids| && CompilesFrom(fe, t.kids, k, s, i, [])
    requires V.RunKids(fe, t, k, st).KOk?
    ensures !V.RunKids(fe, t, k, st).s.cur.Go()
    decreases |s.body| - i
  {
    hide V.Run, Typed;
    if !Loud(s.body[i]) {
      EndsDead(fe, t, k, s, i + 1, j, st);
    } else {
      var r := V.Run(fe, t.kids[k], st);
      if IsJump(s.body[i]) {
        ReturnBuilds(fe, t.kids[k], s.body[i], [], st);
      } else {
        EndsDead(fe, t, k + 1, s, i + 1, j, r.s);
      }
    }
  }

  /** The decoder accepts a compiled function if and only if the function is well typed. */
  lemma AcceptedIffTyped(menv: ModuleEnv, d: F.Decl, f: Stmt)
    requires !d.ret.End? && f.Seq? && FitFrom(F.EnvOf(d), f, 0, []) && Closed(F.EnvOf(d), f)
    ensures D.Decode(menv, d, Body(f)).Accepted? <==> TypedFrom(F.EnvOf(d), f, 0)
  {
    hide D.Decode, FitFrom, CompilesFrom, TypedFrom, ParseBody, V.RunKids, F.InitGraph, BytesFrom;
    var fe := F.EnvOf(d);
    var ts := BodyParses(menv, fe, f);
    D.DecodeIsBuild(menv, d, Body(f));
    var t, st := F.BodyOf(ts), F.InitSt(d);
    ListBuilds(fe, t, 0, f, 0, [], st);
    if V.RunKids(fe, t, 0, st).KOk? {
      if j :| 0 <= j < |f.body| && f.body[j].Ret? { EndsDead(fe, t, 0, f, 0, j, st); }
    }
  }
}
