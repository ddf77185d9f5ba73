/** The statement compiler is correct: block counts, branch distances, and meaning, from statements through
    bytes, the decoder and the graph. */
module AsmMeaning {
  import S = Syntax
  import opened Graph
  import opened Leb128
  import opened Opcodes
  import opened Asm
  import I = Interp
  import opened LrParse

  // ----- Block counts -----

  /** Statements of a block that emit an expression, up to the first jump. */
  function Emitted(s: Stmt, i: nat): nat
    requires s.Seq? && i <= |s.body|
    decreases |s.body| - i
  {
    if i == |s.body| then 0
    else (if Loud(s.body[i]) then 1 else 0) + if IsJump(s.body[i]) then 0 else Emitted(s, i + 1)
  }

  /** Statements that are counted although nothing is emitted for them: empty ones, and those after a jump. */
  function Idle(s: Stmt, i: nat): nat
    requires s.Seq? && i <= |s.body|
    decreases |s.body| - i
  {
    if i == |s.body| then 0
    else if IsJump(s.body[i]) then |s.body| - i - 1
    else (if s.body[i].Skip? then 1 else 0) + Idle(s, i + 1)
  }

  /** Elided assignments below an if or a loop, not directly in the block. */
  function Deep(s: Stmt, i: nat): nat
    requires s.Seq? && i <= |s.body|
    decreases |s.body| - i
  {
    if i == |s.body| then 0
    else (if Loud(s.body[i]) then Elisions(s.body[i]) else 0) + if IsJump(s.body[i]) then 0 else Deep(s, i + 1)
  }

  lemma {:induction false} Counted(s: Stmt, i: nat)
    requires s.Seq? && i <= |s.body|
    ensures |s.body| - i - ElisionsFrom(s, i) == Emitted(s, i) + Idle(s, i) - Deep(s, i)
    decreases |s.body| - i
  {
    if i < |s.body| && !IsJump(s.body[i]) { Counted(s, i + 1); }
  }

  /** A block's patched count is the number of expressions emitted for it exactly when that number fits a
      byte and idle statements and deep elisions cancel out. */
  lemma CountIff(s: Stmt)
    requires s.Seq?
    ensures Patched(s) == Emitted(s, 0) <==> Emitted(s, 0) < 256 && (Idle(s, 0) - Deep(s, 0)) % 256 == 0
  {
    Counted(s, 0);
    var n, e, x := |s.body|, ElisionsFrom(s, 0), Idle(s, 0) - Deep(s, 0);
    assert n - e == Emitted(s, 0) + x;
    ModDiff(n, e);
    ModZero(Emitted(s, 0), x);
  }

  lemma ModDiff(n: nat, e: int)
    ensures (n % 256 - e) % 256 == (n - e) % 256
  {
  }

  lemma ModZero(m: nat, x: int)
    ensures (m + x) % 256 == m <==> m < 256 && x % 256 == 0
  {
  }

  /** So the count is wrong for a block with one empty statement. */
  lemma EmptyMiscounts(name: nat)
    ensures var s := Seq(name, [Skip]); Patched(s) != Emitted(s, 0)
  {
    var s := Seq(name, [Skip]);
    assert Idle(s, 0) == 1 + Idle(s, 1) && Idle(s, 1) == 0;
    assert Deep(s, 0) == Deep(s, 1) == 0;
    CountIff(s);
  }

  // ----- Branch distances -----

  /** A block entry of the decoder: which statement it belongs to, and whether it is the inner one of a loop. */
  datatype Place = Place(name: nat, inner: bool)

  /** The block entries the decoder has open inside the given statements: one for a block, two for a loop. */
  function Places(bs: seq<Breakable>): seq<Place> {
    if bs == [] then []
    else
      var b := bs[|bs| - 1];
      Places(bs[..|bs| - 1]) + if b.loop then [Place(b.name, false), Place(b.name, true)] else [Place(b.name, false)]
  }

  /** The jump has a target: the innermost statement of that name, a loop if it is to be continued. */
  predicate Targets(bs: seq<Breakable>, l: nat, again: bool) {
    bs != [] && var b := bs[|bs| - 1]; if b.name == l then again ==> b.loop else Targets(bs[..|bs| - 1], l, again)
  }

  /** The emitted depth names, counted from the innermost entry, exactly the entry of the targeted statement. */
  lemma {:induction false} DistanceFinds(bs: seq<Breakable>, l: nat, again: bool)
    requires Targets(bs, l, again)
    ensures var d, ps := Distance(bs, l, again), Places(bs); d < |ps| && ps[|ps| - 1 - d] == Place(l, again)
    decreases |bs|
  {
    if bs[|bs| - 1].name != l { DistanceFinds(bs[..|bs| - 1], l, again); }
  }

  // ----- Trees -----

  predicate CompilesE(t: S.Syn, e: Expr)
    decreases e
  {
    match e
    case Num(n) => t.instr == S.Const(S.I32, n) && t.kids == []
    case Var(x) => t.instr == S.GetLocal(x) && t.kids == []
    case AsIs(e') => CompilesE(t, e')
    case Op(c, args) =>
      && S.IsValue(SimpleSig(c).1) && |SimpleSig(c).0| == |args| == |t.kids| && t.instr == S.Apply(OpOf(c))
      && forall i :: 0 <= i < |args| ==> CompilesE(t.kids[i], args[i])
  }

  /** Tree t is what statement s becomes inside bs. */
  predicate Compiles(fe: S.FunEnv, t: S.Syn, s: Stmt, bs: seq<Breakable>)
    decreases s, 1
  {
    match s
    case Skip => false
    case Seq(l, ss) => t.instr == S.Block(|t.kids|) && CompilesFrom(fe, t.kids, 0, s, 0, bs + [Breakable(l, false)])
    case While(l, c, b) =>
      && t.instr == S.Loop(1) && |t.kids| == 1
      && var k := t.kids[0];
      && k.instr == S.If && |k.kids| == 2 && CompilesE(k.kids[0], c)
      && var j := k.kids[1];
      && j.instr == S.Br(0) && |j.kids| == 1 && Compiles(fe, j.kids[0], b, bs + [Breakable(l, true)])
    case Cond(c, a, b) =>
      && t.instr == (if b.Skip? then S.If else S.IfElse) && |t.kids| == (if b.Skip? then 2 else 3)
        && CompilesE(t.kids[0], c)
      && (if a.Skip? then t.kids[1].instr == S.Nop && t.kids[1].kids == [] else Compiles(fe, t.kids[1], a, bs))
      && (!b.Skip? ==> Compiles(fe, t.kids[2], b, bs))
    case Break(l) => t.instr == S.Br(Distance(bs, l, false)) && OnlyNop(t) && Targets(bs, l, false)
    case Continue(l) => t.instr == S.Br(Distance(bs, l, true)) && OnlyNop(t) && Targets(bs, l, true)
    case Ret(e) =>
      && t.instr == S.Return
      && if e.None? then fe.ret.Stmt? && t.kids == []
        else !fe.ret.Stmt? && |t.kids| == 1 && CompilesE(t.kids[0], e.value)
    case Assign(x, e) => !Elided(s) && t.instr == S.SetLocal(x) && |t.kids| == 1 && CompilesE(t.kids[0], e)
    case Do(e) => CompilesE(t, e)
  }

  predicate OnlyNop(t: S.Syn) {
    |t.kids| == 1 && t.kids[0].instr == S.Nop && t.kids[0].kids == []
  }

  /** Trees k, k + 1, ... are what statements i, i + 1, ... of a block become. */
  predicate CompilesFrom(fe: S.FunEnv, ts: seq<S.Syn>, k: nat, s: Stmt, i: nat, bs: seq<Breakable>)
    requires s.Seq? && i <= |s.body| && k <= |ts|
    decreases s, 0, |s.body| - i
  {
    if i == |s.body| then k == |ts|
    else if !Loud(s.body[i]) then CompilesFrom(fe, ts, k, s, i + 1, bs)
    else
      && k < |ts| && Compiles(fe, ts[k], s.body[i], bs)
      && if IsJump(s.body[i]) then k + 1 == |ts| else CompilesFrom(fe, ts, k + 1, s, i + 1, bs)
  }

  // ----- Meaning of trees -----

  /** The tree ends the way the statement does. */
  predicate Agrees(bs: seq<Breakable>, o: Outcome, x: I.Out) {
    match o
    case Go(st) => x.Norm? && x.st == st
    case Jump(l, again, st) => Targets(bs, l, again) && x.Brk? && x.depth == Distance(bs, l, again) && x.st == st
    case Return(v, w) => x == I.Done(v, w)
    case Trap(w) => x == I.Trap(w)
    case OutOf(laps) => x == I.Fuel(laps)
  }

  predicate AgreesE(a: Answer, st: seq<Val>, x: I.Out)
    requires |st| > 0
  {
    match a
    case Trapped => x == I.Trap(WorldOf(st))
    case Is(v) => x == I.Norm(v, st)
  }

  lemma {:induction false} SimE(fe: S.FunEnv, sem: Sem, t: S.Syn, e: Expr, st: seq<Val>, fuel: nat)
    requires CompilesE(t, e) && |st| == |fe.locals| + 1
    ensures AgreesE(ValueOf(sem, e, st), st, I.Exec(fe, sem, t, st, fuel))
    decreases e, 1
  {
    match e
    case Num(n) =>
    case Var(x) =>
    case AsIs(e') => SimE(fe, sem, t, e', st, fuel);
    case Op(c, args) => SimEs(fe, sem, t, e, 0, st, fuel);
  }

  lemma {:induction false} SimEs(fe: S.FunEnv, sem: Sem, t: S.Syn, e: Expr, i: nat, st: seq<Val>, fuel: nat)
    requires e.Op? && CompilesE(t, e) && |st| == |fe.locals| + 1 && i <= |e.args|
    ensures match EvalFrom(sem, e, i, st)
      case AllTrapped => I.ExecKids(fe, sem, t, i, st, fuel) == I.Stop(I.Trap(WorldOf(st)))
      case Are(vs) => I.ExecKids(fe, sem, t, i, st, fuel) == I.Vals(vs, st)
    decreases e, 0, |e.args| - i
  {
    hide I.Exec, ValueOf;
    if i < |e.args| {
      SimE(fe, sem, t.kids[i], e.args[i], st, fuel);
      SimEs(fe, sem, t, e, i + 1, st, fuel);
    }
  }

  /** Statements and trees end alike, in every store and for every amount of fuel. */
  lemma {:induction false} Sim(fe: S.FunEnv, sem: Sem, t: S.Syn, s: Stmt, bs: seq<Breakable>, st: seq<Val>, fuel: nat)
    requires Compiles(fe, t, s, bs) && |st| == |fe.locals| + 1
    ensures Agrees(bs, Run(sem, s, st, fuel), I.Exec(fe, sem, t, st, fuel))
    decreases fuel, s, 2
  {
    match s
    case Seq(l, ss) => SimSeq(fe, sem, t, s, bs, st, fuel);
    case While(l, c, b) => SimWhile(fe, sem, t, s, bs, st, fuel);
    case Cond(c, a, b) => SimCond(fe, sem, t, s, bs, st, fuel);
    case Ret(e) => if e.Some? { SimRet(fe, sem, t, e.value, st, fuel); }
    case Assign(x, e) => SimE(fe, sem, t.kids[0], e, st, fuel);
    case Do(e) => SimE(fe, sem, t, e, st, fuel);
    case _ =>
  }

  lemma SimRet(fe: S.FunEnv, sem: Sem, t: S.Syn, e: Expr, st: seq<Val>, fuel: nat)
    requires t.instr == S.Return && !fe.ret.Stmt? && |t.kids| == 1 && CompilesE(t.kids[0], e) && |st| == |fe.locals| + 1
    ensures I.Exec(fe, sem, t, st, fuel) == match ValueOf(sem, e, st)
      case Trapped => I.Trap(WorldOf(st))
      case Is(v) => I.Done(v, WorldOf(st))
  {
    SimE(fe, sem, t.kids[0], e, st, fuel);
    assert I.ExecKids(fe, sem, t, 1, st, fuel) == I.Vals([], st);
  }

  lemma {:induction false} SimCond(fe: S.FunEnv, sem: Sem, t: S.Syn, s: Stmt, bs: seq<Breakable>, st: seq<Val>,
      fuel: nat)
    requires s.Cond? && Compiles(fe, t, s, bs) && |st| == |fe.locals| + 1
    ensures Agrees(bs, Run(sem, s, st, fuel), I.Exec(fe, sem, t, st, fuel))
    decreases fuel, s, 1
  {
    SimE(fe, sem, t.kids[0], s.cond, st, fuel);
    if !s.yes.Skip? { Sim(fe, sem, t.kids[1], s.yes, bs, st, fuel); }
    if !s.no.Skip? { Sim(fe, sem, t.kids[2], s.no, bs, st, fuel); }
  }

  lemma {:induction false} SimFrom(fe: S.FunEnv, sem: Sem, t: S.Syn, k: nat, s: Stmt, i: nat, bs: seq<Breakable>,
      st: seq<Val>, fuel: nat)
    requires s.Seq? && i <= |s.body| && k <= |t.kids| && CompilesFrom(fe, t.kids, k, s, i, bs)
    requires |st| == |fe.locals| + 1
    ensures var o, x := RunFrom(sem, s, i, st, fuel), I.ExecKids(fe, sem, t, k, st, fuel);
      if o.Go? then x.Vals? && x.st == o.st else x.Stop? && Agrees(bs, o, x.out)
    decreases fuel, s, 0, |s.body| - i
  {
    hide I.Exec, Compiles;
    if i < |s.body| {
      if !Loud(s.body[i]) {
        SilentRuns(sem, s.body[i], st, fuel);
        SimFrom(fe, sem, t, k, s, i + 1, bs, st, fuel);
      } else {
        hide Run;
        Sim(fe, sem, t.kids[k], s.body[i], bs, st, fuel);
        var o := Run(sem, s.body[i], st, fuel);
        if o.Go? {
          if IsJump(s.body[i]) {
            JumpsLeave(sem, s.body[i], st, fuel);
          } else {
            SimFrom(fe, sem, t, k + 1, s, i + 1, bs, o.st, fuel);
          }
        }
      }
    }
  }

  lemma SilentRuns(sem: Sem, s: Stmt, st: seq<Val>, fuel: nat)
    requires !Loud(s) && |st| > 0
    ensures Run(sem, s, st, fuel) == Go(st)
  {
    if Elided(s) {
      assert ValueOf(sem, s.e, st) == ValueOf(sem, Var(s.x), st);
      if s.x < |st| - 1 { assert st[s.x := st[s.x]] == st; }
    }
  }

  lemma JumpsLeave(sem: Sem, s: Stmt, st: seq<Val>, fuel: nat)
    requires IsJump(s) && |st| > 0
    ensures !Run(sem, s, st, fuel).Go?
  {
  }

  /** Leaving a block or loop takes one or two entries off the distance. */
  lemma Outward(bs: seq<Breakable>, l: nat, loop: bool, l': nat, again: bool)
    ensures var bs' := bs + [Breakable(l, loop)];
      && Targets(bs', l', again) == (if l == l' then again ==> loop else Targets(bs, l', again))
      && Distance(bs', l', again)
         == if l == l' then (if loop && !again then 1 else 0) else (if loop then 2 else 1) + Distance(bs, l', again)
  {
    assert (bs + [Breakable(l, loop)])[..|bs|] == bs;
  }

  lemma {:induction false} SimSeq(fe: S.FunEnv, sem: Sem, t: S.Syn, s: Stmt, bs: seq<Breakable>, st: seq<Val>,
      fuel: nat)
    requires s.Seq? && Compiles(fe, t, s, bs) && |st| == |fe.locals| + 1
    ensures Agrees(bs, Run(sem, s, st, fuel), I.Exec(fe, sem, t, st, fuel))
    decreases fuel, s, 1
  {
    SimFrom(fe, sem, t, 0, s, 0, bs + [Breakable(s.name, false)], st, fuel);
    hide RunFrom, I.ExecKids, Targets, Distance, CompilesFrom;
    var o := RunFrom(sem, s, 0, st, fuel);
    if o.Jump? { Outward(bs, s.name, false, o.name, o.again); }
    assert S.Arity(fe, t.instr) == |t.kids|;
    if t.kids == [] {
      assert I.ExecKids(fe, sem, t, 0, st, fuel) == I.Vals([], st) by { NoKids(fe, sem, t, st, fuel); }
    }
  }

  lemma NoKids(fe: S.FunEnv, sem: Sem, t: S.Syn, st: seq<Val>, fuel: nat)
    requires t.kids == [] && |st| == |fe.locals| + 1
    ensures I.ExecKids(fe, sem, t, 0, st, fuel) == I.Vals([], st)
  {
  }

  /** The tree of a while loop: leave when the condition fails, else the body and a branch back. */
  lemma WhileBody(fe: S.FunEnv, sem: Sem, t: S.Syn, c: Expr, st: seq<Val>, fuel: nat)
    requires |st| == |fe.locals| + 1 && t.instr == S.Loop(1) && |t.kids| == 1
    requires var k := t.kids[0];
      k.instr == S.If && |k.kids| == 2 && CompilesE(k.kids[0], c) && k.kids[1].instr == S.Br(0) && |k.kids[1].kids| == 1
    ensures I.ExecBody(fe, sem, t, st, fuel) == match ValueOf(sem, c, st)
      case Trapped => I.Trap(WorldOf(st))
      case Is(v) =>
        if !sem.truth(v) then I.Norm(sem.unit, st)
        else var x := I.Exec(fe, sem, t.kids[0].kids[1].kids[0], st, fuel); if x.Norm? then I.Brk(0, x.v, x.st) else x
  {
    var k := t.kids[0];
    var j := k.kids[1];
    SimE(fe, sem, k.kids[0], c, st, fuel);
    var y := I.Exec(fe, sem, j.kids[0], st, fuel);
    assert I.Exec(fe, sem, j, st, fuel) == if y.Norm? then I.Brk(0, y.v, y.st) else y;
    var x := I.Exec(fe, sem, k, st, fuel);
    OneKid(fe, sem, t, st, fuel);
  }

  lemma OneKid(fe: S.FunEnv, sem: Sem, t: S.Syn, st: seq<Val>, fuel: nat)
    requires |t.kids| == 1 && |st| == |fe.locals| + 1
    ensures I.ExecBody(fe, sem, t, st, fuel) == I.Exec(fe, sem, t.kids[0], st, fuel)
  {
    hide I.Exec;
    var x := I.Exec(fe, sem, t.kids[0], st, fuel);
    if x.Norm? { assert I.ExecKids(fe, sem, t, 1, x.st, fuel) == I.Vals([], x.st); }
  }

  lemma {:induction false} SimWhile(fe: S.FunEnv, sem: Sem, t: S.Syn, s: Stmt, bs: seq<Breakable>, st: seq<Val>,
      fuel: nat)
    requires s.While? && Compiles(fe, t, s, bs) && |st| == |fe.locals| + 1
    ensures Agrees(bs, Run(sem, s, st, fuel), I.Exec(fe, sem, t, st, fuel))
    decreases fuel, s, 1
  {
    hide I.Exec, ValueOf;
    WhileBody(fe, sem, t, s.cond, st, fuel);
    var bs' := bs + [Breakable(s.name, true)];
    var body := t.kids[0].kids[1].kids[0];
    Sim(fe, sem, body, s.loop, bs', st, fuel);
    var o := Run(sem, s.loop, st, fuel);
    if o.Jump? { Outward(bs, s.name, true, o.name, o.again); }
    LoopTree(fe, sem, t, st, fuel);
    if (o.Go? || o.Jump?) && fuel > 0 {
      Sim(fe, sem, t, s, bs, o.st, fuel - 1);
      LoopTree(fe, sem, t, o.st, fuel - 1);
    }
    hide I.Exec, I.ExecBody, Targets, Distance, Compiles;
  }

  lemma LoopTree(fe: S.FunEnv, sem: Sem, t: S.Syn, st: seq<Val>, fuel: nat)
    requires t.instr.Loop? && t.kids != [] && |t.kids| == S.Arity(fe, t.instr) && |st| == |fe.locals| + 1
    ensures I.Exec(fe, sem, t, st, fuel) == I.ExecLoop(fe, sem, t, st, fuel)
  {
  }
}
