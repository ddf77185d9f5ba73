/** The shift-reduce decoder: productions, block stack and if stack, and environments that are named by
    their position in the zone they are allocated in. */
module Lr {
  import opened Syntax
  import opened Graph
  import opened Ssa
  import opened Leb128
  import opened Opcodes

  /** A finished tree. */
  datatype Tree = Tree(instr: Instr, pc: nat, len: nat, ty: LocalType, node: nat, kids: seq<Tree>)

  /** An unfinished tree: the children it has so far, and the type and node it has so far. */
  datatype Production = Production(instr: Instr, pc: nat, len: nat, ty: LocalType, node: nat, kids: seq<Tree>)

  /** A block entry: its environment and the position of its production, negative for the inner entry of
      a loop. */
  datatype Blk = Blk(env: nat, depth: int)

  /** A pending if: where its false arm starts and where its arms meet; without a false arm, both are the
      environment the condition left. */
  datatype IfEnv = IfEnv(falseEnv: nat, mergeEnv: nat)

  datatype State = State(g: seq<Node>, zone: seq<Env>, cur: nat, blocks: seq<Blk>, ifs: seq<IfEnv>,
                         stack: seq<Production>, trees: seq<Tree>, strayed: bool)

  /** A run fails or goes on; either way, a local may have been stored where there is no array of locals. */
  datatype Step = Fail(strayed: bool) | Next(s: State)

  /** Same productions, apart from the types and nodes they have so far. */
  predicate SameShape(a: seq<Production>, b: seq<Production>) {
    |a| == |b| && forall i :: 0 <= i < |a| ==>
      a[i].instr == b[i].instr && a[i].pc == b[i].pc && a[i].len == b[i].len && a[i].kids == b[i].kids
  }

  predicate SameTrees(s: State, s': State) {
    SameShape(s.stack, s'.stack) && s'.trees == s.trees
  }

  function Cur(s: State): Env {
    if s.cur < |s.zone| then s.zone[s.cur] else Kill(ControlEnd)
  }

  function EnvAt(s: State, i: nat): Env {
    if i < |s.zone| then s.zone[i] else Kill(ControlEnd)
  }

  function SetEnvAt(s: State, i: nat, e: Env): State {
    if i < |s.zone| then s.(zone := s.zone[i := e]) else s
  }

  function SetCur(s: State, e: Env): State {
    SetEnvAt(s, s.cur, e)
  }

  function Alloc(s: State, e: Env): State {
    s.(zone := s.zone + [e])
  }

  /** The type a tree starts with. */
  function InitialType(fe: FunEnv, i: Instr): LocalType {
    match i
    case Block(_) | Loop(_) | IfElse | Br(_) | Return => End
    case SetLocal(j) => if j < |fe.locals| then fe.locals[j] else Stmt
    case Apply(op) => op.result
    case _ => Stmt
  }

  function SetProduction(s: State, i: nat, ty: LocalType, node: nat): State {
    if i < |s.stack| then s.(stack := s.stack[i := s.stack[i].(ty := ty, node := node)]) else s
  }

  /** Control flows from the current environment into environment `to` and ends. */
  function GotoEnv(fe: FunEnv, s: State, to: nat): State {
    if !Cur(s).Go() then s
    else
      var (g, e) := Goto(fe, s.g, Cur(s), EnvAt(s, to));
      SetCur(SetEnvAt(s.(g := g), to, e), Kill(ControlEnd))
  }

  /** The same, with the value of a tree flowing into production p. */
  function MergeIntoProduction(fe: FunEnv, s: State, p: nat, to: nat, t: Tree): State {
    if !Cur(s).Go() || p >= |s.stack| then s
    else
      var (g, m) := MergeInto(fe, s.g, Cur(s), Target(EnvAt(s, to), s.stack[p].ty, s.stack[p].node, false), t.ty,
          t.node);
      SetProduction(SetCur(SetEnvAt(s.(g := g), to, m.env), Kill(ControlEnd)), p, m.ty, m.node)
  }

  function ReduceBreak(fe: FunEnv, s: State, b: Blk, t: Tree): State {
    if b.depth < 0 then GotoEnv(fe, s, b.env) else MergeIntoProduction(fe, s, b.depth, b.env, t)
  }

  /** A tree without children. */
  function Leaf(fe: FunEnv, s: State, instr: Instr): Res3
    requires Arity(fe, instr) == 0
  {
    var e := Cur(s);
    match instr
    case Const(ty, bits) =>
      if e.Go() then Res3(s.(g := s.g + [Literal(ty, bits)]), ty, |s.g|) else Res3(s, ty, 0)
    case GetLocal(i) =>
      if i >= |fe.locals| then NoRes else Res3(s, fe.locals[i], if i < |e.slots| then e.slots[i] else 0)
    case Unreachable =>
      var g := if e.Go() && |e.slots| > 0 then s.g + [Dead(e.slots[|e.slots| - 1], e.control)] else s.g;
      Res3(SetCur(s.(g := g), Kill(ControlEnd)), End, 0)
    case Return =>
      var g := if e.Go() && |e.slots| > 0 then s.g + [Ret(0, e.slots[|e.slots| - 1], e.control)] else s.g;
      Res3(SetCur(s.(g := g), Kill(ControlEnd)), End, 0)
    case Apply(op) =>
      if !e.Go() || |e.slots| == 0 then Res3(s, op.result, 0)
      else
        var (g, e', n) := BuildOp(s.g, e, op, []);
        Res3(SetCur(s.(g := g), e'), op.result, n)
    case _ => Res3(s, Stmt, 0)
  }

  datatype Res3 = NoRes | Res3(s: State, ty: LocalType, node: nat)

  /** Begin a tree with children. */
  function Shift(fe: FunEnv, s: State, instr: Instr, pc: nat, len: nat): Step {
    var p := Production(instr, pc, len, InitialType(fe, instr), 0, []);
    var s1 := s.(stack := s.stack + [p]);
    var e := Cur(s);
    match instr
    case Block(_) =>
      var s2 := Alloc(SetCur(s1, Victim(e)), Stolen(e));
      Next(s2.(cur := |s.zone|, blocks := s.blocks + [Blk(s.cur, |s.stack|)]))
    case Loop(_) =>
      var (g, c) := PrepareForLoop(fe, s.g, Stolen(e));
      var s2 := Alloc(Alloc(SetCur(s1.(g := g), Victim(e)), c), Split(c));
      Next(s2.(cur := |s.zone| + 1, blocks := s.blocks + [Blk(s.cur, |s.stack|), Blk(|s.zone|, -1)]))
    case Br(d) => if d >= |s.blocks| then Fail(s.strayed) else Next(s1)
    case BrIf(d) => if d >= |s.blocks| then Fail(s.strayed) else Next(s1)
    case SetLocal(i) => if i >= |fe.locals| then Fail(s.strayed) else Next(s1)
    case _ => Next(s1)
  }

  function Nodes(kids: seq<Tree>): (ns: seq<nat>)
    ensures |ns| == |kids| && forall i :: 0 <= i < |kids| ==> ns[i] == kids[i].node
  {
    if kids == [] then [] else [kids[0].node] + Nodes(kids[1..])
  }

  /** The type check of the child attached last. */
  predicate ChildOk(fe: FunEnv, p: Production)
    requires p.kids != []
  {
    var k := |p.kids|;
    && KidOk(fe, p.instr, k - 1, p.kids[k - 1].ty)
    && (p.instr.Select? && k == 3 ==> Accepts(p.kids[1].ty, p.kids[2].ty))
  }

  /** What the last child of the top production lets the decoder do. */
  function Reduce(fe: FunEnv, s: State): (r: Step)
    requires s.stack != [] && s.stack[|s.stack| - 1].kids != []
    ensures r.Next? ==> |r.s.stack| == |s.stack|
  {
    var top := |s.stack| - 1;
    var p := s.stack[top];
    var k := |p.kids|;
    var last := p.kids[k - 1];
    var e := Cur(s);
    if !ChildOk(fe, p) then Fail(s.strayed)
    else
      match p.instr
      case Apply(op) =>
        if k < |op.params| || !e.Go() || |e.slots| == 0 then Next(s)
        else
          var (g, e', n) := BuildOp(s.g, e, op, Nodes(p.kids));
          Next(SetProduction(SetCur(s.(g := g), e'), top, p.ty, n))
      case SetLocal(i) =>
        var slots := if i < |e.slots| then e.slots[i := last.node] else e.slots;
        Next(SetProduction(SetCur(s.(strayed := s.strayed || !e.Go()), e.(slots := slots)), top, p.ty, last.node))
      case Return =>
        var g := if e.Go() && |e.slots| > 0
                 then s.g + [Ret(last.node, e.slots[|e.slots| - 1], e.control)] else s.g;
        Next(SetCur(s.(g := g), Kill(ControlEnd)))
      case Br(d) =>
        if d >= |s.blocks| then Fail(s.strayed) else Next(ReduceBreak(fe, s, s.blocks[|s.blocks| - 1 - d], last))
      case BrIf(d) =>
        if k < 2 then Next(s)
        else if d >= |s.blocks| then Fail(s.strayed)
        else
          var (g, tc, fc) := if e.Go() then BuildBranch(s.g, e.control, p.kids[0].node) else (s.g, 0, e.control);
          var s1 := Alloc(SetCur(s.(g := g), e.(control := fc)), Split(e).(control := tc)).(cur := |s.zone|);
          Next(ReduceBreak(fe, s1, s.blocks[|s.blocks| - 1 - d], last).(cur := s.cur))
      case Select => ReduceSelect(fe, s)
      case If => ReduceIf(fe, s)
      case IfElse => ReduceIfElse(fe, s)
      case Block(n) =>
        if k < n then Next(s) else if s.blocks == [] then Fail(s.strayed) else FallOut(fe, s, last)
      case Loop(n) =>
        if k < n then Next(s) else if |s.blocks| < 2 then Fail(s.strayed)
        else FallOut(fe, s.(blocks := s.blocks[..|s.blocks| - 1]), last)
      case _ => Next(s)
  }

  function ReduceSelect(fe: FunEnv, s: State): (r: Step)
    requires s.stack != [] && s.stack[|s.stack| - 1].kids != []
    ensures r.Next? ==> |r.s.stack| == |s.stack|
  {
    var top := |s.stack| - 1;
    var p := s.stack[top];
    var k := |p.kids|;
    if k == 1 then Next(s)
    else if k == 2 then Next(SetProduction(s, top, p.kids[1].ty, 0))
    else if !Cur(s).Go() then Next(s)
    else
      var (g, tc, fc) := BuildBranch(s.g, Cur(s).control, p.kids[0].node);
      var g1 := g + [Merge([tc, fc]), Phi(p.ty, [p.kids[1].node, p.kids[2].node], |g|)];
      Next(SetProduction(SetCur(s.(g := g1), Cur(s).(control := |g|)), top, p.ty, |g| + 1))
  }

  function ReduceIf(fe: FunEnv, s: State): (r: Step)
    requires s.stack != [] && s.stack[|s.stack| - 1].kids != []
    ensures r.Next? ==> |r.s.stack| == |s.stack|
  {
    var p := s.stack[|s.stack| - 1];
    var k := |p.kids|;
    var e := Cur(s);
    if k == 1 then
      var (g, tc, fc) := if e.Go() then BuildBranch(s.g, e.control, p.kids[0].node) else (s.g, 0, e.control);
      var s1 := Alloc(SetCur(s.(g := g), e.(control := fc)), Split(e).(control := tc));
      Next(s1.(cur := |s.zone|, ifs := s.ifs + [IfEnv(s.cur, s.cur)]))
    else if s.ifs == [] then Fail(s.strayed)
    else
      var m := s.ifs[|s.ifs| - 1].mergeEnv;
      var s1 := if EnvAt(s, m).Go() then GotoEnv(fe, SetEnvAt(s, m, EnvAt(s, m).(state := Reached)), m) else s;
      Next(s1.(cur := m, ifs := s.ifs[..|s.ifs| - 1]))
  }

  function ReduceIfElse(fe: FunEnv, s: State): (r: Step)
    requires s.stack != [] && s.stack[|s.stack| - 1].kids != []
    ensures r.Next? ==> |r.s.stack| == |s.stack|
  {
    var top := |s.stack| - 1;
    var p := s.stack[top];
    var k := |p.kids|;
    var e := Cur(s);
    if k == 1 then
      var (g, tc, fc) := if e.Go() then BuildBranch(s.g, e.control, p.kids[0].node) else (s.g, 0, 0);
      var s1 := Alloc(Alloc(SetCur(s.(g := g), Victim(e)), Split(e).(control := fc)), Stolen(e).(control := tc));
      Next(s1.(cur := |s.zone| + 1, ifs := s.ifs + [IfEnv(|s.zone|, s.cur)]))
    else if s.ifs == [] then Fail(s.strayed)
    else
      var f := s.ifs[|s.ifs| - 1];
      var s1 := MergeIntoProduction(fe, s, top, f.mergeEnv, p.kids[k - 1]);
      if k == 2 then Next(s1.(cur := f.falseEnv))
      else Next(s1.(cur := f.mergeEnv, ifs := s.ifs[..|s.ifs| - 1]))
  }

  /** The last tree of a block falls through to its entry, and decoding goes on from there. */
  function FallOut(fe: FunEnv, s: State, last: Tree): (r: Step)
    requires s.blocks != []
    ensures r.Next? ==> |r.s.stack| == |s.stack|
  {
    var b := s.blocks[|s.blocks| - 1];
    Next(ReduceBreak(fe, s, b, last).(cur := b.env, blocks := s.blocks[..|s.blocks| - 1]))
  }

  /** The state with a tree attached, before reducing. */
  function Hang(s: State, t: Tree): State
    requires s.stack != []
  {
    var top := |s.stack| - 1;
    s.(stack := s.stack[top := s.stack[top].(kids := s.stack[top].kids + [t])])
  }

  /** Attach a finished tree to the top production and reduce it. */
  function Attach(fe: FunEnv, s: State, t: Tree): (r: Step)
    requires s.stack != []
    ensures r.Next? ==> |r.s.stack| == |s.stack|
  {
    var top := |s.stack| - 1;
    var p := s.stack[top];
    Reduce(fe, s.(stack := s.stack[top := p.(kids := p.kids + [t])]))
  }

  function TreeOf(p: Production): Tree {
    Tree(p.instr, p.pc, p.len, p.ty, p.node, p.kids)
  }

  predicate Done(fe: FunEnv, p: Production) {
    |p.kids| >= Arity(fe, p.instr)
  }

  /** Reduce a finished tree into the production stack as far as productions get finished. */
  function ReduceTree(fe: FunEnv, s: State, t: Tree): Step
    decreases |s.stack|
  {
    if s.stack == [] then Next(s.(trees := s.trees + [t]))
    else
      match Attach(fe, s, t)
      case Fail(b) => Fail(b)
      case Next(s1) =>
        var p := s1.stack[|s1.stack| - 1];
        if !Done(fe, p) then Next(s1)
        else ReduceTree(fe, s1.(stack := s1.stack[..|s1.stack| - 1]), TreeOf(p))
  }

  /** One instruction. */
  function Instruction(fe: FunEnv, s: State, instr: Instr, pc: nat, len: nat): Step {
    if Arity(fe, instr) > 0 then Shift(fe, s, instr, pc, len)
    else
      match Leaf(fe, s, instr)
      case NoRes => Fail(s.strayed)
      case Res3(s1, ty, node) => ReduceTree(fe, s1, Tree(instr, pc, len, ty, node, []))
  }

  /** The decoding loop from pc to the end of the code. */
  function DecodeFrom(menv: ModuleEnv, fe: FunEnv, code: seq<byte>, pc: nat, s: State): Step
    requires pc <= |code|
    decreases |code| - pc
  {
    if pc == |code| then Next(s)
    else
      match Fetch(menv, code, pc)
      case Bad => Fail(s.strayed)
      case Got(instr, len) =>
        match Instruction(fe, s, instr, pc, len)
        case Fail(b) => Fail(b)
        case Next(s1) => DecodeFrom(menv, fe, code, pc + len, s1)
  }
}
