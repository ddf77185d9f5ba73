/** The shift-reduce decoder, with environments shared by reference and results kept in productions,
    builds exactly the graph of the construction on trees. */
module LrSsa {
  import opened Syntax
  import opened Graph
  import opened Ssa
  import opened Lr
  import opened LrParse
  import opened SsaRun

  /** No environment is reachable by two names: the current one is nobody's target, and block entries
      have different environments and productions. */
  predicate Distinct(s: State) {
    && s.cur < |s.zone|
    && (forall i :: 0 <= i < |s.blocks| ==>
          s.blocks[i].env < |s.zone| && s.blocks[i].env != s.cur && s.blocks[i].depth < |s.stack|)
    && (forall i, j :: 0 <= i < j < |s.blocks| ==> s.blocks[i].env != s.blocks[j].env)
    && (forall i, j :: 0 <= i < j < |s.blocks| && s.blocks[i].depth >= 0 ==> s.blocks[i].depth != s.blocks[j].depth)
  }

  predicate BlockRel(s: State, b: Blk, t: Target) {
    && b.env < |s.zone| && t.env == s.zone[b.env] && t.cont == (b.depth < 0)
    && if t.cont then t.ty == Stmt && t.node == 0
       else b.depth < |s.stack| && s.stack[b.depth].ty == t.ty && s.stack[b.depth].node == t.node
  }

  /** Decoder state s holds construction state v. */
  predicate Rel(s: State, v: St) {
    && s.g == v.g && s.strayed == v.log.stray && s.cur < |s.zone| && s.zone[s.cur] == v.cur && |s.blocks| == |v.blocks|
    && forall i :: 0 <= i < |s.blocks| ==> BlockRel(s, s.blocks[i], v.blocks[i])
  }

  predicate IsTarget(s: State, x: nat) {
    exists i :: 0 <= i < |s.blocks| && s.blocks[i].env == x
  }

  predicate IsDepth(s: State, j: nat) {
    exists i :: 0 <= i < |s.blocks| && s.blocks[i].depth == j
  }

  /** What a whole tree leaves alone: everything but the graph, the current environment, the environments
      and results of open blocks, and production q. */
  predicate KeptBut(s: State, s': State, q: int) {
    && s'.cur == s.cur && s'.blocks == s.blocks && s'.ifs == s.ifs && s'.trees == s.trees
    && |s.zone| <= |s'.zone| && |s'.stack| == |s.stack|
    && (forall x :: 0 <= x < |s.zone| && x != s.cur && !IsTarget(s, x) ==> s'.zone[x] == s.zone[x])
    && (forall j :: 0 <= j < |s.stack| ==>
          s'.stack[j].instr == s.stack[j].instr && s'.stack[j].pc == s.stack[j].pc && s'.stack[j].len == s.stack[j].len)
    && (forall j :: 0 <= j < |s.stack| && j != q ==> s'.stack[j].kids == s.stack[j].kids)
    && (forall j :: 0 <= j < |s.stack| && j != q && !IsDepth(s, j) ==> s'.stack[j] == s.stack[j])
  }

  predicate Kept(s: State, s': State) {
    KeptBut(s, s', -1)
  }

  lemma KeptTrans(s: State, s1: State, s2: State, q: int)
    requires KeptBut(s, s1, q) && KeptBut(s1, s2, q)
    ensures KeptBut(s, s2, q)
  {
    assert forall x :: IsTarget(s, x) <==> IsTarget(s1, x);
    assert forall x :: IsDepth(s, x) <==> IsDepth(s1, x);
  }

  lemma KeptDistinct(s: State, s': State, q: int)
    requires KeptBut(s, s', q) && Distinct(s)
    ensures Distinct(s')
  {
  }

  /** The outcome of a tree in both worlds. */
  ghost predicate TreeRel(s: State, r: TreeStep, w: Res) {
    match w
    case Err(b) => r == TFail(b)
    case Ok(v, ty, node) => r.TOk? && Kept(s, r.s) && Rel(r.s, v) && r.tree.ty == ty && r.tree.node == node
  }

  lemma SetCurRel(s: State, v: St, g: seq<Node>, e: Env)
    requires Distinct(s) && Rel(s, v)
    ensures var s' := SetCur(s.(g := g), e); Kept(s, s') && Rel(s', St(g, e, v.blocks, v.log))
  {
    var s' := SetCur(s.(g := g), e);
    forall i | 0 <= i < |s.blocks| ensures BlockRel(s', s'.blocks[i], v.blocks[i]) {
      assert BlockRel(s, s.blocks[i], v.blocks[i]);
    }
  }

  lemma LeafRel(fe: FunEnv, t: Syn, s: State, v: St)
    requires !t.instr.Cut? && Distinct(s) && Rel(s, v) && t.kids == [] && Arity(fe, t.instr) == 0
    ensures TreeRel(s, RunTree(fe, t, s), Run(fe, t, v))
  {
    hide RunTree, Run, TreeRel, Rel, Distinct;
    match t.instr
    case Const(ty, bits) => LeafConst(fe, t, s, v);
    case Unreachable => LeafUnreachable(fe, t, s, v);
    case Return => LeafReturn(fe, t, s, v);
    case Apply(op) => LeafApply(fe, t, s, v);
    case _ => LeafOther(fe, t, s, v);
  }

  lemma LeafConst(fe: FunEnv, t: Syn, s: State, v: St)
    requires Distinct(s) && Rel(s, v) && t.kids == [] && t.instr.Const?
    ensures TreeRel(s, RunTree(fe, t, s), Run(fe, t, v))
  {
    hide BuildOp, Distinct, KeptBut, BlockRel, RunKids;
    if v.cur.Go() {
      SetCurRel(s, v, s.g + [Literal(t.instr.ty, t.instr.bits)], v.cur);
    } else {
      SetCurRel(s, v, s.g, v.cur);
    }
    assert s.zone[s.cur := v.cur] == s.zone;
  }

  lemma LeafUnreachable(fe: FunEnv, t: Syn, s: State, v: St)
    requires Distinct(s) && Rel(s, v) && t.kids == [] && t.instr.Unreachable?
    ensures TreeRel(s, RunTree(fe, t, s), Run(fe, t, v))
  {
    hide BuildOp, Distinct, KeptBut, BlockRel, RunKids;
    var e := v.cur;
    var g := if e.Go() && |e.slots| > 0 then s.g + [Dead(e.slots[|e.slots| - 1], e.control)] else s.g;
    SetCurRel(s, v, g, Kill(ControlEnd));
  }

  lemma LeafReturn(fe: FunEnv, t: Syn, s: State, v: St)
    requires Distinct(s) && Rel(s, v) && t.kids == [] && t.instr.Return? && Arity(fe, t.instr) == 0
    ensures TreeRel(s, RunTree(fe, t, s), Run(fe, t, v))
  {
    assert RunKids(fe, t, 0, v) == KOk(v, [], []);
    hide BuildOp, Distinct, KeptBut, BlockRel, RunKids;
    var e := v.cur;
    var g := if e.Go() && |e.slots| > 0 then s.g + [Ret(0, e.slots[|e.slots| - 1], e.control)] else s.g;
    SetCurRel(s, v, g, Kill(ControlEnd));
  }

  lemma LeafApply(fe: FunEnv, t: Syn, s: State, v: St)
    requires Distinct(s) && Rel(s, v) && t.kids == [] && t.instr.Apply? && Arity(fe, t.instr) == 0
    ensures TreeRel(s, RunTree(fe, t, s), Run(fe, t, v))
  {
    hide BuildOp, Distinct, KeptBut, BlockRel;
    var e := v.cur;
    assert RunKids(fe, t, 0, v) == KOk(v, [], []);
    if e.Go() && |e.slots| > 0 {
      var (g, e', n) := BuildOp(s.g, e, t.instr.op, []);
      SetCurRel(s, v, g, e');
    } else {
      SetCurRel(s, v, s.g, e);
      assert s.zone[s.cur := e] == s.zone;
    }
  }

  lemma LeafOther(fe: FunEnv, t: Syn, s: State, v: St)
    requires !t.instr.Cut? && Distinct(s) && Rel(s, v) && t.kids == [] && Arity(fe, t.instr) == 0
    requires !t.instr.Const? && !t.instr.Unreachable? && !t.instr.Return? && !t.instr.Apply?
    ensures TreeRel(s, RunTree(fe, t, s), Run(fe, t, v))
  {
    hide BuildOp, Distinct, BlockRel, RunKids;
  }

  /** What a branch to entry b leaves behind. */
  function Broken(s: State, b: Blk, g: seq<Node>, m: Target): State {
    var s' := s.(g := g, zone := if b.env < |s.zone|
        && s.cur < |s.zone| then s.zone[b.env := m.env][s.cur := Kill(ControlEnd)] else s.zone);
    if 0 <= b.depth < |s.stack| then s'.(stack := s.stack[b.depth := s.stack[b.depth].(ty := m.ty,
      node := m.node)]) else s'
  }

  lemma BreakBroken(fe: FunEnv, s: State, b: Blk, target: Target, t: Tree)
    requires s.cur < |s.zone| && Cur(s).Go() && BlockRel(s, b, target)
    ensures var (g, m) := MergeInto(fe, s.g, Cur(s), target, t.ty, t.node);
      && ReduceBreak(fe, s, b, t) == Broken(s, b, g, m) && m.cont == target.cont
        && (m.cont ==> m.ty == Stmt && m.node == 0)
  {
    hide Goto, MergeNode;
  }

  lemma BrokenRel(s: State, v: St, i: nat, g: seq<Node>, m: Target)
    requires Distinct(s) && Rel(s, v) && i < |s.blocks| && m.cont == v.blocks[i].cont
    requires (m.cont ==> m.ty == Stmt && m.node == 0)
    ensures var s' := Broken(s, s.blocks[i], g, m);
      Kept(s, s') && Rel(s', St(g, Kill(ControlEnd), v.blocks[i := m], v.log))
  {
    var b := s.blocks[i];
    var s' := Broken(s, b, g, m);
    assert BlockRel(s, b, v.blocks[i]);
    assert IsTarget(s, b.env);
    if b.depth >= 0 { assert IsDepth(s, b.depth); }
    forall j | 0 <= j < |s.blocks| ensures BlockRel(s', s.blocks[j], v.blocks[i := m][j]) {
      assert BlockRel(s, s.blocks[j], v.blocks[j]);
    }
  }

  /** Flowing into a block entry is flowing into its environment and production. */
  lemma BreakRel(fe: FunEnv, s: State, v: St, d: nat, t: Tree)
    requires Distinct(s) && Rel(s, v) && d < |s.blocks| && v.cur.Go()
    ensures var s' := ReduceBreak(fe, s, s.blocks[|s.blocks| - 1 - d], t);
      Kept(s, s') && Rel(s', BreakTo(fe, v, d, t.ty, t.node))
  {
    hide MergeInto, ReduceBreak, KeptBut, BlockRel, Broken;
    var i := |s.blocks| - 1 - d;
    BreakBroken(fe, s, s.blocks[i], v.blocks[i], t);
    var (g, m) := MergeInto(fe, s.g, v.cur, v.blocks[i], t.ty, t.node);
    BrokenRel(s, v, i, g, m);
  }

  /** Trees whose children are all decoded before anything happens. */
  predicate Plain(i: Instr) {
    !i.If? && !i.IfElse?
  }

  /** The children attached since s: their types and nodes. */
  predicate Grown(s: State, s': State, q: nat, tys: seq<LocalType>, nodes: seq<nat>)
    requires q < |s.stack| && q < |s'.stack|
  {
    var a, b := s.stack[q].kids, s'.stack[q].kids;
    && |b| == |a| + |tys| && |tys| == |nodes| && a <= b
    && forall j :: 0 <= j < |tys| ==> b[|a| + j].ty == tys[j] && b[|a| + j].node == nodes[j]
  }

  lemma HangRel(s: State, v: St, t: Tree)
    requires Distinct(s) && Rel(s, v) && s.stack != []
    ensures var s' := Hang(s, t);
      KeptBut(s, s', |s.stack| - 1) && Rel(s', v) && Grown(s, s', |s.stack| - 1, [t.ty], [t.node])
      && s'.stack[|s.stack| - 1].ty == s.stack[|s.stack| - 1].ty
        && s'.stack[|s.stack| - 1].node == s.stack[|s.stack| - 1].node
  {
    var s' := Hang(s, t);
    forall i | 0 <= i < |s.blocks| ensures BlockRel(s', s'.blocks[i], v.blocks[i]) {
      assert BlockRel(s, s.blocks[i], v.blocks[i]);
    }
  }

  /** Before its last child a plain production only waits; select learns its type. */
  lemma EarlyReduce(fe: FunEnv, s: State)
    requires s.stack != [] && Plain(s.stack[|s.stack| - 1].instr)
    requires var p := s.stack[|s.stack| - 1]; 0 < |p.kids| < Arity(fe, p.instr)
    ensures var top := |s.stack| - 1;
      var p := s.stack[top];
      Reduce(fe, s) == if !ChildOk(fe, p) then Fail(s.strayed)
                       else if p.instr.Select? && |p.kids| == 2 then Next(SetProduction(s, top, p.kids[1].ty, 0))
                         else Next(s)
  {
    hide BuildOp, BuildBranch, ReduceBreak, FallOut, ChildOk, SetCur;
  }

  lemma RetypeRel(s: State, v: St, top: nat, ty: LocalType, node: nat)
    requires Distinct(s) && Rel(s, v) && top < |s.stack| && !IsDepth(s, top)
    ensures var s' := SetProduction(s, top, ty, node);
      KeptBut(s, s', top) && Rel(s', v) && Distinct(s') && Grown(s, s', top, [], []) && s'.stack[top].ty == ty
      && s'.stack[top].node == node && (forall j :: 0 <= j < |s.stack| && j != top ==> s'.stack[j] == s.stack[j])
  {
    var s' := SetProduction(s, top, ty, node);
    forall i | 0 <= i < |s.blocks| ensures BlockRel(s', s'.blocks[i], v.blocks[i]) {
      assert BlockRel(s, s.blocks[i], v.blocks[i]);
      assert s.blocks[i].depth != top;
    }
  }

  lemma GrownTrans(s: State, s1: State, s2: State, q: nat, tys: seq<LocalType>, nodes: seq<nat>, tys': seq<LocalType>,
      nodes': seq<nat>)
    requires q < |s.stack| && q < |s1.stack| && q < |s2.stack|
    requires Grown(s, s1, q, tys, nodes) && Grown(s1, s2, q, tys', nodes')
    ensures Grown(s, s2, q, tys + tys', nodes + nodes')
  {
  }

  /** The type and node of the top production before its last child: blocks collect theirs, select has
      the type of its second child, and the others what they started with. */
  predicate Result(fe: FunEnv, p: Production) {
    match p.instr
    case Block(_) => true
    case Loop(_) => true
    case Select => p.node == 0 && (|p.kids| >= 2 ==> p.ty == p.kids[1].ty)
    case _ => p.ty == InitialType(fe, p.instr) && p.node == 0
  }

  /** Production q is on top, has n children, and is waiting for more. */
  predicate Waiting(fe: FunEnv, instr: Instr, s: State, q: nat, n: nat) {
    && |s.stack| == q + 1 && s.stack[q].instr == instr && |s.stack[q].kids| == n
    && (!instr.Block? && !instr.Loop? ==> !IsDepth(s, q))
    && Result(fe, s.stack[q])
  }

  /** The state before the last reduction of a plain tree with all children attached. */
  predicate Loaded(fe: FunEnv, t: Syn, s: State, sL: State, q: nat, v: St, tys: seq<LocalType>, nodes: seq<nat>) {
    && |s.stack| == q + 1 && |sL.stack| == q + 1 && KeptBut(s, sL, q) && Distinct(sL) && Rel(sL, v)
    && sL.stack[q].instr == t.instr && Result(fe, sL.stack[q])
    && Grown(s, sL, q, tys, nodes)
  }

  lemma WaitingKept(fe: FunEnv, instr: Instr, s: State, s1: State, q: nat, n: nat)
    requires Waiting(fe, instr, s, q, n) && Kept(s, s1)
    ensures Waiting(fe, instr, s1, q, n) && Grown(s, s1, q, [], [])
  {
    hide InitialType;
    assert IsDepth(s1, q) <==> IsDepth(s, q);
  }

  lemma KeptWeaken(s: State, s': State, q: int)
    requires Kept(s, s')
    ensures KeptBut(s, s', q)
  {
  }

  /** Whole trees: the decoder and the construction agree. */
  lemma {:induction false} RunTreeRel(fe: FunEnv, t: Syn, s: State, v: St)
    requires Whole(t) && Distinct(s) && Rel(s, v)
    ensures TreeRel(s, RunTree(fe, t, s), Run(fe, t, v))
    decreases t, 3
  {
    if |t.kids| == Arity(fe, t.instr) {
      if t.kids == [] {
        LeafRel(fe, t, s, v);
      } else if t.instr.If? {
        IfRel(fe, t, s, v);
      } else if t.instr.IfElse? {
        IfElseRel(fe, t, s, v);
      } else if t.instr.Block? {
        BlockTreeRel(fe, t, s, v);
      } else if t.instr.Loop? {
        LoopTreeRel(fe, t, s, v);
      } else {
        PlainRel(fe, t, s, v);
      }
    }
  }

  /** One more child of a plain tree, not the last. */
  lemma ChildRel(fe: FunEnv, instr: Instr, s1: State, v1: St, q: nat, i: nat, tree: Tree)
    requires Plain(instr) && i + 1 < Arity(fe, instr) && Distinct(s1) && Rel(s1, v1) && Waiting(fe, instr, s1, q, i)
    ensures if !KidOk(fe, instr, i, tree.ty) then Attach(fe, s1, tree) == Fail(s1.strayed)
      else
        var a := Attach(fe, s1, tree);
        && a.Next? && KeptBut(s1, a.s, q) && Distinct(a.s) && Rel(a.s, v1) && Waiting(fe, instr, a.s, q, i + 1)
        && Grown(s1, a.s, q, [tree.ty], [tree.node])
  {
    hide Reduce, KidOk, InitialType;
    var h := Hang(s1, tree);
    HangRel(s1, v1, tree);
    KeptDistinct(s1, h, q);
    EarlyReduce(fe, h);
    assert Attach(fe, s1, tree) == Reduce(fe, h);
    assert IsDepth(h, q) <==> IsDepth(s1, q);
    if instr.Select? && i + 1 == 2 {
      RetypeRel(h, v1, q, h.stack[q].kids[1].ty, 0);
      var a := SetProduction(h, q, h.stack[q].kids[1].ty, 0);
      KeptTrans(s1, h, a, q);
      GrownTrans(s1, h, a, q, [tree.ty], [tree.node], [], []);
      assert [tree.ty] + [] == [tree.ty] && [tree.node] + [] == [tree.node];
      assert IsDepth(a, q) <==> IsDepth(h, q);
    }
  }

  /** The last child of a plain tree. */
  lemma LastRel(fe: FunEnv, t: Syn, s1: State, v1: St, q: nat, tree: Tree)
    requires Plain(t.instr) && Distinct(s1) && Rel(s1, v1) && |t.kids| > 0 && Waiting(fe, t.instr, s1, q, |t.kids| - 1)
    requires t.instr.Select? ==> |t.kids| == 3
    ensures Loaded(fe, t, s1, Hang(s1, tree), q, v1, [tree.ty], [tree.node])
    ensures !KidOk(fe, t.instr, |t.kids| - 1, tree.ty) ==> Attach(fe, s1, tree) == Fail(s1.strayed)
    ensures Attach(fe, s1, tree) == Reduce(fe, Hang(s1, tree))
  {
    hide KidOk, Arity, InitialType, BuildOp, BuildBranch, ReduceBreak, FallOut, ReduceSelect, SetCur;
    HangRel(s1, v1, tree);
    KeptDistinct(s1, Hang(s1, tree), q);
  }

  lemma {:induction false} KidsRel(fe: FunEnv, t: Syn, i: nat, s: State, v: St, q: nat) returns (sL: State)
    requires Whole(t) && Plain(t.instr) && i < |t.kids| == Arity(fe, t.instr)
    requires Distinct(s) && Rel(s, v) && Waiting(fe, t.instr, s, q, i)
    ensures match RunKids(fe, t, i, v)
      case KErr(b) => RunChildren(fe, t, i, s) == Fail(b)
      case KOk(v', tys, nodes) =>
        && Loaded(fe, t, s, sL, q, v', tys, nodes)
        && sL.stack[q].kids != [] && RunChildren(fe, t, i, s) == Reduce(fe, sL)
    decreases t, 0, |t.kids| - i
  {
    hide Run, RunTree, Attach, Reduce, KidOk, Arity, Result, KeptBut, Grown, Rel, Distinct, Loaded, Waiting;
    sL := s;
    RunTreeRel(fe, t.kids[i], s, v);
    var w := Run(fe, t.kids[i], v);
    if w.Ok? {
      var TOk(s1, tree) := RunTree(fe, t.kids[i], s);
      KeptDistinct(s, s1, -1);
      WaitingKept(fe, t.instr, s, s1, q, i);
      KeptWeaken(s, s1, q);
      OnTop(fe, t.instr, s, q, i);
      OnTop(fe, t.instr, s1, q, i);
      SameStray(s1, w.s);
      if i + 1 < |t.kids| {
        ChildRel(fe, t.instr, s1, w.s, q, i, tree);
        if KidOk(fe, t.instr, i, w.ty) {
          var s2 := Attach(fe, s1, tree).s;
          sL := KidsRel(fe, t, i + 1, s2, w.s, q);
          OnTop(fe, t.instr, s2, q, i + 1);
          var k := RunKids(fe, t, i + 1, w.s);
          if k.KOk? {
            LoadedMore(fe, t, s, s1, s2, sL, q, k.s, tree, k.tys, k.nodes);
          }
        }
      } else {
        LastChild(fe, t, s1, w.s, q, tree);
        sL := Hang(s1, tree);
        if KidOk(fe, t.instr, i, w.ty) {
          assert RunKids(fe, t, i + 1, w.s) == KOk(w.s, [], []);
          LoadedLast(fe, t, s, s1, sL, q, w.s, tree);
        }
      }
    }
  }

  lemma SameStray(s: State, v: St)
    requires Rel(s, v)
    ensures s.strayed == v.log.stray
  {
  }

  lemma OnTop(fe: FunEnv, instr: Instr, s: State, q: nat, n: nat)
    requires Waiting(fe, instr, s, q, n)
    ensures |s.stack| == q + 1 && s.stack[q].instr == instr && |s.stack[q].kids| == n
  {
  }

  /** A child attached, then the rest. */
  lemma LoadedMore(fe: FunEnv, t: Syn, s: State, s1: State, s2: State, sL: State, q: nat, v: St, tree: Tree,
      tys: seq<LocalType>, nodes: seq<nat>)
    requires |s.stack| == |s1.stack| == |s2.stack| == q + 1
    requires KeptBut(s, s1, q) && Grown(s, s1, q, [], []) && KeptBut(s1, s2, q)
    requires Grown(s1, s2, q, [tree.ty], [tree.node])
    requires Loaded(fe, t, s2, sL, q, v, tys, nodes)
    ensures Loaded(fe, t, s, sL, q, v, [tree.ty] + tys, [tree.node] + nodes) && sL.stack[q].kids != []
  {
    hide KeptBut, Rel, Distinct, Result;
    KeptTrans(s, s1, s2, q);
    KeptTrans(s, s2, sL, q);
    GrownTrans(s, s1, s2, q, [], [], [tree.ty], [tree.node]);
    assert [] + [tree.ty] == [tree.ty] && [] + [tree.node] == [tree.node];
    GrownTrans(s, s2, sL, q, [tree.ty], [tree.node], tys, nodes);
  }

  lemma LoadedLast(fe: FunEnv, t: Syn, s: State, s1: State, sL: State, q: nat, v: St, tree: Tree)
    requires |s.stack| == |s1.stack| == q + 1
    requires KeptBut(s, s1, q) && Grown(s, s1, q, [], []) && Loaded(fe, t, s1, sL, q, v, [tree.ty], [tree.node])
    ensures Loaded(fe, t, s, sL, q, v, [tree.ty] + [], [tree.node] + []) && sL.stack[q].kids != []
  {
    hide KeptBut, Rel, Distinct, Result;
    KeptTrans(s, s1, sL, q);
    GrownTrans(s, s1, sL, q, [], [], [tree.ty], [tree.node]);
    assert [] + [tree.ty] == [tree.ty] == [tree.ty] + [] && [] + [tree.node] == [tree.node] == [tree.node] + [];
  }

  lemma LastChild(fe: FunEnv, t: Syn, s1: State, v1: St, q: nat, tree: Tree)
    requires Plain(t.instr) && Distinct(s1) && Rel(s1, v1) && 0 < |t.kids| == Arity(fe, t.instr)
    requires Waiting(fe, t.instr, s1, q, |t.kids| - 1)
    ensures Loaded(fe, t, s1, Hang(s1, tree), q, v1, [tree.ty], [tree.node])
    ensures !KidOk(fe, t.instr, |t.kids| - 1, tree.ty) ==> Attach(fe, s1, tree) == Fail(s1.strayed)
    ensures Attach(fe, s1, tree) == Reduce(fe, Hang(s1, tree))
  {
    hide Attach, Reduce, KidOk, Result, InitialType;
    LastRel(fe, t, s1, v1, q, tree);
  }

  function Pop(s: State): State
    requires s.stack != []
  {
    s.(stack := s.stack[..|s.stack| - 1])
  }

  /** Taking a finished production that is not a block off the stack. */
  lemma PopRel(s: State, p: Production, s1: State, sF: State, v: St)
    requires Distinct(s) && s1 == s.(stack := s.stack + [p]) && KeptBut(s1, sF, |s.stack|) && Rel(sF, v)
    ensures Kept(s, Pop(sF)) && Rel(Pop(sF), v)
  {
    var s' := Pop(sF);
    forall x | 0 <= x < |s.zone| && x != s.cur && !IsTarget(s, x) ensures s'.zone[x] == s.zone[x] {
      assert !IsTarget(s1, x);
    }
    forall j | 0 <= j < |s.stack| && !IsDepth(s, j) ensures s'.stack[j] == s.stack[j] {
      assert !IsDepth(s1, j);
      assert s1.stack[j] == s.stack[j];
    }
    forall i | 0 <= i < |s.blocks| ensures BlockRel(s', s'.blocks[i], v.blocks[i]) {
      assert BlockRel(sF, sF.blocks[i], v.blocks[i]);
    }
  }

  /** The children of a loaded production are exactly those of the tree. */
  predicate Fresh(s: State, q: nat) {
    q < |s.stack| && s.stack[q].kids == []
  }

  lemma LoadedKids(fe: FunEnv, t: Syn, s: State, sL: State, q: nat, v: St, tys: seq<LocalType>, nodes: seq<nat>)
    requires Loaded(fe, t, s, sL, q, v, tys, nodes) && Fresh(s, q)
    ensures Nodes(sL.stack[q].kids) == nodes && |sL.stack[q].kids| == |tys|
    ensures forall j :: 0 <= j < |tys| ==> sL.stack[q].kids[j].ty == tys[j] && sL.stack[q].kids[j].node == nodes[j]
  {
    hide Result;
    var a, b := s.stack[q].kids, sL.stack[q].kids;
    forall j | 0 <= j < |tys| ensures b[j].ty == tys[j] && b[j].node == nodes[j] {
      assert b[|a| + j].ty == tys[j];
    }
  }

  /** A loaded production that is not a block: new graph, current environment and result. */
  lemma FinishRel(fe: FunEnv, s1: State, sL: State, q: nat, v: St, g: seq<Node>, e: Env, ty: LocalType, node: nat)
    requires Distinct(sL) && Rel(sL, v) && |sL.stack| == q + 1 && |s1.stack| == q + 1 && KeptBut(s1, sL, q)
    requires !IsDepth(s1, q)
    ensures var sF := SetProduction(SetCur(sL.(g := g), e), q, ty, node);
      && KeptBut(s1, sF, q) && Rel(sF, St(g, e, v.blocks, v.log)) && |sF.stack| == q + 1
      && sF.stack[q].ty == ty && sF.stack[q].node == node && Distinct(sF)
  {
    var sM := SetCur(sL.(g := g), e);
    SetCurRel(sL, v, g, e);
    KeptWeaken(sL, sM, q);
    KeptTrans(s1, sL, sM, q);
    KeptDistinct(sL, sM, -1);
    assert !IsDepth(sM, q);
    RetypeRel(sM, St(g, e, v.blocks, v.log), q, ty, node);
    KeptTrans(s1, sM, SetProduction(sM, q, ty, node), q);
  }

  /** All outcomes of a plain production that is not a block. */
  ghost predicate Finishes(s1: State, q: nat, r: Step, w: Res) {
    match w
    case Err(b) => r == Fail(b)
    case Ok(v, ty, node) =>
      && r.Next? && |s1.stack| == q + 1 && |r.s.stack| == q + 1 && KeptBut(s1, r.s, q) && Rel(r.s, v)
      && r.s.stack[q].ty == ty && r.s.stack[q].node == node
  }

  lemma ApplyFinal(fe: FunEnv, t: Syn, op: Op, s1: State, sL: State, q: nat, v: St, k: Kids)
    requires t.instr == Apply(op) && k.KOk? && 0 < |t.kids| == |k.tys| == |op.params|
    requires Loaded(fe, t, s1, sL, q, k.s, k.tys, k.nodes) && Fresh(s1, q) && !IsDepth(s1, q)
    requires KidOk(fe, t.instr, |k.tys| - 1, k.tys[|k.tys| - 1]) && RunKids(fe, t, 0, v) == k
    ensures Finishes(s1, q, Reduce(fe, sL), Run(fe, t, v))
  {
    hide KidOk, BuildOp, RunKids, KeptBut, Grown, SetProduction, SetCur, Distinct, ReduceSelect, ReduceIf,
         ReduceIfElse, FallOut, ReduceBreak, Alloc;
    LoadedKids(fe, t, s1, sL, q, k.s, k.tys, k.nodes);
    if k.s.cur.Go() && |k.s.cur.slots| > 0 {
      var (g, e, n) := BuildOp(k.s.g, k.s.cur, op, k.nodes);
      FinishRel(fe, s1, sL, q, k.s, g, e, op.result, n);
    }
  }

  lemma SetLocalFinal(fe: FunEnv, t: Syn, i: nat, s1: State, sL: State, q: nat, v: St, k: Kids)
    requires t.instr == SetLocal(i) && i < |fe.locals| && k.KOk? && 1 == |t.kids| == |k.tys|
    requires Loaded(fe, t, s1, sL, q, k.s, k.tys, k.nodes) && Fresh(s1, q) && !IsDepth(s1, q)
    requires KidOk(fe, t.instr, 0, k.tys[0]) && RunKids(fe, t, 0, v) == k
    ensures Finishes(s1, q, Reduce(fe, sL), Run(fe, t, v))
  {
    hide KidOk, RunKids;
    LoadedKids(fe, t, s1, sL, q, k.s, k.tys, k.nodes);
    var e := k.s.cur;
    var slots := if i < |e.slots| then e.slots[i := k.nodes[0]] else e.slots;
    FinishRel(fe, s1, sL, q, k.s, k.s.g, e.(slots := slots), fe.locals[i], k.nodes[0]);
    assert sL.(g := sL.g) == sL;
  }

  lemma ReturnFinal(fe: FunEnv, t: Syn, s1: State, sL: State, q: nat, v: St, k: Kids)
    requires t.instr.Return? && k.KOk? && 1 == |t.kids| == |k.tys| == Arity(fe, t.instr)
    requires Loaded(fe, t, s1, sL, q, k.s, k.tys, k.nodes) && Fresh(s1, q) && !IsDepth(s1, q)
    requires KidOk(fe, t.instr, 0, k.tys[0]) && RunKids(fe, t, 0, v) == k
    ensures Finishes(s1, q, Reduce(fe, sL), Run(fe, t, v))
  {
    hide KidOk, RunKids;
    LoadedKids(fe, t, s1, sL, q, k.s, k.tys, k.nodes);
    var e := k.s.cur;
    var g := if e.Go() && |e.slots| > 0 then k.s.g + [Ret(k.nodes[0], e.slots[|e.slots| - 1], e.control)] else k.s.g;
    FinishRel(fe, s1, sL, q, k.s, g, Kill(ControlEnd), sL.stack[q].ty, sL.stack[q].node);
    var sM := SetCur(sL.(g := g), Kill(ControlEnd));
    assert SetProduction(sM, q, sL.stack[q].ty, sL.stack[q].node) == sM;
  }

  lemma SelectFinal(fe: FunEnv, t: Syn, s1: State, sL: State, q: nat, v: St, k: Kids)
    requires t.instr.Select? && k.KOk? && 3 == |t.kids| == |k.tys|
    requires Loaded(fe, t, s1, sL, q, k.s, k.tys, k.nodes) && Fresh(s1, q) && !IsDepth(s1, q)
    requires KidOk(fe, t.instr, 2, k.tys[2]) && RunKids(fe, t, 0, v) == k
    ensures Finishes(s1, q, Reduce(fe, sL), Run(fe, t, v))
  {
    hide KidOk, RunKids, BuildBranch, KeptBut, Grown, SetProduction, SetCur, Distinct, BuildOp, ReduceIf, ReduceIfElse,
         FallOut, ReduceBreak, Alloc;
    LoadedKids(fe, t, s1, sL, q, k.s, k.tys, k.nodes);
    if Accepts(k.tys[1], k.tys[2]) && k.s.cur.Go() {
      var (g, tc, fc) := BuildBranch(k.s.g, k.s.cur.control, k.nodes[0]);
      var g1 := g + [Merge([tc, fc]), Phi(k.tys[1], [k.nodes[1], k.nodes[2]], |g|)];
      FinishRel(fe, s1, sL, q, k.s, g1, k.s.cur.(control := |g|), k.tys[1], |g| + 1);
    }
  }

  lemma BrFinal(fe: FunEnv, t: Syn, d: nat, s1: State, sL: State, q: nat, v: St, k: Kids)
    requires t.instr == Br(d) && d < |v.blocks| && k.KOk? && 1 == |t.kids| == |k.tys| && |v.blocks| == |k.s.blocks|
    requires Loaded(fe, t, s1, sL, q, k.s, k.tys, k.nodes) && Fresh(s1, q) && !IsDepth(s1, q)
    requires KidOk(fe, t.instr, 0, k.tys[0]) && RunKids(fe, t, 0, v) == k
    ensures Finishes(s1, q, Reduce(fe, sL), Run(fe, t, v))
  {
    hide KidOk, RunKids, BreakTo, BuildOp, ReduceSelect, ReduceIf, ReduceIfElse, FallOut, Alloc, SetCur, ReduceBreak,
         KeptBut, Grown, Distinct, BlockRel;
    LoadedKids(fe, t, s1, sL, q, k.s, k.tys, k.nodes);
    var last := sL.stack[q].kids[0];
    var b := sL.blocks[|sL.blocks| - 1 - d];
    if k.s.cur.Go() {
      BreakRel(fe, sL, k.s, d, last);
      BrIfEnd(s1, sL, ReduceBreak(fe, sL, b, last), q);
    } else {
      DeadBreak(fe, sL, b, last, k.s);
    }
  }

  /** Splitting off an environment for the taken branch of a conditional branch. */
  lemma SplitRel(s: State, v: St, g: seq<Node>, e: Env, e': Env)
    requires Distinct(s) && Rel(s, v)
    ensures var s' := Alloc(SetCur(s.(g := g), e), e').(cur := |s.zone|);
      && Distinct(s') && Rel(s', St(g, e', v.blocks, v.log)) && s'.zone[s.cur] == e && !IsTarget(s', s.cur)
  {
    var s' := Alloc(SetCur(s.(g := g), e), e').(cur := |s.zone|);
    forall i | 0 <= i < |s.blocks| ensures BlockRel(s', s'.blocks[i], v.blocks[i]) {
      assert BlockRel(s, s.blocks[i], v.blocks[i]);
    }
  }

  /** And coming back from it. */
  lemma UnsplitRel(s: State, g: seq<Node>, e: Env, e': Env, s'': State, v: St)
    requires Distinct(s)
    requires var s' := Alloc(SetCur(s.(g := g), e), e').(cur := |s.zone|);
      Kept(s', s'') && !IsTarget(s', s.cur) && Rel(s'', v)
    ensures Kept(s, s''.(cur := s.cur)) && Rel(s''.(cur := s.cur), v.(cur := e))
  {
    var s' := Alloc(SetCur(s.(g := g), e), e').(cur := |s.zone|);
    var r := s''.(cur := s.cur);
    assert forall x :: IsTarget(s, x) <==> IsTarget(s', x);
    assert forall x :: IsDepth(s, x) <==> IsDepth(s', x);
    forall i | 0 <= i < |r.blocks| ensures BlockRel(r, r.blocks[i], v.blocks[i]) {
      assert BlockRel(s'', s''.blocks[i], v.blocks[i]);
    }
  }

  /** A conditional branch in the decoder and in the construction. */
  function BrIfState(fe: FunEnv, s: State, d: nat, cond: nat, last: Tree): State
    requires d < |s.blocks|
  {
    var e := Cur(s);
    var (g, tc, fc) := if e.Go() then BuildBranch(s.g, e.control, cond) else (s.g, 0, e.control);
    var s1 := Alloc(SetCur(s.(g := g), e.(control := fc)), Split(e).(control := tc)).(cur := |s.zone|);
    ReduceBreak(fe, s1, s.blocks[|s.blocks| - 1 - d], last).(cur := s.cur)
  }

  function BrIfSt(fe: FunEnv, v: St, d: nat, cond: nat, ty: LocalType, node: nat): St {
    if !v.cur.Go() then v
    else
      var (g, tc, fc) := BuildBranch(v.g, v.cur.control, cond);
      BreakTo(fe, St(g, Env(Reached, tc, v.cur.slots), v.blocks, v.log), d, ty, node).(cur := v.cur.(control := fc))
  }

  lemma BrIfRel(fe: FunEnv, s: State, v: St, d: nat, cond: nat, last: Tree)
    requires Distinct(s) && Rel(s, v) && d < |s.blocks|
    ensures var s' := BrIfState(fe, s, d, cond, last);
      Kept(s, s') && Rel(s', BrIfSt(fe, v, d, cond, last.ty, last.node))
  {
    hide BuildBranch, BreakTo, KeptBut, BlockRel, Distinct, ReduceBreak;
    var e := v.cur;
    var (g, tc, fc) := if e.Go() then BuildBranch(v.g, e.control, cond) else (v.g, 0, e.control);
    var e1, e2 := e.(control := fc), Split(e).(control := tc);
    SplitRel(s, v, g, e1, e2);
    var sB := Alloc(SetCur(s.(g := g), e1), e2).(cur := |s.zone|);
    var vB := St(g, e2, v.blocks, v.log);
    var sC := ReduceBreak(fe, sB, s.blocks[|s.blocks| - 1 - d], last);
    if e.Go() {
      BreakRel(fe, sB, vB, d, last);
      UnsplitRel(s, g, e1, e2, sC, BreakTo(fe, vB, d, last.ty, last.node));
    } else {
      DeadBreak(fe, sB, s.blocks[|s.blocks| - 1 - d], last, vB);
      KeptRefl(sB);
      UnsplitRel(s, g, e1, e2, sB, vB);
    }
  }

  lemma BrIfFinal(fe: FunEnv, t: Syn, d: nat, s1: State, sL: State, q: nat, v: St, k: Kids)
    requires t.instr == BrIf(d) && d < |v.blocks| && k.KOk? && 2 == |t.kids| == |k.tys| && |v.blocks| == |k.s.blocks|
    requires Loaded(fe, t, s1, sL, q, k.s, k.tys, k.nodes) && Fresh(s1, q) && !IsDepth(s1, q)
    requires KidOk(fe, t.instr, 1, k.tys[1]) && RunKids(fe, t, 0, v) == k
    ensures Finishes(s1, q, Reduce(fe, sL), Run(fe, t, v))
  {
    hide KidOk, RunKids, BreakTo, BuildOp, ReduceSelect, ReduceIf, ReduceIfElse, FallOut, BuildBranch, ReduceBreak,
         SetCur, Alloc, KeptBut, Grown, Distinct;
    LoadedKids(fe, t, s1, sL, q, k.s, k.tys, k.nodes);
    var last := sL.stack[q].kids[1];
    BrIfRel(fe, sL, k.s, d, k.nodes[0], last);
    var sF := BrIfState(fe, sL, d, k.nodes[0], last);
    BrIfEnd(s1, sL, sF, q);
    assert Reduce(fe, sL) == Next(sF);
    assert Run(fe, t, v) == Ok(BrIfSt(fe, k.s, d, k.nodes[0], k.tys[1], k.nodes[1]), Stmt, 0);
  }

  lemma BrIfEnd(s1: State, sL: State, sF: State, q: nat)
    requires KeptBut(s1, sL, q) && Kept(sL, sF) && |s1.stack| == q + 1 && !IsDepth(s1, q)
    ensures KeptBut(s1, sF, q) && |sF.stack| == q + 1 && sF.stack[q] == sL.stack[q]
  {
    KeptWeaken(sL, sF, q);
    KeptTrans(s1, sL, sF, q);
    assert !IsDepth(sL, q);
  }

  /** Pushing a production that is not a block. */
  lemma ShiftRel(fe: FunEnv, t: Syn, s: State, v: St)
    requires Distinct(s) && Rel(s, v) && !t.instr.Block? && !t.instr.Loop?
    ensures var p := Production(t.instr, t.pc, t.len, InitialType(fe, t.instr), 0, []);
      var s1 := s.(stack := s.stack + [p]);
      && Distinct(s1) && Rel(s1, v) && Waiting(fe, t.instr, s1, |s.stack|, 0) && Fresh(s1, |s.stack|)
        && !IsDepth(s1, |s.stack|)
  {
    hide InitialType;
    var p := Production(t.instr, t.pc, t.len, InitialType(fe, t.instr), 0, []);
    var s1 := s.(stack := s.stack + [p]);
    forall i | 0 <= i < |s.blocks| ensures BlockRel(s1, s1.blocks[i], v.blocks[i]) {
      assert BlockRel(s, s.blocks[i], v.blocks[i]);
    }
  }

  /** The state just after a block or loop is entered, as seen from outside: the old current environment
      c0 is now the target of the new entry of production q. */
  predicate Entered(s: State, s1: State, q: nat, more: nat) {
    && q == |s.stack| && |s1.stack| == q + 1 && s1.stack[..q] == s.stack && Fresh(s1, q)
    && s1.ifs == s.ifs && s1.trees == s.trees && |s.zone| <= |s1.zone| && s1.cur >= |s.zone|
    && |s1.blocks| == |s.blocks| + 1 + more && s1.blocks[..|s.blocks|] == s.blocks
    && s1.blocks[|s.blocks|] == Blk(s.cur, q)
    && (forall j :: |s.blocks| < j < |s1.blocks| ==> s1.blocks[j].env >= |s.zone| && s1.blocks[j].depth < 0)
    && (forall x :: 0 <= x < |s.zone| && x != s.cur ==> s1.zone[x] == s.zone[x])
  }

  lemma EnterBlockRel(fe: FunEnv, t: Syn, s: State, v: St)
    requires Distinct(s) && Rel(s, v) && t.instr.Block?
    ensures var r := Shift(fe, s, t.instr, t.pc, t.len);
      && r.Next? && Entered(s, r.s, |s.stack|, 0) && Distinct(r.s) && Rel(r.s, EnterBlock(v))
        && Waiting(fe, t.instr, r.s, |s.stack|, 0)
  {
    hide Distinct, BlockRel, Victim, Stolen;
    var p := Production(t.instr, t.pc, t.len, InitialType(fe, t.instr), 0, []);
    BlockStateRel(s, v, p, Victim(v.cur), Stolen(v.cur));
    BlockStateEntered(s, p, Victim(v.cur), Stolen(v.cur));
    assert Shift(fe, s, t.instr, t.pc, t.len) == Next(BlockState(s, p, Victim(v.cur), Stolen(v.cur))) by {
      hide Entered, Waiting;
    }
  }

  /** Entering a block: e waits, e' goes on. */
  function BlockState(s: State, p: Production, e: Env, e': Env): State {
    var s2 := Alloc(SetCur(s.(stack := s.stack + [p]), e), e');
    s2.(cur := |s.zone|, blocks := s.blocks + [Blk(s.cur, |s.stack|)])
  }

  lemma BlockStateEntered(s: State, p: Production, e: Env, e': Env)
    requires Distinct(s) && p.kids == []
    ensures var s1 := BlockState(s, p, e, e'); Entered(s, s1, |s.stack|, 0) && Distinct(s1)
  {
    var s1 := BlockState(s, p, e, e');
    assert s1.zone == s.zone[s.cur := e] + [e'];
  }

  lemma BlockStateRel(s: State, v: St, p: Production, e: Env, e': Env)
    requires Distinct(s) && Rel(s, v) && p.ty == End && p.node == 0
    ensures Rel(BlockState(s, p, e, e'), St(v.g, e', v.blocks + [Target(e, End, 0, false)], v.log))
  {
    var s1 := BlockState(s, p, e, e');
    var blocks := v.blocks + [Target(e, End, 0, false)];
    assert s1.zone == s.zone[s.cur := e] + [e'];
    forall i | 0 <= i < |s1.blocks| ensures BlockRel(s1, s1.blocks[i], blocks[i]) {
      if i < |s.blocks| { assert BlockRel(s, s.blocks[i], v.blocks[i]); }
    }
  }

  /** Entering a loop whose header environment is c. */
  function LoopState(s: State, p: Production, g: seq<Node>, e: Env, c: Env): State {
    var s2 := Alloc(Alloc(SetCur(s.(stack := s.stack + [p], g := g), e), c), Split(c));
    s2.(cur := |s.zone| + 1, blocks := s.blocks + [Blk(s.cur, |s.stack|), Blk(|s.zone|, -1)])
  }

  lemma LoopStateEntered(s: State, p: Production, g: seq<Node>, e: Env, c: Env)
    requires Distinct(s) && p.kids == []
    ensures var s1 := LoopState(s, p, g, e, c); Entered(s, s1, |s.stack|, 1) && Distinct(s1)
  {
    hide Split;
    var s1 := LoopState(s, p, g, e, c);
    assert s1.zone == s.zone[s.cur := e] + [c, Split(c)];
  }

  lemma LoopStateRel(s: State, v: St, p: Production, g: seq<Node>, e: Env, c: Env)
    requires Distinct(s) && Rel(s, v) && p.ty == End && p.node == 0
    ensures var s1 := LoopState(s, p, g, e, c);
      Rel(s1, St(g, Split(c), v.blocks + [Target(e, End, 0, false), Target(c, Stmt, 0, true)], v.log))
  {
    hide Split;
    var s1 := LoopState(s, p, g, e, c);
    var blocks := v.blocks + [Target(e, End, 0, false), Target(c, Stmt, 0, true)];
    assert s1.zone == s.zone[s.cur := e] + [c, Split(c)];
    forall i | 0 <= i < |s1.blocks| ensures BlockRel(s1, s1.blocks[i], blocks[i]) {
      if i < |s.blocks| { assert BlockRel(s, s.blocks[i], v.blocks[i]); }
    }
  }

  lemma EnterLoopRel(fe: FunEnv, t: Syn, s: State, v: St)
    requires Distinct(s) && Rel(s, v) && t.instr.Loop?
    ensures var r := Shift(fe, s, t.instr, t.pc, t.len);
      && r.Next? && Entered(s, r.s, |s.stack|, 1) && Distinct(r.s) && Rel(r.s, EnterLoop(fe, v))
        && Waiting(fe, t.instr, r.s, |s.stack|, 0)
  {
    hide PrepareForLoop, Distinct, BlockRel, Split, Victim, Stolen;
    var p := Production(t.instr, t.pc, t.len, InitialType(fe, t.instr), 0, []);
    var (g, c) := PrepareForLoop(fe, s.g, Stolen(v.cur));
    LoopStateRel(s, v, p, g, Victim(v.cur), c);
    LoopStateEntered(s, p, g, Victim(v.cur), c);
    assert Shift(fe, s, t.instr, t.pc, t.len) == Next(LoopState(s, p, g, Victim(v.cur), c)) by {
      hide Entered, Waiting;
    }
  }

  /** Dropping the inner entry of a loop. */
  lemma DropRel(s: State, v: St)
    requires Distinct(s) && Rel(s, v) && s.blocks != []
    ensures var s' := s.(blocks := s.blocks[..|s.blocks| - 1]);
      Distinct(s') && Rel(s', v.(blocks := v.blocks[..|v.blocks| - 1]))
  {
    var s' := s.(blocks := s.blocks[..|s.blocks| - 1]);
    forall i | 0 <= i < |s'.blocks| ensures BlockRel(s', s'.blocks[i], v.blocks[i]) {
      assert BlockRel(s, s.blocks[i], v.blocks[i]);
    }
  }

  /** Falling out of a block: its entry becomes the current environment, its production the result. */
  lemma FallRel(fe: FunEnv, s: State, v: St, last: Tree, tys: seq<LocalType>, nodes: seq<nat>)
    requires Distinct(s) && Rel(s, v) && s.blocks != [] && s.blocks[|s.blocks| - 1].depth >= 0
    requires 0 < |tys| == |nodes| && last.ty == tys[|tys| - 1] && last.node == nodes[|nodes| - 1]
    ensures LeaveTarget(fe, KOk(v, tys, nodes)).Ok?
    ensures var b := s.blocks[|s.blocks| - 1];
      var sM := ReduceBreak(fe, s, b, last);
      var sF := sM.(cur := b.env, blocks := s.blocks[..|s.blocks| - 1]);
      var w := LeaveTarget(fe, KOk(v, tys, nodes));
      && FallOut(fe, s, last) == Next(sF) && Kept(s, sM) && Rel(sF, w.s)
      && sF.stack[b.depth].ty == w.ty && sF.stack[b.depth].node == w.node
  {
    hide ReduceBreak, MergeInto, KeptBut, Distinct;
    var i := |s.blocks| - 1;
    var b := s.blocks[i];
    var sM := ReduceBreak(fe, s, b, last);
    var vM := if v.cur.Go() then BreakTo(fe, v, 0, last.ty, last.node) else v;
    if v.cur.Go() {
      BreakRel(fe, s, v, 0, last);
    } else {
      DeadBreak(fe, s, b, last, v);
      KeptRefl(s);
    }
    LeaveIsBreak(fe, v, tys, nodes, last);
    Unchanged(s, sM, -1);
    var sF := sM.(cur := b.env, blocks := s.blocks[..i]);
    var w := LeaveTarget(fe, KOk(v, tys, nodes));
    assert BlockRel(sM, sM.blocks[i], vM.blocks[i]);
    forall j | 0 <= j < i ensures BlockRel(sF, sF.blocks[j], w.s.blocks[j]) {
      assert BlockRel(sM, sM.blocks[j], vM.blocks[j]);
    }
  }

  /** Leaving a block is breaking to its entry and going on there. */
  lemma LeaveIsBreak(fe: FunEnv, v: St, tys: seq<LocalType>, nodes: seq<nat>, last: Tree)
    requires v.blocks != [] && 0 < |tys| == |nodes| && last.ty == tys[|tys| - 1] && last.node == nodes[|nodes| - 1]
    ensures var i := |v.blocks| - 1;
      var vM := if v.cur.Go() then BreakTo(fe, v, 0, last.ty, last.node) else v;
      |vM.blocks| == |v.blocks| && LeaveTarget(fe, KOk(v, tys, nodes))
        == Ok(St(vM.g, vM.blocks[i].env, vM.blocks[..i], vM.log), vM.blocks[i].ty, vM.blocks[i].node)
  {
    hide MergeInto;
    var i := |v.blocks| - 1;
    if v.cur.Go() {
      var (g, t) := MergeInto(fe, v.g, v.cur, v.blocks[i], last.ty, last.node);
      assert v.blocks[i := t][..i] == v.blocks[..i];
    } else {
      DeadMerge(fe, v, v.blocks[i], last.ty, last.node);
    }
  }

  lemma DeadMerge(fe: FunEnv, v: St, t: Target, ty: LocalType, node: nat)
    requires !v.cur.Go()
    ensures MergeInto(fe, v.g, v.cur, t, ty, node) == (v.g, t)
  {
  }

  lemma DeadBreak(fe: FunEnv, s: State, b: Blk, last: Tree, v: St)
    requires Rel(s, v) && !v.cur.Go()
    ensures ReduceBreak(fe, s, b, last) == s
  {
    hide MergeInto, Goto;
  }

  lemma KeptRefl(s: State)
    ensures Kept(s, s)
  {
  }

  /** Everything outside the block is as before. */
  lemma FallKept(s: State, s1: State, sL: State, sM: State, q: nat, more: nat)
    requires Distinct(s) && Entered(s, s1, q, more) && KeptBut(s1, sL, q)
    requires sM.cur == sL.cur && |sM.zone| >= |sL.zone| && sM.ifs == sL.ifs && sM.trees == sL.trees
    requires |sM.stack| == |sL.stack|
    requires Kept(sL.(blocks := sL.blocks[..|s.blocks| + 1]), sM)
    ensures Kept(s, Pop(sM.(cur := s.cur, blocks := s.blocks)))
  {
    var s' := Pop(sM.(cur := s.cur, blocks := s.blocks));
    var sL' := sL.(blocks := sL.blocks[..|s.blocks| + 1]);
    forall x | 0 <= x < |s.zone| && x != s.cur && !IsTarget(s, x) ensures s'.zone[x] == s.zone[x] {
      assert !IsTarget(s1, x);
      assert !IsTarget(sL', x);
    }
    forall j | 0 <= j < |s.stack|
      ensures s'.stack[j].instr == s.stack[j].instr && s'.stack[j].pc == s.stack[j].pc
      ensures s'.stack[j].len == s.stack[j].len
           && s'.stack[j].kids == s.stack[j].kids && (!IsDepth(s, j) ==> s'.stack[j] == s.stack[j])
    {
      assert s1.stack[..q][j] == s.stack[j];
      if !IsDepth(s, j) {
        assert !IsDepth(s1, j);
        assert !IsDepth(sL', j);
      }
    }
  }

  lemma PopBlock(s: State, v: St)
    requires Rel(s, v) && s.stack != [] && !IsDepth(s, |s.stack| - 1)
    requires forall i :: 0 <= i < |s.blocks| ==> s.blocks[i].depth < |s.stack|
    ensures Rel(Pop(s), v)
  {
    var s' := Pop(s);
    forall i | 0 <= i < |s.blocks| ensures BlockRel(s', s'.blocks[i], v.blocks[i]) {
      assert BlockRel(s, s.blocks[i], v.blocks[i]);
      assert s.blocks[i].depth != |s.stack| - 1;
    }
  }

  /** A block or loop of production q is left as the construction leaves it. */
  ghost predicate Left(s: State, q: nat, r: Step, w: Res) {
    && w.Ok? && r.Next? && |r.s.stack| == q + 1 && Kept(s, Pop(r.s)) && Rel(Pop(r.s), w.s)
    && r.s.stack[q].ty == w.ty && r.s.stack[q].node == w.node
  }

  /** Leaving a block or (more == 1, its inner entry dropped) a loop. */
  lemma LeaveRel(fe: FunEnv, s: State, s1: State, sL: State, q: nat, more: nat, v: St, last: Tree, tys: seq<LocalType>,
      nodes: seq<nat>)
    requires Distinct(s) && Entered(s, s1, q, more) && KeptBut(s1, sL, q) && Distinct(sL)
    requires 0 < |tys| == |nodes| && last.ty == tys[|tys| - 1] && last.node == nodes[|nodes| - 1]
    requires |sL.blocks| > |s.blocks|
    requires var sD := sL.(blocks := sL.blocks[..|s.blocks| + 1]); Distinct(sD) && Rel(sD, v)
    ensures var sD := sL.(blocks := sL.blocks[..|s.blocks| + 1]);
      Left(s, q, FallOut(fe, sD, last), LeaveTarget(fe, KOk(v, tys, nodes)))
  {
    hide ReduceBreak, FallOut, LeaveTarget, KeptBut, BlockRel;
    assert sL.blocks == s1.blocks && |sL.stack| == q + 1 by { Unchanged(s1, sL, q); }
    var sD := sL.(blocks := sL.blocks[..|s.blocks| + 1]);
    assert sD.blocks[|s.blocks|] == Blk(s.cur, q);
    FallRel(fe, sD, v, last, tys, nodes);
    var sM := ReduceBreak(fe, sD, sD.blocks[|s.blocks|], last);
    Unchanged(sD, sM, -1);
    assert sD.blocks[..|s.blocks|] == s.blocks;
    FallKept(s, s1, sL, sM, q, more);
    var sF := sM.(cur := s.cur, blocks := s.blocks);
    var w := LeaveTarget(fe, KOk(v, tys, nodes));
    PopBlock(sF, w.s);
  }

  lemma Unchanged(s: State, s': State, q: int)
    requires KeptBut(s, s', q)
    ensures s'.cur == s.cur && s'.blocks == s.blocks && s'.ifs == s.ifs && s'.trees == s.trees
    ensures |s.zone| <= |s'.zone| && |s'.stack| == |s.stack|
  {
  }

  lemma {:induction false} BlockTreeRel(fe: FunEnv, t: Syn, s: State, v: St)
    requires Whole(t) && Distinct(s) && Rel(s, v) && 0 < |t.kids| == Arity(fe, t.instr) && t.instr.Block?
    ensures TreeRel(s, RunTree(fe, t, s), Run(fe, t, v))
    decreases t, 1
  {
    hide Shift, RunKids, Reduce, EnterBlock, MergeInto, KeptBut, Distinct, Rel, Entered, Waiting, Loaded, FallOut;
    var q := |s.stack|;
    EnterBlockRel(fe, t, s, v);
    var s1 := Shift(fe, s, t.instr, t.pc, t.len).s;
    var sL := KidsRel(fe, t, 0, s1, EnterBlock(v), q);
    var k := RunKids(fe, t, 0, EnterBlock(v));
    if k.KOk? {
      BlockFinal(fe, t, s, s1, sL, q, k);
    }
  }

  /** The last child of a block or loop. */
  lemma BlockReduce(fe: FunEnv, s: State)
    requires s.stack != []
    requires var p := s.stack[|s.stack| - 1]; p.kids != [] && |p.kids| >= Arity(fe, p.instr)
    ensures var p := s.stack[|s.stack| - 1];
      var last := p.kids[|p.kids| - 1];
      && (p.instr.Block? && s.blocks != [] ==> Reduce(fe, s) == FallOut(fe, s, last))
      && (p.instr.Loop? && |s.blocks| >= 2 ==>
        Reduce(fe, s) == FallOut(fe, s.(blocks := s.blocks[..|s.blocks| - 1]), last))
  {
    hide BuildOp, BuildBranch, ReduceBreak, ReduceSelect, ReduceIf, ReduceIfElse, SetCur, FallOut;
  }

  /** The entries and the production of a block or loop once its children are attached. */
  lemma LoadedEntries(fe: FunEnv, t: Syn, s: State, s1: State, sL: State, q: nat, more: nat, v: St,
      tys: seq<LocalType>, nodes: seq<nat>)
    requires Entered(s, s1, q, more) && Loaded(fe, t, s1, sL, q, v, tys, nodes)
    ensures |sL.blocks| == |s.blocks| + 1 + more && |sL.stack| == q + 1 && sL.stack[q].instr == t.instr
    ensures Fresh(s1, q) && KeptBut(s1, sL, q) && Distinct(sL) && Rel(sL, v)
  {
    hide KeptBut, Distinct, Rel, Fresh;
    Unchanged(s1, sL, q);
  }

  lemma AllBlocks(s: State, n: nat)
    requires n == |s.blocks|
    ensures s.(blocks := s.blocks[..n]) == s
  {
  }

  lemma BlockFinal(fe: FunEnv, t: Syn, s: State, s1: State, sL: State, q: nat, k: Kids)
    requires Distinct(s) && t.instr.Block? && Entered(s, s1, q, 0) && k.KOk?
    requires Loaded(fe, t, s1, sL, q, k.s, k.tys, k.nodes)
    requires 0 < |t.kids| == Arity(fe, t.instr) == |k.tys|
    ensures sL.stack != [] && sL.stack[|sL.stack| - 1].kids != []
    ensures Left(s, q, Reduce(fe, sL), LeaveTarget(fe, k))
  {
    hide Left, LeaveTarget, KeptBut, Distinct, Rel, FallOut, Reduce, Entered, Loaded, Fresh;
    LoadedEntries(fe, t, s, s1, sL, q, 0, k.s, k.tys, k.nodes);
    AllBlocks(sL, |s.blocks| + 1);
    LoadedKids(fe, t, s1, sL, q, k.s, k.tys, k.nodes);
    BlockReduce(fe, sL);
    LeaveRel(fe, s, s1, sL, q, 0, k.s, sL.stack[q].kids[|k.tys| - 1], k.tys, k.nodes);
  }

  lemma LoopFinal(fe: FunEnv, t: Syn, s: State, s1: State, sL: State, q: nat, k: Kids)
    requires Distinct(s) && t.instr.Loop? && Entered(s, s1, q, 1) && k.KOk?
    requires Loaded(fe, t, s1, sL, q, k.s, k.tys, k.nodes)
    requires 0 < |t.kids| == Arity(fe, t.instr) == |k.tys|
    ensures k.s.blocks != []
    ensures sL.stack != [] && sL.stack[|sL.stack| - 1].kids != []
    ensures Left(s, q, Reduce(fe, sL), LeaveTarget(fe,
      KOk(k.s.(blocks := k.s.blocks[..|k.s.blocks| - 1]), k.tys, k.nodes)))
  {
    hide Left, LeaveTarget, KeptBut, Distinct, BlockRel, FallOut, Reduce, Entered, Loaded, Fresh;
    LoadedEntries(fe, t, s, s1, sL, q, 1, k.s, k.tys, k.nodes);
    DropRel(sL, k.s);
    LoadedKids(fe, t, s1, sL, q, k.s, k.tys, k.nodes);
    BlockReduce(fe, sL);
    LeaveRel(fe, s, s1, sL, q, 1, k.s.(blocks := k.s.blocks[..|k.s.blocks| - 1]), sL.stack[q].kids[|k.tys| - 1], k.tys,
        k.nodes);
  }

  lemma {:induction false} LoopTreeRel(fe: FunEnv, t: Syn, s: State, v: St)
    requires Whole(t) && Distinct(s) && Rel(s, v) && 0 < |t.kids| == Arity(fe, t.instr) && t.instr.Loop?
    ensures TreeRel(s, RunTree(fe, t, s), Run(fe, t, v))
    decreases t, 1
  {
    hide Shift, RunKids, Reduce, EnterLoop, LeaveTarget, KeptBut, Distinct, Rel, Entered, Waiting, Loaded, FallOut;
    var q := |s.stack|;
    EnterLoopRel(fe, t, s, v);
    var s1 := Shift(fe, s, t.instr, t.pc, t.len).s;
    var sL := KidsRel(fe, t, 0, s1, EnterLoop(fe, v), q);
    var k := RunKids(fe, t, 0, EnterLoop(fe, v));
    if k.KOk? {
      LoopFinal(fe, t, s, s1, sL, q, k);
    }
  }

  lemma ShiftFails(fe: FunEnv, t: Syn, s: State, v: St)
    requires Rel(s, v) && 0 < |t.kids| == Arity(fe, t.instr) && Shift(fe, s, t.instr, t.pc, t.len).Fail?
    ensures Run(fe, t, v) == Err(v.log.stray)
  {
    hide RunKids;
  }

  lemma LoadedTop(fe: FunEnv, t: Syn, s: State, s1: State, sL: State, q: nat, v: St, k: Kids)
    requires k.KOk? && Rel(s, v) && Loaded(fe, t, s1, sL, q, k.s, k.tys, k.nodes) && s1.blocks == s.blocks
    ensures |sL.stack| == q + 1 && |k.s.blocks| == |v.blocks| == |s.blocks|
  {
    hide KeptBut, Distinct, BlockRel;
    Unchanged(s1, sL, q);
  }

  /** A plain tree with all its children decoded. */
  lemma PlainFinal(fe: FunEnv, t: Syn, s: State, s1: State, sL: State, q: nat, v: St, k: Kids)
    requires !t.instr.Cut? && 0 < |t.kids| == Arity(fe, t.instr) && Plain(t.instr) && !t.instr.Block? && !t.instr.Loop?
    requires Rel(s, v) && Shift(fe, s, t.instr, t.pc, t.len).Next? && k == RunKids(fe, t, 0, v) && k.KOk?
    requires Loaded(fe, t, s1, sL, q, k.s, k.tys, k.nodes) && Fresh(s1, q) && !IsDepth(s1, q) && s1.blocks == s.blocks
    ensures sL.stack != [] && sL.stack[|sL.stack| - 1].kids != []
    ensures Finishes(s1, q, Reduce(fe, sL), Run(fe, t, v))
  {
    hide Run, RunKids, Reduce, Finishes, KidOk, Loaded, Rel, Fresh, IsDepth;
    LoadedKids(fe, t, s1, sL, q, k.s, k.tys, k.nodes);
    LoadedTop(fe, t, s, s1, sL, q, v, k);
    LastKidOk(fe, t, v, k);
    match t.instr
    case Apply(op) => ApplyFinal(fe, t, op, s1, sL, q, v, k);
    case SetLocal(i) => SetLocalFinal(fe, t, i, s1, sL, q, v, k);
    case Return => ReturnFinal(fe, t, s1, sL, q, v, k);
    case Select => SelectFinal(fe, t, s1, sL, q, v, k);
    case Br(d) => BrFinal(fe, t, d, s1, sL, q, v, k);
    case BrIf(d) => BrIfFinal(fe, t, d, s1, sL, q, v, k);
  }

  lemma PlainErr(fe: FunEnv, t: Syn, v: St)
    requires !t.instr.Cut? && 0 < |t.kids| == Arity(fe, t.instr) && Plain(t.instr) && !t.instr.Block? && !t.instr.Loop?
    requires Shifts(fe, t.instr, v) && RunKids(fe, t, 0, v).KErr?
    ensures Run(fe, t, v) == Err(RunKids(fe, t, 0, v).stray)
  {
    hide RunKids;
  }

  lemma LastKidOk(fe: FunEnv, t: Syn, v: St, k: Kids)
    requires k == RunKids(fe, t, 0, v) && k.KOk? && |t.kids| > 0
    ensures KidOk(fe, t.instr, |k.tys| - 1, k.tys[|k.tys| - 1])
  {
    RunKidsChecked(fe, t, 0, v);
  }

  /** The other plain trees. */
  lemma {:induction false} PlainRel(fe: FunEnv, t: Syn, s: State, v: St)
    requires Whole(t) && Distinct(s) && Rel(s, v) && 0 < |t.kids| == Arity(fe, t.instr) && Plain(t.instr)
    requires !t.instr.Block? && !t.instr.Loop?
    ensures TreeRel(s, RunTree(fe, t, s), Run(fe, t, v))
    decreases t, 1
  {
    hide Run, RunKids, Reduce, KeptBut, Distinct, Waiting, Loaded, BlockRel;
    var p := Production(t.instr, t.pc, t.len, InitialType(fe, t.instr), 0, []);
    var s1 := s.(stack := s.stack + [p]);
    var q := |s.stack|;
    if Shift(fe, s, t.instr, t.pc, t.len).Fail? {
      ShiftFails(fe, t, s, v);
    } else {
      ShiftRel(fe, t, s, v);
      var sL := KidsRel(fe, t, 0, s1, v, q);
      var k := RunKids(fe, t, 0, v);
      if k.KOk? {
        PlainFinal(fe, t, s, s1, sL, q, v, k);
        if Run(fe, t, v).Ok? {
          PopRel(s, p, s1, Reduce(fe, sL).s, Run(fe, t, v).s);
        }
      } else {
        PlainErr(fe, t, v);
      }
    }
  }

  /** Productions of the same instructions, the same but for production q. */
  predicate SameBut(a: seq<Production>, b: seq<Production>, q: nat) {
    && |a| == |b|
    && (forall j :: 0 <= j < |a| ==> a[j].instr == b[j].instr && a[j].pc == b[j].pc && a[j].len == b[j].len)
    && (forall j :: 0 <= j < |a| && j != q ==> a[j] == b[j])
  }

  /** State r seen from s with the current environment and pending ifs of s put back. */
  predicate Away(s: State, r: State, q: nat) {
    KeptBut(s, r.(cur := s.cur, ifs := s.ifs), q)
  }

  /** Moving the decoder to another environment that is not a branch target: an arm of an if, or the
      environment s was in. */
  lemma SwitchRel(s: State, s2: State, r: State, q: nat, v: St)
    requires Distinct(s) && Away(s, s2, q) && Rel(s2, v) && !IsDepth(s, q)
    requires r.blocks == s2.blocks && r.trees == s2.trees && r.strayed == s2.strayed && |s2.zone| <= |r.zone|
    requires SameBut(s2.stack, r.stack, q)
    requires forall x :: 0 <= x < |s.zone| && x != s.cur ==> r.zone[x] == s2.zone[x]
    requires r.cur < |r.zone| && (r.cur == s.cur || r.cur >= |s.zone|)
    ensures Away(s, r, q) && Distinct(r) && Rel(r, St(r.g, r.zone[r.cur], v.blocks, v.log))
  {
    forall i | 0 <= i < |r.blocks| ensures BlockRel(r, r.blocks[i], v.blocks[i]) {
      assert BlockRel(s2, s2.blocks[i], v.blocks[i]);
      assert s.blocks[i].depth != q;
    }
  }

  /** A child run away from s leaves alone the environment of s and the arms waiting beside it. */
  lemma AwayRun(s: State, r: State, h: State, q: nat)
    requires Distinct(s) && Away(s, r, q) && KeptBut(r, h, q) && r.cur >= |s.zone|
    ensures Away(s, h, q)
    ensures forall x :: 0 <= x < |r.zone| && x != r.cur && (x == s.cur || x >= |s.zone|) ==> h.zone[x] == r.zone[x]
  {
    assert forall x :: IsTarget(s, x) <==> IsTarget(r, x);
    assert forall x :: IsDepth(s, x) <==> IsDepth(r, x);
    forall x | 0 <= x < |r.zone| && x != r.cur && (x == s.cur || x >= |s.zone|) ensures h.zone[x] == r.zone[x] {
      assert !IsTarget(r, x);
    }
  }

  /** A finished child, attached. */
  lemma HungRel(r: State, q: nat, s2: State, tree: Tree, v2: St)
    requires Distinct(r) && Kept(r, s2) && Rel(s2, v2) && |r.stack| == q + 1 && !IsDepth(r, q)
    ensures |s2.stack| == q + 1
    ensures var h := Hang(s2, tree);
      && KeptBut(r, h, q) && Distinct(h) && Rel(h, v2) && |h.stack| == q + 1 && h.ifs == r.ifs && h.cur == r.cur
      && h.stack[q] == r.stack[q].(kids := r.stack[q].kids + [tree]) && !IsDepth(h, q)
  {
    KeptDistinct(r, s2, -1);
    HangRel(s2, v2, tree);
    var h := Hang(s2, tree);
    KeptDistinct(s2, h, q);
    KeptWeaken(r, s2, q);
    KeptTrans(r, s2, h, q);
    assert IsDepth(h, q) <==> IsDepth(r, q);
  }

  lemma IfReduces(fe: FunEnv, s: State)
    requires s.stack != [] && s.stack[|s.stack| - 1].kids != []
    ensures var p := s.stack[|s.stack| - 1];
      && (p.instr.If? ==> Reduce(fe, s) == if KidOk(fe, If, |p.kids| - 1, p.kids[|p.kids| - 1].ty) then ReduceIf(fe,
        s) else Fail(s.strayed))
      && (p.instr.IfElse? ==>
            Reduce(fe, s) == if KidOk(fe, IfElse, |p.kids| - 1, p.kids[|p.kids| - 1].ty) then ReduceIfElse(fe, s)
                else Fail(s.strayed))
  {
    hide BuildOp, BuildBranch, ReduceBreak, ReduceSelect, ReduceIf, ReduceIfElse, SetCur, FallOut, KidOk;
  }

  /** The graph and the two controls after the condition of an if. */
  function Forks(g: seq<Node>, e: Env, cond: nat): (seq<Node>, nat, nat) {
    if e.Go() then BuildBranch(g, e.control, cond) else (g, 0, e.control)
  }

  lemma IfOpenRel(fe: FunEnv, h: State, v: St, q: nat)
    requires Distinct(h) && Rel(h, v) && |h.stack| == q + 1 && !IsDepth(h, q) && |h.stack[q].kids| == 1
    ensures var r := ReduceIf(fe, h);
      var (g, tc, fc) := Forks(v.g, v.cur, h.stack[q].kids[0].node);
      && r.Next? && Away(h, r.s, q) && Distinct(r.s) && Rel(r.s, St(g, Split(v.cur).(control := tc), v.blocks, v.log))
      && r.s.cur == |h.zone| < |r.s.zone| && r.s.zone[h.cur] == v.cur.(control := fc) && r.s.stack == h.stack
      && r.s.ifs == h.ifs + [IfEnv(h.cur, h.cur)]
  {
    hide BuildBranch;
    SwitchRel(h, h, ReduceIf(fe, h).s, q, v);
  }

  /** Where an if leaves the construction, its arm having ended in v2. */
  function IfEnds(fe: FunEnv, e: Env, fc: nat, v2: St): St {
    if !e.Go() then v2.(cur := e)
    else
      var merge := Env(Reached, fc, e.slots);
      var (g2, e') := if v2.cur.Go() then Goto(fe, v2.g, v2.cur, merge) else (v2.g, merge);
      St(g2, e', v2.blocks, v2.log)
  }

  lemma IfCloseRel(fe: FunEnv, h: State, e: Env, fc: nat, h2: State, v2: St, q: nat)
    requires Distinct(h) && Away(h, h2, q) && Rel(h2, v2) && |h2.stack| == q + 1 && !IsDepth(h, q)
    requires |h2.stack[q].kids| == 2
    requires h2.ifs == h.ifs + [IfEnv(h.cur, h.cur)] && h2.cur >= |h.zone| && h2.zone[h.cur] == e.(control := fc)
    requires !e.Go() ==> e.control == fc
    ensures var r := ReduceIf(fe, h2);
      && r.Next? && KeptBut(h, r.s, q) && Rel(r.s, IfEnds(fe, e, fc, v2)) && r.s.stack == h2.stack
  {
    hide Goto, BuildBranch;
    assert h2.ifs[..|h2.ifs| - 1] == h.ifs;
    var r := ReduceIf(fe, h2).s;
    SwitchRel(h, h2, r, q, v2);
    assert r.(cur := h.cur, ifs := h.ifs) == r;
  }

  /** An if after its condition, in the construction. */
  function IfRest(fe: FunEnv, t: Syn, v: St, cond: nat): Res
    requires |t.kids| == 2
  {
    var (g, tc, fc) := Forks(v.g, v.cur, cond);
    match Run(fe, t.kids[1], St(g, Split(v.cur).(control := tc), v.blocks, v.log))
    case Err(b) => Err(b)
    case Ok(v2, _, _) => Ok(IfEnds(fe, v.cur, fc, v2), Stmt, 0)
  }

  lemma IfIsRest(fe: FunEnv, t: Syn, v: St)
    requires t.instr.If? && |t.kids| == 2
    ensures Run(fe, t, v) == match Run(fe, t.kids[0], v)
      case Err(b) => Err(b)
      case Ok(v1, ty, c) => if KidOk(fe, If, 0, ty) then IfRest(fe, t, v1, c) else Err(v1.log.stray)
  {
    hide BuildBranch, Goto, KidOk, RunKids;
  }

  /** The arm of an if. */
  lemma {:induction false} IfArmRel(fe: FunEnv, t: Syn, h: State, v: St, q: nat)
    requires Whole(t) && t.instr.If? && |t.kids| == 2 && Distinct(h) && Rel(h, v) && |h.stack| == q + 1
    requires !IsDepth(h, q)
    requires h.stack[q].instr.If? && |h.stack[q].kids| == 1 && h.stack[q].ty == Stmt && h.stack[q].node == 0
    ensures var r := ReduceIf(fe, h);
      r.Next? && Finishes(h, q, RunChildren(fe, t, 1, r.s), IfRest(fe, t, v, h.stack[q].kids[0].node))
    decreases t, 0
  {
    hide Run, RunTree, KeptBut, Distinct, Rel, ReduceIf, Reduce, BuildBranch, Goto, Split;
    IfOpenRel(fe, h, v, q);
    var (g, tc, fc) := Forks(v.g, v.cur, h.stack[q].kids[0].node);
    var vB := St(g, Split(v.cur).(control := tc), v.blocks, v.log);
    var r := ReduceIf(fe, h).s;
    assert !IsDepth(r, q) by { Unchanged(h, r.(cur := h.cur, ifs := h.ifs), q); }
    RunTreeRel(fe, t.kids[1], r, vB);
    var w := Run(fe, t.kids[1], vB);
    if w.Ok? {
      var TOk(s2, tree) := RunTree(fe, t.kids[1], r);
      HungRel(r, q, s2, tree, w.s);
      var h2 := Hang(s2, tree);
      AwayRun(h, r, h2, q);
      assert |h2.zone| >= |r.zone| by { Unchanged(r, h2, q); }
      assert h.cur < |h.zone| by { CurOk(h); }
      IfCloseRel(fe, h, v.cur, fc, h2, w.s, q);
      IfReduces(fe, h2);
      assert Attach(fe, s2, tree) == Reduce(fe, h2);
    }
  }

  lemma CurOk(s: State)
    requires Distinct(s)
    ensures s.cur < |s.zone|
  {
  }

  lemma FinishesFrom(s1: State, h: State, q: nat, r: Step, w: Res)
    requires KeptBut(s1, h, q) && |s1.stack| == q + 1 && Finishes(h, q, r, w)
    ensures Finishes(s1, q, r, w)
  {
    if w.Ok? { KeptTrans(s1, h, r.s, q); }
  }

  lemma {:induction false} IfRel(fe: FunEnv, t: Syn, s: State, v: St)
    requires Whole(t) && Distinct(s) && Rel(s, v) && |t.kids| == Arity(fe, t.instr) && t.instr.If?
    ensures TreeRel(s, RunTree(fe, t, s), Run(fe, t, v))
    decreases t, 1
  {
    hide Run, KeptBut, Distinct, Rel, Reduce, ReduceIf, KidOk, IfRest;
    var p := Production(t.instr, t.pc, t.len, InitialType(fe, t.instr), 0, []);
    var s1 := s.(stack := s.stack + [p]);
    var q := |s.stack|;
    ShiftRel(fe, t, s, v);
    IfIsRest(fe, t, v);
    RunTreeRel(fe, t.kids[0], s1, v);
    var w := Run(fe, t.kids[0], v);
    if w.Ok? {
      var TOk(s2, tree) := RunTree(fe, t.kids[0], s1);
      HungRel(s1, q, s2, tree, w.s);
      var h := Hang(s2, tree);
      IfReduces(fe, h);
      assert Attach(fe, s2, tree) == Reduce(fe, h);
      if KidOk(fe, If, 0, w.ty) {
        IfArmRel(fe, t, h, w.s, q);
        var r := RunChildren(fe, t, 1, ReduceIf(fe, h).s);
        FinishesFrom(s1, h, q, r, Run(fe, t, v));
        if Run(fe, t, v).Ok? { PopRel(s, p, s1, r.s, Run(fe, t, v).s); }
      }
    }
  }

  /** The entry the arms of an if-else meet in: the environment of h, and the result of production q. */
  predicate MeetAt(h: State, s: State, q: nat, m: Target) {
    && h.cur < |s.zone| && s.zone[h.cur] == m.env && q < |s.stack| && s.stack[q].ty == m.ty
      && s.stack[q].node == m.node && !m.cont
  }

  /** An arm of an if-else flows into that entry, and decoding moves on to environment c. */
  lemma MeetRel(fe: FunEnv, h: State, h2: State, v2: St, q: nat, m: Target, last: Tree, c: nat)
    requires Distinct(h) && Away(h, h2, q) && Rel(h2, v2) && |h2.stack| == q + 1 && !IsDepth(h, q)
    requires h2.cur >= |h.zone| && MeetAt(h, h2, q, m) && c < |h2.zone| && (c == h.cur || c >= |h.zone|) && c != h2.cur
    ensures var s3 := MergeIntoProduction(fe, h2, q, h.cur, last).(cur := c);
      var (g, m') := MergeInto(fe, v2.g, v2.cur, m, last.ty, last.node);
      && c < |s3.zone| && Away(h, s3, q) && Distinct(s3) && Rel(s3, St(g, s3.zone[c], v2.blocks, v2.log))
        && MeetAt(h, s3, q, m')
      && (c != h.cur ==> s3.zone[c] == h2.zone[c]) && s3.ifs == h2.ifs && |s3.stack| == q + 1
        && s3.stack[q].kids == h2.stack[q].kids
      && s3.stack[q].instr == h2.stack[q].instr
  {
    hide Goto, MergeNode;
    var s3 := MergeIntoProduction(fe, h2, q, h.cur, last).(cur := c);
    SwitchRel(h, h2, s3, q, v2);
  }

  /** The graph and the two controls after the condition of an if-else. */
  function ElseForks(g: seq<Node>, e: Env, cond: nat): (seq<Node>, nat, nat) {
    if e.Go() then BuildBranch(g, e.control, cond) else (g, 0, 0)
  }

  lemma ElseOpenRel(fe: FunEnv, h: State, v: St, q: nat)
    requires Distinct(h) && Rel(h, v) && |h.stack| == q + 1 && !IsDepth(h, q) && |h.stack[q].kids| == 1
    requires h.stack[q].ty == End && h.stack[q].node == 0
    ensures var r := ReduceIfElse(fe, h);
      var (g, tc, fc) := ElseForks(v.g, v.cur, h.stack[q].kids[0].node);
      && r.Next? && Away(h, r.s, q) && Distinct(r.s) && Rel(r.s, St(g, Stolen(v.cur).(control := tc), v.blocks, v.log))
      && r.s.cur == |h.zone| + 1 < |r.s.zone| && MeetAt(h, r.s, q, NewTarget(v.cur)) && r.s.stack == h.stack
      && r.s.zone[|h.zone|] == Split(v.cur).(control := fc) && r.s.ifs == h.ifs + [IfEnv(|h.zone|, h.cur)]
  {
    hide BuildBranch;
    SwitchRel(h, h, ReduceIfElse(fe, h).s, q, v);
  }

  /** The false arm of an if-else in the construction. */
  function ElseArm(fe: FunEnv, t: Syn, v: St, m: Target): Res
    requires |t.kids| == 3
  {
    match Run(fe, t.kids[2], v)
    case Err(b) => Err(b)
    case Ok(v3, ty3, n3) =>
      var (g3, m3) := MergeInto(fe, v3.g, v3.cur, m, ty3, n3);
      Ok(St(g3, m3.env, v3.blocks, v3.log), m3.ty, m3.node)
  }

  /** Both arms. */
  function ElseRest(fe: FunEnv, t: Syn, v: St, cond: nat): Res
    requires |t.kids| == 3
  {
    var (g, tc, fc) := ElseForks(v.g, v.cur, cond);
    match Run(fe, t.kids[1], St(g, Stolen(v.cur).(control := tc), v.blocks, v.log))
    case Err(b) => Err(b)
    case Ok(v2, ty2, n2) =>
      var (g2, m2) := MergeInto(fe, v2.g, v2.cur, NewTarget(v.cur), ty2, n2);
      ElseArm(fe, t, St(g2, Split(v.cur).(control := fc), v2.blocks, v2.log), m2)
  }

  lemma IfElseIsRest(fe: FunEnv, t: Syn, v: St)
    requires t.instr.IfElse? && |t.kids| == 3
    ensures Run(fe, t, v) == match Run(fe, t.kids[0], v)
      case Err(b) => Err(b)
      case Ok(v1, ty, c) => if KidOk(fe, IfElse, 0, ty) then ElseRest(fe, t, v1, c) else Err(v1.log.stray)
  {
    hide BuildBranch, MergeInto, KidOk, RunKids, Split, Stolen, NewTarget;
  }

  /** What an arm of an if-else does when it is attached. */
  lemma ElseReduce(fe: FunEnv, s: State)
    requires s.stack != [] && s.ifs != [] && s.stack[|s.stack| - 1].instr.IfElse?
    requires |s.stack[|s.stack| - 1].kids| in {2, 3}
    ensures var q := |s.stack| - 1;
      var k := |s.stack[q].kids|;
      var f := s.ifs[|s.ifs| - 1];
      var s1 := MergeIntoProduction(fe, s, q, f.mergeEnv, s.stack[q].kids[k - 1]);
      Reduce(fe, s) == Next(if k == 2 then s1.(cur := f.falseEnv)
          else s1.(cur := f.mergeEnv, ifs := s.ifs[..|s.ifs| - 1]))
  {
    hide Reduce, MergeIntoProduction, BuildBranch;
    IfReduces(fe, s);
  }

  lemma {:induction false} ElseArmRel(fe: FunEnv, t: Syn, h: State, r: State, v: St, q: nat, m: Target)
    requires Whole(t) && t.instr.IfElse? && |t.kids| == 3 && Distinct(h) && Distinct(r) && Rel(r, v)
    requires |r.stack| == q + 1 && !IsDepth(h, q)
    requires Away(h, r, q) && MeetAt(h, r, q, m) && r.cur >= |h.zone| && r.stack[q].instr.IfElse?
    requires |r.stack[q].kids| == 2
    requires r.ifs == h.ifs + [IfEnv(|h.zone|, h.cur)]
    ensures Finishes(h, q, RunChildren(fe, t, 2, r), ElseArm(fe, t, v, m))
    decreases t, 0
  {
    hide Run, RunTree, KeptBut, Distinct, Rel, Reduce, MergeInto, MergeIntoProduction;
    assert !IsDepth(r, q) by { Unchanged(h, r.(cur := h.cur, ifs := h.ifs), q); }
    RunTreeRel(fe, t.kids[2], r, v);
    var w := Run(fe, t.kids[2], v);
    if w.Ok? {
      var TOk(s2, tree) := RunTree(fe, t.kids[2], r);
      HungRel(r, q, s2, tree, w.s);
      var h2 := Hang(s2, tree);
      AwayRun(h, r, h2, q);
      assert |h2.zone| >= |r.zone| by { Unchanged(r, h2, q); }
      assert h.cur < |h.zone| by { CurOk(h); }
      MeetRel(fe, h, h2, w.s, q, m, tree, h.cur);
      ElseReduce(fe, h2);
      assert Attach(fe, s2, tree) == Reduce(fe, h2);
      var s3 := MergeIntoProduction(fe, h2, q, h.cur, tree).(cur := h.cur);
      assert h2.ifs[..|h2.ifs| - 1] == h.ifs;
      PutBack(h, s3, q, MergeInto(fe, w.s.g, w.s.cur, m, w.ty, w.node).0, w.s.blocks, w.s.log);
    }
  }

  lemma PutBack(h: State, s: State, q: nat, g: seq<Node>, blocks: seq<Target>, log: Log)
    requires Away(h, s, q) && s.cur == h.cur < |s.zone| && Rel(s, St(g, s.zone[s.cur], blocks, log))
    ensures KeptBut(h, s.(ifs := h.ifs), q) && Rel(s.(ifs := h.ifs), St(g, s.zone[s.cur], blocks, log))
    ensures |h.stack| == |s.stack|
  {
    var s' := s.(ifs := h.ifs);
    assert s.(cur := h.cur, ifs := h.ifs) == s';
    forall i | 0 <= i < |s'.blocks| ensures BlockRel(s', s'.blocks[i], blocks[i]) {
      assert BlockRel(s, s.blocks[i], blocks[i]);
    }
  }

  /** Both arms of an if-else. */
  lemma {:induction false} ElseRestRel(fe: FunEnv, t: Syn, h: State, v: St, q: nat)
    requires Whole(t) && t.instr.IfElse? && |t.kids| == 3 && Distinct(h) && Rel(h, v) && |h.stack| == q + 1
    requires !IsDepth(h, q)
    requires h.stack[q].instr.IfElse? && |h.stack[q].kids| == 1 && h.stack[q].ty == End && h.stack[q].node == 0
    ensures var r := ReduceIfElse(fe, h);
      r.Next? && Finishes(h, q, RunChildren(fe, t, 1, r.s), ElseRest(fe, t, v, h.stack[q].kids[0].node))
    decreases t, 1
  {
    hide Run, RunTree, KeptBut, Distinct, Rel, ReduceIfElse, Reduce, BuildBranch, MergeInto, MergeIntoProduction,
         Split, Stolen, NewTarget, ElseArm, Finishes;
    ElseOpenRel(fe, h, v, q);
    var (g, tc, fc) := ElseForks(v.g, v.cur, h.stack[q].kids[0].node);
    var vB := St(g, Stolen(v.cur).(control := tc), v.blocks, v.log);
    var r := ReduceIfElse(fe, h).s;
    assert !IsDepth(r, q) by { Unchanged(h, r.(cur := h.cur, ifs := h.ifs), q); }
    RunTreeRel(fe, t.kids[1], r, vB);
    var w := Run(fe, t.kids[1], vB);
    if w.Ok? {
      var TOk(s2, tree) := RunTree(fe, t.kids[1], r);
      HungRel(r, q, s2, tree, w.s);
      var h2 := Hang(s2, tree);
      AwayRun(h, r, h2, q);
      assert |h2.zone| >= |r.zone| by { Unchanged(r, h2, q); }
      assert h.cur < |h.zone| by { CurOk(h); }
      MeetRel(fe, h, h2, w.s, q, NewTarget(v.cur), tree, |h.zone|);
      ElseReduce(fe, h2);
      assert Attach(fe, s2, tree) == Reduce(fe, h2);
      var s3 := MergeIntoProduction(fe, h2, q, h.cur, tree).(cur := |h.zone|);
      var (g2, m2) := MergeInto(fe, w.s.g, w.s.cur, NewTarget(v.cur), w.ty, w.node);
      ElseArmRel(fe, t, h, s3, St(g2, Split(v.cur).(control := fc), w.s.blocks, w.s.log), q, m2);
    } else {
      FinishesErr(h, q, w.stray);
    }
  }

  lemma FinishesErr(h: State, q: nat, b: bool)
    ensures Finishes(h, q, Fail(b), Err(b))
  {
  }

  lemma {:induction false} IfElseRel(fe: FunEnv, t: Syn, s: State, v: St)
    requires Whole(t) && Distinct(s) && Rel(s, v) && |t.kids| == Arity(fe, t.instr) && t.instr.IfElse?
    ensures TreeRel(s, RunTree(fe, t, s), Run(fe, t, v))
    decreases t, 2
  {
    hide Run, KeptBut, Distinct, Rel, Reduce, ReduceIfElse, KidOk, ElseRest;
    var p := Production(t.instr, t.pc, t.len, InitialType(fe, t.instr), 0, []);
    var s1 := s.(stack := s.stack + [p]);
    var q := |s.stack|;
    ShiftRel(fe, t, s, v);
    IfElseIsRest(fe, t, v);
    RunTreeRel(fe, t.kids[0], s1, v);
    var w := Run(fe, t.kids[0], v);
    if w.Ok? {
      var TOk(s2, tree) := RunTree(fe, t.kids[0], s1);
      HungRel(s1, q, s2, tree, w.s);
      var h := Hang(s2, tree);
      IfReduces(fe, h);
      assert Attach(fe, s2, tree) == Reduce(fe, h);
      if KidOk(fe, IfElse, 0, w.ty) {
        ElseRestRel(fe, t, h, w.s, q);
        var r := RunChildren(fe, t, 1, ReduceIfElse(fe, h).s);
        FinishesFrom(s1, h, q, r, Run(fe, t, v));
        if Run(fe, t, v).Ok? { PopRel(s, p, s1, r.s, Run(fe, t, v).s); }
      }
    }
  }
}
