/** SSA construction preserves meaning: whatever the interpreter does with a tree, the finished graph
    does too, along the control edges that are taken. */
module SsaMeaning {
  import opened Syntax
  import opened Graph
  import opened Interp
  import opened Ssa
  import opened SsaInvariant
  import opened SsaRun

  /** Evidence for one execution: the moves made, the phi values and the control node then, the nodes
      that flow into a branch target, and the node that ends the function. */
  datatype Wit = Wit(path: seq<Hop>, val: seq<Val>, c: nat, src: seq<nat>, end: nat)

  /** The run of graph G stands at environment e with the locals and world of st. */
  predicate StandsAt(G: seq<Node>, sem: Sem, val: seq<Val>, e: Env, st: seq<Val>)
    requires GraphOk(G) && |val| == |G|
  {
    e.Go() && Evals(G, sem, val, e.slots) == st
  }

  /** Control c, carrying store st and value v, is about to flow into block entry t. */
  ghost predicate Arrives(G: seq<Node>, sem: Sem, val: seq<Val>, g: seq<Node>, t: Target, c: nat, src: seq<nat>,
      v: Val, st: seq<Val>)
    requires GraphOk(G) && |val| == |G|
  {
    && SourceOf(g, t, c, src) && |src| == |st| + 1
    && Evals(G, sem, val, src[..|st|]) == st
    && (IsValue(t.ty) ==> Eval(G, sem, val, src[|st|]) == v)
  }

  /** The node at `end` ends the function in control c the way o says. */
  predicate Ends(fe: FunEnv, G: seq<Node>, sem: Sem, val: seq<Val>, c: nat, end: nat, o: Out)
    requires GraphOk(G) && |val| == |G|
  {
    && end < |G|
    && match G[end]
       case Ret(n, e, control) =>
         o.Done? && control == c && Eval(G, sem, val, e) == o.w && (IsValue(fe.ret) ==> Eval(G, sem, val, n) == o.v)
       case Check(op, args, e, control) =>
         o.Trap? && control == c && sem.traps(op, Evals(G, sem, val, args)) && Eval(G, sem, val, e) == o.w
       case Dead(e, control) =>
         o.Trap? && control == c && Eval(G, sem, val, e) == o.w
       case _ => false
  }

  /** From control c0 and phi values val0 the graph does what outcome o says, other than coming out
      of the tree normally. `g`, `blocks` and `gone` are those after the tree. */
  ghost predicate Leaves(fe: FunEnv, sem: Sem, G: seq<Node>, c0: nat, val0: seq<Val>, bound: nat, g: seq<Node>,
      blocks: seq<Target>, gone: set<nat>, o: Out, w: Wit)
    requires GraphOk(G) && |val0| == |G|
  {
    && Walk(G, sem, c0, val0, w.path) == Some((w.c, w.val)) && Agree(val0, w.val, bound)
    && (o.Brk? ==> o.depth < |blocks| && Arrives(G, sem, w.val, g, blocks[At(blocks, o.depth)], w.c, w.src, o.v, o.st))
    && (o.Done? || o.Trap? ==> Ends(fe, G, sem, w.val, w.c, w.end, o))
    && (o.Fuel? ==> |w.path| >= o.laps)
    && (o.Lost? ==> w.c in gone)
  }

  /** The graph does what outcome o of a tree says. */
  ghost predicate Sims(fe: FunEnv, sem: Sem, G: seq<Node>, c0: nat, val0: seq<Val>, bound: nat, r: Res, o: Out, w: Wit)
    requires GraphOk(G) && |val0| == |G| && r.Ok?
  {
    if o.Norm? then
      && Walk(G, sem, c0, val0, w.path) == Some((w.c, w.val)) && Agree(val0, w.val, bound)
      && StandsAt(G, sem, w.val, r.s.cur, o.st) && w.c == r.s.cur.control
      && (IsValue(r.ty) ==> Eval(G, sem, w.val, r.node) == o.v)
    else Leaves(fe, sem, G, c0, val0, bound, r.s.g, r.s.blocks, r.s.log.gone, o, w)
  }

  ghost predicate SimsKids(fe: FunEnv, sem: Sem, G: seq<Node>, c0: nat, val0: seq<Val>, bound: nat, k: Kids, o: Outs,
      w: Wit)
    requires GraphOk(G) && |val0| == |G| && k.KOk?
  {
    match o
    case Vals(vs, st) =>
      && Walk(G, sem, c0, val0, w.path) == Some((w.c, w.val)) && Agree(val0, w.val, bound)
      && StandsAt(G, sem, w.val, k.s.cur, st) && w.c == k.s.cur.control
      && |vs| == |k.tys| == |k.nodes|
      && (forall j :: 0 <= j < |vs| ==> IsValue(k.tys[j]) ==> Eval(G, sem, w.val, k.nodes[j]) == vs[j])
    case Stop(out) => !out.Norm? && Leaves(fe, sem, G, c0, val0, bound, k.s.g, k.s.blocks, k.s.log.gone, out, w)
  }

  /** The starting point of the simulation. */
  predicate Ready(fe: FunEnv, sem: Sem, G: seq<Node>, s: St, val: seq<Val>, st: seq<Val>) {
    Inv(fe, s) && GraphOk(G) && |val| == |G| && StandsAt(G, sem, val, s.cur, st) && |st| == |fe.locals| + 1
  }

  /** A branch under way is not disturbed by what is decoded later. */
  lemma LeavesSteps(fe: FunEnv, sem: Sem, G: seq<Node>, c0: nat, val0: seq<Val>, bound: nat, s: St, s': St, o: Out,
      w: Wit)
    requires GraphOk(G) && |val0| == |G| && !o.Norm?
    requires Leaves(fe, sem, G, c0, val0, bound, s.g, s.blocks, s.log.gone, o, w) && Steps(s, s')
    ensures Leaves(fe, sem, G, c0, val0, bound, s'.g, s'.blocks, s'.log.gone, o, w)
  {
    if o.Brk? {
      var i := At(s.blocks, o.depth);
      assert Evolves(s.g, s.blocks[i], s'.g, s'.blocks[i]);
    }
  }

  /** Moves made before. */
  lemma LeavesAfter(fe: FunEnv, sem: Sem, G: seq<Node>, c0: nat, val0: seq<Val>, p: seq<Hop>, c1: nat, val1: seq<Val>,
      bound: nat, bound1: nat, g: seq<Node>, blocks: seq<Target>, gone: set<nat>, o: Out, w: Wit)
    requires GraphOk(G) && |val0| == |G| && !o.Norm?
    requires Walk(G, sem, c0, val0, p) == Some((c1, val1)) && Agree(val0, val1, bound) && bound <= bound1
    requires Leaves(fe, sem, G, c1, val1, bound1, g, blocks, gone, o, w)
    ensures Leaves(fe, sem, G, c0, val0, bound, g, blocks, gone, o, w.(path := p + w.path))
  {
    WalkOn(G, sem, c0, val0, p, w.path);
  }

  lemma SimsAfter(fe: FunEnv, sem: Sem, G: seq<Node>, c0: nat, val0: seq<Val>, p: seq<Hop>, c1: nat, val1: seq<Val>,
      bound: nat, bound1: nat, r: Res, o: Out, w: Wit)
    requires GraphOk(G) && |val0| == |G| && r.Ok?
    requires Walk(G, sem, c0, val0, p) == Some((c1, val1)) && Agree(val0, val1, bound) && bound <= bound1
    requires Sims(fe, sem, G, c1, val1, bound1, r, o, w)
    ensures Sims(fe, sem, G, c0, val0, bound, r, o, w.(path := p + w.path))
  {
    WalkOn(G, sem, c0, val0, p, w.path);
    if !o.Norm? {
      LeavesAfter(fe, sem, G, c0, val0, p, c1, val1, bound, bound1, r.s.g, r.s.blocks, r.s.log.gone, o, w);
    }
  }

  /** Everything decoded later only adds. */
  lemma RestSteps(fe: FunEnv, t: Syn, i: nat, s: St)
    requires i <= |t.kids| && (s.cur.Go() ==> Inv(fe, s)) && RunKids(fe, t, i, s).KOk?
    ensures Steps(s, RunKids(fe, t, i, s).s)
  {
    if s.cur.Go() {
      RunKidsOk(fe, t, i, s);
    } else {
      RunKidsDead(fe, t, i, s);
      StepsRefl(s);
    }
  }

  /** Entering a block entry through one of its sources. */
  lemma Enters(fe: FunEnv, sem: Sem, G: seq<Node>, g: seq<Node>, t: Target, c: nat, src: seq<nat>, val: seq<Val>)
    returns (path: seq<Hop>, val': seq<Val>)
    requires GraphOk(G) && |val| == |G| && Ext(g, G) && TargetOk(fe, g, t) && SourceOf(g, t, c, src)
    ensures Walk(G, sem, c, val, path) == Some((t.env.control, val'))
    ensures |Nodes(t)| <= |src| && Evals(G, sem, val', Nodes(t)) == Evals(G, sem, val, src[..|Nodes(t)|])
    ensures if t.env.state.Merged? then Agree(val, val', t.env.control) && |path| > 0 else val' == val
  {
    if t.env.state.Reached? {
      path, val' := [], val;
      assert src[..|Nodes(t)|] == Nodes(t);
    } else {
      var m := t.env.control;
      var k: nat :| OnEdge(g, t, c, src, k);
      assert NodeExt(g[m], G[m]);
      path, val' := [Enter(m, k)], TakeEdge(G, sem, val, m, k);
      assert path[1..] == [];
      forall i | 0 <= i < m && i < |G| ensures val[i] == val'[i] {
        assert NodeOk(G[i], i);
      }
      forall i | 0 <= i < |Nodes(t)| ensures Eval(G, sem, val', Nodes(t)[i]) == Eval(G, sem, val, src[i]) {
        var n := Nodes(t)[i];
        assert Lined(g, m, n, |g[m].inputs|);
        assert Pick(g, n, m, k) == src[i];
        assert NodeExt(g[n], G[n]);
        if !IsPhiOn(g, n, m) {
          EvalAgree(G, sem, val, val', n, m);
        }
      }
    }
  }

  lemma EvalOfApp(G: seq<Node>, sem: Sem, val: seq<Val>, n: nat)
    requires GraphOk(G) && |val| == |G| && n < |G|
    ensures G[n].App? ==> Eval(G, sem, val, n) == sem.app(G[n].op, Evals(G, sem, val, G[n].args))
    ensures G[n].World? ==> Eval(G, sem, val, n) == sem.world(G[n].op, Evals(G, sem, val, G[n].args))
  {
    assert NodeOk(G[n], n);
    if G[n].App? || G[n].World? {
      EvalBelowIsEvals(G, sem, val, G[n].args, n);
    }
  }

  lemma ExtKeeps(g: seq<Node>, G: seq<Node>, i: nat)
    requires Ext(g, G) && i < |g| && !IsMerge(g[i]) && !g[i].Phi?
    ensures G[i] == g[i]
  {
    assert NodeExt(g[i], G[i]);
  }

  lemma EvalsLast(G: seq<Node>, sem: Sem, val: seq<Val>, ns: seq<nat>, n: nat)
    requires GraphOk(G) && |val| == |G|
    ensures Evals(G, sem, val, ns + [n]) == Evals(G, sem, val, ns) + [Eval(G, sem, val, n)]
  {
  }

  /** Where BuildOp puts its nodes. */
  predicate OpShape(G: seq<Node>, c0: nat, e0: Env, op: Op, args: seq<nat>, xs: seq<nat>, e: Env, n: nat) {
    && |e0.slots| > 0
    && (if op.traps then e.control < |G| && G[e.control] == Check(op, xs, e0.slots[|e0.slots| - 1], c0)
        else e.control == c0)
    && (if op.store then |args| > 0 && n == args[|args| - 1] else n < |G| && G[n] == App(op, xs))
    && |e.slots| == |e0.slots| && e.slots[..|e0.slots| - 1] == e0.slots[..|e0.slots| - 1]
    && var y := e.slots[|e0.slots| - 1];
       if op.effect then y < |G| && G[y] == World(op, xs) else y == e0.slots[|e0.slots| - 1]
  }

  function OpArgs(e0: Env, op: Op, args: seq<nat>): seq<nat>
    requires |e0.slots| > 0
  {
    if op.effect then args + [e0.slots[|e0.slots| - 1]] else args
  }

  lemma OpNodes(G: seq<Node>, g0: seq<Node>, e0: Env, op: Op, args: seq<nat>)
    requires |e0.slots| > 0 && |args| == |op.params| && Ext(BuildOp(g0, e0, op, args).0, G)
    ensures var (g, e, n) := BuildOp(g0, e0, op, args);
      OpShape(G, e0.control, e0, op, args, OpArgs(e0, op, args), e, n) && e.state == e0.state
  {
    var (g, e, n) := BuildOp(g0, e0, op, args);
    if op.traps { ExtKeeps(g, G, |g0|); }
    if !op.store { ExtKeeps(g, G, n); }
    if op.effect { ExtKeeps(g, G, |g| - 1); }
  }

  lemma OpValues(sem: Sem, G: seq<Node>, e0: Env, op: Op, args: seq<nat>, e: Env, n: nat, vs: seq<Val>, val: seq<Val>,
      st: seq<Val>)
    requires GraphOk(G) && |val| == |G| && StandsAt(G, sem, val, e0, st) && |st| > 0
    requires Evals(G, sem, val, args) == vs
    requires OpShape(G, e0.control, e0, op, args, OpArgs(e0, op, args), e, n)
    ensures Evals(G, sem, val, OpArgs(e0, op, args)) == Operands(op, vs, st)
    ensures var xs := Operands(op, vs, st);
      && Evals(G, sem, val, e.slots) == (if op.effect then st[|st| - 1 := sem.world(op, xs)] else st)
      && Eval(G, sem, val, n) == (if op.store then Last(sem, vs) else sem.app(op, xs))
  {
    EvalsLast(G, sem, val, args, e0.slots[|e0.slots| - 1]);
    if !op.store { EvalOfApp(G, sem, val, n); }
    if op.effect { EvalOfApp(G, sem, val, e.slots[|st| - 1]); }
    var a := Evals(G, sem, val, e.slots);
    forall i | 0 <= i < |st| - 1 ensures a[i] == st[i] {
      assert e.slots[i] == e.slots[..|st| - 1][i] == e0.slots[..|st| - 1][i] == e0.slots[i];
      assert Evals(G, sem, val, e0.slots)[i] == st[i];
    }
  }

  lemma WalkNone(G: seq<Node>, sem: Sem, val: seq<Val>, c: nat)
    requires GraphOk(G) && |val| == |G|
    ensures Walk(G, sem, c, val, []) == Some((c, val)) && Agree(val, val, |G|)
  {
  }

  /** Control passes a check that does not trap. */
  lemma WalkCheck(G: seq<Node>, sem: Sem, val: seq<Val>, c: nat, n: nat)
    requires GraphOk(G) && |val| == |G| && n < |G| && G[n].Check? && G[n].control == c
    requires !sem.traps(G[n].op, Evals(G, sem, val, G[n].args))
    ensures Walk(G, sem, c, val, [Take(n)]) == Some((n, val))
  {
    hide Eval;
    assert [Take(n)][1..] == [];
    WalkNone(G, sem, val, n);
  }

  /** An operator node computes what the operator means. */
  lemma SimOp(fe: FunEnv, sem: Sem, G: seq<Node>, s: St, op: Op, args: seq<nat>, vs: seq<Val>, val: seq<Val>,
      st: seq<Val>) returns (w: Wit)
    requires Ready(fe, sem, G, s, val, st) && |args| == |op.params|
    requires Evals(G, sem, val, args) == vs
    requires Ext(BuildOp(s.g, s.cur, op, args).0, G)
    ensures var (g, e, n) := BuildOp(s.g, s.cur, op, args);
      Sims(fe, sem, G, s.cur.control, val, |s.g|, Ok(St(g, e, s.blocks, s.log), op.result, n),
          ApplyOp(sem, op, vs, st), w)
  {
    hide BuildOp, Eval, GraphOk, Ext, Inv, Walk;
    var (g, e, n) := BuildOp(s.g, s.cur, op, args);
    OpNodes(G, s.g, s.cur, op, args);
    OpValues(sem, G, s.cur, op, args, e, n, vs, val, st);
    WalkNone(G, sem, val, s.cur.control);
    if op.traps && sem.traps(op, Operands(op, vs, st)) {
      var slots := s.cur.slots;
      assert Evals(G, sem, val, slots)[|slots| - 1] == st[|st| - 1];
      w := Wit([], val, s.cur.control, [], e.control);
    } else {
      if op.traps { WalkCheck(G, sem, val, s.cur.control, e.control); }
      w := Wit(if op.traps then [Take(e.control)] else [], val, e.control, [], 0);
    }
  }

  /** Taking one projection of a branch. */
  lemma SimBranch(sem: Sem, G: seq<Node>, g0: seq<Node>, c: nat, cond: nat, val: seq<Val>)
    requires GraphOk(G) && |val| == |G| && Ext(BuildBranch(g0, c, cond).0, G)
    ensures var (g, tc, fc) := BuildBranch(g0, c, cond);
      var yes := sem.truth(Eval(G, sem, val, cond));
      Walk(G, sem, c, val, [Take(if yes then tc else fc)]) == Some((if yes then tc else fc, val))
  {
    var (g, tc, fc) := BuildBranch(g0, c, cond);
    ExtKeeps(g, G, |g0|);
    ExtKeeps(g, G, tc);
    ExtKeeps(g, G, fc);
    assert [Take(tc)][1..] == [] && [Take(fc)][1..] == [];
  }

  /** The children of a block are decoded and its entry, made when the graph had `bound` nodes, can
      be left. */
  ghost predicate Leavable(fe: FunEnv, G: seq<Node>, k: Kids, bound: nat) {
    && k.KOk? && Inv(fe, k.s) && |k.s.blocks| > 0 && 0 < |k.tys| == |k.nodes|
    && Typed(k.s, k.tys[|k.tys| - 1], k.nodes[|k.nodes| - 1])
    && LeaveTarget(fe, k).Ok? && Ext(LeaveTarget(fe, k).s.g, G)
    && bound <= |k.s.g|
    && var t := k.s.blocks[|k.s.blocks| - 1]; !t.cont && (t.env.state.Merged? ==> t.env.control >= bound)
  }

  /** The entry as it is left: t' in graph g'. */
  ghost predicate Left(fe: FunEnv, G: seq<Node>, k: Kids, bound: nat, g': seq<Node>, t': Target) {
    && k.KOk? && |k.s.blocks| > 0 && 0 < |k.tys| == |k.nodes|
    && var last := |k.s.blocks| - 1;
    && LeaveTarget(fe, k) == Ok(St(g', t'.env, k.s.blocks[..last], k.s.log), t'.ty, t'.node)
    && Ext(g', G) && TargetOk(fe, g', t') && (t'.env.state.Merged? ==> t'.env.control >= bound)
    && Evolves(k.s.g, k.s.blocks[last], g', t')
    && (k.s.cur.Go() ==> Merges(fe, k.s.g, k.s.cur, k.s.blocks[last], k.tys[|k.tys| - 1], k.nodes[|k.nodes| - 1], g',
      t'))
    && forall i :: 0 <= i < last ==> Evolves(k.s.g, k.s.blocks[i], g', k.s.blocks[i])
  }

  lemma LeaveStatic(fe: FunEnv, G: seq<Node>, k: Kids, bound: nat) returns (g': seq<Node>, t': Target)
    requires Leavable(fe, G, k, bound)
    ensures Left(fe, G, k, bound, g', t')
  {
    var last := |k.s.blocks| - 1;
    var t := k.s.blocks[last];
    var ty, node := k.tys[|k.tys| - 1], k.nodes[|k.nodes| - 1];
    var r := MergeInto(fe, k.s.g, k.s.cur, t, ty, node);
    g', t' := r.0, r.1;
    assert TargetOk(fe, k.s.g, t);
    if k.s.cur.Go() {
      BlocksMerge(fe, k.s.g, k.s.blocks, last, k.s.cur, ty, node);
      assert forall i :: 0 <= i < last ==> k.s.blocks[last := t'][i] == k.s.blocks[i];
    } else {
      BlocksGrow(fe, k.s.g, k.s.g, k.s.blocks);
    }
  }

  /** Leaving the innermost block entry: by falling out of it or by a branch to it. */
  lemma SimLeave(fe: FunEnv, sem: Sem, G: seq<Node>, c0: nat, val0: seq<Val>, bound: nat, k: Kids, o: Outs, w: Wit)
    returns (w': Wit)
    requires GraphOk(G) && |val0| == |G| && Leavable(fe, G, k, bound)
    requires SimsKids(fe, sem, G, c0, val0, bound, k, o, w)
    requires o.Vals? ==> |o.st| == |fe.locals| + 1
    requires o.Stop? && o.out.Brk? ==> |o.out.st| == |fe.locals| + 1
    ensures Sims(fe, sem, G, c0, val0, bound, LeaveTarget(fe, k), LeaveBlock(BodyOut(sem, o)), w')
  {
    var g', t' := LeaveStatic(fe, G, k, bound);
    if o.Vals? {
      w' := SimFall(fe, sem, G, c0, val0, bound, k, o, w, g', t');
    } else if o.out.Brk? && o.out.depth == 0 {
      w' := SimEnter(fe, sem, G, c0, val0, bound, w, g', t', w.c, w.src, o.out.v, o.out.st);
    } else {
      w' := w;
      LeaveOuter(fe, sem, G, c0, val0, bound, k, o.out, w, g', t');
    }
  }

  function BodyOut(sem: Sem, o: Outs): Out {
    if o.Vals? then Norm(Last(sem, o.vs), o.st) else o.out
  }

  /** Control falls out of the last tree of a block. */
  lemma SimFall(fe: FunEnv, sem: Sem, G: seq<Node>, c0: nat, val0: seq<Val>, bound: nat, k: Kids, o: Outs, w: Wit,
      g': seq<Node>, t': Target) returns (w': Wit)
    requires GraphOk(G) && |val0| == |G| && Left(fe, G, k, bound, g', t')
    requires SimsKids(fe, sem, G, c0, val0, bound, k, o, w) && o.Vals? && |o.st| == |fe.locals| + 1
    ensures Sims(fe, sem, G, c0, val0, bound, LeaveTarget(fe, k), BodyOut(sem, o), w')
  {
    var src := k.s.cur.slots + [k.nodes[|k.nodes| - 1]];
    assert src[..|o.st|] == k.s.cur.slots;
    w' := SimEnter(fe, sem, G, c0, val0, bound, w, g', t', w.c, src, Last(sem, o.vs), o.st);
  }

  /** Any other outcome passes through the end of a block. */
  lemma LeaveOuter(fe: FunEnv, sem: Sem, G: seq<Node>, c0: nat, val0: seq<Val>, bound: nat, k: Kids, o: Out, w: Wit,
      g': seq<Node>, t': Target)
    requires GraphOk(G) && |val0| == |G| && Left(fe, G, k, bound, g', t') && !o.Norm? && (o.Brk? ==> o.depth > 0)
    requires Leaves(fe, sem, G, c0, val0, bound, k.s.g, k.s.blocks, k.s.log.gone, o, w)
    ensures Leaves(fe, sem, G, c0, val0, bound, g', k.s.blocks[..|k.s.blocks| - 1], k.s.log.gone, LeaveBlock(o), w)
  {
    hide Walk, Ends, Eval, OnEdge, GraphOk, Agree;
    if o.Brk? {
      var i := At(k.s.blocks, o.depth);
      assert Evolves(k.s.g, k.s.blocks[i], g', k.s.blocks[i]);
    }
  }

  /** After the moves of w, flow into block entry t and stand there. */
  lemma SimEnter(fe: FunEnv, sem: Sem, G: seq<Node>, c0: nat, val0: seq<Val>, bound: nat, w: Wit, g: seq<Node>,
      t: Target, c: nat, src: seq<nat>, v: Val, st: seq<Val>) returns (w': Wit)
    requires GraphOk(G) && |val0| == |G| && Ext(g, G) && TargetOk(fe, g, t)
    requires Walk(G, sem, c0, val0, w.path) == Some((c, w.val)) && Agree(val0, w.val, bound)
    requires Arrives(G, sem, w.val, g, t, c, src, v, st) && |st| == |fe.locals| + 1
    requires t.env.state.Merged? ==> t.env.control >= bound
    ensures Walk(G, sem, c0, val0, w'.path) == Some((w'.c, w'.val)) && Agree(val0, w'.val, bound)
    ensures w'.c == t.env.control && StandsAt(G, sem, w'.val, t.env, st)
    ensures IsValue(t.ty) ==> Eval(G, sem, w'.val, t.node) == v
    ensures t.env.state.Merged? ==> |w'.path| > 0
  {
    var path, val' := Enters(fe, sem, G, g, t, c, src, w.val);
    WalkOn(G, sem, c0, val0, w.path, path);
    w' := Wit(w.path + path, val', t.env.control, [], 0);
    var ns := Nodes(t);
    var a, b := Evals(G, sem, val', ns), Evals(G, sem, w.val, src[..|ns|]);
    forall i | 0 <= i < |st| ensures Eval(G, sem, val', t.env.slots[i]) == st[i] {
      assert ns[i] == t.env.slots[i] && a[i] == b[i];
      assert Evals(G, sem, w.val, src[..|st|])[i] == st[i];
    }
    if IsValue(t.ty) {
      assert ns[|st|] == t.node && a[|st|] == b[|st|];
    }
  }

  /** Main theorem: the graph built for a tree does what the interpreter does with the tree. */
  lemma {:induction false} Sim(fe: FunEnv, sem: Sem, t: Syn, s: St, st: seq<Val>, fuel: nat, G: seq<Node>,
      val: seq<Val>) returns (w: Wit)
    requires Ready(fe, sem, G, s, val, st) && Run(fe, t, s).Ok? && Ext(Run(fe, t, s).s.g, G)
    ensures Sims(fe, sem, G, s.cur.control, val, |s.g|, Run(fe, t, s), Exec(fe, sem, t, st, fuel), w)
    decreases fuel, t, 3
  {
    w := Wit([], val, s.cur.control, [], |s.g|);
    match t.instr
    case Nop =>
    case Unreachable => ExtKeeps(Run(fe, t, s).s.g, G, |s.g|);
    case Const(_, _) => ExtKeeps(Run(fe, t, s).s.g, G, |s.g|);
    case GetLocal(i) => assert Evals(G, sem, val, s.cur.slots)[i] == st[i];
    case SetLocal(i) => w := SimSetLocal(fe, sem, t, i, s, st, fuel, G, val);
    case Apply(op) => w := SimApply(fe, sem, t, op, s, st, fuel, G, val);
    case Return => w := SimReturn(fe, sem, t, s, st, fuel, G, val);
    case Br(d) => w := SimBr(fe, sem, t, d, s, st, fuel, G, val);
    case BrIf(d) => w := SimBrIf(fe, sem, t, d, s, st, fuel, G, val);
    case Select => w := SimSelect(fe, sem, t, s, st, fuel, G, val);
    case If => w := SimIf(fe, sem, t, s, st, fuel, G, val);
    case IfElse => w := SimIfElse(fe, sem, t, s, st, fuel, G, val);
    case Block(_) => w := SimBlock(fe, sem, t, s, st, fuel, G, val);
    case Loop(_) => w := SimLoop(fe, sem, t, s, st, fuel, G, val);
    case Cut(_, _) => w := SimCut(fe, sem, t, s, st, fuel, G, val);
  }

  /** Where the code ends, control stays behind. */
  lemma {:induction false} SimCut(fe: FunEnv, sem: Sem, t: Syn, s: St, st: seq<Val>, fuel: nat, G: seq<Node>,
      val: seq<Val>) returns (w: Wit)
    requires t.instr.Cut? && Ready(fe, sem, G, s, val, st) && Run(fe, t, s).Ok? && Ext(Run(fe, t, s).s.g, G)
    ensures Sims(fe, sem, G, s.cur.control, val, |s.g|, Run(fe, t, s), Exec(fe, sem, t, st, fuel), w)
    decreases fuel, t, 2
  {
    hide Walk, Ext;
    var k := RunKids(fe, t, 0, s);
    w := SimKids(fe, sem, t, 0, s, st, fuel, G, val);
    var o := ExecKids(fe, sem, t, 0, st, fuel);
    if o.Stop? {
      StepsRefl(k.s);
      LeavesSteps(fe, sem, G, s.cur.control, val, |s.g|, k.s, Run(fe, t, s).s, o.out, w);
    }
  }

  lemma {:induction false} SimKids(fe: FunEnv, sem: Sem, t: Syn, i: nat, s: St, st: seq<Val>, fuel: nat, G: seq<Node>,
      val: seq<Val>) returns (w: Wit)
    requires i <= |t.kids| && Ready(fe, sem, G, s, val, st) && RunKids(fe, t, i, s).KOk?
    requires Ext(RunKids(fe, t, i, s).s.g, G)
    ensures SimsKids(fe, sem, G, s.cur.control, val, |s.g|, RunKids(fe, t, i, s), ExecKids(fe, sem, t, i, st, fuel), w)
    decreases fuel, t, 0, |t.kids| - i
  {
    if i == |t.kids| {
      w := Wit([], val, s.cur.control, [], 0);
    } else {
      var Ok(s1, ty, node) := Run(fe, t.kids[i], s);
      var k1 := RunKids(fe, t, i + 1, s1);
      RunOk(fe, t.kids[i], s);
      RestSteps(fe, t, i + 1, s1);
      ExtTrans(s1.g, k1.s.g, G);
      w := Sim(fe, sem, t.kids[i], s, st, fuel, G, val);
      var o := Exec(fe, sem, t.kids[i], st, fuel);
      if o.Norm? {
        var w1 := SimKids(fe, sem, t, i + 1, s1, o.st, fuel, G, w.val);
        w := KidsAfter(fe, sem, G, s, val, w, s1, ty, node, o.v, k1, ExecKids(fe, sem, t, i + 1, o.st, fuel), w1);
      } else {
        LeavesSteps(fe, sem, G, s.cur.control, val, |s.g|, s1, k1.s, o, w);
      }
    }
  }

  /** One child, then the rest. */
  lemma KidsAfter(fe: FunEnv, sem: Sem, G: seq<Node>, s: St, val: seq<Val>, w: Wit, s1: St, ty: LocalType, node: nat,
      v: Val, k1: Kids, o1: Outs, w1: Wit) returns (w': Wit)
    requires GraphOk(G) && |val| == |G| && k1.KOk? && |s.g| <= |s1.g|
    requires Walk(G, sem, s.cur.control, val, w.path) == Some((w.c, w.val)) && Agree(val, w.val, |s.g|)
    requires w.c == s1.cur.control && s1.cur.Go() && Typed(s1, ty, node)
    requires IsValue(ty) ==> Eval(G, sem, w.val, node) == v
    requires SimsKids(fe, sem, G, s1.cur.control, w.val, |s1.g|, k1, o1, w1)
    ensures SimsKids(fe, sem, G, s.cur.control, val, |s.g|, KOk(k1.s, [ty] + k1.tys, [node] + k1.nodes),
                     if o1.Vals? then Vals([v] + o1.vs, o1.st) else o1, w')
  {
    w' := w1.(path := w.path + w1.path);
    if o1.Vals? {
      ValsAfter(fe, sem, G, s, val, w, s1, ty, node, v, k1, o1, w1);
    } else {
      LeavesAfter(fe, sem, G, s.cur.control, val, w.path, w.c, w.val, |s.g|, |s1.g|, k1.s.g, k1.s.blocks,
          k1.s.log.gone, o1.out, w1);
    }
  }

  lemma ValsAfter(fe: FunEnv, sem: Sem, G: seq<Node>, s: St, val: seq<Val>, w: Wit, s1: St, ty: LocalType, node: nat,
      v: Val, k1: Kids, o1: Outs, w1: Wit)
    requires GraphOk(G) && |val| == |G| && k1.KOk? && o1.Vals? && |s.g| <= |s1.g|
    requires Walk(G, sem, s.cur.control, val, w.path) == Some((w.c, w.val)) && Agree(val, w.val, |s.g|)
    requires w.c == s1.cur.control && s1.cur.Go() && Typed(s1, ty, node)
    requires IsValue(ty) ==> Eval(G, sem, w.val, node) == v
    requires SimsKids(fe, sem, G, s1.cur.control, w.val, |s1.g|, k1, o1, w1)
    ensures SimsKids(fe, sem, G, s.cur.control, val, |s.g|, KOk(k1.s, [ty] + k1.tys, [node] + k1.nodes),
                     Vals([v] + o1.vs, o1.st), w1.(path := w.path + w1.path))
  {
    WalkOn(G, sem, s.cur.control, val, w.path, w1.path);
    hide Walk, StandsAt, GraphOk, Eval;
    if IsValue(ty) {
      EvalAgree(G, sem, w.val, w1.val, node, |s1.g|);
    }
  }

  lemma {:induction false} SimSetLocal(fe: FunEnv, sem: Sem, t: Syn, i: nat, s: St, st: seq<Val>, fuel: nat,
      G: seq<Node>, val: seq<Val>) returns (w: Wit)
    requires t.instr == SetLocal(i) && Ready(fe, sem, G, s, val, st) && Run(fe, t, s).Ok? && Ext(Run(fe, t, s).s.g, G)
    ensures Sims(fe, sem, G, s.cur.control, val, |s.g|, Run(fe, t, s), Exec(fe, sem, t, st, fuel), w)
    decreases fuel, t, 2
  {
    var k := RunKids(fe, t, 0, s);
    RunKidsOk(fe, t, 0, s);
    assert KidOk(fe, t.instr, 0 + 0, k.tys[0]);
    w := SimKids(fe, sem, t, 0, s, st, fuel, G, val);
    OneKid(fe, sem, t, st, fuel);
    var o := Exec(fe, sem, t.kids[0], st, fuel);
    if o.Norm? {
      var e' := Run(fe, t, s).s.cur;
      assert Evals(G, sem, w.val, e'.slots) == o.st[i := o.v];
    }
  }

  /** The children of a tree with one child. */
  lemma OneKid(fe: FunEnv, sem: Sem, t: Syn, st: seq<Val>, fuel: nat)
    requires |t.kids| == 1 && |st| == |fe.locals| + 1
    ensures ExecKids(fe, sem, t, 0, st, fuel)
         == (match Exec(fe, sem, t.kids[0], st, fuel) case Norm(v, st1) => Vals([v], st1) case o => Stop(o))
  {
    var o := Exec(fe, sem, t.kids[0], st, fuel);
    if o.Norm? {
      assert ExecKids(fe, sem, t, 1, o.st, fuel) == Vals([], o.st);
    }
  }

  lemma {:induction false} SimApply(fe: FunEnv, sem: Sem, t: Syn, op: Op, s: St, st: seq<Val>, fuel: nat, G: seq<Node>,
      val: seq<Val>) returns (w: Wit)
    requires t.instr == Apply(op) && Ready(fe, sem, G, s, val, st) && Run(fe, t, s).Ok? && Ext(Run(fe, t, s).s.g, G)
    ensures Sims(fe, sem, G, s.cur.control, val, |s.g|, Run(fe, t, s), Exec(fe, sem, t, st, fuel), w)
    decreases fuel, t, 2
  {
    var k := RunKids(fe, t, 0, s);
    RunKidsOk(fe, t, 0, s);
    var r := Run(fe, t, s);
    if k.s.cur.Go() {
      forall j | 0 <= j < |k.nodes| ensures k.nodes[j] < |k.s.g| && IsValue(k.tys[j]) {
        assert KidOk(fe, t.instr, 0 + j, k.tys[j]) && Typed(k.s, k.tys[j], k.nodes[j]);
      }
      BuildOpGood(fe, k.s, op, k.nodes);
      ExtTrans(k.s.g, r.s.g, G);
    }
    w := SimKids(fe, sem, t, 0, s, st, fuel, G, val);
    var o := ExecKids(fe, sem, t, 0, st, fuel);
    if o.Vals? {
      assert Evals(G, sem, w.val, k.nodes) == o.vs;
      var w1 := SimOp(fe, sem, G, k.s, op, k.nodes, o.vs, w.val, o.st);
      SimsAfter(fe, sem, G, s.cur.control, val, w.path, w.c, w.val, |s.g|, |k.s.g|, r, ApplyOp(sem, op, o.vs, o.st),
          w1);
      w := w1.(path := w.path + w1.path);
    } else if k.s.cur.Go() {
      LeavesSteps(fe, sem, G, s.cur.control, val, |s.g|, k.s, r.s, o.out, w);
    }
  }

  lemma ReturnStatic(fe: FunEnv, t: Syn, s: St, G: seq<Node>)
    requires t.instr.Return? && Inv(fe, s) && s.cur.Go() && Run(fe, t, s).Ok? && Ext(Run(fe, t, s).s.g, G)
    ensures var k, r := RunKids(fe, t, 0, s), Run(fe, t, s);
      && k.KOk? && KidsGood(fe, t, 0, s, k) && Ext(k.s.g, G) && Good(fe, k.s, r.s)
      && (k.s.cur.Go() ==>
          && |k.s.cur.slots| == |fe.locals| + 1 && |k.s.g| < |G| && G[|k.s.g|] == r.s.g[|k.s.g|]
          && r.s.g[|k.s.g|] == Ret(if k.nodes == [] then 0 else k.nodes[0], k.s.cur.slots[|fe.locals|], k.s.cur.control)
          && (IsValue(fe.ret) ==> |k.tys| == 1 && IsValue(k.tys[0])))
  {
    hide RunKids;
    var k, r := RunKids(fe, t, 0, s), Run(fe, t, s);
    RunKidsOk(fe, t, 0, s);
    GrowGood(fe, k.s, r.s.g, Kill(ControlEnd));
    ExtTrans(k.s.g, r.s.g, G);
    if k.s.cur.Go() {
      ExtKeeps(r.s.g, G, |k.s.g|);
      if IsValue(fe.ret) {
        assert KidOk(fe, t.instr, 0 + 0, k.tys[0]) && Typed(k.s, k.tys[0], k.nodes[0]);
      }
    }
  }

  lemma {:induction false} SimReturn(fe: FunEnv, sem: Sem, t: Syn, s: St, st: seq<Val>, fuel: nat, G: seq<Node>,
      val: seq<Val>) returns (w: Wit)
    requires t.instr.Return? && Ready(fe, sem, G, s, val, st) && Run(fe, t, s).Ok? && Ext(Run(fe, t, s).s.g, G)
    ensures Sims(fe, sem, G, s.cur.control, val, |s.g|, Run(fe, t, s), Exec(fe, sem, t, st, fuel), w)
    decreases fuel, t, 2
  {
    hide RunKids, ExecKids, Eval, KidOk, Inv, Ext, GraphOk;
    var k := RunKids(fe, t, 0, s);
    var r := Run(fe, t, s);
    ReturnStatic(fe, t, s, G);
    w := SimKids(fe, sem, t, 0, s, st, fuel, G, val);
    var o := ExecKids(fe, sem, t, 0, st, fuel);
    if o.Vals? {
      assert Evals(G, sem, w.val, k.s.cur.slots)[|o.st| - 1] == o.st[|o.st| - 1];
      w := w.(end := |k.s.g|);
    } else {
      LeavesSteps(fe, sem, G, s.cur.control, val, |s.g|, k.s, r.s, o.out, w);
    }
  }

  /** A live environment arrives at the block entry it branches to. */
  lemma SimBreak(fe: FunEnv, sem: Sem, G: seq<Node>, s: St, d: nat, ty: LocalType, node: nat, v: Val, val: seq<Val>,
      st: seq<Val>)
    requires Ready(fe, sem, G, s, val, st) && d < |s.blocks| && !ty.End?
    requires (IsValue(ty) ==> node < |s.g| && Eval(G, sem, val, node) == v)
    ensures var s' := BreakTo(fe, s, d, ty, node);
      && |s'.blocks| == |s.blocks|
      && Arrives(G, sem, val, s'.g, s'.blocks[At(s'.blocks, d)], s.cur.control, s.cur.slots + [node], v, st)
  {
    BreakToGood(fe, s, d, ty, node);
    assert (s.cur.slots + [node])[..|st|] == s.cur.slots;
  }

  lemma {:induction false} SimBr(fe: FunEnv, sem: Sem, t: Syn, d: nat, s: St, st: seq<Val>, fuel: nat, G: seq<Node>,
      val: seq<Val>) returns (w: Wit)
    requires t.instr == Br(d) && Ready(fe, sem, G, s, val, st) && Run(fe, t, s).Ok? && Ext(Run(fe, t, s).s.g, G)
    ensures Sims(fe, sem, G, s.cur.control, val, |s.g|, Run(fe, t, s), Exec(fe, sem, t, st, fuel), w)
    decreases fuel, t, 2
  {
    var k := RunKids(fe, t, 0, s);
    RunKidsOk(fe, t, 0, s);
    var r := Run(fe, t, s);
    assert Typed(k.s, k.tys[0], k.nodes[0]);
    if k.s.cur.Go() {
      BreakToGood(fe, k.s, d, k.tys[0], k.nodes[0]);
      ExtTrans(k.s.g, r.s.g, G);
    }
    w := SimKids(fe, sem, t, 0, s, st, fuel, G, val);
    OneKid(fe, sem, t, st, fuel);
    var o := Exec(fe, sem, t.kids[0], st, fuel);
    if o.Norm? {
      SimBreak(fe, sem, G, k.s, d, k.tys[0], k.nodes[0], o.v, w.val, o.st);
      w := w.(src := k.s.cur.slots + [k.nodes[0]]);
    } else if k.s.cur.Go() {
      LeavesSteps(fe, sem, G, s.cur.control, val, |s.g|, k.s, r.s, o, w);
    }
  }

  /** The graph of a conditional branch: the test, and the break on its true side. */
  lemma BrIfGraph(fe: FunEnv, t: Syn, d: nat, s: St, G: seq<Node>)
    requires t.instr == BrIf(d) && Inv(fe, s) && s.cur.Go() && Run(fe, t, s).Ok? && Ext(Run(fe, t, s).s.g, G)
    ensures var k := RunKids(fe, t, 0, s);
      && KidsGood(fe, t, 0, s, k) && |k.tys| == |k.nodes| == 2 && d < |k.s.blocks|
        && KidOk(fe, t.instr, 0 + 0, k.tys[0])
      && Typed(k.s, k.tys[0], k.nodes[0]) && Typed(k.s, k.tys[1], k.nodes[1])
      && var (g, tc, fc) := BuildBranch(k.s.g, k.s.cur.control, k.nodes[0]);
         k.s.cur.Go() ==>
           && Good(fe, k.s, St(g, Env(Reached, tc, k.s.cur.slots), k.s.blocks, k.s.log))
           && Ext(g, G) && Ext(k.s.g, G) && Steps(k.s, Run(fe, t, s).s)
  {
    hide Ext;
    var k := RunKids(fe, t, 0, s);
    RunKidsOk(fe, t, 0, s);
    assert KidOk(fe, t.instr, 0 + 0, k.tys[0]) && Typed(k.s, k.tys[0], k.nodes[0]) && Typed(k.s, k.tys[1], k.nodes[1]);
    if k.s.cur.Go() {
      var (g, tc, fc) := BuildBranch(k.s.g, k.s.cur.control, k.nodes[0]);
      var s1 := St(g, Env(Reached, tc, k.s.cur.slots), k.s.blocks, k.s.log);
      BranchOk(fe, k.s, k.nodes[0]);
      BreakToGood(fe, s1, d, k.tys[1], k.nodes[1]);
      var s2 := BreakTo(fe, s1, d, k.tys[1], k.nodes[1]);
      ExtTrans(g, s2.g, G);
      ExtTrans(k.s.g, g, G);
      StepsTrans(k.s, s1, s2);
      StepsEnv(k.s, s2, Run(fe, t, s).s.cur);
    }
  }

  lemma {:induction false} SimBrIf(fe: FunEnv, sem: Sem, t: Syn, d: nat, s: St, st: seq<Val>, fuel: nat, G: seq<Node>,
      val: seq<Val>) returns (w: Wit)
    requires t.instr == BrIf(d) && Ready(fe, sem, G, s, val, st) && Run(fe, t, s).Ok? && Ext(Run(fe, t, s).s.g, G)
    ensures Sims(fe, sem, G, s.cur.control, val, |s.g|, Run(fe, t, s), Exec(fe, sem, t, st, fuel), w)
    decreases fuel, t, 2
  {
    hide Ext, Steps, BreakTo;
    var k := RunKids(fe, t, 0, s);
    BrIfGraph(fe, t, d, s, G);
    w := SimKids(fe, sem, t, 0, s, st, fuel, G, val);
    var o := ExecKids(fe, sem, t, 0, st, fuel);
    if o.Vals? {
      var (g, tc, fc) := BuildBranch(k.s.g, k.s.cur.control, k.nodes[0]);
      var s1 := St(g, Env(Reached, tc, k.s.cur.slots), k.s.blocks, k.s.log);
      SimBranch(sem, G, k.s.g, w.c, k.nodes[0], w.val);
      var hop := [Take(if sem.truth(o.vs[0]) then tc else fc)];
      WalkOn(G, sem, s.cur.control, val, w.path, hop);
      SimBreak(fe, sem, G, s1, d, k.tys[1], k.nodes[1], o.vs[1], w.val, o.st);
      w := Wit(w.path + hop, w.val, hop[0].node, k.s.cur.slots + [k.nodes[1]], 0);
    } else if k.s.cur.Go() {
      LeavesSteps(fe, sem, G, s.cur.control, val, |s.g|, k.s, Run(fe, t, s).s, o.out, w);
    }
  }

  /** The diamond of a select is a block entry with two sources. */
  lemma SelectJoin(fe: FunEnv, g: seq<Node>, tc: nat, fc: nat, slots: seq<nat>, ty: LocalType, n1: nat, n2: nat)
    requires GraphOk(g) && |slots| == |fe.locals| + 1 && Below(slots, |g|) && IsValue(ty)
    ensures var g1 := g + [Merge([tc, fc]), Phi(ty, [n1, n2], |g|)];
      var t := Target(Env(Merged, |g|, slots), ty, |g| + 1, false);
      && TargetOk(fe, g1, t)
      && SourceOf(g1, t, tc, slots + [n1]) && SourceOf(g1, t, fc, slots + [n2])
  {
    var g1 := g + [Merge([tc, fc]), Phi(ty, [n1, n2], |g|)];
    var t := Target(Env(Merged, |g|, slots), ty, |g| + 1, false);
    assert Nodes(t) == slots + [|g| + 1];
    forall i | 0 <= i < |slots| ensures !IsPhiOn(g1, slots[i], |g|) {
      assert NodeOk(g[slots[i]], slots[i]);
    }
    assert OnEdge(g1, t, tc, slots + [n1], 0);
    assert OnEdge(g1, t, fc, slots + [n2], 1);
  }

  /** Control passes through the diamond of a select. */
  lemma SimDiamond(fe: FunEnv, sem: Sem, G: seq<Node>, s: St, c: nat, n1: nat, n2: nat, ty: LocalType, vs: seq<Val>,
      st: seq<Val>, c0: nat, val0: seq<Val>, bound: nat, w: Wit) returns (w': Wit)
    requires Ready(fe, sem, G, s, w.val, st) && IsValue(ty) && bound <= |s.g| && |vs| == 3 && |val0| == |G|
    requires Walk(G, sem, c0, val0, w.path) == Some((s.cur.control, w.val)) && Agree(val0, w.val, bound)
    requires Evals(G, sem, w.val, [c, n1, n2]) == vs
    requires var (g, tc, fc) := BuildBranch(s.g, s.cur.control, c);
      Ext(g + [Merge([tc, fc]), Phi(ty, [n1, n2], |g|)], G)
    ensures var (g, tc, fc) := BuildBranch(s.g, s.cur.control, c);
      var g1 := g + [Merge([tc, fc]), Phi(ty, [n1, n2], |g|)];
      Sims(fe, sem, G, c0, val0, bound, Ok(St(g1, s.cur.(control := |g|), s.blocks, s.log), ty, |g| + 1),
           Norm(if sem.truth(vs[0]) then vs[1] else vs[2], st), w')
  {
    hide Walk, Ext, Eval, TargetOk, SourceOf, GraphOk, BlocksOk;
    var (g, tc, fc) := BuildBranch(s.g, s.cur.control, c);
    var g1 := g + [Merge([tc, fc]), Phi(ty, [n1, n2], |g|)];
    PrefixExt(g, g1);
    ExtTrans(g, g1, G);
    NodeOkTail(s.g, g);
    assert Eval(G, sem, w.val, [c, n1, n2][0]) == vs[0] && Eval(G, sem, w.val, [c, n1, n2][1]) == vs[1]
        && Eval(G, sem, w.val, [c, n1, n2][2]) == vs[2];
    SimBranch(sem, G, s.g, s.cur.control, c, w.val);
    var yes := sem.truth(vs[0]);
    var x := if yes then tc else fc;
    WalkOn(G, sem, c0, val0, w.path, [Take(x)]);
    var slots := s.cur.slots;
    SelectJoin(fe, g, tc, fc, slots, ty, n1, n2);
    var src := slots + [if yes then n1 else n2];
    assert src[..|st|] == slots;
    w' := SimEnter(fe, sem, G, c0, val0, bound, w.(path := w.path + [Take(x)]), g1,
                   Target(Env(Merged, |g|, slots), ty, |g| + 1, false), x, src, if yes then vs[1] else vs[2], st);
  }

  lemma SelectStatic(fe: FunEnv, t: Syn, s: St, G: seq<Node>)
    requires t.instr.Select? && Inv(fe, s) && s.cur.Go() && Run(fe, t, s).Ok? && Ext(Run(fe, t, s).s.g, G)
    ensures var k := RunKids(fe, t, 0, s);
      && k.KOk? && KidsGood(fe, t, 0, s, k) && Ext(k.s.g, G)
      && (k.s.cur.Go() ==> Good(fe, k.s, Run(fe, t, s).s) && forall j :: 0 <= j < 3 ==> IsValue(k.tys[j]))
  {
    hide RunKids;
    var k, r := RunKids(fe, t, 0, s), Run(fe, t, s);
    RunKidsOk(fe, t, 0, s);
    if k.s.cur.Go() {
      assert k.s.g <= r.s.g;
      GrowGood(fe, k.s, r.s.g, r.s.cur);
      ExtTrans(k.s.g, r.s.g, G);
      forall j | 0 <= j < 3 ensures IsValue(k.tys[j]) {
        assert KidOk(fe, t.instr, 0 + j, k.tys[j]) && Typed(k.s, k.tys[j], k.nodes[j]);
      }
    }
  }

  lemma {:induction false} SimSelect(fe: FunEnv, sem: Sem, t: Syn, s: St, st: seq<Val>, fuel: nat, G: seq<Node>,
      val: seq<Val>) returns (w: Wit)
    requires t.instr.Select? && Ready(fe, sem, G, s, val, st) && Run(fe, t, s).Ok? && Ext(Run(fe, t, s).s.g, G)
    ensures Sims(fe, sem, G, s.cur.control, val, |s.g|, Run(fe, t, s), Exec(fe, sem, t, st, fuel), w)
    decreases fuel, t, 2
  {
    hide RunKids, ExecKids, Eval, KidOk, GraphOk;
    var k := RunKids(fe, t, 0, s);
    var r := Run(fe, t, s);
    SelectStatic(fe, t, s, G);
    w := SimKids(fe, sem, t, 0, s, st, fuel, G, val);
    var o := ExecKids(fe, sem, t, 0, st, fuel);
    if o.Vals? {
      assert IsValue(k.tys[0]) && IsValue(k.tys[1]) && IsValue(k.tys[2]);
      assert Evals(G, sem, w.val, [k.nodes[0], k.nodes[1], k.nodes[2]]) == o.vs;
      w := SimDiamond(fe, sem, G, k.s, k.nodes[0], k.nodes[1], k.nodes[2], k.tys[1], o.vs, o.st, s.cur.control, val,
        |s.g|, w);
    } else if k.s.cur.Go() {
      LeavesSteps(fe, sem, G, s.cur.control, val, |s.g|, k.s, r.s, o.out, w);
    }
  }

  /** After a tree ended normally, one projection of a branch on its value. */
  lemma SimTest(fe: FunEnv, sem: Sem, G: seq<Node>, s: St, val: seq<Val>, s1: St, c: nat, v: Val, st1: seq<Val>, w: Wit)
    requires GraphOk(G) && |val| == |G| && |s.g| <= |s1.g|
    requires Walk(G, sem, s.cur.control, val, w.path) == Some((w.c, w.val)) && Agree(val, w.val, |s.g|)
    requires w.c == s1.cur.control && Eval(G, sem, w.val, c) == v
    requires Ext(BuildBranch(s1.g, s1.cur.control, c).0, G)
    ensures var (g, tc, fc) := BuildBranch(s1.g, s1.cur.control, c);
      var x := if sem.truth(v) then tc else fc;
      Walk(G, sem, s.cur.control, val, w.path + [Take(x)]) == Some((x, w.val))
  {
    var (g, tc, fc) := BuildBranch(s1.g, s1.cur.control, c);
    SimBranch(sem, G, s1.g, w.c, c, w.val);
    WalkOn(G, sem, s.cur.control, val, w.path, [Take(if sem.truth(v) then tc else fc)]);
  }

  lemma {:induction false} SimIf(fe: FunEnv, sem: Sem, t: Syn, s: St, st: seq<Val>, fuel: nat, G: seq<Node>,
      val: seq<Val>) returns (w: Wit)
    requires t.instr.If? && Ready(fe, sem, G, s, val, st) && Run(fe, t, s).Ok? && Ext(Run(fe, t, s).s.g, G)
    ensures Sims(fe, sem, G, s.cur.control, val, |s.g|, Run(fe, t, s), Exec(fe, sem, t, st, fuel), w)
    decreases fuel, t, 2
  {
    RunOk(fe, t.kids[0], s);
    var Ok(s1, ty, c) := Run(fe, t.kids[0], s);
    var o := Exec(fe, sem, t.kids[0], st, fuel);
    var r := Run(fe, t, s);
    if !s1.cur.Go() {
      RunDead(fe, t.kids[1], s1.(cur := Kill(Unreached)));
      w := Sim(fe, sem, t.kids[0], s, st, fuel, G, val);
    } else {
      BranchOk(fe, s1, c);
      var (g, tc, fc) := BuildBranch(s1.g, s1.cur.control, c);
      var s1' := St(g, Env(Reached, tc, s1.cur.slots), s1.blocks, s1.log);
      RunOk(fe, t.kids[1], s1');
      var s2 := Run(fe, t.kids[1], s1').s;
      var p := Target(Env(Reached, fc, s1.cur.slots), Stmt, 0, false);
      EnvKeep(fe, g, s2.g, p.env);
      IfJoin(fe, s2, fc, s1.cur.slots);
      assert Nodes(p) == p.env.slots;
      PendOk(fe, s2, p, Stmt, 0);
      var (g', p') := MergeInto(fe, s2.g, s2.cur, p, Stmt, 0);
      StepsTrans(s1, s1', s2);
      StepsTrans(s1, s2, r.s);
      ExtTrans(s2.g, r.s.g, G);
      ExtTrans(g, s2.g, G);
      ExtTrans(s1.g, g, G);
      w := Sim(fe, sem, t.kids[0], s, st, fuel, G, val);
      if !o.Norm? {
        LeavesSteps(fe, sem, G, s.cur.control, val, |s.g|, s1, r.s, o, w);
      } else {
        SimTest(fe, sem, G, s, val, s1, c, o.v, o.st, w);
        w := SimArm(fe, sem, t, s, o.st, fuel, G, val, w, s1, c, g', p', o.v);
      }
    }
  }

  /** An if whose condition has been evaluated. */
  lemma {:induction false} SimArm(fe: FunEnv, sem: Sem, t: Syn, s: St, st1: seq<Val>, fuel: nat, G: seq<Node>,
      val: seq<Val>, w: Wit, s1: St, c: nat, g': seq<Node>, p': Target, v: Val) returns (w': Wit)
    requires t.instr.If? && |t.kids| == 2 && Inv(fe, s1) && s1.cur.Go() && c < |s1.g|
    requires GraphOk(G) && |val| == |G| && |st1| == |fe.locals| + 1 && |s.g| <= |s1.g|
    requires Agree(val, w.val, |s.g|) && StandsAt(G, sem, w.val, s1.cur, st1)
    requires var (g, tc, fc) := BuildBranch(s1.g, s1.cur.control, c);
      var s1' := St(g, Env(Reached, tc, s1.cur.slots), s1.blocks, s1.log);
      var x := if sem.truth(v) then tc else fc;
      var p := Target(Env(Reached, fc, s1.cur.slots), Stmt, 0, false);
      && Walk(G, sem, s.cur.control, val, w.path + [Take(x)]) == Some((x, w.val))
      && Inv(fe, s1') && Run(fe, t.kids[1], s1').Ok?
      && var s2 := Run(fe, t.kids[1], s1').s;
         && Ext(s2.g, G) && Inv(fe, s2) && Ext(g, s2.g)
         && (g', p') == MergeInto(fe, s2.g, s2.cur, p, Stmt, 0)
         && Ext(g', G) && TargetOk(fe, g', p') && Evolves(s2.g, p, g', p')
         && (s2.cur.Go() ==> Merges(fe, s2.g, s2.cur, p, Stmt, 0, g', p'))
         && Steps(s2, St(g', p'.env, s2.blocks, s2.log))
    ensures var (g, tc, fc) := BuildBranch(s1.g, s1.cur.control, c);
      var s1' := St(g, Env(Reached, tc, s1.cur.slots), s1.blocks, s1.log);
      var s2 := Run(fe, t.kids[1], s1').s;
      var o := if !sem.truth(v) then Norm(sem.unit, st1)
               else match Exec(fe, sem, t.kids[1], st1, fuel) case Norm(_, st2) => Norm(sem.unit, st2) case o => o;
      Sims(fe, sem, G, s.cur.control, val, |s.g|, Ok(St(g', p'.env, s2.blocks, s2.log), Stmt, 0), o, w')
    decreases fuel, t, 1
  {
    var (g, tc, fc) := BuildBranch(s1.g, s1.cur.control, c);
    var s1' := St(g, Env(Reached, tc, s1.cur.slots), s1.blocks, s1.log);
    var s2 := Run(fe, t.kids[1], s1').s;
    var p := Target(Env(Reached, fc, s1.cur.slots), Stmt, 0, false);
    if !sem.truth(v) {
      var src := s1.cur.slots + [0];
      assert src[..|st1|] == s1.cur.slots && Nodes(p) <= src;
      assert SourceOf(s2.g, p, fc, src);
      w' := SimEnter(fe, sem, G, s.cur.control, val, |s.g|, w.(path := w.path + [Take(fc)]), g', p', fc, src, v, st1);
    } else {
      var w1 := Sim(fe, sem, t.kids[1], s1', st1, fuel, G, w.val);
      var o := Exec(fe, sem, t.kids[1], st1, fuel);
      var path := w.path + [Take(tc)];
      WalkOn(G, sem, s.cur.control, val, path, w1.path);
      w' := w1.(path := path + w1.path);
      if o.Norm? {
        var src := s2.cur.slots + [0];
        assert src[..|o.st|] == s2.cur.slots;
        w' := SimEnter(fe, sem, G, s.cur.control, val, |s.g|, w', g', p', w1.c, src, v, o.st);
      } else {
        LeavesAfter(fe, sem, G, s.cur.control, val, path, tc, w.val, |s.g|, |g|, s2.g, s2.blocks, s2.log.gone, o, w1);
        LeavesSteps(fe, sem, G, s.cur.control, val, |s.g|, s2, St(g', p'.env, s2.blocks, s2.log), o, w');
      }
    }
  }

  lemma {:induction false} SimBlock(fe: FunEnv, sem: Sem, t: Syn, s: St, st: seq<Val>, fuel: nat, G: seq<Node>,
      val: seq<Val>) returns (w: Wit)
    requires t.instr.Block? && Ready(fe, sem, G, s, val, st) && Run(fe, t, s).Ok? && Ext(Run(fe, t, s).s.g, G)
    ensures Sims(fe, sem, G, s.cur.control, val, |s.g|, Run(fe, t, s), Exec(fe, sem, t, st, fuel), w)
    decreases fuel, t, 2
  {
    if t.kids == [] {
      w := Wit([], val, s.cur.control, [], 0);
    } else {
      var s0 := EnterBlock(s);
      EnterBlockOk(fe, s);
      RunKidsOk(fe, t, 0, s0);
      var k := RunKids(fe, t, 0, s0);
      var n := |k.tys|;
      assert Typed(k.s, k.tys[n - 1], k.nodes[n - 1]);
      assert Evolves(s0.g, s0.blocks[|s.blocks|], k.s.g, k.s.blocks[|s.blocks|]);
      LeaveExt(fe, k);
      ExtTrans(k.s.g, Run(fe, t, s).s.g, G);
      w := SimKids(fe, sem, t, 0, s0, st, fuel, G, val);
      var o := ExecKids(fe, sem, t, 0, st, fuel);
      w := SimLeave(fe, sem, G, s.cur.control, val, |s.g|, k, o, w);
      assert ExecBody(fe, sem, t, st, fuel) == BodyOut(sem, o);
      assert Exec(fe, sem, t, st, fuel) == LeaveBlock(ExecBody(fe, sem, t, st, fuel));
    }
  }

  lemma {:induction false} SimLoop(fe: FunEnv, sem: Sem, t: Syn, s: St, st: seq<Val>, fuel: nat, G: seq<Node>,
      val: seq<Val>) returns (w: Wit)
    requires t.instr.Loop? && Ready(fe, sem, G, s, val, st) && Run(fe, t, s).Ok? && Ext(Run(fe, t, s).s.g, G)
    ensures Sims(fe, sem, G, s.cur.control, val, |s.g|, Run(fe, t, s), Exec(fe, sem, t, st, fuel), w)
    decreases fuel, t, 2
  {
    w := Wit([], val, s.cur.control, [], 0);
    if t.kids != [] {
      LoopStatic(fe, t, s);
      var s0 := EnterLoop(fe, s);
      var k := RunKids(fe, t, 0, s0);
      var cont := s0.blocks[|s.blocks| + 1];
      ExtTrans(k.s.g, Run(fe, t, s).s.g, G);
      var src := s.cur.slots + [0];
      assert src[..|st|] == s.cur.slots;
      assert TargetOk(fe, k.s.g, k.s.blocks[|s.blocks| + 1]);
      w := SimEnter(fe, sem, G, s.cur.control, val, |s.g|, w, k.s.g, cont, s.cur.control, src, sem.unit, st);
      var w1 := SimHeader(fe, sem, t, s, s0, Run(fe, t, s), st, fuel, G, w.val);
      SimsAfter(fe, sem, G, s.cur.control, val, w.path, |s.g|, w.val, |s.g|, |s.g|, Run(fe, t, s),
          Exec(fe, sem, t, st, fuel), w1);
      w := w1.(path := w.path + w1.path);
    }
  }

  /** Does a pass through a loop body end at the back edge? */
  predicate Again(o: Outs) {
    o.Stop? && o.out.Brk? && o.out.depth == 0
  }

  /** How a loop ends when a pass through its body does not end at the back edge. */
  function LoopExit(sem: Sem, o: Outs): Out
    requires !Again(o)
  {
    match o
    case Vals(vs, st) => Norm(Last(sem, vs), st)
    case Stop(Brk(d, v, st)) => LeaveBlock(Brk(d - 1, v, st))
    case Stop(out) => out
  }

  /** A loop in terms of one pass through its body. */
  function LoopOut(fe: FunEnv, sem: Sem, t: Syn, o: Outs, fuel: nat): Out
    requires o.Stop? && o.out.Brk? ==> |o.out.st| == |fe.locals| + 1
  {
    if !Again(o) then LoopExit(sem, o)
    else if fuel > 0 then NextLap(ExecLoop(fe, sem, t, o.out.st, fuel - 1))
    else Fuel(0)
  }

  lemma LoopUnfold(fe: FunEnv, sem: Sem, t: Syn, st: seq<Val>, fuel: nat)
    requires |st| == |fe.locals| + 1
    ensures ExecLoop(fe, sem, t, st, fuel) == LoopOut(fe, sem, t, ExecKids(fe, sem, t, 0, st, fuel), fuel)
  {
    var o := ExecKids(fe, sem, t, 0, st, fuel);
    assert ExecBody(fe, sem, t, st, fuel) == BodyOut(sem, o);
  }

  /** One pass through a loop body, back to its header or out of the loop. */
  lemma {:induction false} SimPass(fe: FunEnv, sem: Sem, t: Syn, s: St, s0: St, r: Res, st: seq<Val>, fuel: nat,
      G: seq<Node>, val: seq<Val>) returns (w: Wit)
    requires LoopFacts(fe, s, s0, RunKids(fe, t, 0, s0), r) && Ext(r.s.g, G)
    requires GraphOk(G) && |val| == |G| && |st| == |fe.locals| + 1 && Evals(G, sem, val, s0.cur.slots) == st
    ensures var o := ExecKids(fe, sem, t, 0, st, fuel);
      if Again(o) then
        && |w.path| > 0
        && Walk(G, sem, |s.g|, val, w.path) == Some((|s.g|, w.val)) && Agree(val, w.val, |s.g|)
        && Evals(G, sem, w.val, s0.cur.slots) == o.out.st
      else Sims(fe, sem, G, |s.g|, val, |s.g|, r, LoopExit(sem, o), w)
    decreases fuel, t, 1, 0
  {
    var k := RunKids(fe, t, 0, s0);
    ExtTrans(k.s.g, r.s.g, G);
    w := SimKids(fe, sem, t, 0, s0, st, fuel, G, val);
    var o := ExecKids(fe, sem, t, 0, st, fuel);
    if Again(o) {
      w := SimBack(fe, sem, G, val, s, s0, k, r, o.out, w);
    } else {
      w := SimExit(fe, sem, G, val, s, s0, k, r, o, w);
    }
  }

  /** All passes through a loop body from its header. */
  lemma {:induction false} SimHeader(fe: FunEnv, sem: Sem, t: Syn, s: St, s0: St, r: Res, st: seq<Val>, fuel: nat,
      G: seq<Node>, val: seq<Val>) returns (w: Wit)
    requires LoopFacts(fe, s, s0, RunKids(fe, t, 0, s0), r) && Ext(r.s.g, G)
    requires GraphOk(G) && |val| == |G| && |st| == |fe.locals| + 1 && Evals(G, sem, val, s0.cur.slots) == st
    ensures Sims(fe, sem, G, |s.g|, val, |s.g|, r, ExecLoop(fe, sem, t, st, fuel), w)
    decreases fuel, t, 1, 2
  {
    assert r.Ok?;
    hide RunKids, ExecKids, ExecLoop, LoopFacts, Ext, Eval, GraphOk, Sims;
    LoopUnfold(fe, sem, t, st, fuel);
    w := SimPass(fe, sem, t, s, s0, r, st, fuel, G, val);
    if Again(ExecKids(fe, sem, t, 0, st, fuel)) {
      w := SimAgain(fe, sem, t, s, s0, r, st, fuel, G, val, w);
    }
  }

  /** One pass went back to the header, and the next one follows. */
  lemma {:induction false} SimAgain(fe: FunEnv, sem: Sem, t: Syn, s: St, s0: St, r: Res, st: seq<Val>, fuel: nat,
      G: seq<Node>, val: seq<Val>, w: Wit) returns (w': Wit)
    requires LoopFacts(fe, s, s0, RunKids(fe, t, 0, s0), r) && Ext(r.s.g, G) && r.Ok?
    requires GraphOk(G) && |val| == |G| && |st| == |fe.locals| + 1
    requires Again(ExecKids(fe, sem, t, 0, st, fuel)) && |w.path| > 0
    requires Walk(G, sem, |s.g|, val, w.path) == Some((|s.g|, w.val)) && Agree(val, w.val, |s.g|)
    requires Evals(G, sem, w.val, s0.cur.slots) == ExecKids(fe, sem, t, 0, st, fuel).out.st
    ensures Sims(fe, sem, G, |s.g|, val, |s.g|, r, ExecLoop(fe, sem, t, st, fuel), w')
    decreases fuel, t, 1, 1
  {
    hide RunKids, ExecKids, ExecLoop, LoopFacts, Ext, Eval, GraphOk;
    LoopUnfold(fe, sem, t, st, fuel);
    var o := ExecKids(fe, sem, t, 0, st, fuel);
    if fuel == 0 {
      w' := w.(c := |s.g|);
    } else {
      hide Sims;
      var w2 := SimHeader(fe, sem, t, s, s0, r, o.out.st, fuel - 1, G, w.val);
      SimsAfter(fe, sem, G, |s.g|, val, w.path, |s.g|, w.val, |s.g|, |s.g|, r,
          ExecLoop(fe, sem, t, o.out.st, fuel - 1), w2);
      w' := w2.(path := w.path + w2.path);
    }
  }

  /** The back edge of a loop. */
  lemma SimBack(fe: FunEnv, sem: Sem, G: seq<Node>, val: seq<Val>, s: St, s0: St, k: Kids, r: Res, o: Out, w: Wit)
    returns (w': Wit)
    requires GraphOk(G) && |val| == |G| && LoopFacts(fe, s, s0, k, r) && Ext(k.s.g, G)
    requires o.Brk? && o.depth == 0 && |o.st| == |fe.locals| + 1
    requires Leaves(fe, sem, G, |s.g|, val, |s0.g|, k.s.g, k.s.blocks, k.s.log.gone, o, w)
    ensures Walk(G, sem, |s.g|, val, w'.path) == Some((|s.g|, w'.val)) && Agree(val, w'.val, |s.g|)
    ensures Evals(G, sem, w'.val, s0.cur.slots) == o.st && |w'.path| > 0
  {
    var cont := s0.blocks[|s.blocks| + 1];
    assert TargetOk(fe, k.s.g, k.s.blocks[|s.blocks| + 1]);
    w' := SimEnter(fe, sem, G, |s.g|, val, |s.g|, w, k.s.g, cont, w.c, w.src, o.v, o.st);
  }

  /** Leaving a loop. */
  lemma SimExit(fe: FunEnv, sem: Sem, G: seq<Node>, val: seq<Val>, s: St, s0: St, k: Kids, r: Res, o: Outs, w: Wit)
    returns (w': Wit)
    requires GraphOk(G) && |val| == |G| && LoopFacts(fe, s, s0, k, r) && Ext(r.s.g, G)
    requires SimsKids(fe, sem, G, |s.g|, val, |s0.g|, k, o, w) && !Again(o)
    requires o.Vals? ==> |o.st| == |fe.locals| + 1
    requires o.Stop? && o.out.Brk? ==> |o.out.st| == |fe.locals| + 1
    ensures Sims(fe, sem, G, |s.g|, val, |s.g|, r, LoopExit(sem, o), w')
  {
    hide SimsKids, Walk;
    PoppedOk(fe, k);
    var o' := if o.Stop? && o.out.Brk? then Stop(Brk(o.out.depth - 1, o.out.v, o.out.st)) else o;
    PoppedSims(fe, sem, G, val, |s.g|, |s0.g|, k, o, o', w);
    assert Leavable(fe, G, Popped(k), |s.g|);
    w' := SimLeave(fe, sem, G, |s.g|, val, |s.g|, Popped(k), o', w);
  }

  /** Branch depths without the inner entry of the loop. */
  lemma PoppedSims(fe: FunEnv, sem: Sem, G: seq<Node>, val: seq<Val>, head: nat, bound: nat, k: Kids, o: Outs,
      o': Outs, w: Wit)
    requires GraphOk(G) && |val| == |G| && k.KOk? && |k.s.blocks| > 1 && head <= bound
    requires SimsKids(fe, sem, G, head, val, bound, k, o, w) && !Again(o)
    requires o' == if o.Stop? && o.out.Brk? then Stop(Brk(o.out.depth - 1, o.out.v, o.out.st)) else o
    ensures SimsKids(fe, sem, G, head, val, head, Popped(k), o', w)
  {
  }

  lemma {:induction false} SimIfElse(fe: FunEnv, sem: Sem, t: Syn, s: St, st: seq<Val>, fuel: nat, G: seq<Node>,
      val: seq<Val>) returns (w: Wit)
    requires t.instr.IfElse? && Ready(fe, sem, G, s, val, st) && Run(fe, t, s).Ok? && Ext(Run(fe, t, s).s.g, G)
    ensures Sims(fe, sem, G, s.cur.control, val, |s.g|, Run(fe, t, s), Exec(fe, sem, t, st, fuel), w)
    decreases fuel, t, 2
  {
    RunOk(fe, t.kids[0], s);
    var Ok(s1, ty, c) := Run(fe, t.kids[0], s);
    var o := Exec(fe, sem, t.kids[0], st, fuel);
    var r := Run(fe, t, s);
    if !s1.cur.Go() {
      RunDead(fe, t.kids[1], St(s1.g, Stolen(s1.cur).(control := 0), s1.blocks, s1.log));
      var log := Run(fe, t.kids[1], St(s1.g, Stolen(s1.cur).(control := 0), s1.blocks, s1.log)).s.log;
      RunDead(fe, t.kids[2], St(s1.g, Split(s1.cur).(control := 0), s1.blocks, log));
      w := Sim(fe, sem, t.kids[0], s, st, fuel, G, val);
    } else {
      ArmsOk(fe, t, s1, c);
      var a := Arms(fe, t, s1, c);
      assert r == Ok(St(a.g3, a.m3.env, a.s3.blocks, a.s3.log), a.m3.ty, a.m3.node);
      var (g, tc, fc) := BuildBranch(s1.g, s1.cur.control, c);
      ExtTrans(a.s3.g, r.s.g, G);
      ExtTrans(a.g2, a.s3.g, G);
      ExtTrans(a.s2.g, a.g2, G);
      ExtTrans(g, a.s2.g, G);
      ExtTrans(s1.g, g, G);
      w := Sim(fe, sem, t.kids[0], s, st, fuel, G, val);
      if !o.Norm? {
        LeavesSteps(fe, sem, G, s.cur.control, val, |s.g|, s1, r.s, o, w);
      } else {
        SimTest(fe, sem, G, s, val, s1, c, o.v, o.st, w);
        if sem.truth(o.v) {
          w := SimThen(fe, sem, t, s1, c, o.st, fuel, G, s.cur.control, val, |s.g|, w);
        } else {
          w := SimElse(fe, sem, t, s1, c, o.st, fuel, G, s.cur.control, val, |s.g|, w);
        }
      }
    }
  }

  lemma {:induction false} SimThen(fe: FunEnv, sem: Sem, t: Syn, s1: St, c: nat, st: seq<Val>, fuel: nat, G: seq<Node>,
      c0: nat, val0: seq<Val>, bound: nat, w: Wit) returns (w': Wit)
    requires ArmsBuild(fe, t, s1, c) && Inv(fe, s1) && s1.cur.Go() && c < |s1.g|
    requires GraphOk(G) && |val0| == |G| && |st| == |fe.locals| + 1 && bound <= |s1.g|
    requires Agree(val0, w.val, bound) && StandsAt(G, sem, w.val, s1.cur, st)
    requires var a := Arms(fe, t, s1, c);
      && Ext(a.g3, G) && Ext(a.s2.g, G)
      && Walk(G, sem, c0, val0, w.path + [Take(a.s1'.cur.control)]) == Some((a.s1'.cur.control, w.val))
    ensures var a := Arms(fe, t, s1, c);
      Sims(fe, sem, G, c0, val0, bound, Ok(St(a.g3, a.m3.env, a.s3.blocks, a.s3.log), a.m3.ty, a.m3.node),
          Exec(fe, sem, t.kids[1], st, fuel), w')
    decreases fuel, t, 1
  {
    hide Exec, Run, Eval, GraphOk, TargetOk, Walk, MergeInto;
    ArmsOk(fe, t, s1, c);
    var a := Arms(fe, t, s1, c);
    var path := w.path + [Take(a.s1'.cur.control)];
    var w1 := Sim(fe, sem, t.kids[1], a.s1', st, fuel, G, w.val);
    var o := Exec(fe, sem, t.kids[1], st, fuel);
    WalkOn(G, sem, c0, val0, path, w1.path);
    w' := w1.(path := path + w1.path);
    if o.Norm? {
      var src := a.s2.cur.slots + [a.n2];
      assert src[..|o.st|] == a.s2.cur.slots;
      w' := SimEnter(fe, sem, G, c0, val0, bound, w', a.g3, a.m3, w1.c, src, o.v, o.st);
    } else {
      LeavesAfter(fe, sem, G, c0, val0, path, a.s1'.cur.control, w.val, bound, |a.s1'.g|, a.s2.g, a.s2.blocks,
          a.s2.log.gone, o, w1);
      StepsTrans(a.s2, a.s2', a.s3);
      StepsTrans(a.s2, a.s3, St(a.g3, a.m3.env, a.s3.blocks, a.s3.log));
      LeavesSteps(fe, sem, G, c0, val0, bound, a.s2, St(a.g3, a.m3.env, a.s3.blocks, a.s3.log), o, w');
    }
  }

  lemma {:induction false} SimElse(fe: FunEnv, sem: Sem, t: Syn, s1: St, c: nat, st: seq<Val>, fuel: nat, G: seq<Node>,
      c0: nat, val0: seq<Val>, bound: nat, w: Wit) returns (w': Wit)
    requires ArmsBuild(fe, t, s1, c) && Inv(fe, s1) && s1.cur.Go() && c < |s1.g|
    requires GraphOk(G) && |val0| == |G| && |st| == |fe.locals| + 1 && bound <= |s1.g|
    requires Agree(val0, w.val, bound) && StandsAt(G, sem, w.val, s1.cur, st)
    requires var a := Arms(fe, t, s1, c);
      && Ext(a.g3, G) && Ext(a.s3.g, G)
      && Walk(G, sem, c0, val0, w.path + [Take(a.s2'.cur.control)]) == Some((a.s2'.cur.control, w.val))
    ensures var a := Arms(fe, t, s1, c);
      Sims(fe, sem, G, c0, val0, bound, Ok(St(a.g3, a.m3.env, a.s3.blocks, a.s3.log), a.m3.ty, a.m3.node),
          Exec(fe, sem, t.kids[2], st, fuel), w')
    decreases fuel, t, 1
  {
    ArmsOk(fe, t, s1, c);
    var a := Arms(fe, t, s1, c);
    var path := w.path + [Take(a.s2'.cur.control)];
    var w1 := Sim(fe, sem, t.kids[2], a.s2', st, fuel, G, w.val);
    var o := Exec(fe, sem, t.kids[2], st, fuel);
    WalkOn(G, sem, c0, val0, path, w1.path);
    w' := w1.(path := path + w1.path);
    if o.Norm? {
      var src := a.s3.cur.slots + [a.n3];
      assert src[..|o.st|] == a.s3.cur.slots;
      w' := SimEnter(fe, sem, G, c0, val0, bound, w', a.g3, a.m3, w1.c, src, o.v, o.st);
    } else {
      LeavesAfter(fe, sem, G, c0, val0, path, a.s2'.cur.control, w.val, bound, |a.s2'.g|, a.s3.g, a.s3.blocks,
          a.s3.log.gone, o, w1);
      LeavesSteps(fe, sem, G, c0, val0, bound, a.s3, St(a.g3, a.m3.env, a.s3.blocks, a.s3.log), o, w');
    }
  }
}
