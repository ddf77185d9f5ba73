/** The decoder as it runs: stacks that are pushed and popped, and environments on the heap whose arrays of
    locals are stolen, copied and merged in place. */
module LrDecoder {
  import opened Syntax
  import opened Graph
  import opened Ssa
  import opened Leb128
  import opened Opcodes
  import opened Lr
  import opened LrInvariant

  /** An SSA environment on the heap; `id` is its position in the zone it is allocated in. */
  class SsaEnv {
    const id: nat
    var state: EnvState
    var control: nat
    var effect: nat
    var locals: array?<nat>

    constructor (id: nat, state: EnvState, control: nat, effect: nat, locals: array?<nat>)
      ensures this.id == id && this.state == state && this.control == control && this.effect == effect
      ensures this.locals == locals
    {
      this.id, this.state, this.control, this.effect, this.locals := id, state, control, effect, locals;
    }

    predicate Go()
      reads this
    {
      state.Reached? || state.Merged?
    }

    /** This object holds environment e of a function with n locals. */
    ghost predicate Shows(e: Env, n: nat)
      reads this, locals
    {
      && e.state == state && e.control == control
      && if Go() then locals != null && locals.Length == n && e.slots == locals[..] + [effect]
         else locals == null && control == 0 && effect == 0 && e.slots == []
    }

    method Kill(newState: EnvState)
      requires newState.ControlEnd? || newState.Unreached?
      modifies this
      ensures state == newState && control == 0 && effect == 0 && locals == null
      ensures Shows(Ssa.Kill(newState), 0)
    {
      state, locals, control, effect := newState, null, 0, 0;
    }
  }

  datatype Block = Entry(env: SsaEnv, depth: int)

  datatype Pair = Pair(falseEnv: SsaEnv, mergeEnv: SsaEnv)

  class LrWasmDecoder {
    const menv: ModuleEnv
    const fe: FunEnv
    var g: seq<Node>
    var zone: seq<SsaEnv>
    var ssaEnv: SsaEnv
    var stack: seq<Production>
    var blocks: seq<Block>
    var ifs: seq<Pair>
    var trees: seq<Tree>
    var ok: bool
    var strayed: bool
    ghost var envs: seq<Env>
    ghost var repr: set<object>

    /** The environments on the heap are envs, and no two of them share an array of locals. */
    ghost predicate EnvsValid()
      reads this`zone, this`envs, this`repr, repr
    {
      && |envs| == |zone| && this !in repr
      && (forall i :: 0 <= i < |zone| ==>
        zone[i] in repr && zone[i].id == i && (zone[i].locals != null ==> zone[i].locals in repr))
      && (forall i :: 0 <= i < |zone| ==> zone[i].Shows(envs[i], |fe.locals|))
      && (forall i, j :: 0 <= i < j < |zone| && zone[i].locals != null ==> zone[i].locals != zone[j].locals)
    }

    /** The state of the functional decoder this decoder is in. */
    ghost function Abs(): State
      reads this
    {
      State(g, envs, ssaEnv.id, Ids(blocks), Pairs(ifs), stack, trees, strayed)
    }

    ghost predicate Valid()
      reads this, repr
    {
      EnvsValid() && AllKnown(zone, ssaEnv, blocks, ifs)
    }

    constructor (menv: ModuleEnv, fe: FunEnv)
      ensures this.menv == menv && this.fe == fe && EnvsValid() && repr == {} && zone == [] && ok && !strayed
      ensures g == [] && stack == [] && blocks == [] && ifs == [] && trees == [] && envs == []
    {
      this.menv, this.fe := menv, fe;
      g, zone, stack, blocks, ifs, trees, ok, strayed := [], [], [], [], [], [], true, false;
      ssaEnv := new SsaEnv(0, ControlEnd, 0, 0, null);
      envs, repr := [], {};
    }

    method AppendToMerge(merge: nat, from: nat)
      modifies this`g
      ensures g == Ssa.AppendToMerge(old(g), merge, from)
    {
      if merge < |g| { g := g[merge := AppendInput(g[merge], from)]; }
    }

    method CreateOrMergeIntoPhi(ty: LocalType, merge: nat, tnode: nat, fnode: nat) returns (node: nat)
      modifies this`g
      ensures (g, node) == MergeNode(old(g), ty, merge, tnode, fnode)
    {
      node := tnode;
      if IsPhiOn(g, tnode, merge) {
        g := g[tnode := AppendInput(g[tnode], fnode)];
      } else if tnode != fnode {
        var vals := [];
        var j := 0;
        while j < EarlierEdges(g, merge)
          invariant j <= EarlierEdges(g, merge) && g == old(g)
          invariant vals == Fill(j, tnode)
        {
          vals := vals + [tnode];
          FillMore(j, tnode);
          j := j + 1;
        }
        node := |g|;
        g := g + [Phi(ty, vals + [fnode], merge)];
      }
    }

    /** Merge the effect, then the locals from the last to the first, in place. */
    method MergeValues(from: SsaEnv, to: SsaEnv, merge: nat)
      requires from != to && from.locals != null && to.locals != null && from.locals != to.locals
      requires from.locals.Length == to.locals.Length == |fe.locals|
      modifies this`g, to`effect, to.locals
      ensures (g, to.locals[..] + [to.effect])
           == MergeSlots(fe, old(g), merge, old(to.locals[..] + [to.effect]), old(from.locals[..] + [from.effect]),
             |fe.locals| + 1)
    {
      ghost var before, source := to.locals[..] + [to.effect], from.locals[..] + [from.effect];
      var n := |fe.locals|;
      to.effect := CreateOrMergeIntoPhi(End, merge, to.effect, from.effect);
      assert to.locals[..] + [to.effect] == before[n := to.effect];
      var i := n;
      while i > 0
        invariant 0 <= i <= n
        invariant MergeSlots(fe, g, merge, to.locals[..] + [to.effect], source, i)
          == MergeSlots(fe, old(g), merge, before, source, n + 1)
        invariant from.locals[..] + [from.effect] == source
      {
        ghost var slots, g0 := to.locals[..] + [to.effect], g;
        i := i - 1;
        var node := CreateOrMergeIntoPhi(fe.locals[i], merge, to.locals[i], from.locals[i]);
        assert slots[i] == to.locals[i] && source[i] == from.locals[i];
        to.locals[i] := node;
        assert to.locals[..] + [to.effect] == slots[i := node];
      }
    }

    /** The target of a flow takes over the source's values, or merges them with its own. */
    method Receive(from: SsaEnv, to: SsaEnv, ghost source: Env, ghost target: Env)
      requires from != to && from.Go() && from.Shows(source, |fe.locals|) && to.Shows(target, |fe.locals|)
      requires from.locals != to.locals && !to.state.ControlEnd?
      modifies this`g, to, to.locals
      ensures g == Ssa.Goto(fe, old(g), source, target).0
      ensures to.Shows(Ssa.Goto(fe, old(g), source, target).1, |fe.locals|)
      ensures to.Go() && to.locals == if old(to.state).Unreached? then from.locals else old(to.locals)
    {
      hide MergeSlots;
      match to.state
      case Unreached =>
        to.state, to.locals, to.control, to.effect := Reached, from.locals, from.control, from.effect;
      case Reached =>
        g := g + [Merge([to.control, from.control])];
        to.state, to.control := Merged, |g| - 1;
        MergeValues(from, to, to.control);
      case Merged =>
        AppendToMerge(to.control, from.control);
        MergeValues(from, to, to.control);
      case ControlEnd => assert false;
    }

    /** Control flows from one environment into another and ends; it never meets an ended one. */
    method Goto(from: SsaEnv, to: SsaEnv)
      requires EnvsValid() && Known(zone, from) && Known(zone, to) && from != to
      requires (from.Go() ==> !to.state.ControlEnd?)
      modifies this`g, this`envs, from, to, to.locals
      ensures EnvsValid()
      ensures !old(from.Go()) ==> g == old(g) && envs == old(envs)
      ensures old(from.Go()) ==>
        g == Ssa.Goto(fe, old(g), old(envs)[from.id], old(envs)[to.id]).0
      ensures old(from.Go()) ==>
        envs == old(envs)[to.id := Ssa.Goto(fe, old(g), old(envs)[from.id],
          old(envs)[to.id]).1][from.id := Ssa.Kill(ControlEnd)]
    {
      hide Ssa.Goto;
      if !from.Go() { return; }
      ghost var source, target := envs[from.id], envs[to.id];
      ghost var e := Ssa.Goto(fe, g, source, target).1;
      assert from.Shows(source, |fe.locals|) && to.Shows(target, |fe.locals|);
      assert from.id != to.id;
      Receive(from, to, source, target);
      from.Kill(ControlEnd);
      envs := envs[to.id := e][from.id := Ssa.Kill(ControlEnd)];
      forall i | 0 <= i < |zone| ensures zone[i].Shows(envs[i], |fe.locals|) {
        assert old(zone[i].Shows(envs[i], |fe.locals|));
        assert i != to.id && i != from.id ==> zone[i] != to && zone[i] != from;
      }
    }

    /** A new environment joins the zone. */
    method Add(r: SsaEnv, ghost e: Env)
      requires EnvsValid() && r.id == |zone| && r !in zone && r.Shows(e, |fe.locals|)
      requires forall i :: 0 <= i < |zone| && zone[i].locals != null ==> zone[i].locals != r.locals
      modifies this`zone, this`envs, this`repr
      ensures EnvsValid() && zone == old(zone) + [r] && envs == old(envs) + [e]
      ensures repr == old(repr) + {r} + if r.locals != null then {r.locals} else {}
    {
      zone, envs := zone + [r], envs + [e];
      repr := repr + {r} + if r.locals != null then {r.locals} else {};
      forall j | 0 <= j < |zone| ensures zone[j].Shows(envs[j], |fe.locals|) {
        if j < |old(zone)| { assert old(zone[j].Shows(envs[j], |fe.locals|)); }
      }
    }

    /** A complete copy, with an array of its own. */
    method Split(from: SsaEnv) returns (r: SsaEnv)
      requires EnvsValid() && Known(zone, from)
      modifies this`zone, this`envs, this`repr
      ensures EnvsValid() && fresh(repr - old(repr)) && zone == old(zone) + [r]
      ensures envs == old(envs) + [Ssa.Split(old(envs)[from.id])]
      ensures r.id == |old(zone)| && fresh(r)
    {
      ghost var e := envs[from.id];
      assert from.Shows(e, |fe.locals|);
      if from.Go() {
        var locals := CopyOf(from.locals);
        r := new SsaEnv(|zone|, Reached, from.control, from.effect, locals);
      } else {
        r := new SsaEnv(|zone|, Unreached, from.control, from.effect, null);
      }
      Add(r, Ssa.Split(e));
    }

    method KillEnv(env: SsaEnv, state: EnvState)
      requires EnvsValid() && Known(zone, env) && (state.ControlEnd? || state.Unreached?)
      modifies this`envs, env
      ensures EnvsValid() && envs == old(envs)[env.id := Ssa.Kill(state)]
      ensures env.locals == null
    {
      env.Kill(state);
      envs := envs[env.id := Ssa.Kill(state)];
      forall j | 0 <= j < |zone| ensures zone[j].Shows(envs[j], |fe.locals|) {
        assert old(zone[j].Shows(envs[j], |fe.locals|));
      }
    }

    /** A copy that takes over the array and leaves the original unreachable. */
    method Steal(from: SsaEnv) returns (r: SsaEnv)
      requires EnvsValid() && Known(zone, from)
      modifies this`zone, this`envs, this`repr, from
      ensures EnvsValid() && fresh(repr - old(repr)) && zone == old(zone) + [r]
      ensures envs == old(envs)[from.id := Victim(old(envs)[from.id])] + [Stolen(old(envs)[from.id])]
      ensures r.id == |old(zone)| && fresh(r) && r.locals == old(from.locals)
    {
      ghost var e := envs[from.id];
      assert from.Shows(e, |fe.locals|);
      if from.Go() {
        r := new SsaEnv(|zone|, Reached, from.control, from.effect, from.locals);
        KillEnv(from, Unreached);
      } else {
        r := new SsaEnv(|zone|, Unreached, 0, 0, null);
      }
      Add(r, Stolen(e));
    }

    /** A loop header: a phi for the effect, then one for each local from the last to the first. */
    method LoopPhis(env: SsaEnv)
      requires env.locals != null && env.locals.Length == |fe.locals|
      modifies this`g, env`control, env`effect, env.locals
      ensures env.control == |old(g)|
      ensures (g, env.locals[..] + [env.effect])
           == LoopSlots(fe, old(g) + [LoopHead([old(env.control)])], |old(g)|, old(env.locals[..] + [env.effect]),
             |fe.locals| + 1)
    {
      ghost var before := env.locals[..] + [env.effect];
      var n := |fe.locals|;
      g := g + [LoopHead([env.control])];
      env.control := |g| - 1;
      ghost var g0 := g;
      g := g + [Phi(End, [env.effect], env.control)];
      env.effect := |g| - 1;
      assert env.locals[..] + [env.effect] == before[n := env.effect];
      var i := n;
      while i > 0
        invariant 0 <= i <= n && env.control == |old(g)|
        invariant LoopSlots(fe, g, env.control, env.locals[..] + [env.effect], i)
          == LoopSlots(fe, g0, env.control, before, n + 1)
      {
        ghost var slots := env.locals[..] + [env.effect];
        i := i - 1;
        assert slots[i] == env.locals[i];
        g := g + [Phi(fe.locals[i], [env.locals[i]], env.control)];
        env.locals[i] := |g| - 1;
        assert env.locals[..] + [env.effect] == slots[i := |g| - 1];
      }
    }

    method PrepareForLoop(env: SsaEnv)
      requires EnvsValid() && Known(zone, env)
      modifies this`g, this`envs, env, env.locals
      ensures EnvsValid()
      ensures g == Ssa.PrepareForLoop(fe, old(g), old(envs)[env.id]).0
      ensures envs == old(envs)[env.id := Ssa.PrepareForLoop(fe, old(g), old(envs)[env.id]).1]
    {
      hide LoopSlots;
      ghost var e := envs[env.id];
      assert env.Shows(e, |fe.locals|);
      if env.Go() {
        env.state := Merged;
        LoopPhis(env);
      }
      envs := envs[env.id := Ssa.PrepareForLoop(fe, old(g), e).1];
      forall i | 0 <= i < |zone| ensures zone[i].Shows(envs[i], |fe.locals|) {
        assert old(zone[i].Shows(envs[i], |fe.locals|));
      }
    }

    /** The value of a tree meets what production p has so far. */
    method MergeValue(p: nat, first: bool, control: nat, expr: Tree)
      requires p < |stack|
      modifies this`g, this`stack
      ensures (g, stack) == ValueMerged(old(g), old(stack), p, first, control, expr)
    {
      var q := stack[p];
      if expr.ty.End? { return; }
      if first {
        stack := stack[p := q.(ty := expr.ty, node := expr.node)];
      } else if expr.ty != q.ty {
        stack := stack[p := q.(ty := Stmt, node := 0)];
      } else if !q.ty.Stmt? {
        var node := CreateOrMergeIntoPhi(q.ty, control, q.node, expr.node);
        stack := stack[p := q.(node := node)];
      }
    }

    /** Control and a value flow from the current environment into a production's environment. */
    method MergeIntoProduction(p: nat, target: SsaEnv, expr: Tree)
      requires Valid() && Known(zone, target) && target != ssaEnv && p < |stack|
      requires (ssaEnv.Go() ==> !target.state.ControlEnd?)
      modifies this, repr
      ensures Valid() && fresh(repr - old(repr)) && zone == old(zone) && ssaEnv == old(ssaEnv) && blocks == old(blocks)
      ensures ifs == old(ifs) && ok == old(ok)
      ensures Abs() == Lr.MergeIntoProduction(fe, old(Abs()), p, target.id, expr)
    {
      hide Ssa.Goto, MergeNode, ValueMerged;
      ghost var s := Abs();
      assert ssaEnv.Shows(envs[ssaEnv.id], |fe.locals|) && target.Shows(envs[target.id], |fe.locals|);
      if !ssaEnv.Go() { return; }
      var first := target.state.Unreached?;
      Goto(ssaEnv, target);
      assert target.Shows(envs[target.id], |fe.locals|);
      MergeValue(p, first, target.control, expr);
      MergedAsValue(fe, s, p, target.id, expr);
    }

    method ReduceBreakToExprBlock(b: Block, last: Tree)
      requires Valid() && Known(zone, b.env) && b.env != ssaEnv && b.depth < |stack|
      requires (ssaEnv.Go() ==> !b.env.state.ControlEnd?)
      modifies this, repr
      ensures Valid() && fresh(repr - old(repr)) && zone == old(zone) && ssaEnv == old(ssaEnv) && blocks == old(blocks)
      ensures ifs == old(ifs) && ok == old(ok)
      ensures Abs() == ReduceBreak(fe, old(Abs()), Blk(b.env.id, b.depth), last)
    {
      hide Ssa.Goto, Lr.MergeIntoProduction;
      assert ssaEnv.Shows(envs[ssaEnv.id], |fe.locals|);
      if b.depth < 0 {
        Goto(ssaEnv, b.env);
      } else {
        MergeIntoProduction(b.depth, b.env, last);
      }
    }

    /** The nodes of an operator on the current control and effect. */
    method BuildNodes(op: Op, args: seq<nat>, ghost e: Env) returns (node: nat)
      requires ssaEnv.Shows(e, |fe.locals|) && ssaEnv.Go()
      modifies this`g, ssaEnv`control, ssaEnv`effect
      ensures |e.slots| > 0
      ensures var (g', e', n) := BuildOp(old(g), e, op, args);
        g == g' && ssaEnv.Shows(e', |fe.locals|) && node == n
    {
      var world := ssaEnv.effect;
      var inputs := if op.effect then args + [world] else args;
      if op.traps {
        g := g + [Check(op, inputs, world, ssaEnv.control)];
        ssaEnv.control := |g| - 1;
      }
      if op.store && |args| > 0 {
        node := args[|args| - 1];
      } else {
        node := |g|;
        g := g + [App(op, inputs)];
      }
      if op.effect {
        g := g + [World(op, inputs)];
        ssaEnv.effect := |g| - 1;
      }
    }

    method Build(op: Op, args: seq<nat>) returns (node: nat)
      requires Valid() && ssaEnv.Go()
      modifies this`g, this`envs, ssaEnv
      ensures Valid()
      ensures |old(envs)[ssaEnv.id].slots| > 0
      ensures var (g', e, n) := BuildOp(old(g), old(envs)[ssaEnv.id], op, args);
        g == g' && envs == old(envs)[ssaEnv.id := e] && node == n
    {
      hide BuildOp;
      ghost var e := envs[ssaEnv.id];
      assert ssaEnv.Shows(e, |fe.locals|);
      node := BuildNodes(op, args, e);
      Touch(BuildOp(old(g), e, op, args).1);
    }

    /** The ghost environments follow a change of the current one. */
    ghost method Touch(e: Env)
      requires |envs| == |zone| && this !in repr && Known(zone, ssaEnv) && ssaEnv.Shows(e, |fe.locals|)
      requires forall i :: 0 <= i < |zone| ==>
        zone[i] in repr && zone[i].id == i && (zone[i].locals != null ==> zone[i].locals in repr)
      requires forall i :: 0 <= i < |zone| && i != ssaEnv.id ==> zone[i].Shows(envs[i], |fe.locals|)
      requires forall i, j :: 0 <= i < j < |zone| && zone[i].locals != null ==> zone[i].locals != zone[j].locals
      modifies this`envs
      ensures EnvsValid() && envs == old(envs)[ssaEnv.id := e]
    {
      envs := envs[ssaEnv.id := e];
    }

    /** A branch on a node: its two projections. */
    method Branch(cond: nat) returns (ifTrue: nat, ifFalse: nat)
      modifies this`g
      ensures (g, ifTrue, ifFalse) == BuildBranch(old(g), ssaEnv.control, cond)
    {
      ifTrue, ifFalse := |g| + 1, |g| + 2;
      g := g + [Node.Branch(cond, ssaEnv.control), IfTrue(|g|), IfFalse(|g|)];
    }

    /** The current environment and the environments pending in c. */
    ghost predicate Ready(c: seq<nat>)
      reads this, repr
    {
      && Valid() && Steady(Abs(), c) && c != [] && stack != [] && stack[|stack| - 1].kids != []
    }

    /** An operator with all its operands. */
    method ReduceApply(op: Op)
      requires Valid() && stack != []
      modifies this, repr
      ensures Valid() && fresh(repr - old(repr)) && ok == old(ok)
      ensures var s := old(Abs());
        var p := s.stack[|s.stack| - 1];
        Abs() == if !Cur(s).Go() || |Cur(s).slots| == 0 then s
          else var (g', e, n) := BuildOp(s.g, Cur(s), op, Nodes(p.kids)); SetProduction(SetCur(s.(g := g'), e),
            |s.stack| - 1, p.ty, n)
    {
      hide BuildOp;
      var top := |stack| - 1;
      assert ssaEnv.Shows(envs[ssaEnv.id], |fe.locals|);
      if ssaEnv.Go() {
        var node := Build(op, Nodes(stack[top].kids));
        stack := stack[top := stack[top].(node := node)];
      }
    }

    /** The store is made whether or not there is an array; without one it goes astray. */
    method SetLocal(i: nat, node: nat)
      requires EnvsValid() && Known(zone, ssaEnv) && i < |fe.locals|
      modifies this`envs, this`strayed, ssaEnv.locals
      ensures EnvsValid()
      ensures var e := old(envs)[ssaEnv.id];
        strayed == (old(strayed) || !e.Go())
          && envs == old(envs)[ssaEnv.id := e.(slots := if i < |e.slots| then e.slots[i := node] else e.slots)]
    {
      ghost var e := envs[ssaEnv.id];
      assert ssaEnv.Shows(e, |fe.locals|);
      if ssaEnv.locals == null { strayed := true; } else { ssaEnv.locals[i] := node; }
      forall j | 0 <= j < |zone| && j != ssaEnv.id ensures zone[j].Shows(envs[j], |fe.locals|) {
        assert old(zone[j].Shows(envs[j], |fe.locals|));
      }
      ghost var e' := e.(slots := if i < |e.slots| then e.slots[i := node] else e.slots);
      assert ssaEnv.Go() ==> ssaEnv.locals[..] + [ssaEnv.effect] == e'.slots;
      Touch(e');
    }

    method ReduceSetLocal(i: nat, node: nat)
      requires Valid() && stack != [] && i < |fe.locals|
      modifies this, repr
      ensures Valid() && fresh(repr - old(repr)) && ok == old(ok)
      ensures var s := old(Abs());
        var e := Cur(s);
        Abs() == SetProduction(SetCur(s.(strayed := s.strayed || !e.Go()),
            e.(slots := if i < |e.slots| then e.slots[i := node] else e.slots)),
                               |s.stack| - 1, s.stack[|s.stack| - 1].ty, node)
    {
      SetLocal(i, node);
      stack := stack[|stack| - 1 := stack[|stack| - 1].(node := node)];
    }

    method ReduceReturn(value: nat)
      requires Valid()
      modifies this, repr
      ensures Valid() && fresh(repr - old(repr)) && ok == old(ok)
      ensures var s := old(Abs());
        var e := Cur(s);
        Abs() == SetCur(s.(g := if e.Go() && |e.slots| > 0 then s.g + [Ret(value, e.slots[|e.slots| - 1], e.control)]
            else s.g), Ssa.Kill(ControlEnd))
    {
      assert ssaEnv.Shows(envs[ssaEnv.id], |fe.locals|);
      if ssaEnv.Go() { g := g + [Ret(value, ssaEnv.effect, ssaEnv.control)]; }
      ssaEnv.Kill(ControlEnd);
      Touch(Ssa.Kill(ControlEnd));
    }

    method SetControl(env: SsaEnv, control: nat)
      requires EnvsValid() && Known(zone, env) && env.Go()
      modifies this`envs, env`control
      ensures EnvsValid() && envs == old(envs)[env.id := old(envs)[env.id].(control := control)]
    {
      assert env.Shows(envs[env.id], |fe.locals|);
      env.control := control;
      envs := envs[env.id := envs[env.id].(control := control)];
      forall j | 0 <= j < |zone| ensures zone[j].Shows(envs[j], |fe.locals|) {
        assert old(zone[j].Shows(envs[j], |fe.locals|));
      }
    }

    lemma CurKnown()
      requires Valid()
      ensures Known(zone, ssaEnv)
    {
    }

    /** What the object of an environment shows of it. */
    lemma Seen(env: SsaEnv)
      requires EnvsValid() && Known(zone, env)
      ensures |envs| == |zone| && env.state == envs[env.id].state && env.control == envs[env.id].control
      ensures (env.locals == null <==> !env.Go())
      ensures env.Go() ==> |envs[env.id].slots| == |fe.locals| + 1 && envs[env.id].slots[|fe.locals|] == env.effect
      ensures this !in repr && env in repr && (env.locals != null ==> env.locals in repr)
    {
      assert env.Shows(envs[env.id], |fe.locals|);
    }

    /** Branch on a node: the current environment continues on the false side, a copy on the true side. */
    method Fork(cond: nat) returns (t: SsaEnv)
      requires Valid()
      modifies this`g, this`zone, this`envs, this`repr, ssaEnv
      ensures Valid() && fresh(repr - old(repr)) && zone == old(zone) + [t] && t.id == |old(zone)|
      ensures Abs() == Forked(old(Abs()), cond)
    {
      hide BuildBranch, EnvsValid, SsaEnv.Shows, AllKnown;
      assert Known(zone, ssaEnv) by { CurKnown(); }
      Seen(ssaEnv);
      ghost var e := envs[ssaEnv.id];
      t := Split(ssaEnv);
      KnownMore(old(zone), [t], ssaEnv, blocks, ifs);
      Seen(t);
      Seen(ssaEnv);
      if ssaEnv.Go() {
        var ifTrue, ifFalse := Branch(cond);
        SetControl(t, ifTrue);
        SetControl(ssaEnv, ifFalse);
        assert envs == old(envs)[ssaEnv.id := e.(control := ifFalse)] + [Ssa.Split(e).(control := ifTrue)];
      } else {
        assert envs == old(envs)[ssaEnv.id := e] + [Ssa.Split(e)];
      }
    }

    method ReduceBrIf(b: Block, cond: nat, last: Tree, ghost c: seq<nat>)
      requires Ready(c) && b in blocks
      modifies this, repr
      ensures Valid() && fresh(repr - old(repr)) && ok == old(ok)
      ensures var s := old(Abs());
        Abs() == ReduceBreak(fe, Forked(s, cond).(cur := |s.zone|), Blk(b.env.id, b.depth), last).(cur := s.cur)
    {
      hide ReduceBreak, EnvsValid, SsaEnv.Shows, BuildBranch;
      BlockReady(b, c);
      Seen(b.env);
      Seen(ssaEnv);
      var fenv := ssaEnv;
      var t := Fork(cond);
      Seen(b.env);
      ssaEnv := t;
      Seen(t);
      assert Abs() == Forked(old(Abs()), cond).(cur := t.id);
      ReduceBreakToExprBlock(b, last);
      Seen(t);
      ssaEnv := fenv;
    }

    lemma BlockReady(b: Block, c: seq<nat>)
      requires Ready(c) && b in blocks
      ensures Known(zone, b.env) && b.env != ssaEnv && b.depth < |stack| && (ssaEnv.Go() ==> !b.env.state.ControlEnd?)
    {
      var i :| 0 <= i < |blocks| && blocks[i] == b;
      assert Ids(blocks)[i] == Blk(b.env.id, b.depth);
      PendingTarget(Abs(), c, b.env.id);
      assert b.env.Shows(envs[b.env.id], |fe.locals|) && ssaEnv.Shows(envs[ssaEnv.id], |fe.locals|);
    }

    /** Select: a branch whose sides meet at once in a phi of the two operands. */
    method ReduceSelect()
      requires Valid() && stack != [] && stack[|stack| - 1].kids != []
      modifies this, repr
      ensures Valid() && fresh(repr - old(repr)) && ok == old(ok)
      ensures Lr.ReduceSelect(fe, old(Abs())) == Next(Abs())
    {
      hide BuildBranch, EnvsValid, SsaEnv.Shows, AllKnown;
      CurKnown();
      Seen(ssaEnv);
      var top := |stack| - 1;
      var p := stack[top];
      if |p.kids| == 2 {
        stack := stack[top := p.(ty := p.kids[1].ty, node := 0)];
      } else if |p.kids| >= 3 && ssaEnv.Go() {
        var ifTrue, ifFalse := Branch(p.kids[0].node);
        var merge := |g|;
        g := g + [Merge([ifTrue, ifFalse]), Phi(p.ty, [p.kids[1].node, p.kids[2].node], merge)];
        SetControl(ssaEnv, merge);
        stack := stack[top := p.(node := merge + 1)];
      }
    }

    /** If: after the condition the arm gets a copy; after the arm both sides meet in the environment the
        condition left. */
    method ReduceIf(ghost c: seq<nat>)
      requires Ready(c)
      requires |stack[|stack| - 1].kids| >= 2 ==> ifs != [] && ifs[|ifs| - 1].mergeEnv.id in c[..|c| - 1]
      modifies this, repr
      ensures Valid() && fresh(repr - old(repr)) && ok == old(ok)
      ensures Lr.ReduceIf(fe, old(Abs())) == Next(Abs())
    {
      var p := stack[|stack| - 1];
      if |p.kids| == 1 { IfCondition(p.kids[0].node); } else { IfMerge(c); }
    }

    method IfCondition(cond: nat)
      requires Valid()
      modifies this, repr
      ensures Valid() && fresh(repr - old(repr)) && ok == old(ok)
      ensures var s := old(Abs()); Abs() == Forked(s, cond).(cur := |s.zone|, ifs := s.ifs + [IfEnv(s.cur, s.cur)])
    {
      hide BuildBranch, EnvsValid, SsaEnv.Shows, AllKnown, Forked;
      CurKnown();
      Seen(ssaEnv);
      var t := Fork(cond);
      Seen(t);
      KnownIf(zone, ssaEnv, blocks, ifs, Pair(ssaEnv, ssaEnv), t);
      ifs := ifs + [Pair(ssaEnv, ssaEnv)];
      assert Pairs(ifs) == old(Pairs(ifs)) + [IfEnv(ssaEnv.id, ssaEnv.id)];
      ssaEnv := t;
    }

    method SetReached(env: SsaEnv)
      requires EnvsValid() && Known(zone, env) && env.Go()
      modifies this`envs, env`state
      ensures EnvsValid() && envs == old(envs)[env.id := old(envs)[env.id].(state := Reached)] && env.state.Reached?
    {
      assert env.Shows(envs[env.id], |fe.locals|);
      env.state := Reached;
      envs := envs[env.id := envs[env.id].(state := Reached)];
      forall j | 0 <= j < |zone| ensures zone[j].Shows(envs[j], |fe.locals|) {
        assert old(zone[j].Shows(envs[j], |fe.locals|));
      }
    }

    /** The arm of an if flows into the environment its condition left. */
    method Join(merge: SsaEnv)
      requires Valid() && Known(zone, merge) && merge != ssaEnv && (ssaEnv.Go() ==> !merge.state.ControlEnd?)
      modifies this`g, this`envs, ssaEnv, merge, merge.locals
      ensures EnvsValid() && Abs() == JoinArm(fe, old(Abs()), merge.id)
    {
      hide EnvsValid, SsaEnv.Shows, AllKnown, Ssa.Goto;
      CurKnown();
      Seen(ssaEnv);
      Seen(merge);
      if merge.Go() {
        SetReached(merge);
        Goto(ssaEnv, merge);
      }
    }

    method IfMerge(ghost c: seq<nat>)
      requires Ready(c) && ifs != [] && ifs[|ifs| - 1].mergeEnv.id in c[..|c| - 1]
      modifies this, repr
      ensures Valid() && fresh(repr - old(repr)) && ok == old(ok)
      ensures var s := old(Abs());
        var m := s.ifs[|s.ifs| - 1].mergeEnv;
        Abs() == JoinArm(fe, s, m).(cur := m, ifs := s.ifs[..|s.ifs| - 1])
    {
      hide EnvsValid, SsaEnv.Shows, AllKnown, JoinArm;
      var merge := ifs[|ifs| - 1].mergeEnv;
      CurKnown();
      LastKnown(zone, ssaEnv, blocks, ifs);
      PendingTarget(Abs(), c, merge.id);
      Seen(ssaEnv);
      Seen(merge);
      Join(merge);
      Seen(merge);
      ifs := ifs[..|ifs| - 1];
      assert Pairs(ifs) == old(Pairs(ifs))[..|ifs|];
      ssaEnv := merge;
    }

    /** If-else: both arms get environments, and the one the condition left waits for their ends. */
    method ForkElse(cond: nat) returns (t: SsaEnv, f: SsaEnv)
      requires Valid()
      modifies this`g, this`zone, this`envs, this`repr, ssaEnv
      ensures Valid() && fresh(repr - old(repr)) && zone == old(zone) + [f, t] && f.id == |old(zone)|
      ensures t.id == |old(zone)| + 1
      ensures Abs() == ElseForked(old(Abs()), cond)
    {
      hide BuildBranch, EnvsValid, SsaEnv.Shows, AllKnown;
      CurKnown();
      Seen(ssaEnv);
      ghost var e := envs[ssaEnv.id];
      var live, ifTrue, ifFalse := ssaEnv.Go(), 0, 0;
      if live { ifTrue, ifFalse := Branch(cond); }
      f := Split(ssaEnv);
      t := Steal(ssaEnv);
      KnownMore(old(zone), [f, t], ssaEnv, blocks, ifs);
      assert old(zone) + [f, t] == zone;
      Seen(f);
      Seen(t);
      if live {
        SetControl(f, ifFalse);
        SetControl(t, ifTrue);
      }
      assert envs == old(envs)[ssaEnv.id := Victim(e)] + [Ssa.Split(e).(control := ifFalse)]
          + [Stolen(e).(control := ifTrue)];
    }

    method IfElseCondition(cond: nat)
      requires Valid()
      modifies this, repr
      ensures Valid() && fresh(repr - old(repr)) && ok == old(ok)
      ensures var s := old(Abs());
        Abs() == ElseForked(s, cond).(cur := |s.zone| + 1, ifs := s.ifs + [IfEnv(|s.zone|, s.cur)])
    {
      hide BuildBranch, EnvsValid, SsaEnv.Shows, AllKnown, ElseForked;
      CurKnown();
      Seen(ssaEnv);
      var t, f := ForkElse(cond);
      Seen(t);
      KnownIf(zone, ssaEnv, blocks, ifs, Pair(f, ssaEnv), t);
      ifs := ifs + [Pair(f, ssaEnv)];
      assert Pairs(ifs) == old(Pairs(ifs)) + [IfEnv(f.id, ssaEnv.id)];
      ssaEnv := t;
    }

    /** The end of an arm: its value meets the production, and decoding moves to the other arm or out. */
    method IfElseArm(ghost c: seq<nat>)
      requires Ready(c) && |stack[|stack| - 1].kids| >= 2 && ifs != [] && ifs[|ifs| - 1].mergeEnv.id in c[..|c| - 1]
      modifies this, repr
      ensures Valid() && fresh(repr - old(repr)) && ok == old(ok)
      ensures Lr.ReduceIfElse(fe, old(Abs())) == Next(Abs())
    {
      hide EnvsValid, SsaEnv.Shows, AllKnown, Lr.MergeIntoProduction;
      var top := |stack| - 1;
      var p := stack[top];
      var k := |p.kids|;
      var f := ifs[|ifs| - 1];
      CurKnown();
      LastKnown(zone, ssaEnv, blocks, ifs);
      PendingTarget(Abs(), c, f.mergeEnv.id);
      Seen(ssaEnv);
      Seen(f.mergeEnv);
      MergeIntoProduction(top, f.mergeEnv, p.kids[k - 1]);
      Seen(f.mergeEnv);
      if k == 2 {
        ssaEnv := f.falseEnv;
      } else {
        ssaEnv := f.mergeEnv;
        ifs := ifs[..|ifs| - 1];
        assert Pairs(ifs) == old(Pairs(ifs))[..|ifs|];
      }
    }

    method ReduceIfElse(ghost c: seq<nat>)
      requires Ready(c)
      requires |stack[|stack| - 1].kids| >= 2 ==> ifs != [] && ifs[|ifs| - 1].mergeEnv.id in c[..|c| - 1]
      modifies this, repr
      ensures Valid() && fresh(repr - old(repr)) && ok == old(ok)
      ensures Lr.ReduceIfElse(fe, old(Abs())) == Next(Abs())
    {
      hide EnvsValid, SsaEnv.Shows, AllKnown, BuildBranch;
      var p := stack[|stack| - 1];
      if |p.kids| == 1 { IfElseCondition(p.kids[0].node); } else { IfElseArm(c); }
    }

    /** The last tree of a block or loop: drop the loop's inner entry, fall through to the outer one. */
    method LeaveBlock(last: Tree, ghost c: seq<nat>)
      requires Ready(c) && blocks != []
      modifies this, repr
      ensures Valid() && fresh(repr - old(repr)) && ok == old(ok)
      ensures FallOut(fe, old(Abs()), last) == Next(Abs())
    {
      hide EnvsValid, SsaEnv.Shows, AllKnown, ReduceBreak;
      var b := blocks[|blocks| - 1];
      BlockReady(b, c);
      ReduceBreakToExprBlock(b, last);
      Seen(b.env);
      LastBlockKnown(zone, ssaEnv, blocks, ifs);
      ssaEnv := b.env;
      blocks := blocks[..|blocks| - 1];
      assert Ids(blocks) == old(Ids(blocks))[..|blocks|];
    }

    method PopContinue(ghost c: seq<nat>)
      requires Ready(c) && |blocks| >= 2
      modifies this`blocks
      ensures Ready(c) && blocks == old(blocks)[..|old(blocks)| - 1]
      ensures Abs() == old(Abs()).(blocks := old(Abs()).blocks[..|old(blocks)| - 1])
    {
      hide EnvsValid, SsaEnv.Shows, AllKnown, Ordered;
      LastBlockKnown(zone, ssaEnv, blocks, ifs);
      CurKnown();
      Seen(ssaEnv);
      blocks := blocks[..|blocks| - 1];
      assert Ids(blocks) == old(Ids(blocks))[..|blocks|];
    }

    lemma ThisApart()
      requires EnvsValid()
      ensures this !in repr
    {
    }

    /** The first error; nothing after it matters. */
    method Error()
      requires Valid()
      modifies this`ok
      ensures Valid() && !ok && Abs() == old(Abs())
    {
      ThisApart();
      ok := false;
    }

    /** Operators, locals, returns and branches. */
    method ReducePlain(ghost c: seq<nat>)
      requires Ready(c) && ok && ChildOk(fe, stack[|stack| - 1]) && NoEntries(stack[|stack| - 1].instr)
      modifies this, repr
      ensures Valid() && fresh(repr - old(repr))
      ensures if ok then Lr.Reduce(fe, old(Abs())) == Next(Abs()) else Lr.Reduce(fe, old(Abs())) == Fail(strayed)
    {
      hide EnvsValid, AllKnown, BuildOp, BuildBranch, ReduceBreak, FallOut, Lr.ReduceSelect, Lr.ReduceIf,
           Lr.ReduceIfElse, ChildOk, Steady,
        SetCur, SetProduction, Alloc, SsaEnv.Shows;
      var p := stack[|stack| - 1];
      var k := |p.kids|;
      var last := p.kids[k - 1];
      match p.instr
      case Apply(op) => if k >= |op.params| { ReduceApply(op); }
      case SetLocal(i) =>
        LocalOk(fe, p);
        ReduceSetLocal(i, last.node);
      case Return => ReduceReturn(last.node);
      case Br(d) =>
        if d >= |blocks| {
          Error();
        } else {
          var b := blocks[|blocks| - d - 1];
          BlockReady(b, c);
          ReduceBreakToExprBlock(b, last);
        }
      case BrIf(d) =>
        if k >= 2 {
          if d >= |blocks| {
            Error();
          } else {
            ReduceBrIf(blocks[|blocks| - d - 1], p.kids[0].node, last, c);
          }
        }
      case Select => ReduceSelect();
      case _ =>
    }

    /** Blocks and loops: nothing until the last tree. */
    method ReduceBlock(count: nat, ghost c: seq<nat>)
      requires Ready(c) && blocks != []
      modifies this, repr
      ensures Valid() && fresh(repr - old(repr)) && ok == old(ok)
      ensures var p := old(stack)[|old(stack)| - 1];
        Next(Abs()) == if |p.kids| < count then Next(old(Abs())) else FallOut(fe, old(Abs()), p.kids[|p.kids| - 1])
    {
      hide FallOut, Steady, EnvsValid, AllKnown;
      var p := stack[|stack| - 1];
      if |p.kids| >= count { LeaveBlock(p.kids[|p.kids| - 1], c); }
    }

    method ReduceLoop(count: nat, ghost c: seq<nat>)
      requires Ready(c) && |blocks| >= 2
      modifies this, repr
      ensures Valid() && fresh(repr - old(repr)) && ok == old(ok)
      ensures var s := old(Abs());
        var p := s.stack[|s.stack| - 1];
        Next(Abs()) == if |p.kids| < count then Next(s)
            else FallOut(fe, s.(blocks := s.blocks[..|s.blocks| - 1]), p.kids[|p.kids| - 1])
    {
      hide FallOut, Steady, EnvsValid, AllKnown;
      var p := stack[|stack| - 1];
      if |p.kids| >= count {
        PopContinue(c);
        LeaveBlock(p.kids[|p.kids| - 1], c);
      }
    }

    /** The entries the top production needs are there. */
    ghost predicate HasEntries(c: seq<nat>)
      reads this
    {
      c != [] && stack != [] && var p := stack[|stack| - 1];
      && ((p.instr.If? || p.instr.IfElse?) && |p.kids| >= 2 ==> ifs != [] && ifs[|ifs| - 1].mergeEnv.id in c[..|c| - 1])
      && (p.instr.Block? ==> blocks != []) && (p.instr.Loop? ==> |blocks| >= 2)
    }

    method ReduceTop(ghost c: seq<nat>)
      requires Ready(c) && ok && HasEntries(c)
      modifies this, repr
      ensures Valid() && fresh(repr - old(repr))
      ensures if ok then Lr.Reduce(fe, old(Abs())) == Next(Abs()) else Lr.Reduce(fe, old(Abs())) == Fail(strayed)
    {
      hide EnvsValid, AllKnown, Lr.Reduce, FallOut, Lr.ReduceIf, Lr.ReduceIfElse, ChildOk, Steady;
      var p := stack[|stack| - 1];
      ReduceControl(fe, Abs());
      if !ChildOk(fe, p) {
        Error();
        return;
      }
      match p.instr
      case If => ReduceIf(c);
      case IfElse => ReduceIfElse(c);
      case Block(n) => ReduceBlock(n, c);
      case Loop(n) => ReduceLoop(n, c);
      case _ => ReducePlain(c);
    }

    /** What the last child of the top production lets the decoder do. */
    method Reduce(ghost s: State, ghost t: Tree)
      requires Valid() && ok && Sound(fe, s) && s.stack != [] && !Done(fe, s.stack[|s.stack| - 1])
      requires Abs() == Hang(s, t)
      modifies this, repr
      ensures Valid() && fresh(repr - old(repr))
      ensures if ok then Lr.Reduce(fe, old(Abs())) == Next(Abs()) else Lr.Reduce(fe, old(Abs())) == Fail(strayed)
    {
      hide EnvsValid, AllKnown, Lr.Reduce, Sound;
      HangSteady(fe, s, t);
      IfPends(fe, s);
      BlockPends(fe, s);
      assert Ids(blocks) == s.blocks && Pairs(ifs) == s.ifs;
      ReduceTop(Owners(fe, s));
    }

    /** Reduce a finished tree into the production stack as far as productions get finished. */
    method ReduceTree(tree: Tree)
      requires Valid() && ok && Sound(fe, Abs()) && AllWait(fe, Abs())
      modifies this, repr
      ensures Valid() && fresh(repr - old(repr))
      ensures if ok then Lr.ReduceTree(fe, old(Abs()), tree) == Next(Abs())
        else Lr.ReduceTree(fe, old(Abs()), tree) == Fail(strayed)
    {
      hide EnvsValid, AllKnown, Lr.Reduce, Sound, Done;
      var t := tree;
      while stack != []
        invariant Valid() && ok && Sound(fe, Abs()) && AllWait(fe, Abs()) && fresh(repr - old(repr))
        invariant Lr.ReduceTree(fe, Abs(), t) == Lr.ReduceTree(fe, old(Abs()), tree)
        decreases |stack|
      {
        ghost var s := Abs();
        Attach(t);
        if !ok { return; }
        AttachSound(fe, s, t);
        AttachUnder(fe, s, t);
        var p := stack[|stack| - 1];
        if !Done(fe, p) { return; }
        PopSound(fe, Abs());
        Pop();
        t := TreeOf(p);
      }
      Collect(t);
    }

    method Attach(t: Tree)
      requires Valid() && ok && Sound(fe, Abs()) && stack != [] && !Done(fe, stack[|stack| - 1])
      modifies this, repr
      ensures Valid() && fresh(repr - old(repr))
      ensures if ok then Lr.Attach(fe, old(Abs()), t) == Next(Abs()) else Lr.Attach(fe, old(Abs()), t) == Fail(strayed)
    {
      hide EnvsValid, AllKnown, Lr.Reduce, Sound, Done;
      ghost var s := Abs();
      var p := stack[|stack| - 1];
      ThisApart();
      stack := stack[|stack| - 1 := p.(kids := p.kids + [t])];
      Reduce(s, t);
    }

    method Pop()
      requires Valid() && stack != []
      modifies this`stack
      ensures Valid() && Abs() == old(Abs()).(stack := old(stack)[..|old(stack)| - 1])
    {
      ThisApart();
      stack := stack[..|stack| - 1];
    }

    method Collect(t: Tree)
      requires Valid()
      modifies this`trees
      ensures Valid() && Abs() == old(Abs()).(trees := old(trees) + [t])
    {
      ThisApart();
      trees := trees + [t];
    }

    /** A block: the outer environment waits for its end, and decoding goes on in a copy that stole its state. */
    method EnterBlock()
      requires Valid() && stack != []
      modifies this, repr
      ensures Valid() && fresh(repr - old(repr)) && ok == old(ok)
      ensures var s := old(Abs());
        var e := Cur(s);
        Abs() == Alloc(SetCur(s, Victim(e)), Stolen(e)).(cur := |s.zone|,
            blocks := s.blocks + [Blk(s.cur, |s.stack| - 1)])
    {
      hide EnvsValid, SsaEnv.Shows, AllKnown;
      CurKnown();
      Seen(ssaEnv);
      var breakEnv := ssaEnv;
      var inner := Steal(breakEnv);
      Seen(inner);
      KnownMore(old(zone), [inner], ssaEnv, blocks, ifs);
      KnownBlock(zone, ssaEnv, blocks, ifs, Entry(breakEnv, |stack| - 1), inner);
      blocks := blocks + [Entry(breakEnv, |stack| - 1)];
      assert Ids(blocks) == old(Ids(blocks)) + [Blk(breakEnv.id, |stack| - 1)];
      ssaEnv := inner;
    }

    /** The environments of a loop: its header, and a copy of it for the body. */
    method OpenLoop() returns (contEnv: SsaEnv, inner: SsaEnv)
      requires Valid()
      modifies this`g, this`zone, this`envs, this`repr, ssaEnv, ssaEnv.locals
      ensures EnvsValid() && fresh(repr - old(repr)) && zone == old(zone) + [contEnv, inner]
      ensures contEnv.id == |old(zone)| && inner.id == |old(zone)| + 1
      ensures var s := old(Abs());
        var (g', c) := Ssa.PrepareForLoop(fe, s.g, Stolen(Cur(s)));
        g == g' && envs == s.zone[s.cur := Victim(Cur(s))] + [c, Ssa.Split(c)]
    {
      hide EnvsValid, SsaEnv.Shows, AllKnown, Ssa.PrepareForLoop;
      CurKnown();
      Seen(ssaEnv);
      ghost var e := envs[ssaEnv.id];
      contEnv := Steal(ssaEnv);
      Seen(contEnv);
      ghost var prepared := Ssa.PrepareForLoop(fe, g, Stolen(e));
      PrepareForLoop(contEnv);
      inner := Split(contEnv);
      assert zone == old(zone) + [contEnv, inner];
      assert envs == old(envs)[ssaEnv.id := Victim(e)] + [prepared.1, Ssa.Split(prepared.1)];
    }

    /** A loop: inside the outer entry, the header environment waits for jumps back. */
    method EnterLoop()
      requires Valid() && stack != []
      modifies this, repr
      ensures Valid() && fresh(repr - old(repr)) && ok == old(ok)
      ensures var s := old(Abs());
        var e := Cur(s);
        var (g', c) := Ssa.PrepareForLoop(fe, s.g, Stolen(e));
        Abs() == Alloc(Alloc(SetCur(s.(g := g'), Victim(e)), c), Ssa.Split(c)).(cur := |s.zone| + 1,
                   blocks := s.blocks + [Blk(s.cur, |s.stack| - 1), Blk(|s.zone|, -1)])
    {
      hide EnvsValid, SsaEnv.Shows, AllKnown, Ssa.PrepareForLoop, Ssa.Split;
      CurKnown();
      Seen(ssaEnv);
      var breakEnv := ssaEnv;
      ghost var e := envs[breakEnv.id];
      var contEnv, inner := OpenLoop();
      Seen(inner);
      KnownMore(old(zone), [contEnv, inner], ssaEnv, blocks, ifs);
      KnownBlock(zone, ssaEnv, blocks, ifs, Entry(breakEnv, |stack| - 1), inner);
      KnownBlock(zone, inner, blocks + [Entry(breakEnv, |stack| - 1)], ifs, Entry(contEnv, -1), inner);
      blocks := blocks + [Entry(breakEnv, |stack| - 1)] + [Entry(contEnv, -1)];
      assert Ids(blocks) == old(Ids(blocks)) + [Blk(breakEnv.id, |stack| - 1), Blk(contEnv.id, -1)];
      ssaEnv := inner;
      LoopZone(old(envs), breakEnv.id, Victim(e), envs[contEnv.id], Ssa.Split(envs[contEnv.id]));
    }

    method Push(p: Production)
      requires Valid()
      modifies this`stack
      ensures Valid() && stack == old(stack) + [p] && Abs() == old(Abs()).(stack := old(stack) + [p])
    {
      ThisApart();
      stack := stack + [p];
    }

    /** Begin a tree with children. */
    method Shift(instr: Instr, pc: nat, len: nat)
      requires Valid() && ok
      modifies this, repr
      ensures Valid() && fresh(repr - old(repr))
      ensures if ok then Lr.Shift(fe, old(Abs()), instr, pc, len) == Next(Abs())
        else Lr.Shift(fe, old(Abs()), instr, pc, len) == Fail(strayed)
    {
      hide EnvsValid, AllKnown, Ssa.PrepareForLoop;
      Push(Production(instr, pc, len, InitialType(fe, instr), 0, []));
      match instr
      case Block(_) => EnterBlock();
      case Loop(_) => EnterLoop();
      case Br(d) => if d >= |blocks| { Error(); }
      case BrIf(d) => if d >= |blocks| { Error(); }
      case SetLocal(i) => if i >= |fe.locals| { Error(); }
      case _ =>
    }

    method AddNode(n: Node)
      requires Valid()
      modifies this`g
      ensures Valid() && Abs() == old(Abs()).(g := old(g) + [n])
    {
      ThisApart();
      g := g + [n];
    }

    method Unreachable()
      requires Valid()
      modifies this, repr
      ensures Valid() && fresh(repr - old(repr)) && ok == old(ok)
      ensures var s := old(Abs());
        var e := Cur(s);
        Abs() == SetCur(s.(g := if e.Go() && |e.slots| > 0 then s.g + [Dead(e.slots[|e.slots| - 1], e.control)]
            else s.g), Ssa.Kill(ControlEnd))
    {
      assert ssaEnv.Shows(envs[ssaEnv.id], |fe.locals|);
      if ssaEnv.Go() { g := g + [Dead(ssaEnv.effect, ssaEnv.control)]; }
      ssaEnv.Kill(ControlEnd);
      Touch(Ssa.Kill(ControlEnd));
    }

    method ReadLocal(i: nat) returns (node: nat)
      requires Valid() && i < |fe.locals|
      ensures var e := Cur(Abs()); node == if i < |e.slots| then e.slots[i] else 0
    {
      assert ssaEnv.Shows(envs[ssaEnv.id], |fe.locals|);
      node := if ssaEnv.Go() then ssaEnv.locals[i] else 0;
    }

    /** A tree without children: its effect, type and node. */
    method Leaf(instr: Instr) returns (ty: LocalType, node: nat)
      requires Valid() && ok && Arity(fe, instr) == 0
      modifies this, repr
      ensures Valid() && fresh(repr - old(repr))
      ensures if ok then Lr.Leaf(fe, old(Abs()), instr) == Res3(Abs(), ty, node)
        else Lr.Leaf(fe, old(Abs()), instr).NoRes? && strayed == old(strayed)
    {
      hide EnvsValid, SsaEnv.Shows, AllKnown, BuildOp;
      CurKnown();
      Seen(ssaEnv);
      ty, node := Stmt, 0;
      match instr
      case Const(t, bits) =>
        ty := t;
        if ssaEnv.Go() {
          node := |g|;
          AddNode(Literal(t, bits));
        }
      case GetLocal(i) =>
        if i >= |fe.locals| {
          Error();
        } else {
          ty := fe.locals[i];
          node := ReadLocal(i);
        }
      case Unreachable =>
        ty := End;
        Unreachable();
      case Return =>
        ty := End;
        ReduceReturn(0);
      case Apply(op) =>
        ty := op.result;
        if ssaEnv.Go() { node := Build(op, []); }
      case _ =>
    }

    /** One instruction. */
    method Instruction(instr: Instr, pc: nat, len: nat)
      requires Valid() && ok && Sound(fe, Abs()) && AllWait(fe, Abs())
      modifies this, repr
      ensures Valid() && fresh(repr - old(repr))
      ensures if ok then Lr.Instruction(fe, old(Abs()), instr, pc, len) == Next(Abs())
              else Lr.Instruction(fe, old(Abs()), instr, pc, len) == Fail(strayed)
    {
      hide EnvsValid, AllKnown, Lr.Shift, Lr.Leaf, Lr.ReduceTree, Sound, AllWait;
      ghost var s := Abs();
      if Arity(fe, instr) > 0 {
        Shift(instr, pc, len);
      } else {
        var ty, node := Leaf(instr);
        if ok {
          LeafSound(fe, s, instr);
          StillWait(fe, s, Abs());
          ReduceTree(Tree(instr, pc, len, ty, node, []));
        }
      }
    }

    /** The decoding loop; every state on the way keeps the invariants. */
    method DecodeFunctionBody(code: seq<byte>)
      requires Valid() && ok && Sound(fe, Abs()) && AllWait(fe, Abs())
      modifies this, repr
      ensures Valid() && fresh(repr - old(repr))
      ensures if ok then DecodeFrom(menv, fe, code, 0, old(Abs())) == Next(Abs())
        else DecodeFrom(menv, fe, code, 0, old(Abs())) == Fail(strayed)
      ensures ok ==> Sound(fe, Abs()) && AllWait(fe, Abs())
    {
      hide EnvsValid, AllKnown, Lr.Instruction, Sound, AllWait, DecodeFrom, Fetch;
      var pc := 0;
      while pc < |code|
        invariant pc <= |code| && Valid() && ok && Sound(fe, Abs()) && AllWait(fe, Abs()) && fresh(repr - old(repr))
        invariant DecodeFrom(menv, fe, code, pc, Abs()) == DecodeFrom(menv, fe, code, 0, old(Abs()))
      {
        ghost var s := Abs();
        DecodeStep(menv, fe, code, pc, s);
        var f := Fetch(menv, code, pc);
        if f.Bad? {
          Error();
          return;
        }
        Instruction(f.instr, pc, f.len);
        if !ok { return; }
        InstructionSound(fe, s, f.instr, pc, f.len);
        pc := pc + f.len;
      }
      DecodeStep(menv, fe, code, pc, Abs());
    }
  }

  lemma DecodeStep(menv: ModuleEnv, fe: FunEnv, code: seq<byte>, pc: nat, s: State)
    requires pc <= |code|
    ensures DecodeFrom(menv, fe, code, pc, s) ==
      if pc == |code| then Next(s)
      else if Fetch(menv, code, pc).Bad? then Fail(s.strayed)
      else if Instruction(fe, s, Fetch(menv, code, pc).instr, pc, Fetch(menv, code, pc).len).Fail?
        then Fail(Instruction(fe, s, Fetch(menv, code, pc).instr, pc, Fetch(menv, code, pc).len).strayed)
      else DecodeFrom(menv, fe, code, pc + Fetch(menv, code, pc).len,
        Instruction(fe, s, Fetch(menv, code, pc).instr, pc, Fetch(menv, code, pc).len).s)
  {
    hide Instruction, Fetch;
  }

  lemma LoopZone(envs: seq<Env>, i: nat, e: Env, c: Env, c': Env)
    requires i < |envs|
    ensures envs[i := e] + [c] + [c'] == envs[i := e] + [c, c']
  {
  }

  lemma KnownBlock(zone: seq<SsaEnv>, cur: SsaEnv, blocks: seq<Block>, ifs: seq<Pair>, b: Block, cur': SsaEnv)
    requires AllKnown(zone, cur, blocks, ifs) && Known(zone, cur') && Known(zone, b.env)
    ensures AllKnown(zone, cur', blocks + [b], ifs)
  {
  }

  lemma ReduceControl(fe: FunEnv, h: State)
    requires h.stack != [] && h.stack[|h.stack| - 1].kids != []
    ensures var p := h.stack[|h.stack| - 1];
      if !ChildOk(fe, p) then Reduce(fe, h) == Fail(h.strayed)
      else
        && (p.instr.If? ==> Reduce(fe, h) == ReduceIf(fe, h))
          && (p.instr.IfElse? ==> Reduce(fe, h) == ReduceIfElse(fe, h))
        && (p.instr.Block? ==> Reduce(fe, h) == if |p.kids| < p.instr.count then Next(h)
          else if h.blocks == [] then Fail(h.strayed)
            else FallOut(fe, h, p.kids[|p.kids| - 1]))
        && (p.instr.Loop? ==> Reduce(fe, h) == if |p.kids| < p.instr.count then Next(h)
          else if |h.blocks| < 2 then Fail(h.strayed)
            else FallOut(fe, h.(blocks := h.blocks[..|h.blocks| - 1]), p.kids[|p.kids| - 1]))
  {
    hide BuildOp, BuildBranch, ReduceBreak, ReduceSelect, ReduceIf, ReduceIfElse, SetCur, FallOut, ChildOk;
  }

  lemma LocalOk(fe: FunEnv, p: Production)
    requires p.kids != [] && p.instr.SetLocal? && ChildOk(fe, p)
    ensures p.instr.index < |fe.locals|
  {
  }

  /** The state after ForkElse, still in the environment it was in. */
  function ElseForked(s: State, cond: nat): State {
    var e := Cur(s);
    var (g, tc, fc) := if e.Go() then BuildBranch(s.g, e.control, cond) else (s.g, 0, 0);
    Alloc(Alloc(SetCur(s.(g := g), Victim(e)), Ssa.Split(e).(control := fc)), Stolen(e).(control := tc))
  }

  lemma LastBlockKnown(zone: seq<SsaEnv>, cur: SsaEnv, blocks: seq<Block>, ifs: seq<Pair>)
    requires AllKnown(zone, cur, blocks, ifs) && blocks != []
    ensures var b := blocks[|blocks| - 1];
      AllKnown(zone, b.env, blocks[..|blocks| - 1], ifs) && AllKnown(zone, cur, blocks[..|blocks| - 1], ifs)
  {
  }

  lemma KnownIf(zone: seq<SsaEnv>, cur: SsaEnv, blocks: seq<Block>, ifs: seq<Pair>, f: Pair, cur': SsaEnv)
    requires AllKnown(zone, cur, blocks, ifs) && Known(zone, cur') && Known(zone, f.mergeEnv) && Known(zone, f.falseEnv)
    ensures AllKnown(zone, cur', blocks, ifs + [f])
  {
  }

  lemma LastKnown(zone: seq<SsaEnv>, cur: SsaEnv, blocks: seq<Block>, ifs: seq<Pair>)
    requires AllKnown(zone, cur, blocks, ifs) && ifs != []
    ensures var f := ifs[|ifs| - 1];
      && Known(zone, f.mergeEnv) && AllKnown(zone, f.mergeEnv, blocks, ifs[..|ifs| - 1])
      && Known(zone, f.falseEnv) && AllKnown(zone, f.falseEnv, blocks, ifs)
  {
  }

  /** The state after Fork, still in the environment it was in. */
  function Forked(s: State, cond: nat): State {
    var e := Cur(s);
    var (g, tc, fc) := if e.Go() then BuildBranch(s.g, e.control, cond) else (s.g, 0, e.control);
    Alloc(SetCur(s.(g := g), e.(control := fc)), Ssa.Split(e).(control := tc))
  }

  /** What MergeIntoProduction does to the graph and the productions after control has flowed. */
  function ValueMerged(g: seq<Node>, stack: seq<Production>, p: nat, first: bool, control: nat,
      expr: Tree): (seq<Node>, seq<Production>)
    requires p < |stack|
  {
    var q := stack[p];
    if expr.ty.End? then (g, stack)
    else if first then (g, stack[p := q.(ty := expr.ty, node := expr.node)])
    else if expr.ty != q.ty then (g, stack[p := q.(ty := Stmt, node := 0)])
    else if q.ty.Stmt? then (g, stack)
    else
      var (g', node) := MergeNode(g, q.ty, control, q.node, expr.node);
      (g', stack[p := q.(node := node)])
  }

  lemma MergedAsValue(fe: FunEnv, s: State, p: nat, to: nat, expr: Tree)
    requires p < |s.stack| && Cur(s).Go() && to < |s.zone| && s.cur < |s.zone|
    ensures var (g1, e) := Ssa.Goto(fe, s.g, Cur(s), s.zone[to]);
      var (g2, stack) := ValueMerged(g1, s.stack, p, s.zone[to].state.Unreached?, e.control, expr);
      Lr.MergeIntoProduction(fe, s, p, to, expr)
      == s.(g := g2, zone := s.zone[to := e][s.cur := Ssa.Kill(ControlEnd)], stack := stack)
  {
    hide Ssa.Goto, MergeNode;
    var q := s.stack[p];
    assert s.stack[p := q.(ty := q.ty, node := q.node)] == s.stack;
  }

  method CopyOf(a: array<nat>) returns (b: array<nat>)
    ensures fresh(b) && b[..] == a[..]
  {
    b := new nat[a.Length];
    var i := 0;
    while i < a.Length
      invariant 0 <= i <= a.Length && b[..i] == a[..i]
    {
      b[i] := a[i];
      i := i + 1;
    }
  }

  ghost predicate Known(zone: seq<SsaEnv>, e: SsaEnv) {
    e.id < |zone| && zone[e.id] == e
  }

  ghost predicate AllKnown(zone: seq<SsaEnv>, cur: SsaEnv, blocks: seq<Block>, ifs: seq<Pair>) {
    && Known(zone, cur)
    && (forall i :: 0 <= i < |blocks| ==> Known(zone, blocks[i].env))
    && (forall i :: 0 <= i < |ifs| ==> Known(zone, ifs[i].mergeEnv) && Known(zone, ifs[i].falseEnv))
  }

  lemma KnownMore(zone: seq<SsaEnv>, more: seq<SsaEnv>, cur: SsaEnv, blocks: seq<Block>, ifs: seq<Pair>)
    requires AllKnown(zone, cur, blocks, ifs)
    ensures AllKnown(zone + more, cur, blocks, ifs)
  {
  }

  function Ids(blocks: seq<Block>): (r: seq<Blk>)
    ensures |r| == |blocks| && forall i :: 0 <= i < |r| ==> r[i] == Blk(blocks[i].env.id, blocks[i].depth)
  {
    seq(|blocks|, i requires 0 <= i < |blocks| => Blk(blocks[i].env.id, blocks[i].depth))
  }

  function Pairs(ifs: seq<Pair>): (r: seq<IfEnv>)
    ensures |r| == |ifs|
    ensures forall i :: 0 <= i < |r| ==>
      r[i] == IfEnv(ifs[i].falseEnv.id, ifs[i].mergeEnv.id)
  {
    seq(|ifs|, i requires 0 <= i < |ifs| =>
      IfEnv(ifs[i].falseEnv.id, ifs[i].mergeEnv.id))
  }

  lemma FillMore(n: nat, x: nat)
    ensures Fill(n + 1, x) == Fill(n, x) + [x]
  {
  }
}
