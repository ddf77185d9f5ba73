/** Sea-of-nodes graphs as the decoder builds them, and what it means to run one:
    values are computed on demand, control moves along one edge at a time, and entering a merge
    through edge k gives every phi of that merge the value of its k-th input. */
module Graph {
  import opened Syntax

  /** Runtime values; worlds (states of memory and globals) are values too. */
  type Val(!new, ==)

  /** What the opaque operators mean. */
  datatype Sem = Sem(app: (Op, seq<Val>) -> Val,
                     world: (Op, seq<Val>) -> Val,
                     traps: (Op, seq<Val>) -> bool,
                     truth: Val -> bool,
                     lit: (LocalType, int) -> Val,
                     unit: Val)

  /** Nodes refer to one another by position; position 0 is null. */
  datatype Node =
    | Null
    | Start
    | Param(index: nat)
    | Literal(ty: LocalType, bits: int)
    | App(op: Op, args: seq<nat>)
    | World(op: Op, args: seq<nat>)
    | Check(op: Op, args: seq<nat>, effect: nat, control: nat)
    | Branch(cond: nat, control: nat)
    | IfTrue(branch: nat)
    | IfFalse(branch: nat)
    | Merge(inputs: seq<nat>)
    | LoopHead(inputs: seq<nat>)
    | Phi(pty: LocalType, inputs: seq<nat>, merge: nat)
    | Ret(value: nat, effect: nat, control: nat)
    | Dead(effect: nat, control: nat)

  predicate IsMerge(n: Node) {
    n.Merge? || n.LoopHead?
  }

  predicate IsPhiOn(g: seq<Node>, n: nat, m: nat) {
    n < |g| && g[n].Phi? && g[n].merge == m
  }

  predicate Below(ns: seq<nat>, bound: nat) {
    forall i :: 0 <= i < |ns| ==> ns[i] < bound
  }

  /** Every non-phi operand was created before the node that uses it. */
  predicate NodeOk(n: Node, at: nat) {
    match n
    case App(_, args) => Below(args, at)
    case World(_, args) => Below(args, at)
    case Phi(_, _, m) => m < at
    case _ => true
  }

  predicate GraphOk(g: seq<Node>) {
    |g| > 0 && forall i :: 0 <= i < |g| ==> NodeOk(g[i], i)
  }

  /** The value of a node, given the values its phis, parameters and the start node have now. */
  function Eval(g: seq<Node>, sem: Sem, val: seq<Val>, n: nat): Val
    requires GraphOk(g) && |val| == |g|
    decreases n, 0
  {
    if n >= |g| then sem.unit
    else
      match g[n]
      case Literal(ty, bits) => sem.lit(ty, bits)
      case App(op, args) => assert NodeOk(g[n], n); sem.app(op, EvalBelow(g, sem, val, args, n))
      case World(op, args) => assert NodeOk(g[n], n); sem.world(op, EvalBelow(g, sem, val, args, n))
      case _ => val[n]
  }

  function EvalBelow(g: seq<Node>, sem: Sem, val: seq<Val>, ns: seq<nat>, ghost bound: nat): (vs: seq<Val>)
    requires GraphOk(g) && |val| == |g| && Below(ns, bound)
    decreases bound, -1, |ns|
  {
    if ns == [] then []
    else EvalBelow(g, sem, val, ns[..|ns| - 1], bound) + [Eval(g, sem, val, ns[|ns| - 1])]
  }

  function Evals(g: seq<Node>, sem: Sem, val: seq<Val>, ns: seq<nat>): (vs: seq<Val>)
    requires GraphOk(g) && |val| == |g|
    ensures |vs| == |ns|
  {
    seq(|ns|, i requires 0 <= i < |ns| => Eval(g, sem, val, ns[i]))
  }

  lemma {:induction false} EvalBelowIsEvals(g: seq<Node>, sem: Sem, val: seq<Val>, ns: seq<nat>, bound: nat)
    requires GraphOk(g) && |val| == |g| && Below(ns, bound)
    ensures EvalBelow(g, sem, val, ns, bound) == Evals(g, sem, val, ns)
    decreases |ns|
  {
    if ns != [] {
      EvalBelowIsEvals(g, sem, val, ns[..|ns| - 1], bound);
    }
  }

  /** Control moves: through a projection of a branch, past a check, or into a merge by edge k. */
  datatype Hop = Take(node: nat) | Enter(node: nat, edge: nat)

  predicate CanHop(g: seq<Node>, sem: Sem, val: seq<Val>, c: nat, h: Hop)
    requires GraphOk(g) && |val| == |g|
  {
    && h.node < |g|
    && match h
       case Take(n) =>
         (match g[n]
          case IfTrue(b) => b < |g| && g[b].Branch? && g[b].control == c && sem.truth(Eval(g, sem, val, g[b].cond))
          case IfFalse(b) => b < |g| && g[b].Branch? && g[b].control == c && !sem.truth(Eval(g, sem, val, g[b].cond))
          case Check(op, args, _, control) => control == c && !sem.traps(op, Evals(g, sem, val, args))
          case _ => false)
       case Enter(m, k) => IsMerge(g[m]) && k < |g[m].inputs| && g[m].inputs[k] == c
  }

  /** All phis of merge m take their k-th inputs at once. */
  function TakeEdge(g: seq<Node>, sem: Sem, val: seq<Val>, m: nat, k: nat): (val': seq<Val>)
    requires GraphOk(g) && |val| == |g|
    ensures |val'| == |val|
  {
    seq(|val|, n requires 0 <= n < |val| =>
      if IsPhiOn(g, n, m) && k < |g[n].inputs| then Eval(g, sem, val, g[n].inputs[k]) else val[n])
  }

  datatype Option<T> = None | Some(value: T)

  /** Where control and the phi values are after the given moves; None when one is not possible. */
  function Walk(g: seq<Node>, sem: Sem, c: nat, val: seq<Val>, path: seq<Hop>): (r: Option<(nat, seq<Val>)>)
    requires GraphOk(g) && |val| == |g|
    ensures r.Some? ==> |r.value.1| == |g|
    decreases |path|
  {
    if path == [] then Some((c, val))
    else if !CanHop(g, sem, val, c, path[0]) then None
    else
      var val' := if path[0].Take? then val else TakeEdge(g, sem, val, path[0].node, path[0].edge);
      Walk(g, sem, path[0].node, val', path[1..])
  }

  lemma {:induction false} WalkOn(g: seq<Node>, sem: Sem, c: nat, val: seq<Val>, p: seq<Hop>, q: seq<Hop>)
    requires GraphOk(g) && |val| == |g|
    requires Walk(g, sem, c, val, p).Some?
    ensures Walk(g, sem, c, val, p + q)
         == (var (c', val') := Walk(g, sem, c, val, p).value; Walk(g, sem, c', val', q))
    decreases |p|
  {
    if p == [] {
      assert p + q == q;
    } else {
      assert (p + q)[0] == p[0] && (p + q)[1..] == p[1..] + q;
      var val' := if p[0].Take? then val else TakeEdge(g, sem, val, p[0].node, p[0].edge);
      WalkOn(g, sem, p[0].node, val', p[1..], q);
    }
  }

  predicate Agree(val: seq<Val>, val': seq<Val>, bound: nat) {
    |val| == |val'| && forall i :: 0 <= i < bound && i < |val| ==> val[i] == val'[i]
  }

  /** A node depends only on what was created no later than itself. */
  lemma {:induction false} EvalAgree(g: seq<Node>, sem: Sem, val: seq<Val>, val': seq<Val>, n: nat, bound: nat)
    requires GraphOk(g) && |val| == |g| && Agree(val, val', bound) && n < bound
    ensures Eval(g, sem, val, n) == Eval(g, sem, val', n)
    decreases n, 0
  {
    if n < |g| && (g[n].App? || g[n].World?) {
      assert NodeOk(g[n], n);
      EvalBelowAgree(g, sem, val, val', g[n].args, n, bound);
    }
  }

  lemma {:induction false} EvalBelowAgree(g: seq<Node>, sem: Sem, val: seq<Val>, val': seq<Val>, ns: seq<nat>, at: nat,
      bound: nat)
    requires GraphOk(g) && |val| == |g| && Agree(val, val', bound) && Below(ns, at) && at <= bound
    ensures EvalBelow(g, sem, val, ns, at) == EvalBelow(g, sem, val', ns, at)
    decreases at, -1, |ns|
  {
    if ns != [] {
      EvalBelowAgree(g, sem, val, val', ns[..|ns| - 1], at, bound);
      EvalAgree(g, sem, val, val', ns[|ns| - 1], bound);
    }
  }
}
