/** On-the-fly SSA construction: the environments of the decoder, how they are split, stolen,
    merged and killed, and the construction for a whole tree. */
module Ssa {
  import opened Syntax
  import opened Graph

  datatype EnvState = ControlEnd | Unreached | Reached | Merged

  /** An SSA environment. `slots` holds the node of every local followed by the effect. */
  datatype Env = Env(state: EnvState, control: nat, slots: seq<nat>) {
    predicate Go() { state.Reached? || state.Merged? }
  }

  function Kill(state: EnvState): Env {
    Env(state, 0, [])
  }

  /** A complete copy. */
  function Split(e: Env): Env {
    if e.Go() then Env(Reached, e.control, e.slots) else Kill(Unreached)
  }

  /** The copy that takes over e's state. */
  function Stolen(e: Env): Env {
    if e.Go() then Env(Reached, e.control, e.slots) else Kill(Unreached)
  }

  /** What is left of e after its state was stolen. */
  function Victim(e: Env): Env {
    if e.Go() then Kill(Unreached) else e
  }

  function SlotType(fe: FunEnv, i: nat): LocalType {
    if i < |fe.locals| then fe.locals[i] else End
  }

  function Inputs(n: Node): seq<nat> {
    match n
    case Merge(ins) => ins
    case LoopHead(ins) => ins
    case Phi(_, ins, _) => ins
    case _ => []
  }

  function AppendInput(n: Node, from: nat): Node {
    match n
    case Merge(ins) => Merge(ins + [from])
    case LoopHead(ins) => LoopHead(ins + [from])
    case Phi(ty, ins, m) => Phi(ty, ins + [from], m)
    case _ => n
  }

  function Fill(n: nat, x: nat): (s: seq<nat>)
    ensures |s| == n && forall i :: 0 <= i < n ==> s[i] == x
  {
    if n == 0 then [] else [x] + Fill(n - 1, x)
  }

  /** The number of edges of merge m before the one just added. */
  function EarlierEdges(g: seq<Node>, m: nat): nat {
    if m < |g| && |Inputs(g[m])| > 0 then |Inputs(g[m])| - 1 else 0
  }

  /** Create a phi for two nodes meeting at merge m, or extend the one that is there. */
  function MergeNode(g: seq<Node>, ty: LocalType, m: nat, t: nat, f: nat): (seq<Node>, nat) {
    if IsPhiOn(g, t, m) then (g[t := AppendInput(g[t], f)], t)
    else if t != f then (g + [Phi(ty, Fill(EarlierEdges(g, m), t) + [f], m)], |g|)
    else (g, t)
  }

  /** Merge the slots below i, highest first. */
  function MergeSlots(fe: FunEnv, g: seq<Node>, m: nat, to: seq<nat>, from: seq<nat>, i: nat)
    : (seq<Node>, seq<nat>)
    requires i <= |to| && i <= |from|
    decreases i
  {
    if i == 0 then (g, to)
    else
      var (g1, n) := MergeNode(g, SlotType(fe, i - 1), m, to[i - 1], from[i - 1]);
      MergeSlots(fe, g1, m, to[i - 1 := n], from, i - 1)
  }

  function MergeEnv(fe: FunEnv, g: seq<Node>, m: nat, from: Env, to: Env): (seq<Node>, Env) {
    var n := if |to.slots| <= |from.slots| then |to.slots| else |from.slots|;
    var (g1, slots) := MergeSlots(fe, g, m, to.slots, from.slots, n);
    (g1, Env(Merged, m, slots))
  }

  /** One more edge into merge m. */
  function AppendToMerge(g: seq<Node>, m: nat, from: nat): seq<Node> {
    if m < |g| then g[m := AppendInput(g[m], from)] else g
  }

  /** Control flows from a live environment into `to`. */
  function Goto(fe: FunEnv, g: seq<Node>, from: Env, to: Env): (seq<Node>, Env) {
    match to.state
    case Unreached => (g, Env(Reached, from.control, from.slots))
    case Reached => MergeEnv(fe, g + [Merge([to.control, from.control])], |g|, from, to)
    case Merged => MergeEnv(fe, AppendToMerge(g, to.control, from.control), to.control, from, to)
    case ControlEnd => (g, to)
  }

  /** An open block entry: the environment branches to it meet in, and the type and node of the
      value they carry. The inner entry of a loop (`cont`) carries no value. */
  datatype Target = Target(env: Env, ty: LocalType, node: nat, cont: bool)

  function NewTarget(e: Env): Target {
    Target(Victim(e), End, 0, false)
  }

  /** Control and a value flow from `cur` into a block entry. */
  function MergeInto(fe: FunEnv, g: seq<Node>, cur: Env, t: Target, ty: LocalType, node: nat)
    : (seq<Node>, Target)
  {
    if !cur.Go() then (g, t)
    else
      var (g1, env) := Goto(fe, g, cur, t.env);
      if t.cont || ty.End? then (g1, t.(env := env))
      else if t.env.state.Unreached? then (g1, Target(env, ty, node, false))
      else if ty != t.ty then (g1, Target(env, Stmt, 0, false))
      else if ty.Stmt? then (g1, t.(env := env))
      else
        var (g2, n) := MergeNode(g1, ty, env.control, t.node, node);
        (g2, Target(env, ty, n, false))
  }

  /** One phi per slot on a new loop header. */
  function LoopSlots(fe: FunEnv, g: seq<Node>, head: nat, slots: seq<nat>, i: nat): (seq<Node>, seq<nat>)
    requires i <= |slots|
    decreases i
  {
    if i == 0 then (g, slots)
    else LoopSlots(fe, g + [Phi(SlotType(fe, i - 1), [slots[i - 1]], head)], head,
                   slots[i - 1 := |g|], i - 1)
  }

  function PrepareForLoop(fe: FunEnv, g: seq<Node>, e: Env): (seq<Node>, Env) {
    if !e.Go() then (g, e)
    else
      var (g1, slots) := LoopSlots(fe, g + [LoopHead([e.control])], |g|, e.slots, |e.slots|);
      (g1, Env(Merged, |g|, slots))
  }

  /** What happened on the way that the graph does not show: whether a local was stored where there is no
      array of locals, and the controls that were left where the code ends. */
  datatype Log = Log(stray: bool, gone: set<nat>)

  /** The state of the construction: the graph, the current environment and the open block
      entries, innermost last. */
  datatype St = St(g: seq<Node>, cur: Env, blocks: seq<Target>, log: Log)

  datatype Res = Err(stray: bool) | Ok(s: St, ty: LocalType, node: nat)

  /** The types and nodes of the children of one tree. */
  datatype Kids = KErr(stray: bool) | KOk(s: St, tys: seq<LocalType>, nodes: seq<nat>)

  /** An operand is accepted when it has the expected type or control does not come out of it. */
  predicate Accepts(expected: LocalType, ty: LocalType) {
    ty == expected || ty.End?
  }

  /** Does child i of instr pass its type check? */
  predicate KidOk(fe: FunEnv, instr: Instr, i: nat, ty: LocalType) {
    match instr
    case SetLocal(j) => j < |fe.locals| && ty == fe.locals[j]
    case Apply(op) => i < |op.params| && (if op.strict then ty == op.params[i] else Accepts(op.params[i], ty))
    case Return => Accepts(fe.ret, ty)
    case If | IfElse | BrIf(_) => i == 0 ==> Accepts(I32, ty)
    case Select => (i == 0 ==> Accepts(I32, ty)) && (i == 1 ==> !ty.Stmt?)
    case Cut(of, n) => i + 1 < n ==> i < Arity(fe, of) && KidOk(fe, of, i, ty)
    case _ => true
  }

  /** Can a tree of this kind begin here? */
  predicate Shifts(fe: FunEnv, instr: Instr, s: St) {
    match instr
    case Br(d) => d < |s.blocks|
    case BrIf(d) => d < |s.blocks|
    case SetLocal(i) => i < |fe.locals|
    case _ => true
  }

  /** A local is stored; the store goes astray when the environment is dead. */
  function Stored(s: St, slots: seq<nat>): St {
    s.(cur := s.cur.(slots := slots), log := s.log.(stray := s.log.stray || !s.cur.Go()))
  }

  /** The code ends here, and control with it. */
  function Abandon(s: St): St {
    s.(cur := Kill(ControlEnd), log := s.log.(gone := if s.cur.Go() then s.log.gone + {s.cur.control} else s.log.gone))
  }

  /** Append the nodes of an operator; a check guards it first if it can trap. */
  function BuildOp(g: seq<Node>, e: Env, op: Op, args: seq<nat>): (seq<Node>, Env, nat)
    requires |e.slots| > 0
  {
    var w := e.slots[|e.slots| - 1];
    var xs := if op.effect then args + [w] else args;
    var (g1, e1) := if op.traps then (g + [Check(op, xs, w, e.control)], e.(control := |g|)) else (g, e);
    var (g2, n) := if op.store && |args| > 0 then (g1, args[|args| - 1]) else (g1 + [App(op, xs)], |g1|);
    if op.effect then (g2 + [World(op, xs)], e1.(slots := e1.slots[|e.slots| - 1 := |g2|]), n)
    else (g2, e1, n)
  }

  /** Branch on a node: the graph and the two projections. */
  function BuildBranch(g: seq<Node>, control: nat, cond: nat): (seq<Node>, nat, nat) {
    (g + [Branch(cond, control), IfTrue(|g|), IfFalse(|g|)], |g| + 1, |g| + 2)
  }

  /** The construction for a whole tree. */
  function Run(fe: FunEnv, t: Syn, s: St): Res
    decreases t, 2
  {
    if |t.kids| != Arity(fe, t.instr) then Err(s.log.stray)
    else
      match t.instr
      case Nop => Ok(s, Stmt, 0)
      case Unreachable =>
        var g := if s.cur.Go() && |s.cur.slots| > 0
                 then s.g + [Dead(s.cur.slots[|s.cur.slots| - 1], s.cur.control)] else s.g;
        Ok(St(g, Kill(ControlEnd), s.blocks, s.log), End, 0)
      case Const(ty, bits) =>
        if s.cur.Go() then Ok(s.(g := s.g + [Literal(ty, bits)]), ty, |s.g|) else Ok(s, ty, 0)
      case GetLocal(i) =>
        if i >= |fe.locals| then Err(s.log.stray)
        else Ok(s, fe.locals[i], if i < |s.cur.slots| then s.cur.slots[i] else 0)
      case SetLocal(i) =>
        if i >= |fe.locals| then Err(s.log.stray)
        else
          (match RunKids(fe, t, 0, s)
           case KErr(b) => Err(b)
           case KOk(s1, tys, nodes) =>
             var slots := if i < |s1.cur.slots| then s1.cur.slots[i := nodes[0]] else s1.cur.slots;
             Ok(Stored(s1, slots), fe.locals[i], nodes[0]))
      case Apply(op) =>
        (match RunKids(fe, t, 0, s)
         case KErr(b) => Err(b)
         case KOk(s1, tys, nodes) =>
           if !s1.cur.Go() || |s1.cur.slots| == 0 then Ok(s1, op.result, 0)
           else
             var (g, e, n) := BuildOp(s1.g, s1.cur, op, nodes);
             Ok(St(g, e, s1.blocks, s1.log), op.result, n))
      case Return =>
        (match RunKids(fe, t, 0, s)
         case KErr(b) => Err(b)
         case KOk(s1, tys, nodes) =>
           var v := if nodes == [] then 0 else nodes[0];
           var g := if s1.cur.Go() && |s1.cur.slots| > 0
                    then s1.g + [Ret(v, s1.cur.slots[|s1.cur.slots| - 1], s1.cur.control)] else s1.g;
           Ok(St(g, Kill(ControlEnd), s1.blocks, s1.log), End, 0))
      case Br(d) =>
        if d >= |s.blocks| then Err(s.log.stray)
        else
          (match RunKids(fe, t, 0, s)
           case KErr(b) => Err(b)
           case KOk(s1, tys, nodes) =>
             if !s1.cur.Go() then Ok(s1, End, 0)
             else Ok(BreakTo(fe, s1, d, tys[0], nodes[0]), End, 0))
      case BrIf(d) =>
        if d >= |s.blocks| then Err(s.log.stray)
        else
          (match RunKids(fe, t, 0, s)
           case KErr(b) => Err(b)
           case KOk(s1, tys, nodes) =>
             if !s1.cur.Go() then Ok(s1, Stmt, 0)
             else
               var (g, tc, fc) := BuildBranch(s1.g, s1.cur.control, nodes[0]);
               var s2 := BreakTo(fe, St(g, Env(Reached, tc, s1.cur.slots), s1.blocks, s1.log), d, tys[1], nodes[1]);
               Ok(s2.(cur := s1.cur.(control := fc)), Stmt, 0))
      case Select =>
        (match RunKids(fe, t, 0, s)
         case KErr(b) => Err(b)
         case KOk(s1, tys, nodes) =>
           if !Accepts(tys[1], tys[2]) then Err(s1.log.stray)
           else if !s1.cur.Go() then Ok(s1, tys[1], 0)
           else
             var (g, tc, fc) := BuildBranch(s1.g, s1.cur.control, nodes[0]);
             var g1 := g + [Merge([tc, fc]), Phi(tys[1], [nodes[1], nodes[2]], |g|)];
             Ok(St(g1, s1.cur.(control := |g|), s1.blocks, s1.log), tys[1], |g| + 1))
      case If =>
        (match Run(fe, t.kids[0], s)
         case Err(b) => Err(b)
         case Ok(s1, ty, c) =>
           if !KidOk(fe, t.instr, 0, ty) then Err(s1.log.stray)
           else if !s1.cur.Go() then
             (match Run(fe, t.kids[1], s1.(cur := Kill(Unreached)))
              case Err(b) => Err(b)
              case Ok(s2, _, _) => Ok(s2.(cur := s1.cur), Stmt, 0))
           else
             var (g, tc, fc) := BuildBranch(s1.g, s1.cur.control, c);
             (match Run(fe, t.kids[1], St(g, Env(Reached, tc, s1.cur.slots), s1.blocks, s1.log))
              case Err(b) => Err(b)
              case Ok(s2, _, _) =>
                var merge := Env(Reached, fc, s1.cur.slots);
                var (g2, e) := if s2.cur.Go() then Goto(fe, s2.g, s2.cur, merge) else (s2.g, merge);
                Ok(St(g2, e, s2.blocks, s2.log), Stmt, 0)))
      case IfElse =>
        (match Run(fe, t.kids[0], s)
         case Err(b) => Err(b)
         case Ok(s1, ty, c) =>
           if !KidOk(fe, t.instr, 0, ty) then Err(s1.log.stray)
           else
             var (g, tc, fc) := if s1.cur.Go() then BuildBranch(s1.g, s1.cur.control, c) else (s1.g, 0, 0);
             (match Run(fe, t.kids[1], St(g, Stolen(s1.cur).(control := tc), s1.blocks, s1.log))
              case Err(b) => Err(b)
              case Ok(s2, ty2, n2) =>
                var (g2, m2) := MergeInto(fe, s2.g, s2.cur, NewTarget(s1.cur), ty2, n2);
                (match Run(fe, t.kids[2], St(g2, Split(s1.cur).(control := fc), s2.blocks, s2.log))
                 case Err(b) => Err(b)
                 case Ok(s3, ty3, n3) =>
                   var (g3, m3) := MergeInto(fe, s3.g, s3.cur, m2, ty3, n3);
                   Ok(St(g3, m3.env, s3.blocks, s3.log), m3.ty, m3.node))))
      case Block(_) =>
        if t.kids == [] then Ok(s, Stmt, 0)
        else LeaveTarget(fe, RunKids(fe, t, 0, EnterBlock(s)))
      case Loop(_) =>
        if t.kids == [] then Ok(s, Stmt, 0)
        else
          (match RunKids(fe, t, 0, EnterLoop(fe, s))
           case KErr(b) => Err(b)
           case KOk(s1, tys, nodes) =>
             if s1.blocks == [] then Err(s1.log.stray)
             else LeaveTarget(fe, KOk(s1.(blocks := s1.blocks[..|s1.blocks| - 1]), tys, nodes)))
      case Cut(of, _) =>
        if !Shifts(fe, of, s) then Err(s.log.stray)
        else
          (match RunKids(fe, t, 0, s)
           case KErr(b) => Err(b)
           case KOk(s1, tys, nodes) => Ok(Abandon(s1), End, 0))
  }

  /** Children i, i + 1, ... of t, each checked as soon as it is complete. */
  function RunKids(fe: FunEnv, t: Syn, i: nat, s: St): (r: Kids)
    requires i <= |t.kids|
    ensures r.KOk? ==> |r.tys| == |r.nodes| == |t.kids| - i
    decreases t, 0, |t.kids| - i
  {
    if i == |t.kids| then KOk(s, [], [])
    else
      match Run(fe, t.kids[i], s)
      case Err(b) => KErr(b)
      case Ok(s1, ty, node) =>
        if !KidOk(fe, t.instr, i, ty) then KErr(s1.log.stray)
        else
          match RunKids(fe, t, i + 1, s1)
          case KErr(b) => KErr(b)
          case KOk(s2, tys, nodes) => KOk(s2, [ty] + tys, [node] + nodes)
  }

  /** Index of the block entry a branch depth names. */
  function At(blocks: seq<Target>, d: nat): nat
    requires d < |blocks|
  {
    |blocks| - 1 - d
  }

  /** The current environment goes to the d-th block entry and ends. */
  function BreakTo(fe: FunEnv, s: St, d: nat, ty: LocalType, node: nat): St {
    if d >= |s.blocks| then s
    else
      var i := At(s.blocks, d);
      var (g, t) := MergeInto(fe, s.g, s.cur, s.blocks[i], ty, node);
      St(g, Kill(ControlEnd), s.blocks[i := t], s.log)
  }

  function EnterBlock(s: St): St {
    St(s.g, Stolen(s.cur), s.blocks + [NewTarget(s.cur)], s.log)
  }

  function EnterLoop(fe: FunEnv, s: St): St {
    var (g, cont) := PrepareForLoop(fe, s.g, Stolen(s.cur));
    St(g, Split(cont), s.blocks + [NewTarget(s.cur), Target(cont, Stmt, 0, true)], s.log)
  }

  /** Fall through to the innermost block entry and continue from there. */
  function LeaveTarget(fe: FunEnv, k: Kids): Res {
    match k
    case KErr(b) => Err(b)
    case KOk(s, tys, nodes) =>
      if s.blocks == [] || tys == [] || nodes == [] then Err(s.log.stray)
      else
        var last := |s.blocks| - 1;
        var (g, t) := MergeInto(fe, s.g, s.cur, s.blocks[last], tys[|tys| - 1], nodes[|nodes| - 1]);
        Ok(St(g, t.env, s.blocks[..last], s.log), t.ty, t.node)
  }
}
