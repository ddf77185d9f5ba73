/** A direct interpreter of expression trees: the meaning a function body has before any graph
    is built. The store holds the locals followed by the world. */
module Interp {
  import opened Syntax
  import opened Graph

  datatype Out =
    | Norm(v: Val, st: seq<Val>)              // control comes out of the tree with a value
    | Brk(depth: nat, v: Val, st: seq<Val>)   // a branch to the depth-th enclosing block entry
    | Done(v: Val, w: Val)                    // the function returns
    | Trap(w: Val)
    | Fuel(laps: nat)                         // out of fuel after that many turns of loops
    | Lost                                    // the code ends although control goes on

  datatype Outs = Vals(vs: seq<Val>, st: seq<Val>) | Stop(out: Out)

  /** A block counts as one entry for branch depths. */
  function LeaveBlock(o: Out): Out {
    match o
    case Brk(d, v, st) => if d == 0 then Norm(v, st) else Brk(d - 1, v, st)
    case _ => o
  }

  /** One more turn of a loop came before. */
  function NextLap(o: Out): Out {
    if o.Fuel? then Fuel(o.laps + 1) else o
  }

  function Last(sem: Sem, vs: seq<Val>): Val {
    if vs == [] then sem.unit else vs[|vs| - 1]
  }

  function Operands(op: Op, vs: seq<Val>, st: seq<Val>): seq<Val>
    requires |st| > 0
  {
    if op.effect then vs + [st[|st| - 1]] else vs
  }

  function ApplyOp(sem: Sem, op: Op, vs: seq<Val>, st: seq<Val>): Out
    requires |st| > 0
  {
    var xs := Operands(op, vs, st);
    if op.traps && sem.traps(op, xs) then Trap(st[|st| - 1])
    else Norm(if op.store then Last(sem, vs) else sem.app(op, xs),
              if op.effect then st[|st| - 1 := sem.world(op, xs)] else st)
  }

  function Exec(fe: FunEnv, sem: Sem, t: Syn, st: seq<Val>, fuel: nat): (o: Out)
    requires |st| == |fe.locals| + 1
    ensures o.Norm? || o.Brk? ==> |o.st| == |st|
    decreases fuel, t, 2
  {
    if |t.kids| != Arity(fe, t.instr) then Norm(sem.unit, st)
    else
      match t.instr
      case Nop => Norm(sem.unit, st)
      case Unreachable => Trap(st[|st| - 1])
      case Const(ty, bits) => Norm(sem.lit(ty, bits), st)
      case GetLocal(i) => Norm(if i < |fe.locals| then st[i] else sem.unit, st)
      case SetLocal(i) =>
        (match Exec(fe, sem, t.kids[0], st, fuel)
         case Norm(v, st1) => Norm(v, if i < |fe.locals| then st1[i := v] else st1)
         case o => o)
      case Apply(op) =>
        (match ExecKids(fe, sem, t, 0, st, fuel)
         case Vals(vs, st1) => ApplyOp(sem, op, vs, st1)
         case Stop(o) => o)
      case Return =>
        (match ExecKids(fe, sem, t, 0, st, fuel)
         case Vals(vs, st1) => Done(Last(sem, vs), st1[|st1| - 1])
         case Stop(o) => o)
      case Br(d) =>
        (match Exec(fe, sem, t.kids[0], st, fuel)
         case Norm(v, st1) => Brk(d, v, st1)
         case o => o)
      case BrIf(d) =>
        (match ExecKids(fe, sem, t, 0, st, fuel)
         case Vals(vs, st1) => if sem.truth(vs[0]) then Brk(d, vs[1], st1) else Norm(sem.unit, st1)
         case Stop(o) => o)
      case Select =>
        (match ExecKids(fe, sem, t, 0, st, fuel)
         case Vals(vs, st1) => Norm(if sem.truth(vs[0]) then vs[1] else vs[2], st1)
         case Stop(o) => o)
      case If =>
        (match Exec(fe, sem, t.kids[0], st, fuel)
         case Norm(c, st1) =>
           if !sem.truth(c) then Norm(sem.unit, st1)
           else (match Exec(fe, sem, t.kids[1], st1, fuel)
                 case Norm(_, st2) => Norm(sem.unit, st2)
                 case o => o)
         case o => o)
      case IfElse =>
        (match Exec(fe, sem, t.kids[0], st, fuel)
         case Norm(c, st1) => Exec(fe, sem, if sem.truth(c) then t.kids[1] else t.kids[2], st1, fuel)
         case o => o)
      case Block(_) =>
        if t.kids == [] then Norm(sem.unit, st) else LeaveBlock(ExecBody(fe, sem, t, st, fuel))
      case Loop(_) =>
        if t.kids == [] then Norm(sem.unit, st) else ExecLoop(fe, sem, t, st, fuel)
      case Cut(_, _) =>
        (match ExecKids(fe, sem, t, 0, st, fuel)
         case Vals(_, _) => Lost
         case Stop(o) => o)
  }

  /** The trees of a block one after the other; the value is the last one's. */
  function ExecBody(fe: FunEnv, sem: Sem, t: Syn, st: seq<Val>, fuel: nat): (o: Out)
    requires |st| == |fe.locals| + 1
    ensures o.Norm? || o.Brk? ==> |o.st| == |st|
    decreases fuel, t, 0, |t.kids| + 1
  {
    match ExecKids(fe, sem, t, 0, st, fuel)
    case Vals(vs, st1) => Norm(Last(sem, vs), st1)
    case Stop(o) => o
  }

  /** Inside a loop depth 0 starts the body again and depth 1 leaves the loop. */
  function ExecLoop(fe: FunEnv, sem: Sem, t: Syn, st: seq<Val>, fuel: nat): (o: Out)
    requires |st| == |fe.locals| + 1
    ensures o.Norm? || o.Brk? ==> |o.st| == |st|
    decreases fuel, t, 1
  {
    match ExecBody(fe, sem, t, st, fuel)
    case Brk(d, v, st1) =>
      if d == 0 then (if fuel == 0 then Fuel(0) else NextLap(ExecLoop(fe, sem, t, st1, fuel - 1)))
      else LeaveBlock(Brk(d - 1, v, st1))
    case o => o
  }

  /** Children i, i + 1, ... in order. */
  function ExecKids(fe: FunEnv, sem: Sem, t: Syn, i: nat, st: seq<Val>, fuel: nat): (r: Outs)
    requires |st| == |fe.locals| + 1 && i <= |t.kids|
    ensures r.Vals? ==> |r.vs| == |t.kids| - i && |r.st| == |st|
    ensures r.Stop? ==> !r.out.Norm?
    ensures r.Stop? && r.out.Brk? ==> |r.out.st| == |st|
    decreases fuel, t, 0, |t.kids| - i
  {
    if i == |t.kids| then Vals([], st)
    else
      match Exec(fe, sem, t.kids[i], st, fuel)
      case Norm(v, st1) =>
        (match ExecKids(fe, sem, t, i + 1, st1, fuel)
         case Vals(vs, st2) => Vals([v] + vs, st2)
         case Stop(o) => Stop(o))
      case o => Stop(o)
  }

  /** The interpreter gives up only after at least as many turns of loops as it has fuel. */
  lemma {:induction false} FuelIsLaps(fe: FunEnv, sem: Sem, t: Syn, st: seq<Val>, fuel: nat)
    requires |st| == |fe.locals| + 1
    ensures var o := Exec(fe, sem, t, st, fuel); o.Fuel? ==> o.laps >= fuel
    decreases fuel, t, 2
  {
    if |t.kids| == Arity(fe, t.instr) {
      KidsFuelIsLaps(fe, sem, t, 0, st, fuel);
      match t.instr
      case SetLocal(_) => FuelIsLaps(fe, sem, t.kids[0], st, fuel);
      case Br(_) => FuelIsLaps(fe, sem, t.kids[0], st, fuel);
      case If =>
        FuelIsLaps(fe, sem, t.kids[0], st, fuel);
        var o := Exec(fe, sem, t.kids[0], st, fuel);
        if o.Norm? { FuelIsLaps(fe, sem, t.kids[1], o.st, fuel); }
      case IfElse =>
        FuelIsLaps(fe, sem, t.kids[0], st, fuel);
        var o := Exec(fe, sem, t.kids[0], st, fuel);
        if o.Norm? { FuelIsLaps(fe, sem, if sem.truth(o.v) then t.kids[1] else t.kids[2], o.st, fuel); }
      case Loop(_) => LoopFuelIsLaps(fe, sem, t, st, fuel);
      case _ =>
    }
  }

  lemma {:induction false} LoopFuelIsLaps(fe: FunEnv, sem: Sem, t: Syn, st: seq<Val>, fuel: nat)
    requires |st| == |fe.locals| + 1
    ensures var o := ExecLoop(fe, sem, t, st, fuel); o.Fuel? ==> o.laps >= fuel
    decreases fuel, t, 1
  {
    KidsFuelIsLaps(fe, sem, t, 0, st, fuel);
    var o := ExecBody(fe, sem, t, st, fuel);
    if o.Brk? && o.depth == 0 && fuel > 0 {
      LoopFuelIsLaps(fe, sem, t, o.st, fuel - 1);
    }
  }

  lemma {:induction false} KidsFuelIsLaps(fe: FunEnv, sem: Sem, t: Syn, i: nat, st: seq<Val>, fuel: nat)
    requires |st| == |fe.locals| + 1 && i <= |t.kids|
    ensures var r := ExecKids(fe, sem, t, i, st, fuel); r.Stop? && r.out.Fuel? ==> r.out.laps >= fuel
    decreases fuel, t, 0, |t.kids| - i
  {
    if i < |t.kids| {
      FuelIsLaps(fe, sem, t.kids[i], st, fuel);
      var o := Exec(fe, sem, t.kids[i], st, fuel);
      if o.Norm? { KidsFuelIsLaps(fe, sem, t, i + 1, o.st, fuel); }
    }
  }
}
