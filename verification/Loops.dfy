/** Loop headers: the graph has one for every loop that is entered alive, and no other. */
module Loops {
  import opened Syntax
  import opened Graph
  import opened Ssa
  import opened SsaInvariant
  import opened SsaRun
  import opened LrSsa
  import opened CutOff
  import opened Typing
  import opened FunctionMeaning
  import opened Leb128
  import opened Opcodes
  import D = DecodeFunction
  import B = BodyTyping

  /** The number of loop headers of a graph. */
  function Heads(g: seq<Node>): nat {
    if g == [] then 0 else Heads(g[..|g| - 1]) + if g[|g| - 1].LoopHead? then 1 else 0
  }

  lemma HeadsAdd(g: seq<Node>, n: Node)
    ensures Heads(g + [n]) == Heads(g) + if n.LoopHead? then 1 else 0
  {
    assert (g + [n])[..|g|] == g;
  }

  lemma {:induction false} HeadsChange(g: seq<Node>, t: nat, n: Node)
    requires t < |g| && n.LoopHead? == g[t].LoopHead?
    ensures Heads(g[t := n]) == Heads(g)
  {
    var last := |g| - 1;
    if t < last {
      HeadsChange(g[..last], t, n);
      assert g[t := n][..last] == g[..last][t := n];
    } else {
      assert g[t := n][..last] == g[..last];
    }
  }

  lemma {:induction false} NoHeads(g: seq<Node>)
    requires forall i :: 0 <= i < |g| ==> !g[i].LoopHead?
    ensures Heads(g) == 0
  {
    if g != [] { NoHeads(g[..|g| - 1]); }
  }

  // ----- Steps of the construction -----

  lemma MergeNodeHeads(g: seq<Node>, ty: LocalType, m: nat, t: nat, f: nat)
    ensures Heads(MergeNode(g, ty, m, t, f).0) == Heads(g)
  {
    hide Heads;
    if IsPhiOn(g, t, m) {
      HeadsChange(g, t, AppendInput(g[t], f));
    } else if t != f {
      HeadsAdd(g, Phi(ty, Fill(EarlierEdges(g, m), t) + [f], m));
    }
  }

  lemma {:induction false} MergeSlotsHeads(fe: FunEnv, g: seq<Node>, m: nat, to: seq<nat>, from: seq<nat>, i: nat)
    requires i <= |to| && i <= |from|
    ensures Heads(MergeSlots(fe, g, m, to, from, i).0) == Heads(g)
    decreases i
  {
    hide Heads, MergeNode;
    if i > 0 {
      var (g1, n) := MergeNode(g, SlotType(fe, i - 1), m, to[i - 1], from[i - 1]);
      MergeNodeHeads(g, SlotType(fe, i - 1), m, to[i - 1], from[i - 1]);
      MergeSlotsHeads(fe, g1, m, to[i - 1 := n], from, i - 1);
    }
  }

  lemma MergeEnvHeads(fe: FunEnv, g: seq<Node>, m: nat, from: Env, to: Env)
    ensures Heads(MergeEnv(fe, g, m, from, to).0) == Heads(g)
  {
    hide Heads, MergeSlots;
    MergeSlotsHeads(fe, g, m, to.slots, from.slots, if |to.slots| <= |from.slots| then |to.slots| else |from.slots|);
  }

  /** Where control meets there is no new loop header, whatever met there before. */
  lemma GotoHeads(fe: FunEnv, g: seq<Node>, from: Env, to: Env)
    ensures Heads(Goto(fe, g, from, to).0) == Heads(g)
  {
    hide Heads, MergeEnv;
    match to.state
    case Reached =>
      var n := Merge([to.control, from.control]);
      HeadsAdd(g, n);
      MergeEnvHeads(fe, g + [n], |g|, from, to);
    case Merged =>
      if to.control < |g| { HeadsChange(g, to.control, AppendInput(g[to.control], from.control)); }
      MergeEnvHeads(fe, AppendToMerge(g, to.control, from.control), to.control, from, to);
    case _ =>
  }

  lemma MergeIntoHeads(fe: FunEnv, g: seq<Node>, cur: Env, t: Target, ty: LocalType, node: nat)
    ensures Heads(MergeInto(fe, g, cur, t, ty, node).0) == Heads(g)
  {
    hide Heads, Goto, MergeNode;
    GotoHeads(fe, g, cur, t.env);
    var (g1, env) := Goto(fe, g, cur, t.env);
    MergeNodeHeads(g1, ty, env.control, t.node, node);
  }

  lemma BuildOpHeads(g: seq<Node>, e: Env, op: Op, args: seq<nat>)
    requires |e.slots| > 0
    ensures Heads(BuildOp(g, e, op, args).0) == Heads(g)
  {
    hide Heads;
    var w := e.slots[|e.slots| - 1];
    var xs := if op.effect then args + [w] else args;
    HeadsAdd(g, Check(op, xs, w, e.control));
    var g1 := if op.traps then g + [Check(op, xs, w, e.control)] else g;
    HeadsAdd(g1, App(op, xs));
    var g2 := if op.store && |args| > 0 then g1 else g1 + [App(op, xs)];
    HeadsAdd(g2, World(op, xs));
  }

  lemma BranchHeads(g: seq<Node>, control: nat, cond: nat)
    ensures Heads(BuildBranch(g, control, cond).0) == Heads(g)
  {
    hide Heads;
    var b, t, f := Branch(cond, control), IfTrue(|g|), IfFalse(|g|);
    HeadsAdd(g, b);
    HeadsAdd(g + [b], t);
    HeadsAdd(g + [b] + [t], f);
    assert g + [b] + [t] + [f] == g + [b, t, f];
  }

  lemma {:induction false} LoopSlotsHeads(fe: FunEnv, g: seq<Node>, head: nat, slots: seq<nat>, i: nat)
    requires i <= |slots|
    ensures Heads(LoopSlots(fe, g, head, slots, i).0) == Heads(g)
    decreases i
  {
    hide Heads;
    if i > 0 {
      var n := Phi(SlotType(fe, i - 1), [slots[i - 1]], head);
      HeadsAdd(g, n);
      LoopSlotsHeads(fe, g + [n], head, slots[i - 1 := |g|], i - 1);
    }
  }

  /** Entering a loop makes one header if control is live. */
  lemma EnterLoopHeads(fe: FunEnv, v: St)
    ensures Heads(EnterLoop(fe, v).g) == Heads(v.g) + if v.cur.Go() then 1 else 0
  {
    hide Heads, LoopSlots;
    var h := LoopHead([v.cur.control]);
    HeadsAdd(v.g, h);
    LoopSlotsHeads(fe, v.g + [h], |v.g|, v.cur.slots, |v.cur.slots|);
  }

  // ----- Trees -----

  /** The loops in a tree, begun in f, that control enters alive. */
  function LiveLoops(fe: FunEnv, t: Syn, f: Flow): nat
    decreases t, 1
  {
    match t.instr
    case If =>
      if |t.kids| != 2 then 0
      else
        var r := Judge(fe, t.kids[0], f);
        LiveLoops(fe, t.kids[0], f) + if r.Well? then LiveLoops(fe, t.kids[1], r.f) else 0
    case IfElse =>
      if |t.kids| != 3 then 0
      else
        var r := Judge(fe, t.kids[0], f);
        LiveLoops(fe, t.kids[0], f) + (if r.Well? then ArmLoops(fe, t, r.f) else 0)
    case Block(_) => KidLoops(fe, t, 0, Typing.Enter(f))
    case Loop(_) => (if f.live && t.kids != [] then 1 else 0) + KidLoops(fe, t, 0, Typing.Enter(Typing.Enter(f)))
    case _ => KidLoops(fe, t, 0, f)
  }

  /** Both arms of an if-else begin where its condition ended. */
  function ArmLoops(fe: FunEnv, t: Syn, f: Flow): nat
    requires |t.kids| == 3
    decreases t, 0
  {
    var r := Judge(fe, t.kids[1], f);
    LiveLoops(fe, t.kids[1], f) + if r.Well? then LiveLoops(fe, t.kids[2], r.f.(live := f.live)) else 0
  }

  function KidLoops(fe: FunEnv, t: Syn, i: nat, f: Flow): nat
    requires i <= |t.kids|
    decreases t, 0, |t.kids| - i
  {
    if i == |t.kids| then 0
    else
      var r := Judge(fe, t.kids[i], f);
      LiveLoops(fe, t.kids[i], f) + if r.Well? then KidLoops(fe, t, i + 1, r.f) else 0
  }

  lemma {:induction false} DeadLoops(fe: FunEnv, t: Syn, f: Flow)
    requires !f.live
    ensures LiveLoops(fe, t, f) == 0
    decreases t, 1
  {
    hide Judge;
    match t.instr
    case If =>
      if |t.kids| == 2 {
        DeadLoops(fe, t.kids[0], f);
        var r := Judge(fe, t.kids[0], f);
        if r.Well? {
          DeadJudge(fe, t.kids[0], f);
          DeadLoops(fe, t.kids[1], r.f);
        }
      }
    case IfElse =>
      if |t.kids| == 3 {
        DeadLoops(fe, t.kids[0], f);
        var r := Judge(fe, t.kids[0], f);
        if r.Well? {
          DeadJudge(fe, t.kids[0], f);
          DeadLoops(fe, t.kids[1], r.f);
          var r2 := Judge(fe, t.kids[1], r.f);
          if r2.Well? { DeadLoops(fe, t.kids[2], r2.f.(live := r.f.live)); }
        }
      }
    case Block(_) => DeadKidLoops(fe, t, 0, Typing.Enter(f));
    case Loop(_) => DeadKidLoops(fe, t, 0, Typing.Enter(Typing.Enter(f)));
    case Nop => DeadKidLoops(fe, t, 0, f);
    case Unreachable => DeadKidLoops(fe, t, 0, f);
    case Const(_, _) => DeadKidLoops(fe, t, 0, f);
    case GetLocal(_) => DeadKidLoops(fe, t, 0, f);
    case _ => DeadKidLoops(fe, t, 0, f);
  }

  lemma {:induction false} DeadKidLoops(fe: FunEnv, t: Syn, i: nat, f: Flow)
    requires i <= |t.kids| && !f.live
    ensures KidLoops(fe, t, i, f) == 0
    decreases t, 0, |t.kids| - i
  {
    hide Judge, LiveLoops;
    if i < |t.kids| {
      DeadLoops(fe, t.kids[i], f);
      var r := Judge(fe, t.kids[i], f);
      if r.Well? {
        DeadJudge(fe, t.kids[i], f);
        DeadKidLoops(fe, t, i + 1, r.f);
      }
    }
  }

  /** Every tree adds exactly one loop header for each loop in it that is entered alive. */
  lemma {:induction false} RunLoops(fe: FunEnv, t: Syn, v: St, f: Flow)
    requires LiveInv(fe, v) && Fits(v, f) && Run(fe, t, v).Ok?
    ensures Heads(Run(fe, t, v).s.g) == Heads(v.g) + LiveLoops(fe, t, f)
    decreases t, 2
  {
    hide Heads, Inv, Fits, Run, LiveLoops, KidOk;
    if !v.cur.Go() {
      RunDead(fe, t, v);
      FitsLive(v, f);
      DeadLoops(fe, t, f);
    } else {
      match t.instr
      case Nop => LeafLoops(fe, t, v, f);
      case Unreachable => LeafLoops(fe, t, v, f);
      case Const(_, _) => LeafLoops(fe, t, v, f);
      case GetLocal(_) => LeafLoops(fe, t, v, f);
      case SetLocal(_) => PlainLoops(fe, t, v, f);
      case Apply(_) => PlainLoops(fe, t, v, f);
      case Return => PlainLoops(fe, t, v, f);
      case Br(_) => PlainLoops(fe, t, v, f);
      case BrIf(_) => PlainLoops(fe, t, v, f);
      case Select => PlainLoops(fe, t, v, f);
      case Cut(_, _) => PlainLoops(fe, t, v, f);
      case If => IfLoops(fe, t, v, f);
      case IfElse => IfElseLoops(fe, t, v, f);
      case Block(_) => BlockLoops(fe, t, v, f);
      case Loop(_) => LoopLoops(fe, t, v, f);
    }
  }

  lemma FitsLive(v: St, f: Flow)
    requires Fits(v, f)
    ensures v.cur.Go() == f.live
  {
  }

  lemma LeafLoops(fe: FunEnv, t: Syn, v: St, f: Flow)
    requires t.instr.Nop? || t.instr.Unreachable? || t.instr.Const? || t.instr.GetLocal?
    requires Run(fe, t, v).Ok?
    ensures Heads(Run(fe, t, v).s.g) == Heads(v.g) + LiveLoops(fe, t, f)
  {
    hide Heads;
    if |v.cur.slots| > 0 { HeadsAdd(v.g, Dead(v.cur.slots[|v.cur.slots| - 1], v.cur.control)); }
    if t.instr.Const? { HeadsAdd(v.g, Literal(t.instr.ty, t.instr.bits)); }
  }

  lemma {:induction false} KidsLoops(fe: FunEnv, t: Syn, i: nat, v: St, f: Flow)
    requires i <= |t.kids| <= Arity(fe, t.instr) && LiveInv(fe, v) && Fits(v, f) && RunKids(fe, t, i, v).KOk?
    ensures Heads(RunKids(fe, t, i, v).s.g) == Heads(v.g) + KidLoops(fe, t, i, f)
    decreases t, 0, |t.kids| - i
  {
    hide Heads, Inv, Fits, Run, Judge, LiveLoops, KidOk, Arity;
    if i < |t.kids| {
      RunLoops(fe, t.kids[i], v, f);
      RunLive(fe, t.kids[i], v);
      JudgeRuns(fe, t.kids[i], v, f);
      KidsLoops(fe, t, i + 1, Run(fe, t.kids[i], v).s, Judge(fe, t.kids[i], f).f);
    }
  }

  /** What an instruction with plain operands does after them adds no header. */
  lemma PlainStep(fe: FunEnv, t: Syn, v: St)
    requires Run(fe, t, v).Ok? && !t.instr.If? && !t.instr.IfElse? && !t.instr.Block? && !t.instr.Loop?
    requires !t.instr.Nop? && !t.instr.Unreachable? && !t.instr.Const? && !t.instr.GetLocal?
    ensures |t.kids| == Arity(fe, t.instr) && RunKids(fe, t, 0, v).KOk?
    ensures Heads(Run(fe, t, v).s.g) == Heads(RunKids(fe, t, 0, v).s.g)
  {
    hide Heads, RunKids, BuildOp, BuildBranch, MergeInto, KidOk;
    var k := RunKids(fe, t, 0, v);
    match t.instr
    case Apply(op) => if |k.s.cur.slots| > 0 { BuildOpHeads(k.s.g, k.s.cur, op, k.nodes); }
    case Return =>
      if |k.s.cur.slots| > 0 {
        HeadsAdd(k.s.g, Ret(if k.nodes == [] then 0
            else k.nodes[0], k.s.cur.slots[|k.s.cur.slots| - 1], k.s.cur.control));
      }
    case Br(d) => BreakHeads(fe, k.s, d, k.tys[0], k.nodes[0]);
    case BrIf(d) =>
      BranchHeads(k.s.g, k.s.cur.control, k.nodes[0]);
      var (g, tc, fc) := BuildBranch(k.s.g, k.s.cur.control, k.nodes[0]);
      BreakHeads(fe, St(g, Env(Reached, tc, k.s.cur.slots), k.s.blocks, k.s.log), d, k.tys[1], k.nodes[1]);
    case Select => SelectHeads(k.s, k.tys[1], k.nodes[0], k.nodes[1], k.nodes[2]);
    case _ =>
  }

  lemma BreakHeads(fe: FunEnv, v: St, d: nat, ty: LocalType, node: nat)
    ensures Heads(BreakTo(fe, v, d, ty, node).g) == Heads(v.g)
  {
    hide Heads, MergeInto;
    if d < |v.blocks| { MergeIntoHeads(fe, v.g, v.cur, v.blocks[At(v.blocks, d)], ty, node); }
  }

  lemma SelectHeads(v: St, ty: LocalType, c: nat, a: nat, b: nat)
    ensures var (g, tc, fc) := BuildBranch(v.g, v.cur.control, c);
      Heads(g + [Merge([tc, fc]), Phi(ty, [a, b], |g|)]) == Heads(v.g)
  {
    hide Heads, BuildBranch;
    BranchHeads(v.g, v.cur.control, c);
    var (g, tc, fc) := BuildBranch(v.g, v.cur.control, c);
    var m, p := Merge([tc, fc]), Phi(ty, [a, b], |g|);
    HeadsAdd(g, m);
    HeadsAdd(g + [m], p);
    assert g + [m] + [p] == g + [m, p];
  }

  lemma {:induction false} PlainLoops(fe: FunEnv, t: Syn, v: St, f: Flow)
    requires LiveInv(fe, v) && Fits(v, f) && Run(fe, t, v).Ok?
    requires !t.instr.If? && !t.instr.IfElse? && !t.instr.Block? && !t.instr.Loop?
    requires !t.instr.Nop? && !t.instr.Unreachable? && !t.instr.Const? && !t.instr.GetLocal?
    ensures Heads(Run(fe, t, v).s.g) == Heads(v.g) + LiveLoops(fe, t, f)
    decreases t, 1
  {
    hide Heads, Inv, Fits, Run, RunKids, KidLoops, Arity;
    PlainStep(fe, t, v);
    KidsLoops(fe, t, 0, v, f);
  }

  lemma {:induction false} IfLoops(fe: FunEnv, t: Syn, v: St, f: Flow)
    requires t.instr.If? && LiveInv(fe, v) && Fits(v, f) && Run(fe, t, v).Ok?
    ensures Heads(Run(fe, t, v).s.g) == Heads(v.g) + LiveLoops(fe, t, f)
    decreases t, 1
  {
    hide Heads, Inv, EntryFits, Run, KidOk, BuildBranch, Goto, Judge;
    KidCount(fe, t, v);
    IfIsRest(fe, t, v);
    RunLoops(fe, t.kids[0], v, f);
    JudgeRuns(fe, t.kids[0], v, f);
    RunLive(fe, t.kids[0], v);
    var Ok(v1, ty, c) := Run(fe, t.kids[0], v);
    ForkLive(fe, If, v1, ty, c);
    BranchHeads(v1.g, v1.cur.control, c);
    var f1, w := Judge(fe, t.kids[0], f).f, IfArm(v1, c);
    RunLoops(fe, t.kids[1], w, f1);
    var v2 := Run(fe, t.kids[1], w).s;
    GotoHeads(fe, v2.g, v2.cur, Env(Reached, Forks(v1.g, v1.cur, c).2, v1.cur.slots));
  }

  lemma {:induction false} IfElseLoops(fe: FunEnv, t: Syn, v: St, f: Flow)
    requires t.instr.IfElse? && LiveInv(fe, v) && Fits(v, f) && Run(fe, t, v).Ok?
    ensures Heads(Run(fe, t, v).s.g) == Heads(v.g) + LiveLoops(fe, t, f)
    decreases t, 1
  {
    hide Heads, Inv, EntryFits, Run, KidOk, ElseRest, Judge, ArmLoops;
    KidCount(fe, t, v);
    IfElseIsRest(fe, t, v);
    RunLoops(fe, t.kids[0], v, f);
    JudgeRuns(fe, t.kids[0], v, f);
    RunLive(fe, t.kids[0], v);
    var Ok(v1, ty, c) := Run(fe, t.kids[0], v);
    ArmsLoops(fe, t, v1, ty, c, Judge(fe, t.kids[0], f).f);
  }

  lemma {:induction false} ArmsLoops(fe: FunEnv, t: Syn, v: St, ty: LocalType, c: nat, f: Flow)
    requires t.instr.IfElse? && |t.kids| == 3 && LiveInv(fe, v) && Fits(v, f) && (v.cur.Go() ==> Typed(v, ty, c))
    requires KidOk(fe, IfElse, 0, ty) && ElseRest(fe, t, v, c).Ok?
    ensures Heads(ElseRest(fe, t, v, c).s.g) == Heads(v.g) + ArmLoops(fe, t, f)
    decreases t, 0
  {
    hide Heads, Inv, EntryFits, Run, MergeInto, BuildBranch, Judge, LiveLoops;
    ForkLive(fe, IfElse, v, ty, c);
    BranchHeads(v.g, v.cur.control, c);
    var v1 := ElseFirst(v, c);
    RunLoops(fe, t.kids[1], v1, f);
    JudgeRuns(fe, t.kids[1], v1, f);
    var a := Run(fe, t.kids[1], v1);
    FirstArm(fe, v, c, ty, t.kids[1], a.s.cur.Go());
    MergeIntoHeads(fe, a.s.g, a.s.cur, NewTarget(v.cur), a.ty, a.node);
    var v2, m2 := ElseSecond(fe, v, c, a), MergeInto(fe, a.s.g, a.s.cur, NewTarget(v.cur), a.ty, a.node).1;
    RunLoops(fe, t.kids[2], v2, Judge(fe, t.kids[1], f).f.(live := f.live));
    var b := Run(fe, t.kids[2], v2);
    MergeIntoHeads(fe, b.s.g, b.s.cur, m2, b.ty, b.node);
  }

  lemma LeaveHeads(fe: FunEnv, k: Kids)
    requires k.KOk? && LeaveTarget(fe, k).Ok?
    ensures Heads(LeaveTarget(fe, k).s.g) == Heads(k.s.g)
  {
    hide Heads, MergeInto;
    var last := |k.s.blocks| - 1;
    MergeIntoHeads(fe, k.s.g, k.s.cur, k.s.blocks[last], k.tys[|k.tys| - 1], k.nodes[|k.nodes| - 1]);
  }

  lemma {:induction false} BlockLoops(fe: FunEnv, t: Syn, v: St, f: Flow)
    requires t.instr.Block? && LiveInv(fe, v) && Fits(v, f) && Run(fe, t, v).Ok?
    ensures Heads(Run(fe, t, v).s.g) == Heads(v.g) + LiveLoops(fe, t, f)
    decreases t, 1
  {
    hide Heads, Inv, Fits, RunKids, LeaveTarget, MergeInto, Run;
    KidCount(fe, t, v);
    if t.kids == [] {
      EmptyNest(fe, t, v, f);
    } else {
      BlockIs(fe, t, v, f);
      EnterFits(fe, v, f);
      EnterLive(fe, v);
      KidsLoops(fe, t, 0, EnterBlock(v), Typing.Enter(f));
      LeaveHeads(fe, RunKids(fe, t, 0, EnterBlock(v)));
    }
  }

  lemma {:induction false} LoopLoops(fe: FunEnv, t: Syn, v: St, f: Flow)
    requires t.instr.Loop? && LiveInv(fe, v) && Fits(v, f) && Run(fe, t, v).Ok?
    ensures Heads(Run(fe, t, v).s.g) == Heads(v.g) + LiveLoops(fe, t, f)
    decreases t, 1
  {
    hide Heads, Inv, Fits, RunKids, LeaveTarget, EnterLoop, Run;
    FitsLive(v, f);
    KidCount(fe, t, v);
    if t.kids == [] {
      EmptyNest(fe, t, v, f);
    } else {
      LoopIs(fe, t, v, f);
      EnterFits(fe, v, f);
      EnterLive(fe, v);
      EnterLoopHeads(fe, v);
      var k := RunKids(fe, t, 0, EnterLoop(fe, v));
      KidsLoops(fe, t, 0, EnterLoop(fe, v), Typing.Enter(Typing.Enter(f)));
      LeaveHeads(fe, Popped(k));
    }
  }

  // ----- Bodies -----

  /** The graph of a body has one loop header for each of its loops that control enters alive. */
  lemma BodyLoops(d: Decl, trees: seq<Syn>)
    requires !d.ret.End? && BuildBody(d, trees).Accepted?
    ensures Heads(BuildBody(d, trees).g) == KidLoops(EnvOf(d), BodyOf(trees), 0, B.ENTRY)
  {
    hide Heads, RunKids, KidLoops, InitGraph, Inv, EntryFits;
    var fe, v, t := EnvOf(d), InitSt(d), BodyOf(trees);
    B.EntryLive(d);
    KidsLoops(fe, t, 0, v, B.ENTRY);
    InitZeroed(d);
    forall i | 0 <= i < |v.g| ensures !v.g[i].LoopHead? { assert FunctionMeaning.Plain(v.g[i]); }
    NoHeads(v.g);
    var k := RunKids(fe, t, 0, v);
    if |k.s.cur.slots| > 0 {
      var w := k.s.cur.slots[|k.s.cur.slots| - 1];
      HeadsAdd(k.s.g, Ret(0, w, k.s.cur.control));
      if k.nodes != [] { HeadsAdd(k.s.g, Ret(k.nodes[|k.nodes| - 1], w, k.s.cur.control)); }
    }
  }

  predicate NoLoop(t: Syn) {
    !t.instr.Loop? && forall i :: 0 <= i < |t.kids| ==> NoLoop(t.kids[i])
  }

  /** Without loops there is no loop header. */
  lemma {:induction false} Loopless(fe: FunEnv, t: Syn, f: Flow)
    requires NoLoop(t)
    ensures LiveLoops(fe, t, f) == 0
    decreases t, 1
  {
    hide Judge, KidLoops;
    match t.instr
    case If =>
      if |t.kids| == 2 {
        Loopless(fe, t.kids[0], f);
        var r := Judge(fe, t.kids[0], f);
        if r.Well? { Loopless(fe, t.kids[1], r.f); }
      }
    case IfElse =>
      if |t.kids| == 3 {
        Loopless(fe, t.kids[0], f);
        var r := Judge(fe, t.kids[0], f);
        if r.Well? {
          Loopless(fe, t.kids[1], r.f);
          var r2 := Judge(fe, t.kids[1], r.f);
          if r2.Well? { Loopless(fe, t.kids[2], r2.f.(live := r.f.live)); }
        }
      }
    case Block(_) => KidsLoopless(fe, t, 0, Typing.Enter(f));
    case Loop(_) =>
    case Nop => KidsLoopless(fe, t, 0, f);
    case Unreachable => KidsLoopless(fe, t, 0, f);
    case Const(_, _) => KidsLoopless(fe, t, 0, f);
    case GetLocal(_) => KidsLoopless(fe, t, 0, f);
    case _ => KidsLoopless(fe, t, 0, f);
  }

  lemma {:induction false} KidsLoopless(fe: FunEnv, t: Syn, i: nat, f: Flow)
    requires i <= |t.kids| && forall j :: 0 <= j < |t.kids| ==> NoLoop(t.kids[j])
    ensures KidLoops(fe, t, i, f) == 0
    decreases t, 0, |t.kids| - i
  {
    hide Judge, LiveLoops;
    if i < |t.kids| {
      Loopless(fe, t.kids[i], f);
      var r := Judge(fe, t.kids[i], f);
      if r.Well? { KidsLoopless(fe, t, i + 1, r.f); }
    }
  }

  /** From bytes: as many loop headers as loops that control enters alive, so none in a body without loops. */
  lemma DecodedLoops(menv: ModuleEnv, d: Decl, code: seq<byte>)
    requires !d.ret.End? && D.Builds(menv, d, code)
    ensures var trees := D.BodyTrees(menv, EnvOf(d), code);
      var n := Heads(D.BuiltGraph(menv, d, code));
      && n == KidLoops(EnvOf(d), BodyOf(trees), 0, B.ENTRY)
      && ((forall i :: 0 <= i < |trees| ==> NoLoop(trees[i])) ==> n == 0)
  {
    hide Heads, KidLoops, BuildBody, D.Decode, D.BodyTrees, NoLoop;
    D.AcceptedIsBuild(menv, d, code);
    var trees := D.BodyTrees(menv, EnvOf(d), code);
    BodyLoops(d, trees);
    if forall i :: 0 <= i < |trees| ==> NoLoop(trees[i]) { KidsLoopless(EnvOf(d), BodyOf(trees), 0, B.ENTRY); }
  }
}
