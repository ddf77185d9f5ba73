/** The invariants over the construction for whole trees: what a tree does in dead code, and that
    every tree keeps the invariant, only adds to the graph, and is typed when it ends alive. */
module SsaRun {
  import opened Syntax
  import opened Graph
  import opened Ssa
  import opened SsaInvariant

  /** A tree that is built has all its children. */
  lemma KidCount(fe: FunEnv, t: Syn, v: St)
    requires Run(fe, t, v).Ok?
    ensures |t.kids| == Arity(fe, t.instr)
  {
  }

  /** Unreachable code changes nothing and stays unreachable. */
  lemma {:induction false} RunDead(fe: FunEnv, t: Syn, s: St)
    requires !s.cur.Go() && Run(fe, t, s).Ok?
    ensures var s' := Run(fe, t, s).s; s'.g == s.g && s'.blocks == s.blocks && !s'.cur.Go() && s'.log.gone == s.log.gone
    decreases t, 2
  {
    match t.instr
    case SetLocal(_) => RunKidsDead(fe, t, 0, s);
    case Apply(_) => RunKidsDead(fe, t, 0, s);
    case Return => RunKidsDead(fe, t, 0, s);
    case Br(_) => RunKidsDead(fe, t, 0, s);
    case BrIf(_) => RunKidsDead(fe, t, 0, s);
    case Select => RunKidsDead(fe, t, 0, s);
    case Cut(_, _) => RunKidsDead(fe, t, 0, s);
    case If =>
      RunDead(fe, t.kids[0], s);
      var s1 := Run(fe, t.kids[0], s).s;
      RunDead(fe, t.kids[1], s1.(cur := Kill(Unreached)));
    case IfElse =>
      RunDead(fe, t.kids[0], s);
      var s1 := Run(fe, t.kids[0], s).s;
      RunDead(fe, t.kids[1], St(s1.g, Stolen(s1.cur).(control := 0), s1.blocks, s1.log));
      var log := Run(fe, t.kids[1], St(s1.g, Stolen(s1.cur).(control := 0), s1.blocks, s1.log)).s.log;
      RunDead(fe, t.kids[2], St(s1.g, Split(s1.cur).(control := 0), s1.blocks, log));
    case Block(_) =>
      if t.kids != [] { RunKidsDead(fe, t, 0, EnterBlock(s)); }
    case Loop(_) =>
      if t.kids != [] { RunKidsDead(fe, t, 0, EnterLoop(fe, s)); }
    case _ =>
  }

  lemma {:induction false} RunKidsDead(fe: FunEnv, t: Syn, i: nat, s: St)
    requires i <= |t.kids| && !s.cur.Go() && RunKids(fe, t, i, s).KOk?
    ensures var s' := RunKids(fe, t, i, s).s;
      s'.g == s.g && s'.blocks == s.blocks && !s'.cur.Go() && s'.log.gone == s.log.gone
    decreases t, 0, |t.kids| - i
  {
    if i < |t.kids| {
      RunDead(fe, t.kids[i], s);
      RunKidsDead(fe, t, i + 1, Run(fe, t.kids[i], s).s);
    }
  }

  /** A result that control comes out of has a type, and a node when that type is a value. */
  predicate Typed(s: St, ty: LocalType, node: nat) {
    s.cur.Go() ==> !ty.End? && (IsValue(ty) ==> node < |s.g|)
  }

  ghost predicate Good(fe: FunEnv, s: St, s': St) {
    Inv(fe, s') && Steps(s, s')
  }

  lemma GoodTrans(fe: FunEnv, s: St, s1: St, s2: St)
    requires Good(fe, s, s1) && Good(fe, s1, s2)
    ensures Good(fe, s, s2)
  {
    StepsTrans(s, s1, s2);
  }

  lemma NodeOkTail(g: seq<Node>, g': seq<Node>)
    requires GraphOk(g) && g <= g' && forall i :: |g| <= i < |g'| ==> NodeOk(g'[i], i)
    ensures GraphOk(g')
  {
    forall i | 0 <= i < |g'| ensures NodeOk(g'[i], i) {
      if i < |g| { assert NodeOk(g[i], i); }
    }
  }

  /** Appending nodes and moving to another environment. */
  lemma GrowGood(fe: FunEnv, s: St, g: seq<Node>, e: Env)
    requires Inv(fe, s) && s.g <= g && EnvOk(fe, g, e)
    requires forall i :: |s.g| <= i < |g| ==> NodeOk(g[i], i)
    ensures Good(fe, s, St(g, e, s.blocks, s.log))
  {
    NodeOkTail(s.g, g);
    BlocksGrow(fe, s.g, g, s.blocks);
  }

  lemma BuildOpGood(fe: FunEnv, s: St, op: Op, args: seq<nat>)
    requires Inv(fe, s) && s.cur.Go() && |args| == |op.params| && Below(args, |s.g|)
    ensures |s.cur.slots| > 0
    ensures var (g, e, n) := BuildOp(s.g, s.cur, op, args);
      && Good(fe, s, St(g, e, s.blocks, s.log)) && s.g <= g && e.Go() && n < |g|
  {
    var (g, e, n) := BuildOp(s.g, s.cur, op, args);
    var w := s.cur.slots[|s.cur.slots| - 1];
    var xs := if op.effect then args + [w] else args;
    assert Below(xs, |s.g|);
    assert s.g <= g;
    GrowGood(fe, s, g, e);
  }

  lemma BreakToGood(fe: FunEnv, s: St, d: nat, ty: LocalType, node: nat)
    requires Inv(fe, s) && s.cur.Go() && d < |s.blocks| && !ty.End? && (IsValue(ty) ==> node < |s.g|)
    ensures var s' := BreakTo(fe, s, d, ty, node);
      && Good(fe, s, s')
      && var t' := s'.blocks[At(s.blocks, d)];
         SourceOf(s'.g, t', s.cur.control, s.cur.slots + [node]) && (IsValue(t'.ty) ==> t'.ty == ty)
  {
    BlocksMerge(fe, s.g, s.blocks, At(s.blocks, d), s.cur, ty, node);
  }

  lemma EnterBlockOk(fe: FunEnv, s: St)
    requires Inv(fe, s) && s.cur.Go()
    ensures Inv(fe, EnterBlock(s)) && EnterBlock(s).cur.Go()
  {
    var b := EnterBlock(s).blocks;
    forall i | 0 <= i < |b| ensures TargetOk(fe, s.g, b[i]) {
      if i < |s.blocks| { assert b[i] == s.blocks[i]; }
    }
  }

  /** A new loop header has one aligned phi per slot. */
  lemma {:induction false} LoopSlotsOk(fe: FunEnv, g: seq<Node>, head: nat, slots: seq<nat>, i: nat)
    requires GraphOk(g) && head < |g| && i <= |slots| && Below(slots, |g|)
    requires forall j :: i <= j < |slots| ==> IsPhiOn(g, slots[j], head) && |g[slots[j]].inputs| == 1
    requires forall j, k :: i <= j < k < |slots| ==> slots[j] != slots[k]
    ensures var (g', r) := LoopSlots(fe, g, head, slots, i);
      && GraphOk(g') && g <= g' && |r| == |slots| && Below(r, |g'|)
      && (forall j :: 0 <= j < |r| ==> IsPhiOn(g', r[j], head) && |g'[r[j]].inputs| == 1)
      && (forall j, k :: 0 <= j < k < |r| ==> r[j] != r[k])
      && (forall j :: i <= j < |r| ==> r[j] == slots[j])
      && (forall j :: 0 <= j < i ==> g'[r[j]].inputs[0] == slots[j])
    decreases i
  {
    if i > 0 {
      var g1 := g + [Phi(SlotType(fe, i - 1), [slots[i - 1]], head)];
      NodeOkTail(g, g1);
      var slots1 := slots[i - 1 := |g|];
      forall j | i - 1 <= j < |slots1| ensures IsPhiOn(g1, slots1[j], head) && |g1[slots1[j]].inputs| == 1 {
        if j >= i { assert slots1[j] == slots[j] && g1[slots[j]] == g[slots[j]]; }
      }
      LoopSlotsOk(fe, g1, head, slots1, i - 1);
    }
  }

  lemma PrepareOk(fe: FunEnv, g: seq<Node>, e: Env)
    requires GraphOk(g) && e.Go() && EnvOk(fe, g, e)
    ensures var (g', c) := PrepareForLoop(fe, g, e);
      && GraphOk(g') && g <= g' && EnvOk(fe, g', c) && c.state.Merged? && c.control == |g|
      && TargetOk(fe, g', Target(c, Stmt, 0, true))
      && SourceOf(g', Target(c, Stmt, 0, true), e.control, e.slots + [0])
  {
    var g1 := g + [LoopHead([e.control])];
    NodeOkTail(g, g1);
    LoopSlotsOk(fe, g1, |g|, e.slots, |e.slots|);
    var (g', c) := PrepareForLoop(fe, g, e);
    var t := Target(c, Stmt, 0, true);
    assert g'[|g|] == g1[|g|];
    assert Nodes(t) == c.slots;
    assert OnEdge(g', t, e.control, e.slots + [0], 0);
  }

  /** Two more open entries at the end. */
  lemma BlocksPush(fe: FunEnv, g: seq<Node>, blocks: seq<Target>, b: Target, c: Target)
    requires BlocksOk(fe, g, blocks) && TargetOk(fe, g, b) && TargetOk(fe, g, c)
    requires !b.env.state.Merged?
    requires c.env.state.Merged? ==> forall i :: 0 <= i < |blocks| && blocks[i].env.state.Merged? ==>
      blocks[i].env.control != c.env.control
    ensures BlocksOk(fe, g, blocks + [b, c])
  {
    var bs := blocks + [b, c];
    assert forall i :: 0 <= i < |blocks| ==> bs[i] == blocks[i];
    assert bs[|blocks|] == b && bs[|blocks| + 1] == c;
  }

  lemma EnterLoopOk(fe: FunEnv, s: St)
    requires Inv(fe, s) && s.cur.Go()
    ensures var s' := EnterLoop(fe, s);
      && Inv(fe, s') && s'.cur.Go() && s.g <= s'.g && |s'.blocks| == |s.blocks| + 2
      && s'.blocks[..|s.blocks|] == s.blocks
      && var c := s'.blocks[|s.blocks| + 1];
         && c.cont && c.env.state.Merged? && c.env.control == |s.g| && s'.cur == Env(Reached, |s.g|, c.env.slots)
         && SourceOf(s'.g, c, s.cur.control, s.cur.slots + [0])
  {
    PrepareOk(fe, s.g, Stolen(s.cur));
    var (g', c) := PrepareForLoop(fe, s.g, Stolen(s.cur));
    BlocksGrow(fe, s.g, g', s.blocks);
    forall i | 0 <= i < |s.blocks| && s.blocks[i].env.state.Merged? ensures s.blocks[i].env.control != c.control {
      assert TargetOk(fe, s.g, s.blocks[i]);
    }
    BlocksPush(fe, g', s.blocks, NewTarget(s.cur), Target(c, Stmt, 0, true));
  }

  /** Steps on the block entries s has; s' may have more. */
  ghost predicate PrefixSteps(s: St, s': St) {
    && Ext(s.g, s'.g) && |s.blocks| <= |s'.blocks| && s.log.gone <= s'.log.gone
    && forall i :: 0 <= i < |s.blocks| ==> Evolves(s.g, s.blocks[i], s'.g, s'.blocks[i])
  }

  lemma PrefixTrans(s: St, s1: St, s2: St)
    requires PrefixSteps(s, s1) && Steps(s1, s2)
    ensures PrefixSteps(s, s2)
  {
    ExtTrans(s.g, s1.g, s2.g);
    forall i | 0 <= i < |s.blocks| ensures Evolves(s.g, s.blocks[i], s2.g, s2.blocks[i]) {
      assert Evolves(s.g, s.blocks[i], s1.g, s1.blocks[i]) && Evolves(s1.g, s1.blocks[i], s2.g, s2.blocks[i]);
    }
  }

  lemma EnterBlockPrefix(s: St)
    ensures PrefixSteps(s, EnterBlock(s))
  {
    ExtRefl(s.g);
  }

  lemma EnterLoopPrefix(fe: FunEnv, s: St)
    requires Inv(fe, s) && s.cur.Go()
    ensures PrefixSteps(s, EnterLoop(fe, s))
  {
    EnterLoopOk(fe, s);
    var s' := EnterLoop(fe, s);
    BlocksGrow(fe, s.g, s'.g, s.blocks);
    assert forall i :: 0 <= i < |s.blocks| ==> s'.blocks[i] == s'.blocks[..|s.blocks|][i];
  }

  /** Dropping the innermost entry of a loop. */
  lemma PopCont(fe: FunEnv, s: St, s1: St)
    requires Inv(fe, s1) && PrefixSteps(s, s1) && |s1.blocks| == |s.blocks| + 2
    ensures var s2 := s1.(blocks := s1.blocks[..|s1.blocks| - 1]); Inv(fe, s2) && PrefixSteps(s, s2)
  {
  }

  /** Falling out of the innermost block entry. */
  lemma LeaveOk(fe: FunEnv, s: St, k: Kids)
    requires k.KOk? && Inv(fe, k.s) && PrefixSteps(s, k.s) && |k.s.blocks| == |s.blocks| + 1
    requires 0 < |k.tys| == |k.nodes| && Typed(k.s, k.tys[|k.tys| - 1], k.nodes[|k.nodes| - 1])
    ensures LeaveTarget(fe, k).Ok?
    ensures var r := LeaveTarget(fe, k); Good(fe, s, r.s) && Typed(r.s, r.ty, r.node)
  {
    var last := |s.blocks|;
    var b := k.s.blocks;
    var ty, node := k.tys[|k.tys| - 1], k.nodes[|k.nodes| - 1];
    assert TargetOk(fe, k.s.g, b[last]);
    if k.s.cur.Go() {
      BlocksMerge(fe, k.s.g, b, last, k.s.cur, ty, node);
      var (g', t') := MergeInto(fe, k.s.g, k.s.cur, b[last], ty, node);
      var b' := b[last := t'];
      assert b'[..last] == b[..last];
      assert TargetOk(fe, g', b'[last]);
      LeaveTyped(t', g');
      ExtTrans(s.g, k.s.g, g');
      forall i | 0 <= i < last ensures Evolves(s.g, s.blocks[i], g', b[i]) {
        assert Evolves(k.s.g, b[i], g', b'[i]);
      }
      assert BlocksOk(fe, g', b'[..last]);
    } else {
      LeaveTyped(b[last], k.s.g);
    }
  }

  lemma LeaveTyped(t: Target, g: seq<Node>)
    requires t.env.Go() ==> Below(Nodes(t), |g|)
    ensures t.env.Go() && IsValue(t.ty) ==> t.node < |g|
  {
    if t.env.Go() && IsValue(t.ty) {
      assert Nodes(t)[|t.env.slots|] == t.node;
    }
  }

  /** Flowing into an entry that is not on the block stack: the join of an if. */
  lemma PendOk(fe: FunEnv, s: St, p: Target, ty: LocalType, node: nat)
    requires Inv(fe, s) && TargetOk(fe, s.g, p) && !p.env.state.Merged? && Typed(s, ty, node)
    ensures var (g', p') := MergeInto(fe, s.g, s.cur, p, ty, node);
      && s.g <= g' && GraphOk(g') && BlocksOk(fe, g', s.blocks) && TargetOk(fe, g', p')
      && Steps(s, s.(g := g')) && Evolves(s.g, p, g', p')
      && (s.cur.Go() ==> Merges(fe, s.g, s.cur, p, ty, node, g', p'))
      && (!s.cur.Go() ==> g' == s.g && p' == p)
  {
    var (g', p') := MergeInto(fe, s.g, s.cur, p, ty, node);
    if s.cur.Go() {
      MergeIntoOk(fe, s.g, s.cur, p, ty, node);
    }
    BlocksGrow(fe, s.g, g', s.blocks);
  }

  /** Both arms of an if start from the projections of one branch. */
  lemma BranchOk(fe: FunEnv, s: St, cond: nat)
    requires Inv(fe, s) && s.cur.Go() && cond < |s.g|
    ensures var (g, tc, fc) := BuildBranch(s.g, s.cur.control, cond);
      && s.g <= g && tc < |g| && fc < |g|
      && Good(fe, s, St(g, Env(Reached, tc, s.cur.slots), s.blocks, s.log))
      && EnvOk(fe, g, Env(Reached, fc, s.cur.slots))
  {
    var (g, tc, fc) := BuildBranch(s.g, s.cur.control, cond);
    GrowGood(fe, s, g, Env(Reached, tc, s.cur.slots));
  }

  lemma EnvKeep(fe: FunEnv, g: seq<Node>, g': seq<Node>, e: Env)
    requires EnvOk(fe, g, e) && |g| <= |g'|
    ensures EnvOk(fe, g', e)
  {
  }

  /** The join of an if without else, after its arm. */
  lemma IfJoin(fe: FunEnv, s: St, fc: nat, slots: seq<nat>)
    requires Inv(fe, s) && EnvOk(fe, s.g, Env(Reached, fc, slots))
    ensures var merge := Env(Reached, fc, slots);
            var p := Target(merge, Stmt, 0, false);
            var (g', e) := if s.cur.Go() then Goto(fe, s.g, s.cur, merge) else (s.g, merge);
            var (g2, p2) := MergeInto(fe, s.g, s.cur, p, Stmt, 0);
      && g2 == g' && p2.env == e && e.Go() && Good(fe, s, St(g', e, s.blocks, s.log))
  {
    var p := Target(Env(Reached, fc, slots), Stmt, 0, false);
    assert Nodes(p) == slots;
    PendOk(fe, s, p, Stmt, 0);
  }

  /** What the children of a tree give. */
  ghost predicate KidsGood(fe: FunEnv, t: Syn, i: nat, s: St, k: Kids) {
    && k.KOk? && Good(fe, s, k.s)
    && |k.tys| == |k.nodes|
    && (forall j :: 0 <= j < |k.tys| ==> KidOk(fe, t.instr, i + j, k.tys[j]))
    && (forall j :: 0 <= j < |k.tys| ==> Typed(k.s, k.tys[j], k.nodes[j]))
  }

  lemma {:induction false} RunOk(fe: FunEnv, t: Syn, s: St)
    requires Inv(fe, s) && s.cur.Go() && Run(fe, t, s).Ok?
    ensures var r := Run(fe, t, s); Good(fe, s, r.s) && Typed(r.s, r.ty, r.node)
    decreases t, 2
  {
    match t.instr
    case Nop => StepsRefl(s);
    case Unreachable => GrowGood(fe, s, Run(fe, t, s).s.g, Kill(ControlEnd));
    case Const(ty, bits) => GrowGood(fe, s, s.g + [Literal(ty, bits)], s.cur);
    case GetLocal(i) => StepsRefl(s);
    case SetLocal(i) => RunSetLocal(fe, t, i, s);
    case Apply(op) => RunApply(fe, t, op, s);
    case Return => RunReturn(fe, t, s);
    case Br(d) => RunBr(fe, t, d, s);
    case BrIf(d) => RunBrIf(fe, t, d, s);
    case Select => RunSelect(fe, t, s);
    case If => RunIf(fe, t, s);
    case IfElse => RunIfElse(fe, t, s);
    case Block(_) => RunBlock(fe, t, s);
    case Loop(_) => RunLoop(fe, t, s);
    case Cut(_, _) => RunCut(fe, t, s);
  }

  lemma {:induction false} RunCut(fe: FunEnv, t: Syn, s: St)
    requires t.instr.Cut? && Inv(fe, s) && s.cur.Go() && Run(fe, t, s).Ok?
    ensures var r := Run(fe, t, s); Good(fe, s, r.s) && Typed(r.s, r.ty, r.node)
    decreases t, 1
  {
    RunKidsOk(fe, t, 0, s);
    var k := RunKids(fe, t, 0, s);
    StepsRefl(k.s);
    GoodTrans(fe, s, k.s, Run(fe, t, s).s);
  }

  lemma {:induction false} RunSetLocal(fe: FunEnv, t: Syn, i: nat, s: St)
    requires t.instr == SetLocal(i) && Inv(fe, s) && s.cur.Go() && Run(fe, t, s).Ok?
    ensures var r := Run(fe, t, s); Good(fe, s, r.s) && Typed(r.s, r.ty, r.node)
    decreases t, 1
  {
    RunKidsOk(fe, t, 0, s);
    var k := RunKids(fe, t, 0, s);
    assert KidOk(fe, t.instr, 0 + 0, k.tys[0]) && Typed(k.s, k.tys[0], k.nodes[0]);
    StepsRefl(k.s);
    GoodTrans(fe, s, k.s, Run(fe, t, s).s);
  }

  lemma {:induction false} RunApply(fe: FunEnv, t: Syn, op: Op, s: St)
    requires t.instr == Apply(op) && Inv(fe, s) && s.cur.Go() && Run(fe, t, s).Ok?
    ensures var r := Run(fe, t, s); Good(fe, s, r.s) && Typed(r.s, r.ty, r.node)
    decreases t, 1
  {
    RunKidsOk(fe, t, 0, s);
    var k := RunKids(fe, t, 0, s);
    if k.s.cur.Go() {
      forall j | 0 <= j < |k.nodes| ensures k.nodes[j] < |k.s.g| {
        assert KidOk(fe, t.instr, 0 + j, k.tys[j]) && Typed(k.s, k.tys[j], k.nodes[j]);
      }
      BuildOpGood(fe, k.s, op, k.nodes);
      GoodTrans(fe, s, k.s, Run(fe, t, s).s);
    }
  }

  lemma {:induction false} RunReturn(fe: FunEnv, t: Syn, s: St)
    requires t.instr.Return? && Inv(fe, s) && s.cur.Go() && Run(fe, t, s).Ok?
    ensures var r := Run(fe, t, s); Good(fe, s, r.s) && Typed(r.s, r.ty, r.node)
    decreases t, 1
  {
    RunKidsOk(fe, t, 0, s);
    var k := RunKids(fe, t, 0, s);
    GrowGood(fe, k.s, Run(fe, t, s).s.g, Kill(ControlEnd));
    GoodTrans(fe, s, k.s, Run(fe, t, s).s);
  }

  lemma {:induction false} RunBr(fe: FunEnv, t: Syn, d: nat, s: St)
    requires t.instr == Br(d) && Inv(fe, s) && s.cur.Go() && Run(fe, t, s).Ok?
    ensures var r := Run(fe, t, s); Good(fe, s, r.s) && Typed(r.s, r.ty, r.node)
    decreases t, 1
  {
    RunKidsOk(fe, t, 0, s);
    var k := RunKids(fe, t, 0, s);
    if k.s.cur.Go() {
      assert Typed(k.s, k.tys[0], k.nodes[0]);
      BreakToGood(fe, k.s, d, k.tys[0], k.nodes[0]);
      GoodTrans(fe, s, k.s, Run(fe, t, s).s);
    }
  }

  lemma {:induction false} RunBlock(fe: FunEnv, t: Syn, s: St)
    requires t.instr.Block? && Inv(fe, s) && s.cur.Go() && Run(fe, t, s).Ok?
    ensures var r := Run(fe, t, s); Good(fe, s, r.s) && Typed(r.s, r.ty, r.node)
    decreases t, 1
  {
    if t.kids == [] {
      StepsRefl(s);
    } else {
      EnterBlockOk(fe, s);
      EnterBlockPrefix(s);
      RunKidsOk(fe, t, 0, EnterBlock(s));
      var k := RunKids(fe, t, 0, EnterBlock(s));
      PrefixTrans(s, EnterBlock(s), k.s);
      assert Typed(k.s, k.tys[|k.tys| - 1], k.nodes[|k.nodes| - 1]);
      LeaveOk(fe, s, k);
    }
  }

  lemma {:induction false} RunLoop(fe: FunEnv, t: Syn, s: St)
    requires t.instr.Loop? && Inv(fe, s) && s.cur.Go() && Run(fe, t, s).Ok?
    ensures var r := Run(fe, t, s); Good(fe, s, r.s) && Typed(r.s, r.ty, r.node)
    decreases t, 1
  {
    hide PrepareForLoop, MergeInto, Inv, KidOk, TargetOk, SourceOf, Ext, Evolves;
    if t.kids == [] {
      StepsRefl(s);
    } else {
      EnterLoopOk(fe, s);
      EnterLoopPrefix(fe, s);
      RunKidsOk(fe, t, 0, EnterLoop(fe, s));
      var k := RunKids(fe, t, 0, EnterLoop(fe, s));
      PrefixTrans(s, EnterLoop(fe, s), k.s);
      PopCont(fe, s, k.s);
      assert Typed(k.s, k.tys[|k.tys| - 1], k.nodes[|k.nodes| - 1]);
      LeaveOk(fe, s, KOk(k.s.(blocks := k.s.blocks[..|k.s.blocks| - 1]), k.tys, k.nodes));
    }
  }

  lemma {:induction false} RunBrIf(fe: FunEnv, t: Syn, d: nat, s: St)
    requires t.instr == BrIf(d) && Inv(fe, s) && s.cur.Go() && Run(fe, t, s).Ok?
    ensures var r := Run(fe, t, s); Good(fe, s, r.s) && Typed(r.s, r.ty, r.node)
    decreases t, 1
  {
    RunKidsOk(fe, t, 0, s);
    var k := RunKids(fe, t, 0, s);
    if k.s.cur.Go() {
      assert KidOk(fe, t.instr, 0 + 0, k.tys[0]) && Typed(k.s, k.tys[0], k.nodes[0]);
      assert Typed(k.s, k.tys[1], k.nodes[1]);
      BranchOk(fe, k.s, k.nodes[0]);
      var (g, tc, fc) := BuildBranch(k.s.g, k.s.cur.control, k.nodes[0]);
      var s1 := St(g, Env(Reached, tc, k.s.cur.slots), k.s.blocks, k.s.log);
      BreakToGood(fe, s1, d, k.tys[1], k.nodes[1]);
      var s2 := BreakTo(fe, s1, d, k.tys[1], k.nodes[1]);
      GoodTrans(fe, s, k.s, s1);
      GoodTrans(fe, s, s1, s2);
      var s3 := s2.(cur := k.s.cur.(control := fc));
      EnvKeep(fe, g, s2.g, s3.cur);
      StepsRefl(s2);
      GoodTrans(fe, s, s2, s3);
    }
  }

  lemma {:induction false} RunSelect(fe: FunEnv, t: Syn, s: St)
    requires t.instr.Select? && Inv(fe, s) && s.cur.Go() && Run(fe, t, s).Ok?
    ensures var r := Run(fe, t, s); Good(fe, s, r.s) && Typed(r.s, r.ty, r.node)
    decreases t, 1
  {
    RunKidsOk(fe, t, 0, s);
    var k := RunKids(fe, t, 0, s);
    if k.s.cur.Go() {
      assert Typed(k.s, k.tys[1], k.nodes[1]);
      var r := Run(fe, t, s);
      assert k.s.g <= r.s.g;
      GrowGood(fe, k.s, r.s.g, r.s.cur);
      GoodTrans(fe, s, k.s, r.s);
    }
  }

  lemma {:induction false} RunIf(fe: FunEnv, t: Syn, s: St)
    requires t.instr.If? && Inv(fe, s) && s.cur.Go() && Run(fe, t, s).Ok?
    ensures var r := Run(fe, t, s); Good(fe, s, r.s) && Typed(r.s, r.ty, r.node)
    decreases t, 1
  {
    RunOk(fe, t.kids[0], s);
    var Ok(s1, ty, c) := Run(fe, t.kids[0], s);
    if !s1.cur.Go() {
      RunDead(fe, t.kids[1], s1.(cur := Kill(Unreached)));
    } else {
      BranchOk(fe, s1, c);
      var (g, tc, fc) := BuildBranch(s1.g, s1.cur.control, c);
      var s1' := St(g, Env(Reached, tc, s1.cur.slots), s1.blocks, s1.log);
      GoodTrans(fe, s, s1, s1');
      RunOk(fe, t.kids[1], s1');
      var s2 := Run(fe, t.kids[1], s1').s;
      GoodTrans(fe, s, s1', s2);
      EnvKeep(fe, g, s2.g, Env(Reached, fc, s1.cur.slots));
      IfJoin(fe, s2, fc, s1.cur.slots);
      GoodTrans(fe, s, s2, Run(fe, t, s).s);
    }
  }

  lemma {:induction false} RunIfElse(fe: FunEnv, t: Syn, s: St)
    requires t.instr.IfElse? && Inv(fe, s) && s.cur.Go() && Run(fe, t, s).Ok?
    ensures var r := Run(fe, t, s); Good(fe, s, r.s) && Typed(r.s, r.ty, r.node)
    decreases t, 1
  {
    hide RunKids, MergeSlots, MergeNode, BlocksOk;
    RunOk(fe, t.kids[0], s);
    var Ok(s1, ty, c) := Run(fe, t.kids[0], s);
    if !s1.cur.Go() {
      RunDead(fe, t.kids[1], St(s1.g, Stolen(s1.cur).(control := 0), s1.blocks, s1.log));
      var log := Run(fe, t.kids[1], St(s1.g, Stolen(s1.cur).(control := 0), s1.blocks, s1.log)).s.log;
      RunDead(fe, t.kids[2], St(s1.g, Split(s1.cur).(control := 0), s1.blocks, log));
    } else {
      ArmsOk(fe, t, s1, c);
      var a := Arms(fe, t, s1, c);
      GoodTrans(fe, s, s1, St(a.g3, a.m3.env, a.s3.blocks, a.s3.log));
      LeaveTyped(a.m3, a.g3);
    }
  }

  /** Steps does not look at the current environment. */
  lemma StepsSame(s: St, s1: St, s2: St)
    requires Steps(s, s1) && s2.g == s1.g && s2.blocks == s1.blocks && s2.log.gone == s1.log.gone
    ensures Steps(s, s2)
  {
  }

  lemma StepsEnv(s: St, s': St, e: Env)
    requires Steps(s, s')
    ensures Steps(s, s'.(cur := e))
  {
  }

  lemma {:induction false} RunKidsOk(fe: FunEnv, t: Syn, i: nat, s: St)
    requires i <= |t.kids| && Inv(fe, s) && s.cur.Go() && RunKids(fe, t, i, s).KOk?
    ensures KidsGood(fe, t, i, s, RunKids(fe, t, i, s))
    decreases t, 0, |t.kids| - i
  {
    hide Run, KidOk, Evolves, BlocksOk, GraphOk, NodeExt;
    RunKidsChecked(fe, t, i, s);
    if i == |t.kids| {
      StepsRefl(s);
    } else {
      RunOk(fe, t.kids[i], s);
      var Ok(s1, ty, node) := Run(fe, t.kids[i], s);
      var k1 := RunKids(fe, t, i + 1, s1);
      if s1.cur.Go() {
        RunKidsOk(fe, t, i + 1, s1);
        GoodTrans(fe, s, s1, k1.s);
      } else {
        RunKidsDead(fe, t, i + 1, s1);
        StepsSame(s, s1, k1.s);
      }
      KidsTyped(s1, ty, node, k1);
    }
  }

  lemma KidsTyped(s1: St, ty: LocalType, node: nat, k1: Kids)
    requires Typed(s1, ty, node) && k1.KOk? && |k1.tys| == |k1.nodes| && |s1.g| <= |k1.s.g|
    requires k1.s.cur.Go() ==> s1.cur.Go()
    requires forall j :: 0 <= j < |k1.tys| ==> k1.s.cur.Go() ==> Typed(k1.s, k1.tys[j], k1.nodes[j])
    ensures forall j :: 0 <= j < |k1.tys| + 1 ==> Typed(k1.s, ([ty] + k1.tys)[j], ([node] + k1.nodes)[j])
  {
  }

  /** Every child passed its check. */
  lemma {:induction false} RunKidsChecked(fe: FunEnv, t: Syn, i: nat, s: St)
    requires i <= |t.kids| && RunKids(fe, t, i, s).KOk?
    ensures var tys := RunKids(fe, t, i, s).tys; forall j :: 0 <= j < |tys| ==> KidOk(fe, t.instr, i + j, tys[j])
    decreases |t.kids| - i
  {
    if i < |t.kids| {
      var s1 := Run(fe, t.kids[i], s).s;
      RunKidsChecked(fe, t, i + 1, s1);
      var tys, tys1 := RunKids(fe, t, i, s).tys, RunKids(fe, t, i + 1, s1).tys;
      forall j | 0 <= j < |tys| ensures KidOk(fe, t.instr, i + j, tys[j]) {
        if j > 0 { assert KidOk(fe, t.instr, i + 1 + (j - 1), tys1[j - 1]); }
      }
    }
  }

  lemma LeaveExt(fe: FunEnv, k: Kids)
    requires k.KOk? && Inv(fe, k.s) && |k.s.blocks| > 0 && 0 < |k.tys| == |k.nodes|
    requires Typed(k.s, k.tys[|k.tys| - 1], k.nodes[|k.nodes| - 1])
    ensures LeaveTarget(fe, k).Ok? && Ext(k.s.g, LeaveTarget(fe, k).s.g)
  {
    ExtRefl(k.s.g);
    if k.s.cur.Go() {
      BlocksMerge(fe, k.s.g, k.s.blocks, |k.s.blocks| - 1, k.s.cur, k.tys[|k.tys| - 1], k.nodes[|k.nodes| - 1]);
    }
  }

  function Popped(k: Kids): Kids
    requires k.KOk? && |k.s.blocks| > 0
  {
    KOk(k.s.(blocks := k.s.blocks[..|k.s.blocks| - 1]), k.tys, k.nodes)
  }

  /** What is fixed about a loop when it is decoded: its inner entry stays as it was made, except for
      the sources it gains. */
  ghost predicate LoopFacts(fe: FunEnv, s: St, s0: St, k: Kids, r: Res) {
    && Inv(fe, s0) && s0.cur.Go() && |s0.blocks| == |s.blocks| + 2 && |s.g| <= |s0.g|
    && k.KOk? && Steps(s0, k.s) && Inv(fe, k.s) && 0 < |k.tys| == |k.nodes|
    && Typed(k.s, k.tys[|k.tys| - 1], k.nodes[|k.nodes| - 1])
    && r.Ok? && LeaveTarget(fe, Popped(k)) == r && Ext(k.s.g, r.s.g)
    && var cont := s0.blocks[|s.blocks| + 1];
    && cont.cont && cont.env.state.Merged? && s0.cur == Env(Reached, |s.g|, cont.env.slots)
    && cont.env.control == |s.g| && k.s.blocks[|s.blocks| + 1] == cont
    && SourceOf(k.s.g, cont, s.cur.control, s.cur.slots + [0])
    && var b := k.s.blocks[|s.blocks|]; !b.cont && (b.env.state.Merged? ==> b.env.control >= |s.g|)
  }

  lemma {:induction false} LoopStatic(fe: FunEnv, t: Syn, s: St)
    requires t.instr.Loop? && t.kids != [] && Inv(fe, s) && s.cur.Go() && Run(fe, t, s).Ok?
    ensures LoopFacts(fe, s, EnterLoop(fe, s), RunKids(fe, t, 0, EnterLoop(fe, s)), Run(fe, t, s))
  {
    EnterLoopOk(fe, s);
    var s0 := EnterLoop(fe, s);
    RunKidsOk(fe, t, 0, s0);
    var k := RunKids(fe, t, 0, s0);
    var n := |k.tys|;
    assert Typed(k.s, k.tys[n - 1], k.nodes[n - 1]);
    assert Evolves(s0.g, s0.blocks[|s.blocks|], k.s.g, k.s.blocks[|s.blocks|]);
    assert Evolves(s0.g, s0.blocks[|s.blocks| + 1], k.s.g, k.s.blocks[|s.blocks| + 1]);
    PoppedOk(fe, k);
    LeaveExt(fe, Popped(k));
  }

  lemma PoppedOk(fe: FunEnv, k: Kids)
    requires k.KOk? && |k.s.blocks| > 0 && Inv(fe, k.s)
    ensures Inv(fe, Popped(k).s)
  {
  }

  /** The states an if-else passes through once its condition is decoded. */
  datatype ArmStates = ArmStates(s1': St, s2: St, ty2: LocalType, n2: nat, g2: seq<Node>, m2: Target, s2': St,
                                 s3: St, ty3: LocalType, n3: nat, g3: seq<Node>, m3: Target)

  predicate ArmsBuild(fe: FunEnv, t: Syn, s1: St, c: nat) {
    && |t.kids| == 3
    && var (g, tc, fc) := BuildBranch(s1.g, s1.cur.control, c);
       var r2 := Run(fe, t.kids[1], St(g, Env(Reached, tc, s1.cur.slots), s1.blocks, s1.log));
    && r2.Ok?
    && var (g2, m2) := MergeInto(fe, r2.s.g, r2.s.cur, NewTarget(s1.cur), r2.ty, r2.node);
       Run(fe, t.kids[2], St(g2, Env(Reached, fc, s1.cur.slots), r2.s.blocks, r2.s.log)).Ok?
  }

  function Arms(fe: FunEnv, t: Syn, s1: St, c: nat): ArmStates
    requires ArmsBuild(fe, t, s1, c)
  {
    var (g, tc, fc) := BuildBranch(s1.g, s1.cur.control, c);
    var s1' := St(g, Env(Reached, tc, s1.cur.slots), s1.blocks, s1.log);
    var Ok(s2, ty2, n2) := Run(fe, t.kids[1], s1');
    var (g2, m2) := MergeInto(fe, s2.g, s2.cur, NewTarget(s1.cur), ty2, n2);
    var s2' := St(g2, Env(Reached, fc, s1.cur.slots), s2.blocks, s2.log);
    var Ok(s3, ty3, n3) := Run(fe, t.kids[2], s2');
    var (g3, m3) := MergeInto(fe, s3.g, s3.cur, m2, ty3, n3);
    ArmStates(s1', s2, ty2, n2, g2, m2, s2', s3, ty3, n3, g3, m3)
  }

  lemma {:induction false} ArmsOk(fe: FunEnv, t: Syn, s1: St, c: nat)
    requires ArmsBuild(fe, t, s1, c) && Inv(fe, s1) && s1.cur.Go() && c < |s1.g|
    ensures var a := Arms(fe, t, s1, c);
      && Good(fe, s1, a.s1') && Good(fe, a.s1', a.s2) && Good(fe, a.s2, a.s2') && Good(fe, a.s2', a.s3)
      && Good(fe, a.s3, St(a.g3, a.m3.env, a.s3.blocks, a.s3.log))
        && Steps(s1, St(a.g3, a.m3.env, a.s3.blocks, a.s3.log))
      && Typed(a.s2, a.ty2, a.n2) && Typed(a.s3, a.ty3, a.n3)
      && TargetOk(fe, a.g3, a.m3) && (a.m3.env.state.Merged? ==> a.m3.env.control >= |s1.g|)
      && Evolves(a.g2, a.m2, a.g3, a.m3)
      && (a.s2.cur.Go() ==> Merges(fe, a.s2.g, a.s2.cur, NewTarget(s1.cur), a.ty2, a.n2, a.g2, a.m2))
      && (a.s3.cur.Go() ==> Merges(fe, a.s3.g, a.s3.cur, a.m2, a.ty3, a.n3, a.g3, a.m3))
    decreases t, 0
  {
    var a := Arms(fe, t, s1, c);
    BranchOk(fe, s1, c);
    RunOk(fe, t.kids[1], a.s1');
    PendOk(fe, a.s2, NewTarget(s1.cur), a.ty2, a.n2);
    EnvKeep(fe, a.s1'.g, a.g2, a.s2'.cur);
    StepsEnv(a.s2, a.s2.(g := a.g2), a.s2'.cur);
    RunOk(fe, t.kids[2], a.s2');
    assert TargetOk(fe, a.s3.g, a.m2) by { assert |a.g2| <= |a.s3.g|; }
    EvolvesExt(a.g2, a.s3.g, a.m2);
    PendOk(fe, a.s3, a.m2, a.ty3, a.n3);
    EvolvesTrans(a.g2, a.m2, a.s3.g, a.m2, a.g3, a.m3);
    StepsEnv(a.s3, a.s3.(g := a.g3), a.m3.env);
    StepsTrans(s1, a.s1', a.s2);
    StepsTrans(s1, a.s2, a.s2');
    StepsTrans(s1, a.s2', a.s3);
    StepsTrans(s1, a.s3, St(a.g3, a.m3.env, a.s3.blocks, a.s3.log));
  }
}
