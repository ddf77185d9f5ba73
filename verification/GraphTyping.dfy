/** The graph that is built is well typed: every use of a node has the type the node is used at. */
module GraphTyping {
  import opened Syntax
  import opened Graph
  import opened Ssa
  import opened SsaInvariant
  import opened SsaRun
  import opened LrSsa
  import opened CutOff
  import opened FunctionMeaning
  import opened Opcodes
  import opened Leb128
  import T = Typing
  import D = DecodeFunction

  /** The type of what a node stands for; effects have the type `End` of the slot they are kept in. Parameters
      are the first locals. */
  function NodeType(fe: FunEnv, n: Node): LocalType {
    match n
    case Start => End
    case Param(i) => SlotType(fe, i)
    case Literal(ty, _) => ty
    case App(op, _) => op.result
    case World(_, _) => End
    case Phi(ty, _, _) => ty
    case _ => Stmt
  }

  predicate Has(fe: FunEnv, g: seq<Node>, n: nat, ty: LocalType) {
    n < |g| && NodeType(fe, g[n]) == ty
  }

  predicate AllHave(fe: FunEnv, g: seq<Node>, ns: seq<nat>, ty: LocalType) {
    forall i :: 0 <= i < |ns| ==> Has(fe, g, ns[i], ty)
  }

  /** Operands of the operator's types, followed by the effect if it has one. */
  predicate ArgsHave(fe: FunEnv, g: seq<Node>, op: Op, args: seq<nat>) {
    && |args| == |op.params| + (if op.effect then 1 else 0)
    && (forall i :: 0 <= i < |op.params| ==> Has(fe, g, args[i], op.params[i]))
    && (op.effect ==> Has(fe, g, args[|op.params|], End))
  }

  predicate NodeTyped(fe: FunEnv, g: seq<Node>, n: Node) {
    match n
    case App(op, args) => ArgsHave(fe, g, op, args)
    case World(op, args) => op.effect && ArgsHave(fe, g, op, args)
    case Check(op, args, effect, _) => ArgsHave(fe, g, op, args) && Has(fe, g, effect, End)
    case Branch(cond, _) => Has(fe, g, cond, I32)
    case Phi(ty, inputs, _) => AllHave(fe, g, inputs, ty)
    case Ret(value, effect, _) => Has(fe, g, effect, End) && (fe.ret.Stmt? || Has(fe, g, value, fe.ret))
    case Dead(effect, _) => Has(fe, g, effect, End)
    case _ => true
  }

  predicate GraphTyped(fe: FunEnv, g: seq<Node>) {
    forall i :: 0 <= i < |g| ==> NodeTyped(fe, g, g[i])
  }

  predicate SlotsTyped(fe: FunEnv, g: seq<Node>, slots: seq<nat>) {
    |slots| == |fe.locals| + 1 && forall i :: 0 <= i < |slots| ==> Has(fe, g, slots[i], SlotType(fe, i))
  }

  predicate EnvTyped(fe: FunEnv, g: seq<Node>, e: Env) {
    e.Go() ==> SlotsTyped(fe, g, e.slots)
  }

  predicate ValueTyped(fe: FunEnv, g: seq<Node>, ty: LocalType, node: nat) {
    IsValue(ty) ==> Has(fe, g, node, ty)
  }

  predicate TargetTyped(fe: FunEnv, g: seq<Node>, t: Target) {
    t.env.Go() ==> SlotsTyped(fe, g, t.env.slots) && ValueTyped(fe, g, t.ty, t.node)
  }

  predicate BlocksTyped(fe: FunEnv, g: seq<Node>, blocks: seq<Target>) {
    forall i :: 0 <= i < |blocks| ==> TargetTyped(fe, g, blocks[i])
  }

  predicate StTyped(fe: FunEnv, v: St) {
    GraphTyped(fe, v.g) && EnvTyped(fe, v.g, v.cur) && BlocksTyped(fe, v.g, v.blocks)
  }

  // ----- Growing -----

  lemma HasKept(fe: FunEnv, g: seq<Node>, g': seq<Node>, n: nat, ty: LocalType)
    requires Ext(g, g') && Has(fe, g, n, ty)
    ensures Has(fe, g', n, ty)
  {
    assert NodeExt(g[n], g'[n]);
  }

  lemma SlotsKept(fe: FunEnv, g: seq<Node>, g': seq<Node>, slots: seq<nat>)
    requires Ext(g, g') && SlotsTyped(fe, g, slots)
    ensures SlotsTyped(fe, g', slots)
  {
    hide Ext, Has;
    forall i | 0 <= i < |slots| ensures Has(fe, g', slots[i], SlotType(fe, i)) {
      HasKept(fe, g, g', slots[i], SlotType(fe, i));
    }
  }

  lemma TargetKept(fe: FunEnv, g: seq<Node>, g': seq<Node>, t: Target)
    requires Ext(g, g') && TargetTyped(fe, g, t)
    ensures TargetTyped(fe, g', t)
  {
    hide Ext, Has;
    if t.env.Go() {
      SlotsKept(fe, g, g', t.env.slots);
      if IsValue(t.ty) { HasKept(fe, g, g', t.node, t.ty); }
    }
  }

  lemma BlocksKept(fe: FunEnv, g: seq<Node>, g': seq<Node>, blocks: seq<Target>)
    requires Ext(g, g') && BlocksTyped(fe, g, blocks)
    ensures BlocksTyped(fe, g', blocks)
  {
    hide Ext, TargetTyped;
    forall i | 0 <= i < |blocks| ensures TargetTyped(fe, g', blocks[i]) { TargetKept(fe, g, g', blocks[i]); }
  }

  lemma AllKept(fe: FunEnv, g: seq<Node>, g': seq<Node>, ns: seq<nat>, ty: LocalType)
    requires Ext(g, g') && AllHave(fe, g, ns, ty)
    ensures AllHave(fe, g', ns, ty)
  {
    hide Ext, Has;
    forall i | 0 <= i < |ns| ensures Has(fe, g', ns[i], ty) { HasKept(fe, g, g', ns[i], ty); }
  }

  lemma ArgsKept(fe: FunEnv, g: seq<Node>, g': seq<Node>, op: Op, args: seq<nat>)
    requires Ext(g, g') && ArgsHave(fe, g, op, args)
    ensures ArgsHave(fe, g', op, args)
  {
    hide Ext, Has;
    forall i | 0 <= i < |op.params|
      ensures Has(fe, g', args[i], op.params[i])
    {
      HasKept(fe, g, g', args[i], op.params[i]);
    }
    if op.effect { HasKept(fe, g, g', args[|op.params|], End); }
  }

  /** A node that is typed stays so. */
  lemma NodeKept(fe: FunEnv, g: seq<Node>, g': seq<Node>, n: Node)
    requires Ext(g, g') && NodeTyped(fe, g, n)
    ensures NodeTyped(fe, g', n)
  {
    hide Ext, Has, ArgsHave, AllHave;
    match n
    case App(op, args) => ArgsKept(fe, g, g', op, args);
    case World(op, args) => ArgsKept(fe, g, g', op, args);
    case Check(op, args, effect, _) =>
      ArgsKept(fe, g, g', op, args);
      HasKept(fe, g, g', effect, End);
    case Branch(cond, _) => HasKept(fe, g, g', cond, I32);
    case Phi(ty, inputs, _) => AllKept(fe, g, g', inputs, ty);
    case Ret(value, effect, _) =>
      HasKept(fe, g, g', effect, End);
      if !fe.ret.Stmt? { HasKept(fe, g, g', value, fe.ret); }
    case Dead(effect, _) => HasKept(fe, g, g', effect, End);
    case _ =>
  }

  /** Appending typed nodes. */
  lemma GraphGrows(fe: FunEnv, g: seq<Node>, g': seq<Node>)
    requires GraphTyped(fe, g) && g <= g' && forall i :: |g| <= i < |g'| ==> NodeTyped(fe, g', g'[i])
    ensures GraphTyped(fe, g') && Ext(g, g')
  {
    hide NodeTyped, Ext;
    PrefixExt(g, g');
    forall i | 0 <= i < |g'| ensures NodeTyped(fe, g', g'[i]) {
      if i < |g| { NodeKept(fe, g, g', g[i]); }
    }
  }

  lemma AddNode(fe: FunEnv, g: seq<Node>, n: Node)
    requires GraphTyped(fe, g) && NodeTyped(fe, g, n)
    ensures GraphTyped(fe, g + [n]) && Ext(g, g + [n])
  {
    hide NodeTyped, Ext;
    PrefixExt(g, g + [n]);
    NodeKept(fe, g, g + [n], n);
    GraphGrows(fe, g, g + [n]);
  }

  lemma ChangeExt(g: seq<Node>, t: nat, n: Node)
    requires t < |g| && NodeExt(g[t], n)
    ensures Ext(g, g[t := n])
  {
    forall i | 0 <= i < |g| ensures NodeExt(g[i], g[t := n][i]) {}
  }

  /** Extending a typed node. */
  lemma ChangeNode(fe: FunEnv, g: seq<Node>, t: nat, n: Node)
    requires GraphTyped(fe, g) && t < |g| && NodeExt(g[t], n) && NodeTyped(fe, g, n)
    ensures GraphTyped(fe, g[t := n]) && Ext(g, g[t := n])
  {
    hide NodeTyped, Ext;
    ChangeExt(g, t, n);
    var g' := g[t := n];
    forall i | 0 <= i < |g'| ensures NodeTyped(fe, g', g'[i]) { NodeKept(fe, g, g', if i == t then n else g[i]); }
  }

  // ----- Merging -----

  lemma MergeNodeTyped(fe: FunEnv, g: seq<Node>, ty: LocalType, m: nat, t: nat, f: nat)
    requires GraphTyped(fe, g) && Has(fe, g, t, ty) && Has(fe, g, f, ty)
    ensures var (g', n) := MergeNode(g, ty, m, t, f); GraphTyped(fe, g') && Ext(g, g') && Has(fe, g', n, ty)
  {
    hide GraphTyped, Ext;
    var (g', n) := MergeNode(g, ty, m, t, f);
    if IsPhiOn(g, t, m) {
      assert NodeTyped(fe, g, g[t]) by { TypedAt(fe, g, t); }
      ChangeNode(fe, g, t, AppendInput(g[t], f));
    } else if t != f {
      AddNode(fe, g, Phi(ty, Fill(EarlierEdges(g, m), t) + [f], m));
    } else {
      ExtRefl(g);
    }
  }

  lemma TypedAt(fe: FunEnv, g: seq<Node>, n: nat)
    requires GraphTyped(fe, g) && n < |g|
    ensures NodeTyped(fe, g, g[n])
  {
  }

  lemma {:induction false} MergeSlotsTyped(fe: FunEnv, g: seq<Node>, m: nat, to: seq<nat>, from: seq<nat>, i: nat)
    requires i <= |to| && i <= |from| && GraphTyped(fe, g) && SlotsTyped(fe, g, to) && SlotsTyped(fe, g, from)
    ensures var (g', r) := MergeSlots(fe, g, m, to, from, i); GraphTyped(fe, g') && Ext(g, g') && SlotsTyped(fe, g', r)
    decreases i
  {
    hide GraphTyped, Ext, Has, MergeNode, SlotType;
    if i == 0 {
      ExtRefl(g);
    } else {
      var ty := SlotType(fe, i - 1);
      MergeNodeTyped(fe, g, ty, m, to[i - 1], from[i - 1]);
      var (g1, n) := MergeNode(g, ty, m, to[i - 1], from[i - 1]);
      SlotsKept(fe, g, g1, to);
      SlotsKept(fe, g, g1, from);
      MergeSlotsTyped(fe, g1, m, to[i - 1 := n], from, i - 1);
      ExtTrans(g, g1, MergeSlots(fe, g, m, to, from, i).0);
    }
  }

  lemma MergeEnvTyped(fe: FunEnv, g: seq<Node>, m: nat, from: Env, to: Env)
    requires GraphTyped(fe, g) && SlotsTyped(fe, g, from.slots) && SlotsTyped(fe, g, to.slots)
    ensures var (g', e) := MergeEnv(fe, g, m, from, to); GraphTyped(fe, g') && Ext(g, g') && SlotsTyped(fe, g', e.slots)
  {
    hide GraphTyped, Ext, Has, MergeSlots;
    MergeSlotsTyped(fe, g, m, to.slots, from.slots, |to.slots|);
  }

  lemma EdgeTyped(fe: FunEnv, g: seq<Node>, m: nat, from: nat)
    requires GraphTyped(fe, g) && m < |g| && IsMerge(g[m])
    ensures GraphTyped(fe, AppendToMerge(g, m, from)) && Ext(g, AppendToMerge(g, m, from))
  {
    hide GraphTyped, Ext;
    ChangeNode(fe, g, m, AppendInput(g[m], from));
  }

  /** A live environment flows into another. */
  lemma GotoTyped(fe: FunEnv, g: seq<Node>, from: Env, to: Env)
    requires GraphTyped(fe, g) && SlotsTyped(fe, g, from.slots) && EnvTyped(fe, g, to) && !to.state.ControlEnd?
    requires to.state.Merged? ==> to.control < |g| && IsMerge(g[to.control])
    ensures var (g', e) := Goto(fe, g, from, to); GraphTyped(fe, g') && Ext(g, g') && SlotsTyped(fe, g', e.slots)
  {
    hide GraphTyped, Ext, SlotsTyped, MergeEnv, AppendToMerge;
    ExtRefl(g);
    if to.state.Reached? || to.state.Merged? {
      var g1, m := if to.state.Reached? then g + [Merge([to.control, from.control])]
          else AppendToMerge(g, to.control, from.control),
                   if to.state.Reached? then |g| else to.control;
      if to.state.Reached? {
        AddNode(fe, g, Merge([to.control, from.control]));
      } else {
        EdgeTyped(fe, g, m, from.control);
      }
      SlotsKept(fe, g, g1, from.slots);
      SlotsKept(fe, g, g1, to.slots);
      MergeEnvTyped(fe, g1, m, from, to);
      ExtTrans(g, g1, MergeEnv(fe, g1, m, from, to).0);
    }
  }

  /** Control and a value flow into a block entry. */
  lemma MergeIntoTyped(fe: FunEnv, g: seq<Node>, cur: Env, t: Target, ty: LocalType, node: nat)
    requires GraphTyped(fe, g) && TargetTyped(fe, g, t) && TargetOk(fe, g, t) && EnvTyped(fe, g, cur)
    requires cur.Go() ==> ValueTyped(fe, g, ty, node) && !ty.End?
    ensures var (g', t') := MergeInto(fe, g, cur, t, ty, node);
      GraphTyped(fe, g') && Ext(g, g') && TargetTyped(fe, g', t')
  {
    hide GraphTyped, Ext, SlotsTyped, Goto, MergeNode, Has;
    ExtRefl(g);
    if cur.Go() {
      assert t.env.state.Merged? ==> t.env.control < |g| && IsMerge(g[t.env.control]);
      GotoTyped(fe, g, cur, t.env);
      var (g1, env) := Goto(fe, g, cur, t.env);
      if IsValue(ty) { HasKept(fe, g, g1, node, ty); }
      if t.env.Go() && IsValue(t.ty) { HasKept(fe, g, g1, t.node, t.ty); }
      if !t.cont && t.env.Go() && ty == t.ty && IsValue(ty) {
        MergeNodeTyped(fe, g1, ty, env.control, t.node, node);
        var g2 := MergeNode(g1, ty, env.control, t.node, node).0;
        SlotsKept(fe, g1, g2, env.slots);
        ExtTrans(g, g1, g2);
      }
    }
  }

  // ----- Trees -----

  ghost predicate ResTyped(fe: FunEnv, r: Res) {
    r.Ok? ==> StTyped(fe, r.s) && (r.s.cur.Go() ==> ValueTyped(fe, r.s.g, r.ty, r.node))
  }

  ghost predicate KidsAllTyped(fe: FunEnv, k: Kids) {
    k.KOk? ==>
      && StTyped(fe, k.s)
      && (k.s.cur.Go() ==> |k.tys| == |k.nodes| && forall j :: 0 <= j < |k.tys| ==>
        ValueTyped(fe, k.s.g, k.tys[j], k.nodes[j]))
  }

  /** New nodes and another environment. */
  lemma Grows(fe: FunEnv, v: St, g: seq<Node>, e: Env)
    requires StTyped(fe, v) && Ext(v.g, g) && GraphTyped(fe, g) && EnvTyped(fe, g, e)
    ensures StTyped(fe, St(g, e, v.blocks, v.log))
  {
    BlocksKept(fe, v.g, g, v.blocks);
  }

  lemma EffectTyped(fe: FunEnv, v: St)
    requires StTyped(fe, v) && v.cur.Go()
    ensures |v.cur.slots| == |fe.locals| + 1 && Has(fe, v.g, v.cur.slots[|v.cur.slots| - 1], End)
  {
    hide GraphTyped, BlocksTyped, Has;
    assert Has(fe, v.g, v.cur.slots[|fe.locals|], SlotType(fe, |fe.locals|));
  }

  lemma {:induction false} RunTyped(fe: FunEnv, t: Syn, v: St)
    requires Inv(fe, v) && v.cur.Go() && StTyped(fe, v)
    ensures ResTyped(fe, Run(fe, t, v))
    decreases t, 2
  {
    hide Inv, GraphTyped, BlocksTyped, EnvTyped, Run;
    if Run(fe, t, v).Ok? {
      match t.instr
      case Nop => LeafTyped(fe, t, v);
      case Unreachable => LeafTyped(fe, t, v);
      case Const(_, _) => LeafTyped(fe, t, v);
      case GetLocal(_) => LeafTyped(fe, t, v);
      case SetLocal(_) => SetTyped(fe, t, v);
      case Apply(_) => ApplyTyped(fe, t, v);
      case Return => ReturnTyped(fe, t, v);
      case Br(_) => BrTyped(fe, t, v);
      case BrIf(_) => BrIfTyped(fe, t, v);
      case Select => SelectTyped(fe, t, v);
      case If => IfTyped(fe, t, v);
      case IfElse => IfElseTyped(fe, t, v);
      case Block(_) => BlockTyped(fe, t, v);
      case Loop(_) => LoopTyped(fe, t, v);
      case Cut(_, _) => CutTyped(fe, t, v);
    }
  }

  /** Like RunTyped, in dead code too. */
  lemma {:induction false} ArmTyped(fe: FunEnv, t: Syn, v: St)
    requires LiveInv(fe, v) && StTyped(fe, v)
    ensures ResTyped(fe, Run(fe, t, v))
    decreases t, 3
  {
    hide Inv, GraphTyped, BlocksTyped, Run;
    if v.cur.Go() { RunTyped(fe, t, v); } else if Run(fe, t, v).Ok? { RunDead(fe, t, v); }
  }

  lemma {:induction false} KidsAreTyped(fe: FunEnv, t: Syn, i: nat, v: St)
    requires i <= |t.kids| && LiveInv(fe, v) && StTyped(fe, v)
    ensures KidsAllTyped(fe, RunKids(fe, t, i, v))
    decreases t, 0, |t.kids| - i
  {
    hide Inv, GraphTyped, BlocksTyped, Run, EnvTyped, KidOk, ValueTyped;
    if RunKids(fe, t, i, v).KOk? && i < |t.kids| {
      ArmTyped(fe, t.kids[i], v);
      RunLive(fe, t.kids[i], v);
      var Ok(v1, ty, node) := Run(fe, t.kids[i], v);
      KidsAreTyped(fe, t, i + 1, v1);
      var k := RunKids(fe, t, i + 1, v1);
      if k.s.cur.Go() {
        KidsExt(fe, t, i + 1, v1);
        FirstTyped(fe, v1.g, k.s.g, ty, node);
      }
    }
  }

  /** Where control comes out of the children it went in, and the graph grew. */
  lemma KidsExt(fe: FunEnv, t: Syn, i: nat, v: St)
    requires i <= |t.kids| && LiveInv(fe, v) && RunKids(fe, t, i, v).KOk? && RunKids(fe, t, i, v).s.cur.Go()
    ensures v.cur.Go() && Ext(v.g, RunKids(fe, t, i, v).s.g)
  {
    if v.cur.Go() { RunKidsOk(fe, t, i, v); } else { RunKidsDead(fe, t, i, v); }
  }

  lemma FirstTyped(fe: FunEnv, g: seq<Node>, g': seq<Node>, ty: LocalType, node: nat)
    requires Ext(g, g') && ValueTyped(fe, g, ty, node)
    ensures ValueTyped(fe, g', ty, node)
  {
    if IsValue(ty) { HasKept(fe, g, g', node, ty); }
  }

  lemma LeafTyped(fe: FunEnv, t: Syn, v: St)
    requires (t.instr.Nop? || t.instr.Unreachable? || t.instr.Const? || t.instr.GetLocal?) && Inv(fe, v) && v.cur.Go()
    requires StTyped(fe, v)
    ensures ResTyped(fe, Run(fe, t, v))
  {
    hide Inv, GraphTyped, BlocksTyped, Ext;
    EffectTyped(fe, v);
    match t.instr
    case Unreachable =>
      var n := Dead(v.cur.slots[|v.cur.slots| - 1], v.cur.control);
      AddNode(fe, v.g, n);
      Grows(fe, v, v.g + [n], Kill(ControlEnd));
    case Const(ty, bits) =>
      AddNode(fe, v.g, Literal(ty, bits));
      SlotsKept(fe, v.g, v.g + [Literal(ty, bits)], v.cur.slots);
      Grows(fe, v, v.g + [Literal(ty, bits)], v.cur);
    case GetLocal(i) => if i < |fe.locals| { assert Has(fe, v.g, v.cur.slots[i], SlotType(fe, i)); }
    case _ =>
  }

  lemma {:induction false} SetTyped(fe: FunEnv, t: Syn, v: St)
    requires t.instr.SetLocal? && Inv(fe, v) && v.cur.Go() && StTyped(fe, v)
    ensures ResTyped(fe, Run(fe, t, v))
    decreases t, 1
  {
    hide Inv, GraphTyped, BlocksTyped, Has;
    KidsAreTyped(fe, t, 0, v);
    var k := RunKids(fe, t, 0, v);
    if k.KOk? && |t.kids| == 1 { RunKidsChecked(fe, t, 0, v); }
  }

  lemma {:induction false} CutTyped(fe: FunEnv, t: Syn, v: St)
    requires t.instr.Cut? && Inv(fe, v) && v.cur.Go() && StTyped(fe, v)
    ensures ResTyped(fe, Run(fe, t, v))
    decreases t, 1
  {
    hide Inv, GraphTyped, BlocksTyped, RunKids, ValueTyped;
    KidsAreTyped(fe, t, 0, v);
  }

  /** The operands of an operator in a live state. */
  lemma OperandsTyped(fe: FunEnv, t: Syn, v: St)
    requires LiveInv(fe, v) && RunKids(fe, t, 0, v).KOk? && RunKids(fe, t, 0, v).s.cur.Go()
    requires KidsAllTyped(fe, RunKids(fe, t, 0, v))
    requires t.instr.Apply? && |t.kids| == |t.instr.op.params|
    ensures var k, op := RunKids(fe, t, 0, v), t.instr.op;
      |k.nodes| == |op.params| && forall j :: 0 <= j < |op.params| ==> Has(fe, k.s.g, k.nodes[j], op.params[j])
  {
    hide Inv, StTyped, Has, RunKids;
    T.KidsLiveTyped(fe, t, v);
    RunKidsChecked(fe, t, 0, v);
    var k, op := RunKids(fe, t, 0, v), t.instr.op;
    forall j | 0 <= j < |op.params| ensures Has(fe, k.s.g, k.nodes[j], op.params[j]) {
      assert KidOk(fe, t.instr, 0 + j, k.tys[j]) && Typed(k.s, k.tys[j], k.nodes[j])
          && ValueTyped(fe, k.s.g, k.tys[j], k.nodes[j]);
    }
  }

  /** An operator is built from typed operands. */
  lemma OpTyped(fe: FunEnv, v: St, op: Op, args: seq<nat>)
    requires StTyped(fe, v) && v.cur.Go() && |v.cur.slots| > 0 && |args| == |op.params|
    requires forall j :: 0 <= j < |op.params| ==> Has(fe, v.g, args[j], op.params[j])
    ensures var (g, e, n) := BuildOp(v.g, v.cur, op, args);
      GraphTyped(fe, g) && Ext(v.g, g) && EnvTyped(fe, g, e) && Has(fe, g, n, op.result)
  {
    hide GraphTyped, BlocksTyped, Ext;
    EffectTyped(fe, v);
    var w := v.cur.slots[|v.cur.slots| - 1];
    var xs := if op.effect then args + [w] else args;
    assert ArgsHave(fe, v.g, op, xs);
    var g1 := if op.traps then v.g + [Check(op, xs, w, v.cur.control)] else v.g;
    assert GraphTyped(fe, g1) && Ext(v.g, g1) by {
      if op.traps { AddNode(fe, v.g, Check(op, xs, w, v.cur.control)); } else { ExtRefl(v.g); }
    }
    ValueNodeTyped(fe, v.g, g1, op, args, xs);
    var g2 := if op.store && |args| > 0 then g1 else g1 + [App(op, xs)];
    ExtTrans(v.g, g1, g2);
    SlotsKept(fe, v.g, g2, v.cur.slots);
    if op.effect {
      ArgsKept(fe, v.g, g2, op, xs);
      AddNode(fe, g2, World(op, xs));
      var g3 := g2 + [World(op, xs)];
      ExtTrans(v.g, g2, g3);
      SlotsKept(fe, g2, g3, v.cur.slots);
      HasKept(fe, g2, g3, if op.store && |args| > 0 then args[|args| - 1] else |g1|, op.result);
    }
  }

  /** The node that stands for an operator's value. */
  lemma ValueNodeTyped(fe: FunEnv, g: seq<Node>, g1: seq<Node>, op: Op, args: seq<nat>, xs: seq<nat>)
    requires GraphTyped(fe, g1) && Ext(g, g1) && ArgsHave(fe, g, op, xs) && |args| == |op.params| && args <= xs
    ensures var (g2, n) := if op.store && |args| > 0 then (g1, args[|args| - 1]) else (g1 + [App(op, xs)], |g1|);
      GraphTyped(fe, g2) && Ext(g1, g2) && Has(fe, g2, n, op.result)
  {
    hide GraphTyped, Ext;
    ArgsKept(fe, g, g1, op, xs);
    if op.store && |args| > 0 {
      ExtRefl(g1);
      assert xs[|args| - 1] == args[|args| - 1];
    } else {
      AddNode(fe, g1, App(op, xs));
    }
  }

  lemma {:induction false} ApplyTyped(fe: FunEnv, t: Syn, v: St)
    requires t.instr.Apply? && Inv(fe, v) && v.cur.Go() && StTyped(fe, v)
    ensures ResTyped(fe, Run(fe, t, v))
    decreases t, 1
  {
    hide Inv, StTyped, Has, BuildOp, RunKids, KidOk;
    KidsAreTyped(fe, t, 0, v);
    var k := RunKids(fe, t, 0, v);
    if |t.kids| == |t.instr.op.params| && k.KOk? && k.s.cur.Go() {
      EffectTyped(fe, k.s);
      OperandsTyped(fe, t, v);
      OpTyped(fe, k.s, t.instr.op, k.nodes);
      var (g, e, n) := BuildOp(k.s.g, k.s.cur, t.instr.op, k.nodes);
      Grows(fe, k.s, g, e);
    }
  }

  lemma {:induction false} ReturnTyped(fe: FunEnv, t: Syn, v: St)
    requires t.instr.Return? && Inv(fe, v) && v.cur.Go() && StTyped(fe, v)
    ensures ResTyped(fe, Run(fe, t, v))
    decreases t, 1
  {
    hide Inv, Has, RunKids, GraphTyped, BlocksTyped, Ext;
    KidsAreTyped(fe, t, 0, v);
    var k := RunKids(fe, t, 0, v);
    if |t.kids| == Arity(fe, t.instr) && k.KOk? && k.s.cur.Go() {
      EffectTyped(fe, k.s);
      T.KidsLiveTyped(fe, t, v);
      RunKidsChecked(fe, t, 0, v);
      var n := Ret(if k.nodes == [] then 0 else k.nodes[0], k.s.cur.slots[|k.s.cur.slots| - 1], k.s.cur.control);
      if !fe.ret.Stmt? {
        assert KidOk(fe, t.instr, 0 + 0, k.tys[0]) && Typed(k.s, k.tys[0], k.nodes[0])
            && ValueTyped(fe, k.s.g, k.tys[0], k.nodes[0]);
      }
      AddNode(fe, k.s.g, n);
      Grows(fe, k.s, k.s.g + [n], Kill(ControlEnd));
    }
  }

  /** The current environment goes to a block entry. */
  lemma BreakTyped(fe: FunEnv, v: St, d: nat, ty: LocalType, node: nat)
    requires Inv(fe, v) && v.cur.Go() && StTyped(fe, v) && d < |v.blocks| && ValueTyped(fe, v.g, ty, node) && !ty.End?
    ensures StTyped(fe, BreakTo(fe, v, d, ty, node)) && Ext(v.g, BreakTo(fe, v, d, ty, node).g)
  {
    hide GraphTyped, TargetTyped, TargetOk, MergeInto, Ext;
    var i := At(v.blocks, d);
    assert TargetOk(fe, v.g, v.blocks[i]) && TargetTyped(fe, v.g, v.blocks[i]);
    MergeIntoTyped(fe, v.g, v.cur, v.blocks[i], ty, node);
    var g' := MergeInto(fe, v.g, v.cur, v.blocks[i], ty, node).0;
    BlocksKept(fe, v.g, g', v.blocks);
  }

  lemma {:induction false} BrTyped(fe: FunEnv, t: Syn, v: St)
    requires t.instr.Br? && Inv(fe, v) && v.cur.Go() && StTyped(fe, v) && Run(fe, t, v).Ok?
    ensures ResTyped(fe, Run(fe, t, v))
    decreases t, 1
  {
    hide Inv, StTyped, BreakTo, RunKids, ValueTyped;
    KidsAreTyped(fe, t, 0, v);
    var k := RunKids(fe, t, 0, v);
    T.KidsLiveTyped(fe, t, v);
    KidsBlocks(fe, t, 0, v);
    if k.s.cur.Go() {
      assert Typed(k.s, k.tys[0], k.nodes[0]) && ValueTyped(fe, k.s.g, k.tys[0], k.nodes[0]);
      BreakTyped(fe, k.s, t.instr.depth, k.tys[0], k.nodes[0]);
    }
    EndHasNoValue(fe, Run(fe, t, v).s.g);
  }

  lemma EndHasNoValue(fe: FunEnv, g: seq<Node>)
    ensures ValueTyped(fe, g, End, 0) && ValueTyped(fe, g, Stmt, 0)
  {
  }

  /** A branch on a typed condition. */
  lemma BranchTyped(fe: FunEnv, v: St, c: nat)
    requires StTyped(fe, v) && v.cur.Go() && Has(fe, v.g, c, I32)
    ensures var (g, tc, fc) := BuildBranch(v.g, v.cur.control, c);
      && GraphTyped(fe, g) && Ext(v.g, g) && SlotsTyped(fe, g, v.cur.slots)
      && StTyped(fe, St(g, Env(Reached, tc, v.cur.slots), v.blocks, v.log))
  {
    hide GraphTyped, BlocksTyped, Ext;
    var g := BuildBranch(v.g, v.cur.control, c).0;
    var b := v.g + [Branch(c, v.cur.control)];
    AddNode(fe, v.g, Branch(c, v.cur.control));
    AddNode(fe, b, IfTrue(|v.g|));
    AddNode(fe, b + [IfTrue(|v.g|)], IfFalse(|v.g|));
    assert g == b + [IfTrue(|v.g|)] + [IfFalse(|v.g|)];
    PrefixExt(v.g, g);
    SlotsKept(fe, v.g, g, v.cur.slots);
    Grows(fe, v, g, Env(Reached, |v.g| + 1, v.cur.slots));
  }

  lemma {:induction false} BrIfTyped(fe: FunEnv, t: Syn, v: St)
    requires t.instr.BrIf? && Inv(fe, v) && v.cur.Go() && StTyped(fe, v) && Run(fe, t, v).Ok?
    ensures ResTyped(fe, Run(fe, t, v))
    decreases t, 1
  {
    hide Inv, GraphTyped, BlocksTyped, SlotsTyped, BreakTo, RunKids, ValueTyped, BuildBranch;
    KidsAreTyped(fe, t, 0, v);
    var k := RunKids(fe, t, 0, v);
    T.KidsLiveTyped(fe, t, v);
    KidsBlocks(fe, t, 0, v);
    if k.s.cur.Go() {
      RunKidsChecked(fe, t, 0, v);
      assert KidOk(fe, t.instr, 0 + 0, k.tys[0]) && Typed(k.s, k.tys[0], k.nodes[0])
          && ValueTyped(fe, k.s.g, k.tys[0], k.nodes[0]);
      assert Typed(k.s, k.tys[1], k.nodes[1]) && ValueTyped(fe, k.s.g, k.tys[1], k.nodes[1]);
      IsI32(fe, k.s.g, k.tys[0], k.nodes[0]);
      BranchTyped(fe, k.s, k.nodes[0]);
      BranchOk(fe, k.s, k.nodes[0]);
      var (g, tc, fc) := BuildBranch(k.s.g, k.s.cur.control, k.nodes[0]);
      var s1 := St(g, Env(Reached, tc, k.s.cur.slots), k.s.blocks, k.s.log);
      FirstTyped(fe, k.s.g, g, k.tys[1], k.nodes[1]);
      BreakTyped(fe, s1, t.instr.depth, k.tys[1], k.nodes[1]);
      var s2 := BreakTo(fe, s1, t.instr.depth, k.tys[1], k.nodes[1]);
      SlotsKept(fe, g, s2.g, k.s.cur.slots);
    }
    EndHasNoValue(fe, Run(fe, t, v).s.g);
  }

  lemma IsI32(fe: FunEnv, g: seq<Node>, ty: LocalType, node: nat)
    requires ValueTyped(fe, g, ty, node) && Accepts(I32, ty) && !ty.End?
    ensures Has(fe, g, node, I32)
  {
  }

  lemma {:induction false} SelectTyped(fe: FunEnv, t: Syn, v: St)
    requires t.instr.Select? && Inv(fe, v) && v.cur.Go() && StTyped(fe, v) && Run(fe, t, v).Ok?
    ensures ResTyped(fe, Run(fe, t, v))
    decreases t, 1
  {
    hide Inv, GraphTyped, BlocksTyped, SlotsTyped, RunKids, BuildBranch, Has;
    KidsAreTyped(fe, t, 0, v);
    var k := RunKids(fe, t, 0, v);
    T.KidsLiveTyped(fe, t, v);
    if k.s.cur.Go() {
      RunKidsChecked(fe, t, 0, v);
      forall j | 0 <= j < 3 ensures KidOk(fe, t.instr, j, k.tys[j]) && !k.tys[j].End?
        && ValueTyped(fe, k.s.g, k.tys[j], k.nodes[j]) {
        assert KidOk(fe, t.instr, 0 + j, k.tys[j]) && Typed(k.s, k.tys[j], k.nodes[j]);
      }
      BranchTyped(fe, k.s, k.nodes[0]);
      var (g, tc, fc) := BuildBranch(k.s.g, k.s.cur.control, k.nodes[0]);
      MeetTyped(fe, k.s.g, g, tc, fc, k.tys[1], k.nodes[1], k.nodes[2]);
      var r := Run(fe, t, v).s;
      SlotsKept(fe, k.s.g, r.g, k.s.cur.slots);
      Grows(fe, k.s, r.g, r.cur);
    }
  }

  /** Two values of one type meet. */
  lemma MeetTyped(fe: FunEnv, g0: seq<Node>, g: seq<Node>, tc: nat, fc: nat, ty: LocalType, a: nat, b: nat)
    requires GraphTyped(fe, g) && Ext(g0, g) && Has(fe, g0, a, ty) && Has(fe, g0, b, ty)
    ensures var g1 := g + [Merge([tc, fc]), Phi(ty, [a, b], |g|)];
      GraphTyped(fe, g1) && Ext(g0, g1) && Has(fe, g1, |g| + 1, ty)
  {
    hide GraphTyped, Ext;
    var m, p := Merge([tc, fc]), Phi(ty, [a, b], |g|);
    AddNode(fe, g, m);
    ExtTrans(g0, g, g + [m]);
    HasKept(fe, g0, g + [m], a, ty);
    HasKept(fe, g0, g + [m], b, ty);
    AddNode(fe, g + [m], p);
    ExtTrans(g0, g + [m], g + [m] + [p]);
    assert g + [m] + [p] == g + [m, p];
  }

  lemma {:induction false} IfTyped(fe: FunEnv, t: Syn, v: St)
    requires t.instr.If? && Inv(fe, v) && v.cur.Go() && StTyped(fe, v) && Run(fe, t, v).Ok?
    ensures ResTyped(fe, Run(fe, t, v))
    decreases t, 1
  {
    hide Inv, GraphTyped, BlocksTyped, SlotsTyped, Run, BuildBranch, ValueTyped, IfEnds, KidOk;
    KidCount(fe, t, v);
    IfIsRest(fe, t, v);
    RunTyped(fe, t.kids[0], v);
    RunLive(fe, t.kids[0], v);
    var Ok(v1, ty, c) := Run(fe, t.kids[0], v);
    ForkTyped(fe, If, v1, ty, c);
    ForkLive(fe, If, v1, ty, c);
    var w := IfArm(v1, c);
    ArmTyped(fe, t.kids[1], w);
    RunLive(fe, t.kids[1], w);
    RunExt(fe, t.kids[1], w);
    IfEndsTyped(fe, v1, ty, c, Run(fe, t.kids[1], w).s);
    EndHasNoValue(fe, Run(fe, t, v).s.g);
  }

  lemma RunExt(fe: FunEnv, t: Syn, v: St)
    requires LiveInv(fe, v) && Run(fe, t, v).Ok?
    ensures Ext(v.g, Run(fe, t, v).s.g)
  {
    if v.cur.Go() { RunOk(fe, t, v); } else { RunDead(fe, t, v); ExtRefl(v.g); }
  }

  /** After the condition of an if or if-else. */
  lemma ForkTyped(fe: FunEnv, instr: Instr, v: St, ty: LocalType, c: nat)
    requires (instr.If? || instr.IfElse?) && StTyped(fe, v) && KidOk(fe, instr, 0, ty)
    requires v.cur.Go() ==> Typed(v, ty, c) && ValueTyped(fe, v.g, ty, c)
    ensures StTyped(fe, IfArm(v, c)) && StTyped(fe, ElseFirst(v, c))
    ensures Ext(v.g, IfArm(v, c).g) && IfArm(v, c).g == ElseFirst(v, c).g
  {
    hide GraphTyped, BlocksTyped, SlotsTyped, BuildBranch;
    ExtRefl(v.g);
    if v.cur.Go() {
      IsI32(fe, v.g, ty, c);
      BranchTyped(fe, v, c);
    }
  }

  lemma IfEndsTyped(fe: FunEnv, v: St, ty: LocalType, c: nat, v2: St)
    requires StTyped(fe, v) && StTyped(fe, v2) && Ext(v.g, v2.g) && (!v.cur.Go() ==> !v2.cur.Go())
    ensures StTyped(fe, IfEnds(fe, v.cur, Forks(v.g, v.cur, c).2, v2))
  {
    hide GraphTyped, BlocksTyped, SlotsTyped, Goto, Ext;
    if v.cur.Go() {
      SlotsKept(fe, v.g, v2.g, v.cur.slots);
      var merge := Env(Reached, Forks(v.g, v.cur, c).2, v.cur.slots);
      if v2.cur.Go() {
        GotoTyped(fe, v2.g, v2.cur, merge);
        var (g, e) := Goto(fe, v2.g, v2.cur, merge);
        Grows(fe, v2, g, e);
      }
    }
  }

  lemma {:induction false} IfElseTyped(fe: FunEnv, t: Syn, v: St)
    requires t.instr.IfElse? && Inv(fe, v) && v.cur.Go() && StTyped(fe, v) && Run(fe, t, v).Ok?
    ensures ResTyped(fe, Run(fe, t, v))
    decreases t, 1
  {
    hide Inv, GraphTyped, BlocksTyped, SlotsTyped, Run, ValueTyped, ElseRest, KidOk;
    KidCount(fe, t, v);
    IfElseIsRest(fe, t, v);
    RunTyped(fe, t.kids[0], v);
    RunLive(fe, t.kids[0], v);
    var Ok(v1, ty, c) := Run(fe, t.kids[0], v);
    ArmsTyped(fe, t, v1, ty, c);
  }

  lemma NewTyped(fe: FunEnv, g: seq<Node>, e: Env)
    ensures TargetTyped(fe, g, NewTarget(e))
  {
  }

  lemma {:induction false} ArmsTyped(fe: FunEnv, t: Syn, v: St, ty: LocalType, c: nat)
    requires t.instr.IfElse? && |t.kids| == 3 && LiveInv(fe, v) && StTyped(fe, v) && KidOk(fe, IfElse, 0, ty)
    requires v.cur.Go() ==> Typed(v, ty, c) && ValueTyped(fe, v.g, ty, c)
    ensures ResTyped(fe, ElseRest(fe, t, v, c))
    decreases t, 0
  {
    hide Inv, GraphTyped, BlocksTyped, SlotsTyped, Run, ValueTyped, MergeInto, BuildBranch, KidOk, Ext, TargetTyped;
    ForkTyped(fe, IfElse, v, ty, c);
    ForkLive(fe, IfElse, v, ty, c);
    var v1 := ElseFirst(v, c);
    ArmTyped(fe, t.kids[1], v1);
    var a := Run(fe, t.kids[1], v1);
    if a.Ok? {
      FirstArmTyped(fe, v, ty, c, t.kids[1]);
      var v2, m2 := ElseSecond(fe, v, c, a), MergeInto(fe, a.s.g, a.s.cur, NewTarget(v.cur), a.ty, a.node).1;
      ArmTyped(fe, t.kids[2], v2);
      var b := Run(fe, t.kids[2], v2);
      if b.Ok? { SecondArmTyped(fe, v2, t.kids[2], m2); }
    }
  }

  /** After the first arm of an if-else. */
  lemma FirstArmTyped(fe: FunEnv, v: St, ty: LocalType, c: nat, t: Syn)
    requires LiveInv(fe, v) && StTyped(fe, v) && KidOk(fe, IfElse, 0, ty)
    requires (v.cur.Go() ==> Typed(v, ty, c) && ValueTyped(fe, v.g, ty, c))
    requires Run(fe, t, ElseFirst(v, c)).Ok? && ResTyped(fe, Run(fe, t, ElseFirst(v, c)))
    ensures var a := Run(fe, t, ElseFirst(v, c));
      var v2, m2 := ElseSecond(fe, v, c, a), MergeInto(fe, a.s.g, a.s.cur, NewTarget(v.cur), a.ty, a.node).1;
      && LiveInv(fe, v2) && StTyped(fe, v2) && TargetTyped(fe, v2.g, m2)
      && (v2.cur.Go() ==> TargetOk(fe, v2.g, m2) && !m2.env.state.Merged? && !m2.cont)
  {
    hide Run, GraphTyped, SlotsTyped, BlocksTyped, BlocksOk, MergeInto, Ext;
    var v1 := ElseFirst(v, c);
    var a := Run(fe, t, v1);
    NewTyped(fe, a.s.g, v.cur);
    if v.cur.Go() {
      T.FirstArm(fe, v, c, ty, t, a.s.cur.Go());
      ForkLive(fe, IfElse, v, ty, c);
      ForkTyped(fe, IfElse, v, ty, c);
      RunLive(fe, t, v1);
      RunExt(fe, t, v1);
      ExtTrans(v.g, v1.g, a.s.g);
      MergeIntoTyped(fe, a.s.g, a.s.cur, NewTarget(v.cur), a.ty, a.node);
      var g2 := MergeInto(fe, a.s.g, a.s.cur, NewTarget(v.cur), a.ty, a.node).0;
      ExtTrans(v.g, a.s.g, g2);
      SlotsKept(fe, v.g, g2, v.cur.slots);
      Grows(fe, a.s, g2, ElseSecond(fe, v, c, a).cur);
    } else {
      RunDead(fe, t, v1);
      DeadMerge(fe, a.s, NewTarget(v.cur), a.ty, a.node);
    }
  }

  /** After the second arm. */
  lemma SecondArmTyped(fe: FunEnv, v2: St, t: Syn, m2: Target)
    requires LiveInv(fe, v2) && StTyped(fe, v2) && TargetTyped(fe, v2.g, m2) && Run(fe, t, v2).Ok?
    requires ResTyped(fe, Run(fe, t, v2))
    requires v2.cur.Go() ==> TargetOk(fe, v2.g, m2) && !m2.env.state.Merged? && !m2.cont
    ensures var b := Run(fe, t, v2);
      var (g3, m3) := MergeInto(fe, b.s.g, b.s.cur, m2, b.ty, b.node);
      StTyped(fe, St(g3, m3.env, b.s.blocks, b.s.log)) && (m3.env.Go() ==> ValueTyped(fe, g3, m3.ty, m3.node))
  {
    hide Run, Inv, GraphTyped, BlocksTyped, SlotsTyped, MergeInto, Ext, TargetOk, ValueTyped;
    var b := Run(fe, t, v2);
    RunLive(fe, t, v2);
    RunExt(fe, t, v2);
    TargetKept(fe, v2.g, b.s.g, m2);
    if v2.cur.Go() {
      assert TargetOk(fe, b.s.g, m2) by { T.TargetLater(fe, v2.g, b.s.g, m2); }
      MergeIntoTyped(fe, b.s.g, b.s.cur, m2, b.ty, b.node);
      var (g3, m3) := MergeInto(fe, b.s.g, b.s.cur, m2, b.ty, b.node);
      Grows(fe, b.s, g3, m3.env);
    } else {
      DeadMerge(fe, b.s, m2, b.ty, b.node);
    }
  }

  /** Control and a value fall out of the innermost entry. */
  lemma LeaveIsTyped(fe: FunEnv, k: Kids)
    requires KidsAllTyped(fe, k) && k.KOk? && Inv(fe, k.s) && k.s.blocks != [] && 0 < |k.tys| == |k.nodes|
    requires Typed(k.s, k.tys[|k.tys| - 1], k.nodes[|k.nodes| - 1])
    ensures ResTyped(fe, LeaveTarget(fe, k))
  {
    hide GraphTyped, SlotsTyped, MergeInto, Ext, TargetOk, ValueTyped, Has;
    var last := |k.s.blocks| - 1;
    var t, ty, node := k.s.blocks[last], k.tys[|k.tys| - 1], k.nodes[|k.nodes| - 1];
    assert TargetOk(fe, k.s.g, t) && TargetTyped(fe, k.s.g, t);
    MergeIntoTyped(fe, k.s.g, k.s.cur, t, ty, node);
    var (g', t') := MergeInto(fe, k.s.g, k.s.cur, t, ty, node);
    Grows(fe, k.s.(blocks := k.s.blocks[..last]), g', t'.env);
  }

  lemma NestedOk(fe: FunEnv, t: Syn, w: St)
    requires Inv(fe, w) && w.cur.Go() && RunKids(fe, t, 0, w).KOk?
    ensures var k := RunKids(fe, t, 0, w);
      && Inv(fe, k.s) && |k.s.blocks| == |w.blocks| && |k.tys| == |k.nodes| == |t.kids|
      && forall j :: 0 <= j < |k.tys| ==> Typed(k.s, k.tys[j], k.nodes[j])
  {
    RunKidsOk(fe, t, 0, w);
  }

  lemma {:induction false} BlockTyped(fe: FunEnv, t: Syn, v: St)
    requires t.instr.Block? && Inv(fe, v) && v.cur.Go() && StTyped(fe, v) && Run(fe, t, v).Ok?
    ensures ResTyped(fe, Run(fe, t, v))
    decreases t, 1
  {
    hide Inv, GraphTyped, BlocksTyped, SlotsTyped, RunKids, LeaveTarget, EnterBlock;
    if t.kids != [] {
      EnterBlockOk(fe, v);
      EnterTyped(fe, v);
      var w := EnterBlock(v);
      KidsAreTyped(fe, t, 0, w);
      var k := RunKids(fe, t, 0, w);
      if k.KOk? {
        NestedOk(fe, t, w);
        LeaveIsTyped(fe, k);
      } else {
        LeftNothing(fe, k);
      }
    }
  }

  lemma LeftNothing(fe: FunEnv, k: Kids)
    requires k.KErr?
    ensures LeaveTarget(fe, k) == Err(k.stray)
  {
  }

  lemma EnterTyped(fe: FunEnv, v: St)
    requires StTyped(fe, v) && v.cur.Go()
    ensures StTyped(fe, EnterBlock(v)) && EnterBlock(v).blocks != []
  {
    hide GraphTyped, SlotsTyped, TargetTyped;
    NewTyped(fe, v.g, v.cur);
  }

  /** One phi of the slot's type for each slot of a loop. */
  lemma {:induction false} LoopSlotsTyped(fe: FunEnv, g: seq<Node>, head: nat, slots: seq<nat>, i: nat)
    requires i <= |slots| && GraphTyped(fe, g) && SlotsTyped(fe, g, slots)
    ensures var (g', r) := LoopSlots(fe, g, head, slots, i); GraphTyped(fe, g') && Ext(g, g') && SlotsTyped(fe, g', r)
    decreases i
  {
    hide GraphTyped, Ext;
    if i == 0 {
      ExtRefl(g);
    } else {
      var n := Phi(SlotType(fe, i - 1), [slots[i - 1]], head);
      AddNode(fe, g, n);
      SlotsKept(fe, g, g + [n], slots);
      LoopSlotsTyped(fe, g + [n], head, slots[i - 1 := |g|], i - 1);
      ExtTrans(g, g + [n], LoopSlots(fe, g, head, slots, i).0);
    }
  }

  lemma EnterLoopTyped(fe: FunEnv, v: St)
    requires StTyped(fe, v) && v.cur.Go()
    ensures StTyped(fe, EnterLoop(fe, v))
  {
    hide GraphTyped, SlotsTyped, Ext, LoopSlots;
    var h := LoopHead([v.cur.control]);
    AddNode(fe, v.g, h);
    SlotsKept(fe, v.g, v.g + [h], v.cur.slots);
    LoopSlotsTyped(fe, v.g + [h], |v.g|, v.cur.slots, |v.cur.slots|);
    var w := EnterLoop(fe, v);
    ExtTrans(v.g, v.g + [h], w.g);
    BlocksKept(fe, v.g, w.g, v.blocks);
    forall i | 0 <= i < |w.blocks| ensures TargetTyped(fe, w.g, w.blocks[i]) {
      if i < |v.blocks| { assert w.blocks[i] == v.blocks[i]; }
    }
  }

  lemma {:induction false} LoopTyped(fe: FunEnv, t: Syn, v: St)
    requires t.instr.Loop? && Inv(fe, v) && v.cur.Go() && StTyped(fe, v) && Run(fe, t, v).Ok?
    ensures ResTyped(fe, Run(fe, t, v))
    decreases t, 1
  {
    hide Inv, GraphTyped, BlocksTyped, SlotsTyped, RunKids, LeaveTarget, EnterLoop;
    if t.kids != [] {
      EnterLoopOk(fe, v);
      EnterLoopTyped(fe, v);
      var w := EnterLoop(fe, v);
      KidsAreTyped(fe, t, 0, w);
      var k := RunKids(fe, t, 0, w);
      if k.KOk? {
        NestedOk(fe, t, w);
        DropTyped(fe, k);
        LeaveIsTyped(fe, Popped(k));
      }
    }
  }

  lemma DropTyped(fe: FunEnv, k: Kids)
    requires k.KOk? && KidsAllTyped(fe, k) && Inv(fe, k.s) && |k.s.blocks| > 1
    ensures KidsAllTyped(fe, Popped(k)) && Inv(fe, Popped(k).s) && Popped(k).s.blocks != []
  {
    hide GraphTyped, SlotsTyped, TargetTyped, TargetOk;
  }

  // ----- Bodies -----

  lemma InitTyped(d: Decl)
    requires !d.ret.End?
    ensures StTyped(EnvOf(d), InitSt(d))
  {
    hide InitGraph;
    InitZeroed(d);
    var fe := EnvOf(d);
    var (g, slots) := InitGraph(d);
    forall i | 0 <= i < |g| ensures NodeTyped(fe, g, g[i]) { assert FunctionMeaning.Plain(g[i]); }
    var all := slots + [START];
    forall i | 0 <= i < |all| ensures Has(fe, g, all[i], SlotType(fe, i)) {
      if i < |d.params| { assert slots[i] == 2 + i && g[2 + i] == Param(i); }
    }
  }

  /** Every body that can be built gives a well-typed graph. */
  lemma BodyGraphTyped(d: Decl, trees: seq<Syn>)
    requires !d.ret.End? && BuildBody(d, trees).Accepted?
    ensures GraphTyped(EnvOf(d), BuildBody(d, trees).g)
  {
    hide InitSt, RunKids, GraphTyped, BlocksTyped, SlotsTyped, Inv, Ext, Has;
    var fe, v, t := EnvOf(d), InitSt(d), BodyOf(trees);
    InitTyped(d);
    D.InitLive(d);
    KidsAreTyped(fe, t, 0, v);
    var k := RunKids(fe, t, 0, v);
    if k.s.cur.Go() {
      EffectTyped(fe, k.s);
      var n := Ret(if fe.ret.Stmt? then 0
          else k.nodes[|k.nodes| - 1], k.s.cur.slots[|k.s.cur.slots| - 1], k.s.cur.control);
      if !fe.ret.Stmt? { assert ValueTyped(fe, k.s.g, k.tys[|k.tys| - 1], k.nodes[|k.nodes| - 1]); }
      AddNode(fe, k.s.g, n);
    }
  }

  /** The graph decoded from any accepted body is well typed. */
  lemma DecodedGraphTyped(menv: ModuleEnv, d: Decl, code: seq<byte>)
    requires !d.ret.End? && D.Builds(menv, d, code)
    ensures GraphTyped(EnvOf(d), D.BuiltGraph(menv, d, code))
  {
    hide GraphTyped, BuildBody, D.Decode;
    D.AcceptedIsBuild(menv, d, code);
    BodyGraphTyped(d, D.BodyTrees(menv, EnvOf(d), code));
  }
}
