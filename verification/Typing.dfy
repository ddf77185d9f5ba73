/** The types of trees without any graph: which trees are accepted, what type they have, where control is dead,
    and where a local is stored in dead code. */
module Typing {
  import opened Syntax
  import opened Graph
  import opened Ssa
  import opened SsaInvariant
  import opened SsaRun
  import opened LrSsa
  import opened CutOff

  /** The type that values of the given types have where they meet: theirs if they agree, and none otherwise;
      where nothing arrives, control does not come out. */
  function Join(ts: seq<LocalType>): LocalType {
    if ts == [] then End else if forall i :: 0 <= i < |ts| ==> ts[i] == ts[0] then ts[0] else Stmt
  }

  /** A value type is the join of exactly the nonempty lists of that type. */
  lemma JoinIff(ts: seq<LocalType>, t: LocalType)
    requires IsValue(t)
    ensures Join(ts) == t <==> ts != [] && forall i :: 0 <= i < |ts| ==> ts[i] == t
  {
  }

  /** The order of arrival does not matter. */
  lemma JoinPermutes(a: seq<LocalType>, b: seq<LocalType>)
    requires multiset(a) == multiset(b)
    ensures Join(a) == Join(b)
  {
    assert |a| == |multiset(a)| && |b| == |multiset(b)|;
    forall i | 0 <= i < |b| ensures exists j :: 0 <= j < |a| && a[j] == b[i] {
      assert b[i] in multiset(b);
      assert b[i] in multiset(a);
    }
    forall j | 0 <= j < |a| ensures exists i :: 0 <= i < |b| && b[i] == a[j] {
      assert a[j] in multiset(a);
      assert a[j] in multiset(b);
    }
  }

  lemma JoinMore(ts: seq<LocalType>, t: LocalType)
    ensures Join(ts + [t]) == if ts == [] || t == Join(ts) then t else Stmt
  {
    var more := ts + [t];
    assert more[|ts|] == t && forall i :: 0 <= i < |ts| ==> more[i] == ts[i];
  }

  /** Whether control is live, the types that arrived alive at every open block entry, and whether a local was
      stored in dead code. */
  datatype Flow = Flow(live: bool, arrived: seq<seq<LocalType>>, stray: bool)

  datatype Verdict = Ill(stray: bool) | Well(f: Flow, ty: LocalType)
  datatype Verdicts = IllKids(stray: bool) | WellKids(f: Flow, tys: seq<LocalType>)

  /** A value of the given type arrives at the d-th entry, and control ends. */
  function Arrive(f: Flow, d: nat, ty: LocalType): Flow {
    if !f.live || d >= |f.arrived| then f
    else
      var i := |f.arrived| - 1 - d;
      f.(live := false, arrived := f.arrived[i := f.arrived[i] + [ty]])
  }

  function Enter(f: Flow): Flow {
    f.(arrived := f.arrived + [[]])
  }

  /** What arrives at the innermost entry, the last value falling out included. */
  function Arrivals(f: Flow, ty: LocalType): seq<LocalType>
    requires f.arrived != []
  {
    f.arrived[|f.arrived| - 1] + if f.live then [ty] else []
  }

  function Leave(f: Flow, ty: LocalType): Verdict
    requires f.arrived != []
  {
    var ts := Arrivals(f, ty);
    Well(Flow(ts != [], f.arrived[..|f.arrived| - 1], f.stray), Join(ts))
  }

  // ----- Operands -----

  /** What is asked of one operand: anything, any value, exactly one type, or what nothing can meet. An operand
      that control does not come out of is taken for one of any type, unless the instruction is strict. */
  datatype Ask = Anything | SomeValue | Exactly(ty: LocalType, strict: bool) | Never

  predicate Passes(a: Ask, ty: LocalType) {
    match a
    case Anything => true
    case SomeValue => !ty.Stmt?
    case Exactly(want, strict) => ty == want || (ty.End? && !strict)
    case Never => false
  }

  /** The operands of an instruction; the third of a select is also compared with the second. */
  function Operands(fe: FunEnv, instr: Instr): seq<Ask> {
    match instr
    case Nop | Unreachable | Const(_, _) | GetLocal(_) => []
    case Block(n) => seq(n, i => Anything)
    case Loop(n) => seq(n, i => Anything)
    case If => [Exactly(I32, false), Anything]
    case IfElse => [Exactly(I32, false), Anything, Anything]
    case Select => [Exactly(I32, false), SomeValue, Anything]
    case Br(_) => [Anything]
    case BrIf(_) => [Exactly(I32, false), Anything]
    case Return => if fe.ret.Stmt? then [] else [Exactly(fe.ret, false)]
    case SetLocal(j) => [if j < |fe.locals| then Exactly(fe.locals[j], true) else Never]
    case Apply(op) => seq(|op.params|, i requires 0 <= i < |op.params| => Exactly(op.params[i], op.strict))
    case Cut(of, n) =>
      var asked := Operands(fe, of);
      seq(n, i requires 0 <= i < n =>
        if i + 1 == n then Anything else if i < |asked| then asked[i] else Never)
  }

  /** Operand i of the given type meets what is asked. */
  predicate Fine(fe: FunEnv, instr: Instr, i: nat, ty: LocalType) {
    i < |Operands(fe, instr)| && Passes(Operands(fe, instr)[i], ty)
  }

  /** There are as many operands as the decoder waits for. */
  lemma OperandCount(fe: FunEnv, instr: Instr)
    ensures |Operands(fe, instr)| == Arity(fe, instr)
  {
  }

  /** The decoder's check of an operand passes exactly when the operand meets what is asked. */
  lemma CheckIff(fe: FunEnv, instr: Instr, i: nat, ty: LocalType)
    requires i < Arity(fe, instr)
    ensures KidOk(fe, instr, i, ty) <==> Fine(fe, instr, i, ty)
  {
    OperandCount(fe, instr);
    if instr.Cut? {
      OperandCount(fe, instr.of);
      if i + 1 < instr.count && i < Arity(fe, instr.of) { CheckIff(fe, instr.of, i, ty); }
    }
  }

  /** A select takes anything but a statement as its second operand, and the same or no type as its third. */
  lemma SelectTakes(fe: FunEnv, a: LocalType, b: LocalType)
    ensures KidOk(fe, Select, 1, a) <==> !a.Stmt?
    ensures KidOk(fe, Select, 2, b) && Accepts(a, b) <==> b == a || b.End?
  {
    CheckIff(fe, Select, 1, a);
    CheckIff(fe, Select, 2, b);
  }

  predicate Begins(fe: FunEnv, instr: Instr, f: Flow) {
    match instr
    case Br(d) => d < |f.arrived|
    case BrIf(d) => d < |f.arrived|
    case SetLocal(i) => i < |fe.locals|
    case _ => true
  }

  function Judge(fe: FunEnv, t: Syn, f: Flow): (r: Verdict)
    ensures r.Well? ==> |r.f.arrived| == |f.arrived|
    decreases t, 2
  {
    if |t.kids| != |Operands(fe, t.instr)| then Ill(f.stray)
    else if !Begins(fe, t.instr, f) then Ill(f.stray)
    else
      match t.instr
      case Nop => Well(f, Stmt)
      case Unreachable => Well(f.(live := false), End)
      case Const(ty, _) => Well(f, ty)
      case GetLocal(i) => if i < |fe.locals| then Well(f, fe.locals[i]) else Ill(f.stray)
      case SetLocal(i) =>
        (match JudgeKids(fe, t, 0, f)
         case IllKids(b) => Ill(b)
         case WellKids(f1, _) => Well(f1.(stray := f1.stray || !f1.live), fe.locals[i]))
      case Apply(op) =>
        (match JudgeKids(fe, t, 0, f)
         case IllKids(b) => Ill(b)
         case WellKids(f1, _) => Well(f1, op.result))
      case Return =>
        (match JudgeKids(fe, t, 0, f)
         case IllKids(b) => Ill(b)
         case WellKids(f1, _) => Well(f1.(live := false), End))
      case Br(d) =>
        (match JudgeKids(fe, t, 0, f)
         case IllKids(b) => Ill(b)
         case WellKids(f1, tys) => Well(Arrive(f1, d, tys[0]), End))
      case BrIf(d) =>
        (match JudgeKids(fe, t, 0, f)
         case IllKids(b) => Ill(b)
         case WellKids(f1, tys) => Well(Arrive(f1, d, tys[1]).(live := f1.live), Stmt))
      case Select =>
        (match JudgeKids(fe, t, 0, f)
         case IllKids(b) => Ill(b)
         case WellKids(f1, tys) => if Passes(Exactly(tys[1], false), tys[2]) then Well(f1, tys[1]) else Ill(f1.stray))
      case If =>
        (match Judge(fe, t.kids[0], f)
         case Ill(b) => Ill(b)
         case Well(f1, ty) =>
           if !Fine(fe, If, 0, ty) then Ill(f1.stray)
           else
             match Judge(fe, t.kids[1], f1)
             case Ill(b) => Ill(b)
             case Well(f2, _) => Well(f2.(live := f1.live), Stmt))
      case IfElse =>
        (match Judge(fe, t.kids[0], f)
         case Ill(b) => Ill(b)
         case Well(f1, ty) =>
           if !Fine(fe, IfElse, 0, ty) then Ill(f1.stray)
           else
             match Judge(fe, t.kids[1], f1)
             case Ill(b) => Ill(b)
             case Well(f2, ty2) =>
               match Judge(fe, t.kids[2], f2.(live := f1.live))
               case Ill(b) => Ill(b)
               case Well(f3, ty3) =>
                 var ts := (if f2.live then [ty2] else []) + if f3.live then [ty3] else [];
                 Well(f3.(live := ts != []), Join(ts)))
      case Block(_) =>
        if t.kids == [] then Well(f, Stmt)
        else
          (match JudgeKids(fe, t, 0, Enter(f))
           case IllKids(b) => Ill(b)
           case WellKids(f1, tys) => Leave(f1, tys[|tys| - 1]))
      case Loop(_) =>
        if t.kids == [] then Well(f, Stmt)
        else
          (match JudgeKids(fe, t, 0, Enter(Enter(f)))
           case IllKids(b) => Ill(b)
           case WellKids(f1, tys) => Leave(f1.(arrived := f1.arrived[..|f1.arrived| - 1]), tys[|tys| - 1]))
      case Cut(of, _) =>
        if !Begins(fe, of, f) then Ill(f.stray)
        else
          (match JudgeKids(fe, t, 0, f)
           case IllKids(b) => Ill(b)
           case WellKids(f1, _) => Well(f1.(live := false), End))
  }

  function JudgeKids(fe: FunEnv, t: Syn, i: nat, f: Flow): (r: Verdicts)
    requires i <= |t.kids|
    ensures r.WellKids? ==> |r.tys| == |t.kids| - i && |r.f.arrived| == |f.arrived|
    decreases t, 0, |t.kids| - i
  {
    if i == |t.kids| then WellKids(f, [])
    else
      match Judge(fe, t.kids[i], f)
      case Ill(b) => IllKids(b)
      case Well(f1, ty) =>
        if !Fine(fe, t.instr, i, ty) then IllKids(f1.stray)
        else
          match JudgeKids(fe, t, i + 1, f1)
          case IllKids(b) => IllKids(b)
          case WellKids(f2, tys) => WellKids(f2, [ty] + tys)
  }

  // ----- The construction keeps to it -----

  predicate NoEnds(ts: seq<LocalType>) {
    forall i :: 0 <= i < |ts| ==> !ts[i].End?
  }

  /** What has arrived at a block entry is what the construction knows about it. */
  predicate EntryFits(t: Target, ts: seq<LocalType>) {
    t.cont || (t.ty == Join(ts) && t.env.Go() == (ts != []) && NoEnds(ts))
  }

  predicate Fits(v: St, f: Flow) {
    && v.cur.Go() == f.live && v.log.stray == f.stray && |v.blocks| == |f.arrived|
    && forall i :: 0 <= i < |v.blocks| ==> EntryFits(v.blocks[i], f.arrived[i])
  }

  ghost predicate Agrees(r: Res, j: Verdict) {
    match r
    case Err(b) => j == Ill(b)
    case Ok(v, ty, _) => j.Well? && j.ty == ty && Fits(v, j.f)
  }

  ghost predicate KidsAgree(k: Kids, j: Verdicts) {
    match k
    case KErr(b) => j == IllKids(b)
    case KOk(v, tys, _) => j.WellKids? && j.tys == tys && Fits(v, j.f)
  }

  /** A live environment flows into an entry. */
  lemma MergeFits(fe: FunEnv, v: St, t: Target, ts: seq<LocalType>, ty: LocalType, node: nat)
    requires v.cur.Go() && Inv(fe, v) && TargetOk(fe, v.g, t) && EntryFits(t, ts) && Typed(v, ty, node)
    ensures EntryFits(MergeInto(fe, v.g, v.cur, t, ty, node).1, ts + [ty])
  {
    hide Inv, TargetOk, Goto, MergeNode;
    MergedLive(fe, v, t, ty, node);
    JoinMore(ts, ty);
  }

  /** An environment that is entered is live after, and keeps its state apart from that. */
  lemma MergedLive(fe: FunEnv, v: St, t: Target, ty: LocalType, node: nat)
    requires v.cur.Go() && Inv(fe, v) && TargetOk(fe, v.g, t) && Typed(v, ty, node)
    ensures var t' := MergeInto(fe, v.g, v.cur, t, ty, node).1; t'.env.Go() && t'.cont == t.cont && !ty.End?
    ensures t.env.state.Unreached? <==> !t.env.Go()
  {
    hide MergeInto;
    MergeIntoOk(fe, v.g, v.cur, t, ty, node);
  }

  lemma BreakFits(fe: FunEnv, v: St, f: Flow, d: nat, ty: LocalType, node: nat)
    requires v.cur.Go() && Inv(fe, v) && Fits(v, f) && d < |v.blocks| && Typed(v, ty, node)
    ensures Fits(BreakTo(fe, v, d, ty, node), Arrive(f, d, ty))
  {
    hide MergeInto, TargetOk, EntryFits;
    var i := At(v.blocks, d);
    MergeFits(fe, v, v.blocks[i], f.arrived[i], ty, node);
  }

  lemma EnterFits(fe: FunEnv, v: St, f: Flow)
    requires Fits(v, f)
    ensures Fits(EnterBlock(v), Enter(f)) && Fits(EnterLoop(fe, v), Enter(Enter(f)))
  {
    hide PrepareForLoop, EntryFits;
    LoopAliveToo(fe, v);
    var n, b, l := |v.blocks|, EnterBlock(v), EnterLoop(fe, v);
    assert EntryFits(NewTarget(v.cur), []) by { NewFits(v.cur); }
    assert EntryFits(l.blocks[n + 1], []) by { ContFits(l.blocks[n + 1]); }
    forall i | 0 <= i < n + 2 ensures EntryFits(l.blocks[i], Enter(Enter(f)).arrived[i]) {
      if i < n { assert EntryFits(v.blocks[i], f.arrived[i]); }
    }
    forall i | 0 <= i < n + 1 ensures EntryFits(b.blocks[i], Enter(f).arrived[i]) {
      if i < n { assert EntryFits(v.blocks[i], f.arrived[i]); }
    }
  }

  lemma NewFits(e: Env)
    ensures EntryFits(NewTarget(e), [])
  {
  }

  lemma ContFits(t: Target)
    requires t.cont
    ensures EntryFits(t, [])
  {
  }

  lemma LoopAliveToo(fe: FunEnv, v: St)
    ensures EnterLoop(fe, v).cur.Go() == v.cur.Go()
  {
    hide LoopSlots;
  }

  /** Control and a value fall out of the innermost entry. */
  lemma LeaveFits(fe: FunEnv, k: Kids, f: Flow)
    requires k.KOk? && LiveInv(fe, k.s) && Fits(k.s, f) && k.s.blocks != [] && 0 < |k.tys| == |k.nodes|
    requires !k.s.blocks[|k.s.blocks| - 1].cont
    requires (k.s.cur.Go() ==> Typed(k.s, k.tys[|k.tys| - 1], k.nodes[|k.nodes| - 1]))
    ensures Agrees(LeaveTarget(fe, k), Leave(f, k.tys[|k.tys| - 1]))
  {
    hide MergeInto, TargetOk, EntryFits, Join;
    var last := |k.s.blocks| - 1;
    var ty, node := k.tys[|k.tys| - 1], k.nodes[|k.nodes| - 1];
    var t := k.s.blocks[last];
    assert EntryFits(t, f.arrived[last]);
    if k.s.cur.Go() {
      MergeFits(fe, k.s, t, f.arrived[last], ty, node);
      MergedLive(fe, k.s, t, ty, node);
      FitsMeans(MergeInto(fe, k.s.g, k.s.cur, t, ty, node).1, f.arrived[last] + [ty]);
    } else {
      DeadMerge(fe, k.s, t, ty, node);
      FitsMeans(t, f.arrived[last]);
      assert f.arrived[last] + [] == f.arrived[last];
    }
  }

  lemma FitsMeans(t: Target, ts: seq<LocalType>)
    requires !t.cont && EntryFits(t, ts)
    ensures t.ty == Join(ts) && t.env.Go() == (ts != [])
  {
  }

  /** Every tree, in every state: the construction succeeds exactly when the tree is well typed, with the type and
      the flow that the rules give, and fails after a stray store exactly when they say so. */
  lemma {:induction false} JudgeRuns(fe: FunEnv, t: Syn, v: St, f: Flow)
    requires LiveInv(fe, v) && Fits(v, f)
    ensures Agrees(Run(fe, t, v), Judge(fe, t, f))
    decreases t, 2
  {
    hide Inv, EntryFits, KidOk, BuildOp, BuildBranch, MergeInto, PrepareForLoop, Goto, Join, Operands, Fine;
    OperandCount(fe, t.instr);
    if |t.kids| == Arity(fe, t.instr) && Begins(fe, t.instr, f) {
      match t.instr
      case Nop =>
      case Unreachable =>
      case Const(_, _) =>
      case GetLocal(_) =>
      case SetLocal(_) => KidsJudge(fe, t, 0, v, f);
      case Apply(_) => ApplyJudge(fe, t, v, f);
      case Return => KidsJudge(fe, t, 0, v, f);
      case Br(d) => BrJudge(fe, t, v, f);
      case BrIf(d) => BrIfJudge(fe, t, v, f);
      case Select => KidsJudge(fe, t, 0, v, f);
      case If => IfJudge(fe, t, v, f);
      case IfElse => IfElseJudge(fe, t, v, f);
      case Block(_) => BlockJudge(fe, t, v, f);
      case Loop(_) => LoopJudge(fe, t, v, f);
      case Cut(_, _) => KidsJudge(fe, t, 0, v, f);
    }
  }

  lemma OpLive(g: seq<Node>, e: Env, op: Op, args: seq<nat>)
    requires |e.slots| > 0
    ensures BuildOp(g, e, op, args).1.Go() == e.Go()
  {
  }

  lemma {:induction false} ApplyJudge(fe: FunEnv, t: Syn, v: St, f: Flow)
    requires t.instr.Apply? && |t.kids| == Arity(fe, t.instr) && LiveInv(fe, v) && Fits(v, f)
    ensures Agrees(Run(fe, t, v), Judge(fe, t, f))
    decreases t, 1
  {
    hide Inv, EntryFits, KidOk, BuildOp;
    KidsJudge(fe, t, 0, v, f);
    var k := RunKids(fe, t, 0, v);
    if k.KOk? && |k.s.cur.slots| > 0 { OpLive(k.s.g, k.s.cur, t.instr.op, k.nodes); }
  }

  /** The types and nodes of children that control comes out of. */
  lemma KidsLiveTyped(fe: FunEnv, t: Syn, v: St)
    requires LiveInv(fe, v) && RunKids(fe, t, 0, v).KOk?
    ensures var k := RunKids(fe, t, 0, v);
      LiveInv(fe, k.s) && (k.s.cur.Go() ==> forall j :: 0 <= j < |k.tys| ==> Typed(k.s, k.tys[j], k.nodes[j]))
  {
    if v.cur.Go() { RunKidsOk(fe, t, 0, v); } else { RunKidsDead(fe, t, 0, v); }
  }

  lemma {:induction false} BrJudge(fe: FunEnv, t: Syn, v: St, f: Flow)
    requires t.instr.Br? && |t.kids| == Arity(fe, t.instr) && Begins(fe, t.instr, f) && LiveInv(fe, v) && Fits(v, f)
    ensures Agrees(Run(fe, t, v), Judge(fe, t, f))
    decreases t, 1
  {
    hide Inv, EntryFits, KidOk, BreakTo;
    KidsJudge(fe, t, 0, v, f);
    var k := RunKids(fe, t, 0, v);
    if k.KOk? {
      KidsLiveTyped(fe, t, v);
      if k.s.cur.Go() { BreakFits(fe, k.s, JudgeKids(fe, t, 0, f).f, t.instr.depth, k.tys[0], k.nodes[0]); }
    }
  }

  lemma {:induction false} BrIfJudge(fe: FunEnv, t: Syn, v: St, f: Flow)
    requires t.instr.BrIf? && |t.kids| == Arity(fe, t.instr) && Begins(fe, t.instr, f) && LiveInv(fe, v) && Fits(v, f)
    ensures Agrees(Run(fe, t, v), Judge(fe, t, f))
    decreases t, 1
  {
    hide Inv, EntryFits, BreakTo, BuildBranch;
    KidsJudge(fe, t, 0, v, f);
    var k := RunKids(fe, t, 0, v);
    if k.KOk? {
      KidsLiveTyped(fe, t, v);
      if k.s.cur.Go() {
        RunKidsChecked(fe, t, 0, v);
        assert KidOk(fe, t.instr, 0, k.tys[0]) && Typed(k.s, k.tys[0], k.nodes[0]) && Typed(k.s, k.tys[1], k.nodes[1]);
        BranchOk(fe, k.s, k.nodes[0]);
        var (g, tc, fc) := BuildBranch(k.s.g, k.s.cur.control, k.nodes[0]);
        var s1 := St(g, Env(Reached, tc, k.s.cur.slots), k.s.blocks, k.s.log);
        BreakFits(fe, s1, JudgeKids(fe, t, 0, f).f, t.instr.depth, k.tys[1], k.nodes[1]);
      }
    }
  }

  lemma {:induction false} IfJudge(fe: FunEnv, t: Syn, v: St, f: Flow)
    requires t.instr.If? && |t.kids| == Arity(fe, t.instr) && LiveInv(fe, v) && Fits(v, f)
    ensures Agrees(Run(fe, t, v), Judge(fe, t, f))
    decreases t, 1
  {
    hide Inv, EntryFits, Run, KidOk, BuildBranch, Goto, Fine;
    IfIsRest(fe, t, v);
    JudgeRuns(fe, t.kids[0], v, f);
    var r := Run(fe, t.kids[0], v);
    if r.Ok? { CheckIff(fe, If, 0, r.ty); }
    if r.Ok? && KidOk(fe, If, 0, r.ty) {
      RunLive(fe, t.kids[0], v);
      ForkLive(fe, If, r.s, r.ty, r.node);
      var f1, v1 := Judge(fe, t.kids[0], f).f, IfArm(r.s, r.node);
      JudgeRuns(fe, t.kids[1], v1, f1);
      var a := Run(fe, t.kids[1], v1);
      if a.Ok? { IfEndsLive(fe, r.s.cur, Forks(r.s.g, r.s.cur, r.node).2, a.s); }
    }
  }

  lemma IfEndsLive(fe: FunEnv, e: Env, fc: nat, v2: St)
    ensures var v := IfEnds(fe, e, fc, v2); v.cur.Go() == e.Go() && v.blocks == v2.blocks && v.log == v2.log
  {
    hide MergeSlots;
  }

  lemma {:induction false} IfElseJudge(fe: FunEnv, t: Syn, v: St, f: Flow)
    requires t.instr.IfElse? && |t.kids| == Arity(fe, t.instr) && LiveInv(fe, v) && Fits(v, f)
    ensures Agrees(Run(fe, t, v), Judge(fe, t, f))
    decreases t, 1
  {
    hide Inv, EntryFits, Run, KidOk, ElseRest, Join, Fine;
    IfElseIsRest(fe, t, v);
    JudgeRuns(fe, t.kids[0], v, f);
    var r := Run(fe, t.kids[0], v);
    if r.Ok? { CheckIff(fe, IfElse, 0, r.ty); }
    if r.Ok? && KidOk(fe, IfElse, 0, r.ty) {
      RunLive(fe, t.kids[0], v);
      ArmsJudge(fe, t, r.s, r.ty, r.node, Judge(fe, t.kids[0], f).f);
    }
  }

  /** Both arms of an if-else. */
  function JudgeArms(fe: FunEnv, t: Syn, f1: Flow): Verdict
    requires |t.kids| == 3
  {
    match Judge(fe, t.kids[1], f1)
    case Ill(b) => Ill(b)
    case Well(f2, ty2) =>
      match Judge(fe, t.kids[2], f2.(live := f1.live))
      case Ill(b) => Ill(b)
      case Well(f3, ty3) =>
        var ts := (if f2.live then [ty2] else []) + if f3.live then [ty3] else [];
        Well(f3.(live := ts != []), Join(ts))
  }

  lemma {:induction false} ArmsJudge(fe: FunEnv, t: Syn, v: St, ty: LocalType, c: nat, f: Flow)
    requires t.instr.IfElse? && |t.kids| == 3 && LiveInv(fe, v) && Fits(v, f) && (v.cur.Go() ==> Typed(v, ty, c))
    requires KidOk(fe, IfElse, 0, ty)
    ensures Agrees(ElseRest(fe, t, v, c), JudgeArms(fe, t, f))
    decreases t, 0
  {
    hide Inv, EntryFits, Run, MergeInto, BuildBranch, Join, Judge;
    ForkLive(fe, IfElse, v, ty, c);
    var v1 := ElseFirst(v, c);
    JudgeRuns(fe, t.kids[1], v1, f);
    var a := Run(fe, t.kids[1], v1);
    if a.Ok? {
      RunLive(fe, t.kids[1], v1);
      var f2 := Judge(fe, t.kids[1], f).f;
      var ts := if f2.live then [a.ty] else [];
      FirstArm(fe, v, c, ty, t.kids[1], f2.live);
      var v2 := ElseSecond(fe, v, c, a);
      JudgeRuns(fe, t.kids[2], v2, f2.(live := f.live));
      var b := Run(fe, t.kids[2], v2);
      if b.Ok? {
        RunLive(fe, t.kids[2], v2);
        var m2 := MergeInto(fe, a.s.g, a.s.cur, NewTarget(v.cur), a.ty, a.node).1;
        SecondArm(fe, v2, t.kids[2], m2, ts);
      }
    }
  }

  lemma {:induction false} KidsJudge(fe: FunEnv, t: Syn, i: nat, v: St, f: Flow)
    requires i <= |t.kids| <= Arity(fe, t.instr) && LiveInv(fe, v) && Fits(v, f)
    ensures KidsAgree(RunKids(fe, t, i, v), JudgeKids(fe, t, i, f))
    decreases t, 0, |t.kids| - i
  {
    hide Inv, EntryFits, KidOk, Run, Judge, Arity, Fine;
    if i < |t.kids| {
      JudgeRuns(fe, t.kids[i], v, f);
      var r := Run(fe, t.kids[i], v);
      if r.Ok? {
        CheckIff(fe, t.instr, i, r.ty);
        RunLive(fe, t.kids[i], v);
        KidsJudge(fe, t, i + 1, r.s, Judge(fe, t.kids[i], f).f);
      }
    }
  }

  /** After the first arm of an if-else. */
  lemma FirstArm(fe: FunEnv, v: St, c: nat, ty: LocalType, t: Syn, live: bool)
    requires LiveInv(fe, v) && (v.cur.Go() ==> Typed(v, ty, c)) && KidOk(fe, IfElse, 0, ty)
    requires Run(fe, t, ElseFirst(v, c)).Ok?
    requires live == Run(fe, t, ElseFirst(v, c)).s.cur.Go()
    ensures var a := Run(fe, t, ElseFirst(v, c));
      var v2, m2 := ElseSecond(fe, v, c, a), MergeInto(fe, a.s.g, a.s.cur, NewTarget(v.cur), a.ty, a.node).1;
      && LiveInv(fe, v2) && v2.cur.Go() == v.cur.Go() && v2.blocks == a.s.blocks && v2.log == a.s.log
      && EntryFits(m2, if live then [a.ty] else []) && !m2.cont
      && (v.cur.Go() ==> TargetOk(fe, v2.g, m2) && !m2.env.state.Merged?)
  {
    hide Run, BlocksOk, EntryFits;
    var v1 := ElseFirst(v, c);
    var a := Run(fe, t, v1);
    NewFits(v.cur);
    if v.cur.Go() {
      BranchOk(fe, v, c);
      var (g, tc, fc) := BuildBranch(v.g, v.cur.control, c);
      RunOk(fe, t, v1);
      PendOk(fe, a.s, NewTarget(v.cur), a.ty, a.node);
      EnvKeep(fe, g, ElseSecond(fe, v, c, a).g, Env(Reached, fc, v.cur.slots));
      if live {
        MergeFits(fe, a.s, NewTarget(v.cur), [], a.ty, a.node);
        assert [] + [a.ty] == [a.ty];
      } else {
        DeadMerge(fe, a.s, NewTarget(v.cur), a.ty, a.node);
      }
    } else {
      RunDead(fe, t, v1);
      DeadMerge(fe, a.s, NewTarget(v.cur), a.ty, a.node);
    }
  }

  /** After the second arm. */
  lemma SecondArm(fe: FunEnv, v2: St, t: Syn, m2: Target, ts: seq<LocalType>)
    requires LiveInv(fe, v2) && Run(fe, t, v2).Ok? && EntryFits(m2, ts) && !m2.cont
    requires v2.cur.Go() ==> TargetOk(fe, v2.g, m2) && !m2.env.state.Merged?
    ensures var b := Run(fe, t, v2);
      var m3 := MergeInto(fe, b.s.g, b.s.cur, m2, b.ty, b.node).1;
      var all := ts + if b.s.cur.Go() then [b.ty] else [];
      m3.ty == Join(all) && m3.env.Go() == (all != [])
  {
    hide Run, Inv, EntryFits, MergeInto, Join;
    var b := Run(fe, t, v2);
    RunLive(fe, t, v2);
    if b.s.cur.Go() {
      assert TargetOk(fe, b.s.g, m2) by { RunOk(fe, t, v2); TargetLater(fe, v2.g, b.s.g, m2); }
      MergeFits(fe, b.s, m2, ts, b.ty, b.node);
      MergedLive(fe, b.s, m2, b.ty, b.node);
      FitsMeans(MergeInto(fe, b.s.g, b.s.cur, m2, b.ty, b.node).1, ts + [b.ty]);
    } else {
      DeadMerge(fe, b.s, m2, b.ty, b.node);
      FitsMeans(m2, ts);
      assert ts + [] == ts;
    }
  }

  lemma TargetLater(fe: FunEnv, g: seq<Node>, g': seq<Node>, t: Target)
    requires TargetOk(fe, g, t) && !t.env.state.Merged? && !t.cont && |g| <= |g'|
    ensures TargetOk(fe, g', t)
  {
  }

  lemma {:induction false} BlockJudge(fe: FunEnv, t: Syn, v: St, f: Flow)
    requires t.instr.Block? && |t.kids| == Arity(fe, t.instr) && LiveInv(fe, v) && Fits(v, f)
    ensures Agrees(Run(fe, t, v), Judge(fe, t, f))
    decreases t, 1
  {
    hide Inv, EntryFits, KidOk, Run, RunKids, Judge, JudgeKids, LeaveTarget, EnterBlock, Leave;
    if t.kids == [] {
      EmptyNest(fe, t, v, f);
    } else {
      EnterFits(fe, v, f);
      EnterLive(fe, v);
      Innermost(fe, v);
      BlockIs(fe, t, v, f);
      var w := EnterBlock(v);
      KidsJudge(fe, t, 0, w, Enter(f));
      var k := RunKids(fe, t, 0, w);
      if k.KOk? {
        KidsLiveTyped(fe, t, w);
        ContSame(fe, t, w, |v.blocks|);
        LeaveFits(fe, k, JudgeKids(fe, t, 0, Enter(f)).f);
      }
    }
  }

  lemma BlockIs(fe: FunEnv, t: Syn, v: St, f: Flow)
    requires t.instr.Block? && |t.kids| == Arity(fe, t.instr) && t.kids != []
    ensures var k := RunKids(fe, t, 0, EnterBlock(v));
      Run(fe, t, v) == if k.KErr? then Err(k.stray) else LeaveTarget(fe, k)
    ensures Judge(fe, t, f) == match JudgeKids(fe, t, 0, Enter(f))
      case IllKids(b) => Ill(b)
      case WellKids(f1, tys) => Leave(f1, tys[|tys| - 1])
  {
    hide RunKids, JudgeKids, EnterBlock, Leave, MergeInto;
  }

  lemma Innermost(fe: FunEnv, v: St)
    ensures |EnterBlock(v).blocks| == |v.blocks| + 1 && !EnterBlock(v).blocks[|v.blocks|].cont
    ensures |EnterLoop(fe, v).blocks| == |v.blocks| + 2 && !EnterLoop(fe, v).blocks[|v.blocks|].cont
  {
    hide PrepareForLoop;
  }

  /** Inner entries of loops stay what they are. */
  lemma ContSame(fe: FunEnv, t: Syn, v: St, i: nat)
    requires LiveInv(fe, v) && RunKids(fe, t, 0, v).KOk? && i < |v.blocks|
    ensures var b := RunKids(fe, t, 0, v).s.blocks; |b| == |v.blocks| && b[i].cont == v.blocks[i].cont
  {
    if v.cur.Go() {
      RunKidsOk(fe, t, 0, v);
      assert Evolves(v.g, v.blocks[i], RunKids(fe, t, 0, v).s.g, RunKids(fe, t, 0, v).s.blocks[i]);
    } else {
      RunKidsDead(fe, t, 0, v);
    }
  }

  lemma {:induction false} LoopJudge(fe: FunEnv, t: Syn, v: St, f: Flow)
    requires t.instr.Loop? && |t.kids| == Arity(fe, t.instr) && LiveInv(fe, v) && Fits(v, f)
    ensures Agrees(Run(fe, t, v), Judge(fe, t, f))
    decreases t, 1
  {
    hide Inv, EntryFits, KidOk, Run, RunKids, Judge, JudgeKids, LeaveTarget, EnterLoop, Leave;
    if t.kids == [] {
      EmptyNest(fe, t, v, f);
    } else {
      EnterFits(fe, v, f);
      EnterLive(fe, v);
      Innermost(fe, v);
      LoopIs(fe, t, v, f);
      var w := EnterLoop(fe, v);
      KidsJudge(fe, t, 0, w, Enter(Enter(f)));
      var k := RunKids(fe, t, 0, w);
      if k.KOk? {
        KidsLiveTyped(fe, t, w);
        ContSame(fe, t, w, |v.blocks|);
        var f1 := JudgeKids(fe, t, 0, Enter(Enter(f))).f;
        var n := |k.s.blocks| - 1;
        var k' := KOk(k.s.(blocks := k.s.blocks[..n]), k.tys, k.nodes);
        DropFits(fe, k.s, f1);
        LeaveFits(fe, k', f1.(arrived := f1.arrived[..n]));
      }
    }
  }

  lemma EmptyNest(fe: FunEnv, t: Syn, v: St, f: Flow)
    requires (t.instr.Loop? || t.instr.Block?) && |t.kids| == Arity(fe, t.instr) && t.kids == []
    ensures Run(fe, t, v) == Ok(v, Stmt, 0) && Judge(fe, t, f) == Well(f, Stmt)
  {
  }

  lemma LoopIs(fe: FunEnv, t: Syn, v: St, f: Flow)
    requires t.instr.Loop? && |t.kids| == Arity(fe, t.instr) && t.kids != []
    ensures Run(fe, t, v) == match RunKids(fe, t, 0, EnterLoop(fe, v))
      case KErr(b) => Err(b)
      case KOk(s1, tys, nodes) => if s1.blocks == [] then Err(s1.log.stray)
        else LeaveTarget(fe, KOk(s1.(blocks := s1.blocks[..|s1.blocks| - 1]), tys, nodes))
    ensures Judge(fe, t, f) == match JudgeKids(fe, t, 0, Enter(Enter(f)))
      case IllKids(b) => Ill(b)
      case WellKids(f1, tys) => Leave(f1.(arrived := f1.arrived[..|f1.arrived| - 1]), tys[|tys| - 1])
  {
    hide RunKids, JudgeKids, LeaveTarget, EnterLoop, Leave;
  }

  lemma DropFits(fe: FunEnv, v: St, f: Flow)
    requires LiveInv(fe, v) && Fits(v, f) && v.blocks != []
    ensures var n := |v.blocks| - 1;
      var w := v.(blocks := v.blocks[..n]);
      LiveInv(fe, w) && Fits(w, f.(arrived := f.arrived[..n]))
  {
  }

  // ----- Where control meets -----

  predicate Gathers(t: Syn) {
    (t.instr.Block? || t.instr.Loop? || t.instr.IfElse?) && t.kids != []
  }

  /** The types that come alive to the end of a block, a loop or an if-else: from its branches, in the order of
      the code, and then from its last tree; or from its arms. */
  function Meeting(fe: FunEnv, t: Syn, f: Flow): seq<LocalType>
    requires Gathers(t) && Judge(fe, t, f).Well?
  {
    match t.instr
    case Block(_) =>
      var k := JudgeKids(fe, t, 0, Enter(f));
      Arrivals(k.f, k.tys[|k.tys| - 1])
    case Loop(_) =>
      var k := JudgeKids(fe, t, 0, Enter(Enter(f)));
      Arrivals(k.f.(arrived := k.f.arrived[..|k.f.arrived| - 1]), k.tys[|k.tys| - 1])
    case IfElse =>
      var f1 := Judge(fe, t.kids[0], f).f;
      var r2 := Judge(fe, t.kids[1], f1);
      var r3 := Judge(fe, t.kids[2], r2.f.(live := f1.live));
      (if r2.f.live then [r2.ty] else []) + if r3.f.live then [r3.ty] else []
  }

  lemma JudgedMeeting(fe: FunEnv, t: Syn, f: Flow)
    requires Gathers(t) && Judge(fe, t, f).Well?
    ensures var m, r := Meeting(fe, t, f), Judge(fe, t, f); r.ty == Join(m) && r.f.live == (m != [])
  {
    hide Join, JudgeKids, Fine;
  }

  /** What is built for a block, a loop or an if-else has the type on which all that come out of it agree, in
      whatever order they come. */
  lemma TypeIsJoin(fe: FunEnv, t: Syn, v: St, f: Flow, ty: LocalType, ts: seq<LocalType>)
    requires LiveInv(fe, v) && Fits(v, f) && Gathers(t) && Run(fe, t, v).Ok? && IsValue(ty)
    ensures Judge(fe, t, f).Well?
    ensures var m, r := Meeting(fe, t, f), Run(fe, t, v);
      && r.ty == Join(m) && r.s.cur.Go() == (m != [])
      && (r.ty == ty <==> m != [] && forall i :: 0 <= i < |m| ==> m[i] == ty)
      && (multiset(ts) == multiset(m) ==> r.ty == Join(ts))
  {
    hide Join, EntryFits, Inv, Run, Judge, Meeting;
    JudgeRuns(fe, t, v, f);
    JudgedMeeting(fe, t, f);
    var m := Meeting(fe, t, f);
    JoinIff(m, ty);
    if multiset(ts) == multiset(m) { JoinPermutes(ts, m); }
  }

  // ----- Operands that control comes out of -----

  /** A type that leaves nothing to assume. */
  predicate Met(a: Ask, ty: LocalType) {
    match a
    case Anything => true
    case SomeValue => IsValue(ty)
    case Exactly(want, _) => ty == want
    case Never => false
  }

  /** Child i of a tree, begun in f: if control comes out of it, it has exactly the type wanted. */
  predicate ChildExact(fe: FunEnv, t: Syn, i: nat, f: Flow)
    requires i < |t.kids|
  {
    var r := Judge(fe, t.kids[i], f);
    r.Well? && r.f.live ==> i < |Operands(fe, t.instr)| && Met(Operands(fe, t.instr)[i], r.ty)
  }

  /** Every operand in the tree that control comes out of has exactly the type its consumer wants. */
  predicate Exact(fe: FunEnv, t: Syn, f: Flow)
    decreases t, 1
  {
    match t.instr
    case If =>
      |t.kids| == 2 ==>
        Exact(fe, t.kids[0], f) && ChildExact(fe, t, 0, f)
        && (Judge(fe, t.kids[0], f).Well? ==> Exact(fe, t.kids[1], Judge(fe, t.kids[0], f).f))
    case IfElse =>
      |t.kids| == 3 ==>
        Exact(fe, t.kids[0], f) && ChildExact(fe, t, 0, f)
        && (Judge(fe, t.kids[0], f).Well? ==>
              var f1 := Judge(fe, t.kids[0], f).f;
              Exact(fe, t.kids[1], f1)
              && (Judge(fe, t.kids[1], f1).Well? ==>
                Exact(fe, t.kids[2], Judge(fe, t.kids[1], f1).f.(live := f1.live))))
    case Block(_) => KidsExact(fe, t, 0, Enter(f))
    case Loop(_) => KidsExact(fe, t, 0, Enter(Enter(f)))
    case _ => KidsExact(fe, t, 0, f)
  }

  predicate KidsExact(fe: FunEnv, t: Syn, i: nat, f: Flow)
    requires i <= |t.kids|
    decreases t, 0, |t.kids| - i
  {
    i == |t.kids|
    || (Exact(fe, t.kids[i], f) && ChildExact(fe, t, i, f)
        && (Judge(fe, t.kids[i], f).Well? ==> KidsExact(fe, t, i + 1, Judge(fe, t.kids[i], f).f)))
  }

  predicate AllNoEnds(f: Flow) {
    forall i :: 0 <= i < |f.arrived| ==> NoEnds(f.arrived[i])
  }

  lemma JoinNoEnd(ts: seq<LocalType>)
    requires ts != [] && NoEnds(ts)
    ensures !Join(ts).End?
  {
  }

  /** Where control is dead it stays dead, and nothing arrives. */
  lemma {:induction false} DeadJudge(fe: FunEnv, t: Syn, f: Flow)
    requires !f.live && Judge(fe, t, f).Well?
    ensures var r := Judge(fe, t, f); !r.f.live && r.f.arrived == f.arrived
    decreases t, 1
  {
    hide Fine, Join;
    match t.instr
    case If =>
      DeadJudge(fe, t.kids[0], f);
      DeadJudge(fe, t.kids[1], Judge(fe, t.kids[0], f).f);
    case IfElse =>
      DeadJudge(fe, t.kids[0], f);
      var f1 := Judge(fe, t.kids[0], f).f;
      DeadJudge(fe, t.kids[1], f1);
      DeadJudge(fe, t.kids[2], Judge(fe, t.kids[1], f1).f.(live := f1.live));
    case Block(_) => if t.kids != [] { DeadKids(fe, t, 0, Enter(f)); }
    case Loop(_) => if t.kids != [] { DeadKids(fe, t, 0, Enter(Enter(f))); }
    case Nop =>
    case Unreachable =>
    case Const(_, _) =>
    case GetLocal(_) =>
    case _ => DeadKids(fe, t, 0, f);
  }

  lemma {:induction false} DeadKids(fe: FunEnv, t: Syn, i: nat, f: Flow)
    requires i <= |t.kids| && !f.live && JudgeKids(fe, t, i, f).WellKids?
    ensures var r := JudgeKids(fe, t, i, f); !r.f.live && r.f.arrived == f.arrived
    decreases t, 0, |t.kids| - i
  {
    hide Fine, Judge;
    if i < |t.kids| {
      DeadJudge(fe, t.kids[i], f);
      DeadKids(fe, t, i + 1, Judge(fe, t.kids[i], f).f);
    }
  }

  /** What control comes out of has a type, and only such types arrive anywhere. */
  lemma {:induction false} LiveTyped(fe: FunEnv, t: Syn, f: Flow)
    requires AllNoEnds(f) && Judge(fe, t, f).Well?
    ensures var r := Judge(fe, t, f); AllNoEnds(r.f) && (r.f.live ==> f.live && !r.ty.End?)
    decreases t, 1
  {
    hide Fine, NoEnds, Join;
    if !f.live { DeadJudge(fe, t, f); }
    match t.instr
    case If =>
      LiveTyped(fe, t.kids[0], f);
      LiveTyped(fe, t.kids[1], Judge(fe, t.kids[0], f).f);
    case IfElse => ArmsLiveTyped(fe, t, f);
    case Block(_) => NestLiveTyped(fe, t, f);
    case Loop(_) => NestLiveTyped(fe, t, f);
    case Br(_) => BreakLiveTyped(fe, t, f);
    case BrIf(_) => BreakLiveTyped(fe, t, f);
    case _ => if |t.kids| == Arity(fe, t.instr) { MaybeKids(fe, t, f); }
  }

  lemma {:induction false} ArmsLiveTyped(fe: FunEnv, t: Syn, f: Flow)
    requires t.instr.IfElse? && AllNoEnds(f) && Judge(fe, t, f).Well?
    ensures var r := Judge(fe, t, f); AllNoEnds(r.f) && (r.f.live ==> !r.ty.End?)
    decreases t, 0
  {
    hide Fine, NoEnds, Join;
    LiveTyped(fe, t.kids[0], f);
    var f1 := Judge(fe, t.kids[0], f).f;
    LiveTyped(fe, t.kids[1], f1);
    var r2 := Judge(fe, t.kids[1], f1);
    LiveTyped(fe, t.kids[2], r2.f.(live := f1.live));
    var r3 := Judge(fe, t.kids[2], r2.f.(live := f1.live));
    ArmsNoEnd(r2.f.live, r2.ty, r3.f.live, r3.ty);
  }

  lemma {:induction false} NestLiveTyped(fe: FunEnv, t: Syn, f: Flow)
    requires (t.instr.Block? || t.instr.Loop?) && AllNoEnds(f) && Judge(fe, t, f).Well?
    ensures var r := Judge(fe, t, f); AllNoEnds(r.f) && (r.f.live ==> !r.ty.End?)
    decreases t, 0, |t.kids| + 1
  {
    hide Fine, NoEnds, Join, JudgeKids;
    if t.kids != [] {
      EnterNoEnds(f);
      EnterNoEnds(Enter(f));
      var f0 := if t.instr.Block? then Enter(f) else Enter(Enter(f));
      var k := JudgeKids(fe, t, 0, f0);
      KidsLiveTyping(fe, t, 0, f0);
      var f1 := if t.instr.Block? then k.f else k.f.(arrived := k.f.arrived[..|k.f.arrived| - 1]);
      LeaveNoEnds(f1, k.tys[|k.tys| - 1]);
    }
  }

  lemma {:induction false} BreakLiveTyped(fe: FunEnv, t: Syn, f: Flow)
    requires (t.instr.Br? || t.instr.BrIf?) && AllNoEnds(f) && Judge(fe, t, f).Well?
    ensures var r := Judge(fe, t, f); AllNoEnds(r.f) && (r.f.live ==> !r.ty.End?)
    decreases t, 0, |t.kids| + 1
  {
    hide Fine, NoEnds, Join, JudgeKids;
    KidsLiveTyping(fe, t, 0, f);
    var k := JudgeKids(fe, t, 0, f);
    ArriveNoEnds(k.f, t.instr.depth, k.tys[|k.tys| - 1]);
  }

  lemma {:induction false} MaybeKids(fe: FunEnv, t: Syn, f: Flow)
    requires AllNoEnds(f)
    ensures var k := JudgeKids(fe, t, 0, f);
      k.WellKids? ==> AllNoEnds(k.f) && (k.f.live ==> f.live && forall j :: 0 <= j < |k.tys| ==> !k.tys[j].End?)
    decreases t, 0, |t.kids| + 1
  {
    if JudgeKids(fe, t, 0, f).WellKids? { KidsLiveTyping(fe, t, 0, f); }
  }

  lemma {:induction false} KidsLiveTyping(fe: FunEnv, t: Syn, i: nat, f: Flow)
    requires i <= |t.kids| && AllNoEnds(f) && JudgeKids(fe, t, i, f).WellKids?
    ensures var k := JudgeKids(fe, t, i, f);
      AllNoEnds(k.f) && (k.f.live ==> f.live && forall j :: 0 <= j < |k.tys| ==> !k.tys[j].End?)
    decreases t, 0, |t.kids| - i
  {
    hide Fine, Judge, NoEnds;
    if i < |t.kids| {
      LiveTyped(fe, t.kids[i], f);
      KidsLiveTyping(fe, t, i + 1, Judge(fe, t.kids[i], f).f);
    }
  }

  lemma EnterNoEnds(f: Flow)
    requires AllNoEnds(f)
    ensures AllNoEnds(Enter(f))
  {
  }

  lemma ArmsNoEnd(a: bool, x: LocalType, b: bool, y: LocalType)
    requires (a ==> !x.End?) && (b ==> !y.End?)
    ensures var ts := (if a then [x] else []) + if b then [y] else []; ts != [] ==> !Join(ts).End?
  {
    var ts := (if a then [x] else []) + if b then [y] else [];
    if ts != [] { JoinNoEnd(ts); }
  }

  lemma LeaveNoEnds(f: Flow, ty: LocalType)
    requires AllNoEnds(f) && f.arrived != [] && (f.live ==> !ty.End?)
    ensures var r := Leave(f, ty); AllNoEnds(r.f) && (r.f.live ==> !r.ty.End?)
  {
    var ts := Arrivals(f, ty);
    if ts != [] { JoinNoEnd(ts); }
  }

  lemma ArriveNoEnds(f: Flow, d: nat, ty: LocalType)
    requires AllNoEnds(f) && (f.live ==> !ty.End?)
    ensures AllNoEnds(Arrive(f, d, ty))
  {
  }

  /** An operand that passes and that control comes out of has exactly the type wanted. */
  lemma LiveExact(fe: FunEnv, instr: Instr, i: nat, ty: LocalType)
    requires Fine(fe, instr, i, ty) && !ty.End?
    ensures Met(Operands(fe, instr)[i], ty)
  {
  }

  /** In every well-typed tree every operand that control comes out of has exactly the type its consumer wants. */
  lemma {:induction false} JudgedExact(fe: FunEnv, t: Syn, f: Flow)
    requires AllNoEnds(f) && Judge(fe, t, f).Well?
    ensures Exact(fe, t, f)
    decreases t, 1
  {
    hide Fine, NoEnds, Join, KidsExact;
    match t.instr
    case If =>
      FirstExact(fe, t, f);
      JudgedExact(fe, t.kids[0], f);
      LiveTyped(fe, t.kids[0], f);
      JudgedExact(fe, t.kids[1], Judge(fe, t.kids[0], f).f);
    case IfElse =>
      FirstExact(fe, t, f);
      JudgedExact(fe, t.kids[0], f);
      LiveTyped(fe, t.kids[0], f);
      var f1 := Judge(fe, t.kids[0], f).f;
      JudgedExact(fe, t.kids[1], f1);
      LiveTyped(fe, t.kids[1], f1);
      JudgedExact(fe, t.kids[2], Judge(fe, t.kids[1], f1).f.(live := f1.live));
    case Block(_) => if t.kids != [] { EnterNoEnds(f); } KidsJudgedExact(fe, t, 0, Enter(f));
    case Loop(_) => if t.kids != [] { EnterNoEnds(f); EnterNoEnds(Enter(f)); } KidsJudgedExact(fe, t, 0,
      Enter(Enter(f)));
    case Nop => KidsJudgedExact(fe, t, 0, f);
    case Unreachable => KidsJudgedExact(fe, t, 0, f);
    case Const(_, _) => KidsJudgedExact(fe, t, 0, f);
    case GetLocal(_) => KidsJudgedExact(fe, t, 0, f);
    case _ => KidsJudgedExact(fe, t, 0, f);
  }

  lemma {:induction false} FirstExact(fe: FunEnv, t: Syn, f: Flow)
    requires (t.instr.If? || t.instr.IfElse?) && AllNoEnds(f) && Judge(fe, t, f).Well?
    ensures ChildExact(fe, t, 0, f)
  {
    hide NoEnds;
    LiveTyped(fe, t.kids[0], f);
    var r := Judge(fe, t.kids[0], f);
    if r.f.live { LiveExact(fe, t.instr, 0, r.ty); }
  }

  lemma {:induction false} KidsJudgedExact(fe: FunEnv, t: Syn, i: nat, f: Flow)
    requires i <= |t.kids| && (i < |t.kids| ==> AllNoEnds(f)) && JudgeKids(fe, t, i, f).WellKids?
    ensures KidsExact(fe, t, i, f)
    decreases t, 0, |t.kids| - i
  {
    hide Operands, NoEnds, Judge, Exact;
    if i < |t.kids| {
      JudgedExact(fe, t.kids[i], f);
      LiveTyped(fe, t.kids[i], f);
      var r := Judge(fe, t.kids[i], f);
      if r.f.live { LiveExact(fe, t.instr, i, r.ty); }
      KidsJudgedExact(fe, t, i + 1, r.f);
    }
  }

  // ----- Unfinished trees -----

  datatype Reach = NoReach(stray: bool) | Reach(f: Flow)

  function ReachKids(k: Verdicts): Reach {
    match k
    case IllKids(b) => NoReach(b)
    case WellKids(f, _) => Reach(f)
  }

  /** The flow in which the next arm of an if-else with a condition begins. */
  function SinkArms(fe: FunEnv, o: Open, f: Flow): Reach {
    if |o.kids| <= 1 then Reach(f)
    else
      match Judge(fe, o.kids[1], f)
      case Ill(b) => NoReach(b)
      case Well(f2, _) => Reach(f2.(live := f.live))
  }

  /** The flow in which the next child of an unfinished tree begins. */
  function Sink(fe: FunEnv, o: Open, f: Flow): Reach {
    if !Begins(fe, o.instr, f) then NoReach(f.stray)
    else
      match o.instr
      case Block(_) => ReachKids(JudgeKids(fe, SynOfOpen(o), 0, Enter(f)))
      case Loop(_) => ReachKids(JudgeKids(fe, SynOfOpen(o), 0, Enter(Enter(f))))
      case If =>
        if o.kids == [] then Reach(f)
        else
          (match Judge(fe, o.kids[0], f)
           case Ill(b) => NoReach(b)
           case Well(f1, ty) => if Fine(fe, If, 0, ty) then Reach(f1) else NoReach(f1.stray))
      case IfElse =>
        if o.kids == [] then Reach(f)
        else
          (match Judge(fe, o.kids[0], f)
           case Ill(b) => NoReach(b)
           case Well(f1, ty) => if Fine(fe, IfElse, 0, ty) then SinkArms(fe, o, f1) else NoReach(f1.stray))
      case _ => ReachKids(JudgeKids(fe, SynOfOpen(o), 0, f))
  }

  /** The flow where the code ends. */
  function SinkAll(fe: FunEnv, opens: seq<Open>, f: Flow): Reach
    decreases |opens|
  {
    if opens == [] then Reach(f)
    else
      match Sink(fe, opens[0], f)
      case NoReach(b) => NoReach(b)
      case Reach(f1) => SinkAll(fe, opens[1..], f1)
  }

  ghost predicate DownAgrees(fe: FunEnv, d: Down, r: Reach) {
    match d
    case NoDown(b) => r == NoReach(b)
    case Down(v) => r.Reach? && Fits(v, r.f) && LiveInv(fe, v)
  }

  lemma KidsSink(fe: FunEnv, t: Syn, v: St, f: Flow)
    requires LiveInv(fe, v) && Fits(v, f) && |t.kids| <= Arity(fe, t.instr)
    ensures DownAgrees(fe, DownKids(RunKids(fe, t, 0, v)), ReachKids(JudgeKids(fe, t, 0, f)))
  {
    hide Inv, Fits, RunKids, JudgeKids, LiveInv;
    KidsJudge(fe, t, 0, v, f);
    if RunKids(fe, t, 0, v).KOk? { KidsLive(fe, t, v); }
  }

  lemma ArmsSink(fe: FunEnv, o: Open, v: St, ty: LocalType, c: nat, f: Flow)
    requires o.kids != [] && LiveInv(fe, v) && Fits(v, f) && (v.cur.Go() ==> Typed(v, ty, c))
    requires KidOk(fe, IfElse, 0, ty)
    ensures DownAgrees(fe, DownArms(fe, o, v, c), SinkArms(fe, o, f))
  {
    hide Inv, EntryFits, Run, Judge, MergeInto, BuildBranch;
    ForkLive(fe, IfElse, v, ty, c);
    var v1 := ElseFirst(v, c);
    if |o.kids| > 1 {
      JudgeRuns(fe, o.kids[1], v1, f);
      var a := Run(fe, o.kids[1], v1);
      if a.Ok? { FirstArm(fe, v, c, ty, o.kids[1], a.s.cur.Go()); }
    }
  }

  lemma CondSink(fe: FunEnv, o: Open, v: St, f: Flow)
    requires (o.instr.If? || o.instr.IfElse?) && LiveInv(fe, v) && Fits(v, f)
    ensures DownAgrees(fe, Descend(fe, o, v), Sink(fe, o, f))
  {
    hide Inv, EntryFits, Run, Judge, KidOk, DownArms, SinkArms, BuildBranch, Fine;
    if o.kids != [] {
      JudgeRuns(fe, o.kids[0], v, f);
      var r := Run(fe, o.kids[0], v);
      if r.Ok? { CheckIff(fe, o.instr, 0, r.ty); }
      if r.Ok? && KidOk(fe, o.instr, 0, r.ty) {
        RunLive(fe, o.kids[0], v);
        var f1 := Judge(fe, o.kids[0], f).f;
        if o.instr.If? { ForkLive(fe, If, r.s, r.ty, r.node); } else { ArmsSink(fe, o, r.s, r.ty, r.node, f1); }
      }
    }
  }

  lemma SinkDescends(fe: FunEnv, o: Open, v: St, f: Flow)
    requires LiveInv(fe, v) && Fits(v, f) && Unfinished(fe, o)
    ensures DownAgrees(fe, Descend(fe, o, v), Sink(fe, o, f))
  {
    hide Inv, EntryFits, RunKids, JudgeKids, EnterBlock, EnterLoop, LiveInv, DownAgrees;
    if o.instr.If? || o.instr.IfElse? {
      CondSink(fe, o, v, f);
    } else if Begins(fe, o.instr, f) {
      SinkIs(fe, o, v, f);
      EnterFits(fe, v, f);
      EnterLive(fe, v);
      var t := SynOfOpen(o);
      if o.instr.Block? { KidsSink(fe, t, EnterBlock(v), Enter(f)); }
      else if o.instr.Loop? { KidsSink(fe, t, EnterLoop(fe, v), Enter(Enter(f))); }
      else { KidsSink(fe, t, v, f); }
    } else {
      SinkIs(fe, o, v, f);
      CannotBegin(fe, v, f);
    }
  }

  lemma CannotBegin(fe: FunEnv, v: St, f: Flow)
    requires Fits(v, f)
    ensures DownAgrees(fe, NoDown(v.log.stray), NoReach(f.stray))
  {
  }

  lemma SinkIs(fe: FunEnv, o: Open, v: St, f: Flow)
    requires Fits(v, f) && !o.instr.If? && !o.instr.IfElse?
    ensures !Begins(fe, o.instr, f) ==> Descend(fe, o, v) == NoDown(v.log.stray) && Sink(fe, o, f) == NoReach(f.stray)
    ensures Begins(fe, o.instr, f) ==>
      var w := if o.instr.Block? then EnterBlock(v) else if o.instr.Loop? then EnterLoop(fe, v) else v;
      var e := if o.instr.Block? then Enter(f) else if o.instr.Loop? then Enter(Enter(f)) else f;
      && Descend(fe, o, v) == DownKids(RunKids(fe, SynOfOpen(o), 0, w))
      && Sink(fe, o, f) == ReachKids(JudgeKids(fe, SynOfOpen(o), 0, e))
  {
    hide RunKids, JudgeKids, EnterBlock, EnterLoop;
  }

  /** Unfinished trees: the construction reaches the end of the code exactly when the rules do. */
  lemma {:induction false} SinkAllDescends(fe: FunEnv, opens: seq<Open>, v: St, f: Flow)
    requires LiveInv(fe, v) && Fits(v, f) && forall i :: 0 <= i < |opens| ==> Unfinished(fe, opens[i])
    ensures DownAgrees(fe, DescendAll(fe, opens, v), SinkAll(fe, opens, f))
    decreases |opens|
  {
    hide Inv, Fits, Descend, Sink;
    if opens != [] {
      SinkDescends(fe, opens[0], v, f);
      var d := Descend(fe, opens[0], v);
      if d.Down? { SinkAllDescends(fe, opens[1..], d.v, Sink(fe, opens[0], f).f); }
    }
  }

  /** Every operand in an unfinished tree that control comes out of has exactly the type its consumer wants. */
  predicate OpenExact(fe: FunEnv, o: Open, f: Flow) {
    var t := SynOfOpen(o);
    match o.instr
    case If | IfElse =>
      o.kids != [] ==>
        Exact(fe, o.kids[0], f) && ChildExact(fe, t, 0, f)
        && (|o.kids| > 1 && Judge(fe, o.kids[0], f).Well? ==> Exact(fe, o.kids[1], Judge(fe, o.kids[0], f).f))
    case Block(_) => KidsExact(fe, t, 0, Enter(f))
    case Loop(_) => KidsExact(fe, t, 0, Enter(Enter(f)))
    case _ => KidsExact(fe, t, 0, f)
  }

  predicate OpensExact(fe: FunEnv, opens: seq<Open>, f: Flow)
    decreases |opens|
  {
    opens == []
    || (OpenExact(fe, opens[0], f) && (Sink(fe, opens[0], f).Reach? ==>
      OpensExact(fe, opens[1..], Sink(fe, opens[0], f).f)))
  }

  lemma KidsSunkExact(fe: FunEnv, t: Syn, f: Flow)
    requires AllNoEnds(f) && JudgeKids(fe, t, 0, f).WellKids?
    ensures KidsExact(fe, t, 0, f) && AllNoEnds(JudgeKids(fe, t, 0, f).f)
  {
    hide NoEnds, JudgeKids, KidsExact;
    KidsJudgedExact(fe, t, 0, f);
    KidsLiveTyping(fe, t, 0, f);
  }

  lemma CondExact(fe: FunEnv, o: Open, f: Flow)
    requires (o.instr.If? || o.instr.IfElse?) && |o.kids| < Arity(fe, o.instr) && AllNoEnds(f) && Sink(fe, o, f).Reach?
    ensures OpenExact(fe, o, f) && AllNoEnds(Sink(fe, o, f).f)
  {
    hide NoEnds, Judge, Exact;
    if o.kids != [] {
      JudgedExact(fe, o.kids[0], f);
      LiveTyped(fe, o.kids[0], f);
      var r := Judge(fe, o.kids[0], f);
      if r.f.live { LiveExact(fe, o.instr, 0, r.ty); }
      if |o.kids| > 1 {
        JudgedExact(fe, o.kids[1], r.f);
        LiveTyped(fe, o.kids[1], r.f);
      }
    }
  }

  lemma SinkExact(fe: FunEnv, o: Open, f: Flow)
    requires Unfinished(fe, o) && AllNoEnds(f) && Sink(fe, o, f).Reach?
    ensures OpenExact(fe, o, f) && AllNoEnds(Sink(fe, o, f).f)
  {
    hide NoEnds, Judge, Exact, JudgeKids, KidsExact, AllNoEnds;
    if o.instr.If? || o.instr.IfElse? {
      CondExact(fe, o, f);
    } else {
      EnterNoEnds(f);
      EnterNoEnds(Enter(f));
      KidsSunkExact(fe, SynOfOpen(o), if o.instr.Block? then Enter(f) else if o.instr.Loop? then Enter(Enter(f))
          else f);
    }
  }

  lemma {:induction false} SinkAllExact(fe: FunEnv, opens: seq<Open>, f: Flow)
    requires (forall i :: 0 <= i < |opens| ==> Unfinished(fe, opens[i])) && AllNoEnds(f) && SinkAll(fe, opens, f).Reach?
    ensures OpensExact(fe, opens, f)
    decreases |opens|
  {
    hide NoEnds, Sink, OpenExact, Unfinished, AllNoEnds;
    if opens != [] {
      SinkExact(fe, opens[0], f);
      SinkAllExact(fe, opens[1..], Sink(fe, opens[0], f).f);
    }
  }
}
