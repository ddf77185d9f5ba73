/** Bodies that end in the middle of a tree: the trees that are finished, the productions that are not, and
    the state of the construction where the code ends. */
module CutOff {
  import opened Syntax
  import opened Graph
  import opened Ssa
  import opened SsaInvariant
  import opened SsaRun
  import opened Leb128
  import opened Opcodes
  import opened Lr
  import opened LrParse
  import opened LrSsa

  /** An unfinished tree: the children it has. The next unfinished tree is its next child. */
  datatype Open = Open(instr: Instr, pc: nat, len: nat, kids: seq<Syn>)

  /** Unfinished trees, outermost first; `torn` when an instruction that cannot be read comes next. */
  datatype Spine = Spine(opens: seq<Open>, torn: bool)

  /** What any code is: whole trees, then unfinished ones. */
  datatype Forest = Forest(trees: seq<Syn>, spine: Spine)

  /** Whole trees as long as there are any. */
  function ParseKids(menv: ModuleEnv, fe: FunEnv, code: seq<byte>, pc: nat): (r: (seq<Syn>, nat))
    requires pc <= |code|
    ensures pc <= r.1 <= |code|
    decreases |code| - pc
  {
    match Parse(menv, fe, code, pc)
    case NoParse => ([], pc)
    case Parsed(t, mid) =>
      var (ts, end) := ParseKids(menv, fe, code, mid);
      ([t] + ts, end)
  }

  function ParseSpine(menv: ModuleEnv, fe: FunEnv, code: seq<byte>, pc: nat): Spine
    requires pc <= |code|
    decreases |code| - pc
  {
    if pc == |code| then Spine([], false)
    else
      match Fetch(menv, code, pc)
      case Bad => Spine([], true)
      case Got(instr, len) =>
        var (kids, end) := ParseKids(menv, fe, code, pc + len);
        var rest := ParseSpine(menv, fe, code, end);
        Spine([Open(instr, pc, len, kids)] + rest.opens, rest.torn)
  }

  function ParseForest(menv: ModuleEnv, fe: FunEnv, code: seq<byte>): Forest {
    var (trees, end) := ParseKids(menv, fe, code, 0);
    Forest(trees, ParseSpine(menv, fe, code, end))
  }

  // ----- The construction -----

  datatype Down = NoDown(stray: bool) | Down(v: St)

  function DownKids(k: Kids): Down {
    match k
    case KErr(b) => NoDown(b)
    case KOk(v, _, _) => Down(v)
  }

  function SynOfOpen(o: Open): Syn {
    Syn(o.instr, o.pc, o.len, o.kids)
  }

  /** The condition of an if is decoded: the state its first arm begins in. */
  function IfArm(v: St, c: nat): St {
    var (g, tc, fc) := Forks(v.g, v.cur, c);
    St(g, Split(v.cur).(control := tc), v.blocks, v.log)
  }

  function ElseFirst(v: St, c: nat): St {
    var (g, tc, fc) := ElseForks(v.g, v.cur, c);
    St(g, Stolen(v.cur).(control := tc), v.blocks, v.log)
  }

  /** The first arm of an if-else is decoded: the state its second arm begins in. */
  function ElseSecond(fe: FunEnv, v: St, c: nat, r: Res): St
    requires r.Ok?
  {
    var (g, tc, fc) := ElseForks(v.g, v.cur, c);
    St(MergeInto(fe, r.s.g, r.s.cur, NewTarget(v.cur), r.ty, r.node).0, Split(v.cur).(control := fc), r.s.blocks,
        r.s.log)
  }

  /** An if-else whose condition is decoded: the state its next arm begins in. */
  function DownArms(fe: FunEnv, o: Open, v: St, c: nat): Down
    requires o.kids != []
  {
    if |o.kids| == 1 then Down(ElseFirst(v, c))
    else
      match Run(fe, o.kids[1], ElseFirst(v, c))
      case Err(b) => NoDown(b)
      case Ok(v2, ty2, n2) => Down(ElseSecond(fe, v, c, Ok(v2, ty2, n2)))
  }

  /** The state in which the next child of an unfinished tree is decoded. */
  function Descend(fe: FunEnv, o: Open, v: St): Down {
    if !Shifts(fe, o.instr, v) then NoDown(v.log.stray)
    else
      match o.instr
      case Block(_) => DownKids(RunKids(fe, SynOfOpen(o), 0, EnterBlock(v)))
      case Loop(_) => DownKids(RunKids(fe, SynOfOpen(o), 0, EnterLoop(fe, v)))
      case If =>
        if o.kids == [] then Down(v)
        else
          (match Run(fe, o.kids[0], v)
           case Err(b) => NoDown(b)
           case Ok(v1, ty, c) => if KidOk(fe, If, 0, ty) then Down(IfArm(v1, c)) else NoDown(v1.log.stray))
      case IfElse =>
        if o.kids == [] then Down(v)
        else
          (match Run(fe, o.kids[0], v)
           case Err(b) => NoDown(b)
           case Ok(v1, ty, c) =>
             if KidOk(fe, IfElse, 0, ty) then DownArms(fe, o, v1, c) else NoDown(v1.log.stray))
      case _ => DownKids(RunKids(fe, SynOfOpen(o), 0, v))
  }

  /** The state where the code ends. */
  function DescendAll(fe: FunEnv, opens: seq<Open>, v: St): Down
    decreases |opens|
  {
    if opens == [] then Down(v)
    else
      match Descend(fe, opens[0], v)
      case NoDown(b) => NoDown(b)
      case Down(v1) => DescendAll(fe, opens[1..], v1)
  }

  predicate Unfinished(fe: FunEnv, o: Open) {
    |o.kids| < Arity(fe, o.instr) && !o.instr.Cut? && forall i :: 0 <= i < |o.kids| ==> Whole(o.kids[i])
  }

  // ----- The decoder -----

  /** The decoder is in the middle of a tree where the construction is in v. */
  ghost predicate Holds(s: State, v: St) {
    Distinct(s) && Rel(s, v)
  }

  /** A run of the decoder and a descent of the construction agree. */
  ghost predicate Follows(r: Step, d: Down) {
    match d
    case NoDown(b) => r == Fail(b)
    case Down(v) => r.Next? && Holds(r.s, v)
  }

  /** Trees that parse one after another are whole, and fewer than a tree that does not parse would take. */
  lemma {:induction false} KidsWhole(menv: ModuleEnv, fe: FunEnv, code: seq<byte>, pc: nat, n: nat)
    requires pc <= |code| && ParseMany(menv, fe, code, pc, n).NoParses?
    ensures var (ts, end) := ParseKids(menv, fe, code, pc);
      |ts| < n && (forall i :: 0 <= i < |ts| ==> Whole(ts[i])) && Parse(menv, fe, code, end).NoParse?
    decreases |code| - pc
  {
    hide Parse;
    var p := Parse(menv, fe, code, pc);
    if p.Parsed? {
      ParseWhole(menv, fe, code, pc);
      KidsWhole(menv, fe, code, p.end, n - 1);
    }
  }

  /** Decoding the children of an unfinished tree is running and attaching them. */
  lemma {:induction false} KidsDecode(menv: ModuleEnv, fe: FunEnv, code: seq<byte>, pc: nat, t: Syn, i: nat, s: State)
    requires pc <= |code| && i <= |t.kids| < Arity(fe, t.instr) && ParseKids(menv, fe, code, pc).0 == t.kids[i..]
    requires s.stack != [] && s.stack[|s.stack| - 1].instr == t.instr && |s.stack[|s.stack| - 1].kids| == i
    ensures DecodeFrom(menv, fe, code, pc, s)
      == (match RunChildren(fe, t, i, s)
          case Fail(b) => Fail(b)
          case Next(s2) => DecodeFrom(menv, fe, code, ParseKids(menv, fe, code, pc).1, s2))
    decreases |code| - pc
  {
    hide Parse, RunTree, Attach, Arity;
    var p := Parse(menv, fe, code, pc);
    if p.Parsed? {
      DecodeTree(menv, fe, code, pc, s);
      assert p.tree == t.kids[i..][0] == t.kids[i] && t.kids[i..][1..] == t.kids[i + 1..];
      var r := RunTree(fe, p.tree, s);
      if r.TOk? {
        RunTreeShape(fe, p.tree, s);
        var a := Attach(fe, r.s, r.tree);
        if a.Next? {
          AttachShape(fe, r.s, r.tree);
          KidsDecode(menv, fe, code, p.end, t, i + 1, a.s);
        }
      }
    } else {
      assert t.kids[i..] == [];
    }
  }

  /** The machine's side of a descent. */
  function OpenStep(fe: FunEnv, o: Open, s: State): Step {
    match Shift(fe, s, o.instr, o.pc, o.len)
    case Fail(b) => Fail(b)
    case Next(s1) => RunChildren(fe, SynOfOpen(o), 0, s1)
  }

  /** Where no whole tree follows, there is an unfinished one, and no whole tree after its children. */
  lemma OpenParses(menv: ModuleEnv, fe: FunEnv, code: seq<byte>, pc: nat)
    requires pc < |code| && Parse(menv, fe, code, pc).NoParse? && Fetch(menv, code, pc).Got?
    ensures Arity(fe, Fetch(menv, code, pc).instr) > 0
    ensures var sp := ParseSpine(menv, fe, code, pc);
      && sp.opens != [] && Unfinished(fe, sp.opens[0])
      && var Got(instr, len) := Fetch(menv, code, pc);
         var (kids, end) := ParseKids(menv, fe, code, pc + len);
      && sp.opens[0] == Open(instr, pc, len, kids) && pc < end <= |code| && Parse(menv, fe, code, end).NoParse?
      && ParseSpine(menv, fe, code, end) == Spine(sp.opens[1..], sp.torn)
  {
    hide Arity, Fetch;
    FetchWhole(menv, code, pc);
    var Got(instr, len) := Fetch(menv, code, pc);
    KidsWhole(menv, fe, code, pc + len, Arity(fe, instr));
  }

  lemma OpenDecodes(menv: ModuleEnv, fe: FunEnv, code: seq<byte>, pc: nat, s: State)
    requires pc < |code| && Parse(menv, fe, code, pc).NoParse? && Fetch(menv, code, pc).Got?
    ensures ParseSpine(menv, fe, code, pc).opens != []
    ensures var Got(instr, len) := Fetch(menv, code, pc);
      DecodeFrom(menv, fe, code, pc, s)
      == (match OpenStep(fe, ParseSpine(menv, fe, code, pc).opens[0], s)
          case Fail(b) => Fail(b)
          case Next(s1) => DecodeFrom(menv, fe, code, ParseKids(menv, fe, code, pc + len).1, s1))
  {
    hide Arity, Shift, RunChildren, Leaf, Fetch, ReduceTree, Parse, ParseKids, ParseSpine;
    OpenParses(menv, fe, code, pc);
    var Got(instr, len) := Fetch(menv, code, pc);
    var (kids, end) := ParseKids(menv, fe, code, pc + len);
    var o := Open(instr, pc, len, kids);
    var r := Shift(fe, s, instr, pc, len);
    if r.Next? {
      ShiftShape(fe, s, instr, pc, len);
      assert SynOfOpen(o).kids[0..] == kids;
      KidsDecode(menv, fe, code, pc + len, SynOfOpen(o), 0, r.s);
    }
  }

  /** Children of a plain tree that is not complete. */
  lemma {:induction false} PlainKids(fe: FunEnv, t: Syn, i: nat, s: State, v: St, q: nat)
    requires Plain(t.instr) && i <= |t.kids| < Arity(fe, t.instr) && forall j :: 0 <= j < |t.kids| ==> Whole(t.kids[j])
    requires Holds(s, v) && Waiting(fe, t.instr, s, q, i)
    ensures Follows(RunChildren(fe, t, i, s), DownKids(RunKids(fe, t, i, v)))
    decreases |t.kids| - i
  {
    hide Run, RunTree, Attach, KidOk, Arity, KeptBut, Rel, Distinct, Waiting, Grown;
    if i < |t.kids| {
      RunTreeRel(fe, t.kids[i], s, v);
      var w := Run(fe, t.kids[i], v);
      if w.Ok? {
        var TOk(s1, tree) := RunTree(fe, t.kids[i], s);
        KeptDistinct(s, s1, -1);
        WaitingKept(fe, t.instr, s, s1, q, i);
        OnTop(fe, t.instr, s1, q, i);
        SameStray(s1, w.s);
        ChildRel(fe, t.instr, s1, w.s, q, i, tree);
        if KidOk(fe, t.instr, i, w.ty) {
          PlainKids(fe, t, i + 1, Attach(fe, s1, tree).s, w.s, q);
        }
      }
    }
  }

  /** The condition of an if or if-else is decoded and attached. */
  lemma CondRel(fe: FunEnv, o: Open, s: State, v: St) returns (h: State)
    requires (o.instr.If? || o.instr.IfElse?) && o.kids != [] && Whole(o.kids[0]) && Holds(s, v)
    ensures var q := |s.stack|;
      var s1 := s.(stack := s.stack + [Production(o.instr, o.pc, o.len, InitialType(fe, o.instr), 0, [])]);
      match Run(fe, o.kids[0], v)
      case Err(b) => RunTree(fe, o.kids[0], s1) == TFail(b)
      case Ok(v1, ty, c) =>
        var r := RunTree(fe, o.kids[0], s1);
        && r.TOk? && r.s.stack != [] && h == Hang(r.s, r.tree) && Holds(h, v1) && |h.stack| == q + 1 && !IsDepth(h, q)
        && h.stack[q] == s1.stack[q].(kids := [r.tree]) && r.tree.ty == ty && r.tree.node == c
        && Attach(fe, r.s, r.tree) == Reduce(fe, h)
  {
    hide Run, RunTree, KeptBut, Distinct, Rel, Reduce, KidOk, InitialType, Waiting, Fresh;
    var t := SynOfOpen(o);
    var s1 := s.(stack := s.stack + [Production(o.instr, o.pc, o.len, InitialType(fe, o.instr), 0, [])]);
    ShiftRel(fe, t, s, v);
    RunTreeRel(fe, o.kids[0], s1, v);
    h := s;
    var w := Run(fe, o.kids[0], v);
    if w.Ok? {
      var r := RunTree(fe, o.kids[0], s1);
      HungRel(s1, |s.stack|, r.s, r.tree, w.s);
      h := Hang(r.s, r.tree);
      assert [] + [r.tree] == [r.tree];
    }
  }

  lemma IfOpen(fe: FunEnv, o: Open, s: State, v: St)
    requires o.instr.If? && Unfinished(fe, o) && Holds(s, v)
    ensures Follows(OpenStep(fe, o, s), Descend(fe, o, v))
  {
    hide Run, RunTree, KeptBut, Distinct, Rel, Reduce, KidOk, InitialType, Waiting, Fresh, ReduceIf, BuildBranch, Split;
    ShiftRel(fe, SynOfOpen(o), s, v);
    if o.kids != [] {
      var h := CondRel(fe, o, s, v);
      var w := Run(fe, o.kids[0], v);
      if w.Ok? {
        IfReduces(fe, h);
        IfOpenRel(fe, h, w.s, |s.stack|);
        SameStray(h, w.s);
        var t := SynOfOpen(o);
        assert |t.kids| == 1 && forall x: State :: RunChildren(fe, t, 1, x) == Next(x);
      }
    }
  }

  lemma IfElseOpen(fe: FunEnv, o: Open, s: State, v: St)
    requires o.instr.IfElse? && Unfinished(fe, o) && Holds(s, v)
    ensures Follows(OpenStep(fe, o, s), Descend(fe, o, v))
  {
    hide Run, RunTree, KeptBut, Distinct, Rel, Reduce, KidOk, Waiting, Fresh, ReduceIfElse, ElseForks, Split, Stolen;
    ShiftRel(fe, SynOfOpen(o), s, v);
    if o.kids != [] {
      var h := CondRel(fe, o, s, v);
      var w := Run(fe, o.kids[0], v);
      if w.Ok? {
        IfReduces(fe, h);
        SameStray(h, w.s);
        assert InitialType(fe, o.instr) == End;
        ElseOpenRel(fe, h, w.s, |s.stack|);
        if KidOk(fe, IfElse, 0, w.ty) { SecondOpen(fe, o, h, w.s, |s.stack|); }
      }
    }
  }

  lemma SecondOpen(fe: FunEnv, o: Open, h: State, v: St, q: nat)
    requires o.instr.IfElse? && Unfinished(fe, o) && o.kids != [] && Holds(h, v) && |h.stack| == q + 1 && !IsDepth(h, q)
    requires h.stack[q].instr.IfElse? && |h.stack[q].kids| == 1 && h.stack[q].ty == End && h.stack[q].node == 0
    ensures ReduceIfElse(fe, h).Next?
    ensures Follows(RunChildren(fe, SynOfOpen(o), 1, ReduceIfElse(fe, h).s),
      DownArms(fe, o, v, h.stack[q].kids[0].node))
  {
    hide Run, RunTree, KeptBut, Distinct, Rel, Reduce, ReduceIfElse, ElseForks, Split, Stolen, MergeInto,
         MergeIntoProduction, NewTarget;
    ElseOpenRel(fe, h, v, q);
    var t, c := SynOfOpen(o), h.stack[q].kids[0].node;
    var r := ReduceIfElse(fe, h).s;
    if |o.kids| == 2 {
      assert !IsDepth(r, q) by { Unchanged(h, r.(cur := h.cur, ifs := h.ifs), q); }
      var vB := ElseFirst(v, c);
      RunTreeRel(fe, o.kids[1], r, vB);
      var w := Run(fe, o.kids[1], vB);
      if w.Ok? {
        var TOk(s2, tree) := RunTree(fe, o.kids[1], r);
        HungRel(r, q, s2, tree, w.s);
        var h2 := Hang(s2, tree);
        AwayRun(h, r, h2, q);
        assert |h2.zone| >= |r.zone| by { Unchanged(r, h2, q); }
        assert h.cur < |h.zone| by { CurOk(h); }
        MeetRel(fe, h, h2, w.s, q, NewTarget(v.cur), tree, |h.zone|);
        ElseReduce(fe, h2);
        assert Attach(fe, s2, tree) == Reduce(fe, h2);
        assert forall x: State :: RunChildren(fe, t, 2, x) == Next(x);
      }
    }
  }

  /** An unfinished tree: the decoder and the construction agree on the state its next child begins in. */
  lemma OpenRel(fe: FunEnv, o: Open, s: State, v: St)
    requires Unfinished(fe, o) && Holds(s, v)
    ensures Follows(OpenStep(fe, o, s), Descend(fe, o, v))
  {
    hide RunKids, RunChildren, KeptBut, Distinct, BlockRel, Waiting, Fresh, EnterBlock, EnterLoop, Entered, Run, IfArm,
         DownArms;
    var t, q := SynOfOpen(o), |s.stack|;
    if o.instr.If? {
      IfOpen(fe, o, s, v);
    } else if o.instr.IfElse? {
      IfElseOpen(fe, o, s, v);
    } else if o.instr.Block? {
      EnterBlockRel(fe, t, s, v);
      PlainKids(fe, t, 0, Shift(fe, s, t.instr, t.pc, t.len).s, EnterBlock(v), q);
    } else if o.instr.Loop? {
      EnterLoopRel(fe, t, s, v);
      PlainKids(fe, t, 0, Shift(fe, s, t.instr, t.pc, t.len).s, EnterLoop(fe, v), q);
    } else {
      var r := Shift(fe, s, t.instr, t.pc, t.len);
      if r.Next? {
        ShiftRel(fe, t, s, v);
        PlainKids(fe, t, 0, r.s, v, q);
      }
    }
  }

  /** From where no whole tree follows: the decoder and the construction agree on the state where the code
      ends, or on the failure. */
  lemma {:induction false} SpineRel(menv: ModuleEnv, fe: FunEnv, code: seq<byte>, pc: nat, s: State, v: St)
    requires pc <= |code| && Parse(menv, fe, code, pc).NoParse? && Holds(s, v)
    ensures var sp := ParseSpine(menv, fe, code, pc);
      var d := DescendAll(fe, sp.opens, v);
      Follows(DecodeFrom(menv, fe, code, pc, s), if d.Down? && sp.torn then NoDown(d.v.log.stray) else d)
    decreases |code| - pc
  {
    hide Parse, Rel, Distinct, Descend, OpenStep, Fetch, ParseSpine, ParseKids, DecodeFrom;
    SpineBase(menv, fe, code, pc, s);
    SameStray(s, v);
    if pc < |code| && Fetch(menv, code, pc).Got? {
      OpenParses(menv, fe, code, pc);
      OpenDecodes(menv, fe, code, pc, s);
      var o := ParseSpine(menv, fe, code, pc).opens[0];
      OpenRel(fe, o, s, v);
      var d := Descend(fe, o, v);
      if d.Down? {
        var Got(instr, len) := Fetch(menv, code, pc);
        SpineRel(menv, fe, code, ParseKids(menv, fe, code, pc + len).1, OpenStep(fe, o, s).s, d.v);
      }
    }
  }

  lemma SpineBase(menv: ModuleEnv, fe: FunEnv, code: seq<byte>, pc: nat, s: State)
    requires pc <= |code|
    ensures pc == |code| ==>
      ParseSpine(menv, fe, code, pc) == Spine([], false) && DecodeFrom(menv, fe, code, pc, s) == Next(s)
    ensures pc < |code| && Fetch(menv, code, pc).Bad? ==>
      ParseSpine(menv, fe, code, pc) == Spine([], true) && DecodeFrom(menv, fe, code, pc, s) == Fail(s.strayed)
  {
    hide Fetch;
  }

  // ----- Unfinished trees as trees -----

  /** Where the code ends. */
  function EndMark(): Syn {
    Syn(Cut(Nop, 0), 0, 0, [])
  }

  function EndMarks(n: nat): (ts: seq<Syn>)
    ensures |ts| == n && forall i :: 0 <= i < n ==> ts[i] == EndMark()
  {
    if n == 0 then [] else [EndMark()] + EndMarks(n - 1)
  }

  predicate Nests(instr: Instr) {
    instr.Block? || instr.Loop? || instr.If? || instr.IfElse?
  }

  /** An unfinished tree whose next child is `inner`: what control finds after it is that the code ends. */
  function Wrap(fe: FunEnv, o: Open, inner: Syn): Syn
    requires |o.kids| < Arity(fe, o.instr)
  {
    if Nests(o.instr) then Syn(Cut(Nop, 1), o.pc, o.len, [Filled(fe, o, inner)])
    else Syn(Cut(o.instr, |o.kids| + 1), o.pc, o.len, o.kids + [inner])
  }

  function Filled(fe: FunEnv, o: Open, inner: Syn): Syn
    requires |o.kids| < Arity(fe, o.instr)
  {
    Syn(o.instr, o.pc, o.len, o.kids + [inner] + EndMarks(Arity(fe, o.instr) - |o.kids| - 1))
  }

  function Close(fe: FunEnv, opens: seq<Open>): (t: Syn)
    requires forall i :: 0 <= i < |opens| ==> Unfinished(fe, opens[i])
    ensures t.instr.Cut?
    decreases |opens|
  {
    if opens == [] then EndMark() else assert Unfinished(fe, opens[0]); Wrap(fe, opens[0], Close(fe, opens[1..]))
  }

  /** The block entries that are open before a tree are open after it. */
  lemma {:induction false} RunBlocks(fe: FunEnv, t: Syn, s: St)
    requires Run(fe, t, s).Ok?
    ensures |Run(fe, t, s).s.blocks| == |s.blocks|
    decreases t, 1
  {
    hide MergeInto, BuildOp, BuildBranch, Goto, PrepareForLoop, KidOk;
    match t.instr
    case SetLocal(_) => KidsBlocks(fe, t, 0, s);
    case Apply(_) => KidsBlocks(fe, t, 0, s);
    case Return => KidsBlocks(fe, t, 0, s);
    case Br(_) => KidsBlocks(fe, t, 0, s);
    case BrIf(_) => KidsBlocks(fe, t, 0, s);
    case Select => KidsBlocks(fe, t, 0, s);
    case Cut(_, _) => KidsBlocks(fe, t, 0, s);
    case Block(_) => if t.kids != [] { KidsBlocks(fe, t, 0, EnterBlock(s)); }
    case Loop(_) => if t.kids != [] { KidsBlocks(fe, t, 0, EnterLoop(fe, s)); }
    case If =>
      RunBlocks(fe, t.kids[0], s);
      var Ok(s1, ty, c) := Run(fe, t.kids[0], s);
      IfIsRest(fe, t, s);
      RunBlocks(fe, t.kids[1], IfArm(s1, c));
    case IfElse =>
      RunBlocks(fe, t.kids[0], s);
      var Ok(s1, ty, c) := Run(fe, t.kids[0], s);
      IfElseIsRest(fe, t, s);
      RunBlocks(fe, t.kids[1], ElseFirst(s1, c));
      RunBlocks(fe, t.kids[2], ElseSecond(fe, s1, c, Run(fe, t.kids[1], ElseFirst(s1, c))));
    case _ =>
  }

  lemma {:induction false} KidsBlocks(fe: FunEnv, t: Syn, i: nat, s: St)
    requires i <= |t.kids| && RunKids(fe, t, i, s).KOk?
    ensures |RunKids(fe, t, i, s).s.blocks| == |s.blocks|
    decreases t, 0, |t.kids| - i
  {
    hide Run, KidOk;
    if i < |t.kids| {
      RunBlocks(fe, t.kids[i], s);
      KidsBlocks(fe, t, i + 1, Run(fe, t.kids[i], s).s);
    }
  }

  /** Two trees check their first children alike. */
  predicate SameChecks(fe: FunEnv, t: Syn, t': Syn) {
    t.kids <= t'.kids && forall j, ty :: 0 <= j < |t.kids| ==> KidOk(fe, t.instr, j, ty) == KidOk(fe, t'.instr, j, ty)
  }

  /** More children: the first ones are run as before. */
  lemma {:induction false} KidsPrefix(fe: FunEnv, t: Syn, t': Syn, i: nat, v: St)
    requires SameChecks(fe, t, t') && i <= |t.kids|
    ensures match RunKids(fe, t, i, v)
      case KErr(b) => RunKids(fe, t', i, v) == KErr(b)
      case KOk(v1, tys, nodes) =>
        match RunKids(fe, t', |t.kids|, v1)
        case KErr(b) => RunKids(fe, t', i, v) == KErr(b)
        case KOk(v2, tys', nodes') => RunKids(fe, t', i, v) == KOk(v2, tys + tys', nodes + nodes')
    decreases |t.kids| - i
  {
    hide Run, KidOk;
    if i < |t.kids| {
      var w := Run(fe, t.kids[i], v);
      assert t'.kids[i] == t.kids[i];
      if w.Ok? && KidOk(fe, t.instr, i, w.ty) {
        KidsPrefix(fe, t, t', i + 1, w.s);
        var k := RunKids(fe, t, i + 1, w.s);
        if k.KOk? {
          var k' := RunKids(fe, t', |t.kids|, k.s);
          if k'.KOk? {
            assert [w.ty] + (k.tys + k'.tys) == [w.ty] + k.tys + k'.tys
                && [w.node] + (k.nodes + k'.nodes) == [w.node] + k.nodes + k'.nodes;
          }
        }
      }
    } else {
      var k' := RunKids(fe, t', |t.kids|, v);
      if k'.KOk? { assert [] + k'.tys == k'.tys && [] + k'.nodes == k'.nodes; }
    }
  }

  /** Dead states with the same graph, block entries and stray stores. */
  predicate DeadLike(v: St, w: St) {
    !v.cur.Go() && !w.cur.Go() && w.g == v.g && w.blocks == v.blocks && w.log == v.log
  }

  /** Nothing happens past the end of the code. */
  lemma {:induction false} MarksRun(fe: FunEnv, t: Syn, i: nat, v: St)
    requires i <= |t.kids| && !v.cur.Go()
    requires forall j :: i <= j < |t.kids| ==> t.kids[j] == EndMark() && KidOk(fe, t.instr, j, End)
    ensures var k := RunKids(fe, t, i, v); k.KOk? && DeadLike(v, k.s)
    decreases |t.kids| - i
  {
    hide KidOk;
    if i < |t.kids| {
      var e := EndMark();
      assert RunKids(fe, e, 0, v) == KOk(v, [], []);
      assert Run(fe, e, v) == Ok(Abandon(v), End, 0);
      MarksRun(fe, t, i + 1, Abandon(v));
    }
  }

  /** The open child and what would come after it. */
  lemma TailRuns(fe: FunEnv, t: Syn, n: nat, v: St)
    requires n < |t.kids| && t.kids[n].instr.Cut?
    requires forall j :: n <= j < |t.kids| ==> KidOk(fe, t.instr, j, End)
    requires forall j :: n < j < |t.kids| ==> t.kids[j] == EndMark()
    ensures match Run(fe, t.kids[n], v)
      case Err(b) => RunKids(fe, t, n, v) == KErr(b)
      case Ok(v1, _, _) => var k := RunKids(fe, t, n, v); k.KOk? && DeadLike(v1, k.s)
  {
    hide KidOk;
    var w := Run(fe, t.kids[n], v);
    if w.Ok? {
      assert w.ty == End && !w.s.cur.Go();
      MarksRun(fe, t, n + 1, w.s);
    }
  }

  /** The same graph and the same stray stores, in a dead state. */
  ghost predicate Ends(r: Res, d: Down) {
    match d
    case NoDown(b) => r == Err(b)
    case Down(v) => r.Ok? && !r.s.cur.Go() && r.s.g == v.g && r.s.log.stray == v.log.stray
  }

  function Inner(fe: FunEnv, inner: Syn, d: Down): Down {
    match d
    case NoDown(b) => NoDown(b)
    case Down(v) =>
      match Run(fe, inner, v)
      case Err(b) => NoDown(b)
      case Ok(v1, _, _) => Down(v1)
  }

  /** One child, then the code ends. */
  lemma CutOne(fe: FunEnv, pc: nat, len: nat, t: Syn, v: St)
    ensures var r := Run(fe, Syn(Cut(Nop, 1), pc, len, [t]), v);
      match Run(fe, t, v)
      case Err(b) => r == Err(b)
      case Ok(v1, _, _) => r == Ok(Abandon(v1), End, 0)
  {
    var u := Syn(Cut(Nop, 1), pc, len, [t]);
    var w := Run(fe, t, v);
    if w.Ok? { assert RunKids(fe, u, 1, w.s) == KOk(w.s, [], []); }
    assert RunKids(fe, u, 0, v) == if w.Ok? then KOk(w.s, [w.ty] + [], [w.node] + []) else KErr(w.stray);
  }

  lemma WrapPlain(fe: FunEnv, o: Open, inner: Syn, v: St)
    requires Unfinished(fe, o) && !Nests(o.instr) && inner.instr.Cut?
    ensures Ends(Run(fe, Wrap(fe, o, inner), v), Inner(fe, inner, Descend(fe, o, v)))
  {
    hide KidOk, RunKids;
    var t, u := SynOfOpen(o), Wrap(fe, o, inner);
    assert SameChecks(fe, t, u) by { ChecksCut(fe, o, inner); }
    KidsPrefix(fe, t, u, 0, v);
    var k := RunKids(fe, t, 0, v);
    if k.KOk? {
      forall j | |o.kids| <= j < |u.kids|
        ensures KidOk(fe, u.instr, j, End)
      {
        LastUnchecked(fe, o.instr, |o.kids|, j);
      }
      TailRuns(fe, u, |o.kids|, k.s);
    }
  }

  lemma ChecksCut(fe: FunEnv, o: Open, inner: Syn)
    requires !Nests(o.instr) && |o.kids| < Arity(fe, o.instr)
    ensures SameChecks(fe, SynOfOpen(o), Wrap(fe, o, inner))
  {
  }

  lemma LastUnchecked(fe: FunEnv, instr: Instr, n: nat, j: nat)
    requires j >= n
    ensures KidOk(fe, Cut(instr, n + 1), j, End)
  {
  }

  /** The children of a block or loop, the open one, and what would come after. */
  lemma FilledKids(fe: FunEnv, o: Open, inner: Syn, v: St)
    requires Unfinished(fe, o) && (o.instr.Block? || o.instr.Loop?) && inner.instr.Cut?
    ensures var u := Filled(fe, o, inner);
      var d := Inner(fe, inner, DownKids(RunKids(fe, SynOfOpen(o), 0, v)));
      var k := RunKids(fe, u, 0, v);
      if d.Down? then k.KOk? && DeadLike(d.v, k.s) && |k.s.blocks| == |v.blocks| else k == KErr(d.stray)
  {
    hide Run, RunKids, Arity;
    var t, u := SynOfOpen(o), Filled(fe, o, inner);
    assert t.kids <= u.kids && u.kids[|o.kids|] == inner;
    KidsPrefix(fe, t, u, 0, v);
    var k := RunKids(fe, t, 0, v);
    if k.KOk? { TailRuns(fe, u, |o.kids|, k.s); }
    if RunKids(fe, u, 0, v).KOk? { KidsBlocks(fe, u, 0, v); }
  }

  lemma WrapBlock(fe: FunEnv, o: Open, inner: Syn, v: St)
    requires Unfinished(fe, o) && (o.instr.Block? || o.instr.Loop?) && inner.instr.Cut?
    ensures Ends(Run(fe, Wrap(fe, o, inner), v), Inner(fe, inner, Descend(fe, o, v)))
  {
    hide RunKids, PrepareForLoop, Goto, MergeNode;
    var u := Filled(fe, o, inner);
    FilledKids(fe, o, inner, if o.instr.Block? then EnterBlock(v) else EnterLoop(fe, v));
    CutOne(fe, o.pc, o.len, u, v);
  }

  /** What follows the end of the code in an arm. */
  lemma MarkRuns(fe: FunEnv, v: St)
    ensures Run(fe, EndMark(), v) == Ok(Abandon(v), End, 0)
  {
    assert RunKids(fe, EndMark(), 0, v) == KOk(v, [], []);
  }

  lemma CutRuns(fe: FunEnv, t: Syn, v: St)
    requires t.instr.Cut?
    ensures var r := Run(fe, t, v); r.Ok? ==> r.ty == End && !r.s.cur.Go()
  {
    hide RunKids;
  }

  lemma WrapIf(fe: FunEnv, o: Open, inner: Syn, v: St)
    requires Unfinished(fe, o) && o.instr.If? && inner.instr.Cut?
    ensures Ends(Run(fe, Wrap(fe, o, inner), v), Inner(fe, inner, Descend(fe, o, v)))
  {
    hide Run, BuildBranch, Goto;
    var u := Filled(fe, o, inner);
    CutOne(fe, o.pc, o.len, u, v);
    IfIsRest(fe, u, v);
    if o.kids == [] {
      assert u.kids == [inner, EndMark()];
      CutRuns(fe, inner, v);
      var w := Run(fe, inner, v);
      if w.Ok? { MarkRuns(fe, IfArm(w.s, w.node)); }
    } else {
      assert u.kids == [o.kids[0], inner];
      var w := Run(fe, o.kids[0], v);
      if w.Ok? { CutRuns(fe, inner, IfArm(w.s, w.node)); }
    }
  }

  lemma WrapIfElse(fe: FunEnv, o: Open, inner: Syn, v: St)
    requires Unfinished(fe, o) && o.instr.IfElse? && inner.instr.Cut?
    ensures Ends(Run(fe, Wrap(fe, o, inner), v), Inner(fe, inner, Descend(fe, o, v)))
  {
    hide Run, BuildBranch, Goto, MergeNode;
    var u := Filled(fe, o, inner);
    CutOne(fe, o.pc, o.len, u, v);
    IfElseIsRest(fe, u, v);
    if o.kids == [] {
      assert u.kids == [inner] + EndMarks(2) && u.kids[1] == u.kids[2] == EndMark();
      CutRuns(fe, inner, v);
      var w := Run(fe, inner, v);
      if w.Ok? { DeadArms(fe, w.s, w.node); }
    } else {
      var w := Run(fe, o.kids[0], v);
      if w.Ok? { ArmsEnd(fe, o, u, inner, w.s, w.node); }
    }
  }

  lemma DeadArms(fe: FunEnv, v: St, c: nat)
    requires !v.cur.Go()
    ensures Run(fe, EndMark(), ElseFirst(v, c)).Ok?
    ensures var r := Run(fe, EndMark(), ElseFirst(v, c));
      && r.s.g == v.g && r.s.log == v.log && r.s.blocks == v.blocks && !r.s.cur.Go() && ElseSecond(fe, v, c, r).g == v.g
      && Run(fe, EndMark(), ElseSecond(fe, v, c, r)) == Ok(Abandon(ElseSecond(fe, v, c, r)), End, 0)
  {
    hide Goto, MergeNode;
    MarkRuns(fe, ElseFirst(v, c));
    MarkRuns(fe, ElseSecond(fe, v, c, Run(fe, EndMark(), ElseFirst(v, c))));
  }

  lemma ArmsEnd(fe: FunEnv, o: Open, u: Syn, inner: Syn, v: St, c: nat)
    requires Unfinished(fe, o) && o.instr.IfElse? && o.kids != [] && inner.instr.Cut? && u == Filled(fe, o, inner)
    ensures var d, r := Inner(fe, inner, DownArms(fe, o, v, c)), ElseRest(fe, u, v, c);
      if d.Down? then r.Ok? && r.s.g == d.v.g && r.s.log.stray == d.v.log.stray else r == Err(d.stray)
  {
    hide Run, BuildBranch, Goto, MergeNode;
    if |o.kids| == 1 {
      assert u.kids == [o.kids[0], inner] + EndMarks(1) && u.kids[1] == inner && u.kids[2] == EndMark();
      CutRuns(fe, inner, ElseFirst(v, c));
      var w := Run(fe, inner, ElseFirst(v, c));
      if w.Ok? { MarkRuns(fe, ElseSecond(fe, v, c, w)); }
    } else {
      assert u.kids == [o.kids[0], o.kids[1], inner];
      var w := Run(fe, o.kids[1], ElseFirst(v, c));
      if w.Ok? { CutRuns(fe, inner, ElseSecond(fe, v, c, w)); }
    }
  }

  lemma WrapRuns(fe: FunEnv, o: Open, inner: Syn, v: St)
    requires Unfinished(fe, o) && inner.instr.Cut?
    ensures Ends(Run(fe, Wrap(fe, o, inner), v), Inner(fe, inner, Descend(fe, o, v)))
  {
    hide Run, Wrap, Descend, Ends, Inner;
    if !Nests(o.instr) { WrapPlain(fe, o, inner, v); }
    else if o.instr.If? { WrapIf(fe, o, inner, v); }
    else if o.instr.IfElse? { WrapIfElse(fe, o, inner, v); }
    else { WrapBlock(fe, o, inner, v); }
  }

  /** Unfinished trees, run as a tree, build exactly what was built where the code ends. */
  lemma {:induction false} CloseRuns(fe: FunEnv, opens: seq<Open>, v: St)
    requires forall i :: 0 <= i < |opens| ==> Unfinished(fe, opens[i])
    ensures Ends(Run(fe, Close(fe, opens), v), DescendAll(fe, opens, v))
    decreases |opens|
  {
    hide Run, Wrap, Descend;
    if opens == [] {
      MarkRuns(fe, v);
    } else {
      assert Unfinished(fe, opens[0]);
      var inner := Close(fe, opens[1..]);
      WrapRuns(fe, opens[0], inner, v);
      var d := Descend(fe, opens[0], v);
      if d.Down? { CloseRuns(fe, opens[1..], d.v); }
    }
  }

  // ----- The state where the code ends -----

  /** While control is live the invariant of the construction holds. */
  predicate LiveInv(fe: FunEnv, v: St) {
    v.cur.Go() ==> Inv(fe, v)
  }

  lemma RunLive(fe: FunEnv, t: Syn, v: St)
    requires LiveInv(fe, v) && Run(fe, t, v).Ok?
    ensures var r := Run(fe, t, v); LiveInv(fe, r.s) && (r.s.cur.Go() ==> v.cur.Go() && Typed(r.s, r.ty, r.node))
  {
    if v.cur.Go() { RunOk(fe, t, v); } else { RunDead(fe, t, v); }
  }

  lemma KidsLive(fe: FunEnv, t: Syn, v: St)
    requires LiveInv(fe, v) && RunKids(fe, t, 0, v).KOk?
    ensures LiveInv(fe, RunKids(fe, t, 0, v).s)
  {
    if v.cur.Go() { RunKidsOk(fe, t, 0, v); } else { RunKidsDead(fe, t, 0, v); }
  }

  lemma DescendLive(fe: FunEnv, o: Open, v: St)
    requires LiveInv(fe, v) && Descend(fe, o, v).Down?
    ensures LiveInv(fe, Descend(fe, o, v).v)
  {
    hide Inv, RunKids, Run, EnterBlock, EnterLoop, IfArm, DownArms, KidOk;
    match o.instr
    case Block(_) =>
      EnterLive(fe, v);
      KidsLive(fe, SynOfOpen(o), EnterBlock(v));
    case Loop(_) =>
      EnterLive(fe, v);
      KidsLive(fe, SynOfOpen(o), EnterLoop(fe, v));
    case If =>
      if o.kids != [] {
        RunLive(fe, o.kids[0], v);
        var Ok(v1, ty, c) := Run(fe, o.kids[0], v);
        ForkLive(fe, o.instr, v1, ty, c);
      }
    case IfElse =>
      if o.kids != [] {
        RunLive(fe, o.kids[0], v);
        var Ok(v1, ty, c) := Run(fe, o.kids[0], v);
        ArmsLive(fe, o, v1, ty, c);
      }
    case _ => KidsLive(fe, SynOfOpen(o), v);
  }

  lemma EnterLive(fe: FunEnv, v: St)
    requires LiveInv(fe, v)
    ensures LiveInv(fe, EnterBlock(v)) && LiveInv(fe, EnterLoop(fe, v))
  {
    if v.cur.Go() {
      EnterBlockOk(fe, v);
      EnterLoopOk(fe, v);
    }
  }

  lemma ForkLive(fe: FunEnv, instr: Instr, v: St, ty: LocalType, c: nat)
    requires LiveInv(fe, v) && (v.cur.Go() ==> Typed(v, ty, c)) && (instr.If? || instr.IfElse?)
    requires KidOk(fe, instr, 0, ty)
    ensures LiveInv(fe, IfArm(v, c)) && LiveInv(fe, ElseFirst(v, c))
  {
    if v.cur.Go() { BranchOk(fe, v, c); }
  }

  lemma ArmsLive(fe: FunEnv, o: Open, v: St, ty: LocalType, c: nat)
    requires LiveInv(fe, v) && (v.cur.Go() ==> Typed(v, ty, c)) && KidOk(fe, IfElse, 0, ty) && o.kids != []
    requires DownArms(fe, o, v, c).Down?
    ensures LiveInv(fe, DownArms(fe, o, v, c).v)
  {
    hide Run, MergeInto, BlocksOk;
    ForkLive(fe, IfElse, v, ty, c);
    if |o.kids| > 1 && v.cur.Go() {
      BranchOk(fe, v, c);
      var (g, tc, fc) := BuildBranch(v.g, v.cur.control, c);
      var v1 := ElseFirst(v, c);
      RunOk(fe, o.kids[1], v1);
      var r := Run(fe, o.kids[1], v1);
      PendOk(fe, r.s, NewTarget(v.cur), r.ty, r.node);
      EnvKeep(fe, g, ElseSecond(fe, v, c, r).g, Env(Reached, fc, v.cur.slots));
    }
  }

  lemma {:induction false} DescendAllLive(fe: FunEnv, opens: seq<Open>, v: St)
    requires LiveInv(fe, v) && DescendAll(fe, opens, v).Down?
    ensures LiveInv(fe, DescendAll(fe, opens, v).v)
    decreases |opens|
  {
    hide Descend, Inv;
    if opens != [] {
      DescendLive(fe, opens[0], v);
      DescendAllLive(fe, opens[1..], Descend(fe, opens[0], v).v);
    }
  }

  lemma OpenShape(fe: FunEnv, o: Open, s: State)
    requires OpenStep(fe, o, s).Next?
    ensures OpenStep(fe, o, s).s.trees == s.trees && |OpenStep(fe, o, s).s.stack| == |s.stack| + 1
  {
    hide Shift, RunChildren;
    ShiftShape(fe, s, o.instr, o.pc, o.len);
    RunChildrenShape(fe, SynOfOpen(o), 0, Shift(fe, s, o.instr, o.pc, o.len).s);
  }

  /** The decoder has one production for each unfinished tree, and the finished trees are as before. */
  lemma {:induction false} SpineShape(menv: ModuleEnv, fe: FunEnv, code: seq<byte>, pc: nat, s: State)
    requires pc <= |code| && Parse(menv, fe, code, pc).NoParse? && DecodeFrom(menv, fe, code, pc, s).Next?
    ensures var sp, r := ParseSpine(menv, fe, code, pc), DecodeFrom(menv, fe, code, pc, s).s;
      !sp.torn && r.trees == s.trees && |r.stack| == |s.stack| + |sp.opens|
    decreases |code| - pc
  {
    hide Parse, OpenStep, Fetch, Instruction;
    if pc < |code| {
      OpenParses(menv, fe, code, pc);
      OpenDecodes(menv, fe, code, pc, s);
      var o := ParseSpine(menv, fe, code, pc).opens[0];
      OpenShape(fe, o, s);
      var Got(instr, len) := Fetch(menv, code, pc);
      SpineShape(menv, fe, code, ParseKids(menv, fe, code, pc + len).1, OpenStep(fe, o, s).s);
    }
  }

  lemma {:induction false} SpineUnfinished(menv: ModuleEnv, fe: FunEnv, code: seq<byte>, pc: nat)
    requires pc <= |code| && Parse(menv, fe, code, pc).NoParse?
    ensures forall i :: 0 <= i < |ParseSpine(menv, fe, code, pc).opens| ==>
      Unfinished(fe, ParseSpine(menv, fe, code, pc).opens[i])
    decreases |code| - pc
  {
    hide Parse, OpenStep, Fetch, Unfinished;
    if pc < |code| && Fetch(menv, code, pc).Got? {
      OpenParses(menv, fe, code, pc);
      var sp := ParseSpine(menv, fe, code, pc);
      var Got(instr, len) := Fetch(menv, code, pc);
      var end := ParseKids(menv, fe, code, pc + len).1;
      SpineUnfinished(menv, fe, code, end);
      forall i | 0 <= i < |sp.opens| ensures Unfinished(fe, sp.opens[i]) {
        if i > 0 { assert sp.opens[i] == ParseSpine(menv, fe, code, end).opens[i - 1]; }
      }
    }
  }
}
