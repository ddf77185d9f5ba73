/** The shift-reduce decoder against recursive descent: what the code parses to, that the decoder
    processes a parsed tree as a unit, and that its stacks always tile the code it has consumed. */
module LrParse {
  import opened Syntax
  import opened Graph
  import opened Ssa
  import opened Leb128
  import opened Opcodes
  import opened Lr

  datatype Parsed = NoParse | Parsed(tree: Syn, end: nat)
  datatype ParsedAll = NoParses | ParsedAll(trees: seq<Syn>, end: nat)

  /** Recursive descent: an instruction, then as many trees as it takes. */
  function Parse(menv: ModuleEnv, fe: FunEnv, code: seq<byte>, pc: nat): (r: Parsed)
    requires pc <= |code|
    ensures r.Parsed? ==> pc < r.end <= |code|
    decreases |code| - pc, 1
  {
    if pc == |code| then NoParse
    else
      match Fetch(menv, code, pc)
      case Bad => NoParse
      case Got(instr, len) =>
        match ParseMany(menv, fe, code, pc + len, Arity(fe, instr))
        case NoParses => NoParse
        case ParsedAll(kids, end) => Parsed(Syn(instr, pc, len, kids), end)
  }

  function ParseMany(menv: ModuleEnv, fe: FunEnv, code: seq<byte>, pc: nat, n: nat): (r: ParsedAll)
    requires pc <= |code|
    ensures r.ParsedAll? ==> pc <= r.end <= |code| && |r.trees| == n
    decreases |code| - pc, 2, n
  {
    if n == 0 then ParsedAll([], pc)
    else
      match Parse(menv, fe, code, pc)
      case NoParse => NoParses
      case Parsed(t, mid) =>
        match ParseMany(menv, fe, code, mid, n - 1)
        case NoParses => NoParses
        case ParsedAll(ts, end) => ParsedAll([t] + ts, end)
  }

  /** What is parsed is whole. */
  lemma {:induction false} ParseWhole(menv: ModuleEnv, fe: FunEnv, code: seq<byte>, pc: nat)
    requires pc <= |code| && Parse(menv, fe, code, pc).Parsed?
    ensures Whole(Parse(menv, fe, code, pc).tree)
    decreases |code| - pc, 1
  {
    hide Fetch;
    FetchWhole(menv, code, pc);
    var Got(instr, len) := Fetch(menv, code, pc);
    ManyWhole(menv, fe, code, pc + len, Arity(fe, instr));
  }

  lemma {:induction false} ManyWhole(menv: ModuleEnv, fe: FunEnv, code: seq<byte>, pc: nat, n: nat)
    requires pc <= |code| && ParseMany(menv, fe, code, pc, n).ParsedAll?
    ensures forall t :: t in ParseMany(menv, fe, code, pc, n).trees ==> Whole(t)
    decreases |code| - pc, 2, n
  {
    hide Fetch;
    if n > 0 {
      ParseWhole(menv, fe, code, pc);
      ManyWhole(menv, fe, code, Parse(menv, fe, code, pc).end, n - 1);
    }
  }

  lemma FetchWhole(menv: ModuleEnv, code: seq<byte>, pc: nat)
    requires pc < |code|
    ensures Fetch(menv, code, pc).Got? ==> !Fetch(menv, code, pc).instr.Cut?
  {
  }

  /** A whole body: trees up to the end of the code. */
  function ParseBody(menv: ModuleEnv, fe: FunEnv, code: seq<byte>, pc: nat): ParsedAll
    requires pc <= |code|
    decreases |code| - pc
  {
    if pc == |code| then ParsedAll([], pc)
    else
      match Parse(menv, fe, code, pc)
      case NoParse => NoParses
      case Parsed(t, mid) =>
        match ParseBody(menv, fe, code, mid)
        case NoParses => NoParses
        case ParsedAll(ts, end) => ParsedAll([t] + ts, end)
  }

  datatype TreeStep = TFail(strayed: bool) | TOk(s: State, tree: Tree)

  /** What the decoder does with a whole tree, up to attaching it to its parent. */
  function RunTree(fe: FunEnv, t: Syn, s: State): TreeStep
    decreases t, 1
  {
    if |t.kids| != Arity(fe, t.instr) then TFail(s.strayed)
    else if t.kids == [] then
      match Leaf(fe, s, t.instr)
      case NoRes => TFail(s.strayed)
      case Res3(s1, ty, node) => TOk(s1, Tree(t.instr, t.pc, t.len, ty, node, []))
    else
      match Shift(fe, s, t.instr, t.pc, t.len)
      case Fail(b) => TFail(b)
      case Next(s1) =>
        match RunChildren(fe, t, 0, s1)
        case Fail(b) => TFail(b)
        case Next(s2) =>
          if s2.stack == [] then TFail(s2.strayed)
          else TOk(s2.(stack := s2.stack[..|s2.stack| - 1]), TreeOf(s2.stack[|s2.stack| - 1]))
  }

  /** Children i, i + 1, ..., each attached to the top production. */
  function RunChildren(fe: FunEnv, t: Syn, i: nat, s: State): Step
    requires i <= |t.kids|
    decreases t, 0, |t.kids| - i
  {
    if i == |t.kids| then Next(s)
    else
      match RunTree(fe, t.kids[i], s)
      case TFail(b) => Fail(b)
      case TOk(s1, tree) =>
        if s1.stack == [] then Fail(s1.strayed)
        else
          match Attach(fe, s1, tree)
          case Fail(b) => Fail(b)
          case Next(s2) => RunChildren(fe, t, i + 1, s2)
  }

  lemma ReduceBreakShape(fe: FunEnv, s: State, b: Blk, t: Tree)
    ensures SameTrees(s, ReduceBreak(fe, s, b, t))
  {
    hide Goto, MergeInto;
  }

  lemma ReduceSelectShape(fe: FunEnv, s: State)
    requires s.stack != [] && s.stack[|s.stack| - 1].kids != [] && ReduceSelect(fe, s).Next?
    ensures SameTrees(s, ReduceSelect(fe, s).s)
  {
    hide BuildBranch;
  }

  lemma ReduceIfShape(fe: FunEnv, s: State)
    requires s.stack != [] && s.stack[|s.stack| - 1].kids != []
    ensures ReduceIf(fe, s).Next? ==> SameTrees(s, ReduceIf(fe, s).s)
  {
    hide BuildBranch, Goto, Split;
  }

  lemma ReduceIfElseShape(fe: FunEnv, s: State)
    requires s.stack != [] && s.stack[|s.stack| - 1].kids != []
    ensures ReduceIfElse(fe, s).Next? ==> SameTrees(s, ReduceIfElse(fe, s).s)
  {
    hide BuildBranch, MergeInto, Split, Stolen, Victim;
  }

  /** Reducing changes no production but for its type and node. */
  lemma ReduceShape(fe: FunEnv, s: State)
    requires s.stack != [] && s.stack[|s.stack| - 1].kids != [] && Reduce(fe, s).Next?
    ensures SameTrees(s, Reduce(fe, s).s)
  {
    hide BuildOp, BuildBranch, ChildOk, Split, ReduceSelect, ReduceIf, ReduceIfElse, ReduceBreak;
    var top := |s.stack| - 1;
    var p := s.stack[top];
    match p.instr
    case Select => ReduceSelectShape(fe, s);
    case If => ReduceIfShape(fe, s);
    case IfElse => ReduceIfElseShape(fe, s);
    case Br(d) =>
      if d < |s.blocks| { ReduceBreakShape(fe, s, s.blocks[|s.blocks| - 1 - d], p.kids[|p.kids| - 1]); }
    case BrIf(d) =>
      if d < |s.blocks| && |p.kids| >= 2 {
        var e := Cur(s);
        var (g, tc, fc) := if e.Go() then BuildBranch(s.g, e.control, p.kids[0].node) else (s.g, 0, e.control);
        var s1 := Alloc(SetCur(s.(g := g), e.(control := fc)), Split(e).(control := tc)).(cur := |s.zone|);
        ReduceBreakShape(fe, s1, s.blocks[|s.blocks| - 1 - d], p.kids[|p.kids| - 1]);
      }
    case Block(_) =>
      if s.blocks != [] { ReduceBreakShape(fe, s, s.blocks[|s.blocks| - 1], p.kids[|p.kids| - 1]); }
    case Loop(_) =>
      if |s.blocks| > 1 {
        ReduceBreakShape(fe, s.(blocks := s.blocks[..|s.blocks| - 1]), s.blocks[|s.blocks| - 2], p.kids[|p.kids| - 1]);
      }
    case _ =>
  }

  lemma ShiftShape(fe: FunEnv, s: State, instr: Instr, pc: nat, len: nat)
    requires Shift(fe, s, instr, pc, len).Next?
    ensures var s' := Shift(fe, s, instr, pc, len).s;
      s'.stack == s.stack + [Production(instr, pc, len, InitialType(fe, instr), 0, [])] && s'.trees == s.trees
  {
    hide PrepareForLoop, Split, Stolen, Victim, InitialType;
  }

  lemma AttachShape(fe: FunEnv, s: State, t: Tree)
    requires s.stack != [] && Attach(fe, s, t).Next?
    ensures var top := |s.stack| - 1;
      var p := s.stack[top];
      SameShape(s.stack[top := p.(kids := p.kids + [t])], Attach(fe, s, t).s.stack)
          && Attach(fe, s, t).s.trees == s.trees
  {
    hide Reduce;
    var top := |s.stack| - 1;
    var p := s.stack[top];
    ReduceShape(fe, s.(stack := s.stack[top := p.(kids := p.kids + [t])]));
  }

  lemma {:induction false} RunTreeShape(fe: FunEnv, t: Syn, s: State)
    requires RunTree(fe, t, s).TOk?
    ensures SameShape(s.stack, RunTree(fe, t, s).s.stack) && RunTree(fe, t, s).s.trees == s.trees
    decreases t, 1
  {
    hide Shift, Leaf, RunChildren, Arity, InitialType;
    if t.kids == [] {
      LeafShape(fe, s, t.instr);
    } else {
      ShiftShape(fe, s, t.instr, t.pc, t.len);
      var s1 := Shift(fe, s, t.instr, t.pc, t.len).s;
      assert s1.stack[..|s.stack|] == s.stack;
      RunChildrenShape(fe, t, 0, s1);
    }
  }

  lemma {:induction false} RunChildrenShape(fe: FunEnv, t: Syn, i: nat, s: State)
    requires i <= |t.kids| && s.stack != [] && RunChildren(fe, t, i, s).Next?
    ensures var s' := RunChildren(fe, t, i, s).s;
      var top := |s.stack| - 1;
      && |s'.stack| == |s.stack| && s'.trees == s.trees
      && SameShape(s.stack[..top], s'.stack[..top])
      && s'.stack[top].instr == s.stack[top].instr && |s'.stack[top].kids| == |s.stack[top].kids| + |t.kids| - i
    decreases t, 0, |t.kids| - i
  {
    if i < |t.kids| {
      RunTreeShape(fe, t.kids[i], s);
      var TOk(s1, tree) := RunTree(fe, t.kids[i], s);
      AttachShape(fe, s1, tree);
      var s2 := Attach(fe, s1, tree).s;
      RunChildrenShape(fe, t, i + 1, s2);
      var top := |s.stack| - 1;
      forall j | 0 <= j < top ensures s2.stack[j].kids == s.stack[j].kids && s2.stack[j].instr == s.stack[j].instr
                                     && s2.stack[j].pc == s.stack[j].pc && s2.stack[j].len == s.stack[j].len {}
    }
  }

  /** A finished tree goes into the stack and decoding goes on. */
  function Continue(menv: ModuleEnv, fe: FunEnv, code: seq<byte>, end: nat, r: TreeStep): Step
    requires end <= |code|
  {
    match r
    case TFail(b) => Fail(b)
    case TOk(s, tree) =>
      match ReduceTree(fe, s, tree)
      case Fail(b) => Fail(b)
      case Next(s1) => DecodeFrom(menv, fe, code, end, s1)
  }

  /** Decoding code that starts with a tree is processing that tree, reducing it, and decoding the rest. */
  lemma {:induction false} DecodeTree(menv: ModuleEnv, fe: FunEnv, code: seq<byte>, pc: nat, s: State)
    requires pc <= |code| && Parse(menv, fe, code, pc).Parsed?
    ensures var Parsed(t, end) := Parse(menv, fe, code, pc);
      DecodeFrom(menv, fe, code, pc, s) == Continue(menv, fe, code, end, RunTree(fe, t, s))
    decreases |code| - pc, 1
  {
    hide Fetch, Leaf, Shift, Attach, Arity;
    var Parsed(t, end) := Parse(menv, fe, code, pc);
    var Got(instr, len) := Fetch(menv, code, pc);
    if Arity(fe, instr) > 0 {
      var r := Shift(fe, s, instr, pc, len);
      if r.Next? {
        ShiftShape(fe, s, instr, pc, len);
        assert t.kids[0..] == t.kids;
        DecodeChildren(menv, fe, code, pc + len, t, 0, r.s);
      }
    }
  }

  lemma {:induction false} DecodeChildren(menv: ModuleEnv, fe: FunEnv, code: seq<byte>, pc: nat, t: Syn, i: nat,
      s: State)
    requires pc <= |code| && i < |t.kids| == Arity(fe, t.instr)
    requires s.stack != [] && s.stack[|s.stack| - 1].instr == t.instr && |s.stack[|s.stack| - 1].kids| == i
    requires ParseMany(menv, fe, code, pc, |t.kids| - i).ParsedAll?
    requires ParseMany(menv, fe, code, pc, |t.kids| - i).trees == t.kids[i..]
    ensures var end := ParseMany(menv, fe, code, pc, |t.kids| - i).end;
      DecodeFrom(menv, fe, code, pc, s)
      == (match RunChildren(fe, t, i, s)
          case Fail(b) => Fail(b)
          case Next(s2) => if s2.stack == [] then Fail(s2.strayed)
            else Continue(menv, fe, code, end,
              TOk(s2.(stack := s2.stack[..|s2.stack| - 1]), TreeOf(s2.stack[|s2.stack| - 1]))))
    decreases |code| - pc, 2, |t.kids| - i
  {
    hide Fetch, Leaf, Shift, Attach, Arity;
    DecodeTree(menv, fe, code, pc, s);
    var Parsed(kid, mid) := Parse(menv, fe, code, pc);
    assert kid == t.kids[i];
    var r := RunTree(fe, kid, s);
    if r.TOk? {
      RunTreeShape(fe, kid, s);
      var a := Attach(fe, r.s, r.tree);
      if a.Next? {
        AttachShape(fe, r.s, r.tree);
        if i + 1 < |t.kids| {
          assert t.kids[i..][1..] == t.kids[i + 1..];
          DecodeChildren(menv, fe, code, mid, t, i + 1, a.s);
        } else {
          assert ParseMany(menv, fe, code, mid, 0) == ParsedAll([], mid);
        }
      }
    }
  }

  function SynOf(t: Tree): Syn {
    Syn(t.instr, t.pc, t.len, SynsOf(t.kids))
  }

  function SynsOf(ts: seq<Tree>): (r: seq<Syn>)
    ensures |r| == |ts| && forall i :: 0 <= i < |ts| ==> r[i] == SynOf(ts[i])
  {
    if ts == [] then [] else SynsOf(ts[..|ts| - 1]) + [SynOf(ts[|ts| - 1])]
  }

  /** Where the bytes of a tree end. */
  function EndPos(t: Tree): nat {
    if t.kids == [] then t.pc + t.len else EndPos(t.kids[|t.kids| - 1])
  }

  /** Where the first i of the trees that follow each other from start end. */
  function After(ts: seq<Tree>, start: nat, i: nat): nat
    requires i <= |ts|
  {
    if i == 0 then start else EndPos(ts[i - 1])
  }

  function ChainEnd(ts: seq<Tree>, start: nat): nat {
    After(ts, start, |ts|)
  }

  /** A finished tree: its instruction is the one in the code, it has all its children, and their bytes
      follow its own without a gap. */
  predicate Spans(menv: ModuleEnv, fe: FunEnv, code: seq<byte>, t: Tree)
    decreases t
  {
    && t.pc < |code| && Fetch(menv, code, t.pc) == Got(t.instr, t.len)
    && |t.kids| == Arity(fe, t.instr) && Chain(menv, fe, code, t.kids, t.pc + t.len)
  }

  /** Trees one after the other. */
  predicate Chain(menv: ModuleEnv, fe: FunEnv, code: seq<byte>, ts: seq<Tree>, start: nat)
    decreases ts
  {
    forall i :: 0 <= i < |ts| ==> Spans(menv, fe, code, ts[i]) && ts[i].pc == After(ts, start, i)
  }

  /** An unfinished tree: some of its children are still missing. */
  predicate Partial(menv: ModuleEnv, fe: FunEnv, code: seq<byte>, p: Production) {
    && p.pc < |code| && Fetch(menv, code, p.pc) == Got(p.instr, p.len)
    && |p.kids| < Arity(fe, p.instr) && Chain(menv, fe, code, p.kids, p.pc + p.len)
  }

  function StackEnd(s: State, i: nat): nat
    requires i <= |s.stack|
  {
    if i == 0 then ChainEnd(s.trees, 0) else ChainEnd(s.stack[i - 1].kids, s.stack[i - 1].pc + s.stack[i - 1].len)
  }

  /** Finished trees, then the first n productions of the stack, follow each other without a gap. */
  predicate TiledBelow(menv: ModuleEnv, fe: FunEnv, code: seq<byte>, s: State, n: nat)
    requires n <= |s.stack|
  {
    && Chain(menv, fe, code, s.trees, 0)
    && (forall i :: 0 <= i < n ==> Partial(menv, fe, code, s.stack[i]) && s.stack[i].pc == StackEnd(s, i))
  }

  /** Finished trees and the productions of the stack tile the code up to pc. */
  predicate Tiled(menv: ModuleEnv, fe: FunEnv, code: seq<byte>, s: State, pc: nat) {
    TiledBelow(menv, fe, code, s, |s.stack|) && pc == StackEnd(s, |s.stack|)
  }

  /** Only shapes matter for the tiling. */
  lemma TiledSame(menv: ModuleEnv, fe: FunEnv, code: seq<byte>, s: State, s': State, n: nat)
    requires n <= |s.stack| && n <= |s'.stack| && TiledBelow(menv, fe, code, s, n)
    requires s'.trees == s.trees && SameShape(s.stack[..n], s'.stack[..n])
    ensures TiledBelow(menv, fe, code, s', n) && StackEnd(s', n) == StackEnd(s, n)
  {
    hide Fetch, Arity, Spans, Chain, ChainEnd;
    forall i | 0 <= i < n ensures s'.stack[i].instr == s.stack[i].instr && s'.stack[i].pc == s.stack[i].pc
                               && s'.stack[i].len == s.stack[i].len && s'.stack[i].kids == s.stack[i].kids {
      assert s.stack[..n][i] == s.stack[i] && s'.stack[..n][i] == s'.stack[i];
    }
    forall i | 0 <= i < n ensures Partial(menv, fe, code, s'.stack[i]) && s'.stack[i].pc == StackEnd(s', i) {
      assert Partial(menv, fe, code, s.stack[i]);
    }
  }

  lemma ChainMore(menv: ModuleEnv, fe: FunEnv, code: seq<byte>, ts: seq<Tree>, start: nat, t: Tree)
    requires Chain(menv, fe, code, ts, start) && Spans(menv, fe, code, t) && t.pc == ChainEnd(ts, start)
    ensures Chain(menv, fe, code, ts + [t], start) && ChainEnd(ts + [t], start) == EndPos(t)
  {
    hide Fetch, Arity, EndPos;
    var r := ts + [t];
    forall i | 0 <= i < |r| ensures Spans(menv, fe, code, r[i]) && r[i].pc == After(r, start, i) {
      if i < |ts| {
        assert Spans(menv, fe, code, ts[i]) && ts[i].pc == After(ts, start, i);
      }
    }
  }

  /** The stack after attaching tree t to its top production. */
  predicate Attached(s: State, t: Tree, s1: State)
    requires s.stack != []
  {
    && |s1.stack| == |s.stack| && s1.trees == s.trees
    && var top := |s.stack| - 1;
       var p, p1 := s.stack[top], s1.stack[top];
    && SameShape(s.stack[..top], s1.stack[..top])
    && p1.instr == p.instr && p1.pc == p.pc && p1.len == p.len && p1.kids == p.kids + [t]
  }

  lemma AttachAttaches(fe: FunEnv, s: State, t: Tree)
    requires s.stack != [] && Attach(fe, s, t).Next?
    ensures Attached(s, t, Attach(fe, s, t).s)
  {
    hide Attach;
    AttachShape(fe, s, t);
  }

  /** Attaching a tree keeps the tiling; the production it finishes spans its bytes. */
  lemma AttachTiled(menv: ModuleEnv, fe: FunEnv, code: seq<byte>, s: State, t: Tree, s1: State)
    requires s.stack != [] && Tiled(menv, fe, code, s, t.pc) && Spans(menv, fe, code, t) && Attached(s, t, s1)
    ensures var top := |s.stack| - 1;
      if !Done(fe, s1.stack[top]) then Tiled(menv, fe, code, s1, EndPos(t))
      else
        var t2 := TreeOf(s1.stack[top]);
        && Tiled(menv, fe, code, s1.(stack := s1.stack[..top]), t2.pc)
        && Spans(menv, fe, code, t2) && EndPos(t2) == EndPos(t)
  {
    hide Fetch, Arity, Spans, Chain, EndPos, SameShape, TiledBelow, Attached;
    var top := |s.stack| - 1;
    TopTiled(menv, fe, code, s);
    AttachedKids(menv, fe, code, s, t, s1);
    var p, p1 := s.stack[top], s1.stack[top];
    TiledSame(menv, fe, code, s, s1, top);
    if Done(fe, p1) {
      var s2 := s1.(stack := s1.stack[..top]);
      SpansOf(menv, fe, code, TreeOf(p1));
      EndOfLast(TreeOf(p1));
      PrefixShape(s1.stack, top);
      TiledSame(menv, fe, code, s1, s2, top);
    } else {
      TiledPush(menv, fe, code, s1);
    }
  }

  lemma EndOfLast(t: Tree)
    requires t.kids != []
    ensures EndPos(t) == EndPos(t.kids[|t.kids| - 1])
  {
  }

  /** The top production of a tiled stack. */
  lemma TopTiled(menv: ModuleEnv, fe: FunEnv, code: seq<byte>, s: State)
    requires s.stack != [] && TiledBelow(menv, fe, code, s, |s.stack|)
    ensures var top := |s.stack| - 1;
      Partial(menv, fe, code, s.stack[top]) && s.stack[top].pc == StackEnd(s, top) && TiledBelow(menv, fe, code, s, top)
  {
    hide Partial, StackEnd, Chain;
  }

  lemma TiledPush(menv: ModuleEnv, fe: FunEnv, code: seq<byte>, s: State)
    requires s.stack != []
    requires var top := |s.stack| - 1;
      TiledBelow(menv, fe, code, s, top) && Partial(menv, fe, code, s.stack[top]) && s.stack[top].pc == StackEnd(s, top)
    ensures TiledBelow(menv, fe, code, s, |s.stack|)
  {
    hide Partial, StackEnd, Chain;
  }

  lemma PrefixShape(a: seq<Production>, n: nat)
    requires n <= |a|
    ensures SameShape(a[..n], a[..n][..n])
  {
  }

  /** The children of the top production with one more. */
  lemma AttachedKids(menv: ModuleEnv, fe: FunEnv, code: seq<byte>, s: State, t: Tree, s1: State)
    requires s.stack != [] && Attached(s, t, s1) && Spans(menv, fe, code, t)
    requires var p := s.stack[|s.stack| - 1];
      Chain(menv, fe, code, p.kids, p.pc + p.len) && t.pc == ChainEnd(p.kids, p.pc + p.len)
    ensures |s1.stack| == |s.stack| && s1.trees == s.trees
    ensures SameShape(s.stack[..|s.stack| - 1], s1.stack[..|s.stack| - 1])
    ensures var p, p1 := s.stack[|s.stack| - 1], s1.stack[|s.stack| - 1];
      && p1.instr == p.instr && p1.pc == p.pc && p1.len == p.len && |p1.kids| == |p.kids| + 1 && p1.kids[|p.kids|] == t
      && Chain(menv, fe, code, p1.kids, p1.pc + p1.len) && ChainEnd(p1.kids, p1.pc + p1.len) == EndPos(t)
  {
    hide SameShape, Chain, ChainEnd, Spans, EndPos;
    var p := s.stack[|s.stack| - 1];
    ChainMore(menv, fe, code, p.kids, p.pc + p.len, t);
  }

  lemma {:induction false} ReduceTreeTiled(menv: ModuleEnv, fe: FunEnv, code: seq<byte>, s: State, t: Tree)
    requires Tiled(menv, fe, code, s, t.pc) && Spans(menv, fe, code, t) && ReduceTree(fe, s, t).Next?
    ensures Tiled(menv, fe, code, ReduceTree(fe, s, t).s, EndPos(t))
    decreases |s.stack|
  {
    hide Fetch, Arity, Attach, Spans, Done, EndPos;
    if s.stack == [] {
      ChainMore(menv, fe, code, s.trees, 0, t);
    } else {
      hide Tiled;
      var s1 := Attach(fe, s, t).s;
      AttachAttaches(fe, s, t);
      AttachTiled(menv, fe, code, s, t, s1);
      var top := |s.stack| - 1;
      if Done(fe, s1.stack[top]) {
        ReduceTreeTiled(menv, fe, code, s1.(stack := s1.stack[..top]), TreeOf(s1.stack[top]));
      }
    }
  }

  lemma SpansOf(menv: ModuleEnv, fe: FunEnv, code: seq<byte>, t: Tree)
    requires t.pc < |code| && Fetch(menv, code, t.pc) == Got(t.instr, t.len)
    requires |t.kids| == Arity(fe, t.instr) && Chain(menv, fe, code, t.kids, t.pc + t.len)
    ensures Spans(menv, fe, code, t)
  {
    hide Fetch, Arity, Chain;
  }

  lemma InstructionTiled(menv: ModuleEnv, fe: FunEnv, code: seq<byte>, s: State, instr: Instr, pc: nat, len: nat)
    requires pc < |code| && Fetch(menv, code, pc) == Got(instr, len)
    requires Tiled(menv, fe, code, s, pc) && Instruction(fe, s, instr, pc, len).Next?
    ensures Tiled(menv, fe, code, Instruction(fe, s, instr, pc, len).s, pc + len)
  {
    hide Fetch, Shift, Leaf, ReduceTree, Arity, Spans, TiledBelow, SameShape;
    if Arity(fe, instr) > 0 {
      ShiftShape(fe, s, instr, pc, len);
      var s1 := Shift(fe, s, instr, pc, len).s;
      SameStack(s.stack, s1.stack);
      TiledSame(menv, fe, code, s, s1, |s.stack|);
      TiledPush(menv, fe, code, s1);
    } else {
      LeafShape(fe, s, instr);
      var Res3(s1, ty, node) := Leaf(fe, s, instr);
      var t := Tree(instr, pc, len, ty, node, []);
      SameStack(s.stack, s1.stack);
      TiledSame(menv, fe, code, s, s1, |s.stack|);
      SpansOf(menv, fe, code, t);
      ReduceTreeTiled(menv, fe, code, s1, t);
    }
  }

  lemma SameStack(a: seq<Production>, b: seq<Production>)
    requires a <= b
    ensures SameShape(a[..|a|], b[..|a|])
  {
    forall i | 0 <= i < |a| ensures a[i] == b[i] {}
  }

  lemma LeafShape(fe: FunEnv, s: State, instr: Instr)
    requires Arity(fe, instr) == 0 && Leaf(fe, s, instr).Res3?
    ensures var s' := Leaf(fe, s, instr).s; s'.stack == s.stack && s'.trees == s.trees
  {
    hide BuildOp;
  }

  /** In every error-free state the stacks tile the bytes consumed so far. */
  lemma {:induction false} DecodeTiled(menv: ModuleEnv, fe: FunEnv, code: seq<byte>, pc: nat, s: State)
    requires pc <= |code| && Tiled(menv, fe, code, s, pc) && DecodeFrom(menv, fe, code, pc, s).Next?
    ensures Tiled(menv, fe, code, DecodeFrom(menv, fe, code, pc, s).s, |code|)
    decreases |code| - pc
  {
    hide Fetch, Instruction, Tiled;
    if pc < |code| {
      var Got(instr, len) := Fetch(menv, code, pc);
      InstructionTiled(menv, fe, code, s, instr, pc, len);
      DecodeTiled(menv, fe, code, pc + len, Instruction(fe, s, instr, pc, len).s);
    }
  }

  /** A tree that spans code is what recursive descent finds there. */
  lemma {:induction false} SpansParse(menv: ModuleEnv, fe: FunEnv, code: seq<byte>, t: Tree)
    requires Spans(menv, fe, code, t)
    ensures EndPos(t) <= |code| && Parse(menv, fe, code, t.pc) == Parsed(SynOf(t), EndPos(t))
    decreases t
  {
    hide Arity, Fetch, Chain, ParseMany, SynsOf;
    ChainParse(menv, fe, code, t.kids, 0, t.pc + t.len, t.pc + t.len);
    assert SynsOf(t.kids)[0..] == SynsOf(t.kids);
  }

  lemma {:induction false} ChainParse(menv: ModuleEnv, fe: FunEnv, code: seq<byte>, ts: seq<Tree>, i: nat, first: nat,
      start: nat)
    requires Chain(menv, fe, code, ts, first) && i <= |ts| && start <= |code| && start == After(ts, first, i)
    ensures ChainEnd(ts, first) <= |code|
    ensures ParseMany(menv, fe, code, start, |ts| - i) == ParsedAll(SynsOf(ts)[i..], ChainEnd(ts, first))
    decreases ts, |ts| - i
  {
    hide Fetch, Spans, SynOf, SynsOf, EndPos, Parse, ParseMany, Chain;
    if i < |ts| {
      ChainAt(menv, fe, code, ts, first, i);
      SpansParse(menv, fe, code, ts[i]);
      ParseStep(menv, fe, code, start, |ts| - i);
      ChainParse(menv, fe, code, ts, i + 1, first, EndPos(ts[i]));
      assert SynsOf(ts)[i..] == [SynOf(ts[i])] + SynsOf(ts)[i + 1..];
    } else {
      ParseStep(menv, fe, code, start, 0);
      assert SynsOf(ts)[i..] == [];
    }
  }

  lemma ChainAt(menv: ModuleEnv, fe: FunEnv, code: seq<byte>, ts: seq<Tree>, first: nat, i: nat)
    requires Chain(menv, fe, code, ts, first) && i < |ts|
    ensures Spans(menv, fe, code, ts[i]) && ts[i].pc == After(ts, first, i)
  {
    hide Spans;
  }

  lemma ParseStep(menv: ModuleEnv, fe: FunEnv, code: seq<byte>, pc: nat, n: nat)
    requires pc <= |code|
    ensures n == 0 ==> ParseMany(menv, fe, code, pc, n) == ParsedAll([], pc)
    ensures n > 0 && Parse(menv, fe, code, pc).Parsed? ==>
      var Parsed(t, mid) := Parse(menv, fe, code, pc);
      var r := ParseMany(menv, fe, code, mid, n - 1);
      ParseMany(menv, fe, code, pc, n) == if r.NoParses? then NoParses else ParsedAll([t] + r.trees, r.end)
  {
    hide Parse;
  }

  lemma {:induction false} BodyParse(menv: ModuleEnv, fe: FunEnv, code: seq<byte>, ts: seq<Tree>, i: nat, start: nat)
    requires Chain(menv, fe, code, ts, 0) && i <= |ts| && start <= |code| && ChainEnd(ts, 0) == |code|
    requires start == After(ts, 0, i)
    ensures ParseBody(menv, fe, code, start) == ParsedAll(SynsOf(ts)[i..], |code|)
    decreases |ts| - i
  {
    hide Fetch, Spans, SynOf, SynsOf, EndPos, Parse, Chain;
    if i < |ts| {
      ChainAt(menv, fe, code, ts, 0, i);
      SpansParse(menv, fe, code, ts[i]);
      BodyParse(menv, fe, code, ts, i + 1, EndPos(ts[i]));
      assert SynsOf(ts)[i..] == [SynOf(ts[i])] + SynsOf(ts)[i + 1..];
    } else {
      assert SynsOf(ts)[i..] == [];
    }
  }
}
