/** Decoding a whole function body from its bytes: the shift-reduce decoder accepts the bodies the
    recursive construction accepts, with the same graph, and that graph means what the body means. */
module DecodeFunction {
  import opened Syntax
  import opened Graph
  import opened Interp
  import opened Ssa
  import opened FunctionMeaning
  import opened Leb128
  import opened Opcodes
  import opened Lr
  import opened LrParse
  import opened LrSsa
  import opened CutOff

  /** The state the decoder starts in: one environment, nothing open. */
  function InitState(d: Decl): State {
    var v := InitSt(d);
    State(v.g, [v.cur], 0, [], [], [], [], false)
  }

  /** What follows the last byte: unfinished trees are an error if control is live, and so is a missing
      or ill-typed value; otherwise the function returns implicitly. */
  function Finish(fe: FunEnv, r: Step): Built {
    match r
    case Fail(_) => Rejected
    case Next(s) =>
      var e := Cur(s);
      if !e.Go() || |e.slots| == 0 then
        if s.trees == [] && !fe.ret.Stmt? then Rejected else Accepted(s.g)
      else if s.stack != [] then Rejected
      else
        var world := e.slots[|e.slots| - 1];
        if fe.ret.Stmt? then Accepted(s.g + [Ret(0, world, e.control)])
        else if s.trees == [] || s.trees[|s.trees| - 1].ty != fe.ret then Rejected
        else Accepted(s.g + [Ret(s.trees[|s.trees| - 1].node, world, e.control)])
  }

  function Decode(menv: ModuleEnv, d: Decl, code: seq<byte>): Built
    requires !d.ret.End?
  {
    Finish(EnvOf(d), DecodeFrom(menv, EnvOf(d), code, 0, InitState(d)))
  }

  /** A local is stored while the current environment has no array of locals. */
  predicate Strays(menv: ModuleEnv, d: Decl, code: seq<byte>)
    requires !d.ret.End?
  {
    match DecodeFrom(menv, EnvOf(d), code, 0, InitState(d))
    case Fail(b) => b
    case Next(s) => s.strayed
  }

  datatype Outcome = Crashed | Finished(result: Built)

  /** Decoding with a graph builder, which writes every local that is stored through the array of the current
      environment. Without one there is nothing to write, and the result is that of Decode for every body. */
  function BuildMode(menv: ModuleEnv, d: Decl, code: seq<byte>): Outcome
    requires !d.ret.End?
  {
    if Strays(menv, d, code) then Crashed else Finished(Decode(menv, d, code))
  }

  /** The graph of a body is built. */
  predicate Builds(menv: ModuleEnv, d: Decl, code: seq<byte>)
    requires !d.ret.End?
  {
    BuildMode(menv, d, code).Finished? && BuildMode(menv, d, code).result.Accepted?
  }

  function BuiltGraph(menv: ModuleEnv, d: Decl, code: seq<byte>): seq<Node>
    requires !d.ret.End? && Builds(menv, d, code)
  {
    BuildMode(menv, d, code).result.g
  }

  /** Finished trees with the types and nodes of a construction. */
  predicate Collected(before: seq<Tree>, after: seq<Tree>, tys: seq<LocalType>, nodes: seq<nat>) {
    && |after| == |before| + |tys| && |tys| == |nodes| && before <= after
    && forall j :: 0 <= j < |tys| ==> after[|before| + j].ty == tys[j] && after[|before| + j].node == nodes[j]
  }

  /** Decoding the whole trees at the beginning of a body, one after the other. */
  lemma {:induction false} TreesRel(menv: ModuleEnv, fe: FunEnv, code: seq<byte>, pc: nat, all: seq<Syn>, i: nat,
      s: State, v: St) returns (s': State)
    requires pc <= |code| && i <= |all| && ParseKids(menv, fe, code, pc).0 == all[i..] && Holds(s, v) && s.stack == []
    ensures var r := DecodeFrom(menv, fe, code, pc, s);
      match RunKids(fe, BodyOf(all), i, v)
      case KErr(b) => r == Fail(b)
      case KOk(v', tys, nodes) =>
        && Holds(s', v') && s'.stack == [] && Collected(s.trees, s'.trees, tys, nodes)
        && r == DecodeFrom(menv, fe, code, ParseKids(menv, fe, code, pc).1, s')
    decreases |code| - pc
  {
    hide Run, RunTree, Parse, KeptBut, Rel, Distinct;
    var p := Parse(menv, fe, code, pc);
    s' := s;
    if p.Parsed? {
      var Parsed(t, mid) := p;
      DecodeTree(menv, fe, code, pc, s);
      ParseWhole(menv, fe, code, pc);
      assert all[i..][0] == t == all[i] && all[i..][1..] == all[i + 1..];
      RunTreeRel(fe, t, s, v);
      var w := Run(fe, t, v);
      if w.Ok? {
        var TOk(s1, tree) := RunTree(fe, t, s);
        Unchanged(s, s1, -1);
        KeptDistinct(s, s1, -1);
        var s2 := s1.(trees := s1.trees + [tree]);
        assert ReduceTree(fe, s1, tree) == Next(s2);
        AddTree(s1, w.s, tree);
        s' := TreesRel(menv, fe, code, mid, all, i + 1, s2, w.s);
        var k := RunKids(fe, BodyOf(all), i + 1, w.s);
        if k.KOk? { CollectMore(s.trees, tree, s'.trees, k.tys, k.nodes); }
      }
    } else {
      assert all[i..] == [];
    }
  }

  /** A sequence of whole trees is all there is. */
  lemma {:induction false} BodyIsKids(menv: ModuleEnv, fe: FunEnv, code: seq<byte>, pc: nat)
    requires pc <= |code|
    ensures var p, (ts, end) := ParseBody(menv, fe, code, pc), ParseKids(menv, fe, code, pc);
      if end == |code| then p == ParsedAll(ts, |code|) else p == NoParses
    ensures Parse(menv, fe, code, ParseKids(menv, fe, code, pc).1).NoParse?
    decreases |code| - pc
  {
    hide Parse;
    var p := Parse(menv, fe, code, pc);
    if p.Parsed? {
      BodyIsKids(menv, fe, code, p.end);
    } else if pc == |code| {
      assert ParseBody(menv, fe, code, pc) == ParsedAll([], |code|);
    }
    if pc == |code| { AtEnd(menv, fe, code); }
  }

  lemma AtEnd(menv: ModuleEnv, fe: FunEnv, code: seq<byte>)
    ensures Parse(menv, fe, code, |code|) == NoParse
  {
  }

  lemma CollectMore(before: seq<Tree>, tree: Tree, after: seq<Tree>, tys: seq<LocalType>, nodes: seq<nat>)
    requires Collected(before + [tree], after, tys, nodes)
    ensures Collected(before, after, [tree.ty] + tys, [tree.node] + nodes)
  {
    var b := before + [tree];
    assert b[|before|] == tree == after[|before|];
    forall j | 0 <= j < |tys| + 1
      ensures after[|before| + j].ty == ([tree.ty] + tys)[j] && after[|before| + j].node == ([tree.node] + nodes)[j]
    {
      if j > 0 { assert after[|b| + (j - 1)].ty == tys[j - 1]; }
    }
  }

  lemma AddTree(s: State, v: St, tree: Tree)
    requires Distinct(s) && Rel(s, v)
    ensures Distinct(s.(trees := s.trees + [tree])) && Rel(s.(trees := s.trees + [tree]), v)
  {
    var s' := s.(trees := s.trees + [tree]);
    forall i | 0 <= i < |s'.blocks| ensures BlockRel(s', s'.blocks[i], v.blocks[i]) {
      assert BlockRel(s, s.blocks[i], v.blocks[i]);
    }
  }

  lemma InitRel(d: Decl)
    ensures Holds(InitState(d), InitSt(d))
  {
    hide InitGraph;
    assert InitSt(d).blocks == [];
  }

  /** The finished trees and productions always tile the code, so no tree is left unfinished exactly
      when the code is a sequence of whole trees. */
  lemma UnfinishedIff(menv: ModuleEnv, d: Decl, code: seq<byte>)
    requires !d.ret.End? && DecodeFrom(menv, EnvOf(d), code, 0, InitState(d)).Next?
    ensures var s := DecodeFrom(menv, EnvOf(d), code, 0, InitState(d)).s;
      && (s.stack == [] <==> ParseBody(menv, EnvOf(d), code, 0).ParsedAll?)
      && (s.stack == [] ==> ParseBody(menv, EnvOf(d), code, 0) == ParsedAll(SynsOf(s.trees), |code|))
  {
    hide DecodeFrom, Fetch, InitSt;
    var fe, s0 := EnvOf(d), InitState(d);
    assert Tiled(menv, fe, code, s0, 0);
    DecodeTiled(menv, fe, code, 0, s0);
    var s := DecodeFrom(menv, fe, code, 0, s0).s;
    if s.stack == [] {
      BodyParse(menv, fe, code, s.trees, 0, 0);
      assert SynsOf(s.trees)[0..] == SynsOf(s.trees);
    }
    if ParseBody(menv, fe, code, 0).ParsedAll? {
      BodyIsKids(menv, fe, code, 0);
      var all := ParseBody(menv, fe, code, 0).trees;
      assert all[0..] == all;
      InitRel(d);
      var s' := TreesRel(menv, fe, code, 0, all, 0, s0, InitSt(d));
      NoMoreCode(menv, fe, code, s');
    }
  }

  lemma NoMoreCode(menv: ModuleEnv, fe: FunEnv, code: seq<byte>, s: State)
    ensures DecodeFrom(menv, fe, code, |code|, s) == Next(s)
  {
  }

  /** Code that is a sequence of whole trees is decoded exactly as those trees are built. */
  lemma DecodeIsBuild(menv: ModuleEnv, d: Decl, code: seq<byte>)
    requires !d.ret.End? && ParseBody(menv, EnvOf(d), code, 0).ParsedAll?
    ensures Decode(menv, d, code) == BuildBody(d, ParseBody(menv, EnvOf(d), code, 0).trees)
  {
    hide DecodeFrom, InitSt, ParseBody, RunKids;
    var fe, all := EnvOf(d), ParseBody(menv, EnvOf(d), code, 0).trees;
    BodyIsKids(menv, fe, code, 0);
    assert all[0..] == all;
    InitRel(d);
    var s' := TreesRel(menv, fe, code, 0, all, 0, InitState(d), InitSt(d));
    NoMoreCode(menv, fe, code, s');
    SameCur(s', RunKids(fe, BodyOf(all), 0, InitSt(d)));
    var k := RunKids(fe, BodyOf(all), 0, InitSt(d));
    if k.KOk? && all == [] && !fe.ret.Stmt? {
      EmptyLive(d);
    }
  }

  lemma SameCur(s: State, k: Kids)
    ensures k.KOk? && Holds(s, k.s) ==> Cur(s) == k.s.cur && s.g == k.s.g
  {
  }

  lemma EmptyLive(d: Decl)
    requires !d.ret.End?
    ensures RunKids(EnvOf(d), BodyOf([]), 0, InitSt(d)) == KOk(InitSt(d), [], [])
    ensures InitSt(d).cur.Go() && |InitSt(d).cur.slots| > 0
  {
  }

  /** The trees a body stands for; those it ends in the middle of stand last, as one tree with marks where the
      code ends. */
  function BodyTrees(menv: ModuleEnv, fe: FunEnv, code: seq<byte>): seq<Syn> {
    var (trees, end) := ParseKids(menv, fe, code, 0);
    var opens := ParseSpine(menv, fe, code, end).opens;
    if opens == [] then trees
    else
      assert forall i :: 0 <= i < |opens| ==> Unfinished(fe, opens[i]) by {
        BodyIsKids(menv, fe, code, 0);
        SpineUnfinished(menv, fe, code, end);
      }
      trees + [Close(fe, opens)]
  }

  /** The construction where the code of a body ends. */
  function BodyEnd(d: Decl, f: Forest): Down
    requires !d.ret.End?
  {
    match RunKids(EnvOf(d), BodyOf(f.trees), 0, InitSt(d))
    case KErr(b) => NoDown(b)
    case KOk(v, _, _) => DescendAll(EnvOf(d), f.spine.opens, v)
  }

  /** The trees can be built, and if the code ends in the middle of one, control is dead there. */
  predicate BodyOk(d: Decl, f: Forest)
    requires !d.ret.End?
  {
    && !f.spine.torn
    && if f.spine.opens == [] then BuildBody(d, f.trees).Accepted?
       else BodyEnd(d, f).Down? && !BodyEnd(d, f).v.cur.Go() && (d.ret.Stmt? || f.trees != [])
  }

  /** A run of the decoder ends where the construction does. */
  lemma DecodeEnds(menv: ModuleEnv, d: Decl, code: seq<byte>)
    requires !d.ret.End?
    ensures var fe := EnvOf(d);
      var f, r := ParseForest(menv, fe, code), DecodeFrom(menv, fe, code, 0, InitState(d));
      var b := BodyEnd(d, f);
      && Follows(r, if b.Down? && f.spine.torn then NoDown(b.v.log.stray) else b)
      && (r.Next? ==> |r.s.stack| == |f.spine.opens| && |r.s.trees| == |f.trees| && LiveInv(fe, b.v))
  {
    hide DecodeFrom, InitSt, RunKids, Parse, ParseSpine, Distinct, Rel, LiveInv;
    var fe := EnvOf(d);
    var (all, end) := ParseKids(menv, fe, code, 0);
    BodyIsKids(menv, fe, code, 0);
    assert all[0..] == all;
    InitRel(d);
    var s' := TreesRel(menv, fe, code, 0, all, 0, InitState(d), InitSt(d));
    var k := RunKids(fe, BodyOf(all), 0, InitSt(d));
    if k.KOk? {
      SpineRel(menv, fe, code, end, s', k.s);
      var r := DecodeFrom(menv, fe, code, end, s');
      if r.Next? {
        SpineShape(menv, fe, code, end, s');
        InitLive(d);
        KidsLive(fe, BodyOf(all), InitSt(d));
        DescendAllLive(fe, ParseSpine(menv, fe, code, end).opens, k.s);
      }
    }
  }

  lemma InitLive(d: Decl)
    requires !d.ret.End?
    ensures LiveInv(EnvOf(d), InitSt(d))
  {
    hide InitSt;
    InitOk(d);
  }

  /** Exactly which bodies are accepted. */
  lemma AcceptedIff(menv: ModuleEnv, d: Decl, code: seq<byte>)
    requires !d.ret.End?
    ensures Decode(menv, d, code).Accepted? <==> BodyOk(d, ParseForest(menv, EnvOf(d), code))
  {
    hide DecodeFrom, InitSt, RunKids, ParseSpine, ParseKids, DescendAll, ParseBody;
    var fe := EnvOf(d);
    var f := ParseForest(menv, fe, code);
    DecodeEnds(menv, d, code);
    BodyIsKids(menv, fe, code, 0);
    if f.spine.opens == [] && !f.spine.torn {
      SpineDone(menv, fe, code);
      DecodeIsBuild(menv, d, code);
    }
  }

  lemma SpineDone(menv: ModuleEnv, fe: FunEnv, code: seq<byte>)
    ensures var (ts, end) := ParseKids(menv, fe, code, 0);
      var sp := ParseSpine(menv, fe, code, end); sp.opens == [] && !sp.torn <==> end == |code|
  {
    hide Fetch, ParseKids;
  }

  /** An accepted body is decoded exactly as its trees are built, whether or not they are finished. */
  lemma AcceptedIsBuild(menv: ModuleEnv, d: Decl, code: seq<byte>)
    requires !d.ret.End? && Decode(menv, d, code).Accepted?
    ensures Decode(menv, d, code) == BuildBody(d, BodyTrees(menv, EnvOf(d), code))
  {
    hide DecodeFrom, InitSt, RunKids, ParseSpine, ParseKids, ParseBody, Run;
    var fe := EnvOf(d);
    var f := ParseForest(menv, fe, code);
    AcceptedIff(menv, d, code);
    BodyIsKids(menv, fe, code, 0);
    if f.spine.opens == [] {
      SpineDone(menv, fe, code);
      DecodeIsBuild(menv, d, code);
    } else {
      DecodeEnds(menv, d, code);
      var opens := f.spine.opens;
      SpineUnfinished(menv, fe, code, ParseKids(menv, fe, code, 0).1);
      var k := RunKids(fe, BodyOf(f.trees), 0, InitSt(d));
      CloseRuns(fe, opens, k.s);
      LastTree(fe, f.trees, Close(fe, opens), InitSt(d));
    }
  }

  /** One more tree at the end of a body. */
  lemma LastTree(fe: FunEnv, trees: seq<Syn>, t: Syn, v: St)
    requires RunKids(fe, BodyOf(trees), 0, v).KOk? && Run(fe, t, RunKids(fe, BodyOf(trees), 0, v).s).Ok?
    ensures var k := RunKids(fe, BodyOf(trees + [t]), 0, v);
      k.KOk? && k.s == Run(fe, t, RunKids(fe, BodyOf(trees), 0, v).s).s
  {
    hide Run;
    var a, b := BodyOf(trees), BodyOf(trees + [t]);
    KidsPrefix(fe, a, b, 0, v);
    var s1 := RunKids(fe, a, 0, v).s;
    var w := Run(fe, t, s1);
    assert b.kids[|trees|] == t;
    assert RunKids(fe, b, |trees| + 1, w.s) == KOk(w.s, [], []);
  }

  /** Main theorem, from bytes: the graph built from a body ends in o exactly when the interpreter does for some
      amount of fuel. */
  lemma DecodedGraphMeansBody(menv: ModuleEnv, d: Decl, code: seq<byte>, sem: Sem, args: seq<Val>, world: Val,
      val: seq<Val>, o: Out)
    requires !d.ret.End? && Builds(menv, d, code) && Entry(d, BuiltGraph(menv, d, code), args, world, val)
    ensures GraphOk(BuiltGraph(menv, d, code))
    ensures (exists path, end: nat :: EndsBy(EnvOf(d), BuiltGraph(menv, d, code), sem, val, path, end, o))
       <==> (exists fuel: nat ::
               SameEnd(EnvOf(d), o, FunctionMeaning.Call(d, sem, BodyTrees(menv, EnvOf(d), code), args, world, fuel)))
  {
    AcceptedIsBuild(menv, d, code);
    GraphMeansBody(d, sem, BodyTrees(menv, EnvOf(d), code), args, world, val, o);
  }

  /** A sequence of whole trees stands for those trees. */
  lemma WholeBody(menv: ModuleEnv, fe: FunEnv, code: seq<byte>)
    requires ParseBody(menv, fe, code, 0).ParsedAll?
    ensures BodyTrees(menv, fe, code) == ParseBody(menv, fe, code, 0).trees
  {
    hide ParseKids, ParseBody;
    BodyIsKids(menv, fe, code, 0);
    SpineDone(menv, fe, code);
  }

  /** A module environment with more globals. */
  predicate MoreGlobals(menv: ModuleEnv, menv': ModuleEnv) {
    menv'.(globals := menv.globals) == menv && menv.globals <= menv'.globals
  }

  lemma FetchMore(menv: ModuleEnv, menv': ModuleEnv, code: seq<byte>, pc: nat)
    requires MoreGlobals(menv, menv') && pc < |code| && Fetch(menv, code, pc).Got?
    ensures Fetch(menv', code, pc) == Fetch(menv, code, pc)
  {
    hide LittleEndian, IndexOperand, MemoryOperand, SimpleSig, LoadType, StoreType;
  }

  lemma {:induction false} DecodeMore(menv: ModuleEnv, menv': ModuleEnv, fe: FunEnv, code: seq<byte>, pc: nat, s: State)
    requires MoreGlobals(menv, menv') && pc <= |code| && DecodeFrom(menv, fe, code, pc, s).Next?
    ensures DecodeFrom(menv', fe, code, pc, s) == DecodeFrom(menv, fe, code, pc, s)
    decreases |code| - pc
  {
    hide Fetch, Instruction;
    if pc < |code| {
      FetchMore(menv, menv', code, pc);
      var Got(instr, len) := Fetch(menv, code, pc);
      DecodeMore(menv, menv', fe, code, pc + len, Instruction(fe, s, instr, pc, len).s);
    }
  }

  /** Globals that are declared later do not change what an accepted body is decoded to. */
  lemma LaterGlobals(menv: ModuleEnv, menv': ModuleEnv, d: Decl, code: seq<byte>)
    requires !d.ret.End? && MoreGlobals(menv, menv') && Decode(menv, d, code).Accepted?
    ensures Decode(menv', d, code) == Decode(menv, d, code)
  {
    hide DecodeFrom, InitState;
    DecodeMore(menv, menv', EnvOf(d), code, 0, InitState(d));
  }
}
