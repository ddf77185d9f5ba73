/** Whole asm.js functions: compile, decode, and run the graph. */
module AsmFunction {
  import S = Syntax
  import opened Graph
  import opened Leb128
  import opened Opcodes
  import opened ByteLists
  import opened Asm
  import opened AsmMeaning
  import opened AsmParse
  import opened LrParse
  import I = Interp
  import F = FunctionMeaning
  import D = DecodeFunction

  /** The bytes of a function body: its statements without a block around them. */
  function Body(f: Stmt): seq<byte>
    requires f.Seq?
  {
    BytesFrom(f, 0, [])
  }

  /** Control does not fall off the end of a function that has a value to return. */
  predicate Closed(fe: S.FunEnv, f: Stmt)
    requires f.Seq?
  {
    fe.ret.Stmt? || exists i :: 0 <= i < |f.body| && f.body[i].Ret?
  }

  /** Calling the function, as its statements say. */
  function CallSource(d: F.Decl, sem: Sem, f: Stmt, args: seq<Val>, world: Val, fuel: nat): Outcome
    requires f.Seq? && |args| == |d.params|
  {
    RunFrom(sem, f, 0, F.InitStore(d, sem, args, world), fuel)
  }

  /** The graph's end is the function's. */
  predicate SameAs(fe: S.FunEnv, x: I.Out, o: Outcome) {
    match o
    case Go(st) => |st| > 0 && x.Done? && x.w == WorldOf(st)
    case Return(v, w) => x.Done? && x.w == w && (S.IsValue(fe.ret) ==> x.v == v)
    case Trap(w) => x == I.Trap(w)
    case _ => false
  }

  lemma {:induction false} ManyIsBody(menv: ModuleEnv, fe: S.FunEnv, code: seq<byte>, pc: nat, n: nat, ts: seq<S.Syn>)
    requires pc <= |code| && ParseMany(menv, fe, code, pc, n) == ParsedAll(ts, |code|)
    ensures ParseBody(menv, fe, code, pc) == ParsedAll(ts, |code|)
    decreases n
  {
    hide Parse;
    if n > 0 {
      var Parsed(t, mid) := Parse(menv, fe, code, pc);
      ManyIsBody(menv, fe, code, mid, n - 1, ts[1..]);
      assert ts == [t] + ts[1..];
    }
  }

  /** The compiled bytes are a sequence of whole trees, those of the statements. */
  lemma BodyParses(menv: ModuleEnv, fe: S.FunEnv, f: Stmt) returns (ts: seq<S.Syn>)
    requires f.Seq? && FitFrom(fe, f, 0, [])
    ensures ParseBody(menv, fe, Body(f), 0) == ParsedAll(ts, |Body(f)|) && CompilesFrom(fe, ts, 0, f, 0, [])
  {
    hide ParseMany, ParseBody, CompilesFrom, FitFrom, BytesFrom;
    var code := Body(f);
    assert Has(code, 0, code);
    ts := ParseList(menv, fe, code, 0, f, 0, []);
    ManyIsBody(menv, fe, code, 0, Emitted(f, 0), ts);
  }

  /** A top-level return is not passed. */
  lemma {:induction false} Returns(sem: Sem, f: Stmt, i: nat, k: nat, st: seq<Val>, fuel: nat)
    requires f.Seq? && i <= k < |f.body| && f.body[k].Ret? && |st| > 0
    ensures !RunFrom(sem, f, i, st, fuel).Go?
    decreases k - i
  {
    var o := Run(sem, f.body[i], st, fuel);
    if i < k && o.Go? { Returns(sem, f, i + 1, k, o.st, fuel); }
  }

  /** Interpreting the trees is running the statements. */
  lemma CallsAgree(d: F.Decl, sem: Sem, f: Stmt, ts: seq<S.Syn>, args: seq<Val>, world: Val, fuel: nat)
    requires !d.ret.End? && f.Seq? && |args| == |d.params| && CompilesFrom(F.EnvOf(d), ts, 0, f, 0, [])
    requires Closed(F.EnvOf(d), f)
    ensures var x, o := F.Call(d, sem, ts, args, world, fuel), CallSource(d, sem, f, args, world, fuel);
      if o.OutOf? then x == I.Fuel(o.laps)
      else !o.Jump? && SameAs(F.EnvOf(d), x, o) && (o.Go? ==> d.ret.Stmt?)
  {
    hide I.ExecKids, RunFrom, CompilesFrom;
    var fe := F.EnvOf(d);
    var st := F.InitStore(d, sem, args, world);
    F.StoreOf(d, sem, args, world);
    SimFrom(fe, sem, F.BodyOf(ts), 0, f, 0, [], st, fuel);
    if k :| 0 <= k < |f.body| && f.body[k].Ret? { Returns(sem, f, 0, k, st, fuel); }
  }

  /** Main theorem for compiled functions: the graph the decoder makes of the compiled bytes ends in x exactly
      when the statements do, for some amount of fuel. */
  lemma CompiledMeans(menv: ModuleEnv, d: F.Decl, f: Stmt, sem: Sem, args: seq<Val>, world: Val, val: seq<Val>,
      x: I.Out)
    requires !d.ret.End? && f.Seq? && FitFrom(F.EnvOf(d), f, 0, []) && Closed(F.EnvOf(d), f)
    requires D.Builds(menv, d, Body(f)) && F.Entry(d, D.BuiltGraph(menv, d, Body(f)), args, world, val)
    ensures GraphOk(D.BuiltGraph(menv, d, Body(f)))
    ensures (exists path, end: nat :: F.EndsBy(F.EnvOf(d), D.BuiltGraph(menv, d, Body(f)), sem, val, path, end, x))
       <==> (exists fuel: nat :: SameAs(F.EnvOf(d), x, CallSource(d, sem, f, args, world, fuel)))
  {
    hide D.BuildMode, FitFrom, BytesFrom, CompilesFrom, F.EndsBy, F.Call, CallSource, ParseBody, SameAs, Closed;
    var fe := F.EnvOf(d);
    var ts := BodyParses(menv, fe, f);
    D.WholeBody(menv, fe, Body(f));
    D.DecodedGraphMeansBody(menv, d, Body(f), sem, args, world, val, x);
    if fuel: nat :| SameAs(fe, x, CallSource(d, sem, f, args, world, fuel)) {
      EndsAlike(d, sem, f, ts, args, world, fuel, x);
    }
    if fuel: nat :| F.SameEnd(fe, x, F.Call(d, sem, ts, args, world, fuel)) {
      EndsAlike(d, sem, f, ts, args, world, fuel, x);
    }
  }

  lemma EndsAlike(d: F.Decl, sem: Sem, f: Stmt, ts: seq<S.Syn>, args: seq<Val>, world: Val, fuel: nat, x: I.Out)
    requires !d.ret.End? && f.Seq? && |args| == |d.params| && CompilesFrom(F.EnvOf(d), ts, 0, f, 0, [])
    requires Closed(F.EnvOf(d), f)
    ensures F.SameEnd(F.EnvOf(d), x, F.Call(d, sem, ts, args, world, fuel))
       <==> SameAs(F.EnvOf(d), x, CallSource(d, sem, f, args, world, fuel))
  {
    hide F.Call, CallSource, CompilesFrom, Closed;
    CallsAgree(d, sem, f, ts, args, world, fuel);
  }
}
