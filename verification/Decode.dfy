/** The whole run of the decoder on one function. */
module Decode {
  import opened Syntax
  import opened Graph
  import opened Ssa
  import opened Leb128
  import opened Opcodes
  import opened Lr
  import opened LrInvariant
  import opened LrDecoder
  import opened FunctionMeaning
  import D = DecodeFunction

  /** The locals of one type share one zero. */
  method InitLocals(g: seq<Node>, locals: array<nat>, pos: nat, ty: LocalType, count: nat) returns (g': seq<Node>)
    requires pos + count <= locals.Length
    modifies locals
    ensures (g', locals[..pos + count]) == AddZeros(g, old(locals[..pos]), ty, count)
  {
    g' := g;
    if count > 0 {
      var zero := |g|;
      g' := g + [Literal(ty, 0)];
      var i := 0;
      while i < count
        invariant 0 <= i <= count && locals[..pos + i] == old(locals[..pos]) + Fill(i, zero)
      {
        locals[pos + i] := zero;
        FillMore(i, zero);
        i := i + 1;
        assert locals[..pos + i] == locals[..pos + i - 1] + [zero];
      }
    }
  }

  /** The parameters come first. */
  method InitParams(g: seq<Node>, locals: array<nat>, n: nat) returns (g': seq<Node>)
    requires n <= locals.Length && |g| == 2
    modifies locals
    ensures g' == g + seq(n, j requires 0 <= j => Param(j)) && locals[..n] == seq(n, j requires 0 <= j => 2 + j)
  {
    g' := g;
    var i := 0;
    while i < n
      invariant 0 <= i <= n
      invariant g' == g + seq(i, j requires 0 <= j => Param(j))
      invariant locals[..i] == seq(i, j requires 0 <= j => 2 + j)
    {
      locals[i] := |g'|;
      g' := g' + [Param(i)];
      i := i + 1;
      assert locals[..i] == locals[..i - 1] + [2 + (i - 1)];
    }
  }

  /** Start node, parameters, then the zeros of each type. */
  method InitSsaEnv(d: Decl) returns (g: seq<Node>, locals: array<nat>)
    ensures fresh(locals) && (g, locals[..]) == InitGraph(d)
  {
    locals := new nat[|LocalTypes(d)|];
    g := InitParams([Null, Start], locals, |d.params|);
    var i := |d.params|;
    g := InitLocals(g, locals, i, I32, d.int32s);
    i := i + d.int32s;
    g := InitLocals(g, locals, i, I64, d.int64s);
    i := i + d.int64s;
    g := InitLocals(g, locals, i, F32, d.float32s);
    i := i + d.float32s;
    g := InitLocals(g, locals, i, F64, d.float64s);
    assert locals[..i + d.float64s] == locals[..];
  }

  lemma StartSound(d: Decl)
    requires !d.ret.End?
    ensures Sound(EnvOf(d), D.InitState(d)) && AllWait(EnvOf(d), D.InitState(d))
  {
    hide InitGraph;
    var s := D.InitState(d);
    assert Owners(EnvOf(d), s) == [0];
  }

  method NewDecoder(menv: ModuleEnv, d: Decl) returns (r: LrWasmDecoder)
    requires !d.ret.End?
    ensures fresh(r) && fresh(r.repr) && r.menv == menv && r.fe == EnvOf(d) && r.Valid() && r.ok
    ensures r.Abs() == D.InitState(d)
  {
    hide InitGraph;
    var g, locals := InitSsaEnv(d);
    r := new LrWasmDecoder(menv, EnvOf(d));
    var env := new SsaEnv(0, Reached, START, START, locals);
    ghost var e := Env(Reached, START, locals[..] + [START]);
    assert |locals[..]| == |EnvOf(d).locals| by { InitZeroed(d); }
    r.Add(env, e);
    r.g, r.ssaEnv := g, env;
    assert Ids(r.blocks) == [] && Pairs(r.ifs) == [];
  }

  /** Decoding a body: the decoder on the heap gives exactly what the functional decoder gives, and knows whether
      a store of a local went astray. */
  method DecodeBody(menv: ModuleEnv, d: Decl, code: seq<byte>) returns (r: Built, strayed: bool)
    requires !d.ret.End?
    ensures r == D.Decode(menv, d, code) && strayed == D.Strays(menv, d, code)
    ensures D.BuildMode(menv, d, code) == if strayed then D.Crashed else D.Finished(r)
  {
    hide InitGraph, DecodeFrom, Sound, AllWait, D.InitState;
    var dec := NewDecoder(menv, d);
    StartSound(d);
    dec.DecodeFunctionBody(code);
    strayed := dec.strayed;
    if !dec.ok { return Rejected, strayed; }
    r := Finish(dec);
  }

  /** The end of the code: unfinished trees are an error if control is live, otherwise the function returns
      implicitly what its last tree gave. */
  method Finish(dec: LrWasmDecoder) returns (r: Built)
    requires dec.Valid()
    ensures r == D.Finish(dec.fe, Next(dec.Abs()))
  {
    assert dec.ssaEnv.Shows(dec.envs[dec.ssaEnv.id], |dec.fe.locals|);
    var env, trees, ret := dec.ssaEnv, dec.trees, dec.fe.ret;
    if env.Go() {
      if dec.stack != [] { return Rejected; }
      if ret.Stmt? { return Accepted(dec.g + [Ret(0, env.effect, env.control)]); }
      if trees == [] || trees[|trees| - 1].ty != ret { return Rejected; }
      return Accepted(dec.g + [Ret(trees[|trees| - 1].node, env.effect, env.control)]);
    }
    if trees == [] && !ret.Stmt? { return Rejected; }
    return Accepted(dec.g);
  }
}
