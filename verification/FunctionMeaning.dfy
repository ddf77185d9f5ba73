/** Whole functions: the initial environment, the forest of trees of a body, the return at its end,
    and the equivalence of the finished graph with the interpreter. */
module FunctionMeaning {
  import opened Syntax
  import opened Graph
  import opened Interp
  import opened Ssa
  import opened SsaInvariant
  import opened SsaRun
  import opened SsaMeaning
  import opened SsaControl

  /** A function declaration: parameter types, number of locals of each type, return type. */
  datatype Decl = Decl(params: seq<ValueType>, int32s: nat, int64s: nat, float32s: nat, float64s: nat, ret: LocalType)

  function Copies<T>(n: nat, x: T): (s: seq<T>)
    ensures |s| == n && forall i :: 0 <= i < n ==> s[i] == x
  {
    if n == 0 then [] else [x] + Copies(n - 1, x)
  }

  /** Parameters first, then the locals grouped by type. */
  function LocalTypes(d: Decl): (ts: seq<LocalType>)
    ensures forall i :: 0 <= i < |ts| ==> IsValue(ts[i])
  {
    d.params + Copies(d.int32s, I32) + Copies(d.int64s, I64) + Copies(d.float32s, F32) + Copies(d.float64s, F64)
  }

  function EnvOf(d: Decl): FunEnv
    requires !d.ret.End?
  {
    FunctionEnv(LocalTypes(d), d.ret)
  }

  /** The locals of one type share one zero. */
  function AddZeros(g: seq<Node>, slots: seq<nat>, ty: LocalType, count: nat): (seq<Node>, seq<nat>) {
    if count == 0 then (g, slots) else (g + [Literal(ty, 0)], slots + Fill(count, |g|))
  }

  const START: nat := 1

  /** Start node, parameters and zeros. */
  function InitGraph(d: Decl): (seq<Node>, seq<nat>) {
    var g0 := [Null, Start] + seq(|d.params|, i requires 0 <= i => Param(i));
    var s0 := seq(|d.params|, i requires 0 <= i => 2 + i);
    var (g1, s1) := AddZeros(g0, s0, I32, d.int32s);
    var (g2, s2) := AddZeros(g1, s1, I64, d.int64s);
    var (g3, s3) := AddZeros(g2, s2, F32, d.float32s);
    AddZeros(g3, s3, F64, d.float64s)
  }

  function InitSt(d: Decl): St {
    var (g, slots) := InitGraph(d);
    St(g, Env(Reached, START, slots + [START]), [], Log(false, {}))
  }

  /** The trees of a body run like the children of a block, but no branch can leave it. */
  function BodyOf(trees: seq<Syn>): Syn {
    Syn(Block(|trees|), 0, 0, trees)
  }

  datatype Built = Rejected | Accepted(g: seq<Node>)

  /** The return at the end of a body that control falls out of. */
  function ImplicitReturn(fe: FunEnv, k: Kids): Built {
    match k
    case KErr(_) => Rejected
    case KOk(s, tys, nodes) =>
      if !s.cur.Go() || |s.cur.slots| == 0 then Accepted(s.g)
      else
        var world := s.cur.slots[|s.cur.slots| - 1];
        if fe.ret.Stmt? then Accepted(s.g + [Ret(0, world, s.cur.control)])
        else if tys == [] || nodes == [] || tys[|tys| - 1] != fe.ret then Rejected
        else Accepted(s.g + [Ret(nodes[|nodes| - 1], world, s.cur.control)])
  }

  function BuildBody(d: Decl, trees: seq<Syn>): Built
    requires !d.ret.End?
  {
    ImplicitReturn(EnvOf(d), RunKids(EnvOf(d), BodyOf(trees), 0, InitSt(d)))
  }

  /** Calling the function: arguments, zeroed locals, and the world. */
  function InitStore(d: Decl, sem: Sem, args: seq<Val>, world: Val): seq<Val>
    requires |args| == |d.params|
  {
    args + Copies(d.int32s, sem.lit(I32, 0)) + Copies(d.int64s, sem.lit(I64, 0))
      + Copies(d.float32s, sem.lit(F32, 0)) + Copies(d.float64s, sem.lit(F64, 0)) + [world]
  }

  function Call(d: Decl, sem: Sem, trees: seq<Syn>, args: seq<Val>, world: Val, fuel: nat): Out
    requires !d.ret.End? && |args| == |d.params|
  {
    var o := ExecBody(EnvOf(d), sem, BodyOf(trees), InitStore(d, sem, args, world), fuel);
    if o.Norm? && |o.st| > 0 then Done(o.v, o.st[|o.st| - 1]) else o
  }

  /** The phi values when the graph is entered: only parameters and the world matter. */
  predicate Entry(d: Decl, G: seq<Node>, args: seq<Val>, world: Val, val: seq<Val>) {
    && |args| == |d.params| && |val| == |G| && 2 + |args| <= |G|
    && val[START] == world
    && forall i :: 0 <= i < |args| ==> val[2 + i] == args[i]
  }

  /** The graph, entered with val, ends the way o says after the given moves. */
  predicate EndsBy(fe: FunEnv, G: seq<Node>, sem: Sem, val: seq<Val>, path: seq<Hop>, end: nat, o: Out)
    requires GraphOk(G) && |val| == |G|
  {
    var r := Walk(G, sem, START, val, path);
    r.Some? && Ends(fe, G, sem, r.value.1, r.value.0, end, o)
  }

  /** After the given moves control is where nothing uses it. */
  ghost predicate Stuck(G: seq<Node>, sem: Sem, val: seq<Val>, path: seq<Hop>)
    requires GraphOk(G) && |val| == |G|
  {
    var r := Walk(G, sem, START, val, path);
    r.Some? && Own(G, r.value.0)
  }

  predicate Plain(n: Node) {
    n.Null? || n.Start? || n.Param? || n.Literal?
  }

  /** The parameters are in place, and locals of the given types are zero. */
  predicate Zeroed(p: nat, tys: seq<LocalType>, g: seq<Node>, slots: seq<nat>) {
    && p <= |slots| == |tys| && 2 + p <= |g| && g[1] == Start
    && (forall i :: 0 <= i < |g| ==> Plain(g[i]))
    && (forall i :: 0 <= i < p ==> slots[i] == 2 + i && g[2 + i] == Param(i))
    && (forall i :: p <= i < |slots| ==> slots[i] < |g| && g[slots[i]] == Literal(tys[i], 0))
  }

  lemma AddZerosOk(p: nat, tys: seq<LocalType>, g: seq<Node>, slots: seq<nat>, ty: LocalType, count: nat)
    requires Zeroed(p, tys, g, slots)
    ensures var (g', slots') := AddZeros(g, slots, ty, count); Zeroed(p, tys + Copies(count, ty), g', slots')
  {
  }

  lemma InitZeroed(d: Decl)
    ensures var (g, slots) := InitGraph(d); Zeroed(|d.params|, LocalTypes(d), g, slots)
  {
    var g0 := [Null, Start] + seq(|d.params|, i requires 0 <= i => Param(i));
    var s0 := seq(|d.params|, i requires 0 <= i => 2 + i);
    var p := |d.params|;
    assert Zeroed(p, d.params, g0, s0);
    var (g1, s1) := AddZeros(g0, s0, I32, d.int32s);
    AddZerosOk(p, d.params, g0, s0, I32, d.int32s);
    var t1 := d.params + Copies(d.int32s, I32);
    var (g2, s2) := AddZeros(g1, s1, I64, d.int64s);
    AddZerosOk(p, t1, g1, s1, I64, d.int64s);
    var t2 := t1 + Copies(d.int64s, I64);
    var (g3, s3) := AddZeros(g2, s2, F32, d.float32s);
    AddZerosOk(p, t2, g2, s2, F32, d.float32s);
    AddZerosOk(p, t2 + Copies(d.float32s, F32), g3, s3, F64, d.float64s);
  }

  /** The initial environment satisfies the invariants. */
  lemma InitOk(d: Decl)
    requires !d.ret.End?
    ensures Inv(EnvOf(d), InitSt(d)) && Owned(InitSt(d), {})
  {
    InitZeroed(d);
    var (g, slots) := InitGraph(d);
    assert Zeroed(|d.params|, LocalTypes(d), g, slots);
    forall i | 0 <= i < |g| ensures NodeOk(g[i], i) && Controls(g[i]) == [] && Projected(g[i], i) {
      assert Plain(g[i]);
    }
    forall c: nat, n: nat, k: nat ensures !UsedAt(g, c, n, k) {}
    forall i | 0 <= i < |slots| ensures slots[i] < |g| {
      if i < |d.params| { assert slots[i] == 2 + i; }
    }
  }

  lemma ZeroedStands(tys: seq<LocalType>, g: seq<Node>, slots: seq<nat>, sem: Sem, G: seq<Node>, args: seq<Val>,
      val: seq<Val>, st: seq<Val>)
    requires Zeroed(|args|, tys, g, slots) && GraphOk(G) && Ext(g, G) && |val| == |G|
    requires |st| == |tys| + 1 && val[START] == st[|tys|]
    requires forall i :: 0 <= i < |args| ==> st[i] == args[i] && val[2 + i] == args[i]
    requires forall i :: |args| <= i < |tys| ==> st[i] == sem.lit(tys[i], 0)
    ensures Evals(G, sem, val, slots + [START]) == st
  {
    var all := slots + [START];
    forall i | 0 <= i < |all| ensures Eval(G, sem, val, all[i]) == st[i] {
      if i == |slots| {
        assert NodeExt(g[1], G[1]);
      } else if i < |args| {
        assert slots[i] == 2 + i && NodeExt(g[2 + i], G[2 + i]);
      } else {
        assert g[slots[i]] == Literal(tys[i], 0) && NodeExt(g[slots[i]], G[slots[i]]);
      }
    }
  }

  /** The graph is entered with the arguments in the parameters and every other local zero. */
  lemma InitStands(d: Decl, sem: Sem, G: seq<Node>, args: seq<Val>, world: Val, val: seq<Val>)
    requires !d.ret.End? && GraphOk(G) && Ext(InitSt(d).g, G) && Entry(d, G, args, world, val)
    ensures StandsAt(G, sem, val, InitSt(d).cur, InitStore(d, sem, args, world))
  {
    InitZeroed(d);
    StoreOf(d, sem, args, world);
    var (g, slots) := InitGraph(d);
    ZeroedStands(LocalTypes(d), g, slots, sem, G, args, val, InitStore(d, sem, args, world));
  }

  lemma StoreOf(d: Decl, sem: Sem, args: seq<Val>, world: Val)
    requires |args| == |d.params|
    ensures var st := InitStore(d, sem, args, world);
      && |st| == |LocalTypes(d)| + 1 && st[|st| - 1] == world
      && (forall i :: 0 <= i < |args| ==> st[i] == args[i])
      && (forall i :: |args| <= i < |LocalTypes(d)| ==> st[i] == sem.lit(LocalTypes(d)[i], 0))
  {
  }

  /** The graph ends with a return of the last tree. */
  predicate FallsOut(fe: FunEnv, k: Kids, G: seq<Node>)
    requires k.KOk?
  {
    && |k.s.cur.slots| > 0 && |G| == |k.s.g| + 1
    && G[|k.s.g|] == Ret(if fe.ret.Stmt? || k.nodes == [] then 0 else k.nodes[|k.nodes| - 1],
                         k.s.cur.slots[|k.s.cur.slots| - 1], k.s.cur.control)
    && (IsValue(fe.ret) ==> 0 < |k.tys| == |k.nodes| && k.tys[|k.tys| - 1] == fe.ret)
  }

  /** The return at the end keeps the graph in order. */
  lemma EndedOk(fe: FunEnv, t: Syn, s: St, k: Kids)
    requires KidsGood(fe, t, 0, s, k) && Owned(k.s, {}) && ImplicitReturn(fe, k).Accepted?
    ensures var G := ImplicitReturn(fe, k).g;
      && GraphOk(G) && Linear(G) && Ext(k.s.g, G) && (k.s.cur.Go() ==> FallsOut(fe, k, G))
      && forall c :: c in k.s.log.gone ==> Own(G, c)
  {
    var G := ImplicitReturn(fe, k).g;
    ExtRefl(k.s.g);
    hide Ext, Linear;
    if k.s.cur.Go() {
      GrowGood(fe, k.s, G, Kill(ControlEnd));
      OwnedEnd(k.s, G[|k.s.g|], Kill(ControlEnd), {});
    }
  }

  /** The finished graph of an accepted body. */
  lemma BuiltOk(d: Decl, trees: seq<Syn>)
    requires !d.ret.End? && BuildBody(d, trees).Accepted?
    ensures var k := RunKids(EnvOf(d), BodyOf(trees), 0, InitSt(d));
      && k.KOk? && KidsGood(EnvOf(d), BodyOf(trees), 0, InitSt(d), k)
      && var G := BuildBody(d, trees).g;
         && GraphOk(G) && Linear(G) && Ext(k.s.g, G) && Ext(InitSt(d).g, G)
         && (k.s.cur.Go() ==> FallsOut(EnvOf(d), k, G)) && forall c :: c in k.s.log.gone ==> Own(G, c)
  {
    assert InitSt(d).cur.Go() by { hide InitGraph; }
    hide RunKids, InitSt, Ext, Linear, Owned;
    var fe := EnvOf(d);
    InitOk(d);
    RunKidsOk(fe, BodyOf(trees), 0, InitSt(d));
    KidsOwned(fe, BodyOf(trees), 0, InitSt(d), {});
    var k := RunKids(fe, BodyOf(trees), 0, InitSt(d));
    EndedOk(fe, BodyOf(trees), InitSt(d), k);
    ExtTrans(InitSt(d).g, k.s.g, BuildBody(d, trees).g);
  }

  /** Control falls out of the last tree into the return. */
  lemma FallEnds(fe: FunEnv, sem: Sem, G: seq<Node>, c0: nat, val: seq<Val>, bound: nat, k: Kids, o: Outs, w: Wit)
    requires GraphOk(G) && |val| == |G| && k.KOk? && FallsOut(fe, k, G) && o.Vals? && |o.st| > 0
    requires SimsKids(fe, sem, G, c0, val, bound, k, o, w)
    ensures Ends(fe, G, sem, w.val, w.c, |k.s.g|, Done(Last(sem, o.vs), o.st[|o.st| - 1]))
  {
    assert Evals(G, sem, w.val, k.s.cur.slots)[|o.st| - 1] == o.st[|o.st| - 1];
  }

  /** Whatever calling the function does, the graph does: it returns the same value and world, or traps
      in the same world, or keeps going. */
  lemma GraphFollows(d: Decl, sem: Sem, trees: seq<Syn>, args: seq<Val>, world: Val, fuel: nat, val: seq<Val>)
    returns (path: seq<Hop>, end: nat)
    requires !d.ret.End? && BuildBody(d, trees).Accepted? && Entry(d, BuildBody(d, trees).g, args, world, val)
    ensures GraphOk(BuildBody(d, trees).g)
    ensures var G, o := BuildBody(d, trees).g, Call(d, sem, trees, args, world, fuel);
      match o
      case Fuel(laps) => laps >= fuel && |path| >= laps && Walk(G, sem, START, val, path).Some?
      case Lost => Stuck(G, sem, val, path)
      case _ => (o.Done? || o.Trap?) && EndsBy(EnvOf(d), G, sem, val, path, end, o)
  {
    hide RunKids, InitSt, Linear, ExecKids, Walk, Ends;
    BuiltOk(d, trees);
    var k := RunKids(EnvOf(d), BodyOf(trees), 0, InitSt(d));
    var G := BuildBody(d, trees).g;
    var w := BodySim(d, sem, trees, args, world, fuel, G, val);
    StoreOf(d, sem, args, world);
    assert k.s.blocks == [] by { NoBlocks(d); }
    path, end := FollowKids(EnvOf(d), sem, G, val, |InitSt(d).g|, k, fuel, BodyOf(trees),
      InitStore(d, sem, args, world), w);
  }

  lemma NoBlocks(d: Decl)
    ensures InitSt(d).blocks == []
  {
    hide InitGraph;
  }

  lemma BodySim(d: Decl, sem: Sem, trees: seq<Syn>, args: seq<Val>, world: Val, fuel: nat, G: seq<Node>, val: seq<Val>)
    returns (w: Wit)
    requires !d.ret.End? && GraphOk(G) && Entry(d, G, args, world, val)
    requires var k := RunKids(EnvOf(d), BodyOf(trees), 0, InitSt(d)); k.KOk? && Ext(k.s.g, G) && Ext(InitSt(d).g, G)
    ensures |InitStore(d, sem, args, world)| == |EnvOf(d).locals| + 1
    ensures SimsKids(EnvOf(d), sem, G, START, val, |InitSt(d).g|, RunKids(EnvOf(d), BodyOf(trees), 0, InitSt(d)),
                     ExecKids(EnvOf(d), sem, BodyOf(trees), 0, InitStore(d, sem, args, world), fuel), w)
  {
    InitOk(d);
    StoreOf(d, sem, args, world);
    InitStands(d, sem, G, args, world, val);
    w := SimKids(EnvOf(d), sem, BodyOf(trees), 0, InitSt(d), InitStore(d, sem, args, world), fuel, G, val);
  }

  lemma FollowKids(fe: FunEnv, sem: Sem, G: seq<Node>, val: seq<Val>, bound: nat, k: Kids, fuel: nat, body: Syn,
      st: seq<Val>, w: Wit) returns (path: seq<Hop>, end: nat)
    requires GraphOk(G) && |val| == |G| && k.KOk? && k.s.blocks == [] && |st| == |fe.locals| + 1
    requires (k.s.cur.Go() ==> FallsOut(fe, k, G)) && forall c :: c in k.s.log.gone ==> Own(G, c)
    requires SimsKids(fe, sem, G, START, val, bound, k, ExecKids(fe, sem, body, 0, st, fuel), w)
    ensures var o := ExecBody(fe, sem, body, st, fuel);
      match o
      case Fuel(laps) => laps >= fuel && |path| >= laps && Walk(G, sem, START, val, path).Some?
      case Lost => Stuck(G, sem, val, path)
      case Norm(v, st1) => |st1| > 0 && EndsBy(fe, G, sem, val, path, end, Done(v, st1[|st1| - 1]))
      case _ => (o.Done? || o.Trap?) && EndsBy(fe, G, sem, val, path, end, o)
  {
    var o := ExecKids(fe, sem, body, 0, st, fuel);
    assert ExecBody(fe, sem, body, st, fuel) == BodyOut(sem, o);
    KidsFuelIsLaps(fe, sem, body, 0, st, fuel);
    path, end := w.path, w.end;
    if o.Vals? {
      end := |k.s.g|;
      FallEnds(fe, sem, G, START, val, bound, k, o, w);
    }
  }

  /** The node and input through which a move uses the control it starts from. */
  function Use(G: seq<Node>, h: Hop): (nat, nat)
    requires h.node < |G|
  {
    if h.Enter? then (h.node, h.edge)
    else if G[h.node].IfTrue? || G[h.node].IfFalse? then (G[h.node].branch, 0)
    else (h.node, 0)
  }

  /** From one control node there is at most one move. */
  lemma OneMove(G: seq<Node>, sem: Sem, val: seq<Val>, c: nat, h: Hop, h': Hop)
    requires GraphOk(G) && |val| == |G| && Linear(G) && CanHop(G, sem, val, c, h) && CanHop(G, sem, val, c, h')
    ensures h == h'
  {
    var (n, k) := Use(G, h);
    var (n', k') := Use(G, h');
    assert UsedAt(G, c, n, k) && UsedAt(G, c, n', k');
    assert Projected(G[h.node], h.node) && Projected(G[h'.node], h'.node);
  }

  /** Where the function ends there is no move. */
  lemma NoMove(fe: FunEnv, G: seq<Node>, sem: Sem, val: seq<Val>, c: nat, end: nat, o: Out, h: Hop)
    requires GraphOk(G) && |val| == |G| && Linear(G) && Ends(fe, G, sem, val, c, end, o)
    ensures !CanHop(G, sem, val, c, h)
  {
    assert UsedAt(G, c, end, 0);
    assert h.node < |G| ==> var (n, k) := Use(G, h); UsedAt(G, c, n, k) ==> n == end;
  }

  /** A run that ends extends every other run. */
  lemma {:induction false} RunsAgree(fe: FunEnv, G: seq<Node>, sem: Sem, c: nat, val: seq<Val>, p: seq<Hop>,
      q: seq<Hop>, end: nat, o: Out)
    requires GraphOk(G) && |val| == |G| && Linear(G)
    requires Walk(G, sem, c, val, p).Some? && Walk(G, sem, c, val, q).Some?
    requires var (c', val') := Walk(G, sem, c, val, p).value; Ends(fe, G, sem, val', c', end, o)
    ensures q <= p
    decreases |p|
  {
    if q != [] {
      if p == [] {
        NoMove(fe, G, sem, val, c, end, o, q[0]);
      } else {
        OneMove(G, sem, val, c, p[0], q[0]);
        var val' := if p[0].Take? then val else TakeEdge(G, sem, val, p[0].node, p[0].edge);
        RunsAgree(fe, G, sem, p[0].node, val', p[1..], q[1..], end, o);
      }
    }
  }

  /** A run that is stuck has no end. */
  lemma StuckForever(fe: FunEnv, G: seq<Node>, sem: Sem, val: seq<Val>, q: seq<Hop>, path: seq<Hop>, end: nat, o: Out)
    requires GraphOk(G) && |val| == |G| && Linear(G) && Stuck(G, sem, val, q) && q <= path
    ensures !EndsBy(fe, G, sem, val, path, end, o)
  {
    hide Linear;
    assert path == q + path[|q|..];
    WalkOn(G, sem, START, val, q, path[|q|..]);
    var (c, val') := Walk(G, sem, START, val, q).value;
    if path == q {
      if end < |G| { assert !UsedAt(G, c, end, 0); }
    } else {
      var h := path[|q|..][0];
      if h.node < |G| {
        var (n, k) := Use(G, h);
        assert !UsedAt(G, c, n, k);
      }
    }
  }

  /** The same end, as far as a caller can tell. */
  predicate SameEnd(fe: FunEnv, o: Out, o': Out) {
    || (o.Trap? && o' == o)
    || (o.Done? && o'.Done? && o.w == o'.w && (IsValue(fe.ret) ==> o.v == o'.v))
  }

  lemma OneEnd(fe: FunEnv, G: seq<Node>, sem: Sem, val: seq<Val>, c: nat, end: nat, o: Out, end': nat, o': Out)
    requires GraphOk(G) && |val| == |G| && Linear(G) && Ends(fe, G, sem, val, c, end, o)
    requires Ends(fe, G, sem, val, c, end', o')
    ensures SameEnd(fe, o, o')
  {
    assert UsedAt(G, c, end, 0) && UsedAt(G, c, end', 0);
  }

  /** Main theorem. The graph of an accepted body and the interpreter agree on every call: the graph
      ends in o exactly when the interpreter does for some amount of fuel. */
  lemma GraphMeansBody(d: Decl, sem: Sem, trees: seq<Syn>, args: seq<Val>, world: Val, val: seq<Val>, o: Out)
    requires !d.ret.End? && BuildBody(d, trees).Accepted? && Entry(d, BuildBody(d, trees).g, args, world, val)
    ensures GraphOk(BuildBody(d, trees).g)
    ensures (exists path, end: nat :: EndsBy(EnvOf(d), BuildBody(d, trees).g, sem, val, path, end, o))
       <==> (exists fuel: nat :: SameEnd(EnvOf(d), o, Call(d, sem, trees, args, world, fuel)))
  {
    var fe, G := EnvOf(d), BuildBody(d, trees).g;
    BuiltOk(d, trees);
    if path, end: nat :| EndsBy(fe, G, sem, val, path, end, o) {
      var fuel := |path| + 1;
      var q, end' := GraphFollows(d, sem, trees, args, world, fuel, val);
      RunsAgree(fe, G, sem, START, val, path, q, end, o);
      var o' := Call(d, sem, trees, args, world, fuel);
      if o'.Lost? { StuckForever(fe, G, sem, val, q, path, end, o); }
      RunsAgree(fe, G, sem, START, val, q, path, end', o');
      assert q == path;
      var (c, val') := Walk(G, sem, START, val, path).value;
      OneEnd(fe, G, sem, val', c, end, o, end', o');
    }
    if fuel: nat :| SameEnd(fe, o, Call(d, sem, trees, args, world, fuel)) {
      var q, end' := GraphFollows(d, sem, trees, args, world, fuel, val);
      assert EndsBy(fe, G, sem, val, q, end', o);
    }
  }
}
