/** What every step of the shift-reduce decoder keeps: the block stack and the if stack mirror the open
    productions, every pending environment has one owner, and no live environment can reach an ended one. */
module LrInvariant {
  import opened Syntax
  import opened Graph
  import opened Ssa
  import opened Leb128
  import opened Opcodes
  import opened Lr
  import opened LrParse

  /** Block entries an unfinished production holds: one for a block, two for a loop. */
  function Opens(fe: FunEnv, p: Production): nat {
    if Done(fe, p) then 0 else if p.instr.Block? then 1 else if p.instr.Loop? then 2 else 0
  }

  /** Does an unfinished production hold an if entry? From its condition to its last arm. */
  predicate PendsIf(fe: FunEnv, p: Production) {
    !Done(fe, p) && (p.instr.If? || p.instr.IfElse?) && p.kids != []
  }

  function Under(fe: FunEnv, p: Production, ifs: seq<IfEnv>): seq<IfEnv> {
    if PendsIf(fe, p) && ifs != [] then ifs[..|ifs| - 1] else ifs
  }

  /** The block stack is one entry per open block and two per open loop in production order, each with
      the depth of its production; the if stack is one entry per if whose condition is there. */
  predicate Disc(fe: FunEnv, stack: seq<Production>, blocks: seq<Blk>, ifs: seq<IfEnv>) {
    if stack == [] then blocks == [] && ifs == []
    else
      var n := |stack| - 1;
      var k := Opens(fe, stack[n]);
      && |blocks| >= k && (k >= 1 ==> blocks[|blocks| - k].depth == n) && (k == 2 ==> blocks[|blocks| - 1].depth == -1)
      && (PendsIf(fe, stack[n]) ==> ifs != [])
      && Disc(fe, stack[..n], blocks[..|blocks| - k], Under(fe, stack[n], ifs))
  }

  /** Environments an if entry keeps for later. */
  function Kept(p: Production, f: IfEnv): seq<nat> {
    if p.instr.IfElse? && |p.kids| == 1 then [f.mergeEnv, f.falseEnv] else [f.mergeEnv]
  }

  function Envs(blocks: seq<Blk>): (r: seq<nat>)
    ensures |r| == |blocks| && forall i :: 0 <= i < |r| ==> r[i] == blocks[i].env
  {
    if blocks == [] then [] else [blocks[0].env] + Envs(blocks[1..])
  }

  /** Environments of production p on top of the given block and if entries. */
  function Holds(fe: FunEnv, p: Production, blocks: seq<Blk>, ifs: seq<IfEnv>): seq<nat> {
    if |blocks| < Opens(fe, p) then []
    else Envs(blocks[|blocks| - Opens(fe, p)..]) + if PendsIf(fe, p) && ifs != [] then Kept(p, ifs[|ifs| - 1]) else []
  }

  /** All environments decoding will come back to, outermost first. */
  function Pending(fe: FunEnv, stack: seq<Production>, blocks: seq<Blk>, ifs: seq<IfEnv>): seq<nat>
    decreases |stack|
  {
    if stack == [] then []
    else
      var n := |stack| - 1;
      var k := Opens(fe, stack[n]);
      if |blocks| < k then []
      else Pending(fe, stack[..n], blocks[..|blocks| - k], Under(fe, stack[n], ifs)) + Holds(fe, stack[n], blocks, ifs)
  }

  /** Each environment has one owner, and nothing inside an ended environment is live. */
  predicate Ordered(zone: seq<Env>, c: seq<nat>) {
    && (forall i :: 0 <= i < |c| ==> c[i] < |zone|)
    && (forall i, j :: 0 <= i < j < |c| ==> c[i] != c[j])
    && (forall i, j :: 0 <= i < j < |c| && zone[c[i]].state.ControlEnd? ==> !zone[c[j]].Go())
  }

  /** Every production but the top one is waiting for a child. */
  predicate Waits(fe: FunEnv, stack: seq<Production>) {
    forall i :: 0 <= i < |stack| - 1 ==> !Done(fe, stack[i])
  }

  function Owners(fe: FunEnv, s: State): seq<nat> {
    Pending(fe, s.stack, s.blocks, s.ifs) + [s.cur]
  }

  predicate Sound(fe: FunEnv, s: State) {
    && Waits(fe, s.stack) && Disc(fe, s.stack, s.blocks, s.ifs) && Ordered(s.zone, Owners(fe, s))
  }

  /** Only the instructions and numbers of children matter. */
  predicate Alike(a: seq<Production>, b: seq<Production>) {
    |a| == |b| && forall i :: 0 <= i < |a| ==> a[i].instr == b[i].instr && |a[i].kids| == |b[i].kids|
  }

  lemma HoldsAlike(fe: FunEnv, p: Production, q: Production, blocks: seq<Blk>, ifs: seq<IfEnv>)
    requires p.instr == q.instr && |p.kids| == |q.kids|
    ensures Opens(fe, p) == Opens(fe, q) && PendsIf(fe, p) == PendsIf(fe, q)
    ensures Under(fe, p, ifs) == Under(fe, q, ifs) && Holds(fe, p, blocks, ifs) == Holds(fe, q, blocks, ifs)
  {
  }

  lemma {:induction false} DiscAlike(fe: FunEnv, a: seq<Production>, b: seq<Production>, blocks: seq<Blk>,
      ifs: seq<IfEnv>)
    requires Alike(a, b)
    ensures Disc(fe, a, blocks, ifs) == Disc(fe, b, blocks, ifs)
    ensures Pending(fe, a, blocks, ifs) == Pending(fe, b, blocks, ifs)
    decreases |a|
  {
    hide Opens, PendsIf, Under, Holds;
    if a != [] {
      var n := |a| - 1;
      HoldsAlike(fe, a[n], b[n], blocks, ifs);
      if |blocks| >= Opens(fe, a[n]) {
        DiscAlike(fe, a[..n], b[..n], blocks[..|blocks| - Opens(fe, a[n])], Under(fe, a[n], ifs));
      }
    }
  }

  /** One production on top of a stack. */
  lemma DiscPush(fe: FunEnv, stack: seq<Production>, p: Production, blocks: seq<Blk>, ifs: seq<IfEnv>)
    requires |blocks| >= Opens(fe, p)
    ensures var k := Opens(fe, p);
      Disc(fe, stack + [p], blocks, ifs) <==>
        (&& (k >= 1 ==> blocks[|blocks| - k].depth == |stack|) && (k == 2 ==> blocks[|blocks| - 1].depth == -1)
         && (PendsIf(fe, p) ==> ifs != []) && Disc(fe, stack, blocks[..|blocks| - k], Under(fe, p, ifs)))
  {
    hide Opens, PendsIf, Under;
    assert (stack + [p])[..|stack|] == stack;
  }

  lemma PendingPush(fe: FunEnv, stack: seq<Production>, p: Production, blocks: seq<Blk>, ifs: seq<IfEnv>)
    requires |blocks| >= Opens(fe, p)
    ensures Pending(fe, stack + [p], blocks, ifs)
         == Pending(fe, stack, blocks[..|blocks| - Opens(fe, p)], Under(fe, p, ifs)) + Holds(fe, p, blocks, ifs)
  {
    hide Opens, PendsIf, Under, Holds;
    assert (stack + [p])[..|stack|] == stack;
  }

  /** Every block entry is pending. */
  lemma {:induction false} EntryPends(fe: FunEnv, stack: seq<Production>, blocks: seq<Blk>, ifs: seq<IfEnv>, j: nat)
    requires Disc(fe, stack, blocks, ifs) && j < |blocks|
    ensures blocks[j].env in Pending(fe, stack, blocks, ifs)
    decreases |stack|
  {
    hide PendsIf, Under;
    if stack != [] {
      var n := |stack| - 1;
      var k := Opens(fe, stack[n]);
      if j < |blocks| - k {
        EntryPends(fe, stack[..n], blocks[..|blocks| - k], Under(fe, stack[n], ifs), j);
      } else {
        var top := blocks[|blocks| - k..];
        assert Envs(top)[j - (|blocks| - k)] == top[j - (|blocks| - k)].env == blocks[j].env;
      }
    }
  }

  /** The number of block entries of a stack of productions. */
  function OpenCount(fe: FunEnv, stack: seq<Production>): nat {
    if stack == [] then 0 else OpenCount(fe, stack[..|stack| - 1]) + Opens(fe, stack[|stack| - 1])
  }

  function IfCount(fe: FunEnv, stack: seq<Production>): nat {
    if stack == [] then 0 else IfCount(fe, stack[..|stack| - 1]) + if PendsIf(fe, stack[|stack| - 1]) then 1 else 0
  }

  lemma {:induction false} DiscCounts(fe: FunEnv, stack: seq<Production>, blocks: seq<Blk>, ifs: seq<IfEnv>)
    requires Disc(fe, stack, blocks, ifs)
    ensures |blocks| == OpenCount(fe, stack) && |ifs| == IfCount(fe, stack)
    decreases |stack|
  {
    hide PendsIf, Opens;
    if stack != [] {
      var n := |stack| - 1;
      DiscCounts(fe, stack[..n], blocks[..|blocks| - Opens(fe, stack[n])], Under(fe, stack[n], ifs));
    }
  }

  /** The current environment changes without coming to life. */
  lemma OrderedSet(zone: seq<Env>, c: seq<nat>, e: Env)
    requires c != [] && Ordered(zone, c) && (e.Go() ==> zone[c[|c| - 1]].Go())
    ensures Ordered(zone[c[|c| - 1] := e], c)
  {
  }

  /** The current environment, live, goes into a pending one and ends. */
  lemma OrderedGoto(zone: seq<Env>, c: seq<nat>, to: nat, e: Env)
    requires c != [] && Ordered(zone, c) && to in c[..|c| - 1] && zone[c[|c| - 1]].Go() && !e.state.ControlEnd?
    ensures !zone[to].state.ControlEnd?
    ensures Ordered(zone[to := e][c[|c| - 1] := Kill(ControlEnd)], c)
  {
    var i :| 0 <= i < |c| - 1 && c[..|c| - 1][i] == to;
    assert c[i] == to;
  }

  /** The current environment becomes pending, with fresh ones inside it. */
  lemma OrderedPush(zone: seq<Env>, c: seq<nat>, e: Env, added: seq<Env>, ids: seq<nat>)
    requires c != [] && Ordered(zone, c) && |ids| == |added| && (forall i :: 0 <= i < |ids| ==> ids[i] == |zone| + i)
    requires if zone[c[|c| - 1]].Go() then !e.state.ControlEnd? && forall i :: 0 <= i < |added| ==>
      !added[i].state.ControlEnd?
             else !e.Go() && forall i :: 0 <= i < |added| ==> !added[i].Go()
    ensures Ordered(zone[c[|c| - 1] := e] + added, c + ids)
  {
  }

  lemma OrderedPrefix(zone: seq<Env>, c: seq<nat>, d: seq<nat>)
    requires Ordered(zone, c + d)
    ensures Ordered(zone, c)
  {
    forall i | 0 <= i < |c| ensures c[i] == (c + d)[i] {}
  }

  lemma GotoAlive(fe: FunEnv, g: seq<Node>, from: Env, to: Env)
    requires !to.state.ControlEnd? && from.Go()
    ensures !Goto(fe, g, from, to).1.state.ControlEnd?
  {
    hide MergeSlots;
  }

  /** A branch to a pending entry keeps the order. */
  lemma BreakOrdered(fe: FunEnv, s: State, c: seq<nat>, b: Blk, t: Tree)
    requires Ordered(s.zone, c) && c != [] && c[|c| - 1] == s.cur && b.env in c[..|c| - 1]
    ensures var s' := ReduceBreak(fe, s, b, t);
      && Ordered(s'.zone, c) && Alike(s'.stack, s.stack) && s'.blocks == s.blocks && s'.ifs == s.ifs && s'.cur == s.cur
  {
    hide Goto, MergeNode;
    if Cur(s).Go() {
      var e := Goto(fe, s.g, Cur(s), EnvAt(s, b.env)).1;
      var j :| 0 <= j < |c| - 1 && c[..|c| - 1][j] == b.env;
      assert c[j] == b.env;
      GotoAlive(fe, s.g, Cur(s), EnvAt(s, b.env));
      OrderedGoto(s.zone, c, b.env, e);
    }
  }

  /** A state is sound when the stack below its top production is disciplined, the top production's
      entries are on top, and all owners together are ordered. */
  lemma Rebuild(fe: FunEnv, s: State, rest: seq<Production>, blocks: seq<Blk>, ifs: seq<IfEnv>)
    requires s.stack != [] && Alike(s.stack[..|s.stack| - 1], rest)
    requires (forall i :: 0 <= i < |rest| ==> !Done(fe, rest[i]))
    requires Disc(fe, rest, blocks, ifs)
    requires var p := s.stack[|s.stack| - 1];
      var k := Opens(fe, p);
      && |s.blocks| >= k && s.blocks[..|s.blocks| - k] == blocks && Under(fe, p, s.ifs) == ifs
        && (PendsIf(fe, p) ==> s.ifs != [])
      && (k >= 1 ==> s.blocks[|s.blocks| - k].depth == |rest|) && (k == 2 ==> s.blocks[|s.blocks| - 1].depth == -1)
      && Ordered(s.zone, Pending(fe, rest, blocks, ifs) + Holds(fe, p, s.blocks, s.ifs) + [s.cur])
    ensures Sound(fe, s)
  {
    hide Opens, PendsIf, Under, Holds, Ordered;
    var n := |s.stack| - 1;
    DiscAlike(fe, s.stack[..n], rest, blocks, ifs);
    assert s.stack == s.stack[..n] + [s.stack[n]];
    DiscPush(fe, s.stack[..n], s.stack[n], s.blocks, s.ifs);
    PendingPush(fe, s.stack[..n], s.stack[n], s.blocks, s.ifs);
    forall i | 0 <= i < n ensures !Done(fe, s.stack[i]) { assert s.stack[..n][i] == s.stack[i]; }
  }

  /** What is below the top production. */
  lemma Inspect(fe: FunEnv, s: State)
    requires Sound(fe, s) && s.stack != []
    ensures var n := |s.stack| - 1;
      var k := Opens(fe, s.stack[n]);
      && |s.blocks| >= k && (PendsIf(fe, s.stack[n]) ==> s.ifs != [])
      && (k >= 1 ==> s.blocks[|s.blocks| - k].depth == n) && (k == 2 ==> s.blocks[|s.blocks| - 1].depth == -1)
      && Disc(fe, s.stack[..n], s.blocks[..|s.blocks| - k], Under(fe, s.stack[n], s.ifs))
      && Owners(fe, s) == Pending(fe, s.stack[..n], s.blocks[..|s.blocks| - k], Under(fe, s.stack[n], s.ifs))
                          + Holds(fe, s.stack[n], s.blocks, s.ifs) + [s.cur]
      && forall i :: 0 <= i < n ==> !Done(fe, s.stack[..n][i])
  {
    hide Opens, PendsIf, Under, Holds, Ordered;
  }

  /** Only environments and results change, and the order stays. */
  predicate Stays(s: State, s': State, c: seq<nat>) {
    Ordered(s'.zone, c) && Alike(s'.stack, s.stack) && s'.blocks == s.blocks && s'.ifs == s.ifs && s'.cur == s.cur
  }

  predicate Owned(s: State, c: seq<nat>) {
    && Ordered(s.zone, c) && c != [] && c[|c| - 1] == s.cur
    && forall i :: 0 <= i < |s.blocks| ==> s.blocks[i].env in c[..|c| - 1]
  }

  predicate NoEntries(i: Instr) {
    !i.Block? && !i.Loop? && !i.If? && !i.IfElse?
  }

  lemma BrIfOrdered(fe: FunEnv, s: State, c: seq<nat>, g: seq<Node>, tc: nat, fc: nat, b: Blk, t: Tree)
    requires Owned(s, c) && b in s.blocks
    ensures var s1 := Alloc(SetCur(s.(g := g), Cur(s).(control := fc)),
      Split(Cur(s)).(control := tc)).(cur := |s.zone|);
      Stays(s, ReduceBreak(fe, s1, b, t).(cur := s.cur), c)
  {
    hide ReduceBreak;
    var e := Cur(s);
    var s1 := Alloc(SetCur(s.(g := g), e.(control := fc)), Split(e).(control := tc)).(cur := |s.zone|);
    OrderedPush(s.zone, c, e.(control := fc), [Split(e).(control := tc)], [|s.zone|]);
    var d := c + [|s.zone|];
    assert d[..|d| - 1] == c;
    var j :| 0 <= j < |c| - 1 && c[..|c| - 1][j] == b.env;
    assert c[j] == b.env;
    BreakOrdered(fe, s1, d, b, t);
    OrderedPrefix(ReduceBreak(fe, s1, b, t).zone, c, [|s.zone|]);
  }

  lemma PlainOrdered(fe: FunEnv, h: State, c: seq<nat>)
    requires h.stack != [] && h.stack[|h.stack| - 1].kids != [] && NoEntries(h.stack[|h.stack| - 1].instr)
    requires Owned(h, c) && Reduce(fe, h).Next?
    ensures Stays(h, Reduce(fe, h).s, c)
  {
    hide BuildOp, BuildBranch, ReduceBreak, ChildOk, FallOut, Ordered, ReduceIf, ReduceIfElse;
    var p := h.stack[|h.stack| - 1];
    var e := Cur(h);
    var k := |p.kids|;
    CurIn(h, c);
    match p.instr
    case Apply(op) =>
      if k >= |op.params| && e.Go() && |e.slots| > 0 {
        var (g, e', n) := BuildOp(h.g, e, op, Nodes(p.kids));
        BuildOpGo(h.g, e, op, Nodes(p.kids));
        OrderedSet(h.zone, c, e');
      }
    case SetLocal(i) =>
      var slots := if i < |e.slots| then e.slots[i := p.kids[k - 1].node] else e.slots;
      OrderedSet(h.zone, c, e.(slots := slots));
    case Return => OrderedSet(h.zone, c, Kill(ControlEnd));
    case Br(d) => BreakOrdered(fe, h, c, h.blocks[|h.blocks| - 1 - d], p.kids[k - 1]);
    case BrIf(d) =>
      if k >= 2 {
        var (g, tc, fc) := if e.Go() then BuildBranch(h.g, e.control, p.kids[0].node) else (h.g, 0, e.control);
        BrIfOrdered(fe, h, c, g, tc, fc, h.blocks[|h.blocks| - 1 - d], p.kids[k - 1]);
      }
    case Select =>
      var (g, tc, fc) := BuildBranch(h.g, e.control, p.kids[0].node);
      OrderedSet(h.zone, c, e.(control := |g|));
    case _ =>
  }

  lemma CurIn(h: State, c: seq<nat>)
    requires Owned(h, c)
    ensures h.cur < |h.zone| && Cur(h) == h.zone[c[|c| - 1]]
  {
  }

  lemma BuildOpGo(g: seq<Node>, e: Env, op: Op, args: seq<nat>)
    requires |e.slots| > 0
    ensures BuildOp(g, e, op, args).1.state == e.state
  {
  }

  lemma OwnersOwned(fe: FunEnv, s: State)
    requires Sound(fe, s)
    ensures Owned(s, Owners(fe, s))
  {
    hide Ordered, Opens, PendsIf;
    var c := Owners(fe, s);
    assert c[..|c| - 1] == Pending(fe, s.stack, s.blocks, s.ifs);
    forall i | 0 <= i < |s.blocks| ensures s.blocks[i].env in c[..|c| - 1] {
      EntryPends(fe, s.stack, s.blocks, s.ifs, i);
    }
  }

  lemma HangOwned(s: State, t: Tree, c: seq<nat>)
    requires s.stack != [] && Owned(s, c)
    ensures Owned(Hang(s, t), c)
  {
    hide Ordered;
  }

  lemma AttachPlain(fe: FunEnv, s: State, t: Tree)
    requires Sound(fe, s) && s.stack != [] && NoEntries(s.stack[|s.stack| - 1].instr)
    requires Reduce(fe, Hang(s, t)).Next?
    ensures Sound(fe, Reduce(fe, Hang(s, t)).s)
  {
    hide Ordered, Disc, Pending, Reduce;
    var n := |s.stack| - 1;
    Inspect(fe, s);
    OwnersOwned(fe, s);
    HangOwned(s, t, Owners(fe, s));
    PlainOrdered(fe, Hang(s, t), Owners(fe, s));
    var r := Reduce(fe, Hang(s, t)).s;
    assert Holds(fe, r.stack[n], r.blocks, r.ifs) == Holds(fe, s.stack[n], s.blocks, s.ifs);
    assert s.blocks[..|s.blocks|] == s.blocks;
    Rebuild(fe, r, s.stack[..n], s.blocks, s.ifs);
  }

  /** The child of a block or loop that is not its last. */
  lemma AttachInner(fe: FunEnv, s: State, t: Tree)
    requires Sound(fe, s) && s.stack != []
    requires var p := s.stack[|s.stack| - 1]; (p.instr.Block? || p.instr.Loop?) && |p.kids| + 1 < Arity(fe, p.instr)
    ensures Sound(fe, Hang(s, t))
  {
    hide Ordered, Disc, Pending;
    var n := |s.stack| - 1;
    Inspect(fe, s);
    var h := Hang(s, t);
    assert Holds(fe, h.stack[n], h.blocks, h.ifs) == Holds(fe, s.stack[n], s.blocks, s.ifs);
    Rebuild(fe, h, s.stack[..n], s.blocks[..|s.blocks| - Opens(fe, s.stack[n])], s.ifs);
  }

  /** An open block's entry is the first of what the top production holds. */
  lemma LastOwners(fe: FunEnv, s: State)
    requires Sound(fe, s) && s.stack != []
    requires var p := s.stack[|s.stack| - 1]; (p.instr.Block? || p.instr.Loop?) && |p.kids| + 1 == Arity(fe, p.instr)
    ensures |s.blocks| >= Opens(fe, s.stack[|s.stack| - 1]) >= 1
    ensures var n := |s.stack| - 1;
      var m := |s.blocks| - Opens(fe, s.stack[n]);
      var under := Pending(fe, s.stack[..n], s.blocks[..m], s.ifs);
      var c := Owners(fe, s);
      && Disc(fe, s.stack[..n], s.blocks[..m], s.ifs) && (forall i :: 0 <= i < n ==> !Done(fe, s.stack[..n][i]))
      && |c| > |under| + 1 && c[..|under| + 1] == under + [s.blocks[m].env] && s.blocks[m].env in c[..|c| - 1]
        && c[|c| - 1] == s.cur
      && Ordered(s.zone, c)
  {
    hide Ordered, Disc, Pending;
    Inspect(fe, s);
    var n := |s.stack| - 1;
    var m := |s.blocks| - Opens(fe, s.stack[n]);
    var under := Pending(fe, s.stack[..n], s.blocks[..m], s.ifs);
    var c := Owners(fe, s);
    var b := s.blocks[m];
    assert s.blocks[m..][0] == b;
    assert Holds(fe, s.stack[n], s.blocks, s.ifs) == Envs(s.blocks[m..]) && Envs(s.blocks[m..])[0] == b.env;
    assert c[|under|] == b.env && c[..|c| - 1][|under|] == b.env;
  }

  /** A complete production holds nothing. */
  lemma DoneHolds(fe: FunEnv, p: Production, blocks: seq<Blk>, ifs: seq<IfEnv>)
    requires Done(fe, p)
    ensures Opens(fe, p) == 0 && !PendsIf(fe, p) && Under(fe, p, ifs) == ifs && Holds(fe, p, blocks, ifs) == []
  {
  }

  lemma AttachLast(fe: FunEnv, s: State, t: Tree)
    requires Sound(fe, s) && s.stack != []
    requires var p := s.stack[|s.stack| - 1]; (p.instr.Block? || p.instr.Loop?) && |p.kids| + 1 == Arity(fe, p.instr)
    ensures |s.blocks| >= Opens(fe, s.stack[|s.stack| - 1]) >= 1
    ensures var h := Hang(s, t);
      var keep := |s.blocks| - Opens(fe, s.stack[|s.stack| - 1]) + 1;
      Sound(fe, FallOut(fe, h.(blocks := s.blocks[..keep]), t).s)
  {
    hide Ordered, Disc, Pending, ReduceBreak, Owners, Sound, Holds, Under, PendsIf;
    var n := |s.stack| - 1;
    LastOwners(fe, s);
    var m := |s.blocks| - Opens(fe, s.stack[n]);
    var h := Hang(s, t).(blocks := s.blocks[..m + 1]);
    var b := h.blocks[m];
    var under := Pending(fe, s.stack[..n], s.blocks[..m], s.ifs);
    var c := Owners(fe, s);
    BreakOrdered(fe, h, c, b, t);
    var r := FallOut(fe, h, t).s;
    assert c == (under + [b.env]) + c[|under| + 1..];
    OrderedPrefix(r.zone, under + [b.env], c[|under| + 1..]);
    assert r.blocks == s.blocks[..m];
    assert Alike(r.stack[..n], s.stack[..n]);
    DoneHolds(fe, r.stack[n], r.blocks, r.ifs);
    assert under + [] + [r.cur] == under + [b.env];
    Rebuild(fe, r, s.stack[..n], s.blocks[..m], s.ifs);
  }

  lemma NoBlocksHeld(fe: FunEnv, p: Production, blocks: seq<Blk>, ifs: seq<IfEnv>)
    requires !p.instr.Block? && !p.instr.Loop?
    ensures Opens(fe, p) == 0 && blocks[..|blocks|] == blocks
    ensures Holds(fe, p, blocks, ifs) == if PendsIf(fe, p) && ifs != [] then Kept(p, ifs[|ifs| - 1]) else []
  {
  }

  /** The condition of an if: the arm gets a fresh environment inside the current one. */
  lemma AttachCondition(fe: FunEnv, s: State, t: Tree)
    requires Sound(fe, s) && s.stack != []
    requires var p := s.stack[|s.stack| - 1]; p.instr.If? && p.kids == []
    ensures var r := ReduceIf(fe, Hang(s, t)); r.Next? && Sound(fe, r.s)
  {
    hide Ordered, Disc, Pending, BuildBranch, Holds;
    var n := |s.stack| - 1;
    Inspect(fe, s);
    OwnersOwned(fe, s);
    var c := Owners(fe, s);
    CurIn(s, c);
    var e := Cur(s);
    NoBlocksHeld(fe, s.stack[n], s.blocks, s.ifs);
    var under := Pending(fe, s.stack[..n], s.blocks, s.ifs);
    assert c == under + [] + [s.cur] == under + [s.cur];
    var r := ReduceIf(fe, Hang(s, t)).s;
    NoBlocksHeld(fe, r.stack[n], r.blocks, r.ifs);
    var (g, tc, fc) := if e.Go() then BuildBranch(s.g, e.control, t.node) else (s.g, 0, e.control);
    OrderedPush(s.zone, c, e.(control := fc), [Split(e).(control := tc)], [|s.zone|]);
    assert r.ifs[..|r.ifs| - 1] == s.ifs;
    assert Holds(fe, r.stack[n], r.blocks, r.ifs) == [s.cur];
    Rebuild(fe, r, s.stack[..n], s.blocks, s.ifs);
  }

  /** The condition of an if-else: two fresh environments. */
  lemma AttachElseCondition(fe: FunEnv, s: State, t: Tree)
    requires Sound(fe, s) && s.stack != []
    requires var p := s.stack[|s.stack| - 1]; p.instr.IfElse? && p.kids == []
    ensures var r := ReduceIfElse(fe, Hang(s, t)); r.Next? && Sound(fe, r.s)
  {
    hide Ordered, Disc, Pending, BuildBranch, Holds;
    var n := |s.stack| - 1;
    Inspect(fe, s);
    OwnersOwned(fe, s);
    var c := Owners(fe, s);
    CurIn(s, c);
    var e := Cur(s);
    NoBlocksHeld(fe, s.stack[n], s.blocks, s.ifs);
    var under := Pending(fe, s.stack[..n], s.blocks, s.ifs);
    assert c == under + [] + [s.cur] == under + [s.cur];
    var r := ReduceIfElse(fe, Hang(s, t)).s;
    NoBlocksHeld(fe, r.stack[n], r.blocks, r.ifs);
    var (g, tc, fc) := if e.Go() then BuildBranch(s.g, e.control, t.node) else (s.g, 0, 0);
    var added := [Split(e).(control := fc), Stolen(e).(control := tc)];
    OrderedPush(s.zone, c, Victim(e), added, [|s.zone|, |s.zone| + 1]);
    assert r.zone == s.zone[s.cur := Victim(e)] + added;
    assert r.ifs[..|r.ifs| - 1] == s.ifs;
    assert under + [s.cur, |s.zone|] + [|s.zone| + 1] == c + [|s.zone|, |s.zone| + 1];
    Rebuild(fe, r, s.stack[..n], s.blocks, s.ifs);
  }

  /** A pending environment changes but stays what it is. */
  lemma OrderedRevive(zone: seq<Env>, c: seq<nat>, x: nat, e: Env)
    requires Ordered(zone, c) && x < |zone| && zone[x].Go() && e.Go()
    ensures Ordered(zone[x := e], c)
  {
  }

  /** The arm of an if flows into the pending environment m. */
  function JoinArm(fe: FunEnv, h: State, m: nat): State {
    if EnvAt(h, m).Go() then GotoEnv(fe, SetEnvAt(h, m, EnvAt(h, m).(state := Reached)), m) else h
  }

  lemma ArmOrdered(fe: FunEnv, h: State, c: seq<nat>, m: nat)
    requires Ordered(h.zone, c) && c != [] && c[|c| - 1] == h.cur && m in c[..|c| - 1]
    ensures var r := JoinArm(fe, h, m);
      Ordered(r.zone, c) && r.stack == h.stack && r.blocks == h.blocks && r.ifs == h.ifs
  {
    hide Goto;
    var i :| 0 <= i < |c| - 1 && c[..|c| - 1][i] == m;
    assert c[i] == m;
    if h.zone[m].Go() {
      var e := h.zone[m].(state := Reached);
      OrderedRevive(h.zone, c, m, e);
      if Cur(h).Go() {
        GotoAlive(fe, h.g, Cur(h), e);
        OrderedGoto(h.zone[m := e], c, m, Goto(fe, h.g, Cur(h), e).1);
      }
    }
  }

  /** The arm of an if. */
  lemma AttachArm(fe: FunEnv, s: State, t: Tree)
    requires Sound(fe, s) && s.stack != [] && s.stack[|s.stack| - 1].instr.If? && |s.stack[|s.stack| - 1].kids| == 1
    ensures var r := ReduceIf(fe, Hang(s, t)); r.Next? && Sound(fe, r.s)
  {
    hide Ordered, Disc, Pending, BuildBranch, Holds, JoinArm;
    var n := |s.stack| - 1;
    var p := s.stack[n];
    Inspect(fe, s);
    OwnersOwned(fe, s);
    var c := Owners(fe, s);
    var h := Hang(s, t);
    NoBlocksHeld(fe, p, s.blocks, s.ifs);
    var m := s.ifs[|s.ifs| - 1].mergeEnv;
    var under := Pending(fe, s.stack[..n], s.blocks, s.ifs[..|s.ifs| - 1]);
    assert c == under + [m] + [s.cur];
    assert c[..|c| - 1][|under|] == m;
    ArmOrdered(fe, h, c, m);
    var h1 := JoinArm(fe, h, m);
    var r := ReduceIf(fe, h).s;
    ArmReduces(fe, h);
    assert r == h1.(cur := m, ifs := s.ifs[..|s.ifs| - 1]);
    OrderedPrefix(r.zone, under + [m], [s.cur]);
    NoBlocksHeld(fe, r.stack[n], r.blocks, r.ifs);
    assert under + [] + [r.cur] == under + [m];
    Rebuild(fe, r, s.stack[..n], s.blocks, s.ifs[..|s.ifs| - 1]);
  }

  lemma ArmReduces(fe: FunEnv, h: State)
    requires h.stack != [] && |h.stack[|h.stack| - 1].kids| == 2 && h.ifs != []
    ensures var m := h.ifs[|h.ifs| - 1].mergeEnv;
      ReduceIf(fe, h) == Next(JoinArm(fe, h, m).(cur := m, ifs := h.ifs[..|h.ifs| - 1]))
  {
    hide GotoEnv;
  }

  /** An arm of an if-else flows into the pending environment. */
  lemma ArmsOrdered(fe: FunEnv, s: State, t: Tree, under: seq<nat>, tail: seq<nat>, m: nat)
    requires s.stack != [] && Ordered(s.zone, under + [m] + tail) && tail != [] && tail[|tail| - 1] == s.cur
    ensures var r := MergeIntoProduction(fe, Hang(s, t), |s.stack| - 1, m, t);
      Ordered(r.zone, under + [m] + tail) && Alike(r.stack, Hang(s, t).stack) && r.blocks == s.blocks && r.ifs == s.ifs
  {
    hide Ordered, MergeIntoProduction;
    var c := under + [m] + tail;
    assert c[..|c| - 1][|under|] == m;
    var n := |s.stack| - 1;
    BreakOrdered(fe, Hang(s, t), c, Blk(m, n), t);
    assert MergeIntoProduction(fe, Hang(s, t), n, m, t) == ReduceBreak(fe, Hang(s, t), Blk(m, n), t);
  }

  /** The first arm of an if-else: on to the other. */
  lemma AttachTrue(fe: FunEnv, s: State, t: Tree)
    requires Sound(fe, s) && s.stack != [] && s.stack[|s.stack| - 1].instr.IfElse? && |s.stack[|s.stack| - 1].kids| == 1
    ensures var r := ReduceIfElse(fe, Hang(s, t)); r.Next? && Sound(fe, r.s)
  {
    hide Ordered, Disc, Pending, BuildBranch, Holds, MergeIntoProduction;
    var n := |s.stack| - 1;
    Inspect(fe, s);
    NoBlocksHeld(fe, s.stack[n], s.blocks, s.ifs);
    var f := s.ifs[|s.ifs| - 1];
    var under := Pending(fe, s.stack[..n], s.blocks, s.ifs[..|s.ifs| - 1]);
    assert Owners(fe, s) == under + [f.mergeEnv] + [f.falseEnv, s.cur];
    ArmsOrdered(fe, s, t, under, [f.falseEnv, s.cur], f.mergeEnv);
    var r := ReduceIfElse(fe, Hang(s, t)).s;
    assert under + [f.mergeEnv] + [f.falseEnv, s.cur] == (under + [f.mergeEnv] + [f.falseEnv]) + [s.cur];
    OrderedPrefix(r.zone, under + [f.mergeEnv] + [f.falseEnv], [s.cur]);
    NoBlocksHeld(fe, r.stack[n], r.blocks, r.ifs);
    Rebuild(fe, r, s.stack[..n], s.blocks, s.ifs[..|s.ifs| - 1]);
  }

  /** The second arm of an if-else: out of it. */
  lemma AttachFalse(fe: FunEnv, s: State, t: Tree)
    requires Sound(fe, s) && s.stack != [] && s.stack[|s.stack| - 1].instr.IfElse? && |s.stack[|s.stack| - 1].kids| == 2
    ensures var r := ReduceIfElse(fe, Hang(s, t)); r.Next? && Sound(fe, r.s)
  {
    hide Ordered, Disc, Pending, BuildBranch, Holds, MergeIntoProduction;
    var n := |s.stack| - 1;
    Inspect(fe, s);
    NoBlocksHeld(fe, s.stack[n], s.blocks, s.ifs);
    var f := s.ifs[|s.ifs| - 1];
    var under := Pending(fe, s.stack[..n], s.blocks, s.ifs[..|s.ifs| - 1]);
    assert Owners(fe, s) == under + [f.mergeEnv] + [s.cur];
    ArmsOrdered(fe, s, t, under, [s.cur], f.mergeEnv);
    var r := ReduceIfElse(fe, Hang(s, t)).s;
    OrderedPrefix(r.zone, under + [f.mergeEnv], [s.cur]);
    NoBlocksHeld(fe, r.stack[n], r.blocks, r.ifs);
    assert under + [] + [r.cur] == under + [f.mergeEnv];
    Rebuild(fe, r, s.stack[..n], s.blocks, s.ifs[..|s.ifs| - 1]);
  }

  /** What the reduction of an attached child is, by instruction. */
  lemma ReduceCases(fe: FunEnv, h: State)
    requires h.stack != [] && h.stack[|h.stack| - 1].kids != [] && Reduce(fe, h).Next?
    ensures var p := h.stack[|h.stack| - 1];
      && (p.instr.If? ==> Reduce(fe, h) == ReduceIf(fe, h))
        && (p.instr.IfElse? ==> Reduce(fe, h) == ReduceIfElse(fe, h))
      && (p.instr.Block? ==> if |p.kids| < Arity(fe, p.instr) then Reduce(fe, h).s == h
          else h.blocks != [] && Reduce(fe, h) == FallOut(fe, h, p.kids[|p.kids| - 1]))
      && (p.instr.Loop? ==>
          if |p.kids| < Arity(fe, p.instr) then Reduce(fe, h).s == h
          else
            && |h.blocks| >= 2
            && Reduce(fe, h) == FallOut(fe, h.(blocks := h.blocks[..|h.blocks| - 1]), p.kids[|p.kids| - 1]))
  {
    hide BuildOp, BuildBranch, ReduceBreak, ReduceSelect, ReduceIf, ReduceIfElse, SetCur, FallOut, ChildOk;
  }

  /** Attaching a tree keeps the invariants, whatever the production. */
  lemma AttachSound(fe: FunEnv, s: State, t: Tree)
    requires Sound(fe, s) && s.stack != [] && !Done(fe, s.stack[|s.stack| - 1]) && Attach(fe, s, t).Next?
    ensures Sound(fe, Attach(fe, s, t).s)
  {
    hide Reduce, Sound, FallOut, ReduceIf, ReduceIfElse;
    var n := |s.stack| - 1;
    var p := s.stack[n];
    var h := Hang(s, t);
    assert Attach(fe, s, t) == Reduce(fe, h);
    ReduceCases(fe, h);
    if NoEntries(p.instr) {
      AttachPlain(fe, s, t);
    } else if p.instr.If? || p.instr.IfElse? {
      if p.kids == [] && p.instr.If? {
        AttachCondition(fe, s, t);
      } else if p.kids == [] {
        AttachElseCondition(fe, s, t);
      } else if p.instr.If? {
        AttachArm(fe, s, t);
      } else if |p.kids| == 1 {
        AttachTrue(fe, s, t);
      } else {
        AttachFalse(fe, s, t);
      }
    } else if |p.kids| + 1 < Arity(fe, p.instr) {
      AttachInner(fe, s, t);
    } else {
      AttachLast(fe, s, t);
      assert h.(blocks := s.blocks[..|s.blocks|]) == h;
    }
  }

  lemma AttachUnder(fe: FunEnv, s: State, t: Tree)
    requires s.stack != [] && Attach(fe, s, t).Next?
    ensures var s1 := Attach(fe, s, t).s;
      forall i :: 0 <= i < |s.stack| - 1 ==> Done(fe, s1.stack[i]) == Done(fe, s.stack[i])
  {
    hide Attach;
    AttachShape(fe, s, t);
  }

  /** All productions are waiting, not only those below the top. */
  predicate AllWait(fe: FunEnv, s: State) {
    forall i :: 0 <= i < |s.stack| ==> !Done(fe, s.stack[i])
  }

  lemma PopSound(fe: FunEnv, s: State)
    requires Sound(fe, s) && s.stack != [] && Done(fe, s.stack[|s.stack| - 1])
    ensures Sound(fe, s.(stack := s.stack[..|s.stack| - 1])) && AllWait(fe, s.(stack := s.stack[..|s.stack| - 1]))
  {
    hide Ordered, Disc, Pending;
    Inspect(fe, s);
    var n := |s.stack| - 1;
    assert s.blocks[..|s.blocks|] == s.blocks;
    assert Holds(fe, s.stack[n], s.blocks, s.ifs) == [];
    assert Owners(fe, s) == Owners(fe, s.(stack := s.stack[..n]));
  }

  /** Reducing a finished tree as far as it goes keeps the invariants. */
  lemma {:induction false} ReduceTreeSound(fe: FunEnv, s: State, t: Tree)
    requires Sound(fe, s) && AllWait(fe, s) && ReduceTree(fe, s, t).Next?
    ensures Sound(fe, ReduceTree(fe, s, t).s) && AllWait(fe, ReduceTree(fe, s, t).s)
    decreases |s.stack|
  {
    hide Attach, Sound, Done;
    if s.stack == [] {
      AddTreeSound(fe, s, t);
    } else {
      AttachSound(fe, s, t);
      AttachUnder(fe, s, t);
      var s1 := Attach(fe, s, t).s;
      if Done(fe, s1.stack[|s1.stack| - 1]) {
        PopSound(fe, s1);
        ReduceTreeSound(fe, s1.(stack := s1.stack[..|s1.stack| - 1]), TreeOf(s1.stack[|s1.stack| - 1]));
      }
    }
  }

  lemma AddTreeSound(fe: FunEnv, s: State, t: Tree)
    requires Sound(fe, s)
    ensures Sound(fe, s.(trees := s.trees + [t]))
  {
    hide Ordered, Disc, Pending;
    assert Owners(fe, s.(trees := s.trees + [t])) == Owners(fe, s);
  }

  lemma LeafSound(fe: FunEnv, s: State, instr: Instr)
    requires Sound(fe, s) && Arity(fe, instr) == 0 && Leaf(fe, s, instr).Res3?
    ensures Sound(fe, Leaf(fe, s, instr).s) && Leaf(fe, s, instr).s.stack == s.stack
  {
    hide Ordered, Disc, Pending, BuildOp;
    var e := Cur(s);
    var c := Owners(fe, s);
    OwnersOwned(fe, s);
    CurIn(s, c);
    OrderedSet(s.zone, c, Kill(ControlEnd));
    if instr.Apply? && e.Go() && |e.slots| > 0 {
      BuildOpGo(s.g, e, instr.op, []);
      OrderedSet(s.zone, c, BuildOp(s.g, e, instr.op, []).1);
    }
    assert Owners(fe, Leaf(fe, s, instr).s) == c;
  }

  lemma ShiftBlockSound(fe: FunEnv, s: State, instr: Instr, pc: nat, len: nat)
    requires Sound(fe, s) && AllWait(fe, s) && Arity(fe, instr) > 0 && instr.Block?
    ensures Shift(fe, s, instr, pc, len).Next? && Sound(fe, Shift(fe, s, instr, pc, len).s)
  {
    hide Ordered, Disc, Pending, Holds;
    OwnersOwned(fe, s);
    var c := Owners(fe, s);
    CurIn(s, c);
    var e := Cur(s);
    var r := Shift(fe, s, instr, pc, len).s;
    var n := |s.stack|;
    assert r.stack[..n] == s.stack;
    assert r.blocks[..|s.blocks|] == s.blocks;
    OrderedPush(s.zone, c, Victim(e), [Stolen(e)], [|s.zone|]);
    HeldOpen(fe, r.stack[n], s.blocks, [Blk(s.cur, n)], r.ifs);
    Rebuild(fe, r, s.stack, s.blocks, s.ifs);
  }

  lemma ShiftLoopSound(fe: FunEnv, s: State, instr: Instr, pc: nat, len: nat)
    requires Sound(fe, s) && AllWait(fe, s) && Arity(fe, instr) > 0 && instr.Loop?
    ensures Shift(fe, s, instr, pc, len).Next? && Sound(fe, Shift(fe, s, instr, pc, len).s)
  {
    hide Ordered, Disc, Pending, PrepareForLoop, Holds;
    OwnersOwned(fe, s);
    var c := Owners(fe, s);
    CurIn(s, c);
    var e := Cur(s);
    var r := Shift(fe, s, instr, pc, len).s;
    var n := |s.stack|;
    assert r.stack[..n] == s.stack;
    assert r.blocks[..|s.blocks|] == s.blocks;
    var (g, loop) := PrepareForLoop(fe, s.g, Stolen(e));
    LoopAlive(fe, s.g, Stolen(e));
    OrderedPush(s.zone, c, Victim(e), [loop, Split(loop)], [|s.zone|, |s.zone| + 1]);
    assert r.zone == s.zone[s.cur := Victim(e)] + [loop, Split(loop)];
    HeldOpen(fe, r.stack[n], s.blocks, [Blk(s.cur, n), Blk(|s.zone|, -1)], r.ifs);
    assert Pending(fe, s.stack, s.blocks, s.ifs) + [s.cur, |s.zone|] + [|s.zone| + 1] == c + [|s.zone|, |s.zone| + 1];
    Rebuild(fe, r, s.stack, s.blocks, s.ifs);
  }

  lemma HeldOpen(fe: FunEnv, p: Production, blocks: seq<Blk>, more: seq<Blk>, ifs: seq<IfEnv>)
    requires p.kids == [] && Opens(fe, p) == |more| > 0
    ensures Holds(fe, p, blocks + more, ifs) == Envs(more)
    ensures |more| == 1 ==> Envs(more) == [more[0].env]
    ensures |more| == 2 ==> Envs(more) == [more[0].env, more[1].env]
  {
    assert (blocks + more)[|blocks|..] == more;
  }

  lemma LoopAlive(fe: FunEnv, g: seq<Node>, e: Env)
    ensures var c := PrepareForLoop(fe, g, e).1; if e.Go() then c.Go() else c == e
  {
    hide LoopSlots;
  }

  /** Starting a tree keeps the invariants. */
  lemma ShiftSound(fe: FunEnv, s: State, instr: Instr, pc: nat, len: nat)
    requires Sound(fe, s) && AllWait(fe, s) && Arity(fe, instr) > 0 && Shift(fe, s, instr, pc, len).Next?
    ensures var r := Shift(fe, s, instr, pc, len).s; Sound(fe, r) && AllWait(fe, r)
  {
    hide Ordered, Disc, Pending, Holds;
    var r := Shift(fe, s, instr, pc, len).s;
    var n := |s.stack|;
    ShiftShape(fe, s, instr, pc, len);
    if instr.Block? {
      ShiftBlockSound(fe, s, instr, pc, len);
    } else if instr.Loop? {
      ShiftLoopSound(fe, s, instr, pc, len);
    } else {
      NoBlocksHeld(fe, r.stack[n], r.blocks, r.ifs);
      assert r.stack[..n] == s.stack;
      assert Pending(fe, s.stack, s.blocks, s.ifs) + [] + [s.cur] == Owners(fe, s);
      Rebuild(fe, r, s.stack, s.blocks, s.ifs);
    }
  }

  lemma InstructionSound(fe: FunEnv, s: State, instr: Instr, pc: nat, len: nat)
    requires Sound(fe, s) && AllWait(fe, s) && Instruction(fe, s, instr, pc, len).Next?
    ensures var r := Instruction(fe, s, instr, pc, len).s; Sound(fe, r) && AllWait(fe, r)
  {
    hide Sound, AllWait, Shift, Leaf, ReduceTree;
    if Arity(fe, instr) > 0 {
      ShiftSound(fe, s, instr, pc, len);
    } else {
      var Res3(s1, ty, node) := Leaf(fe, s, instr);
      LeafSound(fe, s, instr);
      StillWait(fe, s, s1);
      ReduceTreeSound(fe, s1, Tree(instr, pc, len, ty, node, []));
    }
  }

  lemma StillWait(fe: FunEnv, s: State, s1: State)
    requires AllWait(fe, s) && s1.stack == s.stack
    ensures AllWait(fe, s1)
  {
  }

  /** The state after n instructions, or at the end of the code. */
  function StateAfter(menv: ModuleEnv, fe: FunEnv, code: seq<byte>, pc: nat, s: State, n: nat): Step
    requires pc <= |code|
    decreases n
  {
    if n == 0 || pc == |code| then Next(s)
    else
      match Fetch(menv, code, pc)
      case Bad => Fail(s.strayed)
      case Got(instr, len) =>
        match Instruction(fe, s, instr, pc, len)
        case Fail(b) => Fail(b)
        case Next(s1) => StateAfter(menv, fe, code, pc + len, s1, n - 1)
  }

  /** The decoding loop is n instructions for some n. */
  lemma {:induction false} DecodeIsSteps(menv: ModuleEnv, fe: FunEnv, code: seq<byte>, pc: nat, s: State, n: nat)
    requires pc <= |code| && n >= |code| - pc
    ensures StateAfter(menv, fe, code, pc, s, n) == DecodeFrom(menv, fe, code, pc, s)
    decreases n
  {
    hide Fetch, Instruction;
    if pc < |code| {
      var f := Fetch(menv, code, pc);
      if f.Got? {
        var r := Instruction(fe, s, f.instr, pc, f.len);
        if r.Next? { DecodeIsSteps(menv, fe, code, pc + f.len, r.s, n - 1); }
      }
    }
  }

  /** Every state of every run keeps the invariants. */
  lemma {:induction false} RunSound(menv: ModuleEnv, fe: FunEnv, code: seq<byte>, pc: nat, s: State, n: nat)
    requires pc <= |code| && Sound(fe, s) && AllWait(fe, s) && StateAfter(menv, fe, code, pc, s, n).Next?
    ensures var r := StateAfter(menv, fe, code, pc, s, n).s; Sound(fe, r) && AllWait(fe, r)
    decreases n
  {
    hide Sound, AllWait, Fetch, Instruction;
    if n > 0 && pc < |code| {
      var Got(instr, len) := Fetch(menv, code, pc);
      InstructionSound(fe, s, instr, pc, len);
      RunSound(menv, fe, code, pc + len, Instruction(fe, s, instr, pc, len).s, n - 1);
    }
  }

  /** What the invariants say of a state: as many block entries as open blocks and twice the open loops,
      one if entry per pending if, a branch is accepted exactly below that count, the current environment is
      nobody's target, and if it is live no target has ended. */
  lemma SoundMeans(fe: FunEnv, s: State, d: nat, pc: nat, len: nat)
    requires Sound(fe, s)
    ensures |s.blocks| == OpenCount(fe, s.stack) && |s.ifs| == IfCount(fe, s.stack)
    ensures Shift(fe, s, Br(d), pc, len).Next? <==> d < OpenCount(fe, s.stack)
    ensures Shift(fe, s, BrIf(d), pc, len).Next? <==> d < OpenCount(fe, s.stack)
    ensures forall i :: 0 <= i < |s.blocks| ==> s.blocks[i].env < |s.zone| && s.blocks[i].env != s.cur
    ensures Cur(s).Go() ==> forall i :: 0 <= i < |s.blocks| ==> !s.zone[s.blocks[i].env].state.ControlEnd?
    ensures Cur(s).Go() ==> forall x :: x in Pending(fe, s.stack, s.blocks, s.ifs) ==>
      x < |s.zone| && !s.zone[x].state.ControlEnd?
  {
    hide Disc, Pending;
    DiscCounts(fe, s.stack, s.blocks, s.ifs);
    OwnersOwned(fe, s);
    var c := Owners(fe, s);
    assert c[..|c| - 1] == Pending(fe, s.stack, s.blocks, s.ifs);
    forall i | 0 <= i < |s.blocks|
      ensures s.blocks[i].env < |s.zone| && s.blocks[i].env != s.cur
      ensures Cur(s).Go() ==> !s.zone[s.blocks[i].env].state.ControlEnd?
    {
      var j :| 0 <= j < |c| - 1 && c[..|c| - 1][j] == s.blocks[i].env;
      assert c[j] == s.blocks[i].env;
    }
    if Cur(s).Go() {
      forall x | x in Pending(fe, s.stack, s.blocks, s.ifs) ensures x < |s.zone| && !s.zone[x].state.ControlEnd? {
        var j :| 0 <= j < |c| - 1 && c[..|c| - 1][j] == x;
        assert c[j] == x;
      }
    }
  }

  lemma {:induction false} DepthsBelow(fe: FunEnv, stack: seq<Production>, blocks: seq<Blk>, ifs: seq<IfEnv>)
    requires Disc(fe, stack, blocks, ifs)
    ensures forall i :: 0 <= i < |blocks| ==> blocks[i].depth < |stack|
    decreases |stack|
  {
    hide PendsIf;
    if stack != [] {
      var n := |stack| - 1;
      var k := Opens(fe, stack[n]);
      var rest := blocks[..|blocks| - k];
      DepthsBelow(fe, stack[..n], rest, Under(fe, stack[n], ifs));
      forall i | 0 <= i < |blocks| ensures blocks[i].depth < |stack| {
        if i < |rest| { assert rest[i] == blocks[i]; }
      }
    }
  }

  /** A state in which every block entry can be branched to. */
  predicate Steady(s: State, c: seq<nat>) {
    Owned(s, c) && forall i :: 0 <= i < |s.blocks| ==> s.blocks[i].depth < |s.stack|
  }

  lemma HangSteady(fe: FunEnv, s: State, t: Tree)
    requires Sound(fe, s) && s.stack != []
    ensures Steady(Hang(s, t), Owners(fe, s))
  {
    OwnersOwned(fe, s);
    HangOwned(s, t, Owners(fe, s));
    DepthsBelow(fe, s.stack, s.blocks, s.ifs);
  }

  /** A pending environment is not the current one, and has not ended if that one is live. */
  lemma PendingTarget(s: State, c: seq<nat>, x: nat)
    requires Owned(s, c) && x in c[..|c| - 1]
    ensures x < |s.zone| && x != s.cur && s.cur < |s.zone| && (s.zone[s.cur].Go() ==> !s.zone[x].state.ControlEnd?)
  {
    var i :| 0 <= i < |c| - 1 && c[..|c| - 1][i] == x;
    assert c[i] == x;
  }

  /** An if past its condition has an entry, and that entry's environment is pending. */
  lemma IfPends(fe: FunEnv, s: State)
    requires Sound(fe, s) && s.stack != []
    ensures var p := s.stack[|s.stack| - 1];
      (p.instr.If? || p.instr.IfElse?) && p.kids != [] && !Done(fe, p) ==>
        s.ifs != [] && s.ifs[|s.ifs| - 1].mergeEnv in Owners(fe, s)[..|Owners(fe, s)| - 1]
  {
    hide Disc, Pending, Ordered;
    Inspect(fe, s);
    var p := s.stack[|s.stack| - 1];
    if (p.instr.If? || p.instr.IfElse?) && p.kids != [] && !Done(fe, p) {
      var c := Owners(fe, s);
      var under := Pending(fe, s.stack[..|s.stack| - 1], s.blocks[..|s.blocks|], s.ifs[..|s.ifs| - 1]);
      NoBlocksHeld(fe, p, s.blocks, s.ifs);
      assert c[..|c| - 1][|under|] == s.ifs[|s.ifs| - 1].mergeEnv;
    }
  }

  /** An open block or loop has its entries. */
  lemma BlockPends(fe: FunEnv, s: State)
    requires Sound(fe, s) && s.stack != []
    ensures |s.blocks| >= Opens(fe, s.stack[|s.stack| - 1])
  {
  }
}
