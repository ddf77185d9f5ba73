/** Invariants of SSA construction: the graph only grows, phi inputs line up with merge edges, and
    every environment that flowed into a block entry stays recoverable from it. */
module SsaInvariant {
  import opened Syntax
  import opened Graph
  import opened Ssa

  /** A node may change only by gaining inputs at the end. */
  predicate NodeExt(a: Node, b: Node) {
    match a
    case Merge(ins) => b.Merge? && ins <= b.inputs
    case LoopHead(ins) => b.LoopHead? && ins <= b.inputs
    case Phi(ty, ins, m) => b.Phi? && b.pty == ty && b.merge == m && ins <= b.inputs
    case _ => a == b
  }

  predicate Ext(g: seq<Node>, g': seq<Node>) {
    |g| <= |g'| && forall i :: 0 <= i < |g| ==> NodeExt(g[i], g'[i])
  }

  lemma ExtTrans(a: seq<Node>, b: seq<Node>, c: seq<Node>)
    requires Ext(a, b) && Ext(b, c)
    ensures Ext(a, c)
  {
    forall i | 0 <= i < |a| ensures NodeExt(a[i], c[i]) {
      assert NodeExt(a[i], b[i]) && NodeExt(b[i], c[i]);
    }
  }

  lemma PrefixExt(g: seq<Node>, g': seq<Node>)
    requires g <= g'
    ensures Ext(g, g')
  {
    forall i | 0 <= i < |g| ensures NodeExt(g[i], g'[i]) {}
  }

  /** The node a slot stands for on edge k of merge m. */
  function Pick(g: seq<Node>, n: nat, m: nat, k: nat): nat {
    if IsPhiOn(g, n, m) && k < |g[n].inputs| then g[n].inputs[k] else n
  }

  /** n is a phi of m with one input per edge, or older than m. */
  predicate Lined(g: seq<Node>, m: nat, n: nat, edges: nat) {
    && n < |g|
    && (if IsPhiOn(g, n, m) then |g[n].inputs| == edges else n < m)
  }

  /** No phi of m stands in two places. */
  predicate Unshared(g: seq<Node>, m: nat, ns: seq<nat>) {
    forall i, j :: 0 <= i < j < |ns| && ns[i] == ns[j] ==> !IsPhiOn(g, ns[i], m)
  }

  predicate Joined(g: seq<Node>, m: nat, ns: seq<nat>) {
    && m < |g| && IsMerge(g[m])
    && (forall i :: 0 <= i < |ns| ==> Lined(g, m, ns[i], |g[m].inputs|))
    && Unshared(g, m, ns)
  }

  /** n' is t merged with f on the last edge of m. */
  predicate Meets(g: seq<Node>, g': seq<Node>, m: nat, t: nat, f: nat, n': nat)
    requires m < |g| && IsMerge(g[m]) && |g[m].inputs| > 0
  {
    var last := |g[m].inputs| - 1;
    && Lined(g', m, n', last + 1)
    && Pick(g', n', m, last) == f
    && (forall k :: 0 <= k < last ==> Pick(g', n', m, k) == Pick(g, t, m, k))
  }

  lemma MergeNodeOk(g: seq<Node>, ty: LocalType, m: nat, t: nat, f: nat)
    requires GraphOk(g) && m < |g| && IsMerge(g[m]) && |g[m].inputs| > 0
    requires Lined(g, m, t, |g[m].inputs| - 1) && f < |g|
    ensures var (g', n) := MergeNode(g, ty, m, t, f);
      && GraphOk(g') && Ext(g, g') && g'[m] == g[m]
      && Meets(g, g', m, t, f, n)
      && (forall x :: 0 <= x < |g| && (x != t || !IsPhiOn(g, t, m)) ==> g'[x] == g[x])
      && (n == t || (n == |g| && IsPhiOn(g', n, m)))
  {
    var (g', n) := MergeNode(g, ty, m, t, f);
    if IsPhiOn(g, t, m) {
      assert NodeOk(g[t], t);
    }
    forall i | 0 <= i < |g'| ensures NodeOk(g'[i], i) {
      if i < |g| { assert NodeOk(g[i], i); }
    }
  }

  /** What merging the slots below i does: each meets its partner, the others stay, and nothing but
      the phis of m among them changes. */
  predicate SlotsMet(g: seq<Node>, g': seq<Node>, m: nat, to: seq<nat>, from: seq<nat>, i: nat, r: seq<nat>)
    requires m < |g| && IsMerge(g[m]) && |g[m].inputs| > 0 && i <= |to| == |from|
  {
    && |g| <= |g'| && |r| == |to|
    && (forall j :: 0 <= j < i ==> Meets(g, g', m, to[j], from[j], r[j]))
    && (forall j :: i <= j < |to| ==> r[j] == to[j])
    && (forall x :: 0 <= x < |g| && (x !in to[..i] || !IsPhiOn(g, x, m)) ==> g'[x] == g[x])
  }

  predicate Mergeable(g: seq<Node>, m: nat, to: seq<nat>, from: seq<nat>, i: nat) {
    && GraphOk(g) && m < |g| && IsMerge(g[m]) && |g[m].inputs| > 0
    && i <= |to| == |from| && Below(from, |g|) && Below(to, |g|)
    && (forall j :: 0 <= j < i ==> Lined(g, m, to[j], |g[m].inputs| - 1))
    && Unshared(g, m, to)
  }

  lemma MergeableStep(g: seq<Node>, ty: LocalType, m: nat, to: seq<nat>, from: seq<nat>, i: nat)
    requires 0 < i && Mergeable(g, m, to, from, i)
    ensures var (g1, n) := MergeNode(g, ty, m, to[i - 1], from[i - 1]);
      && Mergeable(g1, m, to[i - 1 := n], from, i - 1)
      && (forall j :: 0 <= j < i - 1 ==> g1[to[j]] == g[to[j]])
  {
    var (g1, n) := MergeNode(g, ty, m, to[i - 1], from[i - 1]);
    MergeNodeOk(g, ty, m, to[i - 1], from[i - 1]);
    var to1 := to[i - 1 := n];
    forall x, y | 0 <= x < y < |to1| && to1[x] == to1[y] ensures !IsPhiOn(g1, to1[x], m) {
      if n == |g| && n != to[i - 1] {
        assert x != i - 1 && y != i - 1;
        assert to[x] == to[y];
      } else {
        assert to1 == to;
      }
    }
  }

  lemma SlotsMetStep(g: seq<Node>, g1: seq<Node>, g': seq<Node>, m: nat, to: seq<nat>, from: seq<nat>, i: nat, n: nat,
      r: seq<nat>)
    requires 0 < i && Mergeable(g, m, to, from, i)
    requires |g| <= |g1| && g1[m] == g[m]
    requires Meets(g, g1, m, to[i - 1], from[i - 1], n)
    requires forall x :: 0 <= x < |g| && (x != to[i - 1] || !IsPhiOn(g, x, m)) ==> g1[x] == g[x]
    requires forall j :: 0 <= j < i - 1 ==> g1[to[j]] == g[to[j]]
    requires Unshared(g1, m, to[i - 1 := n])
    requires SlotsMet(g1, g', m, to[i - 1 := n], from, i - 1, r)
    ensures SlotsMet(g, g', m, to, from, i, r)
  {
    var to1 := to[i - 1 := n];
    assert to1[..i - 1] == to[..i - 1];
    assert forall x :: x in to[..i - 1] ==> x in to[..i];
    assert to[i - 1] in to[..i];
    assert r[i - 1] == n;
    assert g'[n] == g1[n] by {
      if n in to1[..i - 1] {
        var j :| 0 <= j < i - 1 && to1[j] == n;
        assert !IsPhiOn(g1, to1[j], m);
      }
    }
    forall j | 0 <= j < i ensures Meets(g, g', m, to[j], from[j], r[j]) {
      if j < i - 1 {
        assert Meets(g1, g', m, to1[j], from[j], r[j]);
        SameMeets(g, g1, g', m, to[j], from[j], r[j]);
      }
    }
  }

  lemma SameMeets(g: seq<Node>, g1: seq<Node>, g': seq<Node>, m: nat, t: nat, f: nat, n: nat)
    requires m < |g| && |g| <= |g1| && g1[m] == g[m] && IsMerge(g[m]) && |g[m].inputs| > 0 && t < |g| && g1[t] == g[t]
    requires Meets(g1, g', m, t, f, n)
    ensures Meets(g, g', m, t, f, n)
  {
  }

  lemma {:induction false} MergeSlotsOk(fe: FunEnv, g: seq<Node>, m: nat, to: seq<nat>, from: seq<nat>, i: nat)
    requires Mergeable(g, m, to, from, i)
    ensures var (g', r) := MergeSlots(fe, g, m, to, from, i);
      && GraphOk(g') && Ext(g, g') && g'[m] == g[m]
      && SlotsMet(g, g', m, to, from, i, r) && Unshared(g', m, r)
    decreases i
  {
    if i > 0 {
      var ty := SlotType(fe, i - 1);
      var (g1, n) := MergeNode(g, ty, m, to[i - 1], from[i - 1]);
      MergeNodeOk(g, ty, m, to[i - 1], from[i - 1]);
      MergeableStep(g, ty, m, to, from, i);
      MergeSlotsOk(fe, g1, m, to[i - 1 := n], from, i - 1);
      var (g', r) := MergeSlots(fe, g1, m, to[i - 1 := n], from, i - 1);
      ExtTrans(g, g1, g');
      SlotsMetStep(g, g1, g', m, to, from, i, n, r);
    }
  }

  lemma MergeableFront(g: seq<Node>, m: nat, to: seq<nat>, from: seq<nat>, t: nat, f: nat)
    requires |to| == |from| && Mergeable(g, m, to + [t], from + [f], |to| + 1)
    ensures Mergeable(g, m, to, from, |to|)
    ensures Lined(g, m, t, |g[m].inputs| - 1) && f < |g| && t < |g|
    ensures t in to ==> !IsPhiOn(g, t, m)
  {
    var to', from' := to + [t], from + [f];
    assert to'[|to|] == t && from'[|to|] == f;
    assert forall j :: 0 <= j < |to| ==> to'[j] == to[j] && from'[j] == from[j];
    if t in to {
      var j :| 0 <= j < |to| && to[j] == t;
      assert to'[j] == to'[|to|];
    }
  }

  /** One more node merged after the slots. */
  lemma SlotsMetMore(g: seq<Node>, g1: seq<Node>, g': seq<Node>, m: nat, to: seq<nat>, from: seq<nat>, slots: seq<nat>,
      t: nat, f: nat, n: nat)
    requires m < |g| && IsMerge(g[m]) && |g[m].inputs| > 0 && |to| == |from|
    requires SlotsMet(g, g1, m, to, from, |to|, slots) && Unshared(g1, m, slots)
    requires g1[m] == g[m] && t < |g| && g1[t] == g[t]
    requires Meets(g1, g', m, t, f, n)
    requires |g1| <= |g'| && forall x :: 0 <= x < |g1| && (x != t || !IsPhiOn(g1, t, m)) ==> g'[x] == g1[x]
    requires n == t || n == |g1|
    requires forall j :: 0 <= j < |to| ==> slots[j] != t || !IsPhiOn(g1, t, m)
    ensures SlotsMet(g, g', m, to + [t], from + [f], |to| + 1, slots + [n]) && Unshared(g', m, slots + [n])
  {
    var to', from', r := to + [t], from + [f], slots + [n];
    forall j | 0 <= j < |to| ensures slots[j] < |g1| && g'[slots[j]] == g1[slots[j]] {
      assert Meets(g, g1, m, to[j], from[j], slots[j]);
    }
    forall j | 0 <= j < |to'| ensures Meets(g, g', m, to'[j], from'[j], r[j]) {
      if j < |to| {
        assert Meets(g, g1, m, to[j], from[j], slots[j]);
      }
    }
    assert to'[..|to'|] == to' && to[..|to|] == to;
    assert forall x :: x in to' <==> x in to || x == t;
  }

  /** The slots and one more node, merged one after the other. */
  lemma MergeWithValue(fe: FunEnv, g: seq<Node>, m: nat, to: seq<nat>, from: seq<nat>, ty: LocalType, t: nat, f: nat)
    requires |to| == |from| && Mergeable(g, m, to + [t], from + [f], |to| + 1)
    ensures var (g1, slots) := MergeSlots(fe, g, m, to, from, |to|);
            var (g', n) := MergeNode(g1, ty, m, t, f);
      && GraphOk(g') && Ext(g, g') && g'[m] == g[m]
      && SlotsMet(g, g', m, to + [t], from + [f], |to| + 1, slots + [n]) && Unshared(g', m, slots + [n])
  {
    MergeableFront(g, m, to, from, t, f);
    MergeSlotsOk(fe, g, m, to, from, |to|);
    var (g1, slots) := MergeSlots(fe, g, m, to, from, |to|);
    assert to[..|to|] == to;
    MergeNodeOk(g1, ty, m, t, f);
    var (g', n) := MergeNode(g1, ty, m, t, f);
    ExtTrans(g, g1, g');
    forall j | 0 <= j < |to| ensures slots[j] != t || !IsPhiOn(g1, t, m) {
      MergedNodeOrigin(fe, g, m, to, from, |to|, j);
    }
    SlotsMetMore(g, g1, g', m, to, from, slots, t, f, n);
  }

  /** A merged slot is the old node or a new one. */
  lemma {:induction false} MergedNodeOrigin(fe: FunEnv, g: seq<Node>, m: nat, to: seq<nat>, from: seq<nat>, i: nat,
      j: nat)
    requires i <= |to| == |from| && j < |to|
    ensures var r := MergeSlots(fe, g, m, to, from, i).1; |r| == |to| && (r[j] == to[j] || r[j] >= |g|)
    decreases i
  {
    if i > 0 {
      var (g1, n) := MergeNode(g, SlotType(fe, i - 1), m, to[i - 1], from[i - 1]);
      MergedNodeOrigin(fe, g1, m, to[i - 1 := n], from, i - 1, j);
    }
  }

  /** The nodes a block entry keeps: its slots and, if it carries one, its value. */
  function Nodes(t: Target): seq<nat> {
    t.env.slots + if IsValue(t.ty) then [t.node] else []
  }

  predicate EnvOk(fe: FunEnv, g: seq<Node>, e: Env) {
    e.Go() ==> e.control < |g| && |e.slots| == |fe.locals| + 1 && Below(e.slots, |g|)
  }

  predicate AllPhis(g: seq<Node>, m: nat, ns: seq<nat>) {
    forall i :: 0 <= i < |ns| ==> IsPhiOn(g, ns[i], m)
  }

  /** Slots that are phis of m keep their nodes when something flows into m. */
  lemma {:induction false} MergePhis(fe: FunEnv, g: seq<Node>, m: nat, to: seq<nat>, from: seq<nat>, i: nat)
    requires i <= |to| == |from| && AllPhis(g, m, to)
    ensures MergeSlots(fe, g, m, to, from, i).1 == to && AllPhis(MergeSlots(fe, g, m, to, from, i).0, m, to)
    decreases i
  {
    if i > 0 {
      var (g1, n) := MergeNode(g, SlotType(fe, i - 1), m, to[i - 1], from[i - 1]);
      assert to[i - 1 := n] == to;
      MergePhis(fe, g1, m, to, from, i - 1);
    }
  }

  /** A block entry that a live environment may still reach. Only the inner entries of loops have a loop header. */
  predicate TargetOk(fe: FunEnv, g: seq<Node>, t: Target) {
    && !t.env.state.ControlEnd?
    && (t.cont ==> t.ty.Stmt? && t.env.state.Merged? && AllPhis(g, t.env.control, t.env.slots))
    && EnvOk(fe, g, t.env)
    && (t.env.Go() ==> Below(Nodes(t), |g|) && !t.ty.End?)
    && (t.env.state.Merged? ==>
        Joined(g, t.env.control, Nodes(t)) && (g[t.env.control].LoopHead? <==> t.cont))
  }

  predicate OnEdge(g: seq<Node>, t: Target, c: nat, src: seq<nat>, k: nat)
    requires t.env.control < |g| && IsMerge(g[t.env.control])
  {
    && k < |g[t.env.control].inputs| && g[t.env.control].inputs[k] == c
    && |Nodes(t)| <= |src|
    && forall i :: 0 <= i < |Nodes(t)| ==> Pick(g, Nodes(t)[i], t.env.control, k) == src[i]
  }

  /** Control c with nodes src is one of the sources that flowed into t. */
  ghost predicate SourceOf(g: seq<Node>, t: Target, c: nat, src: seq<nat>) {
    || (t.env.state.Reached? && t.env.control == c && Nodes(t) <= src)
    || (t.env.state.Merged? && t.env.control < |g| && IsMerge(g[t.env.control]) &&
        exists k: nat :: OnEdge(g, t, c, src, k))
  }

  /** A block entry only gains sources: it keeps those it has, its merge once it has one, and its
      value only as long as all of them agree on the type. */
  ghost predicate Evolves(g: seq<Node>, t: Target, g': seq<Node>, t': Target) {
    && |g| <= |g'|
    && t'.cont == t.cont && (t.cont ==> t' == t)
    && (t.env.Go() ==> t'.env.Go() && (IsValue(t'.ty) ==> t'.ty == t.ty))
    && (t'.env.state.Merged? ==> (t.env.state.Merged? && t'.env.control == t.env.control) || t'.env.control >= |g|)
    && forall c, src :: SourceOf(g, t, c, src) ==> SourceOf(g', t', c, src)
  }

  /** Only merge m and its phis changed. */
  predicate Touches(g: seq<Node>, g': seq<Node>, m: nat) {
    |g| <= |g'| && forall x :: 0 <= x < |g| ==> g'[x] == g[x] || x == m || IsPhiOn(g, x, m)
  }

  /** An unchanged block entry keeps its sources while the graph grows. */
  lemma EvolvesExt(g: seq<Node>, g': seq<Node>, t: Target)
    requires Ext(g, g')
    requires t.env.state.Merged? ==> Joined(g, t.env.control, Nodes(t))
    ensures Evolves(g, t, g', t)
  {
    forall c, src | SourceOf(g, t, c, src) ensures SourceOf(g', t, c, src) {
      if t.env.state.Merged? {
        var m := t.env.control;
        var k: nat :| OnEdge(g, t, c, src, k);
        assert NodeExt(g[m], g'[m]);
        forall i | 0 <= i < |Nodes(t)| ensures Pick(g', Nodes(t)[i], m, k) == src[i] {
          var n := Nodes(t)[i];
          assert Lined(g, m, n, |g[m].inputs|);
          assert NodeExt(g[n], g'[n]);
          assert Pick(g, n, m, k) == src[i];
        }
        assert OnEdge(g', t, c, src, k);
      }
    }
  }

  lemma EvolvesTrans(g: seq<Node>, t: Target, g1: seq<Node>, t1: Target, g2: seq<Node>, t2: Target)
    requires Evolves(g, t, g1, t1) && Evolves(g1, t1, g2, t2)
    ensures Evolves(g, t, g2, t2)
  {
  }

  /** Is the value of the block entry still a value after this one flows in? */
  predicate Keeps(t: Target, ty: LocalType) {
    !t.cont && IsValue(ty) && ty == t.ty
  }

  function Kept(slots: seq<nat>, node: nat, keep: bool): seq<nat> {
    if keep then slots + [node] else slots
  }

  /** Merging into a block entry whose merge m already has the new edge. */
  function Meet(fe: FunEnv, g: seq<Node>, m: nat, cur: Env, t: Target, ty: LocalType, node: nat): (seq<Node>, Target)
  {
    var (g1, env) := MergeEnv(fe, g, m, cur, t.env);
    if Keeps(t, ty) then
      var (g2, n) := MergeNode(g1, ty, m, t.node, node);
      (g2, Target(env, ty, n, false))
    else (g1, Target(env, Stmt, if t.cont || ty == t.ty then t.node else 0, t.cont))
  }

  lemma MeetOk(fe: FunEnv, g: seq<Node>, m: nat, cur: Env, t: Target, ty: LocalType, node: nat)
    requires !ty.End? && (t.cont ==> t.ty.Stmt? && AllPhis(g, m, t.env.slots)) && |cur.slots| == |t.env.slots|
    requires Mergeable(g, m, Kept(t.env.slots, t.node, Keeps(t, ty)), Kept(cur.slots, node, Keeps(t, ty)),
                       |Kept(t.env.slots, t.node, Keeps(t, ty))|)
    ensures var (g', t') := Meet(fe, g, m, cur, t, ty, node);
      var to, from := Kept(t.env.slots, t.node, Keeps(t, ty)), Kept(cur.slots, node, Keeps(t, ty));
      && GraphOk(g') && Ext(g, g') && g'[m] == g[m]
      && SlotsMet(g, g', m, to, from, |to|, Nodes(t')) && Joined(g', m, Nodes(t'))
      && t'.env.state.Merged? && t'.env.control == m && t'.cont == t.cont && |t'.env.slots| == |t.env.slots|
      && (t'.cont ==> t'.ty.Stmt?) && !t'.ty.End? && (IsValue(t'.ty) ==> t'.ty == ty)
      && Below(Nodes(t'), |g'|) && Below(t'.env.slots, |g'|)
      && (IsValue(t'.ty) ==> t'.ty == t.ty)
      && (t.cont ==> t' == t.(env := Env(Merged, m, t.env.slots)) && AllPhis(g', m, t.env.slots))
  {
    if t.cont {
      MergePhis(fe, g, m, t.env.slots, cur.slots, |t.env.slots|);
    }
    var to, from := Kept(t.env.slots, t.node, Keeps(t, ty)), Kept(cur.slots, node, Keeps(t, ty));
    if Keeps(t, ty) {
      MergeWithValue(fe, g, m, t.env.slots, cur.slots, ty, t.node, node);
      MergeableFront(g, m, t.env.slots, cur.slots, t.node, node);
      MergeSlotsOk(fe, g, m, t.env.slots, cur.slots, |t.env.slots|);
    } else {
      MergeSlotsOk(fe, g, m, to, from, |to|);
    }
    var (g', t') := Meet(fe, g, m, cur, t, ty, node);
    forall i | 0 <= i < |Nodes(t')| ensures Lined(g', m, Nodes(t')[i], |g'[m].inputs|) {
      assert Meets(g, g', m, to[i], from[i], Nodes(t')[i]);
    }
    forall i | 0 <= i < |t'.env.slots| ensures t'.env.slots[i] < |g'| {
      assert t'.env.slots[i] == Nodes(t')[i];
      assert Lined(g', m, Nodes(t')[i], |g'[m].inputs|);
    }
  }

  /** The environment that just flowed in is a source. */
  lemma NewSource(g: seq<Node>, g': seq<Node>, to: seq<nat>, from: seq<nat>, t': Target, src: seq<nat>)
    requires t'.env.control < |g| && IsMerge(g[t'.env.control]) && |g[t'.env.control].inputs| > 0
    requires |to| == |from| && SlotsMet(g, g', t'.env.control, to, from, |to|, Nodes(t'))
    requires t'.env.state.Merged? && g'[t'.env.control] == g[t'.env.control] && from <= src
    ensures var ins := g[t'.env.control].inputs; SourceOf(g', t', ins[|ins| - 1], src)
  {
    var m := t'.env.control;
    var k: nat := |g[m].inputs| - 1;
    forall i | 0 <= i < |Nodes(t')| ensures Pick(g', Nodes(t')[i], m, k) == src[i] {
      assert Meets(g, g', m, to[i], from[i], Nodes(t')[i]);
    }
    assert OnEdge(g', t', g[m].inputs[k], src, k);
  }

  /** Sources of the entry on earlier edges stay sources. */
  lemma OldSource(g: seq<Node>, g': seq<Node>, to: seq<nat>, from: seq<nat>, t': Target, c: nat, src: seq<nat>, k: nat)
    requires t'.env.control < |g| && IsMerge(g[t'.env.control]) && |g[t'.env.control].inputs| > 0
    requires |to| == |from| && SlotsMet(g, g', t'.env.control, to, from, |to|, Nodes(t'))
    requires t'.env.state.Merged? && g'[t'.env.control] == g[t'.env.control]
    requires k < |g[t'.env.control].inputs| - 1 && g[t'.env.control].inputs[k] == c && |to| <= |src|
    requires forall i :: 0 <= i < |to| ==> Pick(g, to[i], t'.env.control, k) == src[i]
    ensures SourceOf(g', t', c, src)
  {
    var m := t'.env.control;
    forall i | 0 <= i < |Nodes(t')| ensures Pick(g', Nodes(t')[i], m, k) == src[i] {
      assert Meets(g, g', m, to[i], from[i], Nodes(t')[i]);
    }
    assert OnEdge(g', t', c, src, k);
  }

  /** What flowing into an open block entry does. */
  ghost predicate Merges(fe: FunEnv, g: seq<Node>, cur: Env, t: Target, ty: LocalType, node: nat, g': seq<Node>,
      t': Target) {
    && GraphOk(g') && Ext(g, g') && TargetOk(fe, g', t') && t'.env.Go()
    && Evolves(g, t, g', t')
    && SourceOf(g', t', cur.control, cur.slots + [node])
    && (IsValue(t'.ty) ==> t'.ty == ty)
    && (if t.env.state.Merged? then t'.env.state.Merged? && t'.env.control == t.env.control
      && Touches(g, g', t.env.control)
        else g <= g' && (t'.env.state.Merged? ==> t'.env.control >= |g|))
  }

  lemma MergeIntoUnreached(fe: FunEnv, g: seq<Node>, cur: Env, t: Target, ty: LocalType, node: nat)
    requires GraphOk(g) && cur.Go() && EnvOk(fe, g, cur) && TargetOk(fe, g, t)
    requires !ty.End? && (IsValue(ty) ==> node < |g|) && t.env.state.Unreached?
    ensures var (g', t') := MergeInto(fe, g, cur, t, ty, node); Merges(fe, g, cur, t, ty, node, g', t')
  {
    var (g', t') := MergeInto(fe, g, cur, t, ty, node);
    assert forall i :: 0 <= i < |g| ==> NodeExt(g[i], g[i]);
    assert Nodes(t') <= cur.slots + [node];
  }

  lemma MergeIntoReached(fe: FunEnv, g: seq<Node>, cur: Env, t: Target, ty: LocalType, node: nat)
    requires GraphOk(g) && cur.Go() && EnvOk(fe, g, cur) && TargetOk(fe, g, t)
    requires !ty.End? && (IsValue(ty) ==> node < |g|) && t.env.state.Reached?
    ensures var (g', t') := MergeInto(fe, g, cur, t, ty, node); Merges(fe, g, cur, t, ty, node, g', t')
  {
    var (g', t') := MergeInto(fe, g, cur, t, ty, node);
    var m := |g|;
    var g1 := g + [Merge([t.env.control, cur.control])];
    var to, from := Kept(t.env.slots, t.node, Keeps(t, ty)), Kept(cur.slots, node, Keeps(t, ty));
    forall i | 0 <= i < |g1| ensures NodeOk(g1[i], i) {
      if i < |g| { assert NodeOk(g[i], i); }
    }
    forall x | 0 <= x < |g| ensures !IsPhiOn(g1, x, m) {
      assert NodeOk(g[x], x);
    }
    assert to <= Nodes(t);
    forall j | 0 <= j < |to| ensures to[j] < |g| {
      assert to[j] == Nodes(t)[j];
    }
    assert Mergeable(g1, m, to, from, |to|);
    MeetOk(fe, g1, m, cur, t, ty, node);
    assert (g', t') == Meet(fe, g1, m, cur, t, ty, node);
    NewSource(g1, g', to, from, t', cur.slots + [node]);
    forall c, src | SourceOf(g, t, c, src) ensures SourceOf(g', t', c, src) {
      OldSource(g1, g', to, from, t', c, src, 0);
    }
    forall i | 0 <= i < |g| ensures NodeExt(g[i], g'[i]) && g[i] == g'[i] {
      assert NodeExt(g1[i], g'[i]);
    }
  }

  /** With the new edge in place, the kept nodes of a merged entry are ready to be merged. */
  lemma EdgeAdded(g: seq<Node>, m: nat, to: seq<nat>, from: seq<nat>, c: nat)
    requires GraphOk(g) && Joined(g, m, to) && |from| == |to| && Below(from, |g|)
    ensures var g1 := g[m := AppendInput(g[m], c)];
      && Mergeable(g1, m, to, from, |to|) && Ext(g, g1) && Touches(g, g1, m)
      && (forall j :: 0 <= j < |to| ==> g1[to[j]] == g[to[j]])
      && (AllPhis(g, m, to) ==> AllPhis(g1, m, to))
  {
    var g1 := g[m := AppendInput(g[m], c)];
    forall i | 0 <= i < |g1| ensures NodeOk(g1[i], i) && NodeExt(g[i], g1[i]) {
      assert NodeOk(g[i], i);
    }
    forall j | 0 <= j < |to| ensures Lined(g1, m, to[j], |g1[m].inputs| - 1) && g1[to[j]] == g[to[j]] {
      assert Lined(g, m, to[j], |g[m].inputs|);
    }
  }

  /** The sources of a merged entry after another one was merged in. */
  lemma MergedSources(g: seq<Node>, g1: seq<Node>, g': seq<Node>, to: seq<nat>, from: seq<nat>, t: Target, t': Target,
      c: nat, src: seq<nat>)
    requires var m := t.env.control;
      && m < |g| && IsMerge(g[m]) && |g| == |g1| && IsMerge(g1[m]) && |g1[m].inputs| == |g[m].inputs| + 1
      && g[m].inputs <= g1[m].inputs
      && |to| == |from| && SlotsMet(g1, g', m, to, from, |to|, Nodes(t')) && g'[m] == g1[m]
      && to <= Nodes(t) && (forall j :: 0 <= j < |to| ==> to[j] < |g| && g1[to[j]] == g[to[j]])
      && t'.env.state.Merged? && t'.env.control == m
    requires t.env.state.Merged? && SourceOf(g, t, c, src)
    ensures SourceOf(g', t', c, src)
  {
    var m := t.env.control;
    var k: nat :| OnEdge(g, t, c, src, k);
    forall i | 0 <= i < |to| ensures Pick(g1, to[i], m, k) == src[i] {
      assert Pick(g, Nodes(t)[i], m, k) == src[i];
    }
    OldSource(g1, g', to, from, t', c, src, k);
  }

  lemma MergedIsMeet(fe: FunEnv, g: seq<Node>, cur: Env, t: Target, ty: LocalType, node: nat)
    requires cur.Go() && EnvOk(fe, g, cur) && TargetOk(fe, g, t) && !ty.End? && t.env.state.Merged?
    ensures var m := t.env.control;
      MergeInto(fe, g, cur, t, ty, node) == Meet(fe, g[m := AppendInput(g[m], cur.control)], m, cur, t, ty, node)
  {
    hide MergeSlots, MergeNode;
  }

  lemma MergeIntoMerged(fe: FunEnv, g: seq<Node>, cur: Env, t: Target, ty: LocalType, node: nat)
    requires GraphOk(g) && cur.Go() && EnvOk(fe, g, cur) && TargetOk(fe, g, t)
    requires !ty.End? && (IsValue(ty) ==> node < |g|) && t.env.state.Merged?
    ensures var (g', t') := MergeInto(fe, g, cur, t, ty, node); Merges(fe, g, cur, t, ty, node, g', t')
  {
    hide MergeSlots, MergeNode, GraphOk, Meet, MergeInto;
    MergedIsMeet(fe, g, cur, t, ty, node);
    var (g', t') := MergeInto(fe, g, cur, t, ty, node);
    var m := t.env.control;
    var g1 := g[m := AppendInput(g[m], cur.control)];
    var to, from := Kept(t.env.slots, t.node, Keeps(t, ty)), Kept(cur.slots, node, Keeps(t, ty));
    assert to <= Nodes(t);
    assert Joined(g, m, to) by {
      assert forall j :: 0 <= j < |to| ==> to[j] == Nodes(t)[j];
    }
    EdgeAdded(g, m, to, from, cur.control);
    MeetOk(fe, g1, m, cur, t, ty, node);
    NewSource(g1, g', to, from, t', cur.slots + [node]);
    ExtTrans(g, g1, g');
    assert Evolves(g, t, g', t') by {
      forall c, src | SourceOf(g, t, c, src) ensures SourceOf(g', t', c, src) {
        MergedSources(g, g1, g', to, from, t, t', c, src);
      }
    }
    assert Touches(g, g', m);
  }

  lemma MergeIntoOk(fe: FunEnv, g: seq<Node>, cur: Env, t: Target, ty: LocalType, node: nat)
    requires GraphOk(g) && cur.Go() && EnvOk(fe, g, cur) && TargetOk(fe, g, t)
    requires !ty.End? && (IsValue(ty) ==> node < |g|)
    ensures var (g', t') := MergeInto(fe, g, cur, t, ty, node); Merges(fe, g, cur, t, ty, node, g', t')
  {
    match t.env.state
    case Unreached => MergeIntoUnreached(fe, g, cur, t, ty, node);
    case Reached => MergeIntoReached(fe, g, cur, t, ty, node);
    case Merged => MergeIntoMerged(fe, g, cur, t, ty, node);
  }

  predicate BlocksOk(fe: FunEnv, g: seq<Node>, blocks: seq<Target>) {
    && (forall i :: 0 <= i < |blocks| ==> TargetOk(fe, g, blocks[i]))
    && (forall i, j :: 0 <= i < j < |blocks| && blocks[i].env.state.Merged? && blocks[j].env.state.Merged? ==>
          blocks[i].env.control != blocks[j].env.control)
  }

  /** The invariant of the construction. */
  predicate Inv(fe: FunEnv, s: St) {
    GraphOk(s.g) && EnvOk(fe, s.g, s.cur) && BlocksOk(fe, s.g, s.blocks)
  }

  /** The graph, every open block entry and what is left behind only gain. */
  ghost predicate Steps(s: St, s': St) {
    && Ext(s.g, s'.g) && |s.blocks| == |s'.blocks| && s.log.gone <= s'.log.gone
    && forall i :: 0 <= i < |s.blocks| ==> Evolves(s.g, s.blocks[i], s'.g, s'.blocks[i])
  }

  lemma ExtRefl(g: seq<Node>)
    ensures Ext(g, g)
  {
    forall i | 0 <= i < |g| ensures NodeExt(g[i], g[i]) {}
  }

  lemma StepsRefl(s: St)
    ensures Steps(s, s)
  {
    ExtRefl(s.g);
  }

  lemma StepsTrans(s: St, s1: St, s2: St)
    requires Steps(s, s1) && Steps(s1, s2)
    ensures Steps(s, s2)
  {
    ExtTrans(s.g, s1.g, s2.g);
    forall i | 0 <= i < |s.blocks| ensures Evolves(s.g, s.blocks[i], s2.g, s2.blocks[i]) {
      assert Evolves(s.g, s.blocks[i], s1.g, s1.blocks[i]) && Evolves(s1.g, s1.blocks[i], s2.g, s2.blocks[i]);
    }
  }

  /** A block entry survives changes that spare its merge and phis. */
  lemma TargetKeep(fe: FunEnv, g: seq<Node>, g': seq<Node>, t: Target)
    requires TargetOk(fe, g, t) && |g| <= |g'|
    requires t.env.state.Merged? ==> g'[t.env.control] == g[t.env.control]
    requires t.env.state.Merged? ==>
      forall x :: 0 <= x < |g| && (IsPhiOn(g, x, t.env.control) || IsPhiOn(g', x, t.env.control)) ==> g'[x] == g[x]
    ensures TargetOk(fe, g', t)
  {
    if t.env.state.Merged? {
      var m := t.env.control;
      forall i | 0 <= i < |Nodes(t)| ensures Lined(g', m, Nodes(t)[i], |g'[m].inputs|) {
        assert Lined(g, m, Nodes(t)[i], |g[m].inputs|);
      }
      forall i, j | 0 <= i < j < |Nodes(t)| && Nodes(t)[i] == Nodes(t)[j] ensures !IsPhiOn(g', Nodes(t)[i], m) {
        assert Lined(g, m, Nodes(t)[i], |g[m].inputs|);
      }
    }
  }

  /** New nodes at the end of the graph leave the block entries alone. */
  lemma BlocksGrow(fe: FunEnv, g: seq<Node>, g': seq<Node>, blocks: seq<Target>)
    requires BlocksOk(fe, g, blocks) && g <= g'
    ensures BlocksOk(fe, g', blocks) && Ext(g, g')
    ensures forall i :: 0 <= i < |blocks| ==> Evolves(g, blocks[i], g', blocks[i])
  {
    assert Ext(g, g') by {
      forall i | 0 <= i < |g| ensures NodeExt(g[i], g'[i]) {}
    }
    forall i | 0 <= i < |blocks| ensures TargetOk(fe, g', blocks[i]) && Evolves(g, blocks[i], g', blocks[i]) {
      TargetKeep(fe, g, g', blocks[i]);
      EvolvesExt(g, g', blocks[i]);
    }
  }

  /** Flowing into one block entry leaves the others alone. */
  lemma BlocksMerge(fe: FunEnv, g: seq<Node>, blocks: seq<Target>, i: nat, cur: Env, ty: LocalType, node: nat)
    requires GraphOk(g) && BlocksOk(fe, g, blocks) && i < |blocks|
    requires cur.Go() && EnvOk(fe, g, cur) && !ty.End? && (IsValue(ty) ==> node < |g|)
    ensures var (g', t') := MergeInto(fe, g, cur, blocks[i], ty, node);
      && Merges(fe, g, cur, blocks[i], ty, node, g', t')
      && BlocksOk(fe, g', blocks[i := t'])
      && forall j :: 0 <= j < |blocks| ==> Evolves(g, blocks[j], g', blocks[i := t'][j])
  {
    var t := blocks[i];
    assert TargetOk(fe, g, t);
    MergeIntoOk(fe, g, cur, t, ty, node);
    var (g', t') := MergeInto(fe, g, cur, t, ty, node);
    forall j | 0 <= j < |blocks| && j != i ensures TargetOk(fe, g', blocks[j]) && Evolves(g, blocks[j], g', blocks[j]) {
      assert TargetOk(fe, g, blocks[j]);
      forall x | 0 <= x < |g| && blocks[j].env.state.Merged? &&
                 (x == blocks[j].env.control || IsPhiOn(g, x, blocks[j].env.control) || IsPhiOn(g', x,
                   blocks[j].env.control))
        ensures g'[x] == g[x]
      {
        assert NodeExt(g[x], g'[x]);
      }
      TargetKeep(fe, g, g', blocks[j]);
      EvolvesExt(g, g', blocks[j]);
    }
  }
}
