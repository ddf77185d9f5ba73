/** Every control node of the graph has at most one user, so a run of the graph never has a choice. */
module SsaControl {
  import opened Syntax
  import opened Graph
  import opened Ssa
  import opened SsaInvariant
  import opened SsaRun

  /** The control inputs of a node. */
  function Controls(n: Node): seq<nat> {
    match n
    case Branch(_, c) => [c]
    case Check(_, _, _, c) => [c]
    case Ret(_, _, c) => [c]
    case Dead(_, c) => [c]
    case Merge(ins) => ins
    case LoopHead(ins) => ins
    case _ => []
  }

  /** Control input k of node n is c. */
  predicate UsedAt(g: seq<Node>, c: nat, n: nat, k: nat) {
    n < |g| && k < |Controls(g[n])| && Controls(g[n])[k] == c
  }

  /** No control node is used twice. */
  ghost predicate Once(g: seq<Node>) {
    && (forall c: nat, n: nat, k: nat, n': nat, k': nat :: UsedAt(g, c, n, k) && UsedAt(g, c, n', k') ==>
      n == n' && k == k')
    && (forall c: nat, n: nat, k: nat :: UsedAt(g, c, n, k) ==> c < |g|)
  }

  /** The projections of a branch follow it. */
  predicate Projected(n: Node, at: nat) {
    (n.IfTrue? ==> n.branch + 1 == at) && (n.IfFalse? ==> n.branch + 2 == at)
  }

  ghost predicate Linear(g: seq<Node>) {
    Once(g) && forall i :: 0 <= i < |g| ==> Projected(g[i], i)
  }

  /** c exists and nothing uses it yet. */
  ghost predicate Own(g: seq<Node>, c: nat) {
    c < |g| && forall n: nat, k: nat :: !UsedAt(g, c, n, k)
  }

  /** g' uses what g used and, once each, the given controls, which it owned. */
  ghost predicate Spends(g: seq<Node>, g': seq<Node>, spent: set<nat>) {
    && |g| <= |g'| && Linear(g')
    && (forall c: nat :: Own(g, c) && c !in spent ==> Own(g', c))
    && (forall c: nat :: |g| <= c < |g'| && c !in spent ==> Own(g', c))
  }

  lemma AppendNode(g: seq<Node>, x: Node)
    requires Linear(g) && Projected(x, |g|)
    requires forall i :: 0 <= i < |Controls(x)| ==> Own(g, Controls(x)[i])
    requires forall i, j :: 0 <= i < j < |Controls(x)| ==> Controls(x)[i] != Controls(x)[j]
    ensures Spends(g, g + [x], set c | c in Controls(x))
  {
    var g' := g + [x];
    forall c: nat, n: nat, k: nat | UsedAt(g', c, n, k) ensures if n < |g| then UsedAt(g, c, n, k)
      else n == |g| && Own(g, c) && c in Controls(x) {
      if n == |g| { assert Own(g, Controls(x)[k]); }
    }
    forall i | 0 <= i < |g'| ensures Projected(g'[i], i) {
      if i < |g| { assert Projected(g[i], i); }
    }
  }

  lemma AppendEdge(g: seq<Node>, m: nat, c0: nat)
    requires Linear(g) && m < |g| && IsMerge(g[m]) && Own(g, c0)
    ensures Spends(g, g[m := AppendInput(g[m], c0)], {c0})
  {
    var g' := g[m := AppendInput(g[m], c0)];
    forall c: nat, n: nat, k: nat | UsedAt(g', c, n, k) ensures UsedAt(g, c, n, k) || (n == m && k == |g[m].inputs|
      && c == c0) {
    }
    forall i | 0 <= i < |g'| ensures Projected(g'[i], i) {
      assert Projected(g[i], i);
    }
  }

  /** Changing or adding phis uses no control. */
  lemma MergeNodeSpends(g: seq<Node>, ty: LocalType, m: nat, t: nat, f: nat)
    requires Linear(g)
    ensures Spends(g, MergeNode(g, ty, m, t, f).0, {})
  {
    var g' := MergeNode(g, ty, m, t, f).0;
    forall c: nat, n: nat, k: nat | UsedAt(g', c, n, k) ensures UsedAt(g, c, n, k) {
    }
    forall i | 0 <= i < |g'| ensures Projected(g'[i], i) {
      if i < |g| { assert Projected(g[i], i); }
    }
  }

  lemma SpendsTrans(g: seq<Node>, g1: seq<Node>, g2: seq<Node>, a: set<nat>, b: set<nat>)
    requires Spends(g, g1, a) && Spends(g1, g2, b)
    ensures Spends(g, g2, a + b)
  {
  }

  lemma {:induction false} MergeSlotsSpends(fe: FunEnv, g: seq<Node>, m: nat, to: seq<nat>, from: seq<nat>, i: nat)
    requires Linear(g) && i <= |to| && i <= |from|
    ensures Spends(g, MergeSlots(fe, g, m, to, from, i).0, {})
    decreases i
  {
    if i > 0 {
      MergeNodeSpends(g, SlotType(fe, i - 1), m, to[i - 1], from[i - 1]);
      var (g1, n) := MergeNode(g, SlotType(fe, i - 1), m, to[i - 1], from[i - 1]);
      MergeSlotsSpends(fe, g1, m, to[i - 1 := n], from, i - 1);
      SpendsTrans(g, g1, MergeSlots(fe, g, m, to, from, i).0, {}, {});
    }
  }

  lemma {:induction false} LoopSlotsSpends(fe: FunEnv, g: seq<Node>, head: nat, slots: seq<nat>, i: nat)
    requires Linear(g) && i <= |slots|
    ensures Spends(g, LoopSlots(fe, g, head, slots, i).0, {})
    decreases i
  {
    if i > 0 {
      var x := Phi(SlotType(fe, i - 1), [slots[i - 1]], head);
      AppendNode(g, x);
      assert (set c | c in Controls(x)) == {};
      LoopSlotsSpends(fe, g + [x], head, slots[i - 1 := |g|], i - 1);
      SpendsTrans(g, g + [x], LoopSlots(fe, g, head, slots, i).0, {}, {});
    }
  }

  /** Does this block entry hold a control node of its own? */
  predicate Holds(t: Target) {
    !t.cont && t.env.Go()
  }

  /** The current environment, the block entries, whoever holds `held`, and the places where the code ended
      own different controls. */
  ghost predicate Owned(s: St, held: set<nat>) {
    held !! s.log.gone && OwnedApart(s, held + s.log.gone)
  }

  ghost predicate OwnedApart(s: St, held: set<nat>) {
    && Linear(s.g)
    && (s.cur.Go() ==> Own(s.g, s.cur.control) && s.cur.control !in held)
    && (forall i :: 0 <= i < |s.blocks| && Holds(s.blocks[i]) ==>
          Own(s.g, s.blocks[i].env.control) && s.blocks[i].env.control !in held
          && (s.cur.Go() ==> s.blocks[i].env.control != s.cur.control))
    && (forall i, j :: 0 <= i < j < |s.blocks| && Holds(s.blocks[i]) && Holds(s.blocks[j]) ==>
          s.blocks[i].env.control != s.blocks[j].env.control)
    && (forall c :: c in held ==> Own(s.g, c))
  }

  /** Nodes were added that use at most the control of the current environment. */
  lemma OwnedGrow(s: St, g: seq<Node>, e: Env, held: set<nat>, spent: set<nat>)
    requires Owned(s, held) && s.cur.Go() && Spends(s.g, g, spent)
    requires forall c :: c in spent ==> c == s.cur.control || c >= |s.g|
    requires e.Go() ==> (|s.g| <= e.control < |g| && e.control !in spent) || (e.control == s.cur.control && spent == {})
    ensures Owned(St(g, e, s.blocks, s.log), held)
  {
    forall i | 0 <= i < |s.blocks| && Holds(s.blocks[i])
      ensures Own(g, s.blocks[i].env.control) && s.blocks[i].env.control !in held
      ensures (e.Go() ==> s.blocks[i].env.control != e.control)
    {
      assert Own(s.g, s.blocks[i].env.control);
    }
    forall c | c in held ensures Own(g, c) {
      assert Own(s.g, c);
    }
  }

  /** What flowing into an open block entry uses up, and what the entry holds then. */
  lemma MergeSpends(fe: FunEnv, g: seq<Node>, cur: Env, t: Target, ty: LocalType, node: nat)
    requires Linear(g) && cur.Go() && Own(g, cur.control) && TargetOk(fe, g, t) && !ty.End?
    requires t.env.state.Reached? ==> Own(g, t.env.control) && t.env.control != cur.control
    ensures var (g', t') := MergeInto(fe, g, cur, t, ty, node);
      && t'.cont == t.cont
      && match t.env.state
         case Reached => Spends(g, g', {t.env.control, cur.control}) && t'.env.control == |g| < |g'|
         case Merged => Spends(g, g', {cur.control}) && t'.env.control == t.env.control
         case _ => Spends(g, g', {}) && t'.env.control == cur.control
  {
    var (g', t') := MergeInto(fe, g, cur, t, ty, node);
    var c := cur.control;
    if t.env.state.Reached? {
      var x := Merge([t.env.control, c]);
      AppendNode(g, x);
      assert (set c' | c' in Controls(x)) == {t.env.control, c};
      MeetSpends(fe, g + [x], |g|, cur, t, ty, node);
      assert (g', t') == Meet(fe, g + [x], |g|, cur, t, ty, node);
      SpendsTrans(g, g + [x], g', {t.env.control, c}, {});
      assert {t.env.control, c} + {} == {t.env.control, c};
    } else if t.env.state.Merged? {
      var g1 := g[t.env.control := AppendInput(g[t.env.control], c)];
      AppendEdge(g, t.env.control, c);
      MeetSpends(fe, g1, t.env.control, cur, t, ty, node);
      assert (g', t') == Meet(fe, g1, t.env.control, cur, t, ty, node);
      SpendsTrans(g, g1, g', {c}, {});
      assert {c} + {} == {c};
    }
  }

  /** The current environment hands its control to block entry i. */
  lemma OwnedMerge(fe: FunEnv, s: St, i: nat, ty: LocalType, node: nat, held: set<nat>)
    requires Owned(s, held) && s.cur.Go() && i < |s.blocks| && TargetOk(fe, s.g, s.blocks[i]) && !ty.End?
    ensures var (g, t) := MergeInto(fe, s.g, s.cur, s.blocks[i], ty, node);
      Owned(St(g, Kill(ControlEnd), s.blocks[i := t], s.log), held)
  {
    var t := s.blocks[i];
    MergeSpends(fe, s.g, s.cur, t, ty, node);
    var (g', t') := MergeInto(fe, s.g, s.cur, t, ty, node);
    var spent := match t.env.state
                 case Reached => {t.env.control, s.cur.control}
                 case Merged => {s.cur.control}
                 case _ => {};
    OwnedSwap(s, i, g', t', held, spent);
  }

  /** Slots and value of a block entry use no control. */
  lemma MeetSpends(fe: FunEnv, g: seq<Node>, m: nat, cur: Env, t: Target, ty: LocalType, node: nat)
    requires Linear(g)
    ensures Spends(g, Meet(fe, g, m, cur, t, ty, node).0, {})
  {
    var n := if |t.env.slots| <= |cur.slots| then |t.env.slots| else |cur.slots|;
    MergeSlotsSpends(fe, g, m, t.env.slots, cur.slots, n);
    var g1 := MergeSlots(fe, g, m, t.env.slots, cur.slots, n).0;
    if Keeps(t, ty) {
      MergeNodeSpends(g1, ty, m, t.node, node);
      SpendsTrans(g, g1, MergeNode(g1, ty, m, t.node, node).0, {}, {});
    }
  }

  /** One block entry takes the control of the current environment. */
  lemma OwnedSwap(s: St, i: nat, g: seq<Node>, t: Target, held: set<nat>, spent: set<nat>)
    requires Owned(s, held) && s.cur.Go() && i < |s.blocks| && Spends(s.g, g, spent) && t.cont == s.blocks[i].cont
    requires forall c :: c in spent ==> c == s.cur.control || (Holds(s.blocks[i]) && c == s.blocks[i].env.control)
    requires Holds(t) ==> t.env.control !in spent
    requires Holds(t) ==> t.env.control == s.cur.control || |s.g| <= t.env.control < |g| ||
                          (Holds(s.blocks[i]) && t.env.control == s.blocks[i].env.control)
    ensures Owned(St(g, Kill(ControlEnd), s.blocks[i := t], s.log), held)
  {
    var b := s.blocks[i := t];
    forall j | 0 <= j < |b| && Holds(b[j]) ensures Own(g, b[j].env.control) && b[j].env.control !in held {
      if j == i {
        if |s.g| <= t.env.control {
        } else {
          assert Own(s.g, t.env.control);
        }
      } else {
        assert Own(s.g, s.blocks[j].env.control) && s.blocks[j].env.control != s.cur.control;
        if Holds(s.blocks[i]) { assert s.blocks[i].env.control != s.blocks[j].env.control; }
      }
    }
    forall j, k | 0 <= j < k < |b| && Holds(b[j]) && Holds(b[k]) ensures b[j].env.control != b[k].env.control {
      if j == i {
        assert Own(s.g, s.blocks[k].env.control) && s.blocks[k].env.control != s.cur.control;
      } else if k == i {
        assert Own(s.g, s.blocks[j].env.control) && s.blocks[j].env.control != s.cur.control;
      }
    }
    forall c | c in held ensures Own(g, c) {
      assert Own(s.g, c);
    }
  }

  /** An entry on the block stack instead of a held control, or with no control at all. */
  lemma OwnedPush(s: St, t: Target, held: set<nat>)
    requires Owned(s, if Holds(t) then held + {t.env.control} else held)
    requires Holds(t) ==> t.env.control !in held
    ensures Owned(s.(blocks := s.blocks + [t]), held)
  {
    var b := s.blocks + [t];
    assert forall i :: 0 <= i < |s.blocks| ==> b[i] == s.blocks[i];
    assert b[|s.blocks|] == t;
    var h := if Holds(t) then held + {t.env.control} else held;
    forall c | c in held ensures Own(s.g, c) { assert c in h; }
    if Holds(t) { assert t.env.control in h; }
  }

  /** The innermost entry becomes a held control. */
  lemma OwnedPark(s: St, t: Target, held: set<nat>)
    requires Owned(s.(blocks := s.blocks + [t]), held) && !t.cont
    ensures Owned(s, if Holds(t) then held + {t.env.control} else held)
    ensures Holds(t) ==> t.env.control !in held
  {
    var b := s.blocks + [t];
    assert forall i :: 0 <= i < |s.blocks| ==> b[i] == s.blocks[i];
    assert b[|s.blocks|] == t;
  }

  /** A held control becomes the current one. */
  lemma OwnedTake(s: St, e: Env, held: set<nat>)
    requires e.Go() && Owned(s, held + {e.control}) && e.control !in held
    ensures Owned(s.(cur := e), held)
  {
    assert e.control in held + {e.control};
    forall i | 0 <= i < |s.blocks| && Holds(s.blocks[i]) ensures s.blocks[i].env.control != e.control {
    }
  }

  /** Continue from the innermost entry. */
  lemma OwnedPop(s: St, t: Target, held: set<nat>)
    requires !s.cur.Go() && Owned(s.(blocks := s.blocks + [t]), held) && !t.cont
    ensures Owned(s.(cur := t.env), held)
  {
    OwnedPark(s, t, held);
    if t.env.Go() { OwnedTake(s, t.env, held); }
  }

  lemma OwnedDrop(s: St, t: Target, held: set<nat>)
    requires Owned(s.(blocks := s.blocks + [t]), held)
    ensures Owned(s, held)
  {
    var b := s.blocks + [t];
    assert forall i :: 0 <= i < |s.blocks| ==> b[i] == s.blocks[i];
  }

  /** Flow into an entry beside the block stack, then continue from it. */
  lemma OwnedJoin(fe: FunEnv, s: St, t: Target, ty: LocalType, node: nat, held: set<nat>)
    requires Owned(s.(blocks := s.blocks + [t]), held) && TargetOk(fe, s.g, t) && !t.cont && (s.cur.Go() ==> !ty.End?)
    ensures var (g, t') := MergeInto(fe, s.g, s.cur, t, ty, node);
      Owned(St(g, Kill(ControlEnd), s.blocks + [t'], s.log), held) && !t'.cont
  {
    var s1 := s.(blocks := s.blocks + [t]);
    var (g, t') := MergeInto(fe, s.g, s.cur, t, ty, node);
    assert s1.blocks[|s.blocks|] == t;
    if s.cur.Go() {
      OwnedMerge(fe, s1, |s.blocks|, ty, node, held);
      assert s1.blocks[|s.blocks| := t'] == s.blocks + [t'];
      MergeSpends(fe, s.g, s.cur, t, ty, node);
    }
  }

  lemma OwnedBranch(s: St, cond: nat, held: set<nat>)
    requires Owned(s, held) && s.cur.Go()
    ensures var (g, tc, fc) := BuildBranch(s.g, s.cur.control, cond);
      Owned(St(g, Env(Reached, tc, s.cur.slots), s.blocks, s.log), held + {fc}) && fc !in held
  {
    var c := s.cur.control;
    var (g, tc, fc) := BuildBranch(s.g, c, cond);
    BranchSpends(s.g, c, cond);
    OwnedGrow(s, g, Env(Reached, tc, s.cur.slots), held, {c});
    forall c' | c' in held ensures c' < |s.g| { assert Own(s.g, c'); }
    forall i | 0 <= i < |s.blocks| && Holds(s.blocks[i]) ensures s.blocks[i].env.control < |s.g| {
      assert Own(s.g, s.blocks[i].env.control);
    }
  }

  lemma BranchSpends(g: seq<Node>, c: nat, cond: nat)
    requires Linear(g) && Own(g, c)
    ensures Spends(g, BuildBranch(g, c, cond).0, {c})
  {
    var g1 := g + [Branch(cond, c)];
    AppendNode(g, Branch(cond, c));
    var g2 := g1 + [IfTrue(|g|)];
    AppendNode(g1, IfTrue(|g|));
    AppendNode(g2, IfFalse(|g|));
    assert (set x | x in Controls(Branch(cond, c))) == {c};
    assert (set x | x in Controls(IfTrue(|g|))) == {} == (set x | x in Controls(IfFalse(|g|)));
    SpendsTrans(g, g1, g2, {c}, {});
    SpendsTrans(g, g2, g2 + [IfFalse(|g|)], {c} + {}, {});
    assert g2 + [IfFalse(|g|)] == BuildBranch(g, c, cond).0;
    assert {c} + {} + {} == {c};
  }

  /** One node that ends or checks the current control. */
  lemma OwnedEnd(s: St, x: Node, e: Env, held: set<nat>)
    requires Owned(s, held) && s.cur.Go() && Projected(x, |s.g|) && Controls(x) == [s.cur.control]
    requires e.Go() ==> e.control == |s.g|
    ensures Owned(St(s.g + [x], e, s.blocks, s.log), held)
  {
    AppendNode(s.g, x);
    assert (set c | c in Controls(x)) == {s.cur.control};
    OwnedGrow(s, s.g + [x], e, held, {s.cur.control});
  }

  lemma OwnedKill(s: St, held: set<nat>)
    requires Owned(s, held)
    ensures Owned(s.(cur := Kill(ControlEnd)), held)
  {
  }

  /** One node that uses no control. */
  lemma OwnedValue(s: St, x: Node, held: set<nat>)
    requires Owned(s, held) && s.cur.Go() && Projected(x, |s.g|) && Controls(x) == []
    ensures Owned(s.(g := s.g + [x]), held)
  {
    AppendNode(s.g, x);
    assert (set c | c in Controls(x)) == {};
    OwnedGrow(s, s.g + [x], s.cur, held, {});
  }

  lemma OwnedOp(s: St, op: Op, args: seq<nat>, held: set<nat>)
    requires Owned(s, held) && s.cur.Go() && |s.cur.slots| > 0
    ensures var (g, e, n) := BuildOp(s.g, s.cur, op, args); Owned(St(g, e, s.blocks, s.log), held)
  {
    var w := s.cur.slots[|s.cur.slots| - 1];
    var xs := if op.effect then args + [w] else args;
    var s1 := if op.traps then St(s.g + [Check(op, xs, w, s.cur.control)], s.cur.(control := |s.g|), s.blocks,
        s.log) else s;
    if op.traps { OwnedEnd(s, Check(op, xs, w, s.cur.control), s1.cur, held); }
    var s2 := if op.store && |args| > 0 then s1 else s1.(g := s1.g + [App(op, xs)]);
    if s2 != s1 { OwnedValue(s1, App(op, xs), held); }
    if op.effect { OwnedValue(s2, World(op, xs), held); }
  }

  /** Every tree keeps controls owned once, whatever else is held meanwhile. */
  lemma {:induction false} RunOwned(fe: FunEnv, t: Syn, s: St, held: set<nat>)
    requires Inv(fe, s) && s.cur.Go() && Run(fe, t, s).Ok? && Owned(s, held)
    ensures Owned(Run(fe, t, s).s, held)
    decreases t, 2
  {
    match t.instr
    case Nop =>
    case GetLocal(_) =>
    case Unreachable => OwnedEnd(s, Dead(s.cur.slots[|s.cur.slots| - 1], s.cur.control), Kill(ControlEnd), held);
    case Const(ty, bits) => OwnedValue(s, Literal(ty, bits), held);
    case SetLocal(_) => KidsOwned(fe, t, 0, s, held);
    case Apply(op) => ApplyOwned(fe, t, op, s, held);
    case Return => ReturnOwned(fe, t, s, held);
    case Br(d) => BrOwned(fe, t, d, s, held);
    case BrIf(d) => BrIfOwned(fe, t, d, s, held);
    case Select => SelectOwned(fe, t, s, held);
    case If => IfOwned(fe, t, s, held);
    case IfElse => IfElseOwned(fe, t, s, held);
    case Block(_) => BlockOwned(fe, t, s, held);
    case Loop(_) => LoopOwned(fe, t, s, held);
    case Cut(_, _) => CutOwned(fe, t, s, held);
  }

  lemma {:induction false} CutOwned(fe: FunEnv, t: Syn, s: St, held: set<nat>)
    requires t.instr.Cut? && Inv(fe, s) && s.cur.Go() && Run(fe, t, s).Ok? && Owned(s, held)
    ensures Owned(Run(fe, t, s).s, held)
    decreases t, 1
  {
    KidsOwned(fe, t, 0, s, held);
    var k := RunKids(fe, t, 0, s);
    OwnedAbandon(k.s, held);
  }

  /** Control that is left behind stays unused. */
  lemma OwnedAbandon(s: St, held: set<nat>)
    requires Owned(s, held)
    ensures Owned(Abandon(s), held)
  {
    if s.cur.Go() {
      assert held + Abandon(s).log.gone == held + s.log.gone + {s.cur.control};
    }
  }

  lemma {:induction false} KidsOwned(fe: FunEnv, t: Syn, i: nat, s: St, held: set<nat>)
    requires i <= |t.kids| && Inv(fe, s) && s.cur.Go() && RunKids(fe, t, i, s).KOk? && Owned(s, held)
    ensures Owned(RunKids(fe, t, i, s).s, held)
    decreases t, 0, |t.kids| - i
  {
    if i < |t.kids| {
      RunOk(fe, t.kids[i], s);
      RunOwned(fe, t.kids[i], s, held);
      var s1 := Run(fe, t.kids[i], s).s;
      if s1.cur.Go() {
        KidsOwned(fe, t, i + 1, s1, held);
      } else {
        RunKidsDead(fe, t, i + 1, s1);
      }
    }
  }

  lemma {:induction false} ApplyOwned(fe: FunEnv, t: Syn, op: Op, s: St, held: set<nat>)
    requires t.instr == Apply(op) && Inv(fe, s) && s.cur.Go() && Run(fe, t, s).Ok? && Owned(s, held)
    ensures Owned(Run(fe, t, s).s, held)
    decreases t, 1
  {
    KidsOwned(fe, t, 0, s, held);
    var k := RunKids(fe, t, 0, s);
    if k.s.cur.Go() && |k.s.cur.slots| > 0 { OwnedOp(k.s, op, k.nodes, held); }
  }

  lemma {:induction false} ReturnOwned(fe: FunEnv, t: Syn, s: St, held: set<nat>)
    requires t.instr.Return? && Inv(fe, s) && s.cur.Go() && Run(fe, t, s).Ok? && Owned(s, held)
    ensures Owned(Run(fe, t, s).s, held)
    decreases t, 1
  {
    hide Owned;
    KidsOwned(fe, t, 0, s, held);
    var k := RunKids(fe, t, 0, s);
    OwnedKill(k.s, held);
    if k.s.cur.Go() && |k.s.cur.slots| > 0 {
      var x := Ret(if k.nodes == [] then 0 else k.nodes[0], k.s.cur.slots[|k.s.cur.slots| - 1], k.s.cur.control);
      OwnedEnd(k.s, x, Kill(ControlEnd), held);
    }
  }

  lemma {:induction false} BrOwned(fe: FunEnv, t: Syn, d: nat, s: St, held: set<nat>)
    requires t.instr == Br(d) && Inv(fe, s) && s.cur.Go() && Run(fe, t, s).Ok? && Owned(s, held)
    ensures Owned(Run(fe, t, s).s, held)
    decreases t, 1
  {
    KidsOwned(fe, t, 0, s, held);
    RunKidsOk(fe, t, 0, s);
    var k := RunKids(fe, t, 0, s);
    if k.s.cur.Go() {
      assert Typed(k.s, k.tys[0], k.nodes[0]);
      assert TargetOk(fe, k.s.g, k.s.blocks[At(k.s.blocks, d)]);
      OwnedMerge(fe, k.s, At(k.s.blocks, d), k.tys[0], k.nodes[0], held);
    }
  }

  lemma {:induction false} BrIfOwned(fe: FunEnv, t: Syn, d: nat, s: St, held: set<nat>)
    requires t.instr == BrIf(d) && Inv(fe, s) && s.cur.Go() && Run(fe, t, s).Ok? && Owned(s, held)
    ensures Owned(Run(fe, t, s).s, held)
    decreases t, 1
  {
    KidsOwned(fe, t, 0, s, held);
    RunKidsOk(fe, t, 0, s);
    var k := RunKids(fe, t, 0, s);
    if k.s.cur.Go() {
      assert Typed(k.s, k.tys[1], k.nodes[1]);
      assert KidOk(fe, t.instr, 0 + 0, k.tys[0]) && Typed(k.s, k.tys[0], k.nodes[0]);
      BranchOk(fe, k.s, k.nodes[0]);
      OwnedBranch(k.s, k.nodes[0], held);
      var (g, tc, fc) := BuildBranch(k.s.g, k.s.cur.control, k.nodes[0]);
      var s1 := St(g, Env(Reached, tc, k.s.cur.slots), k.s.blocks, k.s.log);
      assert TargetOk(fe, s1.g, s1.blocks[At(s1.blocks, d)]);
      OwnedMerge(fe, s1, At(s1.blocks, d), k.tys[1], k.nodes[1], held + {fc});
      OwnedTake(BreakTo(fe, s1, d, k.tys[1], k.nodes[1]), k.s.cur.(control := fc), held);
    }
  }

  lemma {:induction false} SelectOwned(fe: FunEnv, t: Syn, s: St, held: set<nat>)
    requires t.instr.Select? && Inv(fe, s) && s.cur.Go() && Run(fe, t, s).Ok? && Owned(s, held)
    ensures Owned(Run(fe, t, s).s, held)
    decreases t, 1
  {
    KidsOwned(fe, t, 0, s, held);
    RunKidsOk(fe, t, 0, s);
    var k := RunKids(fe, t, 0, s);
    if k.s.cur.Go() {
      OwnedBranch(k.s, k.nodes[0], held);
      var (g, tc, fc) := BuildBranch(k.s.g, k.s.cur.control, k.nodes[0]);
      var s1 := St(g, Env(Reached, tc, k.s.cur.slots), k.s.blocks, k.s.log);
      DiamondOwned(s1, fc, k.tys[1], k.nodes[1], k.nodes[2], k.s.cur.(control := |g|), held);
    }
  }

  /** The merge of a select. */
  lemma DiamondOwned(s: St, fc: nat, ty: LocalType, a: nat, b: nat, e: Env, held: set<nat>)
    requires Owned(s, held + {fc}) && s.cur.Go() && fc !in held && e.control == |s.g|
    ensures Owned(St(s.g + [Merge([s.cur.control, fc]), Phi(ty, [a, b], |s.g|)], e, s.blocks, s.log), held)
  {
    var x, y := Merge([s.cur.control, fc]), Phi(ty, [a, b], |s.g|);
    assert fc in held + {fc};
    AppendNode(s.g, x);
    assert (set c | c in Controls(x)) == {s.cur.control, fc};
    AppendNode(s.g + [x], y);
    assert (set c | c in Controls(y)) == {};
    var g := s.g + [x, y];
    assert s.g + [x] + [y] == g;
    SpendsTrans(s.g, s.g + [x], g, {s.cur.control, fc}, {});
    assert {s.cur.control, fc} + {} == {s.cur.control, fc};
    forall i | 0 <= i < |s.blocks| && Holds(s.blocks[i]) ensures Own(g, s.blocks[i].env.control)
      && s.blocks[i].env.control < |s.g| {
      assert Own(s.g, s.blocks[i].env.control);
    }
    forall c | c in held ensures Own(g, c) && c < |s.g| {
      assert c in held + {fc} && Own(s.g, c);
    }
  }

  lemma {:induction false} IfOwned(fe: FunEnv, t: Syn, s: St, held: set<nat>)
    requires t.instr.If? && Inv(fe, s) && s.cur.Go() && Run(fe, t, s).Ok? && Owned(s, held)
    ensures Owned(Run(fe, t, s).s, held)
    decreases t, 1
  {
    RunOk(fe, t.kids[0], s);
    RunOwned(fe, t.kids[0], s, held);
    var Ok(s1, ty, c) := Run(fe, t.kids[0], s);
    if !s1.cur.Go() {
      RunDead(fe, t.kids[1], s1.(cur := Kill(Unreached)));
    } else {
      BranchOk(fe, s1, c);
      OwnedBranch(s1, c, held);
      var (g, tc, fc) := BuildBranch(s1.g, s1.cur.control, c);
      var s1' := St(g, Env(Reached, tc, s1.cur.slots), s1.blocks, s1.log);
      RunOk(fe, t.kids[1], s1');
      RunOwned(fe, t.kids[1], s1', held + {fc});
      var s2 := Run(fe, t.kids[1], s1').s;
      var p := Target(Env(Reached, fc, s1.cur.slots), Stmt, 0, false);
      EnvKeep(fe, g, s2.g, p.env);
      IfJoin(fe, s2, fc, s1.cur.slots);
      assert Nodes(p) == p.env.slots;
      OwnedPush(s2, p, held);
      OwnedJoin(fe, s2, p, Stmt, 0, held);
      var (g', p') := MergeInto(fe, s2.g, s2.cur, p, Stmt, 0);
      OwnedPop(St(g', Kill(ControlEnd), s2.blocks, s2.log), p', held);
    }
  }

  lemma {:induction false} IfElseOwned(fe: FunEnv, t: Syn, s: St, held: set<nat>)
    requires t.instr.IfElse? && Inv(fe, s) && s.cur.Go() && Run(fe, t, s).Ok? && Owned(s, held)
    ensures Owned(Run(fe, t, s).s, held)
    decreases t, 1
  {
    RunOk(fe, t.kids[0], s);
    RunOwned(fe, t.kids[0], s, held);
    var Ok(s1, ty, c) := Run(fe, t.kids[0], s);
    if !s1.cur.Go() {
      RunDead(fe, t.kids[1], St(s1.g, Stolen(s1.cur).(control := 0), s1.blocks, s1.log));
      var log := Run(fe, t.kids[1], St(s1.g, Stolen(s1.cur).(control := 0), s1.blocks, s1.log)).s.log;
      RunDead(fe, t.kids[2], St(s1.g, Split(s1.cur).(control := 0), s1.blocks, log));
    } else {
      ArmsOwned(fe, t, s1, c, held);
    }
  }

  /** What is held while the second arm runs: also what the first arm left at the end of the if. */
  function HeldAfter(m: Target, held: set<nat>): set<nat> {
    if Holds(m) then held + {m.env.control} else held
  }

  lemma {:induction false} FirstArmOwned(fe: FunEnv, t: Syn, s1: St, c: nat, held: set<nat>)
    requires ArmsBuild(fe, t, s1, c) && Inv(fe, s1) && s1.cur.Go() && c < |s1.g| && Owned(s1, held)
    ensures var a := Arms(fe, t, s1, c);
      Owned(a.s2', HeldAfter(a.m2, held)) && (Holds(a.m2) ==> a.m2.env.control !in held) && !a.m2.cont
    decreases t, 1, 0
  {
    ArmsOk(fe, t, s1, c);
    var a := Arms(fe, t, s1, c);
    OwnedBranch(s1, c, held);
    var fc := a.s2'.cur.control;
    RunOwned(fe, t.kids[1], a.s1', held + {fc});
    hide Owned;
    var m := NewTarget(s1.cur);
    OwnedPush(a.s2, m, held + {fc});
    OwnedJoin(fe, a.s2, m, a.ty2, a.n2, held + {fc});
    var dead2 := St(a.g2, Kill(ControlEnd), a.s2.blocks, a.s2.log);
    OwnedPark(dead2, a.m2, held + {fc});
    assert HeldAfter(a.m2, held + {fc}) == HeldAfter(a.m2, held) + {fc};
    OwnedTake(dead2, a.s2'.cur, HeldAfter(a.m2, held));
  }

  lemma {:induction false} ArmsOwned(fe: FunEnv, t: Syn, s1: St, c: nat, held: set<nat>)
    requires ArmsBuild(fe, t, s1, c) && Inv(fe, s1) && s1.cur.Go() && c < |s1.g| && Owned(s1, held)
    ensures var a := Arms(fe, t, s1, c); Owned(St(a.g3, a.m3.env, a.s3.blocks, a.s3.log), held)
    decreases t, 1, 1
  {
    FirstArmOwned(fe, t, s1, c, held);
    ArmsOk(fe, t, s1, c);
    var a := Arms(fe, t, s1, c);
    hide Owned;
    RunOwned(fe, t.kids[2], a.s2', HeldAfter(a.m2, held));
    OwnedPush(a.s3, a.m2, held);
    OwnedJoin(fe, a.s3, a.m2, a.ty3, a.n3, held);
    OwnedPop(St(a.g3, Kill(ControlEnd), a.s3.blocks, a.s3.log), a.m3, held);
  }

  lemma {:induction false} BlockOwned(fe: FunEnv, t: Syn, s: St, held: set<nat>)
    requires t.instr.Block? && Inv(fe, s) && s.cur.Go() && Run(fe, t, s).Ok? && Owned(s, held)
    ensures Owned(Run(fe, t, s).s, held)
    decreases t, 1
  {
    if t.kids != [] {
      var s0 := EnterBlock(s);
      EnterBlockOk(fe, s);
      OwnedPush(s.(cur := s0.cur), NewTarget(s.cur), held);
      KidsOwned(fe, t, 0, s0, held);
      RunKidsOk(fe, t, 0, s0);
      var k := RunKids(fe, t, 0, s0);
      assert Evolves(s0.g, s0.blocks[|s.blocks|], k.s.g, k.s.blocks[|s.blocks|]);
      assert Typed(k.s, k.tys[|k.tys| - 1], k.nodes[|k.nodes| - 1]);
      LeaveOwned(fe, k, held);
    }
  }

  lemma LeaveOwned(fe: FunEnv, k: Kids, held: set<nat>)
    requires k.KOk? && |k.s.blocks| > 0 && Inv(fe, k.s) && Owned(k.s, held) && 0 < |k.tys| == |k.nodes|
    requires Typed(k.s, k.tys[|k.tys| - 1], k.nodes[|k.nodes| - 1]) && !k.s.blocks[|k.s.blocks| - 1].cont
    ensures LeaveTarget(fe, k).Ok? && Owned(LeaveTarget(fe, k).s, held)
  {
    var last := |k.s.blocks| - 1;
    var t := k.s.blocks[last];
    var s := k.s.(blocks := k.s.blocks[..last]);
    assert s.blocks + [t] == k.s.blocks;
    assert TargetOk(fe, k.s.g, t);
    OwnedJoin(fe, s, t, k.tys[|k.tys| - 1], k.nodes[|k.nodes| - 1], held);
    var (g, t') := MergeInto(fe, k.s.g, k.s.cur, t, k.tys[|k.tys| - 1], k.nodes[|k.nodes| - 1]);
    OwnedPop(St(g, Kill(ControlEnd), s.blocks, s.log), t', held);
  }

  lemma {:induction false} LoopOwned(fe: FunEnv, t: Syn, s: St, held: set<nat>)
    requires t.instr.Loop? && Inv(fe, s) && s.cur.Go() && Run(fe, t, s).Ok? && Owned(s, held)
    ensures Owned(Run(fe, t, s).s, held)
    decreases t, 1
  {
    if t.kids != [] {
      var s0 := EnterLoop(fe, s);
      LoopStatic(fe, t, s);
      EnterLoopOwned(fe, s, held);
      KidsOwned(fe, t, 0, s0, held);
      var k := RunKids(fe, t, 0, s0);
      var last := |k.s.blocks| - 1;
      assert k.s.blocks[..last] + [k.s.blocks[last]] == k.s.blocks;
      OwnedDrop(Popped(k).s, k.s.blocks[last], held);
      PoppedOk(fe, k);
      LeaveOwned(fe, Popped(k), held);
    }
  }

  lemma EnterLoopOwned(fe: FunEnv, s: St, held: set<nat>)
    requires Inv(fe, s) && s.cur.Go() && Owned(s, held)
    ensures Owned(EnterLoop(fe, s), held)
  {
    var s0 := EnterLoop(fe, s);
    var x := LoopHead([s.cur.control]);
    AppendNode(s.g, x);
    assert (set c | c in Controls(x)) == {s.cur.control};
    LoopSlotsSpends(fe, s.g + [x], |s.g|, s.cur.slots, |s.cur.slots|);
    SpendsTrans(s.g, s.g + [x], s0.g, {s.cur.control}, {});
    assert {s.cur.control} + {} == {s.cur.control};
    OwnedGrow(s, s0.g, s0.cur, held, {s.cur.control});
    var b, c := NewTarget(s.cur), s0.blocks[|s.blocks| + 1];
    OwnedPush(St(s0.g, s0.cur, s.blocks, s.log), b, held);
    OwnedPush(St(s0.g, s0.cur, s.blocks + [b], s.log), c, held);
    assert s.blocks + [b] + [c] == s0.blocks;
  }
}
