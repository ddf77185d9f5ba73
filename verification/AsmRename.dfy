/** Compiled functions after their variables are renumbered: rewriting the marked numbers in the emitted bytes
    is compiling the function with other variable numbers, and that does not change what it does. */
module AsmRename {
  import S = Syntax
  import opened Graph
  import opened Leb128
  import opened Opcodes
  import opened ByteLists
  import opened Asm
  import opened AsmBuilder
  import opened AsmMeaning
  import opened AsmParse
  import opened AsmFunction
  import opened AsmTyping
  import E = Encoder
  import I = Interp
  import F = FunctionMeaning
  import D = DecodeFunction

  /** All variables are below n. */
  predicate ExprVars(e: Expr, n: nat) {
    match e
    case Num(_) => true
    case Var(x) => x < n
    case AsIs(e') => ExprVars(e', n)
    case Op(_, args) => forall i :: 0 <= i < |args| ==> ExprVars(args[i], n)
  }

  predicate Vars(s: Stmt, n: nat) {
    match s
    case Skip => true
    case Seq(_, body) => forall i :: 0 <= i < |body| ==> Vars(body[i], n)
    case While(_, c, b) => ExprVars(c, n) && Vars(b, n)
    case Cond(c, a, b) => ExprVars(c, n) && Vars(a, n) && Vars(b, n)
    case Break(_) => true
    case Continue(_) => true
    case Ret(e) => e.Some? ==> ExprVars(e.value, n)
    case Assign(x, e) => x < n && ExprVars(e, n)
    case Do(e) => ExprVars(e, n)
  }

  /** The same under other variable numbers. */
  function RenameExpr(e: Expr, index: seq<nat>): Expr
    requires ExprVars(e, |index|)
  {
    match e
    case Num(_) => e
    case Var(x) => Var(index[x])
    case AsIs(e') => AsIs(RenameExpr(e', index))
    case Op(c, args) => Op(c, seq(|args|, i requires 0 <= i < |args| => RenameExpr(args[i], index)))
  }

  function Rename(s: Stmt, index: seq<nat>): Stmt
    requires Vars(s, |index|)
  {
    match s
    case Skip => s
    case Seq(l, body) => Seq(l, seq(|body|, i requires 0 <= i < |body| => Rename(body[i], index)))
    case While(l, c, b) => While(l, RenameExpr(c, index), Rename(b, index))
    case Cond(c, a, b) => Cond(RenameExpr(c, index), Rename(a, index), Rename(b, index))
    case Break(_) => s
    case Continue(_) => s
    case Ret(e) => if e.None? then s else Stmt.Ret(Some(RenameExpr(e.value, index)))
    case Assign(x, e) => Assign(index[x], RenameExpr(e, index))
    case Do(e) => Do(RenameExpr(e, index))
  }

  /** Numbers that are new numbers of as many variables. */
  predicate Permutes(index: seq<nat>) {
    E.Distinct(index) && |index| <= E.U16 && forall i :: 0 <= i < |index| ==> index[i] < |index|
  }

  // ----- Meaning -----

  /** The store with every variable under its new number; the world stays last. */
  predicate Permuted(index: seq<nat>, st: seq<Val>, st': seq<Val>) {
    && |st| == |st'| == |index| + 1 && st'[|index|] == st[|index|]
    && forall i :: 0 <= i < |index| ==> index[i] < |index| && st'[index[i]] == st[i]
  }

  predicate SameOutcome(index: seq<nat>, o: Outcome, o': Outcome) {
    match o
    case Go(st) => o'.Go? && Permuted(index, st, o'.st)
    case Jump(l, again, st) => o'.Jump? && o'.name == l && o'.again == again && Permuted(index, st, o'.st)
    case _ => o' == o
  }

  lemma {:induction false} ValueRenamed(sem: Sem, e: Expr, index: seq<nat>, st: seq<Val>, st': seq<Val>)
    requires ExprVars(e, |index|) && Permuted(index, st, st')
    ensures ValueOf(sem, RenameExpr(e, index), st') == ValueOf(sem, e, st)
    decreases e, 1
  {
    match e
    case Num(_) =>
    case Var(x) =>
    case AsIs(e') => ValueRenamed(sem, e', index, st, st');
    case Op(_, args) => ValuesRenamed(sem, e, 0, index, st, st');
  }

  lemma {:induction false} ValuesRenamed(sem: Sem, e: Expr, i: nat, index: seq<nat>, st: seq<Val>, st': seq<Val>)
    requires e.Op? && i <= |e.args| && ExprVars(e, |index|) && Permuted(index, st, st')
    ensures EvalFrom(sem, RenameExpr(e, index), i, st') == EvalFrom(sem, e, i, st)
    decreases e, 0, |e.args| - i
  {
    if i < |e.args| {
      ValueRenamed(sem, e.args[i], index, st, st');
      ValuesRenamed(sem, e, i + 1, index, st, st');
    }
  }

  lemma SetRenamed(index: seq<nat>, st: seq<Val>, st': seq<Val>, x: nat, v: Val)
    requires E.Distinct(index) && Permuted(index, st, st') && x < |index|
    ensures Permuted(index, st[x := v], st'[index[x] := v])
  {
  }

  lemma {:induction false} RunRenamed(sem: Sem, s: Stmt, index: seq<nat>, st: seq<Val>, st': seq<Val>, fuel: nat)
    requires Vars(s, |index|) && E.Distinct(index) && Permuted(index, st, st')
    ensures SameOutcome(index, Run(sem, s, st, fuel), Run(sem, Rename(s, index), st', fuel))
    decreases fuel, s, 2
  {
    hide ValueOf, RenameExpr, ExprVars;
    match s
    case Skip =>
    case Seq(_, _) => RunListRenamed(sem, s, 0, index, st, st', fuel);
    case While(_, c, _) =>
      ValueRenamed(sem, c, index, st, st');
      TurnRenamed(sem, s, index, st, st', fuel);
    case Cond(c, a, b) =>
      ValueRenamed(sem, c, index, st, st');
      RunRenamed(sem, a, index, st, st', fuel);
      RunRenamed(sem, b, index, st, st', fuel);
    case Break(_) =>
    case Continue(_) =>
    case Ret(e) => if e.Some? { ValueRenamed(sem, e.value, index, st, st'); }
    case Assign(x, e) =>
      ValueRenamed(sem, e, index, st, st');
      var v := ValueOf(sem, e, st);
      if v.Is? { SetRenamed(index, st, st', x, v.v); }
    case Do(e) => ValueRenamed(sem, e, index, st, st');
  }

  lemma {:induction false} TurnRenamed(sem: Sem, s: Stmt, index: seq<nat>, st: seq<Val>, st': seq<Val>, fuel: nat)
    requires s.While? && Vars(s, |index|) && E.Distinct(index) && Permuted(index, st, st')
    ensures SameOutcome(index, Turn(sem, s, st, fuel), Turn(sem, Rename(s, index), st', fuel))
    decreases fuel, s, 1
  {
    hide RenameExpr, ExprVars;
    RunRenamed(sem, s.loop, index, st, st', fuel);
    var o := Run(sem, s.loop, st, fuel);
    if fuel > 0 && (o.Go? || o.Jump?) {
      RunRenamed(sem, s, index, o.st, Run(sem, Rename(s.loop, index), st', fuel).st, fuel - 1);
    }
  }

  lemma {:induction false} RunListRenamed(sem: Sem, s: Stmt, i: nat, index: seq<nat>, st: seq<Val>, st': seq<Val>,
      fuel: nat)
    requires s.Seq? && i <= |s.body| && Vars(s, |index|) && E.Distinct(index) && Permuted(index, st, st')
    ensures SameOutcome(index, RunFrom(sem, s, i, st, fuel), RunFrom(sem, Rename(s, index), i, st', fuel))
    decreases fuel, s, 1, |s.body| - i
  {
    if i < |s.body| {
      RunRenamed(sem, s.body[i], index, st, st', fuel);
      var o := Run(sem, s.body[i], st, fuel);
      if o.Go? { RunListRenamed(sem, s, i + 1, index, o.st, Run(sem, Rename(s.body[i], index), st', fuel).st, fuel); }
    }
  }

  // ----- Bytes -----

  function Raws(bs: seq<byte>): seq<E.Item> {
    seq(|bs|, i requires 0 <= i < |bs| => E.Raw(bs[i]))
  }

  /** What is emitted, with the variable numbers apart from the other bytes. */
  function ExprItems(e: Expr): seq<E.Item>
    decreases e, 0
  {
    match e
    case Num(_) => Raws(ExprBytes(e))
    case Var(x) => Raws([0x0e]) + [E.Local(x)]
    case AsIs(e') => ExprItems(e')
    case Op(c, _) => Raws([c]) + ExprsItems(e, 0)
  }

  function ExprsItems(e: Expr, i: nat): seq<E.Item>
    requires e.Op? && i <= |e.args|
    decreases e, 0, |e.args| - i
  {
    if i == |e.args| then [] else ExprItems(e.args[i]) + ExprsItems(e, i + 1)
  }

  function Items(s: Stmt, bs: seq<Breakable>): seq<E.Item>
    decreases s, 1
  {
    match s
    case Skip => []
    case Seq(l, _) => Raws([0x01, Patched(s)]) + ItemsFrom(s, 0, bs + [Breakable(l, false)])
    case While(l, c, b) => Raws([0x02, 1, 0x03]) + ExprItems(c) + Raws([0x06, 0]) + Items(b, bs + [Breakable(l, true)])
    case Cond(c, a, b) =>
      Raws([if b.Skip? then 0x03 else 0x04]) + ExprItems(c) + (if a.Skip? then Raws([0x00]) else Items(a, bs))
          + Items(b, bs)
    case Break(_) => Raws(Bytes(s, bs))
    case Continue(_) => Raws(Bytes(s, bs))
    case Ret(e) => Raws([0x14]) + if e.None? then [] else ExprItems(e.value)
    case Assign(x, e) => if Elided(s) then [] else Raws([0x0f]) + [E.Local(x)] + ExprItems(e)
    case Do(e) => ExprItems(e)
  }

  function ItemsFrom(s: Stmt, i: nat, bs: seq<Breakable>): seq<E.Item>
    requires s.Seq? && i <= |s.body|
    decreases s, 0, |s.body| - i
  {
    if i == |s.body| then []
    else Items(s.body[i], bs) + if IsJump(s.body[i]) then [] else ItemsFrom(s, i + 1, bs)
  }

  /** The items stand for the bytes, with the marks, and become the other items under the new numbers. */
  predicate Spells(items: seq<E.Item>, bytes: seq<byte>, marks: seq<nat>, at: nat, index: seq<nat>,
      items': seq<E.Item>) {
    && E.Numbered(items, |index|) && E.Flat(items) == bytes && E.Marks(items, at) == marks
    && E.Renumbered(items, index) == items'
  }

  lemma {:induction false} FlatCat(a: seq<E.Item>, b: seq<E.Item>)
    ensures E.Flat(a + b) == E.Flat(a) + E.Flat(b)
  {
    hide E.ItemBytes;
    if a == [] {
      assert a + b == b;
    } else {
      FlatCat(a[1..], b);
      assert (a + b)[0] == a[0] && (a + b)[1..] == a[1..] + b;
    }
  }

  lemma ItemsStep(a: seq<E.Item>, b: seq<E.Item>, at: nat)
    requires a != []
    ensures (a + b)[1..] == a[1..] + b
    ensures var n := |E.ItemBytes(a[0])|;
      && E.Marks(a + b, at) == (if a[0].Local? then [at] else []) + E.Marks(a[1..] + b, at + n)
      && |E.Flat(a)| == n + |E.Flat(a[1..])|
  {
    hide E.ItemBytes;
    assert (a + b)[0] == a[0] && (a + b)[1..] == a[1..] + b;
  }

  lemma {:induction false} MarksCat(a: seq<E.Item>, b: seq<E.Item>, at: nat)
    ensures E.Marks(a + b, at) == E.Marks(a, at) + E.Marks(b, at + |E.Flat(a)|)
    decreases |a|, 1
  {
    if a == [] {
      assert a + b == b;
    } else {
      MarksCatStep(a, b, at);
    }
  }

  lemma {:induction false} MarksCatStep(a: seq<E.Item>, b: seq<E.Item>, at: nat)
    requires a != []
    ensures E.Marks(a + b, at) == E.Marks(a, at) + E.Marks(b, at + |E.Flat(a)|)
    decreases |a|, 0
  {
    hide E.ItemBytes, E.Marks, E.Flat;
    MarksCat(a[1..], b, at + |E.ItemBytes(a[0])|);
    ItemsStep(a, b, at);
    ItemsStep(a, [], at);
    assert a + [] == a && a[1..] + [] == a[1..];
  }

  lemma {:induction false} RenumberedCat(a: seq<E.Item>, b: seq<E.Item>, index: seq<nat>)
    requires E.Numbered(a, |index|) && E.Numbered(b, |index|)
    ensures E.Numbered(a + b, |index|) && E.Renumbered(a + b, index) == E.Renumbered(a, index) + E.Renumbered(b, index)
  {
    if a == [] {
      assert a + b == b;
    } else {
      RenumberedCat(a[1..], b, index);
      assert (a + b)[0] == a[0] && (a + b)[1..] == a[1..] + b;
    }
  }

  lemma SpellsCat(a: seq<E.Item>, x: seq<byte>, m: seq<nat>, at: nat, index: seq<nat>, a': seq<E.Item>, b: seq<E.Item>,
      y: seq<byte>, n: seq<nat>, b': seq<E.Item>)
    requires Spells(a, x, m, at, index, a') && Spells(b, y, n, at + |x|, index, b')
    ensures Spells(a + b, x + y, m + n, at, index, a' + b')
  {
    hide E.Flat, E.Marks, E.Numbered, E.Renumbered;
    FlatCat(a, b);
    MarksCat(a, b, at);
    RenumberedCat(a, b, index);
  }

  lemma SpellsNothing(at: nat, index: seq<nat>)
    ensures Spells([], [], [], at, index, [])
  {
  }

  lemma {:induction false} SpellsRaws(bs: seq<byte>, at: nat, index: seq<nat>)
    ensures Spells(Raws(bs), bs, [], at, index, Raws(bs))
    decreases |bs|
  {
    if bs != [] {
      SpellsRaws(bs[1..], at + 1, index);
      assert Raws(bs)[1..] == Raws(bs[1..]);
      assert [bs[0]] + bs[1..] == bs;
      assert [E.Raw(bs[0])] + Raws(bs[1..]) == Raws(bs);
    }
  }

  /** Plain bytes before. */
  lemma SpellsAfter(bs: seq<byte>, at: nat, index: seq<nat>, b: seq<E.Item>, y: seq<byte>, n: seq<nat>, b': seq<E.Item>)
    requires Spells(b, y, n, at + |bs|, index, b')
    ensures Spells(Raws(bs) + b, bs + y, n, at, index, Raws(bs) + b')
  {
    hide Spells, Raws;
    SpellsRaws(bs, at, index);
    SpellsCat(Raws(bs), bs, [], at, index, Raws(bs), b, y, n, b');
    assert [] + n == n;
  }

  lemma SpellsLocal(x: nat, at: nat, index: seq<nat>)
    requires x < |index| <= U32
    ensures Spells([E.Local(x)], Encode(x), [at], at, index, [E.Local(index[x])])
  {
    hide Encode;
    var t := E.Local(x);
    assert [t][0] == t && [t][1..] == [] && E.ItemBytes(t) == Encode(x);
    assert E.Flat([t]) == Encode(x) + E.Flat([]);
    assert E.Marks([t], at) == [at] + E.Marks([], at + |Encode(x)|);
    assert E.Renumbered([t], index) == [E.Local(index[x])] + E.Renumbered([], index);
  }

  lemma {:induction false} ExprSpells(e: Expr, at: nat, index: seq<nat>)
    requires ExprVars(e, |index|) && |index| <= U32
    ensures Spells(ExprItems(e), ExprBytes(e), ExprMarks(e, at), at, index, ExprItems(RenameExpr(e, index)))
    decreases e, 1
  {
    hide Spells, Raws, Encode;
    match e
    case Num(_) => SpellsRaws(ExprBytes(e), at, index);
    case Var(x) =>
      SpellsLocal(x, at + 1, index);
      SpellsAfter([0x0e], at, index, [E.Local(x)], Encode(x), [at + 1], [E.Local(index[x])]);
    case AsIs(e') => ExprSpells(e', at, index);
    case Op(c, _) =>
      ExprsSpells(e, 0, at + 1, index);
      SpellsAfter([c], at, index, ExprsItems(e, 0), ExprsBytes(e, 0), ExprsMarks(e, 0, at + 1),
          ExprsItems(RenameExpr(e, index), 0));
  }

  lemma {:induction false} ExprsSpells(e: Expr, i: nat, at: nat, index: seq<nat>)
    requires e.Op? && i <= |e.args| && ExprVars(e, |index|) && |index| <= U32
    ensures Spells(ExprsItems(e, i), ExprsBytes(e, i), ExprsMarks(e, i, at), at, index,
      ExprsItems(RenameExpr(e, index), i))
    decreases e, 0, |e.args| - i
  {
    hide Spells;
    if i == |e.args| {
      SpellsNothing(at, index);
    } else {
      var a := e.args[i];
      var q := at + |ExprBytes(a)|;
      ExprSpells(a, at, index);
      ExprsSpells(e, i + 1, q, index);
      SpellsCat(ExprItems(a), ExprBytes(a), ExprMarks(a, at), at, index, ExprItems(RenameExpr(a, index)),
                ExprsItems(e, i + 1), ExprsBytes(e, i + 1), ExprsMarks(e, i + 1, q),
                    ExprsItems(RenameExpr(e, index), i + 1));
    }
  }

  /** Distinct numbers keep distinct variables apart, so the same assignments are elided. */
  lemma SameKind(s: Stmt, index: seq<nat>)
    requires Vars(s, |index|) && E.Distinct(index)
    ensures var s' := Rename(s, index);
      Elided(s') == Elided(s) && Loud(s') == Loud(s) && IsJump(s') == IsJump(s) && s'.Skip? == s.Skip?
          && s'.Ret? == s.Ret?
  {
    if s.Assign? && s.e.AsIs? {
      assert ExprVars(s.e, |index|) && ExprVars(s.e.e, |index|);
      assert RenameExpr(s.e, index) == AsIs(RenameExpr(s.e.e, index));
    }
  }

  lemma {:induction false} ElisionsRenamed(s: Stmt, index: seq<nat>)
    requires Vars(s, |index|) && E.Distinct(index)
    ensures Elisions(Rename(s, index)) == Elisions(s)
  {
    hide Elided;
    SameKind(s, index);
    match s
    case While(_, _, b) => ElisionsRenamed(b, index);
    case Cond(_, a, b) =>
      ElisionsRenamed(a, index);
      ElisionsRenamed(b, index);
      SameKind(b, index);
    case _ =>
  }

  lemma {:induction false} CountsRenamed(s: Stmt, i: nat, index: seq<nat>)
    requires s.Seq? && i <= |s.body| && Vars(s, |index|) && E.Distinct(index)
    ensures ElisionsFrom(Rename(s, index), i) == ElisionsFrom(s, i) && Emitted(Rename(s, index), i) == Emitted(s, i)
    decreases |s.body| - i
  {
    hide Elisions, Loud;
    if i < |s.body| {
      SameKind(s.body[i], index);
      ElisionsRenamed(s.body[i], index);
      CountsRenamed(s, i + 1, index);
    }
  }

  lemma {:induction false} StmtSpells(s: Stmt, bs: seq<Breakable>, at: nat, index: seq<nat>)
    requires Vars(s, |index|) && E.Distinct(index) && |index| <= U32
    ensures Spells(Items(s, bs), Bytes(s, bs), Marks(s, bs, at), at, index, Items(Rename(s, index), bs))
    decreases s, 2
  {
    hide Spells, Raws, Encode, ExprItems, ExprBytes, ExprMarks, RenameExpr, ExprVars;
    match s
    case Skip => SpellsNothing(at, index);
    case Seq(_, _) => BlockSpells(s, bs, at, index);
    case While(_, _, _) => WhileSpells(s, bs, at, index);
    case Cond(_, _, _) => CondSpells(s, bs, at, index);
    case Break(_) => SpellsRaws(Bytes(s, bs), at, index);
    case Continue(_) => SpellsRaws(Bytes(s, bs), at, index);
    case Ret(e) => RetSpells(s, bs, at, index);
    case Assign(x, e) => AssignSpells(s, bs, at, index);
    case Do(e) => ExprSpells(e, at, index);
  }

  lemma RetSpells(s: Stmt, bs: seq<Breakable>, at: nat, index: seq<nat>)
    requires s.Ret? && Vars(s, |index|) && |index| <= U32
    ensures Spells(Items(s, bs), Bytes(s, bs), Marks(s, bs, at), at, index, Items(Rename(s, index), bs))
  {
    hide Spells, Raws, ExprItems, ExprBytes, ExprMarks, RenameExpr, ExprVars;
    if s.value.None? {
      SpellsNothing(at + 1, index);
      SpellsAfter([0x14], at, index, [], [], [], []);
    } else {
      var e := s.value.value;
      ExprSpells(e, at + 1, index);
      SpellsAfter([0x14], at, index, ExprItems(e), ExprBytes(e), ExprMarks(e, at + 1), ExprItems(RenameExpr(e, index)));
    }
  }

  lemma AssignSpells(s: Stmt, bs: seq<Breakable>, at: nat, index: seq<nat>)
    requires s.Assign? && Vars(s, |index|) && E.Distinct(index) && |index| <= U32
    ensures Spells(Items(s, bs), Bytes(s, bs), Marks(s, bs, at), at, index, Items(Rename(s, index), bs))
  {
    hide Spells, Raws, Encode, ExprItems, ExprBytes, ExprMarks, RenameExpr, ExprVars, Elided;
    SameKind(s, index);
    if Elided(s) {
      SpellsNothing(at, index);
    } else {
      var x, e := s.x, s.e;
      var q := at + 1 + |Encode(x)|;
      SpellsLocal(x, at + 1, index);
      SpellsAfter([0x0f], at, index, [E.Local(x)], Encode(x), [at + 1], [E.Local(index[x])]);
      ExprSpells(e, q, index);
      SpellsCat(Raws([0x0f]) + [E.Local(x)], [0x0f] + Encode(x), [at + 1], at, index,
          Raws([0x0f]) + [E.Local(index[x])],
                ExprItems(e), ExprBytes(e), ExprMarks(e, q), ExprItems(RenameExpr(e, index)));
    }
  }

  lemma {:induction false} BlockSpells(s: Stmt, bs: seq<Breakable>, at: nat, index: seq<nat>)
    requires s.Seq? && Vars(s, |index|) && E.Distinct(index) && |index| <= U32
    ensures Spells(Items(s, bs), Bytes(s, bs), Marks(s, bs, at), at, index, Items(Rename(s, index), bs))
    decreases s, 1
  {
    hide Spells, Raws, ItemsFrom, BytesFrom, MarksFrom, ElisionsFrom;
    var bs' := bs + [Breakable(s.name, false)];
    var head := [0x01, Patched(s)];
    CountsRenamed(s, 0, index);
    ListSpells(s, 0, bs', at + 2, index);
    SpellsAfter(head, at, index, ItemsFrom(s, 0, bs'), BytesFrom(s, 0, bs'), MarksFrom(s, 0, bs', at + 2),
        ItemsFrom(Rename(s, index), 0, bs'));
  }

  lemma {:induction false} ListSpells(s: Stmt, i: nat, bs: seq<Breakable>, at: nat, index: seq<nat>)
    requires s.Seq? && i <= |s.body| && Vars(s, |index|) && E.Distinct(index) && |index| <= U32
    ensures Spells(ItemsFrom(s, i, bs), BytesFrom(s, i, bs), MarksFrom(s, i, bs, at), at, index,
      ItemsFrom(Rename(s, index), i, bs))
    decreases s, 0, |s.body| - i
  {
    hide Spells, Items, Bytes, Marks;
    if i == |s.body| {
      SpellsNothing(at, index);
    } else {
      var t := s.body[i];
      var q := at + |Bytes(t, bs)|;
      SameKind(t, index);
      StmtSpells(t, bs, at, index);
      if IsJump(t) {
        SpellsNothing(q, index);
        SpellsCat(Items(t, bs), Bytes(t, bs), Marks(t, bs, at), at, index, Items(Rename(t, index), bs), [], [], [], []);
      } else {
        ListSpells(s, i + 1, bs, q, index);
        SpellsCat(Items(t, bs), Bytes(t, bs), Marks(t, bs, at), at, index, Items(Rename(t, index), bs),
                  ItemsFrom(s, i + 1, bs), BytesFrom(s, i + 1, bs), MarksFrom(s, i + 1, bs, q),
                      ItemsFrom(Rename(s, index), i + 1, bs));
      }
    }
  }

  lemma {:induction false} WhileSpells(s: Stmt, bs: seq<Breakable>, at: nat, index: seq<nat>)
    requires s.While? && Vars(s, |index|) && E.Distinct(index) && |index| <= U32
    ensures Spells(Items(s, bs), Bytes(s, bs), Marks(s, bs, at), at, index, Items(Rename(s, index), bs))
    decreases s, 1
  {
    hide Spells, Raws, ExprItems, ExprBytes, ExprMarks, RenameExpr, ExprVars;
    var bs', c, b := bs + [Breakable(s.name, true)], s.cond, s.loop;
    var c', b' := RenameExpr(c, index), Rename(b, index);
    var head, br := [0x02, 1, 0x03], [0x06, 0];
    var q := at + 3 + |ExprBytes(c)|;
    ExprSpells(c, at + 3, index);
    SpellsAfter(head, at, index, ExprItems(c), ExprBytes(c), ExprMarks(c, at + 3), ExprItems(c'));
    SpellsRaws(br, q, index);
    SpellsCat(Raws(head) + ExprItems(c), head + ExprBytes(c), ExprMarks(c, at + 3), at, index,
        Raws(head) + ExprItems(c'), Raws(br), br, [], Raws(br));
    StmtSpells(b, bs', q + 2, index);
    SpellsCat(Raws(head) + ExprItems(c) + Raws(br), head + ExprBytes(c) + br, ExprMarks(c, at + 3) + [], at, index,
              Raws(head) + ExprItems(c') + Raws(br), Items(b, bs'), Bytes(b, bs'), Marks(b, bs', q + 2),
                  Items(b', bs'));
    assert ExprMarks(c, at + 3) + [] == ExprMarks(c, at + 3);
  }

  lemma {:induction false} CondSpells(s: Stmt, bs: seq<Breakable>, at: nat, index: seq<nat>)
    requires s.Cond? && Vars(s, |index|) && E.Distinct(index) && |index| <= U32
    ensures Spells(Items(s, bs), Bytes(s, bs), Marks(s, bs, at), at, index, Items(Rename(s, index), bs))
    decreases s, 1
  {
    hide Spells, Raws, ExprItems, ExprBytes, ExprMarks, RenameExpr, ExprVars;
    var c, a, b := s.cond, s.yes, s.no;
    var c', a', b' := RenameExpr(c, index), Rename(a, index), Rename(b, index);
    SameKind(a, index);
    SameKind(b, index);
    var head: seq<byte> := [if b.Skip? then 0x03 else 0x04];
    var q := at + 1 + |ExprBytes(c)|;
    ExprSpells(c, at + 1, index);
    SpellsAfter(head, at, index, ExprItems(c), ExprBytes(c), ExprMarks(c, at + 1), ExprItems(c'));
    var yes := if a.Skip? then [0x00] else Bytes(a, bs);
    var yesItems, yesItems' := if a.Skip? then Raws([0x00]) else Items(a, bs), if a.Skip? then Raws([0x00])
        else Items(a', bs);
    StmtSpells(a, bs, q, index);
    SpellsRaws([0x00], q, index);
    SpellsCat(Raws(head) + ExprItems(c), head + ExprBytes(c), ExprMarks(c, at + 1), at, index,
        Raws(head) + ExprItems(c'),
              yesItems, yes, Marks(a, bs, q), yesItems');
    var r := q + |yes|;
    StmtSpells(b, bs, r, index);
    SpellsCat(Raws(head) + ExprItems(c) + yesItems, head + ExprBytes(c) + yes, ExprMarks(c, at + 1) + Marks(a, bs, q),
        at, index,
              Raws(head) + ExprItems(c') + yesItems', Items(b, bs), Bytes(b, bs), Marks(b, bs, r), Items(b', bs));
  }

  lemma {:induction false} ExprFitRenamed(e: Expr, index: seq<nat>)
    requires ExprVars(e, |index|) && Permutes(index) && ExprOk(e)
    ensures ExprOk(RenameExpr(e, index))
  {
    match e
    case Num(_) =>
    case Var(_) =>
    case AsIs(e') => ExprFitRenamed(e', index);
    case Op(_, args) =>
      forall i | 0 <= i < |args| ensures ExprOk(RenameExpr(args[i], index)) {
        ExprFitRenamed(args[i], index);
      }
  }

  /** Renumbering keeps a function one the compiler gets right. */
  lemma {:induction false} FitRenamed(fe: S.FunEnv, s: Stmt, bs: seq<Breakable>, index: seq<nat>)
    requires Vars(s, |index|) && Permutes(index) && Fit(fe, s, bs)
    ensures Fit(fe, Rename(s, index), bs)
    decreases s, 1
  {
    hide ExprOk, RenameExpr, ExprVars, Elided, Patched, ElisionsFrom, Loud;
    SameKind(s, index);
    match s
    case Seq(l, _) =>
      BlockCounts(s, index);
      ListFitRenamed(fe, s, 0, bs + [Breakable(l, false)], index);
    case While(l, c, b) =>
      ExprFitRenamed(c, index);
      SameKind(b, index);
      FitRenamed(fe, b, bs + [Breakable(l, true)], index);
    case Cond(c, a, b) =>
      ExprFitRenamed(c, index);
      SameKind(a, index);
      SameKind(b, index);
      FitRenamed(fe, a, bs, index);
      FitRenamed(fe, b, bs, index);
    case Ret(e) => if e.Some? { ExprFitRenamed(e.value, index); }
    case Assign(_, e) => if !Elided(s) { ExprFitRenamed(e, index); }
    case Do(e) => ExprFitRenamed(e, index);
    case _ =>
  }

  lemma BlockCounts(s: Stmt, index: seq<nat>)
    requires s.Seq? && Vars(s, |index|) && E.Distinct(index)
    ensures Patched(Rename(s, index)) == Patched(s) && Emitted(Rename(s, index), 0) == Emitted(s, 0)
  {
    hide Emitted, ElisionsFrom;
    CountsRenamed(s, 0, index);
  }

  lemma {:induction false} ListFitRenamed(fe: S.FunEnv, s: Stmt, i: nat, bs: seq<Breakable>, index: seq<nat>)
    requires s.Seq? && i <= |s.body| && Vars(s, |index|) && Permutes(index) && FitFrom(fe, s, i, bs)
    ensures FitFrom(fe, Rename(s, index), i, bs)
    decreases s, 0, |s.body| - i
  {
    hide Fit;
    if i < |s.body| {
      SameKind(s.body[i], index);
      FitRenamed(fe, s.body[i], bs, index);
      if !IsJump(s.body[i]) { ListFitRenamed(fe, s, i + 1, bs, index); }
    }
  }

  lemma {:induction false} ExprVarsRenamed(e: Expr, index: seq<nat>)
    requires ExprVars(e, |index|) && Permutes(index)
    ensures ExprVars(RenameExpr(e, index), |index|)
  {
    match e
    case Num(_) =>
    case Var(_) =>
    case AsIs(e') => ExprVarsRenamed(e', index);
    case Op(_, args) =>
      forall i | 0 <= i < |args|
        ensures ExprVars(RenameExpr(args[i], index), |index|)
      {
        ExprVarsRenamed(args[i], index);
      }
  }

  lemma {:induction false} VarsRenamed(s: Stmt, index: seq<nat>)
    requires Vars(s, |index|) && Permutes(index)
    ensures Vars(Rename(s, index), |index|)
  {
    hide ExprVars, RenameExpr;
    match s
    case Seq(_, body) =>
      forall i | 0 <= i < |body| ensures Vars(Rename(body[i], index), |index|) { VarsRenamed(body[i], index); }
    case While(_, c, b) =>
      ExprVarsRenamed(c, index);
      VarsRenamed(b, index);
    case Cond(c, a, b) =>
      ExprVarsRenamed(c, index);
      VarsRenamed(a, index);
      VarsRenamed(b, index);
    case Ret(e) => if e.Some? { ExprVarsRenamed(e.value, index); }
    case Assign(_, e) => ExprVarsRenamed(e, index);
    case Do(e) => ExprVarsRenamed(e, index);
    case _ =>
  }

  // ----- Functions -----

  function Index(vs: seq<E.Variable>): (index: seq<nat>)
    ensures |index| == |vs| && forall i :: 0 <= i < |vs| ==> index[i] == E.NewIndex(vs, i)
  {
    seq(|vs|, i requires 0 <= i < |vs| => E.NewIndex(vs, i))
  }

  lemma IndexPermutes(vs: seq<E.Variable>)
    requires |vs| <= E.U16
    ensures Permutes(Index(vs))
  {
    hide E.NewIndex;
    forall i | 0 <= i < |vs| ensures Index(vs)[i] < |vs| { E.NewIndexBounds(vs, i); }
    forall i, j | 0 <= i < j < |vs| ensures Index(vs)[i] != Index(vs)[j] { E.NewIndexDistinct(vs, i, j); }
  }

  /** Rewriting the emitted bytes gives the bytes of the renumbered function. */
  lemma RewrittenIs(f: Stmt, index: seq<nat>)
    requires f.Seq? && Vars(f, |index|) && Permutes(index)
    ensures var items := ItemsFrom(f, 0, []);
      && E.Numbered(items, |index|) && E.Flat(items) == BytesFrom(f, 0, [])
        && E.Marks(items, 0) == MarksFrom(f, 0, [], 0)
      && E.Flat(E.Renumbered(items, index)) == Body(Rename(f, index))
  {
    ListSpells(f, 0, [], 0, index);
    VarsRenamed(f, index);
    ListSpells(Rename(f, index), 0, [], 0, index);
  }

  lemma WrittenIs(vs: seq<E.Variable>, params: seq<S.ValueType>, counts: seq<nat>)
    requires params == E.Params(vs, |vs|) && E.Counters(vs, counts, [0, 0, 0, 0, 0], |vs|)
    ensures |counts| == 5 && forall ret: S.LocalType :: E.Written(params, counts, ret) == E.DeclOf(vs, ret)
  {
    hide E.Count, E.Params;
    var zeros := [0, 0, 0, 0, 0];
    forall k | 0 <= k < 5 ensures counts[k] == E.Count(vs, k, |vs|) % E.U16 {
      assert zeros[k] == 0;
    }
  }

  /** Compile a function's statements, number its variables, and rewrite the body. */
  method BuildFunction(vs: seq<E.Variable>, f: Stmt)
    returns (params: seq<S.ValueType>, counts: seq<nat>, code: seq<byte>)
    requires f.Seq? && Vars(f, |vs|) && |vs| <= E.U16
    ensures |counts| == 5 && forall ret: S.LocalType :: E.Written(params, counts, ret) == E.DeclOf(vs, ret)
    ensures code == Body(Rename(f, Index(vs)))
  {
    hide BytesFrom, MarksFrom, ItemsFrom, E.Flat, E.Marks, E.Renumbered, E.NewIndex;
    var b := new AsmWasmBuilder();
    b.VisitStatements(f);
    assert b.body == BytesFrom(f, 0, []) && b.localIndices == MarksFrom(f, 0, [], 0);
    var varIndex;
    params, counts, varIndex := E.IndexVars(vs);
    WrittenIs(vs, params, counts);
    IndexPermutes(vs);
    assert varIndex[..] == Index(vs);
    RewrittenIs(f, Index(vs));
    code := E.Rewrite(b.body, b.localIndices, varIndex[..], ItemsFrom(f, 0, []));
  }

  /** What the variables hold when the function is called: arguments in order, and zeros. */
  function StartStore(vs: seq<E.Variable>, sem: Sem, args: seq<Val>, world: Val): (st: seq<Val>)
    requires |args| == |E.Params(vs, |vs|)|
    ensures |st| == |vs| + 1
  {
    seq(|vs|, i requires 0 <= i < |vs| => StartValue(vs, sem, args, i)) + [world]
  }

  function StartValue(vs: seq<E.Variable>, sem: Sem, args: seq<Val>, i: nat): Val
    requires |args| == |E.Params(vs, |vs|)| && i < |vs|
  {
    if vs[i].param then assert E.Count(vs, 0, i) < |args| by { E.ParamAt(vs, i, |vs|); } args[E.Count(vs, 0, i)]
      else sem.lit(vs[i].ty, 0)
  }

  lemma StartAt(vs: seq<E.Variable>, ret: S.LocalType, sem: Sem, args: seq<Val>, world: Val, i: nat)
    requires |args| == |E.Params(vs, |vs|)| && i < |vs|
    ensures var st := F.InitStore(E.FullDecl(vs, ret), sem, args, world);
      |st| == |vs| + 1 && E.NewIndex(vs, i) < |vs| && st[E.NewIndex(vs, i)] == StartValue(vs, sem, args, i)
  {
    hide F.InitStore, E.NewIndex, F.LocalTypes, E.Count;
    var d := E.FullDecl(vs, ret);
    F.StoreOf(d, sem, args, world);
    E.NewIndexTyped(vs, ret, i);
    E.LocalTypeAt(d, E.NewIndex(vs, i));
    if vs[i].param {
      E.ParamOrder(vs, i);
      E.ParamAt(vs, i, |vs|);
    } else {
      E.NewIndexBounds(vs, i);
      E.Total(vs);
    }
  }

  /** The decoder's first store is that one, under the new numbers. */
  lemma StartPermuted(vs: seq<E.Variable>, ret: S.LocalType, sem: Sem, args: seq<Val>, world: Val)
    requires |args| == |E.Params(vs, |vs|)|
    ensures Permuted(Index(vs), StartStore(vs, sem, args, world), F.InitStore(E.FullDecl(vs, ret), sem, args, world))
  {
    hide F.InitStore, E.NewIndex, StartValue, F.LocalTypes;
    var d := E.FullDecl(vs, ret);
    var st, st' := StartStore(vs, sem, args, world), F.InitStore(d, sem, args, world);
    SizeOf(vs, ret);
    F.StoreOf(d, sem, args, world);
    forall i | 0 <= i < |vs| ensures Index(vs)[i] < |vs| && st'[Index(vs)[i]] == st[i] {
      StartAt(vs, ret, sem, args, world, i);
    }
  }

  lemma SizeOf(vs: seq<E.Variable>, ret: S.LocalType)
    ensures |F.LocalTypes(E.FullDecl(vs, ret))| == |vs|
  {
    E.Total(vs);
  }

  /** Calling the function, as its statements say. */
  function CallVars(vs: seq<E.Variable>, sem: Sem, f: Stmt, args: seq<Val>, world: Val, fuel: nat): Outcome
    requires f.Seq? && |args| == |E.Params(vs, |vs|)|
  {
    RunFrom(sem, f, 0, StartStore(vs, sem, args, world), fuel)
  }

  lemma CallsSame(vs: seq<E.Variable>, ret: S.LocalType, sem: Sem, f: Stmt, args: seq<Val>, world: Val, fuel: nat,
      x: I.Out)
    requires !ret.End? && f.Seq? && Vars(f, |vs|) && |vs| <= E.U16 && |args| == |E.Params(vs, |vs|)|
    ensures var d := E.FullDecl(vs, ret);
      SameAs(F.EnvOf(d), x, CallVars(vs, sem, f, args, world, fuel))
          == SameAs(F.EnvOf(d), x, CallSource(d, sem, Rename(f, Index(vs)), args, world, fuel))
  {
    hide RunFrom, StartStore, F.InitStore, Vars, Index;
    IndexPermutes(vs);
    StartPermuted(vs, ret, sem, args, world);
    RunListRenamed(sem, f, 0, Index(vs), StartStore(vs, sem, args, world),
        F.InitStore(E.FullDecl(vs, ret), sem, args, world), fuel);
  }

  /** Main theorem for functions as they are built: the graph the decoder makes of the rewritten bytes ends in
      x exactly when the statements do, under the variables' own numbers, for some amount of fuel. */
  lemma BuiltMeans(menv: ModuleEnv, vs: seq<E.Variable>, ret: S.LocalType, f: Stmt, sem: Sem, args: seq<Val>,
      world: Val, val: seq<Val>, x: I.Out)
    requires !ret.End? && f.Seq? && Vars(f, |vs|) && E.Fits16(vs) && |args| == |E.Params(vs, |vs|)|
    requires var d := E.DeclOf(vs, ret); FitFrom(F.EnvOf(d), f, 0, []) && Closed(F.EnvOf(d), f)
    requires var d, code := E.DeclOf(vs, ret), Body(Rename(f, Index(vs)));
      D.Builds(menv, d, code) && F.Entry(d, D.BuiltGraph(menv, d, code), args, world, val)
    ensures var d, code := E.DeclOf(vs, ret), Body(Rename(f, Index(vs)));
      && GraphOk(D.BuiltGraph(menv, d, code))
      && ((exists path, end: nat :: F.EndsBy(F.EnvOf(d), D.BuiltGraph(menv, d, code), sem, val, path, end, x))
          <==> (exists fuel: nat :: SameAs(F.EnvOf(d), x, CallVars(vs, sem, f, args, world, fuel))))
  {
    hide E.FullDecl, E.DeclOf, D.BuildMode, FitFrom, F.EndsBy, CallVars, CallSource, SameAs, Index, Vars, Rename,
         F.InitStore;
    var d, f' := E.DeclOf(vs, ret), Rename(f, Index(vs));
    var fe := F.EnvOf(d);
    E.DeclFits(vs, ret);
    IndexPermutes(vs);
    RenamedFits(fe, f, Index(vs));
    CompiledMeans(menv, d, f', sem, args, world, val, x);
    if fuel: nat :| SameAs(fe, x, CallVars(vs, sem, f, args, world, fuel)) {
      CallsSame(vs, ret, sem, f, args, world, fuel, x);
    }
    if fuel: nat :| SameAs(fe, x, CallSource(d, sem, f', args, world, fuel)) {
      CallsSame(vs, ret, sem, f, args, world, fuel, x);
    }
  }

  lemma RenamedFits(fe: S.FunEnv, f: Stmt, index: seq<nat>)
    requires f.Seq? && Vars(f, |index|) && Permutes(index) && FitFrom(fe, f, 0, []) && Closed(fe, f)
    ensures Rename(f, index).Seq? && FitFrom(fe, Rename(f, index), 0, []) && Closed(fe, Rename(f, index))
  {
    hide FitFrom;
    ListFitRenamed(fe, f, 0, [], index);
    if i :| 0 <= i < |f.body| && f.body[i].Ret? {
      SameKind(f.body[i], index);
      assert Rename(f, index).body[i].Ret?;
    }
  }

  // ----- Types -----

  /** Every variable has its type under its new number. */
  predicate SameTypes(index: seq<nat>, fe: S.FunEnv, fe': S.FunEnv) {
    && |fe.locals| == |fe'.locals| == |index| && fe.ret == fe'.ret
    && forall i :: 0 <= i < |index| ==> index[i] < |index| && fe'.locals[index[i]] == fe.locals[i]
  }

  lemma {:induction false} ExprTypedRenamed(fe: S.FunEnv, fe': S.FunEnv, e: Expr, index: seq<nat>)
    requires ExprVars(e, |index|) && SameTypes(index, fe, fe')
    ensures TypeOf(fe', RenameExpr(e, index)) == TypeOf(fe, e)
    ensures ExprTyped(fe', RenameExpr(e, index)) == ExprTyped(fe, e)
  {
    hide SimpleSig;
    match e
    case Num(_) =>
    case Var(_) =>
    case AsIs(e') => ExprTypedRenamed(fe, fe', e', index);
    case Op(_, args) =>
      var args' := RenameExpr(e, index).args;
      forall i | 0 <= i < |args|
        ensures TypeOf(fe', args'[i]) == TypeOf(fe, args[i]) && ExprTyped(fe', args'[i]) == ExprTyped(fe, args[i])
      {
        ExprTypedRenamed(fe, fe', args[i], index);
      }
  }

  lemma {:induction false} TypedRenamed(fe: S.FunEnv, fe': S.FunEnv, s: Stmt, index: seq<nat>)
    requires Vars(s, |index|) && E.Distinct(index) && SameTypes(index, fe, fe')
    ensures Typed(fe', Rename(s, index)) == Typed(fe, s)
    decreases s, 1
  {
    hide ExprTyped, TypeOf, RenameExpr, ExprVars, Elided;
    SameKind(s, index);
    match s
    case Seq(_, _) => ListTypedRenamed(fe, fe', s, 0, index);
    case While(_, c, b) =>
      ExprTypedRenamed(fe, fe', c, index);
      TypedRenamed(fe, fe', b, index);
    case Cond(c, a, b) =>
      ExprTypedRenamed(fe, fe', c, index);
      TypedRenamed(fe, fe', a, index);
      TypedRenamed(fe, fe', b, index);
    case Ret(e) => if e.Some? { ExprTypedRenamed(fe, fe', e.value, index); }
    case Assign(_, e) => ExprTypedRenamed(fe, fe', e, index);
    case Do(e) => ExprTypedRenamed(fe, fe', e, index);
    case _ =>
  }

  lemma {:induction false} ListTypedRenamed(fe: S.FunEnv, fe': S.FunEnv, s: Stmt, i: nat, index: seq<nat>)
    requires s.Seq? && i <= |s.body| && Vars(s, |index|) && E.Distinct(index) && SameTypes(index, fe, fe')
    ensures TypedFrom(fe', Rename(s, index), i) == TypedFrom(fe, s, i)
    decreases s, 0, |s.body| - i
  {
    hide Typed;
    if i < |s.body| {
      SameKind(s.body[i], index);
      TypedRenamed(fe, fe', s.body[i], index);
      ListTypedRenamed(fe, fe', s, i + 1, index);
    }
  }

  /** The types of the variables, under their own numbers. */
  function VarsEnv(vs: seq<E.Variable>, ret: S.LocalType): S.FunEnv
    requires !ret.End?
  {
    S.FunctionEnv(seq(|vs|, i requires 0 <= i < |vs| => vs[i].ty), ret)
  }

  lemma TypesPermuted(vs: seq<E.Variable>, ret: S.LocalType)
    requires !ret.End?
    ensures SameTypes(Index(vs), VarsEnv(vs, ret), F.EnvOf(E.FullDecl(vs, ret)))
  {
    hide F.LocalTypes, E.NewIndex, E.GetLocalType;
    var d := E.FullDecl(vs, ret);
    SizeOf(vs, ret);
    forall i | 0 <= i < |vs| ensures Index(vs)[i] < |vs| && F.LocalTypes(d)[Index(vs)[i]] == vs[i].ty {
      E.NewIndexTyped(vs, ret, i);
      E.LocalTypeAt(d, E.NewIndex(vs, i));
    }
  }

  /** The decoder accepts a function as it is built if and only if its statements are well typed. */
  lemma BuiltAccepted(menv: ModuleEnv, vs: seq<E.Variable>, ret: S.LocalType, f: Stmt)
    requires !ret.End? && f.Seq? && Vars(f, |vs|) && E.Fits16(vs)
    requires var d := E.DeclOf(vs, ret); FitFrom(F.EnvOf(d), f, 0, []) && Closed(F.EnvOf(d), f)
    ensures D.Decode(menv, E.DeclOf(vs, ret), Body(Rename(f, Index(vs)))).Accepted? <==>
      TypedFrom(VarsEnv(vs, ret), f, 0)
  {
    hide E.FullDecl, E.DeclOf, D.Decode, FitFrom, TypedFrom, Index, Vars, Rename, BytesFrom, SameTypes;
    var d := E.DeclOf(vs, ret);
    E.DeclFits(vs, ret);
    IndexPermutes(vs);
    RenamedFits(F.EnvOf(d), f, Index(vs));
    TypesPermuted(vs, ret);
    ListTypedRenamed(VarsEnv(vs, ret), F.EnvOf(d), f, 0, Index(vs));
    AcceptedIffTyped(menv, d, Rename(f, Index(vs)));
  }
}
