/** The statements of asm.js functions that are compiled: what they mean, and the bytes they become. */
module Asm {
  import S = Syntax
  import opened Graph
  import opened Leb128
  import opened Opcodes
  import opened ByteLists

  /** `AsIs(e)` is an annotation such as `e | 0` on an operand that already has the type it asks for;
      `Op` is an operator with a fixed signature, named by its opcode. */
  datatype Expr = Num(bits: int) | Var(x: nat) | AsIs(e: Expr) | Op(code: byte, args: seq<Expr>)

  datatype Stmt =
    | Skip
    | Seq(name: nat, body: seq<Stmt>)
    | While(name: nat, cond: Expr, loop: Stmt)
    | Cond(cond: Expr, yes: Stmt, no: Stmt)
    | Break(target: nat)
    | Continue(target: nat)
    | Ret(value: Option<Expr>)
    | Assign(x: nat, e: Expr)
    | Do(e: Expr)

  predicate IsJump(s: Stmt) {
    s.Break? || s.Continue? || s.Ret?
  }

  /** Assignments of a variable to itself, such as `x = x | 0`, emit nothing. */
  predicate Elided(s: Stmt) {
    s.Assign? && s.e.AsIs? && s.e.e == Var(s.x)
  }

  /** Does the statement emit an expression? */
  predicate Loud(s: Stmt) {
    !s.Skip? && !Elided(s)
  }

  // ----- Meaning -----

  datatype Outcome =
    | Go(st: seq<Val>)                              // the next statement follows
    | Jump(name: nat, again: bool, st: seq<Val>)   // out of the labelled statement, or on to its next turn
    | Return(v: Val, w: Val)
    | Trap(w: Val)
    | OutOf(laps: nat)

  datatype Answer = Trapped | Is(v: Val)
  datatype Answers = AllTrapped | Are(vs: seq<Val>)

  function OpOf(c: byte): S.Op
    requires S.IsValue(SimpleSig(c).1)
  {
    S.Operator(c, 0, SimpleSig(c).0, SimpleSig(c).1, SimpleTraps(c), false, false, false)
  }

  /** Expressions read the store but do not change it; operands are evaluated from left to right. */
  function ValueOf(sem: Sem, e: Expr, st: seq<Val>): Answer
    decreases e, 0
  {
    match e
    case Num(n) => Is(sem.lit(S.I32, n))
    case Var(x) => Is(if x < |st| - 1 then st[x] else sem.unit)
    case AsIs(e') => ValueOf(sem, e', st)
    case Op(c, args) =>
      if !S.IsValue(SimpleSig(c).1) then Is(sem.unit)
      else
        match EvalFrom(sem, e, 0, st)
        case AllTrapped => Trapped
        case Are(vs) => if SimpleTraps(c) && sem.traps(OpOf(c), vs) then Trapped else Is(sem.app(OpOf(c), vs))
  }

  function EvalFrom(sem: Sem, e: Expr, i: nat, st: seq<Val>): (r: Answers)
    requires e.Op? && i <= |e.args|
    ensures r.Are? ==> |r.vs| == |e.args| - i
    decreases e, 0, |e.args| - i
  {
    if i == |e.args| then Are([])
    else
      match ValueOf(sem, e.args[i], st)
      case Trapped => AllTrapped
      case Is(v) =>
        match EvalFrom(sem, e, i + 1, st)
        case AllTrapped => AllTrapped
        case Are(vs) => Are([v] + vs)
  }

  function WorldOf(st: seq<Val>): Val
    requires |st| > 0
  {
    st[|st| - 1]
  }

  /** One more turn of a loop came before. */
  function Later(o: Outcome): Outcome {
    if o.OutOf? then OutOf(o.laps + 1) else o
  }

  function Run(sem: Sem, s: Stmt, st: seq<Val>, fuel: nat): (o: Outcome)
    requires |st| > 0
    ensures o.Go? || o.Jump? ==> |o.st| == |st|
    decreases fuel, s, 1
  {
    match s
    case Skip => Go(st)
    case Seq(l, ss) =>
      var o := RunFrom(sem, s, 0, st, fuel);
      if o.Jump? && o.name == l && !o.again then Go(o.st) else o
    case While(l, c, b) =>
      (match ValueOf(sem, c, st)
       case Trapped => Trap(WorldOf(st))
       case Is(v) => if !sem.truth(v) then Go(st) else Turn(sem, s, st, fuel))
    case Cond(c, a, b) =>
      (match ValueOf(sem, c, st)
       case Trapped => Trap(WorldOf(st))
       case Is(v) => if sem.truth(v) then Run(sem, a, st, fuel) else Run(sem, b, st, fuel))
    case Break(l) => Jump(l, false, st)
    case Continue(l) => Jump(l, true, st)
    case Ret(e) =>
      if e.None? then Return(sem.unit, WorldOf(st))
      else (match ValueOf(sem, e.value, st)
            case Trapped => Trap(WorldOf(st))
            case Is(v) => Return(v, WorldOf(st)))
    case Assign(x, e) =>
      (match ValueOf(sem, e, st)
       case Trapped => Trap(WorldOf(st))
       case Is(v) => Go(if x < |st| - 1 then st[x := v] else st))
    case Do(e) => if ValueOf(sem, e, st).Trapped? then Trap(WorldOf(st)) else Go(st)
  }

  /** The body of a while loop once, then the loop again. */
  function Turn(sem: Sem, s: Stmt, st: seq<Val>, fuel: nat): (o: Outcome)
    requires |st| > 0 && s.While?
    ensures o.Go? || o.Jump? ==> |o.st| == |st|
    decreases fuel, s, 0
  {
    var o := Run(sem, s.loop, st, fuel);
    if o.Go? || (o.Jump? && o.name == s.name && o.again) then
      if fuel == 0 then OutOf(0) else Later(Run(sem, s, o.st, fuel - 1))
    else if o.Jump? && o.name == s.name then Go(o.st)
    else o
  }

  /** Statements i, i + 1, ... of a block. */
  function RunFrom(sem: Sem, s: Stmt, i: nat, st: seq<Val>, fuel: nat): (o: Outcome)
    requires |st| > 0 && s.Seq? && i <= |s.body|
    ensures o.Go? || o.Jump? ==> |o.st| == |st|
    decreases fuel, s, 0, |s.body| - i
  {
    if i == |s.body| then Go(st)
    else
      var o := Run(sem, s.body[i], st, fuel);
      if o.Go? then RunFrom(sem, s, i + 1, o.st, fuel) else o
  }

  // ----- Emission -----

  /** An enclosing statement that can be left: a block, or a loop, which can also be continued. */
  datatype Breakable = Breakable(name: nat, loop: bool)

  /** Block entries between here and the target of a jump. */
  function Distance(bs: seq<Breakable>, l: nat, again: bool): nat {
    if bs == [] then 0
    else
      var b := bs[|bs| - 1];
      if b.name == l then (if b.loop && !again then 1 else 0)
      else (if b.loop then 2 else 1) + Distance(bs[..|bs| - 1], l, again)
  }

  function Unsigned(n: int): nat {
    n % 0x1_0000_0000
  }

  function ExprBytes(e: Expr): seq<byte>
    decreases e, 0
  {
    match e
    case Num(n) => [0x0a] + Word(Unsigned(n), 4)
    case Var(x) => [0x0e] + Encode(x)
    case AsIs(e') => ExprBytes(e')
    case Op(c, args) => [c] + ExprsBytes(e, 0)
  }

  function ExprsBytes(e: Expr, i: nat): seq<byte>
    requires e.Op? && i <= |e.args|
    decreases e, 0, |e.args| - i
  {
    if i == |e.args| then [] else ExprBytes(e.args[i]) + ExprsBytes(e, i + 1)
  }

  /** Elided assignments that count against the innermost block around the statement. */
  function Elisions(s: Stmt): nat {
    match s
    case While(_, _, b) => Elisions(b)
    case Cond(_, a, b) => Elisions(a) + if b.Skip? then 0 else Elisions(b)
    case Assign(_, _) => if Elided(s) then 1 else 0
    case _ => 0
  }

  function ElisionsFrom(s: Stmt, i: nat): nat
    requires s.Seq? && i <= |s.body|
    decreases |s.body| - i
  {
    if i == |s.body| then 0
    else Elisions(s.body[i]) + if IsJump(s.body[i]) then 0 else ElisionsFrom(s, i + 1)
  }

  /** The count a block is patched with: its length as a byte, less the elisions, as a byte. */
  function Patched(s: Stmt): byte
    requires s.Seq?
  {
    (|s.body| % 256 - ElisionsFrom(s, 0)) % 256
  }

  function Bytes(s: Stmt, bs: seq<Breakable>): seq<byte>
    decreases s, 1
  {
    match s
    case Skip => []
    case Seq(l, ss) => [0x01, Patched(s)] + BytesFrom(s, 0, bs + [Breakable(l, false)])
    case While(l, c, b) => [0x02, 1, 0x03] + ExprBytes(c) + [0x06, 0] + Bytes(b, bs + [Breakable(l, true)])
    case Cond(c, a, b) =>
      [if b.Skip? then 0x03 else 0x04] + ExprBytes(c) + (if a.Skip? then [0x00] else Bytes(a, bs)) + Bytes(b, bs)
    case Break(l) => [0x06, Distance(bs, l, false) % 256, 0x00]
    case Continue(l) => [0x06, Distance(bs, l, true) % 256, 0x00]
    case Ret(e) => [0x14] + if e.None? then [] else ExprBytes(e.value)
    case Assign(x, e) => if Elided(s) then [] else [0x0f] + Encode(x) + ExprBytes(e)
    case Do(e) => ExprBytes(e)
  }

  /** The statements of a block up to the first jump. */
  function BytesFrom(s: Stmt, i: nat, bs: seq<Breakable>): seq<byte>
    requires s.Seq? && i <= |s.body|
    decreases s, 0, |s.body| - i
  {
    if i == |s.body| then []
    else Bytes(s.body[i], bs) + if IsJump(s.body[i]) then [] else BytesFrom(s, i + 1, bs)
  }

  // ----- Where variables are named -----

  /** The positions of variable numbers, when the bytes start at the given position. */
  function ExprMarks(e: Expr, at: nat): seq<nat>
    decreases e, 0
  {
    match e
    case Num(n) => []
    case Var(x) => [at + 1]
    case AsIs(e') => ExprMarks(e', at)
    case Op(c, args) => ExprsMarks(e, 0, at + 1)
  }

  function ExprsMarks(e: Expr, i: nat, at: nat): seq<nat>
    requires e.Op? && i <= |e.args|
    decreases e, 0, |e.args| - i
  {
    if i == |e.args| then [] else ExprMarks(e.args[i], at) + ExprsMarks(e, i + 1, at + |ExprBytes(e.args[i])|)
  }

  function Marks(s: Stmt, bs: seq<Breakable>, at: nat): seq<nat>
    decreases s, 1
  {
    match s
    case Skip => []
    case Seq(l, ss) => MarksFrom(s, 0, bs + [Breakable(l, false)], at + 2)
    case While(l, c, b) => ExprMarks(c, at + 3) + Marks(b, bs + [Breakable(l, true)], at + 5 + |ExprBytes(c)|)
    case Cond(c, a, b) =>
      var q := at + 1 + |ExprBytes(c)|;
      ExprMarks(c, at + 1) + Marks(a, bs, q) + Marks(b, bs, q + if a.Skip? then 1 else |Bytes(a, bs)|)
    case Break(l) => []
    case Continue(l) => []
    case Ret(e) => if e.None? then [] else ExprMarks(e.value, at + 1)
    case Assign(x, e) => if Elided(s) then [] else [at + 1] + ExprMarks(e, at + 1 + |Encode(x)|)
    case Do(e) => ExprMarks(e, at)
  }

  function MarksFrom(s: Stmt, i: nat, bs: seq<Breakable>, at: nat): seq<nat>
    requires s.Seq? && i <= |s.body|
    decreases s, 0, |s.body| - i
  {
    if i == |s.body| then []
    else Marks(s.body[i], bs, at) + if IsJump(s.body[i]) then []
      else MarksFrom(s, i + 1, bs, at + |Bytes(s.body[i], bs)|)
  }

  lemma CondBytes(s: Stmt, bs: seq<Breakable>)
    requires s.Cond?
    ensures Bytes(s, bs) == [if s.no.Skip? then 0x03 else 0x04] + ExprBytes(s.cond)
      + (if s.yes.Skip? then [0x00] else Bytes(s.yes, bs)) + (if s.no.Skip? then [] else Bytes(s.no, bs))
    ensures Elisions(s) == (if s.yes.Skip? then 0 else Elisions(s.yes)) + if s.no.Skip? then 0 else Elisions(s.no)
  {
    hide ExprBytes;
  }

  lemma ListParts(s: Stmt, i: nat, bs: seq<Breakable>)
    requires s.Seq? && i <= |s.body|
    ensures i == |s.body| ==> BytesFrom(s, i, bs) == [] && ElisionsFrom(s, i) == 0
    ensures i < |s.body| && IsJump(s.body[i]) ==>
      BytesFrom(s, i, bs) == Bytes(s.body[i], bs) && ElisionsFrom(s, i) == Elisions(s.body[i])
    ensures i < |s.body| && !IsJump(s.body[i]) ==> BytesFrom(s, i, bs) == Bytes(s.body[i], bs) + BytesFrom(s, i + 1, bs)
    ensures i < |s.body| && !IsJump(s.body[i]) ==> ElisionsFrom(s, i) == Elisions(s.body[i]) + ElisionsFrom(s, i + 1)
  {
    hide Bytes, Elisions;
  }

  lemma MarkParts(s: Stmt, i: nat, bs: seq<Breakable>, at: nat)
    requires s.Seq? && i <= |s.body|
    ensures i == |s.body| ==> MarksFrom(s, i, bs, at) == []
    ensures i < |s.body| && IsJump(s.body[i]) ==> MarksFrom(s, i, bs, at) == Marks(s.body[i], bs, at)
    ensures i < |s.body| && !IsJump(s.body[i]) ==>
      MarksFrom(s, i, bs, at) == Marks(s.body[i], bs, at) + MarksFrom(s, i + 1, bs, at + |Bytes(s.body[i], bs)|)
  {
    hide Bytes, Marks;
  }

  lemma BlockParts(s: Stmt, bs: seq<Breakable>, at: nat)
    requires s.Seq?
    ensures var bs' := bs + [Breakable(s.name, false)];
      && Bytes(s, bs) == [0x01, Patched(s)] + BytesFrom(s, 0, bs') && Marks(s, bs, at) == MarksFrom(s, 0, bs', at + 2)
      && Elisions(s) == 0
  {
    hide BytesFrom, MarksFrom;
  }

  lemma LoopParts(s: Stmt, bs: seq<Breakable>, at: nat)
    requires s.While?
    ensures var bs' := bs + [Breakable(s.name, true)];
      && Bytes(s, bs) == [0x02, 1, 0x03] + ExprBytes(s.cond) + [0x06, 0] + Bytes(s.loop, bs')
      && Marks(s, bs, at) == ExprMarks(s.cond, at + 3) + Marks(s.loop, bs', at + 5 + |ExprBytes(s.cond)|)
      && Elisions(s) == Elisions(s.loop)
  {
    hide ExprBytes, ExprMarks;
  }

  lemma CondMarks(s: Stmt, bs: seq<Breakable>, at: nat)
    requires s.Cond?
    ensures var q := at + 1 + |ExprBytes(s.cond)|;
      Marks(s, bs, at) == ExprMarks(s.cond, at + 1) + (if s.yes.Skip? then [] else Marks(s.yes, bs, q))
        + if s.no.Skip? then [] else Marks(s.no, bs, q + if s.yes.Skip? then 1 else |Bytes(s.yes, bs)|)
  {
    hide ExprBytes, ExprMarks, Bytes;
  }
}
