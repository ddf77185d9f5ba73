/** The compiler of asm.js statements as it runs: it appends to the body of a function, patches the count
    of each block when the block is done, and keeps a stack of the statements it is in. */
module AsmBuilder {
  import opened Graph
  import opened Leb128
  import opened ByteLists
  import opened Asm

  class AsmWasmBuilder {
    var body: seq<byte>
    var localIndices: seq<nat>
    var breakableBlocks: seq<Breakable>
    var blockSize: int

    constructor ()
      ensures body == [] && localIndices == [] && breakableBlocks == [] && blockSize == 0
    {
      body, localIndices, breakableBlocks, blockSize := [], [], [], 0;
    }

    method Emit(b: byte)
      modifies this`body
      ensures body == old(body) + [b]
    {
      body := body + [b];
    }

    method EmitCode(bs: seq<byte>)
      modifies this`body
      ensures body == old(body) + bs
    {
      body := body + bs;
    }

    /** A variable number, marked so that it can be renumbered. */
    method AddLeb128(index: nat)
      modifies this`body, this`localIndices
      ensures body == old(body) + Encode(index) && localIndices == old(localIndices) + [|old(body)|]
    {
      var indexVec := UnsignedLEB128From(index);
      localIndices := localIndices + [|body|];
      EmitCode(indexVec);
    }

    method EmitEditableImmediate(immediate: byte) returns (index: nat)
      modifies this`body
      ensures body == old(body) + [immediate] && index == |old(body)|
    {
      index := |body|;
      body := body + [immediate];
    }

    method EditImmediate(index: nat, immediate: byte)
      requires index < |body|
      modifies this`body
      ensures body == old(body)[index := immediate]
    {
      body := body[index := immediate];
    }

    method VisitExpression(e: Expr)
      modifies this`body, this`localIndices
      ensures body == old(body) + ExprBytes(e) && localIndices == old(localIndices) + ExprMarks(e, |old(body)|)
      decreases e, 1
    {
      match e
      case Num(n) =>
        Emit(0x0a);
        EmitCode(Word(Unsigned(n), 4));
      case Var(x) =>
        Emit(0x0e);
        AddLeb128(x);
      case AsIs(e') => VisitExpression(e');
      case Op(c, args) =>
        Emit(c);
        VisitOperands(e);
    }

    method VisitOperands(e: Expr)
      requires e.Op?
      modifies this`body, this`localIndices
      ensures body == old(body) + ExprsBytes(e, 0) && localIndices == old(localIndices) + ExprsMarks(e, 0, |old(body)|)
      decreases e, 0
    {
      var i := 0;
      while i < |e.args|
        invariant 0 <= i <= |e.args|
        invariant body + ExprsBytes(e, i) == old(body) + ExprsBytes(e, 0)
        invariant localIndices + ExprsMarks(e, i, |body|) == old(localIndices) + ExprsMarks(e, 0, |old(body)|)
      {
        ghost var before, marks := body, localIndices;
        VisitExpression(e.args[i]);
        Cat2(before, ExprBytes(e.args[i]), ExprsBytes(e, i + 1));
        Cat2(marks, ExprMarks(e.args[i], |before|), ExprsMarks(e, i + 1, |body|));
        i := i + 1;
      }
    }

    /** The loop of VisitBreakStatement and VisitContinueStatement: outwards to the target, two entries for
        each loop in between. */
    method BlockDistance(target: nat, again: bool) returns (distance: nat)
      ensures distance == Distance(breakableBlocks, target, again)
    {
      var i := |breakableBlocks|;
      distance := 0;
      assert breakableBlocks[..i] == breakableBlocks;
      while i > 0
        invariant 0 <= i <= |breakableBlocks|
        invariant distance + Distance(breakableBlocks[..i], target, again) == Distance(breakableBlocks, target, again)
      {
        var elem := breakableBlocks[i - 1];
        assert breakableBlocks[..i][..i - 1] == breakableBlocks[..i - 1];
        if elem.name == target {
          if elem.loop && !again { distance := distance + 1; }
          return;
        }
        distance := distance + if elem.loop then 2 else 1;
        i := i - 1;
      }
    }

    method VisitStatement(s: Stmt)
      modifies this
      ensures body == old(body) + Bytes(s, old(breakableBlocks))
      ensures localIndices == old(localIndices) + Marks(s, old(breakableBlocks), |old(body)|)
      ensures breakableBlocks == old(breakableBlocks) && blockSize == old(blockSize) - Elisions(s)
      decreases s, 2
    {
      hide Bytes, Marks, Elisions;
      match s
      case Skip => Nothing(s, breakableBlocks, |body|);
      case Seq(l, ss) => VisitBlock(s);
      case While(l, c, b) => VisitWhileStatement(s);
      case Cond(c, a, b) => VisitIfStatement(s);
      case Break(l) => VisitJump(s);
      case Continue(l) => VisitJump(s);
      case Ret(e) => VisitReturnStatement(s);
      case Assign(x, e) => VisitAssignment(s);
      case Do(e) => VisitExpressionStatement(s);
    }

    /** VisitBreakStatement and VisitContinueStatement. */
    method VisitJump(s: Stmt)
      requires s.Break? || s.Continue?
      modifies this`body, this`localIndices
      ensures body == old(body) + Bytes(s, old(breakableBlocks))
      ensures localIndices == old(localIndices) + Marks(s, old(breakableBlocks), |old(body)|)
      ensures breakableBlocks == old(breakableBlocks) && blockSize == old(blockSize) - Elisions(s)
    {
      var distance := BlockDistance(s.target, s.Continue?);
      EmitCode([0x06, distance % 256]);
      Emit(0x00);
    }

    method VisitReturnStatement(s: Stmt)
      requires s.Ret?
      modifies this`body, this`localIndices
      ensures body == old(body) + Bytes(s, old(breakableBlocks))
      ensures localIndices == old(localIndices) + Marks(s, old(breakableBlocks), |old(body)|)
      ensures breakableBlocks == old(breakableBlocks) && blockSize == old(blockSize) - Elisions(s)
    {
      hide ExprBytes, ExprMarks;
      Emit(0x14);
      if s.value.Some? { VisitExpression(s.value.value); }
    }

    method VisitAssignment(s: Stmt)
      requires s.Assign?
      modifies this
      ensures body == old(body) + Bytes(s, old(breakableBlocks))
      ensures localIndices == old(localIndices) + Marks(s, old(breakableBlocks), |old(body)|)
      ensures breakableBlocks == old(breakableBlocks) && blockSize == old(blockSize) - Elisions(s)
    {
      hide ExprBytes, ExprMarks, Encode;
      if Elided(s) {
        blockSize := blockSize - 1;
      } else {
        Emit(0x0f);
        AddLeb128(s.x);
        VisitExpression(s.e);
      }
    }

    method VisitExpressionStatement(s: Stmt)
      requires s.Do?
      modifies this`body, this`localIndices
      ensures body == old(body) + Bytes(s, old(breakableBlocks))
      ensures localIndices == old(localIndices) + Marks(s, old(breakableBlocks), |old(body)|)
      ensures breakableBlocks == old(breakableBlocks) && blockSize == old(blockSize) - Elisions(s)
    {
      hide ExprBytes, ExprMarks;
      VisitExpression(s.e);
    }

    method VisitWhileStatement(s: Stmt)
      requires s.While?
      modifies this
      ensures body == old(body) + Bytes(s, old(breakableBlocks))
      ensures localIndices == old(localIndices) + Marks(s, old(breakableBlocks), |old(body)|)
      ensures breakableBlocks == old(breakableBlocks) && blockSize == old(blockSize) - Elisions(s)
      decreases s, 1
    {
      hide ExprBytes, ExprMarks, Bytes, Marks, Elisions;
      LoopParts(s, breakableBlocks, |body|);
      ghost var inner := breakableBlocks + [Breakable(s.name, true)];
      EmitCode([0x02, 1]);
      breakableBlocks := breakableBlocks + [Breakable(s.name, true)];
      Emit(0x03);
      VisitExpression(s.cond);
      EmitCode([0x06, 0]);
      VisitStatement(s.loop);
      breakableBlocks := breakableBlocks[..|breakableBlocks| - 1];
      assert [0x02, 1] + [0x03] == [0x02, 1, 0x03];
      Cat4(old(body), [0x02, 1] + [0x03], ExprBytes(s.cond), [0x06, 0], Bytes(s.loop, inner));
    }

    method VisitIfStatement(s: Stmt)
      requires s.Cond?
      modifies this
      ensures body == old(body) + Bytes(s, old(breakableBlocks))
      ensures localIndices == old(localIndices) + Marks(s, old(breakableBlocks), |old(body)|)
      ensures breakableBlocks == old(breakableBlocks) && blockSize == old(blockSize) - Elisions(s)
      decreases s, 1
    {
      hide ExprBytes, ExprMarks, Elisions, Bytes, Marks;
      CondBytes(s, breakableBlocks);
      CondMarks(s, breakableBlocks, |body|);
      ghost var op, test, yes, no := [if s.no.Skip? then 0x03 else 0x04 as byte], ExprBytes(s.cond),
        if s.yes.Skip? then [0x00] else Bytes(s.yes, breakableBlocks), if s.no.Skip? then []
          else Bytes(s.no, breakableBlocks);
      Emit(if s.no.Skip? then 0x03 else 0x04);
      VisitExpression(s.cond);
      if s.yes.Skip? { Emit(0x00); } else { VisitStatement(s.yes); }
      assert body == old(body) + op + test + yes;
      if !s.no.Skip? { VisitStatement(s.no); }
      assert body == old(body) + op + test + yes + no;
      Cat4(old(body), op, test, yes, no);
    }

    /** A block: its count is not known until its statements are emitted, so it is patched then. */
    method VisitBlock(s: Stmt)
      requires s.Seq?
      modifies this
      ensures body == old(body) + Bytes(s, old(breakableBlocks))
      ensures localIndices == old(localIndices) + Marks(s, old(breakableBlocks), |old(body)|)
      ensures breakableBlocks == old(breakableBlocks) && blockSize == old(blockSize) - Elisions(s)
      decreases s, 1
    {
      hide Bytes, Marks, Elisions, BytesFrom, MarksFrom, ElisionsFrom;
      BlockParts(s, breakableBlocks, |body|);
      ghost var inner := breakableBlocks + [Breakable(s.name, false)];
      breakableBlocks := breakableBlocks + [Breakable(s.name, false)];
      Emit(0x01);
      var index := EmitEditableImmediate(0);
      var prevBlockSize := blockSize;
      blockSize := |s.body| % 256;
      VisitStatements(s);
      EditImmediate(index, blockSize % 256);
      assert body == old(body) + ([0x01, Patched(s)] + BytesFrom(s, 0, inner));
      blockSize := prevBlockSize;
      breakableBlocks := breakableBlocks[..|breakableBlocks| - 1];
    }

    /** Statements in order, up to and including the first jump. */
    method VisitStatements(s: Stmt)
      requires s.Seq?
      modifies this
      ensures body == old(body) + BytesFrom(s, 0, old(breakableBlocks))
      ensures localIndices == old(localIndices) + MarksFrom(s, 0, old(breakableBlocks), |old(body)|)
      ensures breakableBlocks == old(breakableBlocks) && blockSize == old(blockSize) - ElisionsFrom(s, 0)
      decreases s, 0
    {
      hide Bytes, BytesFrom, Elisions, ElisionsFrom, Marks, MarksFrom;
      var i := 0;
      while i < |s.body|
        invariant 0 <= i <= |s.body| && breakableBlocks == old(breakableBlocks)
        invariant body + BytesFrom(s, i, breakableBlocks) == old(body) + BytesFrom(s, 0, breakableBlocks)
        invariant localIndices + MarksFrom(s, i, breakableBlocks, |body|) == old(localIndices)
          + MarksFrom(s, 0, breakableBlocks, |old(body)|)
        invariant blockSize - ElisionsFrom(s, i) == old(blockSize) - ElisionsFrom(s, 0)
      {
        ghost var before, one := body, Bytes(s.body[i], breakableBlocks);
        ghost var marks := localIndices;
        ListParts(s, i, breakableBlocks);
        MarkParts(s, i, breakableBlocks, |body|);
        VisitStatement(s.body[i]);
        if IsJump(s.body[i]) { return; }
        Cat2(before, one, BytesFrom(s, i + 1, breakableBlocks));
        Cat2(marks, Marks(s.body[i], breakableBlocks, |before|), MarksFrom(s, i + 1, breakableBlocks, |body|));
        i := i + 1;
      }
      ListParts(s, i, breakableBlocks);
      MarkParts(s, i, breakableBlocks, |body|);
    }
  }

  lemma Nothing(s: Stmt, bs: seq<Breakable>, at: nat)
    requires s.Skip?
    ensures Bytes(s, bs) == [] && Marks(s, bs, at) == [] && Elisions(s) == 0
  {
  }

  lemma Cat2<T>(a: seq<T>, b: seq<T>, c: seq<T>)
    ensures a + (b + c) == a + b + c
  {
  }

  lemma Cat4<T>(a: seq<T>, b: seq<T>, c: seq<T>, d: seq<T>, e: seq<T>)
    ensures a + (b + c + d + e) == a + b + c + d + e
  {
  }
}
