/** The prefix-order expression language of the prototype: value types, operators,
    instructions and the trees they form. */
module Syntax {

  /** The types a tree can have; `Stmt` is "no value", `End` is "control does not come out". */
  datatype LocalType = Stmt | I32 | I64 | F32 | F64 | End

  predicate IsValue(t: LocalType) {
    !t.Stmt? && !t.End?
  }

  type ValueType = t: LocalType | IsValue(t) witness I32

  /** An operator with a fixed signature: arithmetic, memory and global access, calls.
      `traps` operators are preceded by a check, `effect` operators read and replace the effect,
      the value of a `store` is its last operand, and a `strict` operator does not accept an
      operand of type `End`. */
  datatype Operator = Operator(code: nat, imm: nat, params: seq<LocalType>, result: LocalType,
                               traps: bool, effect: bool, store: bool, strict: bool)

  predicate OperatorOk(o: Operator) {
    && !o.result.End?
    && (forall i :: 0 <= i < |o.params| ==> IsValue(o.params[i]))
    && (o.store ==> |o.params| > 0 && o.result == o.params[|o.params| - 1])
  }

  type Op = o: Operator | OperatorOk(o) witness Operator(0, 0, [], Stmt, false, false, false, false)

  /** `Cut(i, n)` stands for an unfinished i at the end of the code: n trees, after which there is no more. */
  datatype Instr =
    | Nop
    | Block(count: nat)
    | Loop(count: nat)
    | If
    | IfElse
    | Select
    | Br(depth: nat)
    | BrIf(depth: nat)
    | Return
    | Unreachable
    | Const(ty: ValueType, bits: int)
    | GetLocal(index: nat)
    | SetLocal(index: nat)
    | Apply(op: Op)
    | Cut(of: Instr, count: nat)

  /** The part of the function environment the decoder consults: the type of each parameter and
      local, and the return type (`Stmt` for none). */
  datatype FunctionEnv = FunctionEnv(locals: seq<LocalType>, ret: LocalType)

  predicate FunctionEnvOk(fe: FunctionEnv) {
    !fe.ret.End? && forall i :: 0 <= i < |fe.locals| ==> IsValue(fe.locals[i])
  }

  type FunEnv = fe: FunctionEnv | FunctionEnvOk(fe) witness FunctionEnv([], Stmt)

  /** An expression tree; `pc` and `len` say where its opcode and operands stand in the code. */
  datatype Syn = Syn(instr: Instr, pc: nat, len: nat, kids: seq<Syn>)

  /** No part of the tree is unfinished. */
  predicate Whole(t: Syn) {
    !t.instr.Cut? && forall i :: 0 <= i < |t.kids| ==> Whole(t.kids[i])
  }

  function Arity(fe: FunEnv, i: Instr): nat {
    match i
    case Nop | Unreachable | Const(_, _) | GetLocal(_) => 0
    case Block(n) => n
    case Loop(n) => n
    case If | BrIf(_) => 2
    case IfElse | Select => 3
    case Br(_) | SetLocal(_) => 1
    case Return => if fe.ret.Stmt? then 0 else 1
    case Apply(op) => |op.params|
    case Cut(_, n) => n
  }
}
