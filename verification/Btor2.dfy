/**
  Lines of the BTOR2 format, and which of their tokens name nodes or sorts, as
  the format's grammar has it. References are unsigned here, so a negated one
  is not a number.
 */
module Btor2 {
  datatype Arg = Num(n: nat) | Word(text: string)

  /** `Binary` is any operation on two nodes that has no constructor of its own. */
  datatype Opcode =
    | Sort | Input | State | One | Zero | Ones | Const | Constd | Consth
    | Not | Inc | Dec | Neg | Redand | Redor | Redxor | Sext | Uext | Slice
    | And | Eq | Binary(name: string) | Ite | Write
    | Init | Next | Output | BadWhen | Constraint | Fair | Justice

  /** A line: its id, its operation, and the tokens after it. */
  datatype Line = Line(id: nat, op: Opcode, args: seq<Arg>)

  /** The token names a node or a sort; what follows the operands is a symbol. */
  predicate Refers(line: Line, i: nat)
  {
    match line.op
    case Sort => 1 <= i <= 2 && line.args != [] && line.args[0] == Word("array")
    case Input | State | One | Zero | Ones | Const | Constd | Consth => i == 0
    case Not | Inc | Dec | Neg | Redand | Redor | Redxor | Sext | Uext | Slice => i <= 1
    case And | Eq | Binary(_) | Init | Next => i <= 2
    case Ite | Write => i <= 3
    case Output | BadWhen | Constraint | Fair => i == 0
    case Justice => i >= 1
  }

  /** Whether a line defines a node others can name. */
  predicate IsNode(line: Line)
  {
    line.op != Output && line.op != BadWhen && line.op != Constraint && line.op != Init && line.op != Next && line.op != Fair && line.op != Justice
  }
}
