/**
  The expression tree (src/ast.rs). Children are held by value, so every
  `Expr` is a finite tree and functions over it terminate structurally.
*/
module Ast {
  import opened Wrappers
  import opened Utils

  /**
    An integer payload is a `u64` in the type declaration, while the tests
    build it from a `BigUint`; it is an unbounded natural number here.
  */
  datatype Expr =
    | Int(n: nat)
    | Float(x: PositiveFiniteF64)
    | Str(s: string)
    | Bool(b: bool)
    | EnumMember(enumPath: seq<string>, enumLabel: string)
    | List(items: seq<Expr>)
    | Name(name: string)
    | Attribute(value: Expr, attrName: string)
    | MethodCall(value: Expr, methodName: string, args: seq<Expr>)
    | UnaryOp(op: UnaryOp, v: Expr)
    | BinaryOp(l: Expr, bop: BinaryOp, r: Expr)
    | CondOp(cond: Expr, ifTrue: Expr, ifFalse: Expr)
    | Subscript(value: Expr, idx: Expr)

  datatype UnaryOp = Neg | Not | Inv

  datatype BinaryOp =
    | Add | Sub | Mul | Div | Rem
    | Eq | Ne | Lt | Le | Gt | Ge
    | And | Or
    | BitOr | BitXor | BitAnd
    | Shl | Shr

  /** The token each unary operator's doc comment names. */
  function UnaryOpDocToken(op: UnaryOp): string {
    match op
    case Neg => "-"
    case Not => "not"
    case Inv => "~"
  }

  /** The token each binary operator's doc comment names. */
  function BinaryOpDocToken(op: BinaryOp): string {
    match op
    case Add => "+"
    case Sub => "-"
    case Mul => "*"
    case Div => "/"
    case Rem => "%"
    case Eq => "=="
    case Ne => "!="
    case Lt => "<"
    case Le => "<="
    case Gt => ">"
    case Ge => ">="
    case And => "and"
    case Or => "or"
    case BitOr => "|"
    case BitXor => "^"
    case BitAnd => "&"
    case Shl => "<<"
    case Shr => ">>"
  }

  const ALL_UNARY_OPS: seq<UnaryOp> := [Neg, Not, Inv]

  const ALL_BINARY_OPS: seq<BinaryOp> :=
    [Add, Sub, Mul, Div, Rem, Eq, Ne, Lt, Le, Gt, Ge, And, Or, BitOr, BitXor, BitAnd, Shl, Shr]

  /** The documented binary token read back as its operator. */
  function BinaryOpOfDocToken(token: string): (r: Option<BinaryOp>)
    ensures r.Some? ==> BinaryOpDocToken(r.value) == token
  {
    if token == "+" then Some(Add)
    else if token == "-" then Some(Sub)
    else if token == "*" then Some(Mul)
    else if token == "/" then Some(Div)
    else if token == "%" then Some(Rem)
    else if token == "==" then Some(Eq)
    else if token == "!=" then Some(Ne)
    else if token == "<" then Some(Lt)
    else if token == "<=" then Some(Le)
    else if token == ">" then Some(Gt)
    else if token == ">=" then Some(Ge)
    else if token == "and" then Some(And)
    else if token == "or" then Some(Or)
    else if token == "|" then Some(BitOr)
    else if token == "^" then Some(BitXor)
    else if token == "&" then Some(BitAnd)
    else if token == "<<" then Some(Shl)
    else if token == ">>" then Some(Shr)
    else None
  }

  /** Exactly three unary tags and exactly eighteen binary tags, each listed once. */
  lemma OperatorTagsEnumerated()
    ensures |ALL_UNARY_OPS| == 3 && forall op: UnaryOp :: op in ALL_UNARY_OPS
    ensures forall i, j :: 0 <= i < j < |ALL_UNARY_OPS| ==> ALL_UNARY_OPS[i] != ALL_UNARY_OPS[j]
    ensures |ALL_BINARY_OPS| == 18 && forall op: BinaryOp :: op in ALL_BINARY_OPS
    ensures forall i, j :: 0 <= i < j < |ALL_BINARY_OPS| ==> ALL_BINARY_OPS[i] != ALL_BINARY_OPS[j]
  {
    forall op: UnaryOp ensures op in ALL_UNARY_OPS {
      match op
      case Neg => assert ALL_UNARY_OPS[0] == op;
      case Not => assert ALL_UNARY_OPS[1] == op;
      case Inv => assert ALL_UNARY_OPS[2] == op;
    }
    forall op: BinaryOp ensures op in ALL_BINARY_OPS {
      var k := BinaryOpIndex(op);
      assert ALL_BINARY_OPS[k] == op;
    }
  }

  /** Where each binary tag sits in the declaration. */
  function BinaryOpIndex(op: BinaryOp): (k: nat)
    ensures k < |ALL_BINARY_OPS| && ALL_BINARY_OPS[k] == op
  {
    match op
    case Add => 0 case Sub => 1 case Mul => 2 case Div => 3 case Rem => 4
    case Eq => 5 case Ne => 6 case Lt => 7 case Le => 8 case Gt => 9 case Ge => 10
    case And => 11 case Or => 12
    case BitOr => 13 case BitXor => 14 case BitAnd => 15
    case Shl => 16 case Shr => 17
  }

  /** Reading a documented token back gives its operator, so the 18 tokens are pairwise distinct. */
  lemma BinaryDocTokensDistinct()
    ensures forall op :: BinaryOpOfDocToken(BinaryOpDocToken(op)) == Some(op)
    ensures forall a, b :: BinaryOpDocToken(a) == BinaryOpDocToken(b) ==> a == b
  {
    forall op ensures BinaryOpOfDocToken(BinaryOpDocToken(op)) == Some(op) {
      match op
      case Add => case Sub => case Mul => case Div => case Rem =>
      case Eq => case Ne => case Lt => case Le => case Gt => case Ge =>
      case And => case Or => case BitOr => case BitXor => case BitAnd =>
      case Shl => case Shr =>
    }
  }
}
