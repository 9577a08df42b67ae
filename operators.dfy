/** The JavaScript operators as the parser hands them to both compilers. */
module Operators {
  datatype UnaryOp = Minus | Plus | Bang | Tilde | TypeOf | Void | Delete

  datatype BinaryOp =
    | EqEq | NotEq | EqEqEq | NotEqEq
    | Lt | LtEq | Gt | GtEq
    | LShift | RShift | ZeroFillRShift
    | Add | Sub | Mul | Div | Mod
    | BitOr | BitXor | BitAnd
    | LogicalOr | LogicalAnd
    | In | InstanceOf
    | Exp | NullishCoalescing

  datatype AssignOp =
    | Assign
    | AddAssign | SubAssign | MulAssign | DivAssign | ModAssign
    | LShiftAssign | RShiftAssign | ZeroFillRShiftAssign
    | BitOrAssign | BitXorAssign | BitAndAssign
    | ExpAssign | AndAssign | OrAssign | NullishAssign

  datatype UpdateOp = PlusPlus | MinusMinus
}
