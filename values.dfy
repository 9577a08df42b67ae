/**
 * The runtime values of the ValueScript virtual machine (`Val`), as far as the
 * modelled code inspects them.
 */
module Values {
  import opened Bytes
  import Float64

  /** The static values the model names: builtins by index and the `Array` statics. */
  datatype StaticId = BuiltinAt(index: nat) | ArrayIsArray | ArrayFrom | ArrayOf

  /** The error objects the modelled code raises. */
  datatype ErrorKind = PlainError | TypeError | RangeError

  datatype Val =
    | Void
    | Undefined
    | Null
    | Bool(b: bool)
    | Number(n: Float64.F64)
    | BigInt(i: int)
    | Symbol(id: nat)
      /** Strings are kept as their UTF-8 bytes. */
    | String(utf8: seq<Byte>)
    | Array(elements: seq<Val>)
      /** An object literal's properties in the order the bytecode lists them. */
    | Object(properties: seq<(Val, Val)>)
    | Function(isGenerator: bool, registerCount: nat, parameterCount: nat, start: nat)
    | Class(classConstructor: Val, instancePrototype: Val)
    | Static(staticId: StaticId)
    | NativeFunction(id: nat)
    | Dynamic(id: nat)
    | Error(kind: ErrorKind, message: string)

  /** The UTF-8 bytes of an ASCII string, each character's code. */
  function AsciiBytes(s: string): (bs: seq<Byte>)
    requires forall i :: 0 <= i < |s| ==> s[i] < 128 as char
    ensures |bs| == |s| && forall i :: 0 <= i < |s| ==> bs[i] == s[i] as int
  {
    seq(|s|, i requires 0 <= i < |s| => s[i] as int)
  }

  /** What `Default::default()` (and so `std::mem::take`) leaves behind. */
  const DEFAULT: Val := Void

  /**
   * `is_truthy`, following ECMAScript's ToBoolean: the empty values, false,
   * zeros, NaN, the zero bigint and the empty string are falsy.
   */
  predicate IsTruthy(v: Val) {
    match v
    case Void => false
    case Undefined => false
    case Null => false
    case Bool(b) => b
    case Number(n) => !Float64.IsZero(n) && !Float64.IsNaN(n)
    case BigInt(i) => i != 0
    case String(s) => s != []
    case _ => true
  }
}
