/**
 * Native functions of the virtual machine (`native_function.rs`): the
 * wrapper that guards a const `this`, and the fixed answers a native
 * function gives to the value questions the machine asks.
 */
module NativeFunction {
  import opened Wrappers
  import opened Values
  import F = Float64

  /** The type error `get_mut` raises on a const `this`. */
  const CONST_THIS: Val := Error(TypeError, "Cannot mutate this because it is const")

  /** `ThisWrapper`: a native function's `this`, and whether it may be changed. */
  class ThisWrapper {
    const isConst: bool
    var thisValue: Val

    constructor(isConst: bool, thisValue: Val)
      ensures this.isConst == isConst && this.thisValue == thisValue
    {
      this.isConst := isConst;
      this.thisValue := thisValue;
    }

    /** `get`: read access is always allowed. */
    function Get(): Val
      reads this
    {
      thisValue
    }

    /**
     * `get_mut`, with the change made through the returned reference: a type
     * error and no change when `this` is const, otherwise the new value.
     */
    method Update(f: Val -> Val) returns (r: Result<(), Val>)
      modifies this
      ensures isConst ==> r == Err(CONST_THIS) && thisValue == old(thisValue)
      ensures !isConst ==> r == Ok(()) && thisValue == f(old(thisValue))
    {
      if isConst {
        return Err(CONST_THIS);
      }
      thisValue := f(thisValue);
      r := Ok(());
    }
  }

  /** The type a value reports to `typeof`, as far as native functions are concerned. */
  datatype VsType = FunctionType | OtherType

  /** How a native function prints itself (`val_to_string` and `codify`). */
  const NATIVE_CODE: string := "function() { [native code] }"

  /** The answers of a native function's `ValTrait`, each a constant. */
  datatype Answers = Answers(
    typeOf: VsType,
    text: string,
    number: F.F64,
    index: Option<nat>,
    isPrimitive: bool,
    primitive: Val,
    isTruthy: bool,
    isNullish: bool,
    hasBigIntData: bool,
    hasArrayData: bool,
    hasObjectData: bool,
    hasClassData: bool,
    subscriptError: bool,
    assignError: Val,
    codified: string)

  lemma NativeCodeIsAscii()
    ensures forall i :: 0 <= i < |NATIVE_CODE| ==> NATIVE_CODE[i] < 128 as char
  {
  }

  function NativeAnswers(): Answers {
    NativeCodeIsAscii();
    Answers(FunctionType, NATIVE_CODE, F.NAN, None, false, String(AsciiBytes(NATIVE_CODE)), true, false, false, false, false, false, true,
      Error(TypeError, "Cannot assign to subscript of native function"), NATIVE_CODE)
  }

  /**
   * The answers agree with each other and with the machine: the primitive is
   * the printed text (as UTF-8), `codify` prints the same text, the machine's
   * truthiness of a native function is the function's own, and a native
   * function carries no bigint, array, object or class data, so the machine
   * never takes it for one of those.
   */
  lemma NativeAnswersConsistent(id: nat)
    ensures NativeAnswers().typeOf == FunctionType && F.IsNaN(NativeAnswers().number) && NativeAnswers().index.None?
    ensures !NativeAnswers().isPrimitive && NativeAnswers().primitive.String? && !NativeAnswers().isNullish
    ensures |NativeAnswers().primitive.utf8| == |NativeAnswers().text|
    ensures forall i :: 0 <= i < |NativeAnswers().text| ==> NativeAnswers().primitive.utf8[i] == NativeAnswers().text[i] as int
    ensures NativeAnswers().codified == NativeAnswers().text
    ensures IsTruthy(NativeFunction(id)) == NativeAnswers().isTruthy
    ensures !NativeAnswers().hasBigIntData && !NativeAnswers().hasArrayData
    ensures !NativeAnswers().hasObjectData && !NativeAnswers().hasClassData
    ensures !NativeFunction(id).BigInt? && !NativeFunction(id).Array?
    ensures !NativeFunction(id).Object? && !NativeFunction(id).Class?
    ensures NativeAnswers().assignError.Error? && NativeAnswers().assignError.kind == TypeError
  {
  }
}
