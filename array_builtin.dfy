/**
 * The `Array` builtin of the virtual machine (`array_builtin.rs`): its static
 * members `isArray`, `from` and `of`, and `Array(...)` called as a function.
 */
module ArrayBuiltin {
  import opened Wrappers
  import opened Bytes
  import opened Values
  import F = Float64

  /** The largest `usize` of the 64-bit targets. */
  const USIZE_MAX: nat := 0xFFFF_FFFF_FFFF_FFFF

  /** The largest `isize` of the 64-bit targets. */
  const ISIZE_MAX: nat := 0x7FFF_FFFF_FFFF_FFFF

  /** `size_of::<Val>()` on the 64-bit targets: a tag word and one pointer or `f64`. */
  const VAL_SIZE: nat := 16

  /**
   * The largest length `Vec::<Val>::with_capacity` accepts: a larger one needs
   * more than `isize::MAX` bytes and panics with "capacity overflow".
   */
  const MAX_CAPACITY: nat := ISIZE_MAX / VAL_SIZE

  const CAPACITY_OVERFLOW: string := "capacity overflow"

  /** The range error both `Array(n)` and `Array.from` raise for a length they refuse. */
  const INVALID_LENGTH: Val := Error(RangeError, "Invalid array length")

  // ---------------------------------------------------------------------------
  // Static members.
  // ---------------------------------------------------------------------------

  /** `bo_sub`: the three static members by name; every other key is undefined. */
  function Sub(key: string): (v: Val)
    ensures v != Undefined <==> key == "isArray" || key == "from" || key == "of"
    ensures v != Undefined ==> v.Static?
  {
    if key == "isArray" then Static(ArrayIsArray)
    else if key == "from" then Static(ArrayFrom)
    else if key == "of" then Static(ArrayOf)
    else Undefined
  }

  /** The name of each static member, read back from the value. */
  function MemberName(id: StaticId): Option<string> {
    match id
    case ArrayIsArray => Some("isArray")
    case ArrayFrom => Some("from")
    case ArrayOf => Some("of")
    case BuiltinAt(_) => None
  }

  /** Each member key gives a value that names that very key: the three members are distinct. */
  lemma SubRoundTrip(key: string)
    requires Sub(key) != Undefined
    ensures MemberName(Sub(key).staticId) == Some(key)
  {
  }

  /** `IS_ARRAY`: true exactly when the first argument is an array; false with no argument. */
  function IsArray(params: seq<Val>): (r: Val)
    ensures r.Bool?
  {
    if params == [] then Bool(false)
    else Bool(params[0].Array?)
  }

  /** `OF`: the arguments, as an array. */
  function Of(params: seq<Val>): (r: Result<Val, Val>)
    ensures r.Ok? && r.value.Array? && r.value.elements == params
  {
    Ok(Array(params))
  }

  // ---------------------------------------------------------------------------
  // `Array(...)`.
  // ---------------------------------------------------------------------------

  /** `x as usize`: rounds toward zero, and saturates (NaN and negatives to 0, too large and infinity to the maximum). */
  function AsUsize(x: F.F64): (n: nat)
    ensures n <= USIZE_MAX
  {
    if F.IsNaN(x) || x.negative then 0
    else if F.IsInfinite(x) then USIZE_MAX
    else
      var t := F.Truncated(x);
      if t > USIZE_MAX then USIZE_MAX else t
  }

  /** An array of `n` holes. */
  function Holes(n: nat): (v: Val)
    ensures v.Array? && |v.elements| == n && forall i :: 0 <= i < n ==> v.elements[i] == Void
  {
    Array(seq(n, _ => Void))
  }

  /**
   * `Vec::with_capacity(len)` followed by `len` pushes of a hole: the panic
   * for a length whose bytes exceed `isize::MAX`, else `len` holes.
   */
  function HolesWithCapacity(len: nat): Result<Val, Val> {
    if len > MAX_CAPACITY then Panic(CAPACITY_OVERFLOW) else Ok(Holes(len))
  }

  /**
   * `to_array`, as written: with one numeric argument, a negative or
   * fractional (or NaN) length is a range error, and any other number is
   * cast to a length and allocated; otherwise the arguments become the
   * elements.
   */
  function ToArrayAsWritten(params: seq<Val>): Result<Val, Val> {
    if |params| != 1 then Ok(Array(params))
    else
      match params[0]
      case Number(x) =>
        if F.IsSignNegative(x) || !F.IsIntegral(x) then Err(INVALID_LENGTH)
        else HolesWithCapacity(AsUsize(x))
      case _ => Ok(Array(params))
  }

  /**
   * Positive infinity passes both checks of `to_array` (it is not negative
   * and equals its own floor), so the cast saturates to `usize::MAX` and the
   * allocation panics with "capacity overflow", where `Array.from` refuses an
   * infinite length with a range error (and the corrected `ToArray` does too).
   */
  lemma ToArrayInfinityPanics()
    ensures var inf: F.F64 := F.Fields(false, 2047, 0);
      ToArrayAsWritten([Number(inf)]) == Panic(CAPACITY_OVERFLOW)
      && ToArray([Number(inf)]) == Err(INVALID_LENGTH)
  {
  }

  /** `to_array` with infinity refused, as `Array.from` refuses it. */
  function ToArray(params: seq<Val>): Result<Val, Val> {
    if |params| != 1 then Ok(Array(params))
    else
      match params[0]
      case Number(x) =>
        if F.IsSignNegative(x) || !F.IsIntegral(x) || F.IsInfinite(x) then Err(INVALID_LENGTH)
        else HolesWithCapacity(AsUsize(x))
      case _ => Ok(Array(params))
  }

  /**
   * `Array(n)` is a range error exactly for a negative (or -0), fractional,
   * NaN or infinite `n`. Any other `n` is a whole number: up to
   * `MAX_CAPACITY` it gives `n` holes, and beyond that the allocation panics.
   */
  lemma ToArrayLength(x: F.F64)
    ensures ToArray([Number(x)]).Err? <==> x.negative || !F.IsIntegral(x) || F.IsInfinite(x)
    ensures ToArray([Number(x)]).Err? ==> ToArray([Number(x)]).error == INVALID_LENGTH
    ensures !ToArray([Number(x)]).Err? ==>
      var n := F.IntegralValue(x);
      n >= 0
      && ToArray([Number(x)]) == (if n <= MAX_CAPACITY then Ok(Holes(n)) else Panic(CAPACITY_OVERFLOW))
  {
    if !x.negative && F.IsIntegral(x) && !F.IsInfinite(x) {
      F.TruncatedIntegral(x);
    }
  }

  /** With any number of arguments but one, or one that is not a number, `Array(...)` is `Array.of(...)`. */
  lemma ToArrayIsOf(params: seq<Val>)
    requires |params| != 1 || !params[0].Number?
    ensures ToArray(params) == Of(params) && ToArrayAsWritten(params) == Of(params)
  {
  }

  /** Whatever `Array(...)` and `Array.of(...)` build, `Array.isArray` recognises. */
  lemma BuiltArraysAreArrays(params: seq<Val>)
    ensures ToArray(params).Ok? ==> IsArray([ToArray(params).value]) == Bool(true)
    ensures IsArray([Of(params).value]) == Bool(true)
  {
  }

  /** `to_array` as written, with the loop that fills the holes. */
  method ToArrayAsWrittenLoop(params: seq<Val>) returns (r: Result<Val, Val>)
    ensures r == ToArrayAsWritten(params)
  {
    if |params| != 1 {
      return Ok(Array(params));
    }
    match params[0] {
      case Number(number) =>
        if F.IsSignNegative(number) || !F.IsIntegral(number) {
          return Err(INVALID_LENGTH);
        }
        var len := AsUsize(number);
        if len > MAX_CAPACITY {
          return Panic(CAPACITY_OVERFLOW);
        }
        var arr: seq<Val> := [];
        for i := 0 to len
          invariant arr == seq(i, _ => Void)
        {
          arr := arr + [Void];
        }
        r := Ok(Array(arr));
      case _ =>
        r := Ok(Array(params));
    }
  }

  // ---------------------------------------------------------------------------
  // `Array.from`.
  // ---------------------------------------------------------------------------

  /** How many bytes the UTF-8 character led by `b` takes. */
  function Utf8Width(b: Byte): (w: nat)
    ensures 1 <= w <= 4
  {
    if b < 0x80 then 1 else if b < 0xE0 then 2 else if b < 0xF0 then 3 else 4
  }

  /**
   * `chars()`: the UTF-8 bytes of a string split into its characters. Each
   * piece is the whole character its lead byte announces; only a character
   * cut short by the end of the string can be shorter.
   */
  function Chars(s: seq<Byte>): (cs: seq<seq<Byte>>)
    ensures forall i :: 0 <= i < |cs| ==> 1 <= |cs[i]| <= Utf8Width(cs[i][0])
    ensures forall i :: 0 <= i < |cs| - 1 ==> |cs[i]| == Utf8Width(cs[i][0])
    decreases |s|
  {
    if s == [] then []
    else
      var w := if Utf8Width(s[0]) <= |s| then Utf8Width(s[0]) else |s|;
      [s[..w]] + Chars(s[w..])
  }

  function Concat(cs: seq<seq<Byte>>): seq<Byte> {
    if cs == [] then [] else cs[0] + Concat(cs[1..])
  }

  /** Splitting a string into characters loses and adds nothing: the characters concatenate back to it. */
  lemma {:induction false} CharsConcat(s: seq<Byte>)
    ensures Concat(Chars(s)) == s
    decreases |s|
  {
    if s != [] {
      var w := if Utf8Width(s[0]) <= |s| then Utf8Width(s[0]) else |s|;
      CharsConcat(s[w..]);
      assert ([s[..w]] + Chars(s[w..]))[1..] == Chars(s[w..]);
      assert s[..w] + s[w..] == s;
    }
  }

  /** The characters of a string, each as a string of its own. */
  function CharValues(s: seq<Byte>): (vs: seq<Val>)
    ensures |vs| == |Chars(s)| && forall i :: 0 <= i < |vs| ==> vs[i] == String(Chars(s)[i])
  {
    var cs := Chars(s);
    seq(|cs|, i requires 0 <= i < |cs| => String(cs[i]))
  }

  /** The message `Array.from` throws, as a plain string, when given a map function. */
  const MAP_FUNCTION_TODO: string := "TODO: Using Array.from with a map function"

  function MapFunctionTodo(): Val {
    assert forall i :: 0 <= i < |MAP_FUNCTION_TODO| ==> MAP_FUNCTION_TODO[i] < 128 as char;
    String(AsciiBytes(MAP_FUNCTION_TODO))
  }

  /** Values that may have a `length` and indexed elements: `from` reads them through `op_sub`. */
  predicate ArrayLike(v: Val) {
    v.Object? || v.Function? || v.Class? || v.Static? || v.Dynamic? || v.NativeFunction? || v.Error?
  }

  /** The elements `0 .. n` of an array-like value, or `None` if reading one fails (the source panics). */
  function ElementsUpTo(p: Val, n: nat, elementAt: (Val, nat) -> Option<Val>): (r: Option<seq<Val>>)
    ensures r.Some? ==> |r.value| == n && forall i :: 0 <= i < n ==> elementAt(p, i) == Some(r.value[i])
    ensures r.None? <==> exists i :: 0 <= i < n && elementAt(p, i).None?
  {
    if n == 0 then Some([])
    else
      match ElementsUpTo(p, n - 1, elementAt)
      case None => None
      case Some(es) => if elementAt(p, n - 1).None? then None else Some(es + [elementAt(p, n - 1).value])
  }

  /**
   * `FROM`. For an array-like value, `lengthOf` is the number its `length`
   * subscript converts to, and `elementAt(p, i)` its element `i`: both go
   * through `op_sub`, which this model does not cover; `None` is a failed
   * subscript, which the source unwraps into a panic.
   */
  function From(params: seq<Val>, lengthOf: Val -> Option<F.F64>, elementAt: (Val, nat) -> Option<Val>): Result<Val, Val> {
    if params == [] then Err(Error(TypeError, "undefined is not iterable"))
    else if |params| > 1 then Err(MapFunctionTodo())
    else
      var p := params[0];
      match p
      case Array(a) => Ok(Array(a))
      case String(s) => Ok(Array(CharValues(s)))
      case Void => Err(Error(TypeError, "items is not iterable"))
      case Undefined => Err(Error(TypeError, "items is not iterable"))
      case Null => Err(Error(TypeError, "items is not iterable"))
      case Bool(_) => Ok(Array([]))
      case Number(_) => Ok(Array([]))
      case BigInt(_) => Ok(Array([]))
      case Symbol(_) => Ok(Array([]))
      case _ =>
        match lengthOf(p)
        case None => Panic("length subscript failed")
        case Some(len) =>
          if F.IsSignNegative(len) || F.IsNaN(len) then Ok(Array([]))
          else if F.IsInfinite(len) then Err(INVALID_LENGTH)
          else if AsUsize(len) > MAX_CAPACITY then Panic(CAPACITY_OVERFLOW)
          else
            match ElementsUpTo(p, AsUsize(len), elementAt)
            case None => Panic("element subscript failed")
            case Some(es) => Ok(Array(es))
  }

  /** `Array.from` of a string gives its characters, which concatenate back to the string. */
  lemma FromStringSplitsCharacters(s: seq<Byte>, lengthOf: Val -> Option<F.F64>, elementAt: (Val, nat) -> Option<Val>)
    ensures From([String(s)], lengthOf, elementAt) == Ok(Array(CharValues(s)))
    ensures Concat(Chars(s)) == s
  {
    CharsConcat(s);
  }

  /** `Array.from` copies an array and refuses an infinite length with the range error `Array(n)` uses. */
  lemma FromArrayAndInfinity(a: seq<Val>, p: Val, lengthOf: Val -> Option<F.F64>, elementAt: (Val, nat) -> Option<Val>)
    requires ArrayLike(p) && lengthOf(p).Some? && F.IsInfinite(lengthOf(p).value) && !lengthOf(p).value.negative
    ensures From([Array(a)], lengthOf, elementAt) == Ok(Array(a))
    ensures From([p], lengthOf, elementAt) == Err(INVALID_LENGTH)
    ensures ToArray([Number(lengthOf(p).value)]) == Err(INVALID_LENGTH)
  {
  }

  /**
   * `Array.from` of an array-like value with a usable length reads exactly
   * that many elements, in order; a length too large to allocate panics.
   */
  lemma FromArrayLike(p: Val, lengthOf: Val -> Option<F.F64>, elementAt: (Val, nat) -> Option<Val>)
    requires ArrayLike(p) && lengthOf(p).Some?
    requires var len := lengthOf(p).value; !F.IsSignNegative(len) && !F.IsNaN(len) && !F.IsInfinite(len)
    ensures var r := From([p], lengthOf, elementAt);
      var n := AsUsize(lengthOf(p).value);
      (n > MAX_CAPACITY ==> r == Panic(CAPACITY_OVERFLOW))
      && (r.Ok? <==> n <= MAX_CAPACITY && forall i :: 0 <= i < n ==> elementAt(p, i).Some?)
      && (r.Ok? ==>
            r.value.Array? && |r.value.elements| == n
            && forall i :: 0 <= i < n ==> Some(r.value.elements[i]) == elementAt(p, i))
  {
    match p
    case Object(_) =>
    case Function(_, _, _, _) =>
    case Class(_, _) =>
    case Static(_) =>
    case Dynamic(_) =>
    case NativeFunction(_) =>
    case Error(_, _) =>
  }

  /** `FROM`, with the loop that reads an array-like value's elements. */
  method FromLoop(params: seq<Val>, lengthOf: Val -> Option<F.F64>, elementAt: (Val, nat) -> Option<Val>) returns (r: Result<Val, Val>)
    ensures r == From(params, lengthOf, elementAt)
  {
    if params == [] {
      return Err(Error(TypeError, "undefined is not iterable"));
    }
    if |params| > 1 {
      return Err(MapFunctionTodo());
    }
    var firstParam := params[0];
    if !ArrayLike(firstParam) {
      return From(params, lengthOf, elementAt);
    }
    var len := lengthOf(firstParam);
    if len.None? {
      return Panic("length subscript failed");
    }
    if F.IsSignNegative(len.value) || F.IsNaN(len.value) {
      return Ok(Array([]));
    }
    if F.IsInfinite(len.value) {
      return Err(INVALID_LENGTH);
    }
    var n := AsUsize(len.value);
    if n > MAX_CAPACITY {
      return Panic(CAPACITY_OVERFLOW);
    }
    var arr: seq<Val> := [];
    for i := 0 to n
      invariant ElementsUpTo(firstParam, i, elementAt) == Some(arr)
    {
      var element := elementAt(firstParam, i);
      if element.None? {
        FailedElementFails(firstParam, i, n, elementAt);
        return Panic("element subscript failed");
      }
      arr := arr + [element.value];
    }
    r := Ok(Array(arr));
  }

  /** One failed element read makes the whole read fail. */
  lemma FailedElementFails(p: Val, i: nat, n: nat, elementAt: (Val, nat) -> Option<Val>)
    requires i < n && elementAt(p, i).None?
    ensures ElementsUpTo(p, n, elementAt).None?
  {
  }
}
