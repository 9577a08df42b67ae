/**
 * Reference encodings for the bytecode formats the decoder reads, and the
 * round trips that tie each read to its encoding: a varsize integer, a jump
 * position, a signed byte, a register index, a string, a bigint, an `f64`,
 * and every literal that is a constant, a number, a string or a bigint.
 * Arrays, objects, classes, functions, pointers, registers and builtins are
 * not encoded here.
 */
module BytecodeEncoding {
  import opened Wrappers
  import opened Bytes
  import opened Values
  import opened BytecodeDecoder

  function EncodeVarsize(n: nat): (bs: seq<Byte>)
    ensures |bs| > 0
    decreases n
  {
    if n < 128 then [n] else [n % 128 + 128] + EncodeVarsize(n / 128)
  }

  function EncodePos(p: nat): seq<Byte>
    requires p < 65536
  {
    [p % 256, p / 256]
  }

  function EncodeSignedByte(k: int): Byte
    requires -128 <= k < 128
  {
    if k < 0 then k + 256 else k
  }

  function EncodeRegisterIndex(i: Option<nat>): seq<Byte>
    requires i.Some? ==> i.value < 255
  {
    if i.None? then [0xff] else [i.value]
  }

  function EncodeBytes(s: seq<Byte>): seq<Byte> {
    EncodeVarsize(|s|) + s
  }

  /** The shortest little-endian bytes of `n`. */
  function ToLittleEndian(n: nat): seq<Byte>
    decreases n
  {
    if n == 0 then [] else [n % 256] + ToLittleEndian(n / 256)
  }

  function EncodeBigInt(i: int): seq<Byte> {
    var sign: Byte := if i < 0 then 0 else if i == 0 then 1 else 2;
    [sign] + EncodeBytes(ToLittleEndian(if i < 0 then -i else i))
  }

  /** `n` as exactly `k` little-endian bytes (the lowest `k` bytes of `n`). */
  function FixedLittleEndian(n: nat, k: nat): (bs: seq<Byte>)
    ensures |bs| == k
  {
    if k == 0 then [] else [n % 256] + FixedLittleEndian(n / 256, k - 1)
  }

  /** The 64-bit pattern of an `f64`: sign bit, then exponent, then fraction. */
  function Bits(x: Float64.F64): (n: nat)
    ensures n < Pow(256, 8)
  {
    assert Pow(256, 8) == 0x1_0000_0000_0000_0000;
    (if x.negative then Float64.TWO_63 else 0) + x.exponent * Float64.TWO_52 + x.fraction
  }

  /**
   * The values a compiler writes into bytecode as literals whose meaning does
   * not depend on where they sit in the bytecode: constants, numbers, strings
   * and bigints.
   */
  datatype Literal =
    | VoidLit
    | UndefinedLit
    | NullLit
    | BoolLit(b: bool)
    | NumberLit(x: Float64.F64)
    | StringLit(utf8: seq<Byte>)
    | BigIntLit(i: int)

  /** The magnitude of a bigint, as its shortest little-endian bytes. */
  function Magnitude(i: int): seq<Byte> {
    ToLittleEndian(if i < 0 then -i else i)
  }

  /** Every length in the literal fits in the `usize` the decoder reads it into. */
  predicate Encodable(l: Literal) {
    match l
    case StringLit(s) => |s| < USIZE_LIMIT
    case BigIntLit(i) => |Magnitude(i)| < USIZE_LIMIT
    case _ => true
  }

  /** The runtime value a literal stands for. */
  function ToVal(l: Literal): (v: Val)
    ensures !l.VoidLit? ==> v != Val.Void
  {
    match l
    case VoidLit => Val.Void
    case UndefinedLit => Val.Undefined
    case NullLit => Val.Null
    case BoolLit(b) => Val.Bool(b)
    case NumberLit(x) => Val.Number(x)
    case StringLit(s) => Val.String(s)
    case BigIntLit(i) => Val.BigInt(i)
  }

  /**
   * A literal as the compiler's assembler writes it: its type tag, then its
   * payload.
   */
  function EncodeVal(l: Literal): (bs: seq<Byte>)
    ensures |bs| > 0 && bs[0] != TypeTag(BytecodeType.End)
  {
    match l
    case VoidLit => [TypeTag(BytecodeType.Void)]
    case UndefinedLit => [TypeTag(BytecodeType.Undefined)]
    case NullLit => [TypeTag(BytecodeType.Null)]
    case BoolLit(b) => [TypeTag(if b then BytecodeType.True else BytecodeType.False)]
    case NumberLit(x) => [TypeTag(BytecodeType.Number)] + FixedLittleEndian(Bits(x), 8)
    case StringLit(s) => [TypeTag(BytecodeType.String)] + EncodeBytes(s)
    case BigIntLit(i) => [TypeTag(BytecodeType.BigInt)] + EncodeBigInt(i)
  }

  // ---------------------------------------------------------------------------
  // Round trips.
  // ---------------------------------------------------------------------------

  /**
   * `e` sits in `code` at `pos`, byte by byte. Stated recursively so that the
   * proofs below unfold it one byte at a time.
   */
  predicate IsAt(code: seq<Byte>, pos: nat, e: seq<Byte>)
    decreases |e|
  {
    if e == [] then pos <= |code|
    else pos < |code| && code[pos] == e[0] && IsAt(code, pos + 1, e[1..])
  }

  lemma {:induction false} IsAtSlice(code: seq<Byte>, pos: nat, e: seq<Byte>)
    requires IsAt(code, pos, e)
    ensures pos + |e| <= |code| && code[pos..pos + |e|] == e
    decreases |e|
  {
    if e != [] {
      IsAtSlice(code, pos + 1, e[1..]);
      assert code[pos..pos + |e|] == [code[pos]] + code[pos + 1..pos + |e|];
    }
  }

  lemma {:induction false} IsAtSplit(code: seq<Byte>, pos: nat, a: seq<Byte>, b: seq<Byte>)
    requires IsAt(code, pos, a + b)
    ensures IsAt(code, pos, a) && IsAt(code, pos + |a|, b)
    decreases |a|
  {
    if a == [] {
      assert a + b == b;
    } else {
      assert (a + b)[1..] == a[1..] + b;
      IsAtSplit(code, pos + 1, a[1..], b);
    }
  }

  lemma IsAtHead(code: seq<Byte>, pos: nat, x: Byte, rest: seq<Byte>)
    requires IsAt(code, pos, [x] + rest)
    ensures pos < |code| && code[pos] == x && IsAt(code, pos + 1, rest)
  {
    assert ([x] + rest)[1..] == rest;
  }

  /** The bytes of a varsize encoding end where the encoding ends, and their value is `n`. */
  lemma {:induction false} VarsizeDecodes(code: seq<Byte>, pos: nat, n: nat)
    requires IsAt(code, pos, EncodeVarsize(n))
    ensures pos + |EncodeVarsize(n)| <= |code|
    ensures VarsizeEnd(code, pos) == Some(pos + |EncodeVarsize(n)|)
    ensures VarsizeValue(code[pos..pos + |EncodeVarsize(n)|]) == n
    decreases n
  {
    var e := EncodeVarsize(n);
    if n < 128 {
      IsAtSlice(code, pos, [n]);
      assert VarsizeEnd(code, pos) == Some(pos + 1);
      assert VarsizeValue([n]) == n;
    } else {
      var tail := EncodeVarsize(n / 128);
      IsAtHead(code, pos, n % 128 + 128, tail);
      VarsizeDecodes(code, pos + 1, n / 128);
      var end := pos + |e|;
      assert code[pos..end][1..] == code[pos + 1..end];
      assert VarsizeValue(code[pos..end]) == n % 128 + 128 * (n / 128);
    }
  }

  /** A number below `128^k` takes at most `k` varsize bytes. */
  lemma {:induction false} EncodeVarsizeLength(n: nat, k: nat)
    requires k >= 1 && n < Pow(128, k)
    ensures |EncodeVarsize(n)| <= k
    decreases k
  {
    if n >= 128 {
      EncodeVarsizeLength(n / 128, k - 1);
    }
  }

  /**
   * A varsize integer that fits in a `usize` reads back as itself, consuming
   * exactly its encoding (so a single byte below 128 is its own value).
   */
  lemma VarsizeRoundTrip(code: seq<Byte>, pos: nat, n: nat)
    requires n < USIZE_LIMIT && IsAt(code, pos, EncodeVarsize(n))
    ensures ReadVarsize(code, pos) == Some((n, pos + |EncodeVarsize(n)|))
  {
    VarsizeDecodes(code, pos, n);
    Pow128Bound(10);
    EncodeVarsizeLength(n, 10);
  }

  lemma PosRoundTrip(code: seq<Byte>, pos: nat, p: nat)
    requires p < 65536 && IsAt(code, pos, EncodePos(p))
    ensures ReadPos(code, pos) == Some((p, pos + 2))
  {
    IsAtHead(code, pos, p % 256, [p / 256]);
    IsAtHead(code, pos + 1, p / 256, []);
  }

  lemma SignedByteRoundTrip(code: seq<Byte>, pos: nat, k: int)
    requires -128 <= k < 128 && IsAt(code, pos, [EncodeSignedByte(k)])
    ensures ReadSignedByte(code, pos) == Some((k, pos + 1))
  {
    IsAtHead(code, pos, EncodeSignedByte(k), []);
  }

  lemma RegisterIndexRoundTrip(code: seq<Byte>, pos: nat, i: Option<nat>)
    requires (i.Some? ==> i.value < 255) && IsAt(code, pos, EncodeRegisterIndex(i))
    ensures ReadRegisterIndex(code, pos) == Some((i, pos + 1))
  {
    IsAtHead(code, pos, EncodeRegisterIndex(i)[0], []);
    assert EncodeRegisterIndex(i) == [EncodeRegisterIndex(i)[0]];
  }

  /** A string reads its length and then exactly that many payload bytes. */
  lemma BytesRoundTrip(code: seq<Byte>, pos: nat, s: seq<Byte>)
    requires |s| < USIZE_LIMIT && IsAt(code, pos, EncodeBytes(s))
    ensures ReadBytes(code, pos) == Some((s, pos + |EncodeBytes(s)|))
  {
    IsAtSplit(code, pos, EncodeVarsize(|s|), s);
    VarsizeRoundTrip(code, pos, |s|);
    IsAtSlice(code, pos + |EncodeVarsize(|s|)|, s);
  }

  lemma {:induction false} LittleEndianRoundTrip(n: nat)
    ensures LittleEndian(ToLittleEndian(n)) == n
    decreases n
  {
    if n != 0 {
      LittleEndianRoundTrip(n / 256);
      assert ToLittleEndian(n)[1..] == ToLittleEndian(n / 256);
    }
  }

  lemma BigIntRoundTrip(code: seq<Byte>, pos: nat, i: int)
    requires |Magnitude(i)| < USIZE_LIMIT && IsAt(code, pos, EncodeBigInt(i))
    ensures ReadBigInt(code, pos) == Some((i, pos + |EncodeBigInt(i)|))
  {
    var m: nat := if i < 0 then -i else i;
    IsAtHead(code, pos, EncodeBigInt(i)[0], EncodeBytes(ToLittleEndian(m)));
    BytesRoundTrip(code, pos + 1, ToLittleEndian(m));
    LittleEndianRoundTrip(m);
  }

  lemma {:induction false} FixedLittleEndianRoundTrip(n: nat, k: nat)
    requires n < Pow(256, k)
    ensures LittleEndian(FixedLittleEndian(n, k)) == n
    decreases k
  {
    if k > 0 {
      FixedLittleEndianRoundTrip(n / 256, k - 1);
      assert FixedLittleEndian(n, k)[1..] == FixedLittleEndian(n / 256, k - 1);
    }
  }

  /** The sign, exponent and fraction sit in their own bits of the 64-bit pattern. */
  lemma BitsFields(x: Float64.F64)
    ensures (Bits(x) >= Float64.TWO_63 <==> x.negative)
    ensures (Bits(x) % Float64.TWO_63) / Float64.TWO_52 == x.exponent
    ensures Bits(x) % Float64.TWO_52 == x.fraction
  {
    var low := x.exponent * Float64.TWO_52 + x.fraction;
    assert low < Float64.TWO_63;
    assert low / Float64.TWO_52 == x.exponent;
    assert low % Float64.TWO_52 == x.fraction;
    assert Bits(x) % Float64.TWO_63 == low;
    assert Bits(x) % Float64.TWO_52 == x.fraction by {
      if x.negative {
        assert Bits(x) == (2048 + x.exponent) * Float64.TWO_52 + x.fraction;
      }
    }
  }

  /** `f64::from_le_bytes` of an `f64`'s own eight bytes gives back its sign, exponent and fraction. */
  lemma NumberRoundTrip(code: seq<Byte>, pos: nat, x: Float64.F64)
    requires IsAt(code, pos, FixedLittleEndian(Bits(x), 8))
    ensures ReadNumber(code, pos) == Some((x, pos + 8))
  {
    IsAtSlice(code, pos, FixedLittleEndian(Bits(x), 8));
    FixedLittleEndianRoundTrip(Bits(x), 8);
    BitsFields(x);
  }

  /** The value at `pos` reads as `v`, and reading stops at `end`. */
  predicate ReadsAs(code: seq<Byte>, pos: nat, registers: seq<Val>, fuel: nat, v: Val, end: nat) {
    ValAt(code, pos, registers, fuel) == Some((v, end))
  }

  /** What `decode_val` reads at `pos`, named so that a proof step can mention it without unfolding it. */
  function ValAt(code: seq<Byte>, pos: nat, registers: seq<Val>, fuel: nat): Option<(Val, nat)> {
    ParseVal(code, pos, registers, fuel)
  }

  /**
   * Every literal whose lengths fit in a `usize`, written anywhere in any
   * bytecode, decodes back to the value it stands for and leaves the cursor
   * just past its encoding, whatever the registers and the pointer fuel.
   */
  lemma ValRoundTrip(code: seq<Byte>, pos: nat, l: Literal, registers: seq<Val>, fuel: nat)
    requires Encodable(l) && IsAt(code, pos, EncodeVal(l))
    ensures ReadsAs(code, pos, registers, fuel, ToVal(l), pos + |EncodeVal(l)|)
  {
    match l
    case NumberLit(_) => NumberValRoundTrip(code, pos, l, registers, fuel);
    case StringLit(_) => StringValRoundTrip(code, pos, l, registers, fuel);
    case BigIntLit(_) => BigIntValRoundTrip(code, pos, l, registers, fuel);
    case VoidLit => ConstantValRoundTrip(code, pos, l, registers, fuel);
    case UndefinedLit => ConstantValRoundTrip(code, pos, l, registers, fuel);
    case NullLit => ConstantValRoundTrip(code, pos, l, registers, fuel);
    case BoolLit(_) => ConstantValRoundTrip(code, pos, l, registers, fuel);
  }

  /** The literals that are their tag alone. */
  lemma ConstantValRoundTrip(code: seq<Byte>, pos: nat, l: Literal, registers: seq<Val>, fuel: nat)
    requires l.VoidLit? || l.UndefinedLit? || l.NullLit? || l.BoolLit?
    requires IsAt(code, pos, EncodeVal(l))
    ensures ReadsAs(code, pos, registers, fuel, ToVal(l), pos + |EncodeVal(l)|)
  {
    var t := match l
      case VoidLit => BytecodeType.Void
      case UndefinedLit => BytecodeType.Undefined
      case NullLit => BytecodeType.Null
      case BoolLit(b) => if b then BytecodeType.True else BytecodeType.False;
    assert EncodeVal(l) == [TypeTag(t)];
    IsAtHead(code, pos, TypeTag(t), []);
    TagStep(code, pos, t, registers, fuel);
  }

  lemma NumberValRoundTrip(code: seq<Byte>, pos: nat, l: Literal, registers: seq<Val>, fuel: nat)
    requires l.NumberLit? && IsAt(code, pos, EncodeVal(l))
    ensures ReadsAs(code, pos, registers, fuel, ToVal(l), pos + |EncodeVal(l)|)
  {
    IsAtHead(code, pos, TypeTag(BytecodeType.Number), FixedLittleEndian(Bits(l.x), 8));
    NumberRoundTrip(code, pos + 1, l.x);
    TagStep(code, pos, BytecodeType.Number, registers, fuel);
  }

  lemma StringValRoundTrip(code: seq<Byte>, pos: nat, l: Literal, registers: seq<Val>, fuel: nat)
    requires l.StringLit? && Encodable(l) && IsAt(code, pos, EncodeVal(l))
    ensures ReadsAs(code, pos, registers, fuel, ToVal(l), pos + |EncodeVal(l)|)
  {
    var s := l.utf8;
    var end := pos + 1 + |EncodeBytes(s)|;
    IsAtHead(code, pos, TypeTag(BytecodeType.String), EncodeBytes(s));
    BytesRoundTrip(code, pos + 1, s);
    TaggedStep(code, pos, BytecodeType.String, registers, fuel, Val.String(s), end);
  }

  lemma BigIntValRoundTrip(code: seq<Byte>, pos: nat, l: Literal, registers: seq<Val>, fuel: nat)
    requires l.BigIntLit? && Encodable(l) && IsAt(code, pos, EncodeVal(l))
    ensures ReadsAs(code, pos, registers, fuel, ToVal(l), pos + |EncodeVal(l)|)
  {
    var i := l.i;
    var end := pos + 1 + |EncodeBigInt(i)|;
    assert EncodeVal(l) == [TypeTag(BytecodeType.BigInt)] + EncodeBigInt(i);
    IsAtHead(code, pos, TypeTag(BytecodeType.BigInt), EncodeBigInt(i));
    BigIntRoundTrip(code, pos + 1, i);
    TaggedStep(code, pos, BytecodeType.BigInt, registers, fuel, Val.BigInt(i), end);
  }

  /** A value whose tag byte is `t` and whose payload reads as `v` reads as `v`. */
  lemma TaggedStep(code: seq<Byte>, pos: nat, t: BytecodeType, registers: seq<Val>, fuel: nat, v: Val, end: nat)
    requires t != BytecodeType.Unrecognized && pos < |code| && code[pos] == TypeTag(t)
    requires ParseTagged(code, pos + 1, t, registers, fuel) == Some((v, end))
    ensures ReadsAs(code, pos, registers, fuel, v, end)
  {
    TagStep(code, pos, t, registers, fuel);
  }

  /** Reading a value whose tag byte is `t` continues with `t`'s payload. */
  lemma TagStep(code: seq<Byte>, pos: nat, t: BytecodeType, registers: seq<Val>, fuel: nat)
    requires t != BytecodeType.Unrecognized && pos < |code| && code[pos] == TypeTag(t)
    ensures ParseVal(code, pos, registers, fuel) == ParseTagged(code, pos + 1, t, registers, fuel)
  {
    TypeTagRoundTrip(t);
  }
}
