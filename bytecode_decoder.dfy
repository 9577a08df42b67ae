/**
 * The bytecode decoder of the ValueScript virtual machine.
 *
 * The pure `Read*`/`Parse*` functions say what reading from a position of the
 * bytecode yields and where it stops; `None` stands for every path on which
 * the decoder panics (reading past the end, an `End` or unrecognised value,
 * an invalid bigint sign, a backward pointer to a plain value). The `Decoder`
 * class is the stateful decoder itself, with a cursor it advances; each of
 * its methods is proved to agree with the corresponding function.
 */
module BytecodeDecoder {
  import opened Wrappers
  import opened Bytes
  import opened Values
  import Float64
  import InstructionBytes

  /** The tag byte in front of every encoded value. */
  datatype BytecodeType =
    | End | Void | Undefined | Null | False | True | SignedByte | Number
    | String | Array | Object | Function | Pointer | Register | Builtin
    | Class | BigInt | GeneratorFunction | Unrecognized

  function TypeTag(t: BytecodeType): (b: Byte)
    ensures t == BytecodeType.Unrecognized <==> b == 0xff
  {
    match t
    case End => 0x00
    case Void => 0x01
    case Undefined => 0x02
    case Null => 0x03
    case False => 0x04
    case True => 0x05
    case SignedByte => 0x06
    case Number => 0x07
    case String => 0x08
    case Array => 0x09
    case Object => 0x0a
    case Function => 0x0b
    case Pointer => 0x0d
    case Register => 0x0e
    case Builtin => 0x10
    case Class => 0x11
    case BigInt => 0x13
    case GeneratorFunction => 0x14
    case Unrecognized => 0xff
  }

  /** The bytes that name no type: 0x0c, 0x0f, 0x12 and everything above 0x14. */
  predicate IsUnassignedTag(b: Byte) {
    b == 0x0c || b == 0x0f || b == 0x12 || b > 0x14
  }

  function TypeFromByte(b: Byte): (t: BytecodeType)
    ensures t == BytecodeType.Unrecognized <==> IsUnassignedTag(b)
    ensures t != BytecodeType.Unrecognized ==> TypeTag(t) == b
  {
    match b
    case 0x00 => BytecodeType.End
    case 0x01 => BytecodeType.Void
    case 0x02 => BytecodeType.Undefined
    case 0x03 => BytecodeType.Null
    case 0x04 => BytecodeType.False
    case 0x05 => BytecodeType.True
    case 0x06 => BytecodeType.SignedByte
    case 0x07 => BytecodeType.Number
    case 0x08 => BytecodeType.String
    case 0x09 => BytecodeType.Array
    case 0x0a => BytecodeType.Object
    case 0x0b => BytecodeType.Function
    case 0x0d => BytecodeType.Pointer
    case 0x0e => BytecodeType.Register
    case 0x10 => BytecodeType.Builtin
    case 0x11 => BytecodeType.Class
    case 0x13 => BytecodeType.BigInt
    case 0x14 => BytecodeType.GeneratorFunction
    case _ => BytecodeType.Unrecognized
  }

  /** Every named type survives being written as its tag and read back. */
  lemma TypeTagRoundTrip(t: BytecodeType)
    requires t != BytecodeType.Unrecognized
    ensures TypeFromByte(TypeTag(t)) == t
  {
    match t
    case End =>
    case Void =>
    case Undefined =>
    case Null =>
    case False =>
    case True =>
    case SignedByte =>
    case Number =>
    case String =>
    case Array =>
    case Object =>
    case Function =>
    case Pointer =>
    case Register =>
    case Builtin =>
    case Class =>
    case BigInt =>
    case GeneratorFunction =>
  }

  // ---------------------------------------------------------------------------
  // What reading at a position yields: (value, position after it), or None.
  // ---------------------------------------------------------------------------

  function ReadByte(code: seq<Byte>, pos: nat): Option<(Byte, nat)> {
    if pos < |code| then Some((code[pos], pos + 1)) else None
  }

  function ReadType(code: seq<Byte>, pos: nat): Option<(BytecodeType, nat)> {
    if pos < |code| then Some((TypeFromByte(code[pos]), pos + 1)) else None
  }

  /**
   * The position just after a varsize integer starting at `pos`: its last
   * byte is the first one with the high bit clear.
   */
  function VarsizeEnd(code: seq<Byte>, pos: nat): (r: Option<nat>)
    ensures r.Some? ==> pos < r.value <= |code| && code[r.value - 1] < 128
    ensures r.Some? ==> forall i :: pos <= i < r.value - 1 ==> code[i] >= 128
    ensures r.None? <==> forall i :: pos <= i < |code| ==> code[i] >= 128
    decreases |code| - pos
  {
    if pos >= |code| then None
    else if code[pos] < 128 then Some(pos + 1)
    else VarsizeEnd(code, pos + 1)
  }

  /** `usize::MAX + 1` on the 64-bit targets. */
  const USIZE_LIMIT: nat := 0x1_0000_0000_0000_0000

  /** `BUILTIN_COUNT`: the length of `BUILTIN_VALS` (Debug, Math, String, Number). */
  const BUILTIN_COUNT: nat := 4

  /** Seven bits per byte, least significant group first. */
  function VarsizeValue(bs: seq<Byte>): nat {
    if bs == [] then 0 else bs[0] % 128 + 128 * VarsizeValue(bs[1..])
  }

  /**
   * A varsize integer as `decode_varsize_uint` reads it into a `usize`: the
   * checked arithmetic panics when the value needs more than 64 bits or when
   * `mul` passes 2^64, which a continuation bit on the tenth byte causes.
   */
  function ReadVarsize(code: seq<Byte>, pos: nat): (r: Option<(nat, nat)>)
    ensures r.Some? ==> r.value.0 < USIZE_LIMIT && pos < r.value.1 <= pos + 10
  {
    match VarsizeEnd(code, pos)
    case None => None
    case Some(e) =>
      var v := VarsizeValue(code[pos..e]);
      if e - pos <= 10 && v < USIZE_LIMIT then Some((v, e)) else None
  }

  /** A position is two bytes, little-endian. */
  function ReadPos(code: seq<Byte>, pos: nat): (r: Option<(nat, nat)>)
    ensures r.Some? ==> r.value.0 < 65536 && r.value.1 == pos + 2
  {
    if pos + 2 <= |code| then Some((code[pos] as nat + 256 * code[pos + 1] as nat, pos + 2)) else None
  }

  /** A register index is one byte; 0xff stands for "no register". */
  function ReadRegisterIndex(code: seq<Byte>, pos: nat): (r: Option<(Option<nat>, nat)>)
    ensures r.Some? <==> pos < |code|
    ensures r.Some? ==> r.value.1 == pos + 1
    ensures r.Some? ==> (r.value.0.None? <==> code[pos] == 0xff)
    ensures r.Some? && r.value.0.Some? ==> r.value.0.value <= 254
  {
    if pos < |code| then
      Some((if code[pos] == 0xff then None else Some(code[pos] as nat), pos + 1))
    else None
  }

  /** The byte reinterpreted as a two's-complement `i8`. */
  function ReadSignedByte(code: seq<Byte>, pos: nat): (r: Option<(int, nat)>)
    ensures r.Some? <==> pos < |code|
    ensures r.Some? ==> -128 <= r.value.0 < 128 && r.value.1 == pos + 1
    ensures r.Some? ==> r.value.0 % 256 == code[pos]
  {
    if pos < |code| then
      Some((if code[pos] < 128 then code[pos] as int else code[pos] as int - 256, pos + 1))
    else None
  }

  /** A number is the eight little-endian bytes of an IEEE-754 double. */
  function ReadNumber(code: seq<Byte>, pos: nat): Option<(Float64.F64, nat)> {
    if pos + 8 <= |code| then Some((Float64.FromLeBytes(code[pos..pos + 8]), pos + 8)) else None
  }

  /** A length-prefixed run of raw bytes. */
  function ReadBytes(code: seq<Byte>, pos: nat): (r: Option<(seq<Byte>, nat)>)
    ensures r.Some? ==> pos < r.value.1 <= |code|
    ensures r.Some? ==> ReadVarsize(code, pos).Some?
    ensures r.Some? ==> r.value.1 == ReadVarsize(code, pos).value.1 + |r.value.0|
  {
    match ReadVarsize(code, pos)
    case None => None
    case Some((len, p)) => if p + len <= |code| then Some((code[p..p + len], p + len)) else None
  }

  /** A bigint is a sign byte (0 minus, 1 zero, 2 plus) and its magnitude's bytes. */
  function ReadBigInt(code: seq<Byte>, pos: nat): (r: Option<(int, nat)>)
    ensures r.Some? <==> pos < |code| && code[pos] <= 2 && ReadBytes(code, pos + 1).Some?
    ensures r.Some? ==> (r.value.0 < 0 ==> code[pos] == 0) && (r.value.0 > 0 ==> code[pos] == 2)
  {
    if pos >= |code| || code[pos] > 2 then None
    else
      match ReadBytes(code, pos + 1)
      case None => None
      case Some((bs, p)) =>
        var m: int := LittleEndian(bs);
        Some((if code[pos] == 0 then -m else if code[pos] == 1 then 0 else m, p))
  }

  /** A function is its register count and parameter count; its body follows. */
  function ReadFunction(code: seq<Byte>, pos: nat, isGenerator: bool): Option<(Val, nat)> {
    if pos + 2 <= |code| then
      Some((Val.Function(isGenerator, code[pos], code[pos + 1], pos + 2), pos + 2))
    else None
  }

  /** A pointer may point backwards only at a function, generator or class. */
  predicate MayPointBackwardsAt(t: BytecodeType) {
    t == BytecodeType.Function || t == BytecodeType.GeneratorFunction
    || t == BytecodeType.Class || t == BytecodeType.Unrecognized
  }

  /** What a register holds when read as a value: a void register reads as undefined. */
  function ReadRegister(registers: seq<Val>, i: nat): Option<Val> {
    if i < |registers| then
      Some(if registers[i] == Val.Void then Val.Undefined else registers[i])
    else None
  }

  /**
   * The value encoded at `pos`. `fuel` bounds how many pointers are followed:
   * a pointer cycle makes the source recurse without end.
   */
  function ParseVal(code: seq<Byte>, pos: nat, registers: seq<Val>, fuel: nat): (r: Option<(Val, nat)>)
    ensures r.Some? ==> pos < r.value.1 <= |code|
    ensures r.Some? ==> code[pos] != TypeTag(BytecodeType.End)
    decreases fuel, |code| - pos, 0
  {
    if pos >= |code| then None
    else ParseTagged(code, pos + 1, TypeFromByte(code[pos]), registers, fuel)
  }

  /** The value whose type tag `t` has just been read; its payload starts at `p`. */
  function ParseTagged(code: seq<Byte>, p: nat, t: BytecodeType, registers: seq<Val>, fuel: nat): (r: Option<(Val, nat)>)
    requires p <= |code|
    ensures r.Some? ==> t != BytecodeType.End && p <= r.value.1 <= |code|
    decreases fuel, |code| - p, 3
  {
      match t
      case End => None
      case Void => Some((Val.Void, p))
      case Undefined => Some((Val.Undefined, p))
      case Null => Some((Val.Null, p))
      case False => Some((Val.Bool(false), p))
      case True => Some((Val.Bool(true), p))
      case SignedByte =>
        (match ReadSignedByte(code, p)
         case None => None
         case Some((k, q)) => Some((Val.Number(Float64.FromSmallInt(k)), q)))
      case Number =>
        (match ReadNumber(code, p)
         case None => None
         case Some((n, q)) => Some((Val.Number(n), q)))
      case String =>
        (match ReadBytes(code, p)
         case None => None
         case Some((s, q)) => Some((Val.String(s), q)))
      case Array =>
        (match ParseVec(code, p, registers, fuel)
         case None => None
         case Some((vs, q)) => Some((Val.Array(vs), q)))
      case Object =>
        (match ParseProps(code, p, registers, fuel)
         case None => None
         case Some((ps, q)) => Some((Val.Object(ps), q)))
      case Function => ReadFunction(code, p, false)
      case Pointer => ParsePointer(code, p, registers, fuel)
      case Register =>
        (match ReadRegisterIndex(code, p)
         case None => None
         case Some((i, q)) =>
           if i.None? then None
           else match ReadRegister(registers, i.value)
             case None => None
             case Some(v) => Some((v, q)))
      case Builtin =>
        (match ReadVarsize(code, p)
         case None => None
         case Some((i, q)) => if i < BUILTIN_COUNT then Some((Val.Static(StaticId.BuiltinAt(i)), q)) else None)
      case Class =>
        (match ParseVal(code, p, registers, fuel)
         case None => None
         case Some((c, q1)) =>
           match ParseVal(code, q1, registers, fuel)
           case None => None
           case Some((ip, q2)) => Some((Val.Class(c, ip), q2)))
      case BigInt =>
        (match ReadBigInt(code, p)
         case None => None
         case Some((i, q)) => Some((Val.BigInt(i), q)))
      case GeneratorFunction => ReadFunction(code, p, true)
      case Unrecognized => None
  }

  /** A pointer: the value at the target, decoded elsewhere; the cursor moves past the two bytes. */
  function ParsePointer(code: seq<Byte>, pos: nat, registers: seq<Val>, fuel: nat): (r: Option<(Val, nat)>)
    ensures r.Some? ==> pos < r.value.1 <= |code|
    decreases fuel, |code| - pos, 2
  {
    match ReadPos(code, pos)
    case None => None
    case Some((target, q)) =>
      if target < pos && (target >= |code| || !MayPointBackwardsAt(TypeFromByte(code[target]))) then None
      else if fuel == 0 then None
      else
        match ParseVal(code, target, registers, fuel - 1)
        case None => None
        case Some((v, _)) => Some((v, q))
  }

  /** Values up to an `End` tag, which is consumed. */
  function ParseVec(code: seq<Byte>, pos: nat, registers: seq<Val>, fuel: nat): (r: Option<(seq<Val>, nat)>)
    ensures r.Some? ==> pos < r.value.1 <= |code|
    ensures r.Some? ==> code[r.value.1 - 1] == TypeTag(BytecodeType.End)
    decreases fuel, |code| - pos, 1
  {
    if pos >= |code| then None
    else if TypeFromByte(code[pos]) == BytecodeType.End then Some(([], pos + 1))
    else
      match ParseVal(code, pos, registers, fuel)
      case None => None
      case Some((v, p)) =>
        match ParseVec(code, p, registers, fuel)
        case None => None
        case Some((vs, q)) => Some(([v] + vs, q))
  }

  /** Key/value pairs up to an `End` tag, which is consumed. */
  function ParseProps(code: seq<Byte>, pos: nat, registers: seq<Val>, fuel: nat): (r: Option<(seq<(Val, Val)>, nat)>)
    ensures r.Some? ==> pos < r.value.1 <= |code|
    ensures r.Some? ==> code[r.value.1 - 1] == TypeTag(BytecodeType.End)
    decreases fuel, |code| - pos, 1
  {
    if pos >= |code| then None
    else if TypeFromByte(code[pos]) == BytecodeType.End then Some(([], pos + 1))
    else
      match ParseVal(code, pos, registers, fuel)
      case None => None
      case Some((k, p1)) =>
        match ParseVal(code, p1, registers, fuel)
        case None => None
        case Some((v, p2)) =>
          match ParseProps(code, p2, registers, fuel)
          case None => None
          case Some((ps, q)) => Some(([(k, v)] + ps, q))
  }

  function ReadInstruction(code: seq<Byte>, pos: nat): Option<(InstructionBytes.InstructionByte, nat)> {
    if pos < |code| then
      match InstructionBytes.FromByte(code[pos])
      case None => None
      case Some(op) => Some((op, pos + 1))
    else None
  }

  /** Puts `xs` in front of a parsed sequence. */
  function Prepend<T>(xs: seq<T>, r: Option<(seq<T>, nat)>): Option<(seq<T>, nat)> {
    match r
    case None => None
    case Some((ys, p)) => Some((xs + ys, p))
  }

  /**
   * A method result agrees with a read: it fails where the read fails, and
   * otherwise yields the read value and leaves the cursor where the read stops.
   */
  predicate Agrees<T(==)>(r: Option<T>, pos: nat, spec: Option<(T, nat)>) {
    match spec
    case None => r.None?
    case Some((v, p)) => r == Some(v) && pos == p
  }

  // ---------------------------------------------------------------------------
  // The decoder.
  // ---------------------------------------------------------------------------

  class Decoder {
    const bytecode: seq<Byte>
    var pos: nat

    /** `clone_at`: a decoder over the same bytecode at another position. */
    constructor At(bytecode: seq<Byte>, pos: nat)
      ensures this.bytecode == bytecode && this.pos == pos
    {
      this.bytecode := bytecode;
      this.pos := pos;
    }

    method DecodeByte() returns (r: Option<Byte>)
      modifies this
      ensures Agrees(r, pos, ReadByte(bytecode, old(pos)))
    {
      if pos >= |bytecode| { return None; }
      r := Some(bytecode[pos]);
      pos := pos + 1;
    }

    method PeekByte() returns (r: Option<Byte>)
      ensures Agrees(r, pos + 1, ReadByte(bytecode, pos))
    {
      if pos >= |bytecode| { return None; }
      r := Some(bytecode[pos]);
    }

    method DecodeType() returns (r: Option<BytecodeType>)
      modifies this
      ensures Agrees(r, pos, ReadType(bytecode, old(pos)))
    {
      var b := DecodeByte();
      if b.None? { return None; }
      r := Some(TypeFromByte(b.value));
    }

    method PeekType() returns (r: Option<BytecodeType>)
      ensures Agrees(r, pos + 1, ReadType(bytecode, pos))
    {
      var b := PeekByte();
      if b.None? { return None; }
      r := Some(TypeFromByte(b.value));
    }

    method DecodeVarsizeUint() returns (r: Option<nat>)
      modifies this
      ensures Agrees(r, pos, ReadVarsize(bytecode, old(pos)))
    {
      if pos >= |bytecode| { return None; }
      var start := pos;
      var res: nat := 0;
      var mul: nat := 1;
      while true
        invariant start <= pos <= start + 9 && pos <= |bytecode|
        invariant VarsizeEnd(bytecode, start) == VarsizeEnd(bytecode, pos)
        invariant res == VarsizeValue(bytecode[start..pos])
        invariant mul == Pow(128, pos - start)
        decreases |bytecode| - pos
      {
        var p := pos;
        var b := DecodeByte();
        if b.None? { return None; }
        assert b.value == bytecode[p] && pos == p + 1;
        VarsizeStep(bytecode, start, p);
        assert res + mul * (b.value % 128) == VarsizeValue(bytecode[start..pos]);
        if res + mul * (b.value % 128) >= USIZE_LIMIT {
          // `res += mul * (byte % 128)` overflows.
          return None;
        }
        res := res + mul * (b.value % 128);
        if b.value < 128 { return Some(res); }
        if mul * 128 >= USIZE_LIMIT {
          // `mul *= 128` overflows: this was the tenth byte, and more follow.
          return None;
        }
        mul := mul * 128;
      }
    }

    method DecodePos() returns (r: Option<nat>)
      modifies this
      ensures Agrees(r, pos, ReadPos(bytecode, old(pos)))
    {
      var lo := DecodeByte();
      if lo.None? { return None; }
      var hi := DecodeByte();
      if hi.None? { return None; }
      r := Some(lo.value as nat + 256 * hi.value as nat);
    }

    method DecodeRegisterIndex() returns (r: Option<Option<nat>>)
      modifies this
      ensures Agrees(r, pos, ReadRegisterIndex(bytecode, old(pos)))
    {
      var b := DecodeByte();
      if b.None? { return None; }
      if b.value == 0xff { return Some(None); }
      r := Some(Some(b.value as nat));
    }

    method DecodeSignedByte() returns (r: Option<int>)
      modifies this
      ensures Agrees(r, pos, ReadSignedByte(bytecode, old(pos)))
    {
      var b := DecodeByte();
      if b.None? { return None; }
      r := Some(if b.value < 128 then b.value as int else b.value as int - 256);
    }

    method DecodeNumber() returns (r: Option<Float64.F64>)
      modifies this
      ensures Agrees(r, pos, ReadNumber(bytecode, old(pos)))
    {
      if pos + 8 > |bytecode| { return None; }
      r := Some(Float64.FromLeBytes(bytecode[pos..pos + 8]));
      pos := pos + 8;
    }

    /** `decode_string`, with the string kept as its bytes. */
    method DecodeString() returns (r: Option<seq<Byte>>)
      modifies this
      ensures Agrees(r, pos, ReadBytes(bytecode, old(pos)))
    {
      var len := DecodeVarsizeUint();
      if len.None? || pos + len.value > |bytecode| { return None; }
      r := Some(bytecode[pos..pos + len.value]);
      pos := pos + len.value;
    }

    method DecodeBigInt() returns (r: Option<int>)
      modifies this
      ensures Agrees(r, pos, ReadBigInt(bytecode, old(pos)))
    {
      var sign := DecodeByte();
      if sign.None? || sign.value > 2 { return None; }
      var magnitude := DecodeString();
      if magnitude.None? { return None; }
      var m: int := LittleEndian(magnitude.value);
      r := Some(if sign.value == 0 then -m else if sign.value == 1 then 0 else m);
    }

    method DecodeFunction(isGenerator: bool) returns (r: Option<Val>)
      modifies this
      ensures Agrees(r, pos, ReadFunction(bytecode, old(pos), isGenerator))
    {
      var registerCount := DecodeByte();
      if registerCount.None? { return None; }
      var parameterCount := DecodeByte();
      if parameterCount.None? { return None; }
      r := Some(Val.Function(isGenerator, registerCount.value, parameterCount.value, pos));
    }

    method DecodeInstruction() returns (r: Option<InstructionBytes.InstructionByte>)
      modifies this
      ensures Agrees(r, pos, ReadInstruction(bytecode, old(pos)))
    {
      var b := DecodeByte();
      if b.None? { return None; }
      r := InstructionBytes.FromByte(b.value);
    }

    /** `decode_val`: `decode_vallish` with the register reference copied out. */
    method DecodeVal(registers: seq<Val>, fuel: nat) returns (r: Option<Val>)
      modifies this
      ensures Agrees(r, pos, ParseVal(bytecode, old(pos), registers, fuel))
      decreases fuel, |bytecode| - pos, 0
    {
      var t := DecodeType();
      if t.None? { return None; }
      assert ParseVal(bytecode, old(pos), registers, fuel) == ParseTagged(bytecode, pos, t.value, registers, fuel);
      match t.value
      case End => r := None;
      case Void => r := Some(Val.Void);
      case Undefined => r := Some(Val.Undefined);
      case Null => r := Some(Val.Null);
      case False => r := Some(Val.Bool(false));
      case True => r := Some(Val.Bool(true));
      case SignedByte =>
        var k := DecodeSignedByte();
        r := if k.Some? then Some(Val.Number(Float64.FromSmallInt(k.value))) else None;
      case Number =>
        var n := DecodeNumber();
        r := if n.Some? then Some(Val.Number(n.value)) else None;
      case String =>
        var s := DecodeString();
        r := if s.Some? then Some(Val.String(s.value)) else None;
      case Array =>
        var vs := DecodeVecVal(registers, fuel);
        r := if vs.Some? then Some(Val.Array(vs.value)) else None;
      case Object =>
        var ps := DecodeProps(registers, fuel);
        r := if ps.Some? then Some(Val.Object(ps.value)) else None;
      case Function => r := DecodeFunction(false);
      case Pointer => r := DecodePointer(registers, fuel);
      case Register =>
        var i := DecodeRegisterIndex();
        if i.None? || i.value.None? { return None; }
        r := ReadRegister(registers, i.value.value);
      case Builtin =>
        var i := DecodeVarsizeUint();
        r := if i.Some? && i.value < BUILTIN_COUNT then Some(Val.Static(StaticId.BuiltinAt(i.value))) else None;
      case Class =>
        var c := DecodeVal(registers, fuel);
        if c.None? { return None; }
        var ip := DecodeVal(registers, fuel);
        if ip.None? { return None; }
        r := Some(Val.Class(c.value, ip.value));
      case BigInt =>
        var i := DecodeBigInt();
        r := if i.Some? then Some(Val.BigInt(i.value)) else None;
      case GeneratorFunction => r := DecodeFunction(true);
      case Unrecognized => r := None;
    }

    /** `decode_pointer`: decodes the target with a second decoder; this one only skips the pointer. */
    method DecodePointer(registers: seq<Val>, fuel: nat) returns (r: Option<Val>)
      modifies this
      ensures Agrees(r, pos, ParsePointer(bytecode, old(pos), registers, fuel))
      decreases fuel, |bytecode| - pos, 2
    {
      var fromPos := pos;
      var target := DecodePos();
      if target.None? { return None; }
      if target.value < fromPos {
        var probe := new Decoder.At(bytecode, target.value);
        var t := probe.DecodeType();
        if t.None? || !MayPointBackwardsAt(t.value) { return None; }
      }
      if fuel == 0 { return None; }
      var other := new Decoder.At(bytecode, target.value);
      r := other.DecodeVal(registers, fuel - 1);
    }

    method DecodeVecVal(registers: seq<Val>, fuel: nat) returns (r: Option<seq<Val>>)
      modifies this
      ensures Agrees(r, pos, ParseVec(bytecode, old(pos), registers, fuel))
      decreases fuel, |bytecode| - pos, 1
    {
      if pos >= |bytecode| { return None; }
      var vals: seq<Val> := [];
      PrependNothing(ParseVec(bytecode, pos, registers, fuel));
      while true
        invariant old(pos) <= pos <= |bytecode|
        invariant ParseVec(bytecode, old(pos), registers, fuel)
               == Prepend(vals, ParseVec(bytecode, pos, registers, fuel))
        decreases |bytecode| - pos
      {
        var t := PeekType();
        if t.None? { return None; }
        if t.value == BytecodeType.End {
          pos := pos + 1;
          assert vals + [] == vals;
          return Some(vals);
        }
        var v := DecodeVal(registers, fuel);
        if v.None? { return None; }
        PrependTwice(vals, [v.value], ParseVec(bytecode, pos, registers, fuel));
        vals := vals + [v.value];
      }
    }

    /** The property loop of `decode_vallish`'s object case, keeping every pair. */
    method DecodeProps(registers: seq<Val>, fuel: nat) returns (r: Option<seq<(Val, Val)>>)
      modifies this
      ensures Agrees(r, pos, ParseProps(bytecode, old(pos), registers, fuel))
      decreases fuel, |bytecode| - pos, 1
    {
      if pos >= |bytecode| { return None; }
      var props: seq<(Val, Val)> := [];
      PrependNothing(ParseProps(bytecode, pos, registers, fuel));
      while true
        invariant old(pos) <= pos <= |bytecode|
        invariant ParseProps(bytecode, old(pos), registers, fuel)
               == Prepend(props, ParseProps(bytecode, pos, registers, fuel))
        decreases |bytecode| - pos
      {
        var t := PeekType();
        if t.None? { return None; }
        if t.value == BytecodeType.End {
          pos := pos + 1;
          assert props + [] == props;
          return Some(props);
        }
        var key := DecodeVal(registers, fuel);
        if key.None? { return None; }
        var value := DecodeVal(registers, fuel);
        if value.None? { return None; }
        PrependTwice(props, [(key.value, value.value)], ParseProps(bytecode, pos, registers, fuel));
        props := props + [(key.value, value.value)];
      }
    }
  }

  lemma PrependNothing<T>(r: Option<(seq<T>, nat)>)
    ensures Prepend([], r) == r
  {
    if r.Some? {
      assert [] + r.value.0 == r.value.0;
    }
  }

  lemma PrependTwice<T>(xs: seq<T>, ys: seq<T>, r: Option<(seq<T>, nat)>)
    ensures Prepend(xs, Prepend(ys, r)) == Prepend(xs + ys, r)
  {
    if r.Some? {
      assert xs + (ys + r.value.0) == (xs + ys) + r.value.0;
    }
  }

  /** `128^k` fits in 63 bits up to `k = 9`, and needs more than 64 from `k = 10`. */
  lemma {:induction false} Pow128Bound(k: nat)
    ensures k <= 9 ==> Pow(128, k) <= USIZE_LIMIT / 2
    ensures k >= 10 ==> Pow(128, k) >= USIZE_LIMIT
  {
    Pow128Values();
    if k <= 9 {
      PowMonotone(128, k, 9);
    } else {
      PowMonotone(128, 10, k);
    }
  }

  lemma Pow128Values()
    ensures Pow(128, 9) == USIZE_LIMIT / 2
    ensures Pow(128, 10) == USIZE_LIMIT * 64
  {
    assert Pow(128, 1) == 0x80;
    assert Pow(128, 2) == 0x4000;
    assert Pow(128, 3) == 0x20_0000;
    assert Pow(128, 4) == 0x1000_0000;
    assert Pow(128, 5) == 0x8_0000_0000;
    assert Pow(128, 6) == 0x400_0000_0000;
    assert Pow(128, 7) == 0x2_0000_0000_0000;
    assert Pow(128, 8) == 0x100_0000_0000_0000;
    assert Pow(128, 9) == 0x8000_0000_0000_0000;
    assert Pow(128, 10) == 0x40_0000_0000_0000_0000;
  }

  /** A varsize value is at least the value of any prefix of its bytes. */
  lemma {:induction false} VarsizeValuePrefix(bs: seq<Byte>, k: nat)
    requires k <= |bs|
    ensures VarsizeValue(bs[..k]) <= VarsizeValue(bs)
  {
    if k > 0 {
      VarsizeValuePrefix(bs[1..], k - 1);
      assert bs[..k][1..] == bs[1..][..k - 1];
    }
  }

  /**
   * Reading byte `p` of the varsize at `start`: how the running value grows,
   * and when the read already has its outcome.
   */
  lemma VarsizeStep(code: seq<Byte>, start: nat, p: nat)
    requires start <= p < |code| && p <= start + 9
    requires VarsizeEnd(code, start) == VarsizeEnd(code, p)
    ensures VarsizeValue(code[start..p + 1]) == VarsizeValue(code[start..p]) + Pow(128, p - start) * (code[p] % 128)
    ensures VarsizeValue(code[start..p + 1]) >= USIZE_LIMIT ==> ReadVarsize(code, start).None?
    ensures VarsizeValue(code[start..p + 1]) < USIZE_LIMIT && code[p] < 128 ==>
      ReadVarsize(code, start) == Some((VarsizeValue(code[start..p + 1]), p + 1))
    ensures code[p] >= 128 ==> VarsizeEnd(code, start) == VarsizeEnd(code, p + 1)
    ensures code[p] >= 128 && p == start + 9 ==> ReadVarsize(code, start).None?
    ensures Pow(128, p - start) * 128 == Pow(128, p + 1 - start)
    ensures Pow(128, p + 1 - start) >= USIZE_LIMIT <==> p == start + 9
  {
    VarsizeGrow(code, start, p);
    Pow128Bound(p + 1 - start);
    if VarsizeValue(code[start..p + 1]) >= USIZE_LIMIT {
      VarsizeOverflow(code, start, p + 1);
    } else if code[p] < 128 {
      assert VarsizeEnd(code, start) == Some(p + 1);
    } else {
      assert VarsizeEnd(code, p) == VarsizeEnd(code, p + 1);
      if VarsizeEnd(code, start).Some? {
        assert VarsizeEnd(code, start).value > p + 1;
      }
    }
  }

  /** One more byte adds its seven bits at the next power of 128. */
  lemma VarsizeGrow(code: seq<Byte>, start: nat, p: nat)
    requires start <= p < |code|
    ensures VarsizeValue(code[start..p + 1]) == VarsizeValue(code[start..p]) + Pow(128, p - start) * (code[p] % 128)
    ensures Pow(128, p - start) * 128 == Pow(128, p + 1 - start)
  {
    VarsizeValueSnoc(code[start..p], code[p]);
    assert code[start..p + 1] == code[start..p] + [code[p]];
  }

  /** A prefix of the varsize at `start` that overflows makes the whole read fail. */
  lemma VarsizeOverflow(code: seq<Byte>, start: nat, p: nat)
    requires start <= p <= |code| && VarsizeValue(code[start..p]) >= USIZE_LIMIT
    requires VarsizeEnd(code, start).Some? ==> p <= VarsizeEnd(code, start).value
    ensures ReadVarsize(code, start).None?
  {
    if VarsizeEnd(code, start).Some? {
      var e := VarsizeEnd(code, start).value;
      VarsizeValuePrefix(code[start..e], p - start);
      assert code[start..e][..p - start] == code[start..p];
    }
  }

  lemma {:induction false} VarsizeValueSnoc(bs: seq<Byte>, b: Byte)
    ensures VarsizeValue(bs + [b]) == VarsizeValue(bs) + Pow(128, |bs|) * (b % 128)
  {
    if bs != [] {
      assert (bs + [b])[1..] == bs[1..] + [b];
      VarsizeValueSnoc(bs[1..], b);
      calc {
        VarsizeValue(bs + [b]);
        bs[0] % 128 + 128 * VarsizeValue(bs[1..] + [b]);
        bs[0] % 128 + 128 * (VarsizeValue(bs[1..]) + Pow(128, |bs| - 1) * (b % 128));
        bs[0] % 128 + 128 * VarsizeValue(bs[1..]) + 128 * Pow(128, |bs| - 1) * (b % 128);
      }
    }
  }
}
