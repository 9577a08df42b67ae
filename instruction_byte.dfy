/**
 * The one-byte opcodes of ValueScript bytecode and their decoding table
 * (`InstructionByte` and `InstructionByte::from_byte`).
 */
module InstructionBytes {
  import opened Wrappers
  import opened Bytes

  datatype InstructionByte =
    | End
    | Mov
    | OpInc
    | OpDec
    | OpPlus
    | OpMinus
    | OpMul
    | OpDiv
    | OpMod
    | OpExp
    | OpEq
    | OpNe
    | OpTripleEq
    | OpTripleNe
    | OpAnd
    | OpOr
    | OpNot
    | OpLess
    | OpLessEq
    | OpGreater
    | OpGreaterEq
    | OpNullishCoalesce
    | OpOptionalChain
    | OpBitAnd
    | OpBitOr
    | OpBitNot
    | OpBitXor
    | OpLeftShift
    | OpRightShift
    | OpRightShiftUnsigned
    | TypeOf
    | InstanceOf
    | In
    | Call
    | Apply
    | ConstApply
    | Bind
    | Sub
    | SubMov
    | SubCall
    | Jmp
    | JmpIf
    | JmpIfNot
    | UnaryPlus
    | UnaryMinus
    | New
    | Throw
    | Import
    | ImportStar
    | SetCatch
    | UnsetCatch
    | ConstSubCall
    | RequireMutableThis
    | ThisSubCall
    | Next
    | UnpackIterRes
    | Cat
    | Yield
    | YieldStar

  /** The opcode's declared discriminant, which is what the assembler writes for it. */
  function Discriminant(op: InstructionByte): (b: Byte)
    ensures b <= 0x3a
  {
    match op
    case End => 0x00
    case Mov => 0x01
    case OpInc => 0x02
    case OpDec => 0x03
    case OpPlus => 0x04
    case OpMinus => 0x05
    case OpMul => 0x06
    case OpDiv => 0x07
    case OpMod => 0x08
    case OpExp => 0x09
    case OpEq => 0x0a
    case OpNe => 0x0b
    case OpTripleEq => 0x0c
    case OpTripleNe => 0x0d
    case OpAnd => 0x0e
    case OpOr => 0x0f
    case OpNot => 0x10
    case OpLess => 0x11
    case OpLessEq => 0x12
    case OpGreater => 0x13
    case OpGreaterEq => 0x14
    case OpNullishCoalesce => 0x15
    case OpOptionalChain => 0x16
    case OpBitAnd => 0x17
    case OpBitOr => 0x18
    case OpBitNot => 0x19
    case OpBitXor => 0x1a
    case OpLeftShift => 0x1b
    case OpRightShift => 0x1c
    case OpRightShiftUnsigned => 0x1d
    case TypeOf => 0x1e
    case InstanceOf => 0x1f
    case In => 0x20
    case Call => 0x21
    case Apply => 0x22
    case ConstApply => 0x23
    case Bind => 0x24
    case Sub => 0x25
    case SubMov => 0x26
    case SubCall => 0x27
    case Jmp => 0x28
    case JmpIf => 0x29
    case JmpIfNot => 0x2a
    case UnaryPlus => 0x2b
    case UnaryMinus => 0x2c
    case New => 0x2d
    case Throw => 0x2e
    case Import => 0x2f
    case ImportStar => 0x30
    case SetCatch => 0x31
    case UnsetCatch => 0x32
    case ConstSubCall => 0x33
    case RequireMutableThis => 0x34
    case ThisSubCall => 0x35
    case Next => 0x36
    case UnpackIterRes => 0x37
    case Cat => 0x38
    case Yield => 0x39
    case YieldStar => 0x3a
  }

  /**
   * `from_byte`: the opcode a byte encodes; `None` where the source panics
   * ("Unrecognized instruction"), which is every byte above 0x3a.
   */
  function FromByte(b: Byte): (r: Option<InstructionByte>)
    ensures r.Some? <==> b <= 0x3a
  {
    match b
    case 0x00 => Some(End)
    case 0x01 => Some(Mov)
    case 0x02 => Some(OpInc)
    case 0x03 => Some(OpDec)
    case 0x04 => Some(OpPlus)
    case 0x05 => Some(OpMinus)
    case 0x06 => Some(OpMul)
    case 0x07 => Some(OpDiv)
    case 0x08 => Some(OpMod)
    case 0x09 => Some(OpExp)
    case 0x0a => Some(OpEq)
    case 0x0b => Some(OpNe)
    case 0x0c => Some(OpTripleEq)
    case 0x0d => Some(OpTripleNe)
    case 0x0e => Some(OpAnd)
    case 0x0f => Some(OpOr)
    case 0x10 => Some(OpNot)
    case 0x11 => Some(OpLess)
    case 0x12 => Some(OpLessEq)
    case 0x13 => Some(OpGreater)
    case 0x14 => Some(OpGreaterEq)
    case 0x15 => Some(OpNullishCoalesce)
    case 0x16 => Some(OpOptionalChain)
    case 0x17 => Some(OpBitAnd)
    case 0x18 => Some(OpBitOr)
    case 0x19 => Some(OpBitNot)
    case 0x1a => Some(OpBitXor)
    case 0x1b => Some(OpLeftShift)
    case 0x1c => Some(OpRightShift)
    case 0x1d => Some(OpRightShiftUnsigned)
    case 0x1e => Some(TypeOf)
    case 0x1f => Some(InstanceOf)
    case 0x20 => Some(In)
    case 0x21 => Some(Call)
    case 0x22 => Some(Apply)
    case 0x23 => Some(ConstApply)
    case 0x24 => Some(Bind)
    case 0x25 => Some(Sub)
    case 0x26 => Some(SubMov)
    case 0x27 => Some(SubCall)
    case 0x28 => Some(Jmp)
    case 0x29 => Some(JmpIf)
    case 0x2a => Some(JmpIfNot)
    case 0x2b => Some(UnaryPlus)
    case 0x2c => Some(UnaryMinus)
    case 0x2d => Some(New)
    case 0x2e => Some(Throw)
    case 0x2f => Some(Import)
    case 0x30 => Some(ImportStar)
    case 0x31 => Some(SetCatch)
    case 0x32 => Some(UnsetCatch)
    case 0x33 => Some(ConstSubCall)
    case 0x34 => Some(RequireMutableThis)
    case 0x35 => Some(ThisSubCall)
    case 0x36 => Some(Next)
    case 0x37 => Some(UnpackIterRes)
    case 0x38 => Some(Cat)
    case 0x39 => Some(Yield)
    case 0x3a => Some(YieldStar)
    case _ => None
  }

  /** Decoding the byte the assembler writes for an opcode gives that opcode back. */
  lemma FromByteDiscriminant(op: InstructionByte)
    ensures FromByte(Discriminant(op)) == Some(op)
  {
    match op
    case End =>
    case Mov =>
    case OpInc =>
    case OpDec =>
    case OpPlus =>
    case OpMinus =>
    case OpMul =>
    case OpDiv =>
    case OpMod =>
    case OpExp =>
    case OpEq =>
    case OpNe =>
    case OpTripleEq =>
    case OpTripleNe =>
    case OpAnd =>
    case OpOr =>
    case OpNot =>
    case OpLess =>
    case OpLessEq =>
    case OpGreater =>
    case OpGreaterEq =>
    case OpNullishCoalesce =>
    case OpOptionalChain =>
    case OpBitAnd =>
    case OpBitOr =>
    case OpBitNot =>
    case OpBitXor =>
    case OpLeftShift =>
    case OpRightShift =>
    case OpRightShiftUnsigned =>
    case TypeOf =>
    case InstanceOf =>
    case In =>
    case Call =>
    case Apply =>
    case ConstApply =>
    case Bind =>
    case Sub =>
    case SubMov =>
    case SubCall =>
    case Jmp =>
    case JmpIf =>
    case JmpIfNot =>
    case UnaryPlus =>
    case UnaryMinus =>
    case New =>
    case Throw =>
    case Import =>
    case ImportStar =>
    case SetCatch =>
    case UnsetCatch =>
    case ConstSubCall =>
    case RequireMutableThis =>
    case ThisSubCall =>
    case Next =>
    case UnpackIterRes =>
    case Cat =>
    case Yield =>
    case YieldStar =>
  }

  /** Every byte `from_byte` accepts is the discriminant of the opcode it yields. */
  lemma DiscriminantFromByte(b: Byte)
    requires b <= 0x3a
    ensures Discriminant(FromByte(b).value) == b
  {
    if b < 0x04 {
      DiscriminantFromByteBelow04(b);
    } else if b < 0x08 {
      DiscriminantFromByteBelow08(b);
    } else if b < 0x0c {
      DiscriminantFromByteBelow0c(b);
    } else if b < 0x10 {
      DiscriminantFromByteBelow10(b);
    } else if b < 0x14 {
      DiscriminantFromByteBelow14(b);
    } else if b < 0x18 {
      DiscriminantFromByteBelow18(b);
    } else if b < 0x1c {
      DiscriminantFromByteBelow1c(b);
    } else if b < 0x20 {
      DiscriminantFromByteBelow20(b);
    } else if b < 0x24 {
      DiscriminantFromByteBelow24(b);
    } else if b < 0x28 {
      DiscriminantFromByteBelow28(b);
    } else if b < 0x2c {
      DiscriminantFromByteBelow2c(b);
    } else if b < 0x30 {
      DiscriminantFromByteBelow30(b);
    } else if b < 0x34 {
      DiscriminantFromByteBelow34(b);
    } else if b < 0x36 {
      DiscriminantFromByteBelow36(b);
    } else if b < 0x38 {
      DiscriminantFromByteBelow38(b);
    } else {
      DiscriminantFromByteBelow3b(b);
    }
  }

  lemma DiscriminantFromByteBelow04(b: Byte)
    requires 0x00 <= b < 0x04
    ensures Discriminant(FromByte(b).value) == b
  {
    if b == 0x00 {
    } else if b == 0x01 {
    } else if b == 0x02 {
    } else if b == 0x03 {
    }
  }

  lemma DiscriminantFromByteBelow08(b: Byte)
    requires 0x04 <= b < 0x08
    ensures Discriminant(FromByte(b).value) == b
  {
    if b == 0x04 {
    } else if b == 0x05 {
    } else if b == 0x06 {
    } else if b == 0x07 {
    }
  }

  lemma DiscriminantFromByteBelow0c(b: Byte)
    requires 0x08 <= b < 0x0c
    ensures Discriminant(FromByte(b).value) == b
  {
    if b == 0x08 {
    } else if b == 0x09 {
    } else if b == 0x0a {
    } else if b == 0x0b {
    }
  }

  lemma DiscriminantFromByteBelow10(b: Byte)
    requires 0x0c <= b < 0x10
    ensures Discriminant(FromByte(b).value) == b
  {
    if b == 0x0c {
    } else if b == 0x0d {
    } else if b == 0x0e {
    } else if b == 0x0f {
    }
  }

  lemma DiscriminantFromByteBelow14(b: Byte)
    requires 0x10 <= b < 0x14
    ensures Discriminant(FromByte(b).value) == b
  {
    if b == 0x10 {
    } else if b == 0x11 {
    } else if b == 0x12 {
    } else if b == 0x13 {
    }
  }

  lemma DiscriminantFromByteBelow18(b: Byte)
    requires 0x14 <= b < 0x18
    ensures Discriminant(FromByte(b).value) == b
  {
    if b == 0x14 {
    } else if b == 0x15 {
    } else if b == 0x16 {
    } else if b == 0x17 {
    }
  }

  lemma DiscriminantFromByteBelow1c(b: Byte)
    requires 0x18 <= b < 0x1c
    ensures Discriminant(FromByte(b).value) == b
  {
    if b == 0x18 {
    } else if b == 0x19 {
    } else if b == 0x1a {
    } else if b == 0x1b {
    }
  }

  lemma DiscriminantFromByteBelow20(b: Byte)
    requires 0x1c <= b < 0x20
    ensures Discriminant(FromByte(b).value) == b
  {
    if b == 0x1c {
    } else if b == 0x1d {
    } else if b == 0x1e {
    } else if b == 0x1f {
    }
  }

  lemma DiscriminantFromByteBelow24(b: Byte)
    requires 0x20 <= b < 0x24
    ensures Discriminant(FromByte(b).value) == b
  {
    if b == 0x20 {
    } else if b == 0x21 {
    } else if b == 0x22 {
    } else if b == 0x23 {
    }
  }

  lemma DiscriminantFromByteBelow28(b: Byte)
    requires 0x24 <= b < 0x28
    ensures Discriminant(FromByte(b).value) == b
  {
    if b == 0x24 {
    } else if b == 0x25 {
    } else if b == 0x26 {
    } else if b == 0x27 {
    }
  }

  lemma DiscriminantFromByteBelow2c(b: Byte)
    requires 0x28 <= b < 0x2c
    ensures Discriminant(FromByte(b).value) == b
  {
    if b == 0x28 {
    } else if b == 0x29 {
    } else if b == 0x2a {
    } else if b == 0x2b {
    }
  }

  lemma DiscriminantFromByteBelow30(b: Byte)
    requires 0x2c <= b < 0x30
    ensures Discriminant(FromByte(b).value) == b
  {
    if b == 0x2c {
    } else if b == 0x2d {
    } else if b == 0x2e {
    } else if b == 0x2f {
    }
  }

  lemma DiscriminantFromByteBelow34(b: Byte)
    requires 0x30 <= b < 0x34
    ensures Discriminant(FromByte(b).value) == b
  {
    if b == 0x30 {
    } else if b == 0x31 {
    } else if b == 0x32 {
    } else if b == 0x33 {
    }
  }

  lemma DiscriminantFromByteBelow36(b: Byte)
    requires 0x34 <= b < 0x36
    ensures Discriminant(FromByte(b).value) == b
  {
    if b == 0x34 {
    } else if b == 0x35 {
    }
  }

  lemma DiscriminantFromByteBelow38(b: Byte)
    requires 0x36 <= b < 0x38
    ensures Discriminant(FromByte(b).value) == b
  {
    if b == 0x36 {
    } else if b == 0x37 {
    }
  }

  lemma DiscriminantFromByteBelow3b(b: Byte)
    requires 0x38 <= b < 0x3b
    ensures Discriminant(FromByte(b).value) == b
  {
    if b == 0x38 {
    } else if b == 0x39 {
    } else if b == 0x3a {
    }
  }

  /** Distinct opcodes are written as distinct bytes. */
  lemma DiscriminantInjective(a: InstructionByte, b: InstructionByte)
    requires Discriminant(a) == Discriminant(b)
    ensures a == b
  {
    FromByteDiscriminant(a);
    FromByteDiscriminant(b);
  }
}
