/**
 * The compiler's assembly representation (`asm.rs`): registers, assembly
 * values, labels, instructions, the opcode each instruction assembles to, the
 * order in which the field and value visitors see their operands, the textual
 * rendering of registers, labels, arrays, objects and functions, and
 * `Object::try_resolve_key`.
 */
module Asm {
  import opened Wrappers
  import opened Text
  import Float64
  import IB = InstructionBytes

  // ---------------------------------------------------------------------------
  // Registers.
  // ---------------------------------------------------------------------------

  /** A register operand; `take` marks a read that moves the value out. */
  datatype Register = Reg(take: bool, name: string)

  predicate IsReturn(r: Register) { r.name == "return" }

  predicate IsThis(r: Register) { r.name == "this" }

  predicate IsIgnore(r: Register) { r.name == "ignore" }

  /** A register the function allocated, as opposed to the three special ones. */
  predicate IsNamed(r: Register) {
    match r.name
    case "return" => false
    case "this" => false
    case "ignore" => false
    case _ => true
  }

  function ReturnRegister(): (r: Register)
    ensures IsReturn(r) && !IsNamed(r) && !r.take
  {
    Reg(false, "return")
  }

  function ThisRegister(): (r: Register)
    ensures IsThis(r) && !IsNamed(r) && !r.take
  {
    Reg(false, "this")
  }

  function IgnoreRegister(): (r: Register)
    ensures IsIgnore(r) && !IsNamed(r) && !r.take
  {
    Reg(false, "ignore")
  }

  function NamedRegister(name: string): (r: Register)
    ensures r.name == name && !r.take
  {
    Reg(false, name)
  }

  /** The same register, read by moving its value out. */
  function Take(r: Register): Register {
    Reg(true, r.name)
  }

  /** `take` keeps the name (so every predicate above), sets the flag, and taking twice is taking once. */
  lemma TakeKeepsRegister(r: Register)
    ensures Take(r).name == r.name && Take(r).take
    ensures IsNamed(Take(r)) == IsNamed(r) && IsReturn(Take(r)) == IsReturn(r)
    ensures IsThis(Take(r)) == IsThis(r) && IsIgnore(Take(r)) == IsIgnore(r)
    ensures Take(Take(r)) == Take(r)
  {
  }

  /** `is_named` is exactly "none of `is_return`, `is_this`, `is_ignore`". */
  lemma NamedIffNotSpecial(r: Register)
    ensures IsNamed(r) <==> !IsReturn(r) && !IsThis(r) && !IsIgnore(r)
  {
  }

  /** `%`, then `!` for a take, then the name. */
  function RegisterText(r: Register): (s: string)
    ensures |s| > 0 && s[0] == '%'
  {
    "%" + (if r.take then "!" else "") + r.name
  }

  /** Reads a register back from its text: `%`, an optional `!`, then the name. */
  function RegisterFromText(s: string): Option<Register> {
    if |s| == 0 || s[0] != '%' then None
    else if |s| >= 2 && s[1] == '!' then Some(Reg(true, s[2..]))
    else Some(Reg(false, s[1..]))
  }

  /** Rendering loses nothing as long as the name does not itself start with `!`. */
  lemma RegisterTextRoundTrip(r: Register)
    requires r.name == [] || r.name[0] != '!'
    ensures RegisterFromText(RegisterText(r)) == Some(r)
  {
    var s := RegisterText(r);
    if r.take {
      assert s == ['%', '!'] + r.name;
    } else {
      assert s == ['%'] + r.name;
      assert |s| >= 2 ==> s[1] == r.name[0];
    }
  }

  /** Hence two such registers that print alike are the same register. */
  lemma RegisterTextInjective(a: Register, b: Register)
    requires a.name == [] || a.name[0] != '!'
    requires b.name == [] || b.name[0] != '!'
    requires RegisterText(a) == RegisterText(b)
    ensures a == b
  {
    RegisterTextRoundTrip(a);
    RegisterTextRoundTrip(b);
  }

  // ---------------------------------------------------------------------------
  // Values and labels.
  // ---------------------------------------------------------------------------

  datatype Label = Label(name: string)

  datatype LabelRef = LabelRef(name: string)

  /** An assembly operand or constant. */
  datatype Value =
    | Void
    | Undefined
    | Null
    | Bool(b: bool)
    | Number(n: Float64.F64)
    | BigInt(i: int)
    | String(s: string)
    | Array(values: seq<Value>)
    | Object(properties: seq<(Value, Value)>)
    | Register(reg: Register)
    | Pointer(pointer: string)
    | Builtin(builtin: string)

  /** `Label::ref_`: a reference to the label, under the same name. */
  function Ref(l: Label): (r: LabelRef)
    ensures r.name == l.name
  {
    LabelRef(l.name)
  }

  function LabelText(l: Label): string {
    l.name + ":"
  }

  function LabelRefText(r: LabelRef): string {
    ":" + r.name
  }

  /** A label and a reference to it print the same name, on opposite sides of the colon. */
  lemma LabelAndRefText(l: Label)
    ensures LabelText(l) + LabelRefText(Ref(l))[1..] == l.name + ":" + l.name
    ensures LabelRefText(Ref(l))[0] == ':' && LabelText(l)[|LabelText(l)| - 1] == ':'
  {
  }

  /**
   * `Display for Value`. Numbers (with their `Infinity` spelling) and strings
   * (JSON-escaped) are printed by `leaf`; everything else is printed here.
   */
  function ValueText(v: Value, leaf: Value -> string): string
    decreases v, 1
  {
    match v
    case Void => "void"
    case Undefined => "undefined"
    case Null => "null"
    case Bool(b) => if b then "true" else "false"
    case Number(_) => leaf(v)
    case BigInt(i) => IntText(i) + "n"
    case String(_) => leaf(v)
    case Array(values) => ArrayText(values, leaf)
    case Object(properties) => ObjectText(properties, leaf)
    case Register(r) => RegisterText(r)
    case Pointer(p) => "@" + p
    case Builtin(b) => "$" + b
  }

  /** `Display for Array`: the items in order, between brackets, separated by `, `. */
  function ArrayText(values: seq<Value>, leaf: Value -> string): (s: string)
    ensures |s| >= 2 && s[0] == '[' && s[|s| - 1] == ']'
    ensures values == [] ==> s == "[]"
    decreases values, 1
  {
    "[" + Join(ItemTexts(values, leaf), ", ") + "]"
  }

  function ItemTexts(values: seq<Value>, leaf: Value -> string): (r: seq<string>)
    ensures |r| == |values|
    ensures forall i :: 0 <= i < |values| ==> r[i] == ValueText(values[i], leaf)
    decreases values, 0
  {
    if values == [] then [] else [ValueText(values[0], leaf)] + ItemTexts(values[1..], leaf)
  }

  /** `Display for Object`: `{}` when empty, otherwise `{ k: v, ... }`. */
  function ObjectText(properties: seq<(Value, Value)>, leaf: Value -> string): (s: string)
    ensures |s| >= 2 && s[0] == '{' && s[|s| - 1] == '}'
    ensures properties == [] <==> s == "{}"
    decreases properties, 1
  {
    if properties == [] then "{}"
    else "{ " + Join(PropertyTexts(properties, leaf), ", ") + " }"
  }

  function PropertyTexts(properties: seq<(Value, Value)>, leaf: Value -> string): (r: seq<string>)
    ensures |r| == |properties|
    ensures forall i :: 0 <= i < |properties| ==> r[i] == PropertyText(properties[i], leaf)
    decreases properties, 0
  {
    if properties == [] then [] else [PropertyText(properties[0], leaf)] + PropertyTexts(properties[1..], leaf)
  }

  /** One property as the object's loop writes it: `key: value`. */
  function PropertyText(p: (Value, Value), leaf: Value -> string): string
    decreases p, 2
  {
    ValueText(p.0, leaf) + ": " + ValueText(p.1, leaf)
  }

  /**
   * `Display for Array` as it writes: `[`, then each item with `, ` before
   * every item but the first, then `]`.
   */
  method WriteArray(values: seq<Value>, leaf: Value -> string) returns (out: string)
    ensures out == ArrayText(values, leaf)
  {
    out := AppendJoined("[", ItemTexts(values, leaf), ", ");
    out := out + "]";
  }

  /**
   * `Display for Object` as it writes: `{}` for no properties; otherwise `{ `,
   * then each `key: value` with `, ` before every property but the first,
   * then ` }`.
   */
  method WriteObject(properties: seq<(Value, Value)>, leaf: Value -> string) returns (out: string)
    ensures out == ObjectText(properties, leaf)
  {
    if |properties| == 0 {
      return "{}";
    }
    out := AppendJoined("{ ", PropertyTexts(properties, leaf), ", ");
    out := out + " }";
  }

  // ---------------------------------------------------------------------------
  // Instructions.
  // ---------------------------------------------------------------------------

  datatype Instruction =
    | End
    | Mov(arg: Value, dst: Register)
    | OpInc(register: Register)
    | OpDec(register: Register)
    | OpPlus(left: Value, right: Value, dst: Register)
    | OpMinus(left: Value, right: Value, dst: Register)
    | OpMul(left: Value, right: Value, dst: Register)
    | OpDiv(left: Value, right: Value, dst: Register)
    | OpMod(left: Value, right: Value, dst: Register)
    | OpExp(left: Value, right: Value, dst: Register)
    | OpEq(left: Value, right: Value, dst: Register)
    | OpNe(left: Value, right: Value, dst: Register)
    | OpTripleEq(left: Value, right: Value, dst: Register)
    | OpTripleNe(left: Value, right: Value, dst: Register)
    | OpAnd(left: Value, right: Value, dst: Register)
    | OpOr(left: Value, right: Value, dst: Register)
    | OpNot(arg: Value, dst: Register)
    | OpLess(left: Value, right: Value, dst: Register)
    | OpLessEq(left: Value, right: Value, dst: Register)
    | OpGreater(left: Value, right: Value, dst: Register)
    | OpGreaterEq(left: Value, right: Value, dst: Register)
    | OpNullishCoalesce(left: Value, right: Value, dst: Register)
    | OpOptionalChain(left: Value, right: Value, dst: Register)
    | OpBitAnd(left: Value, right: Value, dst: Register)
    | OpBitOr(left: Value, right: Value, dst: Register)
    | OpBitNot(arg: Value, dst: Register)
    | OpBitXor(left: Value, right: Value, dst: Register)
    | OpLeftShift(left: Value, right: Value, dst: Register)
    | OpRightShift(left: Value, right: Value, dst: Register)
    | OpRightShiftUnsigned(left: Value, right: Value, dst: Register)
    | TypeOf(arg: Value, dst: Register)
    | InstanceOf(left: Value, right: Value, dst: Register)
    | In(left: Value, right: Value, dst: Register)
    | Call(left: Value, right: Value, dst: Register)
    | Apply(a1: Value, a2: Value, a3: Value, dst: Register)
    | Bind(left: Value, right: Value, dst: Register)
    | Sub(left: Value, right: Value, dst: Register)
    | SubMov(left: Value, right: Value, dst: Register)
    | SubCall(a1: Value, a2: Value, a3: Value, dst: Register)
    | Jmp(LabelRef)
    | JmpIf(Value, LabelRef)
    | UnaryPlus(arg: Value, dst: Register)
    | UnaryMinus(arg: Value, dst: Register)
    | New(left: Value, right: Value, dst: Register)
    | Throw(Value)
    | Import(arg: Value, dst: Register)
    | ImportStar(arg: Value, dst: Register)
    | SetCatch(labelRef: LabelRef, dst: Register)
    | UnsetCatch
    | ConstSubCall(a1: Value, a2: Value, a3: Value, dst: Register)
    | RequireMutableThis
    | ThisSubCall(a1: Value, a2: Value, a3: Value, dst: Register)
    | Next(iterable: Register, dst: Register)
    | UnpackIterRes(iterRes: Register, valueDst: Register, doneDst: Register)
    | Cat(arg: Value, dst: Register)
    | Yield(arg: Value, dst: Register)
    | YieldStar(arg: Value, dst: Register)

  /** `Instruction::byte`: the opcode the assembler writes for the instruction. */
  function Byte(i: Instruction): (op: IB.InstructionByte)
    ensures op != IB.ConstApply && op != IB.JmpIfNot
  {
    match i
    case End => IB.End
    case Mov(_, _) => IB.Mov
    case OpInc(_) => IB.OpInc
    case OpDec(_) => IB.OpDec
    case OpPlus(_, _, _) => IB.OpPlus
    case OpMinus(_, _, _) => IB.OpMinus
    case OpMul(_, _, _) => IB.OpMul
    case OpDiv(_, _, _) => IB.OpDiv
    case OpMod(_, _, _) => IB.OpMod
    case OpExp(_, _, _) => IB.OpExp
    case OpEq(_, _, _) => IB.OpEq
    case OpNe(_, _, _) => IB.OpNe
    case OpTripleEq(_, _, _) => IB.OpTripleEq
    case OpTripleNe(_, _, _) => IB.OpTripleNe
    case OpAnd(_, _, _) => IB.OpAnd
    case OpOr(_, _, _) => IB.OpOr
    case OpNot(_, _) => IB.OpNot
    case OpLess(_, _, _) => IB.OpLess
    case OpLessEq(_, _, _) => IB.OpLessEq
    case OpGreater(_, _, _) => IB.OpGreater
    case OpGreaterEq(_, _, _) => IB.OpGreaterEq
    case OpNullishCoalesce(_, _, _) => IB.OpNullishCoalesce
    case OpOptionalChain(_, _, _) => IB.OpOptionalChain
    case OpBitAnd(_, _, _) => IB.OpBitAnd
    case OpBitOr(_, _, _) => IB.OpBitOr
    case OpBitNot(_, _) => IB.OpBitNot
    case OpBitXor(_, _, _) => IB.OpBitXor
    case OpLeftShift(_, _, _) => IB.OpLeftShift
    case OpRightShift(_, _, _) => IB.OpRightShift
    case OpRightShiftUnsigned(_, _, _) => IB.OpRightShiftUnsigned
    case TypeOf(_, _) => IB.TypeOf
    case InstanceOf(_, _, _) => IB.InstanceOf
    case In(_, _, _) => IB.In
    case Call(_, _, _) => IB.Call
    case Apply(_, _, _, _) => IB.Apply
    case Bind(_, _, _) => IB.Bind
    case Sub(_, _, _) => IB.Sub
    case SubMov(_, _, _) => IB.SubMov
    case SubCall(_, _, _, _) => IB.SubCall
    case Jmp(_) => IB.Jmp
    case JmpIf(_, _) => IB.JmpIf
    case UnaryPlus(_, _) => IB.UnaryPlus
    case UnaryMinus(_, _) => IB.UnaryMinus
    case New(_, _, _) => IB.New
    case Throw(_) => IB.Throw
    case Import(_, _) => IB.Import
    case ImportStar(_, _) => IB.ImportStar
    case SetCatch(_, _) => IB.SetCatch
    case UnsetCatch => IB.UnsetCatch
    case ConstSubCall(_, _, _, _) => IB.ConstSubCall
    case RequireMutableThis => IB.RequireMutableThis
    case ThisSubCall(_, _, _, _) => IB.ThisSubCall
    case Next(_, _) => IB.Next
    case UnpackIterRes(_, _, _) => IB.UnpackIterRes
    case Cat(_, _) => IB.Cat
    case Yield(_, _) => IB.Yield
    case YieldStar(_, _) => IB.YieldStar
  }

  /** The assembler and the VM agree: the VM decodes every written opcode back to itself. */
  lemma AssemblerAgreesWithVm(i: Instruction)
    ensures IB.FromByte(IB.Discriminant(Byte(i))) == Some(Byte(i))
  {
    IB.FromByteDiscriminant(Byte(i));
  }

  /** The first word of the instruction's text (`Display for Instruction`). */
  function Mnemonic(i: Instruction): string {
    match i
    case End => "end"
    case Mov(_, _) => "mov"
    case OpInc(_) => "op++"
    case OpDec(_) => "op--"
    case OpPlus(_, _, _) => "op+"
    case OpMinus(_, _, _) => "op-"
    case OpMul(_, _, _) => "op*"
    case OpDiv(_, _, _) => "op/"
    case OpMod(_, _, _) => "op%"
    case OpExp(_, _, _) => "op**"
    case OpEq(_, _, _) => "op=="
    case OpNe(_, _, _) => "op!="
    case OpTripleEq(_, _, _) => "op==="
    case OpTripleNe(_, _, _) => "op!=="
    case OpAnd(_, _, _) => "op&&"
    case OpOr(_, _, _) => "op||"
    case OpNot(_, _) => "op!"
    case OpLess(_, _, _) => "op<"
    case OpLessEq(_, _, _) => "op<="
    case OpGreater(_, _, _) => "op>"
    case OpGreaterEq(_, _, _) => "op>="
    case OpNullishCoalesce(_, _, _) => "op??"
    case OpOptionalChain(_, _, _) => "op?."
    case OpBitAnd(_, _, _) => "op&"
    case OpBitOr(_, _, _) => "op|"
    case OpBitNot(_, _) => "op~"
    case OpBitXor(_, _, _) => "op^"
    case OpLeftShift(_, _, _) => "op<<"
    case OpRightShift(_, _, _) => "op>>"
    case OpRightShiftUnsigned(_, _, _) => "op>>>"
    case TypeOf(_, _) => "typeof"
    case InstanceOf(_, _, _) => "instanceof"
    case In(_, _, _) => "in"
    case Call(_, _, _) => "call"
    case Apply(_, _, _, _) => "apply"
    case Bind(_, _, _) => "bind"
    case Sub(_, _, _) => "sub"
    case SubMov(_, _, _) => "submov"
    case SubCall(_, _, _, _) => "subcall"
    case Jmp(_) => "jmp"
    case JmpIf(_, _) => "jmpif"
    case UnaryPlus(_, _) => "unary+"
    case UnaryMinus(_, _) => "unary-"
    case New(_, _, _) => "new"
    case Throw(_) => "throw"
    case Import(_, _) => "import"
    case ImportStar(_, _) => "import*"
    case SetCatch(_, _) => "set_catch"
    case UnsetCatch => "unset_catch"
    case ConstSubCall(_, _, _, _) => "const_subcall"
    case RequireMutableThis => "require_mutable_this"
    case ThisSubCall(_, _, _, _) => "this_subcall"
    case Next(_, _) => "next"
    case UnpackIterRes(_, _, _) => "unpack_iter_res"
    case Cat(_, _) => "cat"
    case Yield(_, _) => "yield"
    case YieldStar(_, _) => "yield*"
  }

  /** The mnemonic of each opcode the assembler can write; the two it never writes have none. */
  function OpcodeMnemonic(op: IB.InstructionByte): Option<string> {
    match op
    case End => Some("end")
    case Mov => Some("mov")
    case OpInc => Some("op++")
    case OpDec => Some("op--")
    case OpPlus => Some("op+")
    case OpMinus => Some("op-")
    case OpMul => Some("op*")
    case OpDiv => Some("op/")
    case OpMod => Some("op%")
    case OpExp => Some("op**")
    case OpEq => Some("op==")
    case OpNe => Some("op!=")
    case OpTripleEq => Some("op===")
    case OpTripleNe => Some("op!==")
    case OpAnd => Some("op&&")
    case OpOr => Some("op||")
    case OpNot => Some("op!")
    case OpLess => Some("op<")
    case OpLessEq => Some("op<=")
    case OpGreater => Some("op>")
    case OpGreaterEq => Some("op>=")
    case OpNullishCoalesce => Some("op??")
    case OpOptionalChain => Some("op?.")
    case OpBitAnd => Some("op&")
    case OpBitOr => Some("op|")
    case OpBitNot => Some("op~")
    case OpBitXor => Some("op^")
    case OpLeftShift => Some("op<<")
    case OpRightShift => Some("op>>")
    case OpRightShiftUnsigned => Some("op>>>")
    case TypeOf => Some("typeof")
    case InstanceOf => Some("instanceof")
    case In => Some("in")
    case Call => Some("call")
    case Apply => Some("apply")
    case ConstApply => None
    case Bind => Some("bind")
    case Sub => Some("sub")
    case SubMov => Some("submov")
    case SubCall => Some("subcall")
    case Jmp => Some("jmp")
    case JmpIf => Some("jmpif")
    case JmpIfNot => None
    case UnaryPlus => Some("unary+")
    case UnaryMinus => Some("unary-")
    case New => Some("new")
    case Throw => Some("throw")
    case Import => Some("import")
    case ImportStar => Some("import*")
    case SetCatch => Some("set_catch")
    case UnsetCatch => Some("unset_catch")
    case ConstSubCall => Some("const_subcall")
    case RequireMutableThis => Some("require_mutable_this")
    case ThisSubCall => Some("this_subcall")
    case Next => Some("next")
    case UnpackIterRes => Some("unpack_iter_res")
    case Cat => Some("cat")
    case Yield => Some("yield")
    case YieldStar => Some("yield*")
  }

  /** The opcode table (`byte`) and the printing table (`Display`) classify instructions alike. */
  lemma ByteDeterminesMnemonic(i: Instruction)
    ensures OpcodeMnemonic(Byte(i)) == Some(Mnemonic(i))
  {
    if !InGroup0(i) {
      ByteDeterminesMnemonicFrom1(i);
    }
  }

  // The proof walks the instruction kinds in declaration order, eight at a
  // time: each step may assume that the kinds of the earlier groups are
  // excluded, which keeps every case analysis short.

  predicate InGroup0(i: Instruction) {
    i.End? || i.Mov? || i.OpInc? || i.OpDec? || i.OpPlus? || i.OpMinus? || i.OpMul? || i.OpDiv?
  }

  predicate InGroup1(i: Instruction) {
    i.OpMod? || i.OpExp? || i.OpEq? || i.OpNe? || i.OpTripleEq? || i.OpTripleNe? || i.OpAnd? ||
    i.OpOr?
  }

  predicate InGroup2(i: Instruction) {
    i.OpNot? || i.OpLess? || i.OpLessEq? || i.OpGreater? || i.OpGreaterEq? ||
    i.OpNullishCoalesce? || i.OpOptionalChain? || i.OpBitAnd?
  }

  predicate InGroup3(i: Instruction) {
    i.OpBitOr? || i.OpBitNot? || i.OpBitXor? || i.OpLeftShift? || i.OpRightShift? ||
    i.OpRightShiftUnsigned? || i.TypeOf? || i.InstanceOf?
  }

  predicate InGroup4(i: Instruction) {
    i.In? || i.Call? || i.Apply? || i.Bind? || i.Sub? || i.SubMov? || i.SubCall? || i.Jmp?
  }

  predicate InGroup5(i: Instruction) {
    i.JmpIf? || i.UnaryPlus? || i.UnaryMinus? || i.New? || i.Throw? || i.Import? ||
    i.ImportStar? || i.SetCatch?
  }

  predicate InGroup6(i: Instruction) {
    i.UnsetCatch? || i.ConstSubCall? || i.RequireMutableThis? || i.ThisSubCall? || i.Next? ||
    i.UnpackIterRes? || i.Cat? || i.Yield?
  }

  lemma ByteDeterminesMnemonicFrom1(i: Instruction)
    requires !InGroup0(i)
    ensures OpcodeMnemonic(Byte(i)) == Some(Mnemonic(i))
  {
    if !InGroup1(i) {
      ByteDeterminesMnemonicFrom2(i);
    }
  }

  lemma ByteDeterminesMnemonicFrom2(i: Instruction)
    requires !InGroup0(i) && !InGroup1(i)
    ensures OpcodeMnemonic(Byte(i)) == Some(Mnemonic(i))
  {
    if !InGroup2(i) {
      ByteDeterminesMnemonicFrom3(i);
    }
  }

  lemma ByteDeterminesMnemonicFrom3(i: Instruction)
    requires !InGroup0(i) && !InGroup1(i) && !InGroup2(i)
    ensures OpcodeMnemonic(Byte(i)) == Some(Mnemonic(i))
  {
    if !InGroup3(i) {
      ByteDeterminesMnemonicFrom4(i);
    }
  }

  lemma ByteDeterminesMnemonicFrom4(i: Instruction)
    requires !InGroup0(i) && !InGroup1(i) && !InGroup2(i) && !InGroup3(i)
    ensures OpcodeMnemonic(Byte(i)) == Some(Mnemonic(i))
  {
    if !InGroup4(i) {
      ByteDeterminesMnemonicFrom5(i);
    }
  }

  lemma ByteDeterminesMnemonicFrom5(i: Instruction)
    requires !InGroup0(i) && !InGroup1(i) && !InGroup2(i) && !InGroup3(i) && !InGroup4(i)
    ensures OpcodeMnemonic(Byte(i)) == Some(Mnemonic(i))
  {
    if !InGroup5(i) {
      ByteDeterminesMnemonicFrom6(i);
    }
  }

  lemma ByteDeterminesMnemonicFrom6(i: Instruction)
    requires !InGroup0(i) && !InGroup1(i) && !InGroup2(i)
    requires !InGroup3(i) && !InGroup4(i) && !InGroup5(i)
    ensures OpcodeMnemonic(Byte(i)) == Some(Mnemonic(i))
  {
    if !InGroup6(i) {
      ByteDeterminesMnemonicFrom7(i);
    }
  }

  lemma ByteDeterminesMnemonicFrom7(i: Instruction)
    requires !InGroup0(i) && !InGroup1(i) && !InGroup2(i) && !InGroup3(i)
    requires !InGroup4(i) && !InGroup5(i) && !InGroup6(i)
    ensures OpcodeMnemonic(Byte(i)) == Some(Mnemonic(i))
  {
  }

  /** Instructions that print with different mnemonics are given different opcodes. */
  lemma DistinctKindsDistinctBytes(a: Instruction, b: Instruction)
    requires Mnemonic(a) != Mnemonic(b)
    ensures Byte(a) != Byte(b)
  {
    ByteDeterminesMnemonic(a);
    ByteDeterminesMnemonic(b);
  }

  // ---------------------------------------------------------------------------
  // Visitors.
  // ---------------------------------------------------------------------------

  /** One operand handed to the field visitor. */
  datatype Field = ValueField(value: Value) | RegisterField(register: Register) | LabelRefField(labelRef: LabelRef)

  /** The instruction writes its result to a `dst` register, its last operand. */
  predicate HasDst(i: Instruction) {
    !(i.End? || i.OpInc? || i.OpDec? || i.Jmp? || i.JmpIf? || i.Throw?
      || i.UnpackIterRes? || i.UnsetCatch? || i.RequireMutableThis?)
  }

  /**
   * `visit_fields_mut`: the operands in the order the visitor receives them.
   * Only `End`, `UnsetCatch` and `RequireMutableThis` have none, and every
   * instruction that writes a register visits it last.
   */
  function Fields(i: Instruction): (fs: seq<Field>)
    ensures fs == [] <==> i.End? || i.UnsetCatch? || i.RequireMutableThis?
    ensures fs != [] && !(i.Jmp? || i.JmpIf? || i.Throw?) ==> fs[|fs| - 1].RegisterField?
    ensures HasDst(i) ==> fs[|fs| - 1] == RegisterField(i.dst)
    ensures i.OpInc? || i.OpDec? ==> fs == [RegisterField(i.register)]
    ensures i.UnpackIterRes? ==> fs[1..] == [RegisterField(i.valueDst), RegisterField(i.doneDst)]
  {
    match i
    case End => []
    case Mov(a, d) => [ValueField(a), RegisterField(d)]
    case OpNot(a, d) => [ValueField(a), RegisterField(d)]
    case OpBitNot(a, d) => [ValueField(a), RegisterField(d)]
    case TypeOf(a, d) => [ValueField(a), RegisterField(d)]
    case UnaryPlus(a, d) => [ValueField(a), RegisterField(d)]
    case UnaryMinus(a, d) => [ValueField(a), RegisterField(d)]
    case Import(a, d) => [ValueField(a), RegisterField(d)]
    case ImportStar(a, d) => [ValueField(a), RegisterField(d)]
    case Cat(a, d) => [ValueField(a), RegisterField(d)]
    case Yield(a, d) => [ValueField(a), RegisterField(d)]
    case YieldStar(a, d) => [ValueField(a), RegisterField(d)]
    case OpInc(r) => [RegisterField(r)]
    case OpDec(r) => [RegisterField(r)]
    case OpPlus(l, r, d) => [ValueField(l), ValueField(r), RegisterField(d)]
    case OpMinus(l, r, d) => [ValueField(l), ValueField(r), RegisterField(d)]
    case OpMul(l, r, d) => [ValueField(l), ValueField(r), RegisterField(d)]
    case OpDiv(l, r, d) => [ValueField(l), ValueField(r), RegisterField(d)]
    case OpMod(l, r, d) => [ValueField(l), ValueField(r), RegisterField(d)]
    case OpExp(l, r, d) => [ValueField(l), ValueField(r), RegisterField(d)]
    case OpEq(l, r, d) => [ValueField(l), ValueField(r), RegisterField(d)]
    case OpNe(l, r, d) => [ValueField(l), ValueField(r), RegisterField(d)]
    case OpTripleEq(l, r, d) => [ValueField(l), ValueField(r), RegisterField(d)]
    case OpTripleNe(l, r, d) => [ValueField(l), ValueField(r), RegisterField(d)]
    case OpAnd(l, r, d) => [ValueField(l), ValueField(r), RegisterField(d)]
    case OpOr(l, r, d) => [ValueField(l), ValueField(r), RegisterField(d)]
    case OpLess(l, r, d) => [ValueField(l), ValueField(r), RegisterField(d)]
    case OpLessEq(l, r, d) => [ValueField(l), ValueField(r), RegisterField(d)]
    case OpGreater(l, r, d) => [ValueField(l), ValueField(r), RegisterField(d)]
    case OpGreaterEq(l, r, d) => [ValueField(l), ValueField(r), RegisterField(d)]
    case OpNullishCoalesce(l, r, d) => [ValueField(l), ValueField(r), RegisterField(d)]
    case OpOptionalChain(l, r, d) => [ValueField(l), ValueField(r), RegisterField(d)]
    case OpBitAnd(l, r, d) => [ValueField(l), ValueField(r), RegisterField(d)]
    case OpBitOr(l, r, d) => [ValueField(l), ValueField(r), RegisterField(d)]
    case OpBitXor(l, r, d) => [ValueField(l), ValueField(r), RegisterField(d)]
    case OpLeftShift(l, r, d) => [ValueField(l), ValueField(r), RegisterField(d)]
    case OpRightShift(l, r, d) => [ValueField(l), ValueField(r), RegisterField(d)]
    case OpRightShiftUnsigned(l, r, d) => [ValueField(l), ValueField(r), RegisterField(d)]
    case InstanceOf(l, r, d) => [ValueField(l), ValueField(r), RegisterField(d)]
    case In(l, r, d) => [ValueField(l), ValueField(r), RegisterField(d)]
    case Call(l, r, d) => [ValueField(l), ValueField(r), RegisterField(d)]
    case Bind(l, r, d) => [ValueField(l), ValueField(r), RegisterField(d)]
    case Sub(l, r, d) => [ValueField(l), ValueField(r), RegisterField(d)]
    case SubMov(l, r, d) => [ValueField(l), ValueField(r), RegisterField(d)]
    case New(l, r, d) => [ValueField(l), ValueField(r), RegisterField(d)]
    case Apply(a1, a2, a3, d) => [ValueField(a1), ValueField(a2), ValueField(a3), RegisterField(d)]
    case SubCall(a1, a2, a3, d) => [ValueField(a1), ValueField(a2), ValueField(a3), RegisterField(d)]
    case ConstSubCall(a1, a2, a3, d) => [ValueField(a1), ValueField(a2), ValueField(a3), RegisterField(d)]
    case ThisSubCall(a1, a2, a3, d) => [ValueField(a1), ValueField(a2), ValueField(a3), RegisterField(d)]
    case Jmp(t) => [LabelRefField(t)]
    case JmpIf(c, t) => [ValueField(c), LabelRefField(t)]
    case Throw(e) => [ValueField(e)]
    case SetCatch(t, d) => [LabelRefField(t), RegisterField(d)]
    case Next(it, d) => [RegisterField(it), RegisterField(d)]
    case UnpackIterRes(r, vd, dd) => [RegisterField(r), RegisterField(vd), RegisterField(dd)]
    case UnsetCatch => []
    case RequireMutableThis => []
  }

  /**
   * `Value::visit_values_mut`, as the sequence of values the callback sees
   * (with a callback that changes nothing): the value itself first, then the
   * array items in order, or each object key followed by its value.
   */
  function VisitOrder(v: Value): (r: seq<Value>)
    ensures |r| >= 1 && r[0] == v
    ensures !v.Array? && !v.Object? ==> r == [v]
    decreases v, 1
  {
    match v
    case Array(values) => [v] + VisitItems(values)
    case Object(properties) => [v] + VisitProperties(properties)
    case _ => [v]
  }

  function VisitItems(values: seq<Value>): seq<Value>
    decreases values, 0
  {
    if values == [] then [] else VisitOrder(values[0]) + VisitItems(values[1..])
  }

  function VisitProperties(properties: seq<(Value, Value)>): seq<Value>
    decreases properties, 0
  {
    if properties == [] then [] else VisitProperty(properties[0]) + VisitProperties(properties[1..])
  }

  function VisitProperty(p: (Value, Value)): seq<Value>
    decreases p, 2
  {
    VisitOrder(p.0) + VisitOrder(p.1)
  }

  /** `x` is `v` or sits somewhere inside it. */
  predicate Within(x: Value, v: Value)
    decreases v, 1
  {
    x == v
    || (v.Array? && WithinItems(x, v.values))
    || (v.Object? && WithinProperties(x, v.properties))
  }

  predicate WithinItems(x: Value, values: seq<Value>)
    decreases values, 0
  {
    values != [] && (Within(x, values[0]) || WithinItems(x, values[1..]))
  }

  predicate WithinProperties(x: Value, properties: seq<(Value, Value)>)
    decreases properties, 0
  {
    properties != [] && (WithinProperty(x, properties[0]) || WithinProperties(x, properties[1..]))
  }

  predicate WithinProperty(x: Value, p: (Value, Value))
    decreases p, 2
  {
    Within(x, p.0) || Within(x, p.1)
  }

  /** The visitor sees exactly the value and everything inside it. */
  lemma {:induction false} VisitOrderIsSubvalues(x: Value, v: Value)
    ensures x in VisitOrder(v) <==> Within(x, v)
    decreases v, 3
  {
    match v
    case Array(values) => VisitItemsAreSubvalues(x, values);
    case Object(properties) => VisitPropertiesAreSubvalues(x, properties);
    case _ =>
  }

  lemma {:induction false} VisitItemsAreSubvalues(x: Value, values: seq<Value>)
    ensures x in VisitItems(values) <==> WithinItems(x, values)
    decreases values, 2
  {
    if values != [] {
      VisitOrderIsSubvalues(x, values[0]);
      VisitItemsAreSubvalues(x, values[1..]);
    }
  }

  lemma {:induction false} VisitPropertiesAreSubvalues(x: Value, properties: seq<(Value, Value)>)
    ensures x in VisitProperties(properties) <==> WithinProperties(x, properties)
    decreases properties, 2
  {
    if properties != [] {
      VisitPropertyAreSubvalues(x, properties[0]);
      VisitPropertiesAreSubvalues(x, properties[1..]);
    }
  }

  lemma {:induction false} VisitPropertyAreSubvalues(x: Value, p: (Value, Value))
    ensures x in VisitProperty(p) <==> WithinProperty(x, p)
    decreases p, 3
  {
    VisitOrderIsSubvalues(x, p.0);
    VisitOrderIsSubvalues(x, p.1);
  }

  // ---------------------------------------------------------------------------
  // Object key lookup.
  // ---------------------------------------------------------------------------

  /**
   * What `try_resolve_key` finds, read from the end: the last property whose
   * key is either the string `key` or not a string at all decides; a string
   * match gives its value, a non-string key gives nothing.
   */
  function ResolvedKey(properties: seq<(Value, Value)>, key: string): Option<Value> {
    if properties == [] then None
    else
      var last := properties[|properties| - 1];
      if last.0 == String(key) then Some(last.1)
      else if !last.0.String? then None
      else ResolvedKey(properties[..|properties| - 1], key)
  }

  /** Property `j` is `(key, v)` and every later key is a different string. */
  predicate LastMatch(properties: seq<(Value, Value)>, key: string, j: int, v: Value) {
    0 <= j < |properties| && properties[j] == (String(key), v)
    && forall k :: j < k < |properties| ==> properties[k].0.String? && properties[k].0 != String(key)
  }

  /**
   * The lookup finds `v` exactly when some property `(key, v)` is followed
   * only by string keys different from `key`.
   */
  lemma {:induction false} ResolvedKeyIsLastMatch(properties: seq<(Value, Value)>, key: string, v: Value)
    ensures ResolvedKey(properties, key) == Some(v)
        <==> exists j :: LastMatch(properties, key, j, v)
  {
    if properties != [] {
      var n := |properties| - 1;
      var init := properties[..n];
      ResolvedKeyIsLastMatch(init, key, v);
      if ResolvedKey(properties, key) == Some(v) {
        if properties[n].0 == String(key) {
          assert properties[n] == (String(key), v);
          assert LastMatch(properties, key, n, v);
        } else {
          var j :| LastMatch(init, key, j, v);
          assert properties[j] == (String(key), v);
          assert LastMatch(properties, key, j, v);
        }
      } else {
        if j :| LastMatch(properties, key, j, v) {
          if j == n {
            assert false;
          } else {
            assert init[j] == properties[j];
            assert forall k :: j < k < |init| ==> init[k] == properties[k];
            assert LastMatch(init, key, j, v);
            assert false;
          }
        }
      }
    }
  }

  /** `Object::try_resolve_key`: one pass over the properties, forgetting a match at every non-string key. */
  method TryResolveKey(properties: seq<(Value, Value)>, key: string) returns (result: Option<Value>)
    ensures result == ResolvedKey(properties, key)
  {
    result := None;
    var i := 0;
    while i < |properties|
      invariant 0 <= i <= |properties|
      invariant result == ResolvedKey(properties[..i], key)
    {
      var (k, v) := properties[i];
      if k.String? {
        if k.s == key {
          result := Some(v);
        }
      } else {
        result := None;
      }
      assert properties[..i + 1][..i] == properties[..i];
      i := i + 1;
    }
    assert properties[..i] == properties;
  }

  // ---------------------------------------------------------------------------
  // Functions.
  // ---------------------------------------------------------------------------

  datatype FnLine = InstructionLine(instruction: Instruction) | LabelLine(target: Label) | EmptyLine | CommentLine(message: string)

  datatype Function = Function(isGenerator: bool, parameters: seq<Register>, body: seq<FnLine>)

  /** An instruction's text: its mnemonic, then its operands in visiting order. */
  function InstructionText(i: Instruction, leaf: Value -> string): string {
    Mnemonic(i) + OperandsText(Fields(i), leaf)
  }

  function OperandsText(fs: seq<Field>, leaf: Value -> string): string {
    if fs == [] then ""
    else
      var f := fs[0];
      var text := match f
        case ValueField(v) => ValueText(v, leaf)
        case RegisterField(r) => RegisterText(r)
        case LabelRefField(l) => LabelRefText(l);
      " " + text + OperandsText(fs[1..], leaf)
  }

  /** One body line as the function's loop writes it, newline included. */
  function LineText(line: FnLine, leaf: Value -> string): string {
    match line
    case InstructionLine(i) => "  " + InstructionText(i, leaf) + "\n"
    case LabelLine(l) => LabelText(l) + "\n"
    case EmptyLine => "\n"
    case CommentLine(m) => "  // " + m + "\n"
  }

  function LineTexts(body: seq<FnLine>, leaf: Value -> string): seq<string> {
    seq(|body|, i requires 0 <= i < |body| => LineText(body[i], leaf))
  }

  /** The lines' texts one after another. */
  function BodyText(body: seq<FnLine>, leaf: Value -> string): string {
    Concat(LineTexts(body, leaf))
  }

  function ParameterTexts(parameters: seq<Register>): (r: seq<string>)
    ensures |r| == |parameters|
    ensures forall i :: 0 <= i < |parameters| ==> r[i] == RegisterText(parameters[i])
  {
    if parameters == [] then [] else [RegisterText(parameters[0])] + ParameterTexts(parameters[1..])
  }

  /** The keyword that opens a function's text. */
  function Opening(isGenerator: bool): string {
    if isGenerator then "function*(" else "function("
  }

  /** `Display for Function`: the heading with the parameters, one line per body line, and `}`. */
  function FunctionText(f: Function, leaf: Value -> string): (s: string)
    ensures |s| > 0 && s[|s| - 1] == '}'
  {
    Opening(f.isGenerator) + Join(ParameterTexts(f.parameters), ", ") + ") {\n" + BodyText(f.body, leaf) + "}"
  }

  /**
   * `Display for Function` as it writes: the opening, the parameters with
   * `, ` before every one but the first, `) {` and a newline, each body line,
   * then `}`.
   */
  method WriteFunction(f: Function, leaf: Value -> string) returns (out: string)
    ensures out == FunctionText(f, leaf)
  {
    var opening := if f.isGenerator then "function*(" else "function(";
    out := AppendJoined(opening, ParameterTexts(f.parameters), ", ");
    out := out + ") {\n";
    out := AppendAll(out, LineTexts(f.body, leaf));
    out := out + "}";
  }

  /** Whatever follows it, the opening tells a generator from a plain function. */
  lemma OpeningDistinguishes(isGenerator: bool, rest: string)
    ensures |Opening(isGenerator) + rest| >= 9
    ensures (Opening(isGenerator) + rest)[..9] == "function(" <==> !isGenerator
  {
    if isGenerator {
      assert (Opening(isGenerator) + rest)[8] == '*';
    }
  }

  /** A function's text opens with `function(` exactly when it is not a generator. */
  lemma FunctionTextHeading(f: Function, leaf: Value -> string)
    ensures |FunctionText(f, leaf)| >= 9
    ensures FunctionText(f, leaf)[..9] == "function(" <==> !f.isGenerator
  {
    var rest := Join(ParameterTexts(f.parameters), ", ") + ") {\n" + BodyText(f.body, leaf) + "}";
    assert FunctionText(f, leaf) == Opening(f.isGenerator) + rest;
    OpeningDistinguishes(f.isGenerator, rest);
  }
}
