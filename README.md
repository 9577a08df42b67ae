# ValueScript core, modelled in Dafny

ValueScript is a TypeScript dialect with value semantics. Its compiler turns
source code into an assembly language, the assembler writes that as bytecode,
and a register-based virtual machine runs the bytecode. This project models
the byte-level and bookkeeping core of that toolchain and proves what each
part promises:

- **Bytecode decoding** (`BytecodeDecoder`, `BytecodeEncoding`, `InstructionBytes`).
  - The type-tag table and the opcode table.
  - A decoder class whose cursor walks the bytecode. It reads varsize integers, jump positions, register indices, signed bytes, strings, bigints, functions, pointers, arrays and objects.
  - Each decoding method is proved to agree with a pure reading function.
  - Each reading function is proved to invert an encoder: every void, undefined, null, boolean, number, string and bigint literal whose lengths fit in a `usize`, written anywhere, decodes back to itself.
- **Assembly IR** (`Asm`).
  - Registers, labels and how each is printed.
  - The instruction-to-opcode table, proved to agree with the VM's decoding table.
  - The operand visitor and the value visitor.
  - How arrays, objects and functions are printed.
  - The last-match-wins key lookup `try_resolve_key`.
- **Bytecode stack frame** (`StackFrame`): a class with the frame's registers, parameter window, call-result targets, catch handler and decoder cursor.
  - Its methods update those fields in place.
  - They are proved equal to functions of the frame state.
  - Lemmas give the behaviour of each control instruction.
- **New compiler's expression bookkeeping** (`ExpressionCompiler`).
  - The operator tables.
  - How call arguments are split into `cat` segments.
  - The code shape of template literals, executed on a small string semantics.
- **Legacy compiler** (`LegacyFunctionCompiler`, `LegacyExpressionCompiler`).
  - The statement compiler and its loop-label stack.
  - The function heading.
  - The capture closure for hoisted functions, computed breadth-first.
  - The FIFO queue of functions to compile.
  - The `var`/`let`/`const` scope split.
  - The mnemonic tables, literal and identifier printing, array literals, and write-back of nested assignment targets.
- **Legacy virtual machine** (`LegacyVirtualMachine`): a frame stack with `new`, `pop`, `step` and a `run` loop bounded by fuel.
- **Native builtins** (`ArrayBuiltin`, `ArrayMap`, `NativeFunction`).
  - `Array(...)`, `Array.of`, `Array.isArray` and `Array.from`.
  - The accumulator of `Array.prototype.map`.
  - The const-`this` guard of native functions.
- **The Fibonacci benchmark** (`Fib`): C++ `int` recursion, with overflow made explicit.

Shared modules: `Wrappers` (Option, and Result with a `Panic` case for where the source panics), `Bytes`, `Float64` (IEEE-754 doubles as 64-bit patterns), `Values` (the VM's runtime values), `Text` and `Operators`.

## Model

| member | source | states |
|---|---|---|
| Float64.TruncatedIntegral | valuescript_vm/src/builtins/array_builtin.rs:116-120 | Casting a finite whole number to an integer (as `as usize` does) gives exactly its magnitude. |
| Float64.FromSmallIntExact | valuescript_vm/src/bytecode_decoder.rs:175-179 | `k as f64` is exact for every `i8`: the result is finite, integral, and has value `k`. |
| BytecodeDecoder.TypeTag | valuescript_vm/src/bytecode_decoder.rs:27-47 | Each type's declared tag; only `Unrecognized` has 0xff. |
| BytecodeDecoder.TypeFromByte | valuescript_vm/src/bytecode_decoder.rs:50-77 | A byte gives `Unrecognized` exactly when it is unassigned (0x0c, 0x0f, 0x12 or above 0x14). Every other byte gives the type whose tag it is. |
| BytecodeDecoder.TypeTagRoundTrip | valuescript_vm/src/bytecode_decoder.rs:27-77 | Every named type reads back from its tag. |
| BytecodeDecoder.VarsizeEnd | valuescript_vm/src/bytecode_decoder.rs:215-229 | A varsize integer ends at the first byte with the high bit clear; every earlier byte has it set. No end exists exactly when every remaining byte has it set. |
| BytecodeDecoder.ReadPos | valuescript_vm/src/bytecode_decoder.rs:231-235 | A position is below 65536 and takes exactly two bytes. |
| BytecodeDecoder.ReadRegisterIndex | valuescript_vm/src/bytecode_decoder.rs:237-246 | Reading a register index consumes one byte. It gives no register exactly for 0xff, and otherwise an index of at most 254. |
| BytecodeDecoder.ReadSignedByte | valuescript_vm/src/bytecode_decoder.rs:175-179 | The value is in [-128, 127], is congruent to the byte modulo 256, and takes one byte. |
| BytecodeDecoder.ReadBytes | valuescript_vm/src/bytecode_decoder.rs:205-213 | A string ends exactly at the end of its varsize length plus its payload length. |
| BytecodeDecoder.ReadBigInt | valuescript_vm/src/bytecode_decoder.rs:189-203 | Succeeds exactly for sign bytes 0, 1 and 2 followed by a readable magnitude. A negative result needs sign 0 and a positive one sign 2. |
| BytecodeDecoder.ParseVal | valuescript_vm/src/bytecode_decoder.rs:99-161 | A decoded value consumes at least one byte, stays in the bytecode, and never starts at an `End` tag. |
| BytecodeDecoder.ParseTagged | valuescript_vm/src/bytecode_decoder.rs:99-157 | No value has type `End`, and a payload stays in the bytecode. A builtin index outside `BUILTIN_VALS` is a failure, as the source's out-of-range index panics. |
| BytecodeDecoder.ParsePointer | valuescript_vm/src/bytecode_decoder.rs:255-290 | A pointer consumes bytes and stays in the bytecode. |
| BytecodeDecoder.ParseVec | valuescript_vm/src/bytecode_decoder.rs:163-173 | A value list ends just after an `End` tag, which it consumes. |
| BytecodeDecoder.ParseProps | valuescript_vm/src/bytecode_decoder.rs:113-138 | An object's properties end just after an `End` tag, which they consume. |
| BytecodeDecoder.Decoder.At | valuescript_vm/src/bytecode_decoder.rs:248-253 | `clone_at`: the same bytecode, with the cursor at the given position. |
| BytecodeDecoder.Decoder.DecodeByte | valuescript_vm/src/bytecode_decoder.rs:81-85 | Returns the byte at the cursor and advances the cursor by one; fails past the end. |
| BytecodeDecoder.Decoder.PeekByte | valuescript_vm/src/bytecode_decoder.rs:87-89 | Returns the byte at the cursor without moving the cursor. |
| BytecodeDecoder.Decoder.DecodeType | valuescript_vm/src/bytecode_decoder.rs:91-93 | Reads one type tag and advances the cursor by one. |
| BytecodeDecoder.Decoder.PeekType | valuescript_vm/src/bytecode_decoder.rs:95-97 | Reads the type tag at the cursor without moving the cursor. |
| BytecodeDecoder.Decoder.DecodeVarsizeUint | valuescript_vm/src/bytecode_decoder.rs:215-229 | Its loop computes the varsize value and leaves the cursor where the reading function stops. It fails where the source's checked `usize` arithmetic panics: a value of 2^64 or more, or a tenth byte with its continuation bit set. |
| BytecodeDecoder.Decoder.DecodePos | valuescript_vm/src/bytecode_decoder.rs:231-235 | Agrees with `ReadPos`. |
| BytecodeDecoder.Decoder.DecodeRegisterIndex | valuescript_vm/src/bytecode_decoder.rs:237-246 | Agrees with `ReadRegisterIndex`. |
| BytecodeDecoder.Decoder.DecodeSignedByte | valuescript_vm/src/bytecode_decoder.rs:175-179 | Agrees with `ReadSignedByte`. |
| BytecodeDecoder.Decoder.DecodeNumber | valuescript_vm/src/bytecode_decoder.rs:181-187 | Reads the eight little-endian bytes of a double and advances the cursor by eight. |
| BytecodeDecoder.Decoder.DecodeString | valuescript_vm/src/bytecode_decoder.rs:205-213 | Agrees with `ReadBytes`. |
| BytecodeDecoder.Decoder.DecodeBigInt | valuescript_vm/src/bytecode_decoder.rs:189-203 | Agrees with `ReadBigInt`, including its failure on any other sign byte. |
| BytecodeDecoder.Decoder.DecodeFunction | valuescript_vm/src/bytecode_decoder.rs:292-306 | Reads the register count and the parameter count. |
| BytecodeDecoder.Decoder.DecodeInstruction | valuescript_vm/src/bytecode_decoder.rs:308-310 | Reads one opcode through `from_byte`. |
| BytecodeDecoder.Decoder.DecodeVal | valuescript_vm/src/bytecode_decoder.rs:99-161 | Agrees with `ParseVal`: the same value and the same final cursor. |
| BytecodeDecoder.Decoder.DecodePointer | valuescript_vm/src/bytecode_decoder.rs:255-290 | Decodes the target with a second decoder, and this decoder only skips the two pointer bytes. Agrees with `ParsePointer`. |
| BytecodeDecoder.Decoder.DecodeVecVal | valuescript_vm/src/bytecode_decoder.rs:163-173 | Its loop agrees with `ParseVec`. |
| BytecodeDecoder.Decoder.DecodeProps | valuescript_vm/src/bytecode_decoder.rs:113-138 | Its loop agrees with `ParseProps`. |
| BytecodeEncoding.EncodeVarsize | valuescript_vm/src/bytecode_decoder.rs:215-229 | A varsize encoding is never empty. |
| BytecodeEncoding.ToVal | valuescript_vm/src/bytecode_decoder.rs:99-112 | A literal stands for a void, undefined, null, boolean, number, string or bigint value; only the void literal stands for void. |
| BytecodeEncoding.EncodeVal | valuescript_vm/src/bytecode_decoder.rs:99-112 | An encoded literal is non-empty and does not start with the `End` tag. |
| BytecodeEncoding.VarsizeRoundTrip | valuescript_vm/src/bytecode_decoder.rs:215-229 | A varsize integer reads back as itself and consumes exactly its encoding. A single byte below 128 is its own value. |
| BytecodeEncoding.PosRoundTrip | valuescript_vm/src/bytecode_decoder.rs:231-235 | A position reads back as itself and consumes two bytes. |
| BytecodeEncoding.SignedByteRoundTrip | valuescript_vm/src/bytecode_decoder.rs:175-179 | A signed byte reads back as itself. |
| BytecodeEncoding.RegisterIndexRoundTrip | valuescript_vm/src/bytecode_decoder.rs:237-246 | A register index, or its absence, reads back as itself. |
| BytecodeEncoding.BytesRoundTrip | valuescript_vm/src/bytecode_decoder.rs:205-213 | A string reads its length and then exactly that many payload bytes. |
| BytecodeEncoding.LittleEndianRoundTrip | valuescript_vm/src/bytecode_decoder.rs:189-203 | A bigint's magnitude bytes read back as the magnitude. |
| BytecodeEncoding.BigIntRoundTrip | valuescript_vm/src/bytecode_decoder.rs:189-203 | A bigint (sign byte and magnitude) reads back as itself. |
| BytecodeEncoding.ValRoundTrip | valuescript_vm/src/bytecode_decoder.rs:99-161 | Every void, undefined, null, boolean, number, string or bigint literal whose lengths fit in a `usize`, written anywhere in any bytecode, decodes to the value it stands for. The cursor ends just past its encoding, whatever the registers and the pointer fuel. |
| BytecodeEncoding.ConstantValRoundTrip | valuescript_vm/src/bytecode_decoder.rs:104-112 | The same round trip for void, undefined, null and the booleans. |
| BytecodeEncoding.StringValRoundTrip | valuescript_vm/src/bytecode_decoder.rs:99-112 | The same round trip for string literals. |
| BytecodeEncoding.BigIntValRoundTrip | valuescript_vm/src/bytecode_decoder.rs:99-112 | The same round trip for bigint literals. |
| BytecodeEncoding.NumberValRoundTrip | valuescript_vm/src/bytecode_decoder.rs:99-112 | The same round trip for number literals. |
| BytecodeEncoding.EncodeVarsizeLength | valuescript_vm/src/bytecode_decoder.rs:215-229 | A number below 128^k takes at most k varsize bytes, so every `usize` fits in ten. |
| BytecodeEncoding.FixedLittleEndianRoundTrip | valuescript_vm/src/bytecode_decoder.rs:181-187 | k little-endian bytes of a number below 256^k read back as that number. |
| BytecodeEncoding.BitsFields | valuescript_vm/src/bytecode_decoder.rs:181-187 | The sign, the exponent and the fraction of a double each sit in their own bits of its 64-bit pattern. |
| BytecodeEncoding.NumberRoundTrip | valuescript_vm/src/bytecode_decoder.rs:181-187 | `f64::from_le_bytes` of a double's own eight bytes gives the double back and consumes eight bytes. |
| InstructionBytes.Discriminant | valuescript_common/src/instruction_byte.rs:2-62 | Every opcode's declared discriminant is at most 0x3a. |
| InstructionBytes.FromByte | valuescript_common/src/instruction_byte.rs:65-129 | `from_byte` accepts exactly the bytes up to 0x3a and panics (None) above them. |
| InstructionBytes.FromByteDiscriminant | valuescript_common/src/instruction_byte.rs:2-127 | Decoding an opcode's discriminant gives the opcode back. |
| InstructionBytes.DiscriminantFromByte | valuescript_common/src/instruction_byte.rs:2-127 | Every accepted byte is the discriminant of the opcode it decodes to. |
| InstructionBytes.DiscriminantInjective | valuescript_common/src/instruction_byte.rs:2-62 | Distinct opcodes have distinct discriminants, so `from_byte` is injective on the accepted bytes. |
| Asm.IsReturn | valuescript_compiler/src/asm.rs:236-238 | `is_return`: the register's name is `return`. |
| Asm.IsThis | valuescript_compiler/src/asm.rs:240-242 | `is_this`: the register's name is `this`. |
| Asm.IsNamed | valuescript_compiler/src/asm.rs:244-249 | `is_named`: the name is none of `return`, `this` and `ignore`; `NamedIffNotSpecial` relates it to the other three. |
| Asm.IsIgnore | valuescript_compiler/src/asm.rs:251-253 | `is_ignore`: the register's name is `ignore`. |
| Asm.Take | valuescript_compiler/src/asm.rs:229-234 | `take`: the same name with the take flag set; `TakeKeepsRegister` states what it keeps. |
| Asm.ReturnRegister | valuescript_compiler/src/asm.rs:204-209 | `return_()` is the return register: not named, not taken. |
| Asm.ThisRegister | valuescript_compiler/src/asm.rs:211-216 | `this()` is the this register: not named, not taken. |
| Asm.IgnoreRegister | valuescript_compiler/src/asm.rs:222-227 | `ignore()` is the ignore register: not named, not taken. |
| Asm.NamedRegister | valuescript_compiler/src/asm.rs:218-220 | `named(n)` has name `n` and is not taken. |
| Asm.TakeKeepsRegister | valuescript_compiler/src/asm.rs:229-254 | `take` keeps the name, and so every `is_*` predicate. It sets the take flag and is idempotent. |
| Asm.NamedIffNotSpecial | valuescript_compiler/src/asm.rs:236-253 | `is_named` holds exactly when none of `is_return`, `is_this` and `is_ignore` does. |
| Asm.RegisterText | valuescript_compiler/src/asm.rs:264-274 | A register prints as `%`, then `!` when taken, then its name. |
| Asm.RegisterTextRoundTrip | valuescript_compiler/src/asm.rs:264-274 | A register whose name does not start with `!` is read back from its text. |
| Asm.RegisterTextInjective | valuescript_compiler/src/asm.rs:264-274 | Two such registers that print alike are the same register. |
| Asm.Ref | valuescript_compiler/src/asm.rs:306-312 | `ref_` names the same label. |
| Asm.LabelAndRefText | valuescript_compiler/src/asm.rs:314-330 | A label prints as `name:` and a reference to it as `:name`. |
| Asm.ValueText | valuescript_compiler/src/asm.rs:827-863 | `Display for Value`: each constant by its keyword, a bigint with an `n`, a pointer after `@`, a builtin after `$`, arrays and objects through their own printing; numbers and strings go through the `leaf` parameter. |
| Asm.ArrayText | valuescript_compiler/src/asm.rs:898-909 | An array prints between brackets, and as `[]` when empty. |
| Asm.WriteArray | valuescript_compiler/src/asm.rs:898-909 | The writing loop (`[`, each item with `, ` before all but the first, `]`) produces exactly the items' texts joined by `, ` between brackets. |
| Asm.ItemTexts | valuescript_compiler/src/asm.rs:898-909 | Each item is printed as a value, in order. |
| Asm.ObjectText | valuescript_compiler/src/asm.rs:916-931 | An object prints between braces, and as `{}` exactly when it has no properties. |
| Asm.WriteObject | valuescript_compiler/src/asm.rs:916-931 | The writing loop produces `{}` for no properties, and otherwise the `key: value` texts joined by `, ` between `{ ` and ` }`. |
| Asm.PropertyTexts | valuescript_compiler/src/asm.rs:916-931 | One entry per property, in order, each the key's text, `: `, and the value's text. |
| Asm.Mnemonic | valuescript_compiler/src/asm.rs:506-681 | The mnemonic each instruction prints first; `ByteDeterminesMnemonic` ties it to the opcode table. |
| Asm.InstructionText | valuescript_compiler/src/asm.rs:506-681 | An instruction prints as its mnemonic followed by its fields, in visiting order. |
| Asm.Byte | valuescript_compiler/src/asm.rs:683-746 | `byte` is total and never produces `ConstApply` or `JmpIfNot`. |
| Asm.AssemblerAgreesWithVm | valuescript_compiler/src/asm.rs:683-746 | The VM's `from_byte` decodes every opcode the assembler writes back to itself. |
| Asm.ByteDeterminesMnemonic | valuescript_compiler/src/asm.rs:506-746 | The opcode table and the printing table classify instructions alike. |
| Asm.DistinctKindsDistinctBytes | valuescript_compiler/src/asm.rs:506-746 | Instructions that print with different mnemonics get different opcodes. |
| Asm.Fields | valuescript_compiler/src/asm.rs:399-503 | Only `End`, `UnsetCatch` and `RequireMutableThis` visit no field. Every instruction that writes a register visits that destination register last; `op++` and `op--` visit only their register; `unpack_iter_res` visits its iterator result, then the value register, then the done register. |
| Asm.VisitOrder | valuescript_compiler/src/asm.rs:795-825 | The visitor sees the value itself first; a leaf is visited alone. |
| Asm.VisitOrderIsSubvalues | valuescript_compiler/src/asm.rs:795-825 | The visitor sees exactly the value and the values nested in it. |
| Asm.VisitItemsAreSubvalues | valuescript_compiler/src/asm.rs:802-806 | Visiting array items sees exactly the values inside the items. |
| Asm.VisitPropertiesAreSubvalues | valuescript_compiler/src/asm.rs:807-812 | Visiting properties sees exactly the values inside the keys and the values. |
| Asm.VisitPropertyAreSubvalues | valuescript_compiler/src/asm.rs:808-811 | One property: its key, then its value. |
| Asm.ResolvedKeyIsLastMatch | valuescript_compiler/src/asm.rs:934-950 | The lookup finds `v` exactly when some property `(key, v)` is followed only by string keys different from `key`. |
| Asm.TryResolveKey | valuescript_compiler/src/asm.rs:934-950 | Its loop, which forgets a match at every non-string key, computes that lookup. |
| Asm.ParameterTexts | valuescript_compiler/src/asm.rs:121-126 | Each parameter is printed as its register. |
| Asm.FunctionText | valuescript_compiler/src/asm.rs:114-137 | A function's text ends with `}`. |
| Asm.WriteFunction | valuescript_compiler/src/asm.rs:114-137 | The writing loops (the opening, the parameters with `, ` between them, `) {` and a newline, each body line, `}`) produce exactly the heading with the joined parameter texts, the body lines' texts in order, and `}`. |
| Asm.OpeningDistinguishes | valuescript_compiler/src/asm.rs:116-119 | The opening tells a generator from a plain function, whatever follows it. |
| Asm.FunctionTextHeading | valuescript_compiler/src/asm.rs:114-137 | A function's text starts with `function(` exactly when it is not a generator. |
| StackFrame.Store | valuescript_vm/src/bytecode_stack_frame.rs:142-149 | A register write succeeds exactly in range, writes that register and leaves the others alone. |
| StackFrame.WithParams | valuescript_vm/src/bytecode_stack_frame.rs:122-127 | Writing parameters keeps the window's end and the number of registers. |
| StackFrame.WriteParamWindow | valuescript_vm/src/bytecode_stack_frame.rs:122-127 | `write_param` writes exactly the next parameter register while the window has room, and drops the parameter otherwise. Nothing else changes. |
| StackFrame.WriteParamsFill | valuescript_vm/src/bytecode_stack_frame.rs:122-127 | A list of parameters fills the window from its start, in order, with as many as fit. The rest are dropped and no other register changes. |
| StackFrame.WithParamsFull | valuescript_vm/src/bytecode_stack_frame.rs:122-127 | Once the window is full, every further parameter is dropped. |
| StackFrame.CatchFiresOnce | valuescript_vm/src/bytecode_stack_frame.rs:607-620 | With no handler, `catch_exception` reports false and changes nothing. With one, it stores the exception (unless the handler has no register), moves the cursor to the handler and removes the handler, so a second exception is not caught. |
| StackFrame.ReturnValueWins | valuescript_vm/src/bytecode_stack_frame.rs:587-601 | The call result is written to the `this` target and then the return target, and nothing else changes. When both targets are one register, the return value wins. |
| StackFrame.JmpAlwaysJumps | valuescript_vm/src/bytecode_stack_frame.rs:395-399 | `Jmp` moves the cursor to its target and changes nothing else. |
| StackFrame.JmpIfJumpsWhenTruthy | valuescript_vm/src/bytecode_stack_frame.rs:400-407 | `JmpIf` moves to its target exactly when the condition is truthy, and otherwise falls through. |
| StackFrame.MovToIgnoreKeepsRegisters | valuescript_vm/src/bytecode_stack_frame.rs:142-149 | `Mov` into the ignore register changes no register. |
| StackFrame.MovWritesDestination | valuescript_vm/src/bytecode_stack_frame.rs:142-149 | `Mov` into a register in range writes that register alone. |
| StackFrame.EndPops | valuescript_vm/src/bytecode_stack_frame.rs:135-140 | `End` pops with registers 0 and 1 as the return value and `this`, and leaves both void. |
| StackFrame.ThrowVoidContinues | valuescript_vm/src/bytecode_stack_frame.rs:470-481 | Throwing a register continues when the register holds void, and otherwise raises its value. |
| StackFrame.RequireMutableThisGuards | valuescript_vm/src/bytecode_stack_frame.rs:502-506 | `RequireMutableThis` fails exactly when `this` is const, and changes nothing but the cursor. |
| StackFrame.SetCatchThenCatch | valuescript_vm/src/bytecode_stack_frame.rs:491-497 | After `SetCatch`, a caught exception lands in the handler's register and control resumes at the handler's position. |
| StackFrame.UnsetCatchDisarms | valuescript_vm/src/bytecode_stack_frame.rs:498-501 | After `UnsetCatch`, nothing is caught. |
| StackFrame.BytecodeStackFrame.constructor | valuescript_vm/src/bytecode_stack_frame.rs:19-28 | A new frame has every register void and the parameter window just after `this`. It has no targets and no handler. |
| StackFrame.BytecodeStackFrame.WriteThis | valuescript_vm/src/bytecode_stack_frame.rs:116-120 | Sets register 1 and the const flag; nothing else changes. |
| StackFrame.BytecodeStackFrame.WriteParam | valuescript_vm/src/bytecode_stack_frame.rs:122-127 | Updates the fields as `WithParam` says. |
| StackFrame.BytecodeStackFrame.SetRegister | valuescript_vm/src/bytecode_stack_frame.rs:142-149 | Writes one register, or nothing for the ignore register, or panics out of range. No other field changes. |
| StackFrame.BytecodeStackFrame.CatchException | valuescript_vm/src/bytecode_stack_frame.rs:607-620 | Updates the fields, the decoder cursor included, as `Caught` says. |
| StackFrame.BytecodeStackFrame.ApplyCallResult | valuescript_vm/src/bytecode_stack_frame.rs:587-601 | Updates the registers as `AppliedCallResult` says. |
| StackFrame.BytecodeStackFrame.Step | valuescript_vm/src/bytecode_stack_frame.rs:129-585 | Reads an opcode and runs its arm; the new state is `Stepped`'s. |
| StackFrame.BytecodeStackFrame.RunArm | valuescript_vm/src/bytecode_stack_frame.rs:133-582 | Dispatches to the modelled arms. |
| StackFrame.BytecodeStackFrame.EndStep | valuescript_vm/src/bytecode_stack_frame.rs:135-140 | The `End` arm, in place. |
| StackFrame.BytecodeStackFrame.MovStep | valuescript_vm/src/bytecode_stack_frame.rs:142-149 | The `Mov` arm, in place. |
| StackFrame.BytecodeStackFrame.JmpStep | valuescript_vm/src/bytecode_stack_frame.rs:395-399 | The `Jmp` arm, in place. |
| StackFrame.BytecodeStackFrame.JmpIfStep | valuescript_vm/src/bytecode_stack_frame.rs:400-407 | The `JmpIf` arm, in place. |
| StackFrame.BytecodeStackFrame.ThrowStep | valuescript_vm/src/bytecode_stack_frame.rs:470-485 | The `Throw` arm, in place. |
| StackFrame.BytecodeStackFrame.SetCatchStep | valuescript_vm/src/bytecode_stack_frame.rs:491-497 | The `SetCatch` arm, in place. |
| ExpressionCompiler.NewCompiled | valuescript_compiler/src/expression_compiler.rs:46-54 | The release check is armed exactly when there are nested registers. |
| ExpressionCompiler.EmptyCompiled | valuescript_compiler/src/expression_compiler.rs:38-44 | The empty expression is void, with no registers and nothing to check. |
| ExpressionCompiler.EmptyIsNewVoid | valuescript_compiler/src/expression_compiler.rs:38-54 | `empty()` is what `new(Void, [])` builds. |
| ExpressionCompiler.MakeUnaryOp | valuescript_compiler/src/expression_compiler.rs:1651-1663 | There is no instruction exactly for `void` and `delete`. The others keep their operand and destination, in order. |
| ExpressionCompiler.MakeBinaryOp | valuescript_compiler/src/expression_compiler.rs:1665-1700 | Every operator has an instruction, which keeps both operands and the destination, in order. |
| ExpressionCompiler.BinaryOpRoundTrip | valuescript_compiler/src/expression_compiler.rs:1665-1700 | The operator can be read back from its instruction. |
| ExpressionCompiler.MakeBinaryOpInjective | valuescript_compiler/src/expression_compiler.rs:1665-1700 | Distinct operators give distinct instructions, whatever the operands. |
| ExpressionCompiler.BinaryOpForAssignOp | valuescript_compiler/src/expression_compiler.rs:1702-1726 | Only plain `=` has no binary operator. |
| ExpressionCompiler.AssignOpRoundTrip | valuescript_compiler/src/expression_compiler.rs:1702-1726 | Each compound assignment names a different binary operator, so the table inverts. |
| ExpressionCompiler.MakeUpdateOp | valuescript_compiler/src/expression_compiler.rs:1728-1735 | `++` increments and `--` decrements, on the same register. |
| ExpressionCompiler.Segments | valuescript_compiler/src/expression_compiler.rs:1584-1629 | Reference segmentation: one segment per spread, plus runs of plain values. |
| ExpressionCompiler.SegmentValues | valuescript_compiler/src/expression_compiler.rs:1627-1629 | One `cat` operand per segment. |
| ExpressionCompiler.PlainItems | valuescript_compiler/src/expression_compiler.rs:1575-1607 | Plain values as items, in order. |
| ExpressionCompiler.ArgValues | valuescript_compiler/src/expression_compiler.rs:1575-1607 | One value per argument, with a hole as void. |
| ExpressionCompiler.SegmentsAreMaximalRuns | valuescript_compiler/src/expression_compiler.rs:1584-1629 | The segmentation has no empty run and no two adjacent runs. Flattened, it gives back the argument list. |
| ExpressionCompiler.ArgsLoopFollowsSegments | valuescript_compiler/src/expression_compiler.rs:1575-1629 | The `args` loop's closed segments and open run stay in step with the reference segmentation. |
| ExpressionCompiler.ArgsWithoutSpread | valuescript_compiler/src/expression_compiler.rs:1575-1607 | Without a spread, the loop closes no segment and collects every value in order, with holes as void. |
| ExpressionCompiler.ArgsWithSpread | valuescript_compiler/src/expression_compiler.rs:1584-1629 | With a spread, the `cat` operand is the reference segmentation. |
| ExpressionCompiler.SpreadClosesSegment | valuescript_compiler/src/expression_compiler.rs:1584-1596 | A spread argument closes at least one segment. |
| ExpressionCompiler.Args | valuescript_compiler/src/expression_compiler.rs:1563-1649 | Without a spread, one array of the values, moved into the target if there is one. With a spread, one `cat` of the maximal segments into the target or a temporary. |
| ExpressionCompiler.TemplateInstructionCount | valuescript_compiler/src/expression_compiler.rs:1134-1190 | With n > 0 parts the template emits 2n − 1 additions, plus one more exactly when the last quasi is not empty. Each adds into the accumulator. |
| ExpressionCompiler.Values | valuescript_compiler/src/expression_compiler.rs:1154-1180 | What each part reads. |
| ExpressionCompiler.TemplateComputesConcatenation | valuescript_compiler/src/expression_compiler.rs:1134-1190 | When no part emits code or reads the accumulator, the code leaves the quasis interleaved with the part values in the accumulator and changes no other register. |
| ExpressionCompiler.TemplateMiddleComputes | valuescript_compiler/src/expression_compiler.rs:1163-1180 | After the first k parts, the accumulator holds the first k quasis and values, interleaved. |
| ExpressionCompiler.TemplateTargetClobbered | valuescript_compiler/src/expression_compiler.rs:1144-1180 | Finding 1 as written: a part that reads the target register sees the partial result. |
| ExpressionCompiler.ClobberRun | valuescript_compiler/src/expression_compiler.rs:1144-1180 | The counterexample's four instructions leave `"aa"` where `"ab"` is meant. |
| ExpressionCompiler.TemplateCorrectedComputesConcatenation | valuescript_compiler/src/expression_compiler.rs:1144-1192 | Corrected: accumulating in a temporary and moving it into the target at the end gives the concatenation, even when parts read the target. |
| ExpressionCompiler.TemplateCorrectedOnClobberInput | valuescript_compiler/src/expression_compiler.rs:1144-1192 | The corrected code gives `"ab"` on the counterexample. |
| LegacyFunctionCompiler.Texts | src/vstc/function_compiler.rs:542-901 | One printed line per line, in order. |
| LegacyFunctionCompiler.Codes | src/vstc/function_compiler.rs:542-901 | Expression code as lines, one each. |
| LegacyFunctionCompiler.JumpsLand | src/vstc/function_compiler.rs:542-901 | Every jump a statement compiles to lands on a label the statement defines, or on a label of an enclosing loop. `break` and `continue` use the innermost loop. |
| LegacyFunctionCompiler.BlockJumpsLand | src/vstc/function_compiler.rs:546-564 | The same for a block's statements. |
| LegacyFunctionCompiler.IfJumpsLand | src/vstc/function_compiler.rs:648-697 | An `if`'s jumps land on its own labels. |
| LegacyFunctionCompiler.WhileJumpsLand | src/vstc/function_compiler.rs:719-767 | A while loop's jumps land on its start and end labels. |
| LegacyFunctionCompiler.DoWhileJumpsLand | src/vstc/function_compiler.rs:768-812 | A do-while loop's jumps land on its own labels. |
| LegacyFunctionCompiler.ForJumpsLand | src/vstc/function_compiler.rs:813-901 | A for loop's jumps land on its test, continue and end labels. |
| LegacyFunctionCompiler.FunctionJumpsLand | src/vstc/function_compiler.rs:542-901 | A function body starts with no loop around it, so every jump lands inside it. |
| LegacyFunctionCompiler.ReturnEmitsEnd | src/vstc/function_compiler.rs:581-598 | `return;` always emits `end`. `return e;` emits it only when it is not the function's last statement. |
| LegacyFunctionCompiler.DoWhileContinueSkipsTest | src/vstc/function_compiler.rs:790-805 | Finding 2 as written: the continue label sits after the test's code, so `continue` skips the test. |
| LegacyFunctionCompiler.DoWhileCorrectedContinueRunsTest | src/vstc/function_compiler.rs:768-812 | Corrected: with the continue label before the test's code, `continue` runs all of the test. |
| LegacyFunctionCompiler.DoWhileCorrectedJumpsLand | src/vstc/function_compiler.rs:768-812 | The correction moves a label and nothing else, so jumps still land. |
| LegacyFunctionCompiler.BlockPrefix | src/vstc/function_compiler.rs:546-564 | A block compiles only if each of its statements does. |
| LegacyFunctionCompiler.FunctionCompiler.constructor | src/vstc/function_compiler.rs:45-58 | Starts with an empty definition and an empty loop-label stack. |
| LegacyFunctionCompiler.FunctionCompiler.Emit | src/vstc/function_compiler.rs:542-901 | Pushes one line onto the definition. |
| LegacyFunctionCompiler.FunctionCompiler.EmitAll | src/vstc/function_compiler.rs:542-901 | Pushes the lines in order. |
| LegacyFunctionCompiler.FunctionCompiler.Statement | src/vstc/function_compiler.rs:542-917 | Appends the statement's lines and leaves the loop-label stack as it found it. It fails, as the compiler panics, on a `break` or `continue` outside every loop. |
| LegacyFunctionCompiler.FunctionCompiler.StatementBlock | src/vstc/function_compiler.rs:546-564 | A block, statement by statement. |
| LegacyFunctionCompiler.FunctionCompiler.StatementIf | src/vstc/function_compiler.rs:648-697 | An `if`, with or without `else`. |
| LegacyFunctionCompiler.FunctionCompiler.StatementWhile | src/vstc/function_compiler.rs:719-767 | Pushes one loop-label entry around the body and pops it. |
| LegacyFunctionCompiler.FunctionCompiler.StatementDoWhile | src/vstc/function_compiler.rs:768-812 | Pushes one loop-label entry around the body and pops it. |
| LegacyFunctionCompiler.FunctionCompiler.StatementFor | src/vstc/function_compiler.rs:813-901 | Pushes one loop-label entry around the body and pops it. |
| LegacyFunctionCompiler.ParamTexts | src/vstc/function_compiler.rs:168-181 | Each parameter register is printed with a `%`. |
| LegacyFunctionCompiler.ParamRegisters | src/vstc/function_compiler.rs:117-129 | Capture parameters come first, then the declared ones. |
| LegacyFunctionCompiler.BuildHeading | src/vstc/function_compiler.rs:117-183 | The loop builds `@name = function(%a, %b) {`: `, ` after every parameter but the last. |
| LegacyFunctionCompiler.HeadingDeclaresEachParam | src/vstc/function_compiler.rs:117-183 | With names free of `%`, the heading has exactly one `%` per parameter. |
| LegacyFunctionCompiler.FullCaptures | src/vstc/function_compiler.rs:463-497 | The full captures have no duplicates and start with the direct captures in first-occurrence order. They are exactly the names reachable through the direct-capture map (the least closed set holding the direct captures). |
| LegacyFunctionCompiler.FunctionLines | src/vstc/function_compiler.rs:98-227 | A function is its heading, its body and `}`. |
| LegacyFunctionCompiler.SizeAfterTurn | src/vstc/function_compiler.rs:80-93 | Each turn of the queue leaves one function fewer to compile, so the drain ends. |
| LegacyFunctionCompiler.Compile | src/vstc/function_compiler.rs:61-96 | The queue-draining loop builds exactly the `Drained` definition. |
| LegacyFunctionCompiler.DrainedCompilesEveryFunction | src/vstc/function_compiler.rs:80-93 | Draining loses and repeats nothing: as a multiset, the definition holds exactly the lines of every queued function and of every function they hoist, each line as often as it occurs there. |
| LegacyFunctionCompiler.DrainedHeadFirst | src/vstc/function_compiler.rs:80-93 | First in, first out: the head is compiled before anything queued after it. |
| LegacyFunctionCompiler.ScopesPartitionNames | src/vstc/function_compiler.rs:348-541 | `var` names go to the function scope and `let`/`const` names to the block scope. Every declared name is registered exactly once. |
| LegacyExpressionCompiler.BinaryOpStr | src/vstc/expression_compiler.rs:692-722 | Every binary operator has a mnemonic. |
| LegacyExpressionCompiler.BinaryOpStrRoundTrip | src/vstc/expression_compiler.rs:692-722 | Each operator's mnemonic reads back as that operator, so mnemonics are distinct. |
| LegacyExpressionCompiler.UnaryOpStr | src/vstc/expression_compiler.rs:724-736 | There is no mnemonic (a panic) exactly for `void` and `delete`. |
| LegacyExpressionCompiler.UnaryOpStrRoundTrip | src/vstc/expression_compiler.rs:724-736 | Each other unary operator has its own mnemonic. |
| LegacyExpressionCompiler.UnaryAndBinaryMnemonicsDisjoint | src/vstc/expression_compiler.rs:692-736 | No unary mnemonic is also a binary one. |
| LegacyExpressionCompiler.AssignOpStr | src/vstc/expression_compiler.rs:738-759 | Only `=` has no operator. |
| LegacyExpressionCompiler.AssignOpStrAgrees | src/vstc/expression_compiler.rs:738-759 | Each compound assignment's mnemonic is that of the binary operator the new compiler applies for it. |
| LegacyExpressionCompiler.CompileLiteral | src/vstc/expression_compiler.rs:678-690 | Bigint, regex and JSX literals panic (None); the other literals print. |
| LegacyExpressionCompiler.CompileLiteralRoundTrip | src/vstc/expression_compiler.rs:678-690 | The printed forms of strings, booleans, `null` and numbers never collide: a literal reads back from its text. |
| LegacyExpressionCompiler.MappedText | src/vstc/expression_compiler.rs:660-675 | A register prints with `%` and a definition with `@`. |
| LegacyExpressionCompiler.MappedTextRoundTrip | src/vstc/expression_compiler.rs:660-675 | A mapped name reads back from its text. |
| LegacyExpressionCompiler.MovLineDeterminesOperands | src/vstc/expression_compiler.rs:635-658 | A `mov` line determines its value and register when register names have no `%`. |
| LegacyExpressionCompiler.ElementTexts | src/vstc/expression_compiler.rs:257-281 | Each element is printed, with a hole as `void`. |
| LegacyExpressionCompiler.AccessorRegister | src/vstc/expression_compiler.rs:819-826 | A plain target's register is its own; a nested target's is its temporary. |
| LegacyExpressionCompiler.PackupReversesAccesses | src/vstc/expression_compiler.rs:773-850 | `packup` undoes the fetches of `compile` in reverse: its k-th line stores back the fetch made k places from the end. |
| LegacyExpressionCompiler.AccessesChain | src/vstc/expression_compiler.rs:773-817 | The fetches form a chain from the root variable, each reading the register the previous one wrote. |
| LegacyExpressionCompiler.PackupReachesRoot | src/vstc/expression_compiler.rs:828-850 | The last `submov` stores into the root variable, and every temporary is released. |
| LegacyExpressionCompiler.AccessRegistersReleased | src/vstc/expression_compiler.rs:841-845 | Every fetch's temporary is released by `packup`. |
| LegacyExpressionCompiler.ExpressionCompiler.constructor | src/vstc/expression_compiler.rs:11-14 | A compiler over a scope, with nothing printed and nothing released. |
| LegacyExpressionCompiler.ExpressionCompiler.Inline | src/vstc/expression_compiler.rs:635-658 | With no target it returns the value and prints nothing. With a target it prints exactly one `mov` and returns the target. |
| LegacyExpressionCompiler.ExpressionCompiler.Literal | src/vstc/expression_compiler.rs:627-633 | The printed literal, inlined, or nothing where `compile_literal` panics. |
| LegacyExpressionCompiler.ExpressionCompiler.Identifier | src/vstc/expression_compiler.rs:660-675 | The mapped name, inlined. A name not in scope fails (the source panics) and prints nothing. |
| LegacyExpressionCompiler.ExpressionCompiler.ArrayExpression | src/vstc/expression_compiler.rs:252-300 | Fails exactly on a spread. Otherwise the value is `[` + the elements joined by `, ` + `]`. With a target, it prints one `mov` and releases the elements' registers. |
| LegacyExpressionCompiler.ExpressionCompiler.Packup | src/vstc/expression_compiler.rs:828-850 | Prints `PackupLines` and releases `PackupReleases`. |
| LegacyVirtualMachine.Resolve | src/vstc/virtual_machine/virtual_machine.rs:75-82 | A constant is itself. A register operand reads that register, and fails out of range. |
| LegacyVirtualMachine.PopDelivers | src/vstc/virtual_machine/virtual_machine.rs:153-159 | `pop` removes one frame and hands registers 0 and 1 to the caller's return and `this` targets, and nothing else changes. When both targets are one register, `this` is written last and wins. |
| LegacyVirtualMachine.PopNeedsCaller | src/vstc/virtual_machine/virtual_machine.rs:153-159 | `pop` with a single frame panics. |
| LegacyVirtualMachine.MovToIgnoredChangesNothing | src/vstc/virtual_machine/virtual_machine.rs:75-82 | `Mov` with no destination changes no register. |
| LegacyVirtualMachine.MovWritesOneRegister | src/vstc/virtual_machine/virtual_machine.rs:75-82 | `Mov` into register i changes that register alone. |
| LegacyVirtualMachine.JumpsFollowCondition | src/vstc/virtual_machine/virtual_machine.rs:135-147 | `Jmp` always jumps. `JmpIf` jumps exactly on a truthy condition and changes no register. |
| LegacyVirtualMachine.StepPreservesValid | src/vstc/virtual_machine/virtual_machine.rs:65-151 | A step keeps the stack valid: never empty, every frame's targets in range. It removes at most one frame, and only when the top instruction is `End`. Otherwise the frames below the top, the top's targets and its register count are unchanged. |
| LegacyVirtualMachine.RunReturnsBottom | src/vstc/virtual_machine/virtual_machine.rs:34-38 | `run` stops only with one frame left, and then returns that frame's register 0. |
| LegacyVirtualMachine.VirtualMachine.constructor | src/vstc/virtual_machine/virtual_machine.rs:41-63 | One frame with two undefined registers: return into 0, `this` into 1. |
| LegacyVirtualMachine.VirtualMachine.Pop | src/vstc/virtual_machine/virtual_machine.rs:153-159 | Changes the stack as `Popped` says, or leaves it alone where the source panics. |
| LegacyVirtualMachine.VirtualMachine.Step | src/vstc/virtual_machine/virtual_machine.rs:65-151 | Changes the stack as `Stepped` says, or leaves it alone where the source panics. |
| LegacyVirtualMachine.VirtualMachine.Run | src/vstc/virtual_machine/virtual_machine.rs:22-39 | Pushes the main frame, steps while more than one frame is left, and returns the outermost frame's register 0. The stack stays valid. |
| ArrayBuiltin.Sub | valuescript_vm/src/builtins/array_builtin.rs:25-32 | Only `isArray`, `from` and `of` are members; every other key is undefined. |
| ArrayBuiltin.SubRoundTrip | valuescript_vm/src/builtins/array_builtin.rs:25-32 | Each member key gives a value naming that key, so the three members are distinct. |
| ArrayBuiltin.IsArray | valuescript_vm/src/builtins/array_builtin.rs:49-57 | The answer is a boolean. |
| ArrayBuiltin.Of | valuescript_vm/src/builtins/array_builtin.rs:107 | The arguments as an array, unchanged. |
| ArrayBuiltin.AsUsize | valuescript_vm/src/builtins/array_builtin.rs:120 | A saturating cast never exceeds `usize::MAX`. |
| ArrayBuiltin.Holes | valuescript_vm/src/builtins/array_builtin.rs:122-128 | An array of n void elements. |
| ArrayBuiltin.ToArrayInfinityPanics | valuescript_vm/src/builtins/array_builtin.rs:116-128 | Finding 3 as written: `Array(Infinity)` passes both checks, saturates to `usize::MAX`, and reaches `Vec::with_capacity`, which panics with `capacity overflow`. |
| ArrayBuiltin.ToArrayLength | valuescript_vm/src/builtins/array_builtin.rs:114-128 | Corrected `Array(n)` is the range error `Invalid array length` exactly for a negative, fractional, NaN or infinite n. Any other n is a whole number: up to `isize::MAX / 16` it gives n holes, and beyond that the allocation panics with `capacity overflow`. |
| ArrayBuiltin.ToArrayIsOf | valuescript_vm/src/builtins/array_builtin.rs:109-112 | With other than one argument, or one that is not a number, `Array(...)` is `Array.of(...)`. |
| ArrayBuiltin.BuiltArraysAreArrays | valuescript_vm/src/builtins/array_builtin.rs:49-57 | Whatever `Array(...)` and `Array.of(...)` build, `Array.isArray` recognises. |
| ArrayBuiltin.ToArrayAsWrittenLoop | valuescript_vm/src/builtins/array_builtin.rs:109-132 | The capacity check and the hole-filling loop compute `to_array` as written. |
| ArrayBuiltin.Utf8Width | valuescript_vm/src/builtins/array_builtin.rs:71 | A UTF-8 character is one to four bytes long. |
| ArrayBuiltin.Chars | valuescript_vm/src/builtins/array_builtin.rs:71 | A string splits into whole characters: every piece but the last is exactly as long as its lead byte announces (one to four bytes), and the last is at most that long, being cut short only by the end of the string. With `CharsConcat` this fixes the split. |
| ArrayBuiltin.CharsConcat | valuescript_vm/src/builtins/array_builtin.rs:71 | The characters concatenate back to the string. |
| ArrayBuiltin.CharValues | valuescript_vm/src/builtins/array_builtin.rs:71 | One string value per character, in order. |
| ArrayBuiltin.ElementsUpTo | valuescript_vm/src/builtins/array_builtin.rs:94-100 | Reads n elements in order, and fails exactly when some element read fails. |
| ArrayBuiltin.FromStringSplitsCharacters | valuescript_vm/src/builtins/array_builtin.rs:71 | `Array.from` of a string gives its characters. |
| ArrayBuiltin.FromArrayAndInfinity | valuescript_vm/src/builtins/array_builtin.rs:70-86 | `Array.from` copies an array. It refuses an infinite length with the range error that the corrected `Array(n)` uses. |
| ArrayBuiltin.FromArrayLike | valuescript_vm/src/builtins/array_builtin.rs:74-103 | With a usable length, `Array.from` of an array-like value panics with `capacity overflow` when the length is too large to allocate. Otherwise it succeeds exactly when every element read succeeds, and then reads exactly that many elements, in order. |
| ArrayBuiltin.FromLoop | valuescript_vm/src/builtins/array_builtin.rs:59-105 | The element loop computes `From`. |
| ArrayBuiltin.FailedElementFails | valuescript_vm/src/builtins/array_builtin.rs:94-100 | One failed element read fails the whole call. |
| ArrayMap.MapState.constructor | valuescript_vm/src/array_higher_functions/array_map.rs:11-14 | The default state has no results. |
| ArrayMap.MapState.Process | valuescript_vm/src/array_higher_functions/array_map.rs:17-20 | Appends the mapped value, ignores the index and the element, and answers `None`. |
| ArrayMap.MapState.Finish | valuescript_vm/src/array_higher_functions/array_map.rs:22-26 | Returns the collected values as an array and leaves the state empty. |
| ArrayMap.MapAll | valuescript_vm/src/array_higher_functions/array_map.rs:11-26 | A fresh state driven through `process` and `finish` gives exactly the mapped values, in order. |
| NativeFunction.ThisWrapper.constructor | valuescript_vm/src/native_function.rs:18-20 | Wraps `this` with its const flag. |
| NativeFunction.ThisWrapper.Get | valuescript_vm/src/native_function.rs:22-24 | `get`: read access to `this`, allowed whether or not it is const. |
| NativeFunction.ThisWrapper.Update | valuescript_vm/src/native_function.rs:26-32 | A const `this` gives the type error and stays unchanged. Otherwise the change goes through. |
| NativeFunction.NativeCodeIsAscii | valuescript_vm/src/native_function.rs:43-45 | The native-code text is ASCII. |
| NativeFunction.NativeAnswersConsistent | valuescript_vm/src/native_function.rs:40-100 | A native function has typeof `function`, the number NaN and no index. It is not primitive and not nullish, and is truthy. Its primitive is its printed text, which `codify` prints too. It has no bigint, array, object or class data, and the machine's value for it is none of those kinds. Assigning to its subscript is a type error. |
| Fib.FibPairAgrees | benchmarks/fib.cpp:10-16 | The recursion agrees with an independent linear definition. |
| Fib.FibMonotonic | benchmarks/fib.cpp:10-16 | From 1 on the values are positive and never decrease. |
| Fib.FibNonNegative | benchmarks/fib.cpp:10-16 | Non-negative from 0 on. |
| Fib.FibPositive | benchmarks/fib.cpp:10-16 | Positive from 1 on. |
| Fib.FibValues | benchmarks/fib.cpp:10-16 | fib(38) = 39088169, fib(46) = 1836311903 and fib(47) = 2971215073. |
| Fib.Fib32Exact | benchmarks/fib.cpp:10-16 | On 32-bit `int`, `fib(n)` never overflows for any n up to 46 (negatives included), and gives the true value. |
| Fib.Fib32Overflows | benchmarks/fib.cpp:10-16 | At 47 the last addition overflows. |
| Fib.MainPrints | benchmarks/fib.cpp:5-8 | `main` computes fib(38) = 39088169 without overflow. |

## Left out

- The decoder's `decode_pointer` cache is not modelled; a pointer is decoded again each time. Pointer following is bounded by a fuel parameter, because a cyclic pointer makes the source recurse without end.
- Object decoding keeps the key/value list in order. Building a `BTreeMap` and converting keys to strings are not modelled.
- `String::from_utf8_lossy` is not modelled: runtime strings stay as their raw bytes.
- Floating point:
  - Numbers are IEEE-754 bit patterns.
  - Truthiness and the `Array(n)` checks are exact predicates on the bits.
  - No arithmetic, no `Display` of numbers, and no float formatting of the `Array.from` indices is modelled.
- The arithmetic, comparison, call, iteration, import and class arms of both VMs' `step` are not modelled. They depend on the `operations` module, function loading and iteration machinery, none of which is part of this model. In the bytecode frame such an arm yields `Beyond(op)` with the cursor just past the opcode; in the legacy VM it is `Unmodelled` and panics, as its `_` arm does.
- The legacy VM works on instructions that are already decoded (a map from position to instruction). Its decoder and its decoding of the main function are not part of this model.
- `LegacyVirtualMachine.VirtualMachine.Run`: the loop is bounded by a fuel parameter, because the source's loop need not end.
- Panics (index out of range, malformed bytecode, unresolved names) are `None`, `false` or a `Panic` result. After a failed decoding method the cursor is left unconstrained, since a panic ends the program.
- Runtime `Val` internals are not modelled: `is_truthy` follows ECMAScript's ToBoolean. `as_array_data` of dynamic values is taken to be absent.
- The compilers' register allocator and its release check (the `Drop` assertion) are not modelled. Allocated names are parameters, and released registers are a list.
- The swc AST is not modelled. Expressions come already compiled, and number literals carry the text Rust prints for them.
- `compile_literal` puts strings in double quotes without escaping, and the model does the same; the JSON escaping in the assembly's `Display` for strings is a parameter (`leaf`).
- `Array.from` on an array-like value reads `length` and the elements through `op_sub`, which is not part of this model; both are parameters. The error message of a map function is a fixed string.
- Native functions: `bind` (which panics), `load_function` and the message of `sub` are not modelled.
- `ArrayBuiltin.IsArray`: its own contract says only that the answer is a boolean. Its meaning is stated by `BuiltArraysAreArrays` and by the function body.
- Hoisted functions' direct captures (the capture finder) are a parameter map.
- ValRoundTrip: array, object and class literals, functions, pointers, registers and builtins have no encoder, so `ParseVec`, `ParseProps` and the array, object, class, function, pointer, register and builtin arms of `ParseVal` have no round trip. Their decoding is still modelled and its contracts proved.
- The size of a runtime value is taken to be 16 bytes (`VAL_SIZE`), since the value type's definition is not part of this model. Allocation failure below the `isize::MAX` capacity bound is not modelled.
- Varsize integers: the release build's wrap-around is not modelled. The checked arithmetic of a debug build is, as a failure.

## Findings

| source | as written | input that shows it | evidently intended | confidence | as-written member | corrected member |
|---|---|---|---|---|---|---|
| valuescript_compiler/src/expression_compiler.rs:1144-1180 | With a target register, `template_literal` accumulates directly in the target. A later part that reads the target then sees the partial result. | `x = `${y}${x}`` with y = "a" and x = "b" leaves "aa" in `x` | The template's value, "ab": accumulate in a temporary and move it into the target at the end | high (not executed) | ExpressionCompiler.TemplateTargetClobbered | ExpressionCompiler.TemplateCorrectedComputesConcatenation |
| src/vstc/function_compiler.rs:790-805 | A do-while loop's continue label is placed after the code that evaluates the test. `continue` jumps straight to the conditional jump, which reads stale test registers. | `do { if (c) continue; ... } while (f())`: `continue` never calls `f` | The continue label before the test's code, so that `continue` runs the test | high (not executed) | LegacyFunctionCompiler.DoWhileContinueSkipsTest | LegacyFunctionCompiler.DoWhileCorrectedContinueRunsTest |
| valuescript_vm/src/builtins/array_builtin.rs:116-128 | `Array(n)` rejects only negative and fractional n. +Infinity passes both checks, the cast saturates to `usize::MAX`, and `Vec::with_capacity` panics with `capacity overflow`. | `Array(Infinity)` | The range error "Invalid array length", as `Array.from` gives for an infinite length | high (not executed) | ArrayBuiltin.ToArrayInfinityPanics | ArrayBuiltin.ToArrayLength |
