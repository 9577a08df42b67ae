/**
 * The VM's bytecode stack frame (`BytecodeStackFrame`): a register file, a
 * decoder whose cursor is the program counter, the parameter window, the
 * targets a callee's result is written to, and at most one catch handler.
 *
 * `FrameState` is the frame's state as a value; the functions on it say what
 * each operation does, and the class's methods, which update the fields in
 * place as the source does, are proved to agree with them. A panic of the
 * source (an index out of bounds, malformed bytecode) is a `Panic` result.
 */
module StackFrame {
  import opened Wrappers
  import opened Bytes
  import opened Values
  import opened BytecodeDecoder
  import IB = InstructionBytes

  /** Where a `SetCatch` sends control, and the register that receives the exception. */
  datatype CatchSetting = CatchSetting(pos: nat, register: Option<nat>)

  /** What a frame hands back when it ends. */
  datatype CallResult = CallResult(returnValue: Val, thisValue: Val)

  /**
   * The successful outcomes of a step: carry on, or pop the frame. `Beyond`
   * is an instruction whose arm (calls, iteration, arithmetic) this model does
   * not follow; the cursor is then just past its opcode.
   */
  datatype StepOk = Continue | Pop(result: CallResult) | Beyond(op: IB.InstructionByte)

  datatype FrameState = FrameState(
    pos: nat,
    registers: seq<Val>,
    constThis: bool,
    paramStart: nat,
    paramEnd: nat,
    thisTarget: Option<nat>,
    returnTarget: Option<nat>,
    catchSetting: Option<CatchSetting>)

  const BAD_BYTECODE: string := "malformed bytecode"
  const OUT_OF_BOUNDS: string := "register index out of bounds"
  const IGNORE_REGISTER: string := "register index is the ignore register"

  /** The error `RequireMutableThis` raises on a const `this`. */
  const CONST_THIS_ERROR: Val := Val.Error(TypeError, "Cannot mutate this because it is const")

  /** `registers[i] = v`, which panics past the end. */
  function Store(registers: seq<Val>, i: nat, v: Val): (r: Option<seq<Val>>)
    ensures r.Some? <==> i < |registers|
    ensures r.Some? ==> |r.value| == |registers| && r.value[i] == v
    ensures r.Some? ==> forall j :: 0 <= j < |registers| && j != i ==> r.value[j] == registers[j]
  {
    if i < |registers| then Some(registers[i := v]) else None
  }

  /** `registers[i] = v` when the index is not the ignore register. */
  function StoreAt(registers: seq<Val>, i: Option<nat>, v: Val): Option<seq<Val>> {
    if i.None? then Some(registers) else Store(registers, i.value, v)
  }

  // ---------------------------------------------------------------------------
  // The operations as functions of the state.
  // ---------------------------------------------------------------------------

  /** `write_this`: `this` lives in register 1. */
  function WithThis(s: FrameState, isConst: bool, thisValue: Val): FrameState
    requires 2 <= |s.registers|
  {
    s.(registers := s.registers[1 := thisValue], constThis := isConst)
  }

  /** `write_param`: fill the next parameter register, or drop the parameter once the window is full. */
  function WithParam(s: FrameState, param: Val): FrameState
    requires s.paramEnd <= |s.registers|
  {
    if s.paramStart < s.paramEnd then
      s.(registers := s.registers[s.paramStart := param], paramStart := s.paramStart + 1)
    else s
  }

  /** Writing several parameters one after another. */
  function WithParams(s: FrameState, params: seq<Val>): (r: FrameState)
    requires s.paramEnd <= |s.registers|
    ensures r.paramEnd == s.paramEnd && |r.registers| == |s.registers|
    decreases |params|
  {
    if params == [] then s else WithParams(WithParam(s, params[0]), params[1..])
  }

  /** `catch_exception`: `Ok(true)` when a handler was installed, which this consumes. */
  function Caught(s: FrameState, exception: Val): (Result<bool, Val>, FrameState) {
    match s.catchSetting
    case None => (Ok(false), s)
    case Some(setting) =>
      match StoreAt(s.registers, setting.register, exception)
      case None => (Panic(OUT_OF_BOUNDS), s)
      case Some(registers) => (Ok(true), s.(registers := registers, pos := setting.pos, catchSetting := None))
  }

  /** `apply_call_result`: `this` to its target first, then the return value to its target. */
  function AppliedCallResult(s: FrameState, result: CallResult): (Result<(), Val>, FrameState) {
    match StoreAt(s.registers, s.thisTarget, result.thisValue)
    case None => (Panic(OUT_OF_BOUNDS), s)
    case Some(afterThis) =>
      match StoreAt(afterThis, s.returnTarget, result.returnValue)
      case None => (Panic(OUT_OF_BOUNDS), s)
      case Some(registers) => (Ok(()), s.(registers := registers))
  }

  /** `step`: read an opcode at the cursor and run its arm. */
  function Stepped(code: seq<Byte>, s: FrameState, fuel: nat): (Result<StepOk, Val>, FrameState) {
    match ReadInstruction(code, s.pos)
    case None => (Panic(BAD_BYTECODE), s)
    case Some((op, p)) => Arm(code, op, s.(pos := p), fuel)
  }

  /** The arm for `op`, with the cursor just past the opcode. */
  function Arm(code: seq<Byte>, op: IB.InstructionByte, s: FrameState, fuel: nat): (Result<StepOk, Val>, FrameState) {
    if op == IB.End then EndArm(s)
    else if op == IB.Mov then MovArm(code, s, fuel)
    else if op == IB.Jmp then JmpArm(code, s)
    else if op == IB.JmpIf then JmpIfArm(code, s, fuel)
    else if op == IB.Throw then ThrowArm(code, s, fuel)
    else if op == IB.SetCatch then SetCatchArm(code, s)
    else if op == IB.UnsetCatch then (Ok(Continue), s.(catchSetting := None))
    else if op == IB.RequireMutableThis then (if s.constThis then Err(CONST_THIS_ERROR) else Ok(Continue), s)
    else (Ok(Beyond(op)), s)
  }

  /** `End`: pop, taking the return value and `this` out of registers 0 and 1. */
  function EndArm(s: FrameState): (Result<StepOk, Val>, FrameState) {
    if |s.registers| < 2 then (Panic(OUT_OF_BOUNDS), s)
    else
      (Ok(Pop(CallResult(s.registers[0], s.registers[1]))),
       s.(registers := s.registers[0 := DEFAULT][1 := DEFAULT]))
  }

  /** `Mov`: a value, then the destination register. */
  function MovArm(code: seq<Byte>, s: FrameState, fuel: nat): (Result<StepOk, Val>, FrameState) {
    match ParseVal(code, s.pos, s.registers, fuel)
    case None => (Panic(BAD_BYTECODE), s)
    case Some((v, p)) =>
      match ReadRegisterIndex(code, p)
      case None => (Panic(BAD_BYTECODE), s)
      case Some((dst, q)) =>
        match StoreAt(s.registers, dst, v)
        case None => (Panic(OUT_OF_BOUNDS), s)
        case Some(registers) => (Ok(Continue), s.(pos := q, registers := registers))
  }

  /** `Jmp`: the cursor moves to the decoded position. */
  function JmpArm(code: seq<Byte>, s: FrameState): (Result<StepOk, Val>, FrameState) {
    match ReadPos(code, s.pos)
    case None => (Panic(BAD_BYTECODE), s)
    case Some((dst, _)) => (Ok(Continue), s.(pos := dst))
  }

  /** `JmpIf`: a condition, then a position the cursor moves to if the condition is truthy. */
  function JmpIfArm(code: seq<Byte>, s: FrameState, fuel: nat): (Result<StepOk, Val>, FrameState) {
    match ParseVal(code, s.pos, s.registers, fuel)
    case None => (Panic(BAD_BYTECODE), s)
    case Some((cond, p)) =>
      match ReadPos(code, p)
      case None => (Panic(BAD_BYTECODE), s)
      case Some((dst, q)) => (Ok(Continue), s.(pos := if IsTruthy(cond) then dst else q))
  }

  /**
   * `Throw`: a register operand is read directly, so that a void register
   * does not turn into `undefined`, and throwing void continues; any other
   * operand is decoded and thrown.
   */
  function ThrowArm(code: seq<Byte>, s: FrameState, fuel: nat): (Result<StepOk, Val>, FrameState) {
    match ReadType(code, s.pos)
    case None => (Panic(BAD_BYTECODE), s)
    case Some((t, p)) =>
      if t == BytecodeType.Register then
        match ReadRegisterIndex(code, p)
        case None => (Panic(BAD_BYTECODE), s)
        case Some((i, q)) =>
          if i.None? then (Panic(IGNORE_REGISTER), s)
          else if |s.registers| <= i.value then (Panic(OUT_OF_BOUNDS), s)
          else if s.registers[i.value] == Val.Void then (Ok(Continue), s.(pos := q))
          else (Err(s.registers[i.value]), s.(pos := q))
      else
        match ParseVal(code, s.pos, s.registers, fuel)
        case None => (Panic(BAD_BYTECODE), s)
        case Some((e, q)) => (Err(e), s.(pos := q))
  }

  /** `SetCatch`: a position, then the register for the exception. */
  function SetCatchArm(code: seq<Byte>, s: FrameState): (Result<StepOk, Val>, FrameState) {
    match ReadPos(code, s.pos)
    case None => (Panic(BAD_BYTECODE), s)
    case Some((dst, p)) =>
      match ReadRegisterIndex(code, p)
      case None => (Panic(BAD_BYTECODE), s)
      case Some((register, q)) => (Ok(Continue), s.(pos := q, catchSetting := Some(CatchSetting(dst, register))))
  }

  // ---------------------------------------------------------------------------
  // What the operations promise.
  // ---------------------------------------------------------------------------

  /**
   * `write_param` writes exactly the next parameter register while the
   * window has room and drops the parameter otherwise; nothing else changes.
   */
  lemma WriteParamWindow(s: FrameState, param: Val)
    requires s.paramEnd <= |s.registers|
    ensures var r := WithParam(s, param);
      && |r.registers| == |s.registers|
      && (s.paramStart < s.paramEnd ==> r.registers[s.paramStart] == param && r.paramStart == s.paramStart + 1)
      && (s.paramStart >= s.paramEnd ==> r == s)
      && (forall j :: 0 <= j < |s.registers| && j != s.paramStart ==> r.registers[j] == s.registers[j])
      && r.(registers := s.registers, paramStart := s.paramStart) == s
  {
  }

  /**
   * Writing a list of parameters fills the window from its start, in order,
   * with as many as fit; the rest are dropped and no other register changes.
   */
  lemma {:induction false} WriteParamsFill(s: FrameState, params: seq<Val>)
    requires s.paramStart <= s.paramEnd <= |s.registers|
    ensures var r := WithParams(s, params);
      var n := if |params| < s.paramEnd - s.paramStart then |params| else s.paramEnd - s.paramStart;
      && r.paramStart == s.paramStart + n
      && (forall k :: 0 <= k < n ==> r.registers[s.paramStart + k] == params[k])
      && (forall j :: 0 <= j < |s.registers| && !(s.paramStart <= j < s.paramStart + n) ==> r.registers[j] == s.registers[j])
    decreases |params|
  {
    if params != [] {
      var s1 := WithParam(s, params[0]);
      WriteParamsFill(s1, params[1..]);
      if s.paramStart < s.paramEnd {
        forall k | 0 < k < if |params| < s.paramEnd - s.paramStart then |params| else s.paramEnd - s.paramStart
          ensures WithParams(s, params).registers[s.paramStart + k] == params[k]
        {
          assert s.paramStart + k == s1.paramStart + (k - 1);
          assert params[1..][k - 1] == params[k];
        }
      } else {
        assert WithParams(s1, params[1..]) == s1 by {
          WithParamsFull(s1, params[1..]);
        }
      }
    }
  }

  /** Once the window is full every further parameter is dropped. */
  lemma {:induction false} WithParamsFull(s: FrameState, params: seq<Val>)
    requires s.paramEnd <= |s.registers| && s.paramStart >= s.paramEnd
    ensures WithParams(s, params) == s
    decreases |params|
  {
    if params != [] {
      WithParamsFull(s, params[1..]);
    }
  }

  /**
   * `catch_exception` with no handler reports false and changes nothing;
   * with one, it stores the exception (unless the handler has no register),
   * moves the cursor to the handler and removes it, so it fires at most once.
   */
  lemma CatchFiresOnce(s: FrameState, exception: Val, next: Val)
    ensures s.catchSetting.None? ==> Caught(s, exception) == (Ok(false), s)
    ensures Caught(s, exception).0 == Ok(true) ==>
      var r := Caught(s, exception).1;
      && r.pos == s.catchSetting.value.pos
      && r.catchSetting.None?
      && (s.catchSetting.value.register.Some? ==> r.registers == s.registers[s.catchSetting.value.register.value := exception])
      && (s.catchSetting.value.register.None? ==> r.registers == s.registers)
      && Caught(r, next) == (Ok(false), r)
  {
  }

  /**
   * `apply_call_result` writes `this` and the return value to their targets
   * and nothing else; when both targets are the same register the return
   * value wins.
   */
  lemma ReturnValueWins(s: FrameState, result: CallResult, j: nat)
    requires AppliedCallResult(s, result).0.Ok?
    ensures var r := AppliedCallResult(s, result).1;
      && |r.registers| == |s.registers|
      && (s.returnTarget.Some? ==> r.registers[s.returnTarget.value] == result.returnValue)
      && (s.thisTarget.Some? && s.thisTarget != s.returnTarget ==> r.registers[s.thisTarget.value] == result.thisValue)
      && (j < |s.registers| && Some(j) != s.thisTarget && Some(j) != s.returnTarget ==> r.registers[j] == s.registers[j])
      && r.(registers := s.registers) == s
  {
  }

  /** `Jmp` always moves the cursor to its target and changes nothing else. */
  lemma JmpAlwaysJumps(code: seq<Byte>, s: FrameState, fuel: nat, p: nat, dst: nat, q: nat)
    requires ReadInstruction(code, s.pos) == Some((IB.Jmp, p)) && ReadPos(code, p) == Some((dst, q))
    ensures Stepped(code, s, fuel) == (Ok(Continue), s.(pos := dst))
  {
  }

  /** `JmpIf` moves to its target exactly when the condition is truthy, and otherwise falls through. */
  lemma JmpIfJumpsWhenTruthy(code: seq<Byte>, s: FrameState, fuel: nat, p: nat, cond: Val, p1: nat, dst: nat, q: nat)
    requires ReadInstruction(code, s.pos) == Some((IB.JmpIf, p))
    requires ParseVal(code, p, s.registers, fuel) == Some((cond, p1)) && ReadPos(code, p1) == Some((dst, q))
    ensures Stepped(code, s, fuel) == (Ok(Continue), s.(pos := if IsTruthy(cond) then dst else q))
  {
    assert Stepped(code, s, fuel) == JmpIfArm(code, s.(pos := p), fuel);
  }

  /** `Mov` into the ignore register changes no register. */
  lemma MovToIgnoreKeepsRegisters(code: seq<Byte>, s: FrameState, fuel: nat, p: nat, v: Val, p1: nat, q: nat)
    requires ReadInstruction(code, s.pos) == Some((IB.Mov, p))
    requires ParseVal(code, p, s.registers, fuel) == Some((v, p1)) && ReadRegisterIndex(code, p1) == Some((None, q))
    ensures Stepped(code, s, fuel) == (Ok(Continue), s.(pos := q))
  {
    assert Stepped(code, s, fuel) == MovArm(code, s.(pos := p), fuel);
  }

  /** `Mov` into a register in range writes that register and no other. */
  lemma MovWritesDestination(code: seq<Byte>, s: FrameState, fuel: nat, p: nat, v: Val, p1: nat, dst: nat, q: nat)
    requires ReadInstruction(code, s.pos) == Some((IB.Mov, p))
    requires ParseVal(code, p, s.registers, fuel) == Some((v, p1)) && ReadRegisterIndex(code, p1) == Some((Some(dst), q))
    requires dst < |s.registers|
    ensures Stepped(code, s, fuel) == (Ok(Continue), s.(pos := q, registers := s.registers[dst := v]))
  {
    assert Stepped(code, s, fuel) == MovArm(code, s.(pos := p), fuel);
  }

  /** `End` pops with registers 0 and 1 as the return value and `this`, leaving both void. */
  lemma EndPops(code: seq<Byte>, s: FrameState, fuel: nat, p: nat)
    requires ReadInstruction(code, s.pos) == Some((IB.End, p)) && 2 <= |s.registers|
    ensures var (r, t) := Stepped(code, s, fuel);
      && r == Ok(Pop(CallResult(s.registers[0], s.registers[1])))
      && t.registers[0] == Val.Void && t.registers[1] == Val.Void
      && t.registers[2..] == s.registers[2..]
  {
  }

  /** Throwing a register that holds void does not raise: the frame continues. */
  lemma ThrowVoidContinues(code: seq<Byte>, s: FrameState, fuel: nat, p: nat, i: nat, q: nat)
    requires ReadInstruction(code, s.pos) == Some((IB.Throw, p))
    requires ReadType(code, p) == Some((BytecodeType.Register, p + 1)) && ReadRegisterIndex(code, p + 1) == Some((Some(i), q))
    requires i < |s.registers|
    ensures Stepped(code, s, fuel).0 == (if s.registers[i] == Val.Void then Ok(Continue) else Err(s.registers[i]))
  {
    assert Stepped(code, s, fuel) == ThrowArm(code, s.(pos := p), fuel);
  }

  /** `RequireMutableThis` fails exactly when `this` is const, and changes nothing but the cursor. */
  lemma RequireMutableThisGuards(code: seq<Byte>, s: FrameState, fuel: nat, p: nat)
    requires ReadInstruction(code, s.pos) == Some((IB.RequireMutableThis, p))
    ensures Stepped(code, s, fuel).0.Err? <==> s.constThis
    ensures Stepped(code, s, fuel).1 == s.(pos := p)
  {
  }

  /**
   * A handler installed by `SetCatch` is the one `catch_exception` uses: the
   * exception lands in its register and control resumes at its position.
   * `UnsetCatch` removes it, after which nothing is caught.
   */
  lemma SetCatchThenCatch(code: seq<Byte>, s: FrameState, fuel: nat, p: nat, dst: nat, p1: nat, register: nat, q: nat, exception: Val)
    requires ReadInstruction(code, s.pos) == Some((IB.SetCatch, p))
    requires ReadPos(code, p) == Some((dst, p1)) && ReadRegisterIndex(code, p1) == Some((Some(register), q))
    requires register < |s.registers|
    ensures var t := Stepped(code, s, fuel).1;
      && Caught(t, exception).0 == Ok(true)
      && Caught(t, exception).1 == s.(pos := dst, registers := s.registers[register := exception], catchSetting := None)
  {
    assert Stepped(code, s, fuel) == SetCatchArm(code, s.(pos := p));
  }

  lemma UnsetCatchDisarms(code: seq<Byte>, s: FrameState, fuel: nat, p: nat, exception: Val)
    requires ReadInstruction(code, s.pos) == Some((IB.UnsetCatch, p))
    ensures var t := Stepped(code, s, fuel).1;
      Caught(t, exception) == (Ok(false), t) && t == s.(pos := p, catchSetting := None)
  {
  }

  // ---------------------------------------------------------------------------
  // The frame.
  // ---------------------------------------------------------------------------

  class BytecodeStackFrame {
    const decoder: Decoder
    /** How many pointers a decoded value may follow (see `ParseVal`). */
    const fuel: nat
    var registers: seq<Val>
    var constThis: bool
    var paramStart: nat
    var paramEnd: nat
    var thisTarget: Option<nat>
    var returnTarget: Option<nat>
    var catchSetting: Option<CatchSetting>

    function State(): FrameState
      reads this, decoder
    {
      FrameState(decoder.pos, registers, constThis, paramStart, paramEnd, thisTarget, returnTarget, catchSetting)
    }

    /**
     * A frame for a function whose body starts at `start`: every register
     * void, the parameters in the registers after `this`.
     */
    constructor (bytecode: seq<Byte>, start: nat, registerCount: nat, parameterCount: nat, fuel: nat)
      requires 2 + parameterCount <= registerCount
      ensures fresh(decoder) && decoder.bytecode == bytecode && this.fuel == fuel
      ensures State() == FrameState(start, seq(registerCount, _ => Val.Void), false, 2, 2 + parameterCount, None, None, None)
    {
      decoder := new Decoder.At(bytecode, start);
      this.fuel := fuel;
      registers := seq(registerCount, _ => Val.Void);
      constThis := false;
      paramStart := 2;
      paramEnd := 2 + parameterCount;
      thisTarget := None;
      returnTarget := None;
      catchSetting := None;
    }

    method WriteThis(isConst: bool, thisValue: Val)
      requires 2 <= |registers|
      modifies this
      ensures State() == WithThis(old(State()), isConst, thisValue)
    {
      registers := registers[1 := thisValue];
      constThis := isConst;
    }

    method WriteParam(param: Val)
      requires paramEnd <= |registers|
      modifies this
      ensures State() == WithParam(old(State()), param)
    {
      if paramStart < paramEnd {
        registers := registers[paramStart := param];
        paramStart := paramStart + 1;
      }
    }

    /** `registers[i] = v`, or a panic past the end; `None` is the ignore register. */
    method SetRegister(i: Option<nat>, v: Val) returns (ok: bool)
      modifies this
      ensures var r := StoreAt(old(registers), i, v);
        && ok == r.Some?
        && (ok ==> registers == r.value)
        && (!ok ==> registers == old(registers))
      ensures unchanged(this`constThis, this`paramStart, this`paramEnd, this`thisTarget, this`returnTarget, this`catchSetting)
    {
      if i.Some? {
        if i.value >= |registers| { return false; }
        registers := registers[i.value := v];
      }
      return true;
    }

    method CatchException(exception: Val) returns (r: Result<bool, Val>)
      modifies this, decoder
      ensures r == Caught(old(State()), exception).0
      ensures !r.Panic? ==> State() == Caught(old(State()), exception).1
    {
      if catchSetting.None? { return Ok(false); }
      var setting := catchSetting.value;
      var ok := SetRegister(setting.register, exception);
      if !ok { return Panic(OUT_OF_BOUNDS); }
      decoder.pos := setting.pos;
      catchSetting := None;
      return Ok(true);
    }

    method ApplyCallResult(result: CallResult) returns (r: Result<(), Val>)
      modifies this
      ensures r == AppliedCallResult(old(State()), result).0
      ensures !r.Panic? ==> State() == AppliedCallResult(old(State()), result).1
    {
      var ok := SetRegister(thisTarget, result.thisValue);
      if !ok { return Panic(OUT_OF_BOUNDS); }
      ok := SetRegister(returnTarget, result.returnValue);
      if !ok { return Panic(OUT_OF_BOUNDS); }
      return Ok(());
    }

    method Step() returns (r: Result<StepOk, Val>)
      modifies this, decoder
      ensures r == Stepped(decoder.bytecode, old(State()), fuel).0
      ensures !r.Panic? ==> State() == Stepped(decoder.bytecode, old(State()), fuel).1
    {
      var op := decoder.DecodeInstruction();
      if op.None? { return Panic(BAD_BYTECODE); }
      r := RunArm(op.value);
    }

    /** The arm of `step` for `op`, with the cursor just past the opcode. */
    method RunArm(op: IB.InstructionByte) returns (r: Result<StepOk, Val>)
      modifies this, decoder
      ensures r == Arm(decoder.bytecode, op, old(State()), fuel).0
      ensures !r.Panic? ==> State() == Arm(decoder.bytecode, op, old(State()), fuel).1
    {
      if op == IB.End {
        r := EndStep();
      } else if op == IB.Mov {
        r := MovStep();
      } else if op == IB.Jmp {
        r := JmpStep();
      } else if op == IB.JmpIf {
        r := JmpIfStep();
      } else if op == IB.Throw {
        r := ThrowStep();
      } else if op == IB.SetCatch {
        r := SetCatchStep();
      } else if op == IB.UnsetCatch {
        catchSetting := None;
        r := Ok(Continue);
      } else if op == IB.RequireMutableThis {
        r := if constThis then Err(CONST_THIS_ERROR) else Ok(Continue);
      } else {
        r := Ok(Beyond(op));
      }
    }

    method EndStep() returns (r: Result<StepOk, Val>)
      modifies this
      ensures r == EndArm(old(State())).0
      ensures !r.Panic? ==> State() == EndArm(old(State())).1
    {
      if |registers| < 2 { return Panic(OUT_OF_BOUNDS); }
      var returnValue, thisValue := registers[0], registers[1];
      registers := registers[0 := DEFAULT][1 := DEFAULT];
      return Ok(Pop(CallResult(returnValue, thisValue)));
    }

    method MovStep() returns (r: Result<StepOk, Val>)
      modifies this, decoder
      ensures r == MovArm(decoder.bytecode, old(State()), fuel).0
      ensures !r.Panic? ==> State() == MovArm(decoder.bytecode, old(State()), fuel).1
    {
      var v := decoder.DecodeVal(registers, fuel);
      if v.None? { return Panic(BAD_BYTECODE); }
      var dst := decoder.DecodeRegisterIndex();
      if dst.None? { return Panic(BAD_BYTECODE); }
      var ok := SetRegister(dst.value, v.value);
      if !ok { return Panic(OUT_OF_BOUNDS); }
      return Ok(Continue);
    }

    method JmpStep() returns (r: Result<StepOk, Val>)
      modifies decoder
      ensures r == JmpArm(decoder.bytecode, old(State())).0
      ensures !r.Panic? ==> State() == JmpArm(decoder.bytecode, old(State())).1
    {
      var dst := decoder.DecodePos();
      if dst.None? { return Panic(BAD_BYTECODE); }
      decoder.pos := dst.value;
      return Ok(Continue);
    }

    method JmpIfStep() returns (r: Result<StepOk, Val>)
      modifies decoder
      ensures r == JmpIfArm(decoder.bytecode, old(State()), fuel).0
      ensures !r.Panic? ==> State() == JmpIfArm(decoder.bytecode, old(State()), fuel).1
    {
      var cond := decoder.DecodeVal(registers, fuel);
      if cond.None? { return Panic(BAD_BYTECODE); }
      var dst := decoder.DecodePos();
      if dst.None? { return Panic(BAD_BYTECODE); }
      if IsTruthy(cond.value) {
        decoder.pos := dst.value;
      }
      return Ok(Continue);
    }

    method ThrowStep() returns (r: Result<StepOk, Val>)
      modifies decoder
      ensures r == ThrowArm(decoder.bytecode, old(State()), fuel).0
      ensures !r.Panic? ==> State() == ThrowArm(decoder.bytecode, old(State()), fuel).1
    {
      var t := decoder.PeekType();
      if t.None? { return Panic(BAD_BYTECODE); }
      if t.value == BytecodeType.Register {
        var _ := decoder.DecodeType();
        var i := decoder.DecodeRegisterIndex();
        if i.None? { return Panic(BAD_BYTECODE); }
        if i.value.None? { return Panic(IGNORE_REGISTER); }
        if |registers| <= i.value.value { return Panic(OUT_OF_BOUNDS); }
        var error := registers[i.value.value];
        return if error == Val.Void then Ok(Continue) else Err(error);
      }
      var error := decoder.DecodeVal(registers, fuel);
      if error.None? { return Panic(BAD_BYTECODE); }
      return Err(error.value);
    }

    method SetCatchStep() returns (r: Result<StepOk, Val>)
      modifies this, decoder
      ensures r == SetCatchArm(decoder.bytecode, old(State())).0
      ensures !r.Panic? ==> State() == SetCatchArm(decoder.bytecode, old(State())).1
    {
      var dst := decoder.DecodePos();
      if dst.None? { return Panic(BAD_BYTECODE); }
      var register := decoder.DecodeRegisterIndex();
      if register.None? { return Panic(BAD_BYTECODE); }
      catchSetting := Some(CatchSetting(dst.value, register.value));
      return Ok(Continue);
    }
  }
}
