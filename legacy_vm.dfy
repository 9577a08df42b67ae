/**
 * The first virtual machine (`src/vstc/virtual_machine/virtual_machine.rs`):
 * a stack of frames, each with its own registers and bytecode cursor, run
 * until only the outermost frame is left.
 */
module LegacyVirtualMachine {
  import opened Wrappers
  import opened Values

  /** An operand as the decoder reads it: a constant, or a reference to a register of the frame. */
  datatype Operand = Const(value: Val) | Reg(index: nat)

  /**
   * The instructions `step` executes, with their operands decoded. The
   * arithmetic arms (`OpInc`, `OpPlus`, `OpMul`, `OpMod`, `OpLess`) and the
   * instructions `step` does not implement are `Unmodelled`.
   */
  datatype Instruction =
    | End
    | Mov(source: Operand, register: Option<nat>)
    | Jmp(dst: nat)
    | JmpIf(condition: Operand, dst: nat)
    | Unmodelled

  /** An instruction together with the cursor position just after it. */
  datatype Decoded = Decoded(instruction: Instruction, next: nat)

  /**
   * A stack frame. The decoder is represented by what it reads: `code` maps
   * each instruction's position to the decoded instruction; a position
   * outside it is one the decoder cannot read.
   */
  datatype Frame = Frame(code: map<nat, Decoded>, pos: nat, registers: seq<Val>, thisTarget: nat, returnTarget: nat)

  /** A frame's targets are registers it has. */
  predicate ValidFrame(f: Frame) {
    f.thisTarget < |f.registers| && f.returnTarget < |f.registers|
  }

  /** The stack is never empty and every frame's targets are in range. */
  predicate ValidStack(stack: seq<Frame>) {
    |stack| >= 1 && forall i :: 0 <= i < |stack| ==> ValidFrame(stack[i])
  }

  /** `decode_val`: a register operand reads the register; one out of range panics. */
  function Resolve(op: Operand, registers: seq<Val>): (r: Option<Val>)
    ensures op.Const? ==> r == Some(op.value)
    ensures op.Reg? ==> (r.Some? <==> op.index < |registers|) && (r.Some? ==> r.value == registers[op.index])
  {
    match op
    case Const(v) => Some(v)
    case Reg(i) => if i < |registers| then Some(registers[i]) else None
  }

  // ---------------------------------------------------------------------------
  // The transitions, as functions of the stack.
  // ---------------------------------------------------------------------------

  /**
   * `pop`: remove the top frame and store its registers 0 and 1 into the
   * caller's return and `this` targets, in that order. `None` where the
   * source panics: fewer than two frames, or a register out of range.
   */
  function Popped(stack: seq<Frame>): Option<seq<Frame>> {
    if |stack| < 2 then None
    else
      var old_ := stack[|stack| - 1];
      var caller := stack[|stack| - 2];
      if |old_.registers| < 2 || caller.returnTarget >= |caller.registers| || caller.thisTarget >= |caller.registers| then None
      else
        var regs := caller.registers[caller.returnTarget := old_.registers[0]][caller.thisTarget := old_.registers[1]];
        Some(stack[..|stack| - 2] + [caller.(registers := regs)])
  }

  /** The top frame after executing `d`, when that is not `End`; `None` where the source panics. */
  function Executed(top: Frame, d: Decoded): Option<Frame>
    requires !d.instruction.End?
  {
    match d.instruction
    case Mov(source, register) =>
      (match Resolve(source, top.registers)
       case None => None
       case Some(v) =>
         match register
         case None => Some(top.(pos := d.next))
         case Some(i) => if i < |top.registers| then Some(top.(pos := d.next, registers := top.registers[i := v])) else None)
    case Jmp(dst) => Some(top.(pos := dst))
    case JmpIf(condition, dst) =>
      (match Resolve(condition, top.registers)
       case None => None
       case Some(v) => Some(top.(pos := if IsTruthy(v) then dst else d.next)))
    case Unmodelled => None
  }

  /** `step`: decode the top frame's next instruction and execute it. */
  function Stepped(stack: seq<Frame>): Option<seq<Frame>>
    requires stack != []
  {
    var top := stack[|stack| - 1];
    if top.pos !in top.code then None
    else
      var d := top.code[top.pos];
      if d.instruction.End? then Popped(stack)
      else
        match Executed(top, d)
        case None => None
        case Some(f) => Some(stack[..|stack| - 1] + [f])
  }

  /** How `run` can end. */
  datatype Outcome = Returned(value: Val) | Panicked | OutOfFuel

  /**
   * `run`'s loop: step while more than one frame is left. The loop need not
   * end, so at most `fuel` steps are taken.
   */
  function Ran(stack: seq<Frame>, fuel: nat): (r: (Outcome, seq<Frame>))
    requires stack != []
    decreases fuel
  {
    if |stack| <= 1 then (Returned(if stack[0].registers == [] then Void else stack[0].registers[0]), stack)
    else if fuel == 0 then (OutOfFuel, stack)
    else
      match Stepped(stack)
      case None => (Panicked, stack)
      case Some(next) => if next == [] then (Panicked, stack) else Ran(next, fuel - 1)
  }

  // ---------------------------------------------------------------------------
  // Properties of the transitions.
  // ---------------------------------------------------------------------------

  /**
   * `pop` hands the callee's registers 0 and 1 to the caller's return and
   * `this` targets; when the two targets are one register the `this` value,
   * written last, is what it holds. Nothing else changes.
   */
  lemma PopDelivers(stack: seq<Frame>)
    requires Popped(stack).Some?
    ensures var s := Popped(stack).value;
      var callee := stack[|stack| - 1];
      var caller := stack[|stack| - 2];
      |s| == |stack| - 1 && s[..|s| - 1] == stack[..|stack| - 2]
      && s[|s| - 1].registers[caller.thisTarget] == callee.registers[1]
      && (caller.returnTarget != caller.thisTarget ==> s[|s| - 1].registers[caller.returnTarget] == callee.registers[0])
      && |s[|s| - 1].registers| == |caller.registers|
      && (forall j :: 0 <= j < |caller.registers| && j != caller.returnTarget && j != caller.thisTarget ==>
            s[|s| - 1].registers[j] == caller.registers[j])
      && s[|s| - 1].(registers := caller.registers) == caller
  {
  }

  /** `pop` on a stack with a single frame panics. */
  lemma PopNeedsCaller(stack: seq<Frame>)
    requires |stack| <= 1
    ensures Popped(stack).None?
  {
  }

  /** A `Mov` into the ignored register (no index) changes no register; only the cursor moves on. */
  lemma MovToIgnoredChangesNothing(top: Frame, source: Operand, next: nat)
    requires Resolve(source, top.registers).Some?
    ensures Executed(top, Decoded(Mov(source, None), next)) == Some(top.(pos := next))
  {
  }

  /** A `Mov` into register `i` changes that register alone, to the source's value. */
  lemma MovWritesOneRegister(top: Frame, source: Operand, i: nat, next: nat)
    requires Resolve(source, top.registers).Some? && i < |top.registers|
    ensures var f := Executed(top, Decoded(Mov(source, Some(i)), next));
      f.Some? && |f.value.registers| == |top.registers| && f.value.registers[i] == Resolve(source, top.registers).value
      && (forall j :: 0 <= j < |top.registers| && j != i ==> f.value.registers[j] == top.registers[j])
  {
  }

  /** `Jmp` always continues at its target; `JmpIf` does exactly when its condition is truthy. */
  lemma JumpsFollowCondition(top: Frame, condition: Operand, dst: nat, next: nat)
    requires Resolve(condition, top.registers).Some? && dst != next
    ensures Executed(top, Decoded(Jmp(dst), next)).value.pos == dst
    ensures Executed(top, Decoded(JmpIf(condition, dst), next)).value.pos == dst
      <==> IsTruthy(Resolve(condition, top.registers).value)
    ensures Executed(top, Decoded(JmpIf(condition, dst), next)).value.registers == top.registers
  {
  }

  /** Executing an instruction other than `End` keeps the frame's targets and its number of registers. */
  lemma ExecutedKeepsTargets(top: Frame, d: Decoded)
    requires !d.instruction.End? && Executed(top, d).Some?
    ensures var f := Executed(top, d).value;
      f.thisTarget == top.thisTarget && f.returnTarget == top.returnTarget
      && |f.registers| == |top.registers|
  {
  }

  /**
   * A step keeps the stack valid; only `End` changes the number of frames
   * (by one), and every other instruction leaves the frames below the top
   * and the top's targets alone.
   */
  lemma StepPreservesValid(stack: seq<Frame>)
    requires ValidStack(stack) && Stepped(stack).Some?
    ensures ValidStack(Stepped(stack).value)
    ensures |Stepped(stack).value| == |stack| || |Stepped(stack).value| == |stack| - 1
    ensures |Stepped(stack).value| != |stack| ==>
      stack[|stack| - 1].code[stack[|stack| - 1].pos].instruction.End?
    ensures |Stepped(stack).value| == |stack| ==>
      Stepped(stack).value[..|stack| - 1] == stack[..|stack| - 1]
      && Stepped(stack).value[|stack| - 1].thisTarget == stack[|stack| - 1].thisTarget
      && Stepped(stack).value[|stack| - 1].returnTarget == stack[|stack| - 1].returnTarget
      && |Stepped(stack).value[|stack| - 1].registers| == |stack[|stack| - 1].registers|
  {
    var top := stack[|stack| - 1];
    var d := top.code[top.pos];
    if d.instruction.End? {
      PopDelivers(stack);
      var s := Popped(stack).value;
      forall i | 0 <= i < |s|
        ensures ValidFrame(s[i])
      {
        if i < |s| - 1 {
          assert s[i] == stack[i];
        }
      }
    } else {
      var f := Executed(top, d).value;
      ExecutedKeepsTargets(top, d);
      var s := Stepped(stack).value;
      assert s == stack[..|stack| - 1] + [f];
      forall i | 0 <= i < |s|
        ensures ValidFrame(s[i])
      {
        if i < |s| - 1 {
          assert s[i] == stack[i];
        }
      }
    }
  }

  /** `run` stops only with one frame left, and then returns that frame's register 0. */
  lemma {:induction false} RunReturnsBottom(stack: seq<Frame>, fuel: nat)
    requires ValidStack(stack)
    ensures var (outcome, final) := Ran(stack, fuel);
      ValidStack(final)
      && (outcome.Returned? ==> |final| == 1 && outcome.value == final[0].registers[0])
      && (outcome.OutOfFuel? ==> |final| > 1)
    decreases fuel
  {
    if |stack| > 1 && fuel > 0 {
      match Stepped(stack)
      case None =>
      case Some(next) =>
        if next != [] {
          StepPreservesValid(stack);
          RunReturnsBottom(next, fuel - 1);
        }
    }
  }

  // ---------------------------------------------------------------------------
  // The machine.
  // ---------------------------------------------------------------------------

  class VirtualMachine {
    var stack: seq<Frame>

    /** `new`: one frame with two undefined registers, returning into register 0 and `this` into 1. */
    constructor()
      ensures stack == [Frame(map[], 0, [Undefined, Undefined], 1, 0)]
      ensures ValidStack(stack)
    {
      var registers := [Undefined, Undefined];
      stack := [Frame(map[], 0, registers, 1, 0)];
    }

    /** `pop`; `false` where the source panics, and then nothing has changed. */
    method Pop() returns (ok: bool)
      modifies this
      ensures ok == Popped(old(stack)).Some?
      ensures ok ==> stack == Popped(old(stack)).value
      ensures !ok ==> stack == old(stack)
    {
      if |stack| < 2 {
        return false;
      }
      var oldFrame := stack[|stack| - 1];
      var frame := stack[|stack| - 2];
      if |oldFrame.registers| < 2 || frame.returnTarget >= |frame.registers| || frame.thisTarget >= |frame.registers| {
        return false;
      }
      var registers := frame.registers;
      registers := registers[frame.returnTarget := oldFrame.registers[0]];
      registers := registers[frame.thisTarget := oldFrame.registers[1]];
      stack := stack[..|stack| - 2] + [frame.(registers := registers)];
      ok := true;
    }

    /** `step`; `false` where the source panics, and then nothing has changed. */
    method Step() returns (ok: bool)
      requires stack != []
      modifies this
      ensures ok == Stepped(old(stack)).Some?
      ensures ok ==> stack == Stepped(old(stack)).value
      ensures !ok ==> stack == old(stack)
    {
      var frame := stack[|stack| - 1];
      if frame.pos !in frame.code {
        return false;
      }
      var d := frame.code[frame.pos];
      frame := frame.(pos := d.next);
      match d.instruction {
        case End =>
          ok := Pop();
          return;
        case Mov(source, register) =>
          var val := Resolve(source, frame.registers);
          if val.None? {
            return false;
          }
          if register.Some? {
            if register.value >= |frame.registers| {
              return false;
            }
            frame := frame.(registers := frame.registers[register.value := val.value]);
          }
        case Jmp(dst) =>
          frame := frame.(pos := dst);
        case JmpIf(condition, dst) =>
          var cond := Resolve(condition, frame.registers);
          if cond.None? {
            return false;
          }
          if IsTruthy(cond.value) {
            frame := frame.(pos := dst);
          }
        case Unmodelled =>
          return false;
      }
      stack := stack[..|stack| - 1] + [frame];
      ok := true;
    }

    /**
     * `run`, from the pushed main frame on: step while more than one frame
     * is left, then return the outermost frame's register 0.
     */
    method Run(main: Frame, fuel: nat) returns (outcome: Outcome)
      requires ValidStack(stack) && ValidFrame(main)
      modifies this
      ensures (outcome, stack) == Ran(old(stack) + [main], fuel)
      ensures ValidStack(stack)
      ensures outcome.Returned? ==> |stack| == 1 && outcome.value == stack[0].registers[0]
    {
      stack := stack + [main];
      assert ValidStack(stack);
      RunReturnsBottom(stack, fuel);
      var remaining := fuel;
      while |stack| > 1
        invariant ValidStack(stack)
        invariant Ran(stack, remaining) == Ran(old(stack) + [main], fuel)
        decreases remaining
      {
        if remaining == 0 {
          return OutOfFuel;
        }
        var before := stack;
        var ok := Step();
        if !ok {
          return Panicked;
        }
        StepPreservesValid(before);
        remaining := remaining - 1;
      }
      outcome := Returned(stack[0].registers[0]);
    }
  }
}
