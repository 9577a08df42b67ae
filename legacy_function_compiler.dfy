/**
 * The legacy compiler's function compiler (`src/vstc/function_compiler.rs`):
 * the lines it emits for loops, `break`, `continue` and `return`, the stack of
 * loop labels those statements consult, the function heading, the
 * breadth-first closure of captured names for hoisted functions, and the
 * queue of functions it drains.
 *
 * Names the compiler's allocators choose (labels, condition registers,
 * parameter registers) are carried in the statements themselves, and the code
 * the expression compiler emits for an expression is given as its lines.
 */
module LegacyFunctionCompiler {
  import opened Wrappers
  import opened Text

  // ---------------------------------------------------------------------------
  // Statements and the lines they compile to.
  // ---------------------------------------------------------------------------

  /** The labels `continue` and `break` jump to inside the innermost loop. */
  datatype LoopLabels = LoopLabels(continueLabel: string, breakLabel: string)

  /** An emitted line, before it is printed. `Code` is a line the expression compiler emitted. */
  datatype Line =
    | Jmp(target: string)
    | JmpIf(condition: string, target: string)
    | LabelDef(name: string)
    | OpNot(value: string, register: string)
    | End
    | Code(text: string)

  /** How each line is printed into the function's definition. */
  function LineText(l: Line): string {
    match l
    case Jmp(t) => "  jmp :" + t
    case JmpIf(c, t) => "  jmpif " + c + " :" + t
    case LabelDef(n) => n + ":"
    case OpNot(v, r) => "  op! " + v + " %" + r
    case End => "  end"
    case Code(t) => t
  }

  function Texts(ls: seq<Line>): (ts: seq<string>)
    ensures |ts| == |ls| && forall i :: 0 <= i < |ls| ==> ts[i] == LineText(ls[i])
  {
    seq(|ls|, i requires 0 <= i < |ls| => LineText(ls[i]))
  }

  function Codes(code: seq<string>): (ls: seq<Line>)
    ensures |ls| == |code| && forall i :: 0 <= i < |ls| ==> ls[i] == Code(code[i])
  {
    seq(|code|, i requires 0 <= i < |code| => Code(code[i]))
  }

  /** A compiled condition: the lines computing it and the assembly of its value. */
  datatype Condition = Condition(code: seq<string>, valueAssembly: string)

  datatype Stmt =
    | Break
    | Continue
    | ReturnVoid
    | Return(argument: seq<string>)
    | Expression(code: seq<string>)
    | Block(stmts: seq<Stmt>)
    | If(test: Condition, conditionRegister: string, elseLabel: string, cons: Stmt, alt: Option<Stmt>, afterElseLabel: string)
    | While(test: Condition, conditionRegister: string, startLabel: string, endLabel: string, body: Stmt)
    | DoWhile(body: Stmt, test: Condition, startLabel: string, continueLabel: string, endLabel: string)
    | For(init: seq<string>, forTest: Option<Condition>, conditionRegister: string,
          testLabel: string, continueLabel: string, endLabel: string, body: Stmt, update: seq<string>)

  /** The jump out of a loop when its test is false: negate into the condition register, then jump if set. */
  function ExitTest(test: Condition, register: string, exit: string): seq<Line> {
    Codes(test.code) + [OpNot(test.valueAssembly, register), JmpIf("%" + register, exit)]
  }

  /**
   * The lines `statement` emits for `s` with the loop-label stack `labels`;
   * `None` when a `break` or `continue` has no loop around it, where the
   * compiler panics. `fnLast` says `s` is the function body's last statement.
   */
  function Lines(s: Stmt, fnLast: bool, labels: seq<LoopLabels>): Option<seq<Line>>
    decreases s, 1
  {
    match s
    case Break => if labels == [] then None else Some([Jmp(labels[|labels| - 1].breakLabel)])
    case Continue => if labels == [] then None else Some([Jmp(labels[|labels| - 1].continueLabel)])
    case ReturnVoid => Some([End])
    case Return(argument) => Some(Codes(argument) + if fnLast then [] else [End])
    case Expression(code) => Some(Codes(code))
    case Block(stmts) => BlockLines(stmts, labels)
    case If(test, register, elseLabel, cons, alt, afterElse) =>
      (match Lines(cons, false, labels)
       case None => None
       case Some(c) =>
         if alt.None? then Some(IfLines(test, register, elseLabel, c, None, afterElse))
         else
           match Lines(alt.value, false, labels)
           case None => None
           case Some(a) => Some(IfLines(test, register, elseLabel, c, Some(a), afterElse)))
    case While(test, register, start, end, body) =>
      (match Lines(body, false, labels + [LoopLabels(start, end)])
       case None => None
       case Some(b) => Some(WhileLines(test, register, start, end, b)))
    case DoWhile(body, test, start, cont, end) =>
      (match Lines(body, false, labels + [LoopLabels(cont, end)])
       case None => None
       case Some(b) => Some(DoWhileLines(b, test, start, cont, end)))
    case For(init, test, register, testLabel, cont, end, body, update) =>
      (match Lines(body, false, labels + [LoopLabels(cont, end)])
       case None => None
       case Some(b) => Some(ForLines(init, test, register, testLabel, cont, end, b, update)))
  }

  /** An `if`: jump to the else label when the test is false; with an `else`, the consequent jumps over it. */
  function IfLines(test: Condition, register: string, elseLabel: string, c: seq<Line>, alt: Option<seq<Line>>, afterElse: string): seq<Line> {
    if alt.None? then ExitTest(test, register, elseLabel) + c + [LabelDef(elseLabel)]
    else ExitTest(test, register, elseLabel) + c + [Jmp(afterElse)] + [LabelDef(elseLabel)] + alt.value + [LabelDef(afterElse)]
  }

  /** A while loop: the start label, the exit test, the body, and the jump back. */
  function WhileLines(test: Condition, register: string, start: string, end: string, b: seq<Line>): seq<Line> {
    [LabelDef(start)] + ExitTest(test, register, end) + b + [Jmp(start)] + [LabelDef(end)]
  }

  /** A for loop: the initialiser, the test label and optional exit test, the body, the continue label, the update and the jump back. */
  function ForLines(init: seq<string>, test: Option<Condition>, register: string, testLabel: string, cont: string, end: string,
                    b: seq<Line>, update: seq<string>): seq<Line> {
    var check := if test.Some? then ExitTest(test.value, register, end) else [];
    Codes(init) + [LabelDef(testLabel)] + check + b + [LabelDef(cont)] + Codes(update) + [Jmp(testLabel)] + [LabelDef(end)]
  }

  /** A do-while loop as written: the body, the test's code, then the continue label and the jump back. */
  function DoWhileLines(body: seq<Line>, test: Condition, start: string, cont: string, end: string): seq<Line> {
    [LabelDef(start)] + body + Codes(test.code) + [LabelDef(cont)] + [JmpIf(test.valueAssembly, start)] + [LabelDef(end)]
  }

  /** The statements of a block, none of them last in the function. */
  function BlockLines(stmts: seq<Stmt>, labels: seq<LoopLabels>): Option<seq<Line>>
    decreases stmts, 0
  {
    if stmts == [] then Some([])
    else
      match BlockLines(stmts[..|stmts| - 1], labels)
      case None => None
      case Some(init) =>
        match Lines(stmts[|stmts| - 1], false, labels)
        case None => None
        case Some(last) => Some(init + last)
  }

  // Where jumps land.

  /** The label a line jumps to, if any. */
  function LineTargets(l: Line): set<string> {
    if l.Jmp? || l.JmpIf? then {l.target} else {}
  }

  /** The label a line defines, if any. */
  function LineDefines(l: Line): set<string> {
    if l.LabelDef? then {l.name} else {}
  }

  /** The labels the lines jump to. */
  function Targets(ls: seq<Line>): set<string> {
    if ls == [] then {} else Targets(ls[..|ls| - 1]) + LineTargets(ls[|ls| - 1])
  }

  /** The labels the lines define. */
  function Defined(ls: seq<Line>): set<string> {
    if ls == [] then {} else Defined(ls[..|ls| - 1]) + LineDefines(ls[|ls| - 1])
  }

  /** The labels of the enclosing loops. */
  function StackLabels(labels: seq<LoopLabels>): set<string> {
    (set i | 0 <= i < |labels| :: labels[i].continueLabel) + (set i | 0 <= i < |labels| :: labels[i].breakLabel)
  }

  lemma {:induction false} TargetsAppend(a: seq<Line>, b: seq<Line>)
    ensures Targets(a + b) == Targets(a) + Targets(b)
    ensures Defined(a + b) == Defined(a) + Defined(b)
    decreases |b|
  {
    if b == [] {
      assert a + b == a;
    } else {
      assert (a + b)[..|a + b| - 1] == a + b[..|b| - 1];
      TargetsAppend(a, b[..|b| - 1]);
    }
  }

  lemma {:induction false} CodesJumpNowhere(code: seq<string>)
    ensures Targets(Codes(code)) == {} && Defined(Codes(code)) == {}
  {
    if code != [] {
      CodesJumpNowhere(code[..|code| - 1]);
      assert Codes(code)[..|code| - 1] == Codes(code[..|code| - 1]);
    }
  }

  lemma Snoc(a: seq<Line>, l: Line)
    ensures Targets(a + [l]) == Targets(a) + LineTargets(l)
    ensures Defined(a + [l]) == Defined(a) + LineDefines(l)
  {
    assert (a + [l])[..|a|] == a;
  }

  /**
   * Every jump a statement compiles to lands on a label the statement itself
   * defines, or on a label of an enclosing loop: `break` and `continue` use
   * the innermost loop's labels, and each loop defines the labels it pushes.
   */
  lemma {:induction false} JumpsLand(s: Stmt, fnLast: bool, labels: seq<LoopLabels>)
    requires Lines(s, fnLast, labels).Some?
    ensures var ls := Lines(s, fnLast, labels).value;
      Targets(ls) <= Defined(ls) + StackLabels(labels)
    decreases s, 1
  {
    match s
    case Break =>
      Snoc([], Jmp(labels[|labels| - 1].breakLabel));
    case Continue =>
      Snoc([], Jmp(labels[|labels| - 1].continueLabel));
    case ReturnVoid =>
      Snoc([], End);
    case Return(argument) =>
      CodesJumpNowhere(argument);
      if fnLast {
        assert Codes(argument) + [] == Codes(argument);
      } else {
        Snoc(Codes(argument), End);
      }
    case Expression(code) =>
      CodesJumpNowhere(code);
    case Block(stmts) =>
      BlockJumpsLand(stmts, labels);
    case If(test, register, elseLabel, cons, alt, afterElse) =>
      JumpsLand(cons, false, labels);
      var c := Lines(cons, false, labels).value;
      if alt.None? {
        IfJumpsLand(test, register, elseLabel, c, None, afterElse, StackLabels(labels));
      } else {
        JumpsLand(alt.value, false, labels);
        IfJumpsLand(test, register, elseLabel, c, Lines(alt.value, false, labels), afterElse, StackLabels(labels));
      }
    case While(test, register, start, end, body) =>
      var inner := labels + [LoopLabels(start, end)];
      JumpsLand(body, false, inner);
      StackPush(labels, start, end);
      WhileJumpsLand(test, register, start, end, Lines(body, false, inner).value, StackLabels(labels));
    case DoWhile(body, test, start, cont, end) =>
      var inner := labels + [LoopLabels(cont, end)];
      JumpsLand(body, false, inner);
      StackPush(labels, cont, end);
      DoWhileJumpsLand(Lines(body, false, inner).value, test, start, cont, end, StackLabels(labels));
    case For(init, test, register, testLabel, cont, end, body, update) =>
      var inner := labels + [LoopLabels(cont, end)];
      JumpsLand(body, false, inner);
      StackPush(labels, cont, end);
      ForJumpsLand(init, test, register, testLabel, cont, end, Lines(body, false, inner).value, update, StackLabels(labels));
  }

  lemma {:induction false} BlockJumpsLand(stmts: seq<Stmt>, labels: seq<LoopLabels>)
    requires BlockLines(stmts, labels).Some?
    ensures var ls := BlockLines(stmts, labels).value;
      Targets(ls) <= Defined(ls) + StackLabels(labels)
    decreases stmts, 0
  {
    if stmts != [] {
      BlockJumpsLand(stmts[..|stmts| - 1], labels);
      JumpsLand(stmts[|stmts| - 1], false, labels);
      TargetsAppend(BlockLines(stmts[..|stmts| - 1], labels).value, Lines(stmts[|stmts| - 1], false, labels).value);
    }
  }

  lemma StackPush(labels: seq<LoopLabels>, cont: string, brk: string)
    ensures StackLabels(labels + [LoopLabels(cont, brk)]) == StackLabels(labels) + {cont, brk}
  {
    var inner := labels + [LoopLabels(cont, brk)];
    assert inner[|labels|] == LoopLabels(cont, brk);
    forall t | t in StackLabels(inner) ensures t in StackLabels(labels) + {cont, brk} {
      if i :| 0 <= i < |labels| && inner[i].continueLabel == t {
        assert labels[i] == inner[i];
      } else if i :| 0 <= i < |labels| && inner[i].breakLabel == t {
        assert labels[i] == inner[i];
      }
    }
    forall t | t in StackLabels(labels) ensures t in StackLabels(inner) {
      if i :| 0 <= i < |labels| && labels[i].continueLabel == t {
        assert inner[i] == labels[i];
      } else {
        var i :| 0 <= i < |labels| && labels[i].breakLabel == t;
        assert inner[i] == labels[i];
      }
    }
  }

  lemma ExitTestJumps(test: Condition, register: string, exit: string)
    ensures Targets(ExitTest(test, register, exit)) <= {exit}
    ensures Defined(ExitTest(test, register, exit)) == {}
  {
    var c := Codes(test.code);
    CodesJumpNowhere(test.code);
    Snoc(c, OpNot(test.valueAssembly, register));
    Snoc(c + [OpNot(test.valueAssembly, register)], JmpIf("%" + register, exit));
    assert ExitTest(test, register, exit) == c + [OpNot(test.valueAssembly, register)] + [JmpIf("%" + register, exit)];
  }

  lemma IfJumpsLand(test: Condition, register: string, elseLabel: string, c: seq<Line>, alt: Option<seq<Line>>,
                    afterElse: string, outer: set<string>)
    requires Targets(c) <= Defined(c) + outer
    requires alt.Some? ==> Targets(alt.value) <= Defined(alt.value) + outer
    ensures var ls := IfLines(test, register, elseLabel, c, alt, afterElse);
      Targets(ls) <= Defined(ls) + outer
  {
    var e := ExitTest(test, register, elseLabel);
    ExitTestJumps(test, register, elseLabel);
    TargetsAppend(e, c);
    if alt.None? {
      Snoc(e + c, LabelDef(elseLabel));
    } else {
      var a := alt.value;
      Snoc(e + c, Jmp(afterElse));
      Snoc(e + c + [Jmp(afterElse)], LabelDef(elseLabel));
      TargetsAppend(e + c + [Jmp(afterElse)] + [LabelDef(elseLabel)], a);
      Snoc(e + c + [Jmp(afterElse)] + [LabelDef(elseLabel)] + a, LabelDef(afterElse));
    }
  }

  lemma WhileJumpsLand(test: Condition, register: string, start: string, end: string, b: seq<Line>, outer: set<string>)
    requires Targets(b) <= Defined(b) + outer + {start, end}
    ensures var ls := WhileLines(test, register, start, end, b);
      Targets(ls) <= Defined(ls) + outer
  {
    var e := ExitTest(test, register, end);
    ExitTestJumps(test, register, end);
    Snoc([], LabelDef(start));
    TargetsAppend([LabelDef(start)], e);
    TargetsAppend([LabelDef(start)] + e, b);
    var p := [LabelDef(start)] + e + b;
    Snoc(p, Jmp(start));
    Snoc(p + [Jmp(start)], LabelDef(end));
  }

  lemma DoWhileJumpsLand(b: seq<Line>, test: Condition, start: string, cont: string, end: string, outer: set<string>)
    requires Targets(b) <= Defined(b) + outer + {cont, end}
    ensures var ls := DoWhileLines(b, test, start, cont, end);
      Targets(ls) <= Defined(ls) + outer
  {
    var c := Codes(test.code);
    CodesJumpNowhere(test.code);
    Snoc([], LabelDef(start));
    TargetsAppend([LabelDef(start)], b);
    TargetsAppend([LabelDef(start)] + b, c);
    var p := [LabelDef(start)] + b + c;
    Snoc(p, LabelDef(cont));
    Snoc(p + [LabelDef(cont)], JmpIf(test.valueAssembly, start));
    Snoc(p + [LabelDef(cont)] + [JmpIf(test.valueAssembly, start)], LabelDef(end));
  }

  lemma ForJumpsLand(init: seq<string>, test: Option<Condition>, register: string, testLabel: string, cont: string, end: string,
                     b: seq<Line>, update: seq<string>, outer: set<string>)
    requires Targets(b) <= Defined(b) + outer + {cont, end}
    ensures var ls := ForLines(init, test, register, testLabel, cont, end, b, update);
      Targets(ls) <= Defined(ls) + outer
  {
    var check := if test.Some? then ExitTest(test.value, register, end) else [];
    if test.Some? {
      ExitTestJumps(test.value, register, end);
    }
    ForHead(init, testLabel, check, b);
    ForTail(Codes(init) + [LabelDef(testLabel)] + check + b, cont, update, testLabel, end);
  }

  lemma ForHead(init: seq<string>, testLabel: string, check: seq<Line>, b: seq<Line>)
    ensures var p := Codes(init) + [LabelDef(testLabel)] + check + b;
      Targets(p) == Targets(check) + Targets(b) && Defined(p) == Defined(check) + Defined(b) + {testLabel}
  {
    CodesJumpNowhere(init);
    Snoc(Codes(init), LabelDef(testLabel));
    var p1 := Codes(init) + [LabelDef(testLabel)];
    TargetsAppend(p1, check);
    TargetsAppend(p1 + check, b);
  }

  lemma ForTail(p: seq<Line>, cont: string, update: seq<string>, testLabel: string, end: string)
    ensures var ls := p + [LabelDef(cont)] + Codes(update) + [Jmp(testLabel)] + [LabelDef(end)];
      Targets(ls) == Targets(p) + {testLabel} && Defined(ls) == Defined(p) + {cont, end}
  {
    CodesJumpNowhere(update);
    Snoc(p, LabelDef(cont));
    TargetsAppend(p + [LabelDef(cont)], Codes(update));
    var q := p + [LabelDef(cont)] + Codes(update);
    Snoc(q, Jmp(testLabel));
    Snoc(q + [Jmp(testLabel)], LabelDef(end));
  }

  /** A whole function body starts with no loop around it, so every jump it makes lands inside it. */
  lemma FunctionJumpsLand(s: Stmt, fnLast: bool)
    requires Lines(s, fnLast, []).Some?
    ensures var ls := Lines(s, fnLast, []).value;
      Targets(ls) <= Defined(ls)
  {
    JumpsLand(s, fnLast, []);
    assert StackLabels([]) == {};
  }

  /**
   * `return;` always emits `end`; `return e;` emits it only when it is not the
   * function's last statement, where falling off the end returns anyway.
   */
  lemma ReturnEmitsEnd(argument: seq<string>, fnLast: bool, labels: seq<LoopLabels>)
    ensures Lines(ReturnVoid, fnLast, labels).value == [End]
    ensures var ls := Lines(Return(argument), fnLast, labels).value;
      (End in ls) <==> !fnLast
  {
    var ls := Lines(Return(argument), fnLast, labels).value;
    if fnLast {
      assert ls == Codes(argument) + [];
      assert forall i :: 0 <= i < |ls| ==> ls[i] == Code(argument[i]);
    } else {
      assert ls[|ls| - 1] == End;
    }
  }

  // The do-while `continue` label.

  /**
   * As written, the continue label of a do-while loop sits after the code
   * that evaluates the test: a `continue` jumps straight to the conditional
   * jump back, which reads whatever the test's registers held before.
   */
  lemma DoWhileContinueSkipsTest(b: seq<Line>, test: Condition, start: string, cont: string, end: string)
    ensures var ls := DoWhileLines(b, test, start, cont, end);
      var k := 1 + |b| + |test.code|;
      k + 1 < |ls| && ls[k] == LabelDef(cont) && ls[k + 1] == JmpIf(test.valueAssembly, start)
      && forall i :: 1 + |b| <= i < k ==> ls[i] == Code(test.code[i - 1 - |b|])
  {
  }

  /** The lines evidently intended: the continue label comes before the test's code. */
  function DoWhileLinesCorrected(body: seq<Line>, test: Condition, start: string, cont: string, end: string): seq<Line> {
    [LabelDef(start)] + body + [LabelDef(cont)] + Codes(test.code) + [JmpIf(test.valueAssembly, start)] + [LabelDef(end)]
  }

  /** In the corrected lines, a `continue` runs all of the test's code before the jump back. */
  lemma DoWhileCorrectedContinueRunsTest(b: seq<Line>, test: Condition, start: string, cont: string, end: string)
    ensures var ls := DoWhileLinesCorrected(b, test, start, cont, end);
      var k := 1 + |b|;
      ls[k] == LabelDef(cont)
      && ls[k + 1..k + 1 + |test.code|] == Codes(test.code)
      && ls[k + 1 + |test.code|] == JmpIf(test.valueAssembly, start)
  {
    var ls := DoWhileLinesCorrected(b, test, start, cont, end);
    var k := 1 + |b|;
    assert ls == ([LabelDef(start)] + b + [LabelDef(cont)]) + Codes(test.code) + ([JmpIf(test.valueAssembly, start)] + [LabelDef(end)]);
    assert ls[k + 1..k + 1 + |test.code|] == Codes(test.code);
  }

  /** The correction moves a label and nothing else, so jumps still land. */
  lemma DoWhileCorrectedJumpsLand(b: seq<Line>, test: Condition, start: string, cont: string, end: string, outer: set<string>)
    requires Targets(b) <= Defined(b) + outer + {cont, end}
    ensures var ls := DoWhileLinesCorrected(b, test, start, cont, end);
      Targets(ls) <= Defined(ls) + outer
  {
    var c := Codes(test.code);
    CodesJumpNowhere(test.code);
    Snoc([], LabelDef(start));
    TargetsAppend([LabelDef(start)], b);
    Snoc([LabelDef(start)] + b, LabelDef(cont));
    var p := [LabelDef(start)] + b + [LabelDef(cont)];
    TargetsAppend(p, c);
    Snoc(p + c, JmpIf(test.valueAssembly, start));
    Snoc(p + c + [JmpIf(test.valueAssembly, start)], LabelDef(end));
  }

  // ---------------------------------------------------------------------------
  // The compiler's state: the definition being built and the loop-label stack.
  // ---------------------------------------------------------------------------

  lemma TextsAppend(a: seq<Line>, b: seq<Line>)
    ensures Texts(a + b) == Texts(a) + Texts(b)
  {
    assert forall i :: 0 <= i < |a + b| ==> Texts(a + b)[i] == (Texts(a) + Texts(b))[i];
  }

  lemma TextsSnoc(a: seq<Line>, l: Line)
    ensures Texts(a + [l]) == Texts(a) + [LineText(l)]
  {
    TextsAppend(a, [l]);
  }

  /** A block compiled one statement further appends that statement's lines. */
  lemma BlockLinesSnoc(stmts: seq<Stmt>, i: nat, labels: seq<LoopLabels>)
    requires i < |stmts| && BlockLines(stmts[..i], labels).Some? && Lines(stmts[i], false, labels).Some?
    ensures BlockLines(stmts[..i + 1], labels)
      == Some(BlockLines(stmts[..i], labels).value + Lines(stmts[i], false, labels).value)
  {
    assert stmts[..i + 1][..i] == stmts[..i];
  }

  /** A block compiles only if each of its statements does. */
  lemma {:induction false} BlockPrefix(stmts: seq<Stmt>, k: nat, labels: seq<LoopLabels>)
    requires k < |stmts| && BlockLines(stmts[..k], labels).Some? && Lines(stmts[k], false, labels).None?
    ensures BlockLines(stmts, labels).None?
    decreases |stmts|
  {
    if k < |stmts| - 1 {
      assert stmts[..|stmts| - 1][..k] == stmts[..k];
      BlockPrefix(stmts[..|stmts| - 1], k, labels);
    } else {
      assert stmts[..|stmts| - 1] == stmts[..k];
    }
  }

  class FunctionCompiler {
    /** The lines of the function definitions compiled so far. */
    var definition: seq<string>
    /** The labels of the loops around the statement being compiled, innermost last. */
    var loopLabels: seq<LoopLabels>

    constructor ()
      ensures definition == [] && loopLabels == []
    {
      definition := [];
      loopLabels := [];
    }

    method Emit(l: Line)
      modifies this
      ensures definition == old(definition) + [LineText(l)] && loopLabels == old(loopLabels)
    {
      definition := definition + [LineText(l)];
    }

    /** Pushes the lines one at a time, as the expression compiler does. */
    method EmitAll(ls: seq<Line>)
      modifies this
      ensures definition == old(definition) + Texts(ls) && loopLabels == old(loopLabels)
    {
      var i := 0;
      while i < |ls|
        invariant 0 <= i <= |ls|
        invariant definition == old(definition) + Texts(ls[..i]) && loopLabels == old(loopLabels)
      {
        TextsSnoc(ls[..i], ls[i]);
        assert ls[..i + 1] == ls[..i] + [ls[i]];
        definition := definition + [LineText(ls[i])];
        i := i + 1;
      }
      assert ls[..i] == ls;
    }

    /**
     * Compiles one statement: appends its lines to the definition and leaves
     * the loop-label stack as it found it. Fails, as the compiler panics, on
     * a `break` or `continue` outside every loop.
     */
    method Statement(s: Stmt, fnLast: bool) returns (ok: bool)
      modifies this
      ensures ok == Lines(s, fnLast, old(loopLabels)).Some?
      ensures ok ==> definition == old(definition) + Texts(Lines(s, fnLast, old(loopLabels)).value)
      ensures ok ==> loopLabels == old(loopLabels)
      decreases s, 1
    {
      ghost var labels := loopLabels;
      ghost var d0 := definition;
      match s
      case Break =>
        if loopLabels == [] {
          return false;
        }
        Emit(Jmp(loopLabels[|loopLabels| - 1].breakLabel));
        TextsSnoc([], Jmp(labels[|labels| - 1].breakLabel));
        ok := true;
      case Continue =>
        if loopLabels == [] {
          return false;
        }
        Emit(Jmp(loopLabels[|loopLabels| - 1].continueLabel));
        TextsSnoc([], Jmp(labels[|labels| - 1].continueLabel));
        ok := true;
      case ReturnVoid =>
        Emit(End);
        TextsSnoc([], End);
        ok := true;
      case Return(argument) =>
        EmitAll(Codes(argument));
        if !fnLast {
          Emit(End);
          TextsSnoc(Codes(argument), End);
        } else {
          assert Codes(argument) + [] == Codes(argument);
        }
        ok := true;
      case Expression(code) =>
        EmitAll(Codes(code));
        ok := true;
      case Block(stmts) =>
        ok := StatementBlock(s);
      case If(test, register, elseLabel, cons, alt, afterElse) =>
        ok := StatementIf(s, fnLast);
      case While(test, register, start, end, body) =>
        ok := StatementWhile(s, fnLast);
      case DoWhile(body, test, start, cont, end) =>
        ok := StatementDoWhile(s, fnLast);
      case For(init, test, register, testLabel, cont, end, body, update) =>
        ok := StatementFor(s, fnLast);
    }

    method StatementBlock(s: Stmt) returns (ok: bool)
      requires s.Block?
      modifies this
      ensures ok == Lines(s, false, old(loopLabels)).Some?
      ensures ok ==> definition == old(definition) + Texts(Lines(s, false, old(loopLabels)).value)
      ensures ok ==> loopLabels == old(loopLabels)
      decreases s, 0
    {
      var stmts := s.stmts;
      ghost var labels := loopLabels;
      var i := 0;
      while i < |stmts|
        invariant 0 <= i <= |stmts|
        invariant BlockLines(stmts[..i], labels).Some?
        invariant definition == old(definition) + Texts(BlockLines(stmts[..i], labels).value)
        invariant loopLabels == labels
      {
        ghost var before := BlockLines(stmts[..i], labels).value;
        ok := Statement(stmts[i], false);
        if !ok {
          BlockPrefix(stmts, i, labels);
          return;
        }
        BlockLinesSnoc(stmts, i, labels);
        TextsAppend(before, Lines(stmts[i], false, labels).value);
        i := i + 1;
      }
      assert stmts[..i] == stmts;
      ok := true;
    }

    method StatementIf(s: Stmt, fnLast: bool) returns (ok: bool)
      requires s.If?
      modifies this
      ensures ok == Lines(s, fnLast, old(loopLabels)).Some?
      ensures ok ==> definition == old(definition) + Texts(Lines(s, fnLast, old(loopLabels)).value)
      ensures ok ==> loopLabels == old(loopLabels)
      decreases s, 0
    {
      ghost var labels := loopLabels;
      ghost var d0 := definition;
      var exit := ExitTest(s.test, s.conditionRegister, s.elseLabel);
      EmitAll(exit);
      ok := Statement(s.cons, false);
      if !ok {
        return;
      }
      ghost var c := Lines(s.cons, false, labels).value;
      ghost var out := Extend(d0, Texts(exit), Texts(c));
      if s.alt.None? {
        Emit(LabelDef(s.elseLabel));
        out := Extend(d0, out, [LineText(LabelDef(s.elseLabel))]);
        IfTexts(s.test, s.conditionRegister, s.elseLabel, c, None, s.afterElseLabel);
        IfDone(s, fnLast, labels, d0, definition);
      } else {
        Emit(Jmp(s.afterElseLabel));
        out := Extend(d0, out, [LineText(Jmp(s.afterElseLabel))]);
        Emit(LabelDef(s.elseLabel));
        out := Extend(d0, out, [LineText(LabelDef(s.elseLabel))]);
        ok := Statement(s.alt.value, false);
        if !ok {
          return;
        }
        ghost var a := Lines(s.alt.value, false, labels).value;
        out := Extend(d0, out, Texts(a));
        Emit(LabelDef(s.afterElseLabel));
        out := Extend(d0, out, [LineText(LabelDef(s.afterElseLabel))]);
        IfTexts(s.test, s.conditionRegister, s.elseLabel, c, Some(a), s.afterElseLabel);
        IfDone(s, fnLast, labels, d0, definition);
      }
    }

    method StatementWhile(s: Stmt, fnLast: bool) returns (ok: bool)
      requires s.While?
      modifies this
      ensures ok == Lines(s, fnLast, old(loopLabels)).Some?
      ensures ok ==> definition == old(definition) + Texts(Lines(s, fnLast, old(loopLabels)).value)
      ensures ok ==> loopLabels == old(loopLabels)
      decreases s, 0
    {
      ghost var labels := loopLabels;
      ghost var d0 := definition;
      var start, end := s.startLabel, s.endLabel;
      loopLabels := loopLabels + [LoopLabels(start, end)];
      Emit(LabelDef(start));
      var exit := ExitTest(s.test, s.conditionRegister, end);
      EmitAll(exit);
      ghost var out := Extend(d0, [LineText(LabelDef(start))], Texts(exit));
      ok := Statement(s.body, false);
      if !ok {
        return;
      }
      ghost var b := Lines(s.body, false, labels + [LoopLabels(start, end)]).value;
      out := Extend(d0, out, Texts(b));
      Emit(Jmp(start));
      out := Extend(d0, out, [LineText(Jmp(start))]);
      Emit(LabelDef(end));
      out := Extend(d0, out, [LineText(LabelDef(end))]);
      loopLabels := loopLabels[..|loopLabels| - 1];
      WhileTexts(s.test, s.conditionRegister, start, end, b);
      LoopDone(s, fnLast, labels, d0, definition);
    }

    method StatementDoWhile(s: Stmt, fnLast: bool) returns (ok: bool)
      requires s.DoWhile?
      modifies this
      ensures ok == Lines(s, fnLast, old(loopLabels)).Some?
      ensures ok ==> definition == old(definition) + Texts(Lines(s, fnLast, old(loopLabels)).value)
      ensures ok ==> loopLabels == old(loopLabels)
      decreases s, 0
    {
      ghost var labels := loopLabels;
      ghost var d0 := definition;
      var start, cont, end := s.startLabel, s.continueLabel, s.endLabel;
      loopLabels := loopLabels + [LoopLabels(cont, end)];
      Emit(LabelDef(start));
      ok := Statement(s.body, false);
      if !ok {
        return;
      }
      ghost var b := Lines(s.body, false, labels + [LoopLabels(cont, end)]).value;
      ghost var out := Extend(d0, [LineText(LabelDef(start))], Texts(b));
      EmitAll(Codes(s.test.code));
      out := Extend(d0, out, Texts(Codes(s.test.code)));
      Emit(LabelDef(cont));
      out := Extend(d0, out, [LineText(LabelDef(cont))]);
      Emit(JmpIf(s.test.valueAssembly, start));
      out := Extend(d0, out, [LineText(JmpIf(s.test.valueAssembly, start))]);
      Emit(LabelDef(end));
      out := Extend(d0, out, [LineText(LabelDef(end))]);
      loopLabels := loopLabels[..|loopLabels| - 1];
      DoWhileTexts(b, s.test, start, cont, end);
      LoopDone(s, fnLast, labels, d0, definition);
    }

    method StatementFor(s: Stmt, fnLast: bool) returns (ok: bool)
      requires s.For?
      modifies this
      ensures ok == Lines(s, fnLast, old(loopLabels)).Some?
      ensures ok ==> definition == old(definition) + Texts(Lines(s, fnLast, old(loopLabels)).value)
      ensures ok ==> loopLabels == old(loopLabels)
      decreases s, 0
    {
      ghost var labels := loopLabels;
      ghost var d0 := definition;
      var testLabel, cont, end := s.testLabel, s.continueLabel, s.endLabel;
      EmitAll(Codes(s.init));
      Emit(LabelDef(testLabel));
      ghost var out := Extend(d0, Texts(Codes(s.init)), [LineText(LabelDef(testLabel))]);
      loopLabels := loopLabels + [LoopLabels(cont, end)];
      var check := if s.forTest.Some? then ExitTest(s.forTest.value, s.conditionRegister, end) else [];
      EmitAll(check);
      out := Extend(d0, out, Texts(check));
      ok := Statement(s.body, false);
      if !ok {
        return;
      }
      ghost var b := Lines(s.body, false, labels + [LoopLabels(cont, end)]).value;
      out := Extend(d0, out, Texts(b));
      Emit(LabelDef(cont));
      out := Extend(d0, out, [LineText(LabelDef(cont))]);
      EmitAll(Codes(s.update));
      out := Extend(d0, out, Texts(Codes(s.update)));
      Emit(Jmp(testLabel));
      out := Extend(d0, out, [LineText(Jmp(testLabel))]);
      Emit(LabelDef(end));
      out := Extend(d0, out, [LineText(LabelDef(end))]);
      loopLabels := loopLabels[..|loopLabels| - 1];
      ForTexts(s.init, s.forTest, s.conditionRegister, testLabel, cont, end, b, s.update);
      LoopDone(s, fnLast, labels, d0, definition);
    }
  }
  // How the emitted lines print.

  lemma IfTexts(test: Condition, register: string, elseLabel: string, c: seq<Line>, alt: Option<seq<Line>>, afterElse: string)
    ensures var t := Texts(ExitTest(test, register, elseLabel)) + Texts(c);
      Texts(IfLines(test, register, elseLabel, c, alt, afterElse))
      == if alt.None? then t + [LineText(LabelDef(elseLabel))]
         else t + [LineText(Jmp(afterElse))] + [LineText(LabelDef(elseLabel))] + Texts(alt.value) + [LineText(LabelDef(afterElse))]
  {
    var exit := ExitTest(test, register, elseLabel);
    TextsAppend(exit, c);
    if alt.None? {
      TextsSnoc(exit + c, LabelDef(elseLabel));
    } else {
      var p := exit + c + [Jmp(afterElse)] + [LabelDef(elseLabel)];
      TextsSnoc(exit + c, Jmp(afterElse));
      TextsSnoc(exit + c + [Jmp(afterElse)], LabelDef(elseLabel));
      TextsAppend(p, alt.value);
      TextsSnoc(p + alt.value, LabelDef(afterElse));
    }
  }

  lemma WhileTexts(test: Condition, register: string, start: string, end: string, b: seq<Line>)
    ensures Texts(WhileLines(test, register, start, end, b))
      == [LineText(LabelDef(start))] + Texts(ExitTest(test, register, end)) + Texts(b) + [LineText(Jmp(start))] + [LineText(LabelDef(end))]
  {
    var exit := ExitTest(test, register, end);
    var p := [LabelDef(start)] + exit;
    TextsSnoc([], LabelDef(start));
    TextsAppend([LabelDef(start)], exit);
    TextsAppend(p, b);
    TextsSnoc(p + b, Jmp(start));
    TextsSnoc(p + b + [Jmp(start)], LabelDef(end));
  }

  lemma DoWhileTexts(b: seq<Line>, test: Condition, start: string, cont: string, end: string)
    ensures Texts(DoWhileLines(b, test, start, cont, end))
      == [LineText(LabelDef(start))] + Texts(b) + Texts(Codes(test.code))
         + [LineText(LabelDef(cont))] + [LineText(JmpIf(test.valueAssembly, start))] + [LineText(LabelDef(end))]
  {
    var code := Codes(test.code);
    TextsSnoc([], LabelDef(start));
    TextsAppend([LabelDef(start)], b);
    TextsAppend([LabelDef(start)] + b, code);
    var p := [LabelDef(start)] + b + code;
    TextsSnoc(p, LabelDef(cont));
    TextsSnoc(p + [LabelDef(cont)], JmpIf(test.valueAssembly, start));
    TextsSnoc(p + [LabelDef(cont)] + [JmpIf(test.valueAssembly, start)], LabelDef(end));
  }

  lemma ForTexts(init: seq<string>, test: Option<Condition>, register: string, testLabel: string, cont: string, end: string,
                 b: seq<Line>, update: seq<string>)
    ensures var check := if test.Some? then ExitTest(test.value, register, end) else [];
      Texts(ForLines(init, test, register, testLabel, cont, end, b, update))
      == Texts(Codes(init)) + [LineText(LabelDef(testLabel))] + Texts(check) + Texts(b)
         + [LineText(LabelDef(cont))] + Texts(Codes(update)) + [LineText(Jmp(testLabel))] + [LineText(LabelDef(end))]
  {
    var check := if test.Some? then ExitTest(test.value, register, end) else [];
    var init' := Codes(init);
    var p := init' + [LabelDef(testLabel)] + check + b;
    var q := p + [LabelDef(cont)] + Codes(update);
    TextsSnoc(init', LabelDef(testLabel));
    TextsAppend(init' + [LabelDef(testLabel)], check);
    TextsAppend(init' + [LabelDef(testLabel)] + check, b);
    TextsSnoc(p, LabelDef(cont));
    TextsAppend(p + [LabelDef(cont)], Codes(update));
    TextsSnoc(q, Jmp(testLabel));
    TextsSnoc(q + [Jmp(testLabel)], LabelDef(end));
  }

  /** The lines of a loop whose body compiles, as the loop's own shape function gives them. */
  function LoopLines(s: Stmt, labels: seq<LoopLabels>, b: seq<Line>): seq<Line>
    requires s.While? || s.DoWhile? || s.For?
  {
    if s.While? then WhileLines(s.test, s.conditionRegister, s.startLabel, s.endLabel, b)
    else if s.DoWhile? then DoWhileLines(b, s.test, s.startLabel, s.continueLabel, s.endLabel)
    else ForLines(s.init, s.forTest, s.conditionRegister, s.testLabel, s.continueLabel, s.endLabel, b, s.update)
  }

  /** The loop labels a loop pushes while its body compiles. */
  function Pushed(s: Stmt): LoopLabels
    requires s.While? || s.DoWhile? || s.For?
  {
    if s.While? then LoopLabels(s.startLabel, s.endLabel) else LoopLabels(s.continueLabel, s.endLabel)
  }

  lemma LoopDone(s: Stmt, fnLast: bool, labels: seq<LoopLabels>, d0: seq<string>, d: seq<string>)
    requires s.While? || s.DoWhile? || s.For?
    requires Lines(s.body, false, labels + [Pushed(s)]).Some?
    requires d == d0 + Texts(LoopLines(s, labels, Lines(s.body, false, labels + [Pushed(s)]).value))
    ensures Lines(s, fnLast, labels).Some? && d == d0 + Texts(Lines(s, fnLast, labels).value)
  {
  }

  lemma IfDone(s: Stmt, fnLast: bool, labels: seq<LoopLabels>, d0: seq<string>, d: seq<string>)
    requires s.If? && Lines(s.cons, false, labels).Some?
    requires s.alt.Some? ==> Lines(s.alt.value, false, labels).Some?
    requires var alt := if s.alt.None? then None else Lines(s.alt.value, false, labels);
      d == d0 + Texts(IfLines(s.test, s.conditionRegister, s.elseLabel, Lines(s.cons, false, labels).value, alt, s.afterElseLabel))
    ensures Lines(s, fnLast, labels).Some? && d == d0 + Texts(Lines(s, fnLast, labels).value)
  {
  }

  /** Regrouping a definition that grew in pieces: `d0 + out + more` is `d0` followed by `out + more`. */
  lemma Extend(d0: seq<string>, out: seq<string>, more: seq<string>) returns (out': seq<string>)
    ensures out' == out + more && d0 + out + more == d0 + out'
  {
    out' := out + more;
  }

  // ---------------------------------------------------------------------------
  // The heading of a compiled function.
  // ---------------------------------------------------------------------------

  /** Each parameter register as the heading prints it. */
  function ParamTexts(registers: seq<string>): (ts: seq<string>)
    ensures |ts| == |registers| && forall i :: 0 <= i < |ts| ==> ts[i] == "%" + registers[i]
  {
    seq(|registers|, i requires 0 <= i < |registers| => "%" + registers[i])
  }

  /**
   * The heading `compile_functionish` pushes first: the definition name and
   * the parameter registers, capture parameters first, separated by ", ".
   */
  function Heading(definitionName: string, registers: seq<string>): string {
    "@" + definitionName + " = function(" + Join(ParamTexts(registers), ", ") + ") {"
  }

  /** The registers of a function's parameters: its capture parameters, then its declared ones. */
  function ParamRegisters(captureRegisters: seq<string>, declaredRegisters: seq<string>): (rs: seq<string>)
    ensures |rs| == |captureRegisters| + |declaredRegisters|
    ensures rs[..|captureRegisters|] == captureRegisters && rs[|captureRegisters|..] == declaredRegisters
  {
    captureRegisters + declaredRegisters
  }

  /** The parameter list after `i` parameters have been printed: each but the last is followed by ", ". */
  function PrintedParams(items: seq<string>, i: nat): string
    requires i <= |items|
  {
    Join(items[..i], ", ") + (if 0 < i < |items| then ", " else "")
  }

  lemma PrintedParamsStep(items: seq<string>, i: nat)
    requires i < |items|
    ensures PrintedParams(items, i + 1) == PrintedParams(items, i) + items[i] + (if i != |items| - 1 then ", " else "")
  {
    JoinSnoc(items[..i], items[i], ", ");
    assert items[..i + 1] == items[..i] + [items[i]];
  }

  /** Builds the heading a parameter at a time, with ", " after every parameter but the last. */
  method BuildHeading(definitionName: string, registers: seq<string>) returns (heading: string)
    ensures heading == Heading(definitionName, registers)
  {
    var prefix := "@" + definitionName + " = function(";
    ghost var items := ParamTexts(registers);
    heading := prefix;
    var i := 0;
    while i < |registers|
      invariant 0 <= i <= |registers|
      invariant heading == prefix + PrintedParams(items, i)
    {
      PrintedParamsStep(items, i);
      var sep := if i != |registers| - 1 then ", " else "";
      heading := heading + "%" + registers[i];
      if i != |registers| - 1 {
        heading := heading + ", ";
      }
      assert heading == prefix + PrintedParams(items, i) + items[i] + sep;
      i := i + 1;
    }
    assert items[..i] == items;
    heading := heading + ") {";
  }

  /** How often `c` occurs in `s`. */
  function Count(s: string, c: char): nat {
    if s == [] then 0 else Count(s[..|s| - 1], c) + (if s[|s| - 1] == c then 1 else 0)
  }

  lemma {:induction false} CountAbsent(s: string, c: char)
    requires forall i :: 0 <= i < |s| ==> s[i] != c
    ensures Count(s, c) == 0
    decreases |s|
  {
    if s != [] {
      CountAbsent(s[..|s| - 1], c);
    }
  }

  lemma {:induction false} CountAppend(a: string, b: string, c: char)
    ensures Count(a + b, c) == Count(a, c) + Count(b, c)
    decreases |b|
  {
    if b == [] {
      assert a + b == a;
    } else {
      assert (a + b)[..|a + b| - 1] == a + b[..|b| - 1];
      CountAppend(a, b[..|b| - 1], c);
    }
  }

  lemma {:induction false} CountJoin(rs: seq<string>)
    requires forall i :: 0 <= i < |rs| ==> Count(rs[i], '%') == 0
    ensures Count(Join(ParamTexts(rs), ", "), '%') == |rs|
    decreases |rs|
  {
    if rs != [] {
      var init := rs[..|rs| - 1];
      var last := rs[|rs| - 1];
      assert ParamTexts(rs) == ParamTexts(init) + ["%" + last];
      JoinSnoc(ParamTexts(init), "%" + last, ", ");
      CountJoin(init);
      CountAppend("%", last, '%');
      assert "%"[..0] == [];
      if init != [] {
        var j := Join(ParamTexts(init), ", ");
        CountAppend(j, ", ", '%');
        CountAppend(j + ", ", "%" + last, '%');
        CountAbsent(", ", '%');
      }
    }
  }

  /**
   * Names without `%` give a heading with exactly one `%` per parameter: the
   * heading declares each parameter register once.
   */
  lemma HeadingDeclaresEachParam(definitionName: string, registers: seq<string>)
    requires Count(definitionName, '%') == 0
    requires forall i :: 0 <= i < |registers| ==> Count(registers[i], '%') == 0
    ensures Count(Heading(definitionName, registers), '%') == |registers|
  {
    var j := Join(ParamTexts(registers), ", ");
    CountJoin(registers);
    CountAppend("@", definitionName, '%');
    CountAppend("@" + definitionName, " = function(", '%');
    CountAppend("@" + definitionName + " = function(", j, '%');
    CountAppend("@" + definitionName + " = function(" + j, ") {", '%');
    CountAbsent("@", '%');
    CountAbsent(" = function(", '%');
    CountAbsent(") {", '%');
  }

  // ---------------------------------------------------------------------------
  // Captures of hoisted functions.
  // ---------------------------------------------------------------------------

  /** The names `c` captures directly; a name that is not a function of the block captures nothing. */
  function Direct(direct: map<string, seq<string>>, c: string): seq<string> {
    if c in direct then direct[c] else []
  }

  /** Every name in `s` has its direct captures in `s` too. */
  predicate Closed(direct: map<string, seq<string>>, s: set<string>) {
    forall c :: c in s ==> forall j :: 0 <= j < |Direct(direct, c)| ==> Direct(direct, c)[j] in s
  }

  predicate Includes(start: seq<string>, s: set<string>) {
    forall i :: 0 <= i < |start| ==> start[i] in s
  }

  predicate NoDuplicates(s: seq<string>) {
    forall i, j :: 0 <= i < j < |s| ==> s[i] != s[j]
  }

  /** `s` without repeats, each name where it first occurs. */
  function Dedup(s: seq<string>): seq<string> {
    if s == [] then []
    else
      var d := Dedup(s[..|s| - 1]);
      if s[|s| - 1] in d then d else d + [s[|s| - 1]]
  }

  /** Every name some function of the block captures directly. */
  function CapturedNames(direct: map<string, seq<string>>): set<string> {
    set c, j | c in direct && 0 <= j < |direct[c]| :: direct[c][j]
  }

  /**
   * The full captures of a hoisted function whose direct captures are
   * `start`: a breadth-first walk through `direct` that keeps the first
   * occurrence of each name. The result has no duplicates, begins with the
   * direct captures in order, holds the direct captures of everything it
   * holds, and holds nothing more than any such set must.
   */
  method FullCaptures(direct: map<string, seq<string>>, start: seq<string>) returns (full: seq<string>)
    ensures NoDuplicates(full)
    ensures |Dedup(start)| <= |full| && full[..|Dedup(start)|] == Dedup(start)
    ensures forall c :: c in full ==> forall j :: 0 <= j < |Direct(direct, c)| ==> Direct(direct, c)[j] in full
    ensures forall s :: Includes(start, s) && Closed(direct, s) ==> forall c :: c in full ==> c in s
  {
    full := [];
    var seen: set<string> := {};
    var queue := start;
    ghost var k := 0;
    ghost var universe := (set i | 0 <= i < |start| :: start[i]) + CapturedNames(direct);
    BfsStart(direct, start, universe);
    while queue != []
      invariant BfsInvariant(direct, start, universe, full, seen, queue, k)
      decreases |universe - seen|, |queue|
    {
      BfsStep(direct, start, universe, full, seen, queue, k);
      var cap := queue[0];
      queue := queue[1..];
      var isNew := cap !in seen;
      seen := seen + {cap};
      if isNew {
        full := full + [cap];
        var nested := Direct(direct, cap);
        queue := queue + nested;
      }
      k := if k < |start| then k + 1 else k;
    }
    BfsDone(direct, start, universe, full, seen, k);
  }

  // The walk's invariant, one conjunct at a time.

  ghost predicate SeenIsFull(seen: set<string>, full: seq<string>) {
    forall c :: c in seen <==> c in full
  }

  predicate InUniverse(universe: set<string>, seen: set<string>, queue: seq<string>) {
    seen <= universe && forall c :: c in queue ==> c in universe
  }

  /** The direct captures of every name taken are taken or still queued. */
  predicate ClosedUpTo(direct: map<string, seq<string>>, full: seq<string>, seen: set<string>, queue: seq<string>) {
    forall c :: c in full ==> forall j :: 0 <= j < |Direct(direct, c)| ==>
      Direct(direct, c)[j] in seen || Direct(direct, c)[j] in queue
  }

  /** Whatever was taken or queued lies in every closed set holding the direct captures. */
  ghost predicate BelowEvery(direct: map<string, seq<string>>, start: seq<string>, seen: set<string>, queue: seq<string>) {
    forall s :: Includes(start, s) && Closed(direct, s) ==> seen <= s && forall c :: c in queue ==> c in s
  }

  /** While the direct captures are still being taken, the result is their first occurrences so far. */
  predicate FirstOccurrences(start: seq<string>, full: seq<string>, queue: seq<string>, k: nat) {
    k <= |start|
    && (k < |start| ==> full == Dedup(start[..k]) && |start| - k <= |queue| && queue[..|start| - k] == start[k..])
    && (k == |start| ==> |Dedup(start)| <= |full| && full[..|Dedup(start)|] == Dedup(start))
  }

  ghost predicate BfsInvariant(direct: map<string, seq<string>>, start: seq<string>, universe: set<string>,
                         full: seq<string>, seen: set<string>, queue: seq<string>, k: nat) {
    CapturedNames(direct) <= universe
    && SeenIsFull(seen, full) && NoDuplicates(full) && InUniverse(universe, seen, queue)
    && ClosedUpTo(direct, full, seen, queue) && BelowEvery(direct, start, seen, queue)
    && FirstOccurrences(start, full, queue, k)
  }

  /** One turn of the walk: take the head of the queue and, if it is new, queue its direct captures. */
  function NextFull(seen: set<string>, full: seq<string>, queue: seq<string>): seq<string>
    requires queue != []
  {
    if queue[0] in seen then full else full + [queue[0]]
  }

  function NextQueue(direct: map<string, seq<string>>, seen: set<string>, queue: seq<string>): seq<string>
    requires queue != []
  {
    if queue[0] in seen then queue[1..] else queue[1..] + Direct(direct, queue[0])
  }

  lemma BfsStart(direct: map<string, seq<string>>, start: seq<string>, universe: set<string>)
    requires universe == (set i | 0 <= i < |start| :: start[i]) + CapturedNames(direct)
    ensures BfsInvariant(direct, start, universe, [], {}, start, 0)
  {
    forall c | c in start ensures c in universe {
      var i :| 0 <= i < |start| && start[i] == c;
    }
    if start == [] {
      assert Dedup(start) == [];
    }
  }

  lemma BfsStep(direct: map<string, seq<string>>, start: seq<string>, universe: set<string>,
                full: seq<string>, seen: set<string>, queue: seq<string>, k: nat)
    requires queue != [] && BfsInvariant(direct, start, universe, full, seen, queue, k)
    ensures BfsInvariant(direct, start, universe, NextFull(seen, full, queue), seen + {queue[0]},
                         NextQueue(direct, seen, queue), if k < |start| then k + 1 else k)
    ensures queue[0] in seen ==> seen + {queue[0]} == seen
    ensures queue[0] !in seen ==> |universe - (seen + {queue[0]})| < |universe - seen|
  {
    if queue[0] !in seen {
      assert (universe - (seen + {queue[0]})) + {queue[0]} == universe - seen;
    }
    var cap := queue[0];
    var full', seen', queue' := NextFull(seen, full, queue), seen + {cap}, NextQueue(direct, seen, queue);
    assert SeenIsFull(seen', full');
    NoDuplicatesStep(seen, full, cap);
    UniverseStep(direct, universe, seen, queue);
    ClosedStep(direct, full, seen, queue);
    BelowStep(direct, start, seen, queue);
    FirstStep(start, full, seen, queue, direct, k);
  }

  lemma NoDuplicatesStep(seen: set<string>, full: seq<string>, cap: string)
    requires SeenIsFull(seen, full) && NoDuplicates(full)
    ensures NoDuplicates(if cap in seen then full else full + [cap])
  {
  }

  lemma UniverseStep(direct: map<string, seq<string>>, universe: set<string>, seen: set<string>, queue: seq<string>)
    requires queue != [] && CapturedNames(direct) <= universe && InUniverse(universe, seen, queue)
    ensures InUniverse(universe, seen + {queue[0]}, NextQueue(direct, seen, queue))
  {
    var cap := queue[0];
    forall j | 0 <= j < |Direct(direct, cap)| ensures Direct(direct, cap)[j] in universe {
      assert direct[cap][j] in CapturedNames(direct);
    }
  }

  lemma ClosedStep(direct: map<string, seq<string>>, full: seq<string>, seen: set<string>, queue: seq<string>)
    requires queue != [] && SeenIsFull(seen, full) && ClosedUpTo(direct, full, seen, queue)
    ensures ClosedUpTo(direct, NextFull(seen, full, queue), seen + {queue[0]}, NextQueue(direct, seen, queue))
  {
    var cap := queue[0];
    var queue' := NextQueue(direct, seen, queue);
    forall c | c in NextFull(seen, full, queue)
      ensures forall j :: 0 <= j < |Direct(direct, c)| ==> Direct(direct, c)[j] in seen + {cap} || Direct(direct, c)[j] in queue'
    {
      forall j | 0 <= j < |Direct(direct, c)|
        ensures Direct(direct, c)[j] in seen + {cap} || Direct(direct, c)[j] in queue'
      {
        var n := Direct(direct, c)[j];
        if c in full {
          if n !in seen && n != cap {
            var i :| 0 <= i < |queue| && queue[i] == n;
            assert queue'[i - 1] == n;
          }
        } else {
          assert c == cap && queue'[|queue| - 1 + j] == n;
        }
      }
    }
  }

  lemma BelowStep(direct: map<string, seq<string>>, start: seq<string>, seen: set<string>, queue: seq<string>)
    requires queue != [] && BelowEvery(direct, start, seen, queue)
    ensures BelowEvery(direct, start, seen + {queue[0]}, NextQueue(direct, seen, queue))
  {
    var cap := queue[0];
    forall s | Includes(start, s) && Closed(direct, s)
      ensures seen + {cap} <= s && forall c :: c in NextQueue(direct, seen, queue) ==> c in s
    {
      assert cap in s;
      forall c | c in NextQueue(direct, seen, queue) ensures c in s {
        if c !in queue[1..] {
          var j :| 0 <= j < |Direct(direct, cap)| && Direct(direct, cap)[j] == c;
        } else {
          var i :| 0 <= i < |queue[1..]| && queue[1..][i] == c;
          assert queue[i + 1] == c;
        }
      }
    }
  }

  lemma FirstStep(start: seq<string>, full: seq<string>, seen: set<string>, queue: seq<string>,
                  direct: map<string, seq<string>>, k: nat)
    requires queue != [] && SeenIsFull(seen, full) && FirstOccurrences(start, full, queue, k)
    ensures FirstOccurrences(start, NextFull(seen, full, queue), NextQueue(direct, seen, queue), if k < |start| then k + 1 else k)
  {
    var cap := queue[0];
    var full' := NextFull(seen, full, queue);
    var queue' := NextQueue(direct, seen, queue);
    if k < |start| {
      assert cap == start[k];
      assert start[..k + 1][..k] == start[..k];
      assert Dedup(start[..k + 1]) == full';
      if k + 1 < |start| {
        assert queue'[..|start| - (k + 1)] == start[k + 1..];
      } else {
        assert start[..k + 1] == start;
      }
    }
  }

  lemma BfsDone(direct: map<string, seq<string>>, start: seq<string>, universe: set<string>,
                full: seq<string>, seen: set<string>, k: nat)
    requires BfsInvariant(direct, start, universe, full, seen, [], k)
    ensures NoDuplicates(full)
    ensures |Dedup(start)| <= |full| && full[..|Dedup(start)|] == Dedup(start)
    ensures forall c :: c in full ==> forall j :: 0 <= j < |Direct(direct, c)| ==> Direct(direct, c)[j] in full
    ensures forall s :: Includes(start, s) && Closed(direct, s) ==> forall c :: c in full ==> c in s
  {
    assert k == |start|;
  }

  // ---------------------------------------------------------------------------
  // The queue of functions `compile` drains.
  // ---------------------------------------------------------------------------

  /**
   * A queued function: its definition name and parameter registers, the lines
   * its body compiles to, and the functions its body hoists, which compiling
   * it adds to the back of the queue.
   */
  datatype Queued = Queued(definitionName: string, registers: seq<string>, body: seq<string>, hoisted: seq<Queued>)

  /** The lines `compile_functionish` pushes for one function: heading, body, closing brace. */
  function FunctionLines(q: Queued): (ls: seq<string>)
    ensures |ls| == |q.body| + 2
  {
    [Heading(q.definitionName, q.registers)] + q.body + ["}"]
  }

  /** How many functions a queued function stands for, counting those it hoists. */
  function Size(q: Queued): nat
    decreases q, 1
  {
    1 + SizeAll(q.hoisted)
  }

  function SizeAll(qs: seq<Queued>): nat
    decreases qs, 0
  {
    if qs == [] then 0 else SizeAll(qs[..|qs| - 1]) + Size(qs[|qs| - 1])
  }

  lemma {:induction false} SizeAllAppend(a: seq<Queued>, b: seq<Queued>)
    ensures SizeAll(a + b) == SizeAll(a) + SizeAll(b)
    decreases |b|
  {
    if b == [] {
      assert a + b == a;
    } else {
      assert (a + b)[..|a + b| - 1] == a + b[..|b| - 1];
      SizeAllAppend(a, b[..|b| - 1]);
    }
  }

  /** Taking the head of a non-empty queue and queueing what it hoists leaves one function fewer. */
  lemma SizeAfterTurn(queue: seq<Queued>)
    requires queue != []
    ensures SizeAll(queue[1..] + queue[0].hoisted) + 1 == SizeAll(queue)
  {
    SizeAllAppend([queue[0]], queue[1..]);
    assert [queue[0]] + queue[1..] == queue;
    SizeAllAppend(queue[1..], queue[0].hoisted);
    assert [queue[0]][..0] == [];
  }

  /** The definition a queue compiles to, first in first out. */
  function Drained(queue: seq<Queued>): seq<string>
    decreases SizeAll(queue)
  {
    if queue == [] then []
    else
      SizeAfterTurn(queue);
      FunctionLines(queue[0]) + Drained(queue[1..] + queue[0].hoisted)
  }

  /**
   * `compile`: queue the function, then take functions off the front and
   * compile them until the queue is empty.
   */
  method Compile(first: Queued) returns (definition: seq<string>)
    ensures definition == Drained([first])
  {
    definition := [];
    var queue := [first];
    while queue != []
      invariant definition + Drained(queue) == Drained([first])
      decreases SizeAll(queue)
    {
      var q := queue[0];
      SizeAfterTurn(queue);
      queue := queue[1..] + q.hoisted;
      definition := definition + FunctionLines(q);
    }
    assert definition + [] == definition;
  }

  /** The lines of a queued function and of everything it hoists, the function's own first. */
  function TreeAll(q: Queued): seq<string>
    decreases q, 1
  {
    FunctionLines(q) + TreeAllSeq(q.hoisted)
  }

  function TreeAllSeq(qs: seq<Queued>): seq<string>
    decreases qs, 0
  {
    if qs == [] then [] else TreeAllSeq(qs[..|qs| - 1]) + TreeAll(qs[|qs| - 1])
  }

  lemma {:induction false} TreeAllSeqAppend(a: seq<Queued>, b: seq<Queued>)
    ensures TreeAllSeq(a + b) == TreeAllSeq(a) + TreeAllSeq(b)
    decreases |b|
  {
    if b == [] {
      assert a + b == a;
    } else {
      assert (a + b)[..|a + b| - 1] == a + b[..|b| - 1];
      TreeAllSeqAppend(a, b[..|b| - 1]);
    }
  }

  lemma TreeAllSeqCons(queue: seq<Queued>)
    requires queue != []
    ensures TreeAllSeq(queue) == (FunctionLines(queue[0]) + TreeAllSeq(queue[0].hoisted)) + TreeAllSeq(queue[1..])
  {
    var q, rest := queue[0], queue[1..];
    assert [q] + rest == queue;
    TreeAllSeqAppend([q], rest);
    TreeAllSeqSingleton(q);
  }

  lemma TreeAllSeqSingleton(q: Queued)
    ensures TreeAllSeq([q]) == FunctionLines(q) + TreeAllSeq(q.hoisted)
  {
    assert [q][..0] == [];
  }

  /**
   * Draining loses and repeats nothing: the definition holds exactly the
   * lines of every queued function and of every function they hoist, each
   * as often as it occurs there.
   */
  lemma {:induction false} DrainedCompilesEveryFunction(queue: seq<Queued>)
    ensures multiset(Drained(queue)) == multiset(TreeAllSeq(queue))
    ensures |Drained(queue)| == |TreeAllSeq(queue)|
    decreases SizeAll(queue)
  {
    if queue != [] {
      var q, rest := queue[0], queue[1..];
      SizeAfterTurn(queue);
      var d := Drained(rest + q.hoisted);
      DrainedCompilesEveryFunction(rest + q.hoisted);
      assert Drained(queue) == FunctionLines(q) + d;
      TreeAllSeqAppend(rest, q.hoisted);
      TreeAllSeqCons(queue);
      Regroup(FunctionLines(q), d, TreeAllSeq(rest), TreeAllSeq(q.hoisted));
    }
    assert |multiset(Drained(queue))| == |Drained(queue)|;
  }

  lemma Regroup(f: seq<string>, d: seq<string>, r: seq<string>, h: seq<string>)
    requires multiset(d) == multiset(r + h)
    ensures multiset(f + d) == multiset((f + h) + r)
  {
  }

  /** First in, first out: the queue's head is compiled before anything queued after it. */
  lemma DrainedHeadFirst(queue: seq<Queued>, later: seq<Queued>)
    requires queue != []
    ensures Drained(queue + later)[..|FunctionLines(queue[0])|] == FunctionLines(queue[0])
  {
    assert (queue + later)[0] == queue[0];
  }

  // ---------------------------------------------------------------------------
  // Which scope registers a declared variable.
  // ---------------------------------------------------------------------------

  datatype VarKind = Var | Let | Const

  /** A variable declaration: its kind and the names it declares. */
  datatype VarDecl = VarDecl(kind: VarKind, names: seq<string>)

  /** The names `populate_fn_scope_var_decl` registers: those of `var` declarations. */
  function FnScopeNames(decls: seq<VarDecl>): seq<string> {
    if decls == [] then []
    else FnScopeNames(decls[..|decls| - 1]) + (if decls[|decls| - 1].kind == Var then decls[|decls| - 1].names else [])
  }

  /** The names `populate_block_scope_var_decl` registers: those of `let` and `const` declarations. */
  function BlockScopeNames(decls: seq<VarDecl>): seq<string> {
    if decls == [] then []
    else BlockScopeNames(decls[..|decls| - 1]) + (if decls[|decls| - 1].kind != Var then decls[|decls| - 1].names else [])
  }

  function AllNames(decls: seq<VarDecl>): seq<string> {
    if decls == [] then [] else AllNames(decls[..|decls| - 1]) + decls[|decls| - 1].names
  }

  /**
   * The two kinds of scope registration split the declared names between
   * them: every declared name is registered exactly once.
   */
  lemma {:induction false} ScopesPartitionNames(decls: seq<VarDecl>)
    ensures multiset(FnScopeNames(decls)) + multiset(BlockScopeNames(decls)) == multiset(AllNames(decls))
  {
    if decls != [] {
      ScopesPartitionNames(decls[..|decls| - 1]);
    }
  }
}
