/**
 * Pieces of the compiler's expression compiler (`expression_compiler.rs`):
 * the operator tables, the compiled-expression record, the segmentation of an
 * argument list into `cat` segments, and the instructions a template literal
 * emits, together with what those instructions compute on strings.
 */
module ExpressionCompiler {
  import opened Wrappers
  import opened Asm
  import Op = Operators

  // ---------------------------------------------------------------------------
  // Compiled expressions.
  // ---------------------------------------------------------------------------

  /**
   * A compiled expression: its value, the temporary registers that hold it,
   * and the release checker's flag, which is set while such registers are
   * still to be released.
   */
  datatype CompiledExpression = CompiledExpression(value: Value, nestedRegisters: seq<Register>, hasUnreleasedRegisters: bool)

  /** `CompiledExpression::new`: the checker is armed exactly when there are registers to release. */
  function NewCompiled(value: Value, nestedRegisters: seq<Register>): (ce: CompiledExpression)
    ensures ce.value == value && ce.nestedRegisters == nestedRegisters
    ensures ce.hasUnreleasedRegisters <==> |nestedRegisters| > 0
  {
    CompiledExpression(value, nestedRegisters, |nestedRegisters| > 0)
  }

  /** `CompiledExpression::empty`. */
  function EmptyCompiled(): (ce: CompiledExpression)
    ensures ce.value == Value.Void && ce.nestedRegisters == [] && !ce.hasUnreleasedRegisters
  {
    CompiledExpression(Value.Void, [], false)
  }

  /** The empty expression is the void value with no registers, built as `new` would build it. */
  lemma EmptyIsNewVoid()
    ensures EmptyCompiled() == NewCompiled(Value.Void, [])
  {
  }

  // ---------------------------------------------------------------------------
  // Operator tables.
  // ---------------------------------------------------------------------------

  /** `make_unary_op`: no instruction for `void` and `delete`; the others keep their operand and destination. */
  function MakeUnaryOp(op: Op.UnaryOp, arg: Value, dst: Register): (r: Option<Instruction>)
    ensures r.None? <==> op == Op.Void || op == Op.Delete
    ensures r.Some? ==> Fields(r.value) == [ValueField(arg), RegisterField(dst)]
  {
    match op
    case Minus => Some(UnaryMinus(arg, dst))
    case Plus => Some(UnaryPlus(arg, dst))
    case Bang => Some(OpNot(arg, dst))
    case Tilde => Some(OpBitNot(arg, dst))
    case TypeOf => Some(Instruction.TypeOf(arg, dst))
    case Void => None
    case Delete => None
  }

  /** `make_binary_op`: every operator has an instruction, which keeps both operands and the destination in order. */
  function MakeBinaryOp(op: Op.BinaryOp, arg1: Value, arg2: Value, dst: Register): (r: Instruction)
    ensures Fields(r) == [ValueField(arg1), ValueField(arg2), RegisterField(dst)]
  {
    match op
    case EqEq => OpEq(arg1, arg2, dst)
    case NotEq => OpNe(arg1, arg2, dst)
    case EqEqEq => OpTripleEq(arg1, arg2, dst)
    case NotEqEq => OpTripleNe(arg1, arg2, dst)
    case Lt => OpLess(arg1, arg2, dst)
    case LtEq => OpLessEq(arg1, arg2, dst)
    case Gt => OpGreater(arg1, arg2, dst)
    case GtEq => OpGreaterEq(arg1, arg2, dst)
    case LShift => OpLeftShift(arg1, arg2, dst)
    case RShift => OpRightShift(arg1, arg2, dst)
    case ZeroFillRShift => OpRightShiftUnsigned(arg1, arg2, dst)
    case Add => OpPlus(arg1, arg2, dst)
    case Sub => OpMinus(arg1, arg2, dst)
    case Mul => OpMul(arg1, arg2, dst)
    case Div => OpDiv(arg1, arg2, dst)
    case Mod => OpMod(arg1, arg2, dst)
    case BitOr => OpBitOr(arg1, arg2, dst)
    case BitXor => OpBitXor(arg1, arg2, dst)
    case BitAnd => OpBitAnd(arg1, arg2, dst)
    case LogicalOr => OpOr(arg1, arg2, dst)
    case LogicalAnd => OpAnd(arg1, arg2, dst)
    case In => Instruction.In(arg1, arg2, dst)
    case InstanceOf => Instruction.InstanceOf(arg1, arg2, dst)
    case Exp => OpExp(arg1, arg2, dst)
    case NullishCoalescing => OpNullishCoalesce(arg1, arg2, dst)
  }

  /** Which operator an instruction implements, read back from the instruction's kind. */
  function BinaryOpOf(i: Instruction): Option<Op.BinaryOp> {
    match i
    case OpEq(_, _, _) => Some(Op.EqEq)
    case OpNe(_, _, _) => Some(Op.NotEq)
    case OpTripleEq(_, _, _) => Some(Op.EqEqEq)
    case OpTripleNe(_, _, _) => Some(Op.NotEqEq)
    case OpLess(_, _, _) => Some(Op.Lt)
    case OpLessEq(_, _, _) => Some(Op.LtEq)
    case OpGreater(_, _, _) => Some(Op.Gt)
    case OpGreaterEq(_, _, _) => Some(Op.GtEq)
    case OpLeftShift(_, _, _) => Some(Op.LShift)
    case OpRightShift(_, _, _) => Some(Op.RShift)
    case OpRightShiftUnsigned(_, _, _) => Some(Op.ZeroFillRShift)
    case OpPlus(_, _, _) => Some(Op.Add)
    case OpMinus(_, _, _) => Some(Op.Sub)
    case OpMul(_, _, _) => Some(Op.Mul)
    case OpDiv(_, _, _) => Some(Op.Div)
    case OpMod(_, _, _) => Some(Op.Mod)
    case OpBitOr(_, _, _) => Some(Op.BitOr)
    case OpBitXor(_, _, _) => Some(Op.BitXor)
    case OpBitAnd(_, _, _) => Some(Op.BitAnd)
    case OpOr(_, _, _) => Some(Op.LogicalOr)
    case OpAnd(_, _, _) => Some(Op.LogicalAnd)
    case In(_, _, _) => Some(Op.In)
    case InstanceOf(_, _, _) => Some(Op.InstanceOf)
    case OpExp(_, _, _) => Some(Op.Exp)
    case OpNullishCoalesce(_, _, _) => Some(Op.NullishCoalescing)
    case _ => None
  }

  /** The operator can be read back from the instruction it compiles to. */
  lemma BinaryOpRoundTrip(op: Op.BinaryOp, arg1: Value, arg2: Value, dst: Register)
    ensures BinaryOpOf(MakeBinaryOp(op, arg1, arg2, dst)) == Some(op)
  {
  }

  /** Hence distinct operators compile to distinct instructions, whatever the operands. */
  lemma MakeBinaryOpInjective(op1: Op.BinaryOp, op2: Op.BinaryOp, arg1: Value, arg2: Value, dst: Register)
    requires MakeBinaryOp(op1, arg1, arg2, dst) == MakeBinaryOp(op2, arg1, arg2, dst)
    ensures op1 == op2
  {
    BinaryOpRoundTrip(op1, arg1, arg2, dst);
    BinaryOpRoundTrip(op2, arg1, arg2, dst);
  }

  /** `get_binary_op_for_assign_op`: the operator a compound assignment applies; plain `=` has none. */
  function BinaryOpForAssignOp(op: Op.AssignOp): (r: Option<Op.BinaryOp>)
    ensures r.None? <==> op == Op.Assign
  {
    match op
    case Assign => None
    case AddAssign => Some(Op.Add)
    case SubAssign => Some(Op.Sub)
    case MulAssign => Some(Op.Mul)
    case DivAssign => Some(Op.Div)
    case ModAssign => Some(Op.Mod)
    case LShiftAssign => Some(Op.LShift)
    case RShiftAssign => Some(Op.RShift)
    case ZeroFillRShiftAssign => Some(Op.ZeroFillRShift)
    case BitOrAssign => Some(Op.BitOr)
    case BitXorAssign => Some(Op.BitXor)
    case BitAndAssign => Some(Op.BitAnd)
    case ExpAssign => Some(Op.Exp)
    case AndAssign => Some(Op.LogicalAnd)
    case OrAssign => Some(Op.LogicalOr)
    case NullishAssign => Some(Op.NullishCoalescing)
  }

  /** The compound assignment, if any, that applies a binary operator. */
  function AssignOpFor(op: Op.BinaryOp): Option<Op.AssignOp> {
    match op
    case Add => Some(Op.AddAssign)
    case Sub => Some(Op.SubAssign)
    case Mul => Some(Op.MulAssign)
    case Div => Some(Op.DivAssign)
    case Mod => Some(Op.ModAssign)
    case LShift => Some(Op.LShiftAssign)
    case RShift => Some(Op.RShiftAssign)
    case ZeroFillRShift => Some(Op.ZeroFillRShiftAssign)
    case BitOr => Some(Op.BitOrAssign)
    case BitXor => Some(Op.BitXorAssign)
    case BitAnd => Some(Op.BitAndAssign)
    case Exp => Some(Op.ExpAssign)
    case LogicalAnd => Some(Op.AndAssign)
    case LogicalOr => Some(Op.OrAssign)
    case NullishCoalescing => Some(Op.NullishAssign)
    case _ => None
  }

  /** Each compound assignment names a different binary operator: the table can be inverted. */
  lemma AssignOpRoundTrip(op: Op.AssignOp)
    requires op != Op.Assign
    ensures AssignOpFor(BinaryOpForAssignOp(op).value) == Some(op)
  {
  }

  /** `make_update_op`: `++` increments and `--` decrements the same register. */
  function MakeUpdateOp(op: Op.UpdateOp, register: Register): (r: Instruction)
    ensures Fields(r) == [RegisterField(register)]
    ensures r.OpInc? <==> op == Op.PlusPlus
    ensures r.OpDec? <==> op == Op.MinusMinus
  {
    match op
    case PlusPlus => OpInc(register)
    case MinusMinus => OpDec(register)
  }

  // ---------------------------------------------------------------------------
  // Argument lists.
  // ---------------------------------------------------------------------------

  /** An argument after compiling its expression: whether it was spread, its value, its temporaries. */
  datatype CompiledArg = CompiledArg(spread: bool, value: Value, nestedRegisters: seq<Register>)

  /**
   * The state of the `args` loop after a prefix of the list (a hole is
   * `None`): the closed segments, the run of plain values still being
   * collected, and the temporaries gathered so far.
   */
  datatype ArgsState = ArgsState(segments: seq<Value>, current: seq<Value>, nested: seq<Register>)

  function ArgsStep(st: ArgsState, arg: Option<CompiledArg>): ArgsState {
    match arg
    case None => st.(current := st.current + [Value.Void])
    case Some(a) =>
      var closed := if a.spread && st.current != [] then st.segments + [Value.Array(st.current)] else st.segments;
      var open := if a.spread && st.current != [] then [] else st.current;
      if a.spread then ArgsState(closed + [a.value], open, st.nested + a.nestedRegisters)
      else ArgsState(closed, open + [a.value], st.nested + a.nestedRegisters)
  }

  function ArgsLoop(args: seq<Option<CompiledArg>>): ArgsState {
    if args == [] then ArgsState([], [], [])
    else ArgsStep(ArgsLoop(args[..|args| - 1]), args[|args| - 1])
  }

  /** The argument list as the source writes it: plain values (holes are void) and spread values. */
  datatype Item = Plain(value: Value) | Spread(value: Value)

  function ItemOf(arg: Option<CompiledArg>): Item {
    match arg
    case None => Plain(Value.Void)
    case Some(a) => if a.spread then Spread(a.value) else Plain(a.value)
  }

  predicate HasSpread(args: seq<Option<CompiledArg>>) {
    exists k :: 0 <= k < |args| && ItemOf(args[k]).Spread?
  }

  /** A `cat` segment: a run of plain values, or one spread value. */
  datatype Segment = PlainRun(values: seq<Value>) | SpreadSegment(value: Value)

  /**
   * The reference segmentation: consecutive plain values are gathered into
   * one run, and each spread value is a segment of its own.
   */
  function Segments(args: seq<Option<CompiledArg>>): (segs: seq<Segment>)
    ensures args != [] ==> segs != []
  {
    if args == [] then []
    else
      var init := Segments(args[..|args| - 1]);
      match ItemOf(args[|args| - 1])
      case Spread(v) => init + [SpreadSegment(v)]
      case Plain(v) => AddPlain(init, v)
  }

  /** A plain value extends a trailing run, or starts a new one. */
  function AddPlain(segs: seq<Segment>, v: Value): (r: seq<Segment>)
    ensures r != [] && r[|r| - 1].PlainRun?
  {
    if segs != [] && segs[|segs| - 1].PlainRun? then segs[..|segs| - 1] + [PlainRun(segs[|segs| - 1].values + [v])]
    else segs + [PlainRun([v])]
  }

  function SegmentValue(s: Segment): Value {
    match s
    case PlainRun(values) => Value.Array(values)
    case SpreadSegment(v) => v
  }

  function SegmentValues(segs: seq<Segment>): (vs: seq<Value>)
    ensures |vs| == |segs|
  {
    if segs == [] then [] else SegmentValues(segs[..|segs| - 1]) + [SegmentValue(segs[|segs| - 1])]
  }

  function Flatten(segs: seq<Segment>): seq<Item> {
    if segs == [] then []
    else
      var last := match segs[|segs| - 1]
        case PlainRun(values) => PlainItems(values)
        case SpreadSegment(v) => [Spread(v)];
      Flatten(segs[..|segs| - 1]) + last
  }

  function PlainItems(values: seq<Value>): (items: seq<Item>)
    ensures |items| == |values|
  {
    if values == [] then [] else PlainItems(values[..|values| - 1]) + [Plain(values[|values| - 1])]
  }

  function Items(args: seq<Option<CompiledArg>>): seq<Item> {
    if args == [] then [] else Items(args[..|args| - 1]) + [ItemOf(args[|args| - 1])]
  }

  /** The values of the arguments, holes as void. */
  function ArgValues(args: seq<Option<CompiledArg>>): (vs: seq<Value>)
    ensures |vs| == |args|
  {
    if args == [] then [] else ArgValues(args[..|args| - 1]) + [ItemOf(args[|args| - 1]).value]
  }

  /** Maximal runs: no run is empty and no two runs are adjacent. */
  predicate MaximalRuns(segs: seq<Segment>) {
    && (forall k :: 0 <= k < |segs| && segs[k].PlainRun? ==> segs[k].values != [])
    && (forall k :: 0 <= k < |segs| - 1 && segs[k].PlainRun? ==> segs[k + 1].SpreadSegment?)
  }

  /** The `cat` operand `args` emits when some argument is spread. */
  function CatSegments(st: ArgsState): seq<Value> {
    st.segments + (if st.current != [] then [Value.Array(st.current)] else [])
  }

  /**
   * The reference segmentation is maximal and, flattened, gives back the
   * argument list.
   */
  lemma {:induction false} SegmentsAreMaximalRuns(args: seq<Option<CompiledArg>>)
    ensures MaximalRuns(Segments(args))
    ensures Flatten(Segments(args)) == Items(args)
  {
    if args != [] {
      var init := args[..|args| - 1];
      SegmentsAreMaximalRuns(init);
      var prev := Segments(init);
      match ItemOf(args[|args| - 1])
      case Spread(v) =>
        FlattenSnoc(prev, SpreadSegment(v));
      case Plain(v) =>
        AddPlainKeepsMaximalRuns(prev, v);
        AddPlainFlattens(prev, v);
    }
  }

  lemma FlattenSnoc(segs: seq<Segment>, s: Segment)
    ensures Flatten(segs + [s]) == Flatten(segs) + Flatten([s])
  {
    assert (segs + [s])[..|segs|] == segs;
    assert [s][..0] == [];
  }

  lemma AddPlainKeepsMaximalRuns(segs: seq<Segment>, v: Value)
    requires MaximalRuns(segs)
    ensures MaximalRuns(AddPlain(segs, v))
  {
  }

  lemma AddPlainFlattens(segs: seq<Segment>, v: Value)
    ensures Flatten(AddPlain(segs, v)) == Flatten(segs) + [Plain(v)]
  {
    if segs != [] && segs[|segs| - 1].PlainRun? {
      var init := segs[..|segs| - 1];
      var last := segs[|segs| - 1].values;
      FlattenSnoc(init, PlainRun(last + [v]));
      FlattenSnoc(init, PlainRun(last));
      assert init + [PlainRun(last)] == segs;
      assert (last + [v])[..|last|] == last;
      assert [PlainRun(last)][..0] == [] && [PlainRun(last + [v])][..0] == [];
    } else {
      FlattenSnoc(segs, PlainRun([v]));
      assert [PlainRun([v])][..0] == [];
      assert [v][..0] == [];
    }
  }

  /**
   * The `args` loop keeps the closed segments and the open run in step with
   * the reference segmentation: the closed segments are the reference
   * segments before a trailing run, and the open run is that trailing run.
   */
  lemma {:induction false} ArgsLoopFollowsSegments(args: seq<Option<CompiledArg>>)
    ensures var st := ArgsLoop(args);
      var segs := Segments(args);
      if st.current == [] then
        st.segments == SegmentValues(segs) && (segs == [] || segs[|segs| - 1].SpreadSegment?)
      else
        segs != [] && segs[|segs| - 1] == PlainRun(st.current) && st.segments == SegmentValues(segs[..|segs| - 1])
  {
    if args != [] {
      var init := args[..|args| - 1];
      ArgsLoopFollowsSegments(init);
      var st := ArgsLoop(init);
      var prev := Segments(init);
      var segs := Segments(args);
      var item := ItemOf(args[|args| - 1]);
      if item.Spread? {
        assert segs[..|segs| - 1] == prev;
        if st.current != [] {
          assert prev[..|prev| - 1] + [prev[|prev| - 1]] == prev;
          assert SegmentValues(prev) == SegmentValues(prev[..|prev| - 1]) + [Value.Array(st.current)];
        }
      } else if st.current != [] {
        assert segs[..|segs| - 1] == prev[..|prev| - 1];
      } else {
        assert segs[..|segs| - 1] == prev;
      }
    }
  }

  /** Without a spread the loop closes no segment and collects every value, holes as void, in order. */
  lemma {:induction false} ArgsWithoutSpread(args: seq<Option<CompiledArg>>)
    requires !HasSpread(args)
    ensures ArgsLoop(args).segments == [] && ArgsLoop(args).current == ArgValues(args)
  {
    if args != [] {
      var init := args[..|args| - 1];
      assert !HasSpread(init) by {
        forall k | 0 <= k < |init| ensures !ItemOf(init[k]).Spread? {
          assert init[k] == args[k];
        }
      }
      ArgsWithoutSpread(init);
      assert !ItemOf(args[|args| - 1]).Spread?;
    }
  }

  /** With a spread the loop closes at least one segment, and the `cat` operand is the reference segmentation. */
  lemma ArgsWithSpread(args: seq<Option<CompiledArg>>)
    requires HasSpread(args)
    ensures ArgsLoop(args).segments != []
    ensures CatSegments(ArgsLoop(args)) == SegmentValues(Segments(args))
  {
    ArgsLoopFollowsSegments(args);
    SpreadClosesSegment(args);
    var st := ArgsLoop(args);
    var segs := Segments(args);
    if st.current != [] {
      assert segs[..|segs| - 1] + [segs[|segs| - 1]] == segs;
    }
  }

  lemma {:induction false} SpreadClosesSegment(args: seq<Option<CompiledArg>>)
    requires HasSpread(args)
    ensures ArgsLoop(args).segments != []
  {
    var init := args[..|args| - 1];
    if !ItemOf(args[|args| - 1]).Spread? {
      var k :| 0 <= k < |args| && ItemOf(args[k]).Spread?;
      assert init[k] == args[k];
      SpreadClosesSegment(init);
    }
  }

  /**
   * `args`: gather the argument values into `cat` segments. Without a
   * spread the result is one array, moved into the target when there is
   * one; with a spread a `cat` instruction writes the target, or a fresh
   * temporary `tmp` when there is no target.
   */
  method Args(args: seq<Option<CompiledArg>>, target: Option<Register>, tmp: Register)
    returns (ce: CompiledExpression, code: seq<Instruction>)
    ensures (ce, code) == ArgsResult(ArgsLoop(args), target, tmp)
  {
    var segments: seq<Value> := [];
    var current: seq<Value> := [];
    var nested: seq<Register> := [];
    var i := 0;
    while i < |args|
      invariant 0 <= i <= |args|
      invariant ArgsState(segments, current, nested) == ArgsLoop(args[..i])
    {
      assert args[..i + 1][..i] == args[..i];
      var arg := args[i];
      if arg.None? {
        current := current + [Value.Void];
      } else {
        var a := arg.value;
        if a.spread && current != [] {
          segments := segments + [Value.Array(current)];
          current := [];
        }
        if a.spread {
          segments := segments + [a.value];
        } else {
          current := current + [a.value];
        }
        nested := nested + a.nestedRegisters;
      }
      i := i + 1;
    }
    assert args[..i] == args;
    if segments == [] {
      if target.None? {
        return NewCompiled(Value.Array(current), nested), [];
      }
      return NewCompiled(Value.Register(target.value), []), [Mov(Value.Array(current), target.value)];
    }
    ghost var st := ArgsState(segments, current, nested);
    if current != [] {
      segments := segments + [Value.Array(current)];
    }
    assert segments == CatSegments(st);
    var result := if target.Some? then target.value else tmp;
    var resultNested := if target.Some? then [] else [tmp];
    ce, code := NewCompiled(Value.Register(result), resultNested), [Cat(Value.Array(segments), result)];
  }

  /** What `args` returns and emits, given the state its loop ends in. */
  function ArgsResult(st: ArgsState, target: Option<Register>, tmp: Register): (CompiledExpression, seq<Instruction>) {
    if st.segments == [] then
      if target.None? then (NewCompiled(Value.Array(st.current), st.nested), [])
      else (NewCompiled(Value.Register(target.value), []), [Mov(Value.Array(st.current), target.value)])
    else
      var result := if target.Some? then target.value else tmp;
      (NewCompiled(Value.Register(result), if target.Some? then [] else [tmp]), [Cat(Value.Array(CatSegments(st)), result)])
  }

  // ---------------------------------------------------------------------------
  // Template literals.
  // ---------------------------------------------------------------------------

  /** A compiled `${...}` expression: the instructions compiling it emitted, and its value. */
  datatype Part = Part(code: seq<Instruction>, value: Value)

  /**
   * The instructions for quasis `q` and parts `ps` (with `|q| == |ps| + 1`),
   * accumulating into `acc`: the first quasi plus the first part, then for
   * each later part its quasi and the part, then the last quasi if it is not
   * empty. Each part's own code is emitted just before the part is added.
   */
  function TemplateCode(q: seq<string>, ps: seq<Part>, acc: Register): seq<Instruction>
    requires |q| == |ps| + 1 && |ps| > 0
  {
    var n := |ps|;
    ps[0].code + [OpPlus(Value.String(q[0]), ps[0].value, acc)]
    + TemplateMiddle(q, ps, acc, n)
    + (if q[n] != "" then [OpPlus(Value.Register(acc), Value.String(q[n]), acc)] else [])
  }

  /** The instructions for parts 1 to `k - 1`. */
  function TemplateMiddle(q: seq<string>, ps: seq<Part>, acc: Register, k: nat): seq<Instruction>
    requires 1 <= k <= |ps| && |q| == |ps| + 1
  {
    if k == 1 then []
    else
      TemplateMiddle(q, ps, acc, k - 1)
      + [OpPlus(Value.Register(acc), Value.String(q[k - 1]), acc)]
      + ps[k - 1].code
      + [OpPlus(Value.Register(acc), ps[k - 1].value, acc)]
  }

  /** `template_literal` as written: the accumulator is the target register when there is one. */
  function TemplateResult(q: seq<string>, ps: seq<Part>, target: Option<Register>, tmp: Register): (CompiledExpression, seq<Instruction>)
    requires |q| == |ps| + 1
  {
    if ps == [] then (NewCompiled(Value.String(q[0]), []), [])
    else
      var acc := if target.Some? then target.value else tmp;
      (NewCompiled(Value.Register(acc), if target.Some? then [] else [tmp]), TemplateCode(q, ps, acc))
  }

  /** The total length of the parts' own code. */
  function PartsCode(ps: seq<Part>): nat {
    if ps == [] then 0 else PartsCode(ps[..|ps| - 1]) + |ps[|ps| - 1].code|
  }

  /**
   * Besides the parts' own code, a template with `n > 0` parts emits
   * `2n - 1` additions, and one more exactly when the last quasi is not
   * empty; each of them adds into the accumulator.
   */
  lemma TemplateInstructionCount(q: seq<string>, ps: seq<Part>, acc: Register)
    requires |q| == |ps| + 1 && |ps| > 0
    ensures |TemplateCode(q, ps, acc)| == PartsCode(ps) + 2 * |ps| - 1 + (if q[|ps|] != "" then 1 else 0)
  {
    TemplateMiddleCount(q, ps, acc, |ps|);
    assert ps[..|ps|] == ps;
    assert PartsCode(ps[..1]) == |ps[0].code| by {
      assert ps[..1][..0] == [];
    }
  }

  lemma {:induction false} TemplateMiddleCount(q: seq<string>, ps: seq<Part>, acc: Register, k: nat)
    requires 1 <= k <= |ps| && |q| == |ps| + 1
    ensures |TemplateMiddle(q, ps, acc, k)| == PartsCode(ps[..k]) - |ps[0].code| + 2 * (k - 1)
  {
    if k == 1 {
      assert ps[..1][..0] == [];
    } else {
      TemplateMiddleCount(q, ps, acc, k - 1);
      assert ps[..k][..k - 1] == ps[..k - 1];
    }
  }

  // What the emitted instructions compute, for string operands.

  /** Registers by name, each holding a string. */
  type Env = map<string, string>

  function Operand(v: Value, env: Env): Option<string> {
    match v
    case String(s) => Some(s)
    case Register(r) => if r.name in env then Some(env[r.name]) else None
    case _ => None
  }

  /** One instruction on strings: `op+` concatenates, `mov` copies; anything else is outside this semantics. */
  function Exec(i: Instruction, env: Env): Option<Env> {
    if i.OpPlus? then
      match (Operand(i.left, env), Operand(i.right, env))
      case (Some(x), Some(y)) => Some(env[i.dst.name := x + y])
      case _ => None
    else if i.Mov? then
      match Operand(i.arg, env)
      case Some(x) => Some(env[i.dst.name := x])
      case None => None
    else None
  }

  function Run(code: seq<Instruction>, env: Env): Option<Env> {
    if code == [] then Some(env)
    else
      match Run(code[..|code| - 1], env)
      case None => None
      case Some(e) => Exec(code[|code| - 1], e)
  }

  lemma RunSnoc(code: seq<Instruction>, i: Instruction, env: Env)
    ensures Run(code + [i], env) == match Run(code, env) case None => None case Some(e) => Exec(i, e)
  {
    assert (code + [i])[..|code|] == code;
  }

  lemma {:induction false} RunAppend(a: seq<Instruction>, b: seq<Instruction>, env: Env)
    ensures Run(a + b, env) == match Run(a, env) case None => None case Some(e) => Run(b, e)
    decreases |b|
  {
    if b == [] {
      assert a + b == a;
    } else {
      var init := b[..|b| - 1];
      assert a + b == (a + init) + [b[|b| - 1]];
      RunSnoc(a + init, b[|b| - 1], env);
      RunAppend(a, init, env);
    }
  }

  /** What a template literal means: the quasis with the part values between them. */
  function Interleave(q: seq<string>, vs: seq<string>): string
    requires |q| == |vs| + 1
  {
    if vs == [] then q[0] else Interleave(q[..|q| - 1], vs[..|vs| - 1]) + vs[|vs| - 1] + q[|q| - 1]
  }

  /** The string a part's value reads in `env` (empty when it reads nothing). */
  function Read(v: Value, env: Env): string {
    match Operand(v, env)
    case Some(s) => s
    case None => ""
  }

  function Values(ps: seq<Part>, env: Env): (vs: seq<string>)
    ensures |vs| == |ps|
    ensures forall k :: 0 <= k < |ps| ==> vs[k] == Read(ps[k].value, env)
  {
    if ps == [] then [] else Values(ps[..|ps| - 1], env) + [Read(ps[|ps| - 1].value, env)]
  }

  /** A part that emits no code and reads a string or a register other than `acc`. */
  predicate Simple(p: Part, acc: Register, env: Env) {
    && p.code == []
    && Operand(p.value, env).Some?
    && !(p.value.Register? && p.value.reg.name == acc.name)
  }

  /** Adding a value that does not read the accumulator appends what the value reads. */
  lemma AddInto(x: Value, acc: Register, env: Env, soFar: string)
    requires Operand(x, env).Some? && !(x.Register? && x.reg.name == acc.name)
    ensures Exec(OpPlus(Value.Register(acc), x, acc), env[acc.name := soFar])
         == Some(env[acc.name := soFar + Read(x, env)])
  {
    var e := env[acc.name := soFar];
    assert Operand(Value.Register(acc), e) == Some(soFar);
    assert Operand(x, e) == Operand(x, env);
    assert e[acc.name := soFar + Read(x, env)] == env[acc.name := soFar + Read(x, env)];
  }

  /** Two additions into the accumulator after `prev`: a quasi, then a value that does not read the accumulator. */
  lemma AddTwice(prev: seq<Instruction>, start: Env, env: Env, acc: Register, soFar: string, quasi: string, x: Value)
    requires Run(prev, start) == Some(env[acc.name := soFar])
    requires Operand(x, env).Some? && !(x.Register? && x.reg.name == acc.name)
    ensures Run(prev + [OpPlus(Value.Register(acc), Value.String(quasi), acc)] + [OpPlus(Value.Register(acc), x, acc)], start)
         == Some(env[acc.name := soFar + quasi + Read(x, env)])
  {
    var a := OpPlus(Value.Register(acc), Value.String(quasi), acc);
    var b := OpPlus(Value.Register(acc), x, acc);
    RunSnoc(prev, a, start);
    AddInto(Value.String(quasi), acc, env, soFar);
    RunSnoc(prev + [a], b, start);
    AddInto(x, acc, env, soFar + quasi);
  }

  /** The first addition writes the first quasi and the first part's value into the accumulator. */
  lemma FirstAdd(quasi: string, x: Value, acc: Register, env: Env)
    requires Operand(x, env).Some?
    ensures Run([OpPlus(Value.String(quasi), x, acc)], env) == Some(env[acc.name := quasi + Read(x, env)])
  {
    RunSnoc([], OpPlus(Value.String(quasi), x, acc), env);
    assert [] + [OpPlus(Value.String(quasi), x, acc)] == [OpPlus(Value.String(quasi), x, acc)];
  }

  /**
   * When no part emits code or reads the accumulator, the template's code
   * leaves the concatenation in the accumulator and changes nothing else.
   */
  lemma TemplateComputesConcatenation(q: seq<string>, ps: seq<Part>, acc: Register, env: Env)
    requires |q| == |ps| + 1 && |ps| > 0
    requires forall k :: 0 <= k < |ps| ==> Simple(ps[k], acc, env)
    ensures Run(TemplateCode(q, ps, acc), env) == Some(env[acc.name := Interleave(q, Values(ps, env))])
  {
    var n := |ps|;
    var v := Values(ps, env);
    var prefix := TemplatePrefix(q, ps, acc);
    var mid := Interleave(q[..n], v[..n - 1]) + v[n - 1];
    PrefixComputes(q, ps, acc, env);
    InterleaveLast(q, v);
    if q[n] != "" {
      var last := OpPlus(Value.Register(acc), Value.String(q[n]), acc);
      assert TemplateCode(q, ps, acc) == prefix + [last];
      RunSnoc(prefix, last, env);
      AddInto(Value.String(q[n]), acc, env, mid);
    } else {
      assert TemplateCode(q, ps, acc) == prefix + [];
      assert prefix + [] == prefix;
      assert mid + q[n] == mid;
    }
  }

  lemma InterleaveLast(q: seq<string>, v: seq<string>)
    requires |q| == |v| + 1 && |v| > 0
    ensures Interleave(q, v) == Interleave(q[..|v|], v[..|v| - 1]) + v[|v| - 1] + q[|v|]
  {
  }

  /** The template's code before the last quasi. */
  function TemplatePrefix(q: seq<string>, ps: seq<Part>, acc: Register): seq<Instruction>
    requires |q| == |ps| + 1 && |ps| > 0
  {
    ps[0].code + [OpPlus(Value.String(q[0]), ps[0].value, acc)] + TemplateMiddle(q, ps, acc, |ps|)
  }

  lemma PrefixComputes(q: seq<string>, ps: seq<Part>, acc: Register, env: Env)
    requires |q| == |ps| + 1 && |ps| > 0
    requires forall k :: 0 <= k < |ps| ==> Simple(ps[k], acc, env)
    ensures var n, v := |ps|, Values(ps, env);
      Run(TemplatePrefix(q, ps, acc), env) == Some(env[acc.name := Interleave(q[..n], v[..n - 1]) + v[n - 1]])
  {
    var first := [OpPlus(Value.String(q[0]), ps[0].value, acc)];
    assert Simple(ps[0], acc, env);
    assert ps[0].code + first == first;
    FirstAdd(q[0], ps[0].value, acc, env);
    TemplateMiddleComputes(q, ps, acc, env, |ps|);
    RunAppend(first, TemplateMiddle(q, ps, acc, |ps|), env);
  }

  /** After the first `k` parts the accumulator holds the first `k` quasis and part values, interleaved. */
  lemma {:induction false} TemplateMiddleComputes(q: seq<string>, ps: seq<Part>, acc: Register, env: Env, k: nat)
    requires |q| == |ps| + 1 && 1 <= k <= |ps|
    requires forall j :: 0 <= j < |ps| ==> Simple(ps[j], acc, env)
    ensures var v := Values(ps, env);
      Run(TemplateMiddle(q, ps, acc, k), env[acc.name := q[0] + v[0]])
        == Some(env[acc.name := Interleave(q[..k], v[..k - 1]) + v[k - 1]])
  {
    var v := Values(ps, env);
    if k == 1 {
      assert q[..1][..0] == [] && v[..0] == [];
    } else {
      TemplateMiddleComputes(q, ps, acc, env, k - 1);
      var prev := TemplateMiddle(q, ps, acc, k - 1);
      assert Simple(ps[k - 1], acc, env);
      var soFar := Interleave(q[..k - 1], v[..k - 2]) + v[k - 2];
      AddTwice(prev, env[acc.name := q[0] + v[0]], env, acc, soFar, q[k - 1], ps[k - 1].value);
      TemplateMiddleStep(q, ps, acc, k);
      InterleaveStep(q, v, k);
    }
  }

  /** The code for parts up to `k` adds the `k - 1`-th quasi and then the part that emits no code. */
  lemma TemplateMiddleStep(q: seq<string>, ps: seq<Part>, acc: Register, k: nat)
    requires |q| == |ps| + 1 && 2 <= k <= |ps| && ps[k - 1].code == []
    ensures TemplateMiddle(q, ps, acc, k)
      == TemplateMiddle(q, ps, acc, k - 1)
         + [OpPlus(Value.Register(acc), Value.String(q[k - 1]), acc)]
         + [OpPlus(Value.Register(acc), ps[k - 1].value, acc)]
  {
    var prev := TemplateMiddle(q, ps, acc, k - 1);
    var a := OpPlus(Value.Register(acc), Value.String(q[k - 1]), acc);
    var b := OpPlus(Value.Register(acc), ps[k - 1].value, acc);
    assert prev + [a] + [] + [b] == prev + [a] + [b];
  }

  /** Interleaving one more quasi and value onto the prefixes. */
  lemma InterleaveStep(q: seq<string>, v: seq<string>, k: nat)
    requires 2 <= k <= |q| && k - 1 <= |v|
    ensures Interleave(q[..k], v[..k - 1]) == Interleave(q[..k - 1], v[..k - 2]) + v[k - 2] + q[k - 1]
  {
    assert q[..k][..k - 1] == q[..k - 1];
    assert v[..k - 1][..k - 2] == v[..k - 2];
  }

  /**
   * The template's value is wrong when a later part reads the target: with
   * target `%x`, the statement `x = `${y}${x}`` first writes `y` into `%x`,
   * and the copy of `x` taken for the second part then reads that. With
   * `x = "b"` and `y = "a"` the result is "aa" instead of "ab".
   */
  lemma TemplateTargetClobbered()
    ensures var x, y, t := Reg(false, "x"), Reg(false, "y"), Reg(false, "t");
      var env := map["x" := "b", "y" := "a"];
      var ps := [Part([], Value.Register(y)), Part([Mov(Value.Register(x), t)], Value.Register(t))];
      var r := Run(TemplateResult(["", "", ""], ps, Some(x), Reg(false, "acc")).1, env);
      && r.Some? && r.value["x"] == "aa"
      && Interleave(["", "", ""], [env["y"], env["x"]]) == "ab"
  {
    var x, y, t := Reg(false, "x"), Reg(false, "y"), Reg(false, "t");
    var ps := [Part([], Value.Register(y)), Part([Mov(Value.Register(x), t)], Value.Register(t))];
    assert TemplateMiddle(["", "", ""], ps, x, 2) == ClobberCode()[1..];
    assert TemplateResult(["", "", ""], ps, Some(x), Reg(false, "acc")).1 == ClobberCode();
    ClobberRun();
    assert Interleave(["", ""], ["a"]) == "a" by {
      assert ["", ""][..1] == [""] && ["a"][..0] == [];
    }
    assert ["", "", ""][..2] == ["", ""] && ["a", "b"][..1] == ["a"];
  }

  /** The four instructions of the counterexample, accumulating into `%x`. */
  function ClobberCode(): seq<Instruction> {
    var x, y, t := Reg(false, "x"), Reg(false, "y"), Reg(false, "t");
    [ OpPlus(Value.String(""), Value.Register(y), x),
      OpPlus(Value.Register(x), Value.String(""), x),
      Mov(Value.Register(x), t),
      OpPlus(Value.Register(x), Value.Register(t), x) ]
  }

  lemma ClobberRun()
    ensures var r := Run(ClobberCode(), map["x" := "b", "y" := "a"]);
      r.Some? && r.value["x"] == "aa"
  {
    var c := ClobberCode();
    var env := map["x" := "b", "y" := "a"];
    assert "" + "a" == "a" && "a" + "" == "a";
    var e1 := env["x" := "a"];
    var e2 := e1["x" := "a"];
    var e3 := e2["t" := "a"];
    var e4 := e3["x" := "a" + "a"];
    RunSnoc([], c[0], env);
    assert [] + [c[0]] == c[..1];
    assert Run(c[..1], env) == Some(e1);
    RunSnoc(c[..1], c[1], env);
    assert c[..1] + [c[1]] == c[..2];
    assert Run(c[..2], env) == Some(e2);
    RunSnoc(c[..2], c[2], env);
    assert c[..2] + [c[2]] == c[..3];
    assert Run(c[..3], env) == Some(e3);
    RunSnoc(c[..3], c[3], env);
    assert c[..3] + [c[3]] == c;
    assert e4["x"] == "aa";
  }

  /**
   * The corrected emission: when there is a target, accumulate in the fresh
   * temporary `tmp` and move the result into the target at the end, so that
   * every part still reads the target's old value.
   */
  function TemplateResultCorrected(q: seq<string>, ps: seq<Part>, target: Option<Register>, tmp: Register): (CompiledExpression, seq<Instruction>)
    requires |q| == |ps| + 1
  {
    if ps == [] then (NewCompiled(Value.String(q[0]), []), [])
    else if target.None? then (NewCompiled(Value.Register(tmp), [tmp]), TemplateCode(q, ps, tmp))
    else (NewCompiled(Value.Register(target.value), []), TemplateCode(q, ps, tmp) + [Mov(Value.Register(tmp), target.value)])
  }

  /** A final move copies what the code left in `tmp` into `target`. */
  lemma MoveOut(code: seq<Instruction>, env: Env, tmp: Register, target: Register, s: string)
    requires Run(code, env) == Some(env[tmp.name := s])
    ensures var r := Run(code + [Mov(Value.Register(tmp), target)], env);
      r.Some? && r.value[target.name] == s
  {
    RunSnoc(code, Mov(Value.Register(tmp), target), env);
  }

  /**
   * With the correction the target receives the template's value whenever
   * no part emits code or reads the temporary, including parts that read
   * the target itself.
   */
  lemma TemplateCorrectedComputesConcatenation(q: seq<string>, ps: seq<Part>, target: Register, tmp: Register, env: Env)
    requires |q| == |ps| + 1 && |ps| > 0
    requires forall k :: 0 <= k < |ps| ==> Simple(ps[k], tmp, env)
    ensures var r := Run(TemplateResultCorrected(q, ps, Some(target), tmp).1, env);
      r.Some? && r.value[target.name] == Interleave(q, Values(ps, env))
  {
    TemplateComputesConcatenation(q, ps, tmp, env);
    var code := TemplateCode(q, ps, tmp);
    var mv := Mov(Value.Register(tmp), target);
    assert TemplateResultCorrected(q, ps, Some(target), tmp).1 == code + [mv];
    MoveOut(code, env, tmp, target, Interleave(q, Values(ps, env)));
  }

  /** On the counterexample's input the corrected emission gives the intended "ab". */
  lemma TemplateCorrectedOnClobberInput()
    ensures var x, y, t := Reg(false, "x"), Reg(false, "y"), Reg(false, "t");
      var env := map["x" := "b", "y" := "a"];
      var ps := [Part([], Value.Register(y)), Part([Mov(Value.Register(x), t)], Value.Register(t))];
      var r := Run(TemplateResultCorrected(["", "", ""], ps, Some(x), Reg(false, "acc")).1, env);
      && r.Some? && r.value["x"] == Interleave(["", "", ""], [env["y"], env["x"]])
  {
    var x, y, t := Reg(false, "x"), Reg(false, "y"), Reg(false, "t");
    var ps := [Part([], Value.Register(y)), Part([Mov(Value.Register(x), t)], Value.Register(t))];
    var acc := Reg(false, "acc");
    assert TemplateMiddle(["", "", ""], ps, acc, 2) == CorrectedCode()[1..4];
    assert TemplateResultCorrected(["", "", ""], ps, Some(x), acc).1 == CorrectedCode();
    CorrectedRun();
    assert Interleave(["", ""], ["a"]) == "a" by {
      assert ["", ""][..1] == [""] && ["a"][..0] == [];
    }
    assert ["", "", ""][..2] == ["", ""] && ["a", "b"][..1] == ["a"];
  }

  /** The corrected emission for the counterexample: accumulate in `%acc`, then move into `%x`. */
  function CorrectedCode(): seq<Instruction> {
    var x, y, t, acc := Reg(false, "x"), Reg(false, "y"), Reg(false, "t"), Reg(false, "acc");
    [ OpPlus(Value.String(""), Value.Register(y), acc),
      OpPlus(Value.Register(acc), Value.String(""), acc),
      Mov(Value.Register(x), t),
      OpPlus(Value.Register(acc), Value.Register(t), acc),
      Mov(Value.Register(acc), x) ]
  }

  lemma CorrectedRun()
    ensures var r := Run(CorrectedCode(), map["x" := "b", "y" := "a"]);
      r.Some? && r.value["x"] == "ab"
  {
    var c := CorrectedCode();
    var env := map["x" := "b", "y" := "a"];
    CorrectedRunPrefix();
    var e3 := env["acc" := "a"]["acc" := "a"]["t" := "b"];
    var e4 := e3["acc" := "a" + "b"];
    var e5 := e4["x" := "a" + "b"];
    RunSnoc(c[..3], c[3], env);
    assert c[..3] + [c[3]] == c[..4];
    assert Run(c[..4], env) == Some(e4);
    RunSnoc(c[..4], c[4], env);
    assert c[..4] + [c[4]] == c;
    assert e5["x"] == "ab";
  }

  lemma CorrectedRunPrefix()
    ensures Run(CorrectedCode()[..3], map["x" := "b", "y" := "a"]) == Some(map["x" := "b", "y" := "a"]["acc" := "a"]["acc" := "a"]["t" := "b"])
  {
    var c := CorrectedCode();
    var env := map["x" := "b", "y" := "a"];
    assert "" + "a" == "a" && "a" + "" == "a";
    var e1 := env["acc" := "a"];
    var e2 := e1["acc" := "a"];
    var e3 := e2["t" := "b"];
    RunSnoc([], c[0], env);
    assert [] + [c[0]] == c[..1];
    assert Run(c[..1], env) == Some(e1);
    RunSnoc(c[..1], c[1], env);
    assert c[..1] + [c[1]] == c[..2];
    assert Run(c[..2], env) == Some(e2);
    RunSnoc(c[..2], c[2], env);
    assert c[..2] + [c[2]] == c[..3];
  }
}
