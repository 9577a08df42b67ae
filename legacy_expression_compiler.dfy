/**
 * Pieces of the first compiler's expression compiler
 * (`src/vstc/expression_compiler.rs`), which prints assembly text: the
 * operator mnemonics, the printed literals and identifiers, `inline`, array
 * literals, and the write-back (`packup`) of a nested assignment target.
 */
module LegacyExpressionCompiler {
  import opened Wrappers
  import opened Text
  import Op = Operators
  import EC = ExpressionCompiler

  // ---------------------------------------------------------------------------
  // Operator mnemonics.
  // ---------------------------------------------------------------------------

  /** `get_binary_op_str`. */
  function BinaryOpStr(op: Op.BinaryOp): (s: string)
    ensures |s| >= 2
  {
    match op
    case EqEq => "op=="
    case NotEq => "op!="
    case EqEqEq => "op==="
    case NotEqEq => "op!=="
    case Lt => "op<"
    case LtEq => "op<="
    case Gt => "op>"
    case GtEq => "op>="
    case LShift => "op<<"
    case RShift => "op>>"
    case ZeroFillRShift => "op>>>"
    case Add => "op+"
    case Sub => "op-"
    case Mul => "op*"
    case Div => "op/"
    case Mod => "op%"
    case BitOr => "op|"
    case BitXor => "op^"
    case BitAnd => "op&"
    case LogicalOr => "op||"
    case LogicalAnd => "op&&"
    case In => "in"
    case InstanceOf => "instanceof"
    case Exp => "op**"
    case NullishCoalescing => "op??"
  }

  /** The operator a binary mnemonic names, as an assembler reading it back would find it. */
  function BinaryOpOfStr(s: string): Option<Op.BinaryOp> {
    if s == "op==" then Some(Op.EqEq)
    else if s == "op!=" then Some(Op.NotEq)
    else if s == "op===" then Some(Op.EqEqEq)
    else if s == "op!==" then Some(Op.NotEqEq)
    else if s == "op<" then Some(Op.Lt)
    else if s == "op<=" then Some(Op.LtEq)
    else if s == "op>" then Some(Op.Gt)
    else if s == "op>=" then Some(Op.GtEq)
    else if s == "op<<" then Some(Op.LShift)
    else if s == "op>>" then Some(Op.RShift)
    else if s == "op>>>" then Some(Op.ZeroFillRShift)
    else if s == "op+" then Some(Op.Add)
    else if s == "op-" then Some(Op.Sub)
    else if s == "op*" then Some(Op.Mul)
    else if s == "op/" then Some(Op.Div)
    else if s == "op%" then Some(Op.Mod)
    else if s == "op|" then Some(Op.BitOr)
    else if s == "op^" then Some(Op.BitXor)
    else if s == "op&" then Some(Op.BitAnd)
    else if s == "op||" then Some(Op.LogicalOr)
    else if s == "op&&" then Some(Op.LogicalAnd)
    else if s == "in" then Some(Op.In)
    else if s == "instanceof" then Some(Op.InstanceOf)
    else if s == "op**" then Some(Op.Exp)
    else if s == "op??" then Some(Op.NullishCoalescing)
    else None
  }

  /** Every binary operator has its own mnemonic: reading the printed mnemonic back gives the operator. */
  lemma BinaryOpStrRoundTrip(op: Op.BinaryOp)
    ensures BinaryOpOfStr(BinaryOpStr(op)) == Some(op)
  {
  }

  /** `get_unary_op_str`: `void` and `delete` have no instruction (the source panics). */
  function UnaryOpStr(op: Op.UnaryOp): (r: Option<string>)
    ensures r.None? <==> op == Op.Void || op == Op.Delete
  {
    match op
    case Minus => Some("unary-")
    case Plus => Some("unary+")
    case Bang => Some("op!")
    case Tilde => Some("op~")
    case TypeOf => Some("typeof")
    case Void => None
    case Delete => None
  }

  /** The operator a unary mnemonic names. */
  function UnaryOpOfStr(s: string): Option<Op.UnaryOp> {
    if s == "unary-" then Some(Op.Minus)
    else if s == "unary+" then Some(Op.Plus)
    else if s == "op!" then Some(Op.Bang)
    else if s == "op~" then Some(Op.Tilde)
    else if s == "typeof" then Some(Op.TypeOf)
    else None
  }

  /** Each unary operator with an instruction has its own mnemonic. */
  lemma UnaryOpStrRoundTrip(op: Op.UnaryOp)
    requires op != Op.Void && op != Op.Delete
    ensures UnaryOpOfStr(UnaryOpStr(op).value) == Some(op)
  {
  }

  /** No unary mnemonic is also a binary one. */
  lemma UnaryAndBinaryMnemonicsDisjoint(u: Op.UnaryOp, b: Op.BinaryOp)
    requires u != Op.Void && u != Op.Delete
    ensures UnaryOpStr(u).value != BinaryOpStr(b)
  {
    BinaryOpStrRoundTrip(b);
  }

  /** `get_assign_op_str`: `=` has no operator; each compound assignment has its binary operator's mnemonic. */
  function AssignOpStr(op: Op.AssignOp): (r: Option<string>)
    ensures r.None? <==> op == Op.Assign
  {
    match op
    case Assign => None
    case AddAssign => Some("op+")
    case SubAssign => Some("op-")
    case MulAssign => Some("op*")
    case DivAssign => Some("op/")
    case ModAssign => Some("op%")
    case LShiftAssign => Some("op<<")
    case RShiftAssign => Some("op>>")
    case ZeroFillRShiftAssign => Some("op>>>")
    case BitOrAssign => Some("op|")
    case BitXorAssign => Some("op^")
    case BitAndAssign => Some("op&")
    case ExpAssign => Some("op**")
    case AndAssign => Some("op&&")
    case OrAssign => Some("op||")
    case NullishAssign => Some("op??")
  }

  /**
   * The two compilers agree on compound assignment: the first prints the
   * mnemonic of exactly the binary operator the second one applies.
   */
  lemma AssignOpStrAgrees(op: Op.AssignOp)
    ensures AssignOpStr(op) == match EC.BinaryOpForAssignOp(op)
                              case None => None
                              case Some(b) => Some(BinaryOpStr(b))
  {
  }

  // ---------------------------------------------------------------------------
  // Literals and identifiers.
  // ---------------------------------------------------------------------------

  /**
   * A literal as the parser hands it over. A number carries the text Rust's
   * `Display` prints for its `f64` value; that formatting is not modelled.
   */
  datatype Lit = Str(value: string) | BoolLit(b: bool) | NullLit | Num(printed: string) | BigIntLit | RegexLit | JsxText

  /** The characters Rust's `Display` of an `f64` can print: digits, `.`, `-`, and those of `NaN` and `inf`. */
  predicate NumberChar(c: char) {
    ('0' <= c <= '9') || c == '.' || c == '-' || c == 'N' || c == 'a' || c == 'i' || c == 'n' || c == 'f'
  }

  predicate PrintedNumber(p: string) {
    p != [] && forall i :: 0 <= i < |p| ==> NumberChar(p[i])
  }

  /** The literals the parser can hand over: a number's text is one `Display` can print. */
  predicate WellFormedLit(lit: Lit) {
    lit.Num? ==> PrintedNumber(lit.printed)
  }

  /**
   * `compile_literal`: strings in double quotes without escaping, booleans,
   * `null` and numbers as printed; bigint, regex and JSX literals panic.
   */
  function CompileLiteral(lit: Lit): (r: Option<string>)
    ensures r.None? <==> lit.BigIntLit? || lit.RegexLit? || lit.JsxText?
  {
    match lit
    case Str(s) => Some("\"" + s + "\"")
    case BoolLit(b) => Some(if b then "true" else "false")
    case NullLit => Some("null")
    case Num(p) => Some(p)
    case BigIntLit => None
    case RegexLit => None
    case JsxText => None
  }

  /** Reading a printed literal back. */
  function LiteralOfText(t: string): Lit {
    if |t| >= 2 && t[0] == '"' && t[|t| - 1] == '"' then Str(t[1..|t| - 1])
    else if t == "true" then BoolLit(true)
    else if t == "false" then BoolLit(false)
    else if t == "null" then NullLit
    else Num(t)
  }

  /** A printed literal determines the literal: the four printed forms never collide. */
  lemma CompileLiteralRoundTrip(lit: Lit)
    requires WellFormedLit(lit) && CompileLiteral(lit).Some?
    ensures LiteralOfText(CompileLiteral(lit).value) == lit
  {
    match lit
    case Str(s) =>
      var t := "\"" + s + "\"";
      assert t[1..|t| - 1] == s;
    case Num(p) =>
      assert NumberChar(p[0]) && NumberChar(p[|p| - 1]);
      assert p != "true" by { assert !NumberChar("true"[0]); }
      assert p != "false" by { assert !NumberChar("false"[2]); }
      assert p != "null" by { assert !NumberChar("null"[1]); }
    case _ =>
  }

  /** What a name maps to in scope: a register or a definition. */
  datatype MappedName = Register(register: string) | Definition(definition: string)

  /** How `identifier` prints a mapped name. */
  function MappedText(m: MappedName): (t: string)
    ensures |t| > 0 && (t[0] == '%' <==> m.Register?)
  {
    match m
    case Register(reg) => "%" + reg
    case Definition(def) => "@" + def
  }

  /** Reading a printed name back. */
  function MappedOfText(t: string): Option<MappedName> {
    if t == [] then None
    else if t[0] == '%' then Some(Register(t[1..]))
    else if t[0] == '@' then Some(Definition(t[1..]))
    else None
  }

  lemma MappedTextRoundTrip(m: MappedName)
    ensures MappedOfText(MappedText(m)) == Some(m)
  {
    var t := MappedText(m);
    assert t[1..] == if m.Register? then m.register else m.definition;
  }

  // ---------------------------------------------------------------------------
  // The instructions `inline` and array literals print.
  // ---------------------------------------------------------------------------

  /** `mov <value> %<register>`, as `inline` prints it. */
  function MovLine(value: string, register: string): string {
    "  mov " + value + " %" + register
  }

  /**
   * A `mov` line determines its operands when the register name has no `%`
   * (register names are identifiers): the register is what follows the last
   * `%`, the value what lies between the opcode and it.
   */
  lemma MovLineDeterminesOperands(v1: string, r1: string, v2: string, r2: string)
    requires '%' !in r1 && '%' !in r2
    requires MovLine(v1, r1) == MovLine(v2, r2)
    ensures v1 == v2 && r1 == r2
  {
    var l := MovLine(v1, r1);
    assert l == "  mov " + v1 + " %" + r1;
    assert l[|l| - |r1| - 1] == '%';
    assert l[|l| - |r2| - 1] == '%';
    assert r1 == l[|l| - |r1|..] == r2;
    assert v1 == l[6..|l| - |r1| - 2] == v2;
  }

  /** The value assembly of a compiled expression and the temporary registers it holds. */
  datatype Compiled = Compiled(valueAssembly: string, nestedRegisters: seq<string>)

  /** An element of an array literal: a hole, a spread, or a compiled expression. */
  datatype Element = Hole | Spread | Item(compiled: Compiled)

  predicate HasSpread(elems: seq<Element>) {
    exists i :: 0 <= i < |elems| && elems[i].Spread?
  }

  /** How an element is printed: a hole as `void`. */
  function ElementText(e: Element): string {
    match e
    case Item(c) => c.valueAssembly
    case _ => "void"
  }

  function ElementTexts(elems: seq<Element>): (ts: seq<string>)
    ensures |ts| == |elems| && forall i :: 0 <= i < |elems| ==> ts[i] == ElementText(elems[i])
  {
    seq(|elems|, i requires 0 <= i < |elems| => ElementText(elems[i]))
  }

  /** An array literal's value: its elements' values between brackets, separated by `, `. */
  function ArrayText(elems: seq<Element>): string {
    "[" + Join(ElementTexts(elems), ", ") + "]"
  }

  /** The temporary registers of the elements, in order. */
  function ElementRegisters(elems: seq<Element>): seq<string> {
    if elems == [] then []
    else
      var last := elems[|elems| - 1];
      ElementRegisters(elems[..|elems| - 1]) + (if last.Item? then last.compiled.nestedRegisters else [])
  }

  /** The separator the loop has printed after `i` of `n` elements: none after the last. */
  function Separator(i: nat, n: nat): string {
    if 0 < i < n then ", " else ""
  }

  /** Printing element `i` extends the printed prefix by its text and, unless it is the last, a separator. */
  lemma ArrayStep(elems: seq<Element>, i: nat)
    requires i < |elems|
    ensures "[" + Join(ElementTexts(elems[..i + 1]), ", ") + Separator(i + 1, |elems|)
      == "[" + Join(ElementTexts(elems[..i]), ", ") + Separator(i, |elems|) + ElementText(elems[i]) + Separator(i + 1, |elems|)
    ensures ElementRegisters(elems[..i + 1])
      == ElementRegisters(elems[..i]) + (if elems[i].Item? then elems[i].compiled.nestedRegisters else [])
  {
    assert ElementTexts(elems[..i + 1]) == ElementTexts(elems[..i]) + [ElementText(elems[i])];
    JoinSnoc(ElementTexts(elems[..i]), ElementText(elems[i]), ", ");
    assert elems[..i + 1][..i] == elems[..i];
  }

  // ---------------------------------------------------------------------------
  // Nested assignment targets.
  // ---------------------------------------------------------------------------

  /**
   * `TargetAccessor`: a register, or a subscript of another target whose
   * value was fetched into a temporary register.
   */
  datatype TargetAccessor =
    | RegisterTarget(name: string)
    | Nested(obj: TargetAccessor, subscript: Compiled, register: string)

  /** `TargetAccessor::register`: the register that holds the target's value. */
  function AccessorRegister(ta: TargetAccessor): (r: string)
    ensures ta.RegisterTarget? ==> r == ta.name
    ensures ta.Nested? ==> r == ta.register
  {
    match ta
    case RegisterTarget(reg) => reg
    case Nested(_, _, reg) => reg
  }

  /** The variable at the root of a target. */
  function Root(ta: TargetAccessor): string {
    match ta
    case RegisterTarget(reg) => reg
    case Nested(obj, _, _) => Root(obj)
  }

  /** One subscript fetch: the object's register, the key, the temporary register. */
  datatype Access = Access(objectRegister: string, key: string, register: string)

  /** The fetches `TargetAccessor::compile` performs, root first. */
  function Accesses(ta: TargetAccessor): seq<Access> {
    match ta
    case RegisterTarget(_) => []
    case Nested(obj, sub, reg) => Accesses(obj) + [Access(AccessorRegister(obj), sub.valueAssembly, reg)]
  }

  /** `submov <key> %<register> %<object>`: store the temporary back into the object. */
  function SubmovLine(a: Access): string {
    "  submov " + a.key + " %" + a.register + " %" + a.objectRegister
  }

  /** The lines `packup` prints: one `submov` per fetch, innermost first. */
  function PackupLines(ta: TargetAccessor): seq<string> {
    match ta
    case RegisterTarget(_) => []
    case Nested(obj, sub, reg) => [SubmovLine(Access(AccessorRegister(obj), sub.valueAssembly, reg))] + PackupLines(obj)
  }

  /** The registers `packup` releases: each temporary, then its key's registers, innermost first. */
  function PackupReleases(ta: TargetAccessor): seq<string> {
    match ta
    case RegisterTarget(_) => []
    case Nested(obj, sub, reg) => [reg] + sub.nestedRegisters + PackupReleases(obj)
  }

  /**
   * `packup` undoes the fetches in reverse: its k-th line stores back exactly
   * the fetch made k places from the end.
   */
  lemma {:induction false} PackupReversesAccesses(ta: TargetAccessor)
    ensures |PackupLines(ta)| == |Accesses(ta)|
    ensures forall k :: 0 <= k < |PackupLines(ta)| ==>
      PackupLines(ta)[k] == SubmovLine(Accesses(ta)[|Accesses(ta)| - 1 - k])
  {
    match ta
    case RegisterTarget(_) =>
    case Nested(obj, sub, reg) =>
      PackupReversesAccesses(obj);
  }

  /** The fetches form a chain from the root: each one reads the register the previous one wrote. */
  lemma {:induction false} AccessesChain(ta: TargetAccessor)
    ensures ta.Nested? ==> |Accesses(ta)| > 0 && Accesses(ta)[|Accesses(ta)| - 1].register == AccessorRegister(ta)
    ensures ta.Nested? ==> Accesses(ta)[0].objectRegister == Root(ta)
    ensures forall k :: 0 < k < |Accesses(ta)| ==> Accesses(ta)[k].objectRegister == Accesses(ta)[k - 1].register
  {
    match ta
    case RegisterTarget(_) =>
    case Nested(obj, sub, reg) =>
      AccessesChain(obj);
  }

  /** So the last line `packup` prints stores into the root variable, and every temporary is released. */
  lemma PackupReachesRoot(ta: TargetAccessor)
    requires ta.Nested?
    ensures |PackupLines(ta)| > 0
    ensures PackupLines(ta)[|PackupLines(ta)| - 1] == SubmovLine(Accesses(ta)[0])
    ensures Accesses(ta)[0].objectRegister == Root(ta)
    ensures forall a :: a in Accesses(ta) ==> a.register in PackupReleases(ta)
  {
    PackupReversesAccesses(ta);
    AccessesChain(ta);
    AccessRegistersReleased(ta);
  }

  lemma {:induction false} AccessRegistersReleased(ta: TargetAccessor)
    ensures forall a :: a in Accesses(ta) ==> a.register in PackupReleases(ta)
  {
    match ta
    case RegisterTarget(_) =>
    case Nested(obj, sub, reg) =>
      AccessRegistersReleased(obj);
  }

  // ---------------------------------------------------------------------------
  // The expression compiler.
  // ---------------------------------------------------------------------------

  /**
   * `ExpressionCompiler`: the scope it resolves names in, and the parts of the
   * function compiler it changes: the definition's lines and the registers
   * handed back to the register allocator.
   */
  class ExpressionCompiler {
    const scope: map<string, MappedName>
    var definition: seq<string>
    var released: seq<string>

    constructor(scope: map<string, MappedName>)
      ensures this.scope == scope && definition == [] && released == []
    {
      this.scope := scope;
      definition := [];
      released := [];
    }

    /** `inline`: the value itself, or a `mov` into the target and the target as the value. */
    method Inline(valueAssembly: string, target: Option<string>) returns (ce: Compiled)
      modifies this
      ensures released == old(released)
      ensures target.None? ==> ce == Compiled(valueAssembly, []) && definition == old(definition)
      ensures target.Some? ==>
        ce == Compiled("%" + target.value, []) && definition == old(definition) + [MovLine(valueAssembly, target.value)]
    {
      match target
      case None =>
        ce := Compiled(valueAssembly, []);
      case Some(t) =>
        var instr := "  mov ";
        instr := instr + valueAssembly;
        instr := instr + " %";
        instr := instr + t;
        definition := definition + [instr];
        ce := Compiled("%" + t, []);
    }

    /** `literal`: `None` where `compile_literal` panics, and then nothing is printed. */
    method Literal(lit: Lit, target: Option<string>) returns (r: Option<Compiled>)
      modifies this
      ensures released == old(released)
      ensures r.None? <==> CompileLiteral(lit).None?
      ensures r.None? ==> definition == old(definition)
      ensures r.Some? && target.None? ==> r.value == Compiled(CompileLiteral(lit).value, []) && definition == old(definition)
      ensures r.Some? && target.Some? ==>
        r.value == Compiled("%" + target.value, [])
        && definition == old(definition) + [MovLine(CompileLiteral(lit).value, target.value)]
    {
      match CompileLiteral(lit)
      case None =>
        r := None;
      case Some(text) =>
        var ce := Inline(text, target);
        r := Some(ce);
    }

    /** `identifier`: `None` for a name not in scope (the source panics), and then nothing is printed. */
    method Identifier(name: string, target: Option<string>) returns (r: Option<Compiled>)
      modifies this
      ensures released == old(released)
      ensures r.None? <==> name !in scope
      ensures r.None? ==> definition == old(definition)
      ensures r.Some? && target.None? ==> r.value == Compiled(MappedText(scope[name]), []) && definition == old(definition)
      ensures r.Some? && target.Some? ==>
        r.value == Compiled("%" + target.value, [])
        && definition == old(definition) + [MovLine(MappedText(scope[name]), target.value)]
    {
      if name !in scope {
        return None;
      }
      var ce := Inline(MappedText(scope[name]), target);
      r := Some(ce);
    }

    /**
     * `array_expression`, with the elements already compiled: a spread panics;
     * otherwise the elements are printed between brackets, and with a target
     * the array is moved into it and the elements' registers are released.
     */
    method ArrayExpression(elems: seq<Element>, target: Option<string>) returns (r: Option<Compiled>)
      modifies this
      ensures r.None? <==> HasSpread(elems)
      ensures r.None? ==> definition == old(definition) && released == old(released)
      ensures r.Some? && target.None? ==>
        r.value == Compiled(ArrayText(elems), ElementRegisters(elems))
        && definition == old(definition) && released == old(released)
      ensures r.Some? && target.Some? ==>
        r.value == Compiled("%" + target.value, [])
        && definition == old(definition) + [MovLine(ArrayText(elems), target.value)]
        && released == old(released) + ElementRegisters(elems)
    {
      var valueAssembly := "[";
      var subNested: seq<string> := [];
      var n := |elems|;
      for i := 0 to n
        invariant definition == old(definition) && released == old(released)
        invariant forall j :: 0 <= j < i ==> !elems[j].Spread?
        invariant valueAssembly == "[" + Join(ElementTexts(elems[..i]), ", ") + Separator(i, n)
        invariant subNested == ElementRegisters(elems[..i])
      {
        var e := elems[i];
        if e.Spread? {
          return None;
        }
        ArrayStep(elems, i);
        var text;
        if e.Item? {
          text := e.compiled.valueAssembly;
          subNested := subNested + e.compiled.nestedRegisters;
        } else {
          text := "void";
        }
        valueAssembly := valueAssembly + text;
        if i != n - 1 {
          valueAssembly := valueAssembly + ", ";
        }
      }
      assert elems[..n] == elems;
      assert valueAssembly == "[" + Join(ElementTexts(elems), ", ");
      valueAssembly := valueAssembly + "]";
      match target
      case None =>
        r := Some(Compiled(valueAssembly, subNested));
      case Some(tr) =>
        definition := definition + [MovLine(valueAssembly, tr)];
        released := released + subNested;
        r := Some(Compiled("%" + tr, []));
    }

    /** `TargetAccessor::packup`: store each fetched value back, innermost first, releasing its registers. */
    method Packup(ta: TargetAccessor)
      modifies this
      ensures definition == old(definition) + PackupLines(ta)
      ensures released == old(released) + PackupReleases(ta)
      decreases ta
    {
      match ta
      case RegisterTarget(_) =>
      case Nested(obj, sub, reg) =>
        definition := definition + [SubmovLine(Access(AccessorRegister(obj), sub.valueAssembly, reg))];
        released := released + [reg];
        for k := 0 to |sub.nestedRegisters|
          invariant definition == old(definition) + [SubmovLine(Access(AccessorRegister(obj), sub.valueAssembly, reg))]
          invariant released == old(released) + [reg] + sub.nestedRegisters[..k]
        {
          released := released + [sub.nestedRegisters[k]];
        }
        assert sub.nestedRegisters[..|sub.nestedRegisters|] == sub.nestedRegisters;
        Packup(obj);
    }
  }
}
