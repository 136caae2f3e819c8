/** Expression evaluation against one environment frame. `Exec` reduces an expression to
    a literal and may write the frame (assignments); `Trans` produces the text an
    expression displays as and never writes the frame. Every `panic!` of the source is
    an `Err` carrying the kind of failure. */
module Evaluator {
  import opened Results
  import opened Numbers
  import opened Ast
  import opened Environment

  datatype ErrorKind =
    | UnboundVariable(name: string)   // a variable read before it is bound
    | TypeMismatch                    // `- * /` on operands that are not both numeric
    | DivisionByZero                  // `/` with a zero right operand
    | NonBooleanCondition             // a condition that is not "True" or "False"
    | IllegalChainedAssignment        // an assignment whose text is asked for
    | MissingOperator                 // a binary node whose operator is not handled

  /** The string literal an assignment evaluates to; callers discard it. */
  const AssignmentResult := "Successd"

  /** Booleans are the string literals "True" and "False". */
  function Truth<N>(b: bool): LiteralValue<N> {
    String(if b then "True" else "False")
  }

  /** The numbers an operand pair stands for in arithmetic: two numbers, or two strings
      that both parse. A number paired with a string has no numeric reading. */
  function NumericPair<N>(ops: NumOps<N>, l: LiteralValue<N>, r: LiteralValue<N>): Option<(N, N)> {
    if l.Number? && r.Number? then Some((l.num, r.num))
    else if l.String? && r.String? && ops.parse(l.text).Some? && ops.parse(r.text).Some? then
      Some((ops.parse(l.text).value, ops.parse(r.text).value))
    else None
  }

  /** `+`: numeric addition when the pair has a numeric reading, otherwise the
      concatenation of the two operands' display texts, left then right. It never fails. */
  function AddValues<N>(ops: NumOps<N>, l: LiteralValue<N>, r: LiteralValue<N>): (v: LiteralValue<N>)
    ensures var p := NumericPair(ops, l, r);
      v == if p.Some? then Number(ops.add(p.value.0, p.value.1))
           else String(Display(ops, l) + Display(ops, r))
    ensures l.String? != r.String? ==> v == String(Display(ops, l) + Display(ops, r))
  {
    match (l, r)
    case (Number(a), Number(b)) => Number(ops.add(a, b))
    case (String(s), String(t)) =>
      (match (ops.parse(s), ops.parse(t))
       case (Some(a), Some(b)) => Number(ops.add(a, b))
       case _ => String(s + t))
    case (String(s), Number(b)) => String(s + ops.render(b))
    case (Number(a), String(t)) => String(ops.render(a) + t)
  }

  /** The number operation behind `-`, `*` and `/`. */
  function ArithOp<N>(ops: NumOps<N>, op: Op): (N, N) -> N
    requires op.Sub? || op.Mul? || op.Div?
  {
    match op
    case Sub => ops.sub
    case Mul => ops.mul
    case Div => ops.div
  }

  /** One numeric step of `-`, `*` or `/`, with the zero check of `/`. */
  function Compute<N>(ops: NumOps<N>, op: Op, a: N, b: N): Result<LiteralValue<N>, ErrorKind>
    requires op.Sub? || op.Mul? || op.Div?
  {
    if op.Div? && ops.isZero(b) then Err(DivisionByZero)
    else Ok(Number(ArithOp(ops, op)(a, b)))
  }

  /** `-`, `*` and `/`: they succeed exactly when the operands have a numeric reading
      (and, for `/`, the right one is not zero); a number paired with a string is a type
      error even when the string parses. */
  function ArithValues<N>(ops: NumOps<N>, op: Op, l: LiteralValue<N>, r: LiteralValue<N>)
    : (v: Result<LiteralValue<N>, ErrorKind>)
    requires op.Sub? || op.Mul? || op.Div?
    ensures var p := NumericPair(ops, l, r);
      && (v == Err(TypeMismatch) <==> p.None?)
      && (v == Err(DivisionByZero) <==> p.Some? && op.Div? && ops.isZero(p.value.1))
      && (v.Ok? <==> p.Some? && !(op.Div? && ops.isZero(p.value.1)))
      && (v.Ok? ==> v.value == Number(ArithOp(ops, op)(p.value.0, p.value.1)))
    ensures l.Number? != r.Number? ==> v == Err(TypeMismatch)
  {
    match (l, r)
    case (Number(a), Number(b)) => Compute(ops, op, a, b)
    case (String(s), String(t)) =>
      (match ops.parse(s)
       case Some(a) =>
         (match ops.parse(t)
          case Some(b) => Compute(ops, op, a, b)
          case None => Err(TypeMismatch))
       case None => Err(TypeMismatch))
    case _ => Err(TypeMismatch)
  }

  /** Equality: two numbers compare numerically; any pair involving a string compares
      the display texts exactly (a number shows through the renderer). The result is
      always the string "True" or "False". */
  function EqualValues<N>(ops: NumOps<N>, l: LiteralValue<N>, r: LiteralValue<N>): (v: LiteralValue<N>)
    ensures v == Truth(true) || v == Truth(false)
    ensures v == Truth(if l.Number? && r.Number? then ops.eq(l.num, r.num)
                       else Display(ops, l) == Display(ops, r))
  {
    match (l, r)
    case (String(s), String(t)) => Truth(s == t)
    case (String(s), Number(b)) => Truth(s == ops.render(b))
    case (Number(a), String(t)) => Truth(ops.render(a) == t)
    case (Number(a), Number(b)) => Truth(ops.eq(a, b))
  }

  /** Apply a binary operator to two evaluated operands. */
  function Apply<N>(ops: NumOps<N>, op: Op, l: LiteralValue<N>, r: LiteralValue<N>)
    : (v: Result<LiteralValue<N>, ErrorKind>)
    ensures v == Err(MissingOperator) <==> op.Other?
    ensures (op.Add? || op.Eq?) ==> v.Ok?
    ensures v.Ok? && op.Eq? ==> v.value == Truth(true) || v.value == Truth(false)
  {
    match op
    case Add => Ok(AddValues(ops, l, r))
    case Sub => ArithValues(ops, op, l, r)
    case Mul => ArithValues(ops, op, l, r)
    case Div => ArithValues(ops, op, l, r)
    case Eq => Ok(EqualValues(ops, l, r))
    case Other => Err(MissingOperator)
  }

  /** The names `Exec` writes: the target of an assignment and whatever the operands of
      a binary node write. The value of an assignment is displayed on a copy of the
      frame, so assignments nested in it write nothing. */
  function ExecWrites<N>(e: Expr<N>): set<string> {
    match e
    case Assign(name, _) => {name}
    case Binary(left, _, right) => ExecWrites(left) + ExecWrites(right)
    case Literal(_) => {}
    case Variable(_) => {}
  }

  /** `exec`: reduce an expression to a literal, threading the frame through the
      evaluation. A binary node evaluates its left operand, then its right operand on the
      frame the left one left behind, and only then looks at its operator. On success
      the frame gains exactly the names the expression writes, and every other name
      keeps its value. */
  function Exec<N>(ops: NumOps<N>, e: Expr<N>, f: Frame): (r: Result<(LiteralValue<N>, Frame), ErrorKind>)
    ensures r.Ok? ==> r.value.1.Keys == f.Keys + ExecWrites(e)
    ensures r.Ok? ==> forall k :: k in f && k !in ExecWrites(e) ==> r.value.1[k] == f[k]
    decreases e, 0
  {
    match e
    case Assign(name, value) =>
      var text :- Trans(ops, value, f);
      Ok((String(AssignmentResult), f[name := text]))
    case Binary(left, op, right) =>
      var lv :- Exec(ops, left, f);
      var rv :- Exec(ops, right, lv.1);
      var v :- Apply(ops, op, lv.0, rv.0);
      Ok((v, rv.1))
    case Literal(v) => Ok((v, f))
    case Variable(name) =>
      if name in f then Ok((String(f[name]), f)) else Err(UnboundVariable(name))
  }

  /** `trans`: the text an expression displays as. A binary node is evaluated by `Exec`
      on a copy of the frame, whose changes are dropped. */
  function Trans<N>(ops: NumOps<N>, e: Expr<N>, f: Frame): (r: Result<string, ErrorKind>)
    ensures e.Assign? ==> r == Err(IllegalChainedAssignment)
    ensures !e.Assign? ==> (r.Ok? <==> Exec(ops, e, f).Ok?)
    ensures !e.Assign? && r.Ok? ==> r.value == Display(ops, Exec(ops, e, f).value.0)
    ensures !e.Assign? && r.Err? ==> r.error == Exec(ops, e, f).error
    ensures e.Variable? ==> (r.Ok? <==> e.name in f) && (r.Ok? ==> r.value == f[e.name])
    decreases e, 1
  {
    match e
    case Assign(_, _) => Err(IllegalChainedAssignment)
    case Binary(_, _, _) =>
      var lv :- Exec(ops, e, f);
      Ok(Display(ops, lv.0))
    case Literal(v) => Ok(Display(ops, v))
    case Variable(name) =>
      if name in f then Ok(f[name]) else Err(UnboundVariable(name))
  }

  // ---------------------------------------------------------------- properties

  /** For every expression but an assignment, the displayed text is the display of the
      literal `Exec` produces, and both fail alike. Variables read as string literals of
      their bound text, whatever that text looks like. */
  lemma TransAgreesWithExec<N>(ops: NumOps<N>, e: Expr<N>, f: Frame)
    requires !e.Assign?
    ensures Trans(ops, e, f).Ok? <==> Exec(ops, e, f).Ok?
    ensures Trans(ops, e, f).Ok? ==> Trans(ops, e, f).value == Display(ops, Exec(ops, e, f).value.0)
    ensures Trans(ops, e, f).Err? ==> Trans(ops, e, f).error == Exec(ops, e, f).error
    ensures e.Variable? && e.name in f ==> Exec(ops, e, f).value.0 == String(f[e.name])
  {
  }

  /** Asking for the text of an assignment fails: assignments may not be chained. */
  lemma ChainedAssignmentIsRejected<N>(ops: NumOps<N>, name: string, value: Expr<N>, f: Frame)
    ensures Trans(ops, Assign(name, value), f) == Err(IllegalChainedAssignment)
  {
  }

  /** Reading a name the frame does not bind fails with that name, on both paths. */
  lemma UnboundVariableIsRejected<N>(ops: NumOps<N>, name: string, f: Frame)
    requires name !in f
    ensures Trans(ops, Variable(name), f) == Err(UnboundVariable(name))
    ensures Exec(ops, Variable(name), f) == Err(UnboundVariable(name))
  {
  }

  /** A binary node whose operator is not `+ - * /` or equality fails once both of its
      operands have been evaluated; a failing operand is reported first. */
  lemma MissingOperatorIsRejected<N>(ops: NumOps<N>, left: Expr<N>, right: Expr<N>, f: Frame)
    ensures var l := Exec(ops, left, f);
      && (l.Err? ==> Exec(ops, Binary(left, Other, right), f) == Err(l.error))
      && (l.Ok? && Exec(ops, right, l.value.1).Ok? ==>
            Exec(ops, Binary(left, Other, right), f) == Err(MissingOperator))
  {
  }

  /** An assignment changes one key of the frame: it binds the target to the displayed
      text of the value and leaves every other entry alone. */
  lemma AssignTouchesOneKey<N>(ops: NumOps<N>, name: string, value: Expr<N>, f: Frame)
    requires Trans(ops, value, f).Ok?
    ensures Exec(ops, Assign(name, value), f) ==
      Ok((String(AssignmentResult), f[name := Trans(ops, value, f).value]))
  {
  }

  /** An expression without assignments outside assignment values evaluates without
      changing the frame. */
  lemma NoWritesNoChange<N>(ops: NumOps<N>, e: Expr<N>, f: Frame)
    requires ExecWrites(e) == {}
    requires Exec(ops, e, f).Ok?
    ensures Exec(ops, e, f).value.1 == f
  {
    var g := Exec(ops, e, f).value.1;
    assert g.Keys == f.Keys;
  }

  /** The interpreter's `test_addition`: after `name = "Tom"`, the expression
      `"你好" + (name + "，请问有什么需要帮助的？")` concatenates left to right, given that
      neither "Tom" nor "你好" parses as a number. */
  lemma TestAddition<N>(ops: NumOps<N>)
    requires ops.parse("Tom") == None && ops.parse("你好") == None
    ensures var f := Exec(ops, Assign("name", Literal(String("Tom"))), map[]).value.1;
      && f == map["name" := "Tom"]
      && Exec(ops, Binary(Literal(String("你好")), Add,
                          Binary(Variable("name"), Add, Literal(String("，请问有什么需要帮助的？")))), f)
         == Ok((String("你好Tom，请问有什么需要帮助的？"), f))
  {
    var f: Frame := map["name" := "Tom"];
    var tail := "，请问有什么需要帮助的？";
    assert Exec(ops, Assign("name", Literal(String("Tom"))), map[]) == Ok((String(AssignmentResult), f));
    AddConcatenatesText(ops, Variable("name"), Literal(String(tail)), f, f, f, "Tom", tail);
    AddConcatenatesText(ops, Literal(String("你好")),
                        Binary(Variable("name"), Add, Literal(String(tail))), f, f, f, "你好", "Tom" + tail);
    GreetingText();
  }

  lemma GreetingText()
    ensures "你好" + ("Tom" + "，请问有什么需要帮助的？") == "你好Tom，请问有什么需要帮助的？"
  {
  }

  /** A binary node over two literals applies its operator to them and leaves the frame
      alone. */
  lemma LiteralOperands<N>(ops: NumOps<N>, l: LiteralValue<N>, op: Op, r: LiteralValue<N>, f: Frame)
    ensures Apply(ops, op, l, r).Ok? ==>
      Exec(ops, Binary(Literal(l), op, Literal(r)), f) == Ok((Apply(ops, op, l, r).value, f))
    ensures Apply(ops, op, l, r).Err? ==>
      Exec(ops, Binary(Literal(l), op, Literal(r)), f) == Err(Apply(ops, op, l, r).error)
  {
  }

  /** `+` on two operands that yield text, the first of which is not numeric,
      concatenates the two texts; the right operand runs on the frame the left one
      leaves, and the node leaves the frame the right one leaves. */
  lemma AddConcatenatesText<N>(ops: NumOps<N>, left: Expr<N>, right: Expr<N>, f: Frame, f1: Frame, f2: Frame,
                               a: string, b: string)
    requires Exec(ops, left, f) == Ok((String(a), f1))
    requires Exec(ops, right, f1) == Ok((String(b), f2))
    requires ops.parse(a) == None
    ensures Exec(ops, Binary(left, Add, right), f) == Ok((String(a + b), f2))
  {
  }

  /** The interpreter's `test_complex_equality`: a variable bound to "Hello" equals the
      literal "Hello". */
  lemma TestComplexEquality<N>(ops: NumOps<N>)
    ensures var f := map["x" := "Hello"];
      Exec(ops, Binary(Variable("x"), Eq, Literal(String("Hello"))), f) == Ok((Truth(true), f))
  {
  }
}
