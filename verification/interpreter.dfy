/** Statement execution. The interpreter's state is the environment stack, the lines
    still to be read and the lines printed so far. A statement either completes
    normally or halts the whole program: by `exit`, by a failure (a `panic!` of the
    source), or, in this model only, by running out of the fuel that bounds how many
    times a `loop` may repeat. */
module Interpreter {
  import opened Results
  import opened Numbers
  import opened Ast
  import opened Environment
  import opened Evaluator

  datatype State = State(env: seq<Frame>, input: seq<string>, output: seq<string>)

  datatype Halt = Exited | Panicked(kind: ErrorKind) | OutOfFuel

  datatype Outcome = Normal(st: State) | Halted(why: Halt, output: seq<string>)

  /** Everything printed, whichever way execution ended. */
  function OutputOf(o: Outcome): seq<string> {
    match o
    case Normal(st) => st.output
    case Halted(_, out) => out
  }

  /** `rest` is what is left of `input` after reading some lines from its front. */
  predicate Consumed(input: seq<string>, rest: seq<string>) {
    |rest| <= |input| && rest == input[|input| - |rest|..]
  }

  /** `add_new_var`: bind `name` in the top frame to the displayed text of `init`. */
  function AddNewVar<N>(ops: NumOps<N>, st: State, name: string, init: Expr<N>): (r: Outcome)
    requires |st.env| >= 1
    ensures r.Normal? <==> Trans(ops, init, Top(st.env)).Ok?
    ensures r.Halted? ==> r == Halted(Panicked(Trans(ops, init, Top(st.env)).error), st.output)
    ensures r.Normal? ==>
      && r.st.input == st.input && r.st.output == st.output
      && |r.st.env| == |st.env| && Below(r.st.env) == Below(st.env)
      && Top(r.st.env) == Top(st.env)[name := Trans(ops, init, Top(st.env)).value]
  {
    match Trans(ops, init, Top(st.env))
    case Err(k) => Halted(Panicked(k), st.output)
    case Ok(text) => Normal(st.(env := Bind(st.env, name, text)))
  }

  /** `read_line` followed by `trim`: the next line of the input, or the empty line once
      the input is exhausted. */
  function ReadLine(input: seq<string>): (r: (string, seq<string>))
    ensures Consumed(input, r.1)
    ensures |input| > 0 ==> r.0 == input[0] && |r.1| == |input| - 1
    ensures |input| == 0 ==> r == ("", [])
  {
    if |input| == 0 then ("", []) else (input[0], input[1..])
  }

  /** `execute`. On normal completion the stack has its height back, only the top frame
      may differ, the top frame has lost no name, lines have only been consumed from the
      input, and printed lines have only been appended to the output. */
  function Execute<N>(ops: NumOps<N>, fuel: nat, s: Statement<N>, st: State): (r: Outcome)
    requires |st.env| >= 1
    ensures r.Normal? ==> |r.st.env| == |st.env| && Below(r.st.env) == Below(st.env)
    ensures r.Normal? ==> Top(st.env).Keys <= Top(r.st.env).Keys
    ensures r.Normal? ==> Consumed(st.input, r.st.input)
    ensures st.output <= OutputOf(r)
    decreases fuel, s
  {
    match s
    case Block(statements) =>
      var inner := ExecuteAll(ops, fuel, statements, st.(env := PushScope(st.env)));
      if inner.Normal? then Normal(inner.st.(env := PopScope(inner.st.env))) else inner
    case Expression(e) =>
      (match Exec(ops, e, Top(st.env))
       case Err(k) => Halted(Panicked(k), st.output)
       case Ok(res) => Normal(st.(env := SetTop(st.env, res.1))))
    case Branch(condition, consequent) =>
      (match Exec(ops, condition, Top(st.env))
       case Err(k) => Halted(Panicked(k), st.output)
       case Ok(res) =>
         var st' := st.(env := SetTop(st.env, res.1));
         if res.0.String? && res.0.text == "True" then Execute(ops, fuel, consequent, st')
         else if res.0.String? && res.0.text == "False" then Normal(st')
         else Halted(Panicked(NonBooleanCondition), st.output))
    case Loop(body) =>
      if fuel == 0 then Halted(OutOfFuel, st.output)
      else
        var once := Execute(ops, fuel, body, st);
        if once.Normal? then Execute(ops, fuel - 1, s, once.st) else once
    case Speak(e) =>
      (match Trans(ops, e, Top(st.env))
       case Err(k) => Halted(Panicked(k), st.output)
       case Ok(text) => Normal(st.(output := st.output + [text])))
    case Input(name) =>
      var (line, rest) := ReadLine(st.input);
      AddNewVar(ops, st.(input := rest), name, Literal(String(line)))
    case Var(name, init) => AddNewVar(ops, st, name, init)
    case Exit => Halted(Exited, st.output)
  }

  /** The statements of a block, in order, stopping at the first one that halts. */
  function ExecuteAll<N>(ops: NumOps<N>, fuel: nat, ss: seq<Statement<N>>, st: State): (r: Outcome)
    requires |st.env| >= 1
    ensures r.Normal? ==> |r.st.env| == |st.env| && Below(r.st.env) == Below(st.env)
    ensures r.Normal? ==> Top(st.env).Keys <= Top(r.st.env).Keys
    ensures r.Normal? ==> Consumed(st.input, r.st.input)
    ensures st.output <= OutputOf(r)
    decreases fuel, ss
  {
    if |ss| == 0 then Normal(st)
    else
      var first := Execute(ops, fuel, ss[0], st);
      if first.Normal? then ExecuteAll(ops, fuel, ss[1..], first.st) else first
  }

  /** `interpret`: run the program's statements on a stack holding one empty frame. */
  function Interpret<N>(ops: NumOps<N>, fuel: nat, program: seq<Statement<N>>, input: seq<string>): (r: Outcome)
    ensures r.Normal? ==> |r.st.env| == 1 && Consumed(input, r.st.input)
  {
    ExecuteAll(ops, fuel, program, State([map[]], input, []))
  }

  // ---------------------------------------------------------------- properties

  /** Two states that agree on the top frame, the pending input and the output. */
  predicate SameView(a: State, b: State) {
    && |a.env| >= 1 && |b.env| >= 1
    && Top(a.env) == Top(b.env) && a.input == b.input && a.output == b.output
  }

  /** Two outcomes that are the same halt, or normal completions with the same view. */
  predicate Corresponds(x: Outcome, y: Outcome) {
    || (x.Halted? && x == y)
    || (x.Normal? && y.Normal? && SameView(x.st, y.st))
  }

  /** Execution sees only the top frame: the frames under it influence neither what is
      printed, nor how execution ends, nor the top frame it leaves behind. */
  lemma {:induction false} ExecuteSeesOnlyTop<N>(ops: NumOps<N>, fuel: nat, s: Statement<N>, a: State, b: State)
    requires SameView(a, b)
    ensures Corresponds(Execute(ops, fuel, s, a), Execute(ops, fuel, s, b))
    decreases fuel, s, 2
  {
    match s
    case Block(statements) =>
      BlockSeesOnlyTop(ops, fuel, statements, a, b);
    case Branch(condition, consequent) =>
      BranchSeesOnlyTop(ops, fuel, condition, consequent, a, b);
    case Loop(body) =>
      LoopSeesOnlyTop(ops, fuel, body, a, b);
    case Expression(e) =>
      assert Execute(ops, fuel, s, a).Normal? ==> Execute(ops, fuel, s, a).st.env == SetTop(a.env, Exec(ops, e, Top(a.env)).value.1);
    case Speak(_) =>
    case Input(_) =>
    case Var(_, _) =>
    case Exit =>
  }

  lemma {:induction false} BranchSeesOnlyTop<N>(ops: NumOps<N>, fuel: nat, condition: Expr<N>, consequent: Statement<N>,
                                                a: State, b: State)
    requires SameView(a, b)
    ensures Corresponds(Execute(ops, fuel, Branch(condition, consequent), a),
                        Execute(ops, fuel, Branch(condition, consequent), b))
    decreases fuel, Branch(condition, consequent), 1
  {
    var ex := Exec(ops, condition, Top(a.env));
    if ex.Ok? {
      BranchUnfold(ops, fuel, condition, consequent, a);
      BranchUnfold(ops, fuel, condition, consequent, b);
      var a' := a.(env := SetTop(a.env, ex.value.1));
      var b' := b.(env := SetTop(b.env, ex.value.1));
      ExecuteSeesOnlyTop(ops, fuel, consequent, a', b');
    }
  }

  /** One step of a branch whose condition evaluates: write back the condition's frame,
      then run the consequent on "True", do nothing more on "False", and fail otherwise. */
  lemma BranchUnfold<N>(ops: NumOps<N>, fuel: nat, condition: Expr<N>, consequent: Statement<N>, st: State)
    requires |st.env| >= 1 && Exec(ops, condition, Top(st.env)).Ok?
    ensures var res := Exec(ops, condition, Top(st.env)).value;
      var st' := st.(env := SetTop(st.env, res.1));
      Execute(ops, fuel, Branch(condition, consequent), st) ==
        if res.0 == String("True") then Execute(ops, fuel, consequent, st')
        else if res.0 == String("False") then Normal(st')
        else Halted(Panicked(NonBooleanCondition), st.output)
  {
  }

  lemma {:induction false} LoopSeesOnlyTop<N>(ops: NumOps<N>, fuel: nat, body: Statement<N>, a: State, b: State)
    requires SameView(a, b)
    ensures Corresponds(Execute(ops, fuel, Loop(body), a), Execute(ops, fuel, Loop(body), b))
    decreases fuel, Loop(body), 1
  {
    if fuel > 0 {
      ExecuteSeesOnlyTop(ops, fuel, body, a, b);
      if Execute(ops, fuel, body, a).Normal? {
        LoopContinueSeesOnlyTop(ops, fuel, body, a, b);
      } else {
        LoopUnfold(ops, fuel, body, a);
        LoopUnfold(ops, fuel, body, b);
      }
    }
  }

  /** The loop case when the first run of the body completed normally on both states. */
  lemma {:induction false} LoopContinueSeesOnlyTop<N>(ops: NumOps<N>, fuel: nat, body: Statement<N>, a: State, b: State)
    requires SameView(a, b) && fuel > 0
    requires Corresponds(Execute(ops, fuel, body, a), Execute(ops, fuel, body, b))
    requires Execute(ops, fuel, body, a).Normal?
    ensures Corresponds(Execute(ops, fuel, Loop(body), a), Execute(ops, fuel, Loop(body), b))
    decreases fuel, Loop(body), 0
  {
    var oa := Execute(ops, fuel, body, a);
    var ob := Execute(ops, fuel, body, b);
    LoopUnfold(ops, fuel, body, a);
    LoopUnfold(ops, fuel, body, b);
    ExecuteSeesOnlyTop(ops, fuel - 1, Loop(body), oa.st, ob.st);
  }

  /** One iteration of a loop with fuel left: run the body once, then the loop again with
      one unit less fuel if the body completed. */
  lemma LoopUnfold<N>(ops: NumOps<N>, fuel: nat, body: Statement<N>, st: State)
    requires |st.env| >= 1 && fuel > 0
    ensures var once := Execute(ops, fuel, body, st);
      Execute(ops, fuel, Loop(body), st) ==
        if once.Normal? then Execute(ops, fuel - 1, Loop(body), once.st) else once
  {
  }

  lemma {:induction false} BlockSeesOnlyTop<N>(ops: NumOps<N>, fuel: nat, ss: seq<Statement<N>>, a: State, b: State)
    requires SameView(a, b)
    ensures Corresponds(Execute(ops, fuel, Block(ss), a), Execute(ops, fuel, Block(ss), b))
    decreases fuel, ss, 1
  {
    var a' := a.(env := PushScope(a.env));
    var b' := b.(env := PushScope(b.env));
    ExecuteAllSeesOnlyTop(ops, fuel, ss, a', b');
    var ia := ExecuteAll(ops, fuel, ss, a');
    var ib := ExecuteAll(ops, fuel, ss, b');
    BlockUnfold(ops, fuel, ss, a);
    BlockUnfold(ops, fuel, ss, b);
    if ia.Normal? {
      PopAfterPush(a.env, ia.st.env);
      PopAfterPush(b.env, ib.st.env);
    }
  }

  /** One step of a block: push, run the statements, merge and pop if they completed. */
  lemma BlockUnfold<N>(ops: NumOps<N>, fuel: nat, ss: seq<Statement<N>>, st: State)
    requires |st.env| >= 1
    ensures var inner := ExecuteAll(ops, fuel, ss, st.(env := PushScope(st.env)));
      Execute(ops, fuel, Block(ss), st) ==
        if inner.Normal? then Normal(inner.st.(env := PopScope(inner.st.env))) else inner
  {
  }

  lemma {:induction false} ExecuteAllSeesOnlyTop<N>(ops: NumOps<N>, fuel: nat, ss: seq<Statement<N>>, a: State, b: State)
    requires SameView(a, b)
    ensures Corresponds(ExecuteAll(ops, fuel, ss, a), ExecuteAll(ops, fuel, ss, b))
    decreases fuel, ss, 0
  {
    if |ss| > 0 {
      ExecuteSeesOnlyTop(ops, fuel, ss[0], a, b);
      var oa := Execute(ops, fuel, ss[0], a);
      var ob := Execute(ops, fuel, ss[0], b);
      if oa.Normal? {
        ExecuteAllSeesOnlyTop(ops, fuel, ss[1..], oa.st, ob.st);
      }
    }
  }

  /** A block opens no scope that outlives it: running a block has exactly the effect of
      running its statements directly in the enclosing frame. Names first bound inside
      the block stay bound after it, and changes to outer names stay visible. */
  lemma BlockIsTransparent<N>(ops: NumOps<N>, fuel: nat, ss: seq<Statement<N>>, st: State)
    requires |st.env| >= 1
    ensures Execute(ops, fuel, Block(ss), st) == ExecuteAll(ops, fuel, ss, st)
  {
    var pushed := st.(env := PushScope(st.env));
    ExecuteAllSeesOnlyTop(ops, fuel, ss, pushed, st);
    BlockUnfold(ops, fuel, ss, st);
    var inner := ExecuteAll(ops, fuel, ss, pushed);
    var direct := ExecuteAll(ops, fuel, ss, st);
    if inner.Normal? {
      PopOverPushed(st.env, inner.st.env, direct.st.env);
    }
  }

  /** A block with no statements changes nothing. */
  lemma EmptyBlockIsNoOp<N>(ops: NumOps<N>, fuel: nat, st: State)
    requires |st.env| >= 1
    ensures Execute(ops, fuel, Block([]), st) == Normal(st)
  {
    PushPopIdentity(st.env);
  }

  /** A loop never completes normally: it repeats its body until the body exits or
      fails, and otherwise until the fuel runs out. */
  lemma {:induction false} LoopNeverCompletes<N>(ops: NumOps<N>, fuel: nat, body: Statement<N>, st: State)
    requires |st.env| >= 1
    ensures Execute(ops, fuel, Loop(body), st).Halted?
    decreases fuel
  {
    if fuel > 0 {
      var once := Execute(ops, fuel, body, st);
      LoopUnfold(ops, fuel, body, st);
      if once.Normal? {
        LoopNeverCompletes(ops, fuel - 1, body, once.st);
      }
    }
  }

  /** A branch runs its consequent exactly when the condition evaluates to "True", does
      nothing more on "False", and fails on any other value; the frame changes the
      condition's evaluation made are kept in every case that continues. */
  lemma BranchOnTruth<N>(ops: NumOps<N>, fuel: nat, condition: Expr<N>, consequent: Statement<N>, st: State)
    requires |st.env| >= 1
    requires Exec(ops, condition, Top(st.env)).Ok?
    ensures var res := Exec(ops, condition, Top(st.env)).value;
      var st' := st.(env := SetTop(st.env, res.1));
      var r := Execute(ops, fuel, Branch(condition, consequent), st);
      && (res.0 == String("True") ==> r == Execute(ops, fuel, consequent, st'))
      && (res.0 == String("False") ==> r == Normal(st'))
      && (res.0 != String("True") && res.0 != String("False") ==>
            r == Halted(Panicked(NonBooleanCondition), st.output))
  {
    BranchUnfold(ops, fuel, condition, consequent, st);
  }

  /** `global`, `input` and an assignment statement each change one name of the top
      frame and nothing else in the stack; declaring a name again overwrites it. */
  lemma BindingsTouchOneKey<N>(ops: NumOps<N>, fuel: nat, name: string, init: Expr<N>, st: State)
    requires |st.env| >= 1
    requires Trans(ops, init, Top(st.env)).Ok?
    ensures var text := Trans(ops, init, Top(st.env)).value;
      && Execute(ops, fuel, Var(name, init), st) == Normal(st.(env := Bind(st.env, name, text)))
      && Execute(ops, fuel, Expression(Assign(name, init)), st)
         == Normal(st.(env := SetTop(st.env, Top(st.env)[name := text])))
    ensures var (line, rest) := ReadLine(st.input);
      Execute(ops, fuel, Input(name), st) == Normal(State(Bind(st.env, name, line), rest, st.output))
  {
    VarStep(ops, fuel, name, init, st);
    AssignmentStep(ops, fuel, name, init, st);
    InputStep(ops, fuel, name, st);
  }

  lemma VarStep<N>(ops: NumOps<N>, fuel: nat, name: string, init: Expr<N>, st: State)
    requires |st.env| >= 1
    requires Trans(ops, init, Top(st.env)).Ok?
    ensures Execute(ops, fuel, Var(name, init), st)
      == Normal(st.(env := Bind(st.env, name, Trans(ops, init, Top(st.env)).value)))
  {
  }

  lemma AssignmentStep<N>(ops: NumOps<N>, fuel: nat, name: string, init: Expr<N>, st: State)
    requires |st.env| >= 1
    requires Trans(ops, init, Top(st.env)).Ok?
    ensures Execute(ops, fuel, Expression(Assign(name, init)), st)
      == Normal(st.(env := SetTop(st.env, Top(st.env)[name := Trans(ops, init, Top(st.env)).value])))
  {
    AssignTouchesOneKey(ops, name, init, Top(st.env));
  }

  lemma InputStep<N>(ops: NumOps<N>, fuel: nat, name: string, st: State)
    requires |st.env| >= 1
    ensures var (line, rest) := ReadLine(st.input);
      Execute(ops, fuel, Input(name), st) == Normal(State(Bind(st.env, name, line), rest, st.output))
  {
    var (line, rest) := ReadLine(st.input);
    var lit: Expr<N> := Literal(String(line));
    assert Trans(ops, lit, Top(st.env)) == Ok(line);
    assert Execute(ops, fuel, Input(name), st) == AddNewVar(ops, st.(input := rest), name, lit);
  }

  /** After `global x = n;` for a number `n`, reading `x` gives the rendered number as a
      string: the environment keeps every value as text. */
  lemma NumbersAreStoredAsText<N>(ops: NumOps<N>, fuel: nat, n: N, st: State)
    requires |st.env| >= 1
    ensures var r := Execute(ops, fuel, Var("x", Literal(Number(n))), st);
      && r.Normal?
      && Exec(ops, Variable("x"), Top(r.st.env)) == Ok((String(ops.render(n)), Top(r.st.env)))
  {
  }

  /** `global x = n; speak x;` prints the rendered number once. */
  lemma SpeakVariableProgram<N>(ops: NumOps<N>, fuel: nat, n: N, input: seq<string>)
    ensures var r := Interpret(ops, fuel, [Var("x", Literal(Number(n))), Speak(Variable("x"))], input);
      r.Normal? && r.st.output == [ops.render(n)]
  {
    var program := [Var("x", Literal(Number(n))), Speak(Variable("x"))];
    var st0 := State([map[]], input, []);
    var st1 := st0.(env := Bind(st0.env, "x", ops.render(n)));
    assert Execute(ops, fuel, program[0], st0) == Normal(st1);
    SpeakStep(ops, fuel, Variable("x"), st1);
    var st2 := st1.(output := [ops.render(n)]);
    ExecuteAllUnfold(ops, fuel, program, st0);
    ExecuteAllUnfold(ops, fuel, program[1..], st1);
    assert program[1..][1..] == [];
  }

  /** `loop { speak "x"; exit; }` prints "x" exactly once and exits, given any fuel. */
  lemma LoopExitProgram<N>(ops: NumOps<N>, fuel: nat, input: seq<string>)
    requires fuel >= 1
    ensures Interpret(ops, fuel, [Loop(Block([Speak(Literal(String("x"))), Exit]))], input)
      == Halted(Exited, ["x"])
  {
    var st0 := State([map[]], input, []);
    var body: seq<Statement<N>> := [Speak(Literal(String("x"))), Exit];
    var st1 := st0.(output := ["x"]);
    SpeakStep(ops, fuel, Literal(String("x")), st0);
    ExecuteAllUnfold(ops, fuel, body, st0);
    ExecuteAllUnfold(ops, fuel, body[1..], st1);
    BlockIsTransparent(ops, fuel, body, st0);
    LoopUnfold(ops, fuel, Block(body), st0);
    var program := [Loop(Block(body))];
    ExecuteAllUnfold(ops, fuel, program, st0);
  }

  /** `if (a == a) { speak "hi"; }` prints "hi" when the number `a` equals itself. */
  lemma BranchProgram<N>(ops: NumOps<N>, fuel: nat, a: N, input: seq<string>)
    requires ops.eq(a, a)
    ensures var cond := Binary(Literal(Number(a)), Eq, Literal(Number(a)));
      var r := Interpret(ops, fuel, [Branch(cond, Block([Speak(Literal(String("hi")))]))], input);
      r.Normal? && r.st.output == ["hi"]
  {
    var st0 := State([map[]], input, []);
    var st1 := st0.(output := ["hi"]);
    var cond := Binary(Literal(Number(a)), Eq, Literal(Number(a)));
    var body: seq<Statement<N>> := [Speak(Literal(String("hi")))];
    LiteralOperands(ops, Number(a), Eq, Number(a), map[]);
    assert SetTop(st0.env, map[]) == st0.env;
    SpeakStep(ops, fuel, Literal(String("hi")), st0);
    ExecuteAllUnfold(ops, fuel, body, st0);
    BlockIsTransparent(ops, fuel, body, st0);
    BranchUnfold(ops, fuel, cond, Block(body), st0);
    var program := [Branch(cond, Block(body))];
    ExecuteAllUnfold(ops, fuel, program, st0);
  }

  /** A sequence of statements runs its first statement, then the rest if the first
      completed. */
  lemma ExecuteAllUnfold<N>(ops: NumOps<N>, fuel: nat, ss: seq<Statement<N>>, st: State)
    requires |st.env| >= 1 && |ss| >= 1
    ensures var first := Execute(ops, fuel, ss[0], st);
      ExecuteAll(ops, fuel, ss, st) ==
        if first.Normal? then ExecuteAll(ops, fuel, ss[1..], first.st) else first
  {
  }

  /** `speak` of an expression that has a text appends exactly that text to the output
      and changes nothing else. */
  lemma SpeakStep<N>(ops: NumOps<N>, fuel: nat, e: Expr<N>, st: State)
    requires |st.env| >= 1 && Trans(ops, e, Top(st.env)).Ok?
    ensures Execute(ops, fuel, Speak(e), st) ==
      Normal(st.(output := st.output + [Trans(ops, e, Top(st.env)).value]))
  {
  }

  /** A name first declared inside a block is still bound after the block. */
  lemma InnerNamesLeak<N>(ops: NumOps<N>, fuel: nat, name: string, text: string, st: State)
    requires |st.env| >= 1
    ensures var r := Execute(ops, fuel, Block([Var(name, Literal(String(text)))]), st);
      r.Normal? && name in Top(r.st.env) && Top(r.st.env)[name] == text
  {
    var ss: seq<Statement<N>> := [Var(name, Literal(String(text)))];
    BlockIsTransparent(ops, fuel, ss, st);
    VarStep(ops, fuel, name, Literal(String(text)), st);
    ExecuteAllUnfold(ops, fuel, ss, st);
    assert ss[1..] == [];
  }
}
