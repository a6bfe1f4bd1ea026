/** `Interpreter::evaluate`: a tree walk that threads the variable table and the output
    buffer through the children, left to right. */
module Interpreter {
  import opened Wrappers
  import opened Values
  import opened Ast
  import opened Operators

  /** The evaluator's mutable context: the variable table and the printer's buffer. */
  datatype State = State(env: Env, out: Buffer)

  /** The result of an operator that leaves the state alone. */
  function Pure(r: Result<Value, EvalError>, st: State): (res: Result<(Slot, State), EvalError>)
    ensures r.Success? <==> res.Success?
    ensures r.Success? ==> res.value == (Some(r.value), st)
    ensures r.Failure? ==> res.error == r.error
  {
    match r
    case Failure(e) => Failure(e)
    case Success(v) => Success((Some(v), st))
  }

  /** What a node of kind `k` does once its children have given `vals`. */
  function Apply(k: Kind, vals: seq<Slot>, st: State): (r: Result<(Slot, State), EvalError>)
    requires k != Set
    ensures r.Success? && k != Puts ==> r.value.1 == st
    ensures r.Success? && k == Puts ==>
      (|vals| == 1 && StringSlot(vals[0]) && r.value.1 == State(st.env, AddOutput(st.out, vals[0].value.s)))
  {
    match k
    case Puts =>
      (match PutsText(vals)
       case Failure(e) => Failure(e)
       case Success(t) => Success((Some(NullV), State(st.env, AddOutput(st.out, t)))))
    case ToStr => Pure(Stringify(vals), st)
    case Add => Pure(Operators.Addition(vals), st)
    case Subtract => Pure(Subtraction(vals), st)
    case Multiply => Pure(Operators.Multiplication(vals), st)
    case Divide => Pure(Division(vals), st)
    case Gt => Pure(Greater(vals), st)
    case Lt => Pure(Less(vals), st)
    case Equal => Pure(Equality(vals), st)
    case NotEqual => Pure(Inequality(vals), st)
    case Min => Pure(Minimum(vals), st)
    case Max => Pure(Maximum(vals), st)
    case Abs => Pure(Absolute(vals), st)
    case Concat => Pure(Concatenation(vals), st)
    case Replace => Pure(Replacement(vals), st)
    case Substring => Pure(Operators.Substring(vals), st)
    case Lowercase => Pure(Lowercasing(vals), st)
    case Uppercase => Pure(Uppercasing(vals), st)
    case IntLit(i) => Success((Some(IntV(i)), st))
    case FloatLit(x) => Success((Some(FloatV(x)), st))
    case StringLit(s) => Success((Some(StrV(s)), st))
    case BoolLit(b) => Success((Some(BoolV(b)), st))
    case NullLit => Success((Some(NullV), st))
    case Identifier(name) => Success((Lookup(st.env, name), st))
    case ErrorNode => Failure(ErrorReached)
    case ParseTemp => Success((Some(NullV), st))
  }

  /** `evaluate`. A `set` node needs exactly two children, the first an identifier; only
      the second is evaluated, and its result is bound to the identifier's name. Every
      other node evaluates all its children first, in order, then applies its operator.
      Evaluation never unbinds a variable and never takes back output. */
  function Eval(e: Expr, st: State): (r: Result<(Slot, State), EvalError>)
    ensures r.Success? ==> Extends(st, r.value.1)
    decreases e
  {
    if e.kind == Set then
      if |e.kids| != 2 then Failure(WrongArity(Set, |e.kids|))
      else if !e.kids[0].kind.Identifier? then Failure(NotAVariable)
      else match Eval(e.kids[1], st)
        case Failure(err) => Failure(err)
        case Success(res) =>
          var after := State(Bind(res.1.env, e.kids[0].kind.name, res.0), res.1.out);
          ExtendsIsTransitive(st, res.1, after);
          Success((Some(NullV), after))
    else match EvalAll(e.kids, st)
      case Failure(err) => Failure(err)
      case Success(res) =>
        Apply(e.kind, res.0, res.1)
  }

  /** The children of a node, evaluated left to right, each in the state the previous
      one left behind; together they, too, only add variables and output. */
  function EvalAll(es: seq<Expr>, st: State): (r: Result<(seq<Slot>, State), EvalError>)
    ensures r.Success? ==> |r.value.0| == |es| && Extends(st, r.value.1)
    decreases es
  {
    if |es| == 0 then Success(([], st))
    else match Eval(es[0], st)
      case Failure(err) => Failure(err)
      case Success(first) =>
        match EvalAll(es[1..], first.1)
        case Failure(err) => Failure(err)
        case Success(rest) =>
          ExtendsIsTransitive(st, first.1, rest.1);
          Success(([first.0] + rest.0, rest.1))
  }

  /** `after` keeps every variable of `before` and everything `before` printed. */
  predicate Extends(before: State, after: State) {
    before.env.Keys <= after.env.Keys
    && |before.out| <= |after.out| && after.out[..|before.out|] == before.out
  }

  lemma {:induction false} ExtendsIsTransitive(a: State, b: State, c: State)
    requires Extends(a, b) && Extends(b, c)
    ensures Extends(a, c)
  {
    assert c.out[..|a.out|] == c.out[..|b.out|][..|a.out|];
  }

  /** An expression without `set` and without `puts` anywhere in it. */
  predicate Quiet(e: Expr)
    decreases e
  {
    e.kind != Set && e.kind != Puts && forall k :: 0 <= k < |e.kids| ==> Quiet(e.kids[k])
  }

  /** A quiet expression leaves the variables and the output exactly as they were. */
  lemma {:induction false} QuietLeavesStateAlone(e: Expr, st: State)
    requires Quiet(e) && Eval(e, st).Success?
    ensures Eval(e, st).value.1 == st
    decreases e
  {
    QuietChildrenLeaveStateAlone(e.kids, st);
  }

  lemma {:induction false} QuietChildrenLeaveStateAlone(es: seq<Expr>, st: State)
    requires forall k :: 0 <= k < |es| ==> Quiet(es[k])
    requires EvalAll(es, st).Success?
    ensures EvalAll(es, st).value.1 == st
    decreases es
  {
    if |es| > 0 {
      QuietLeavesStateAlone(es[0], st);
      QuietChildrenLeaveStateAlone(es[1..], st);
    }
  }

  /** `set` then a lookup: the name yields the value of the right-hand side, whatever it was
      bound to before; a failing right-hand side makes the `set` fail the same way. */
  lemma {:induction false} SetThenLookup(name: string, rhs: Expr, st: State)
    ensures var setting := Eval(Binary(Set, Leaf(Identifier(name)), rhs), st);
      (setting.Success? <==> Eval(rhs, st).Success?)
      && (setting.Failure? ==> setting.error == Eval(rhs, st).error)
      && (setting.Success? ==>
            setting.value.0 == Some(NullV)
            && Eval(Leaf(Identifier(name)), setting.value.1)
               == Success((Eval(rhs, st).value.0, setting.value.1)))
  {
    var setting := Eval(Binary(Set, Leaf(Identifier(name)), rhs), st);
    EvalSetNode(name, rhs, st);
    if setting.Success? {
      EvalIdentifierLeaf(name, setting.value.1);
    }
  }

  /** How a `set` node whose target is an identifier evaluates. */
  lemma {:induction false} EvalSetNode(name: string, rhs: Expr, st: State)
    ensures Eval(Binary(Set, Leaf(Identifier(name)), rhs), st) ==
      match Eval(rhs, st)
      case Failure(err) => Failure(err)
      case Success(res) => Success((Some(NullV), State(Bind(res.1.env, name, res.0), res.1.out)))
  {
    assert Binary(Set, Leaf(Identifier(name)), rhs).kids == [Leaf(Identifier(name)), rhs];
  }

  /** A node other than `set` is its operator applied to its evaluated children. */
  lemma {:induction false} EvalOfNode(e: Expr, st: State)
    requires e.kind != Set && EvalAll(e.kids, st).Success?
    ensures Eval(e, st) == Apply(e.kind, EvalAll(e.kids, st).value.0, EvalAll(e.kids, st).value.1)
  {
  }

  lemma {:induction false} EvalAllOfNone(st: State)
    ensures EvalAll([], st) == Success(([], st))
  {
  }

  /** The children `[a] + rest`, evaluated: `a` first, then the rest in the state it leaves. */
  lemma {:induction false} EvalAllOfCons(a: Expr, rest: seq<Expr>, st: State)
    requires Eval(a, st).Success? && EvalAll(rest, Eval(a, st).value.1).Success?
    ensures EvalAll([a] + rest, st) == Success(([Eval(a, st).value.0] + EvalAll(rest, Eval(a, st).value.1).value.0,
                                                EvalAll(rest, Eval(a, st).value.1).value.1))
  {
    assert ([a] + rest)[0] == a && ([a] + rest)[1..] == rest;
  }

  /** A name nobody bound evaluates to the null slot, and the first use of that slot by an
      operator fails. */
  lemma {:induction false} UnboundNameIsNull(name: string, st: State)
    requires name !in st.env
    ensures Eval(Leaf(Identifier(name)), st) == Success((None, st))
    ensures Eval(Unary(Puts, Leaf(Identifier(name))), st) == Failure(NullValue)
  {
    var x := Leaf(Identifier(name));
    EvalAllOfNone(st);
    EvalOfNode(x, st);
    EvalAllOfCons(x, [], st);
    assert [x] + [] == [x];
    EvalOfNode(Unary(Puts, x), st);
  }

  /** The tree constructors and the evaluator agree on arity: a node of a fixed-arity kind
      with as many operands as its constructor gives it never fails the evaluator's
      operand-count check. */
  lemma {:induction false} ConstructorArityMeetsEvaluator(k: Kind, vals: seq<Slot>, st: State)
    requires k != Set && ConstructorArity(k).Some? && |vals| == ConstructorArity(k).value
    ensures !(Apply(k, vals, st).Failure? && Apply(k, vals, st).error.WrongArity?)
  {
  }

  /** `Interpreter::interpret`: evaluate the tree in a fresh context and return everything it
      printed. Building the tree from the text is not part of this model. */
  function Interpret(root: Expr): (r: Result<string, EvalError>)
    ensures r.Success? <==> Eval(root, State(map[], [])).Success?
  {
    match Eval(root, State(map[], []))
    case Failure(e) => Failure(e)
    case Success(res) => Success(Render(res.1.out))
  }

  /** `Interpreter::repl_iteration`: evaluate in the session's context, hand back what the
      buffer holds, and clear the buffer; the variables carry over to the next iteration. */
  function ReplIteration(root: Expr, st: State): (r: Result<(string, State), EvalError>)
    ensures r.Success? <==> Eval(root, st).Success?
    ensures r.Success? ==> r.value.1.out == Cleared && st.env.Keys <= r.value.1.env.Keys
  {
    match Eval(root, st)
    case Failure(e) => Failure(e)
    case Success(res) =>
      Success((Render(res.1.out), State(res.1.env, Cleared)))
  }

  /** The first iteration of a session, with no variables and an empty buffer, succeeds
      exactly when `interpret` does and prints what `interpret` returns. */
  lemma {:induction false} FirstIterationIsInterpret(root: Expr)
    ensures ReplIteration(root, State(map[], [])).Success? <==> Interpret(root).Success?
    ensures Interpret(root).Success? ==> ReplIteration(root, State(map[], [])).value.0 == Interpret(root).value
  {
  }

  /** The program `(set x "hi") (puts (concat x "!"))`, as the tree a two-expression
      program reduces to: a placeholder whose children are the expressions in order. */
  const SetX: Expr := Node(Set, [Node(Identifier("x"), []), Node(StringLit("hi"), [])])
  const Exclaim: Expr := Node(Concat, [Node(Identifier("x"), []), Node(StringLit("!"), [])])
  const Greeting: Expr := Node(ParseTemp, [SetX, Node(Puts, [Exclaim])])

  /** The state after the `set`. */
  const Bound: State := State(map["x" := Some(StrV("hi"))], [])

  lemma {:induction false} SetXBinds()
    ensures Eval(SetX, State(map[], [])) == Success((Some(NullV), Bound))
  {
    var st0 := State(map[], []);
    EvalStringLeaf("hi", st0);
  }

  lemma {:induction false} ApplyConcat(a: string, b: string, st: State)
    ensures Apply(Concat, [Some(StrV(a)), Some(StrV(b))], st) == Success((Some(StrV(a + b)), st))
  {
    assert AllStrings([Some(StrV(a)), Some(StrV(b))]);
  }

  /** `concat` of two children that evaluate to strings without touching the state. */
  lemma {:induction false} EvalConcat(x: Expr, y: Expr, st: State, a: string, b: string)
    requires Eval(x, st) == Success((Some(StrV(a)), st)) && Eval(y, st) == Success((Some(StrV(b)), st))
    ensures Eval(Node(Concat, [x, y]), st) == Success((Some(StrV(a + b)), st))
  {
    EvalAllOfNone(st);
    EvalAllOfCons(y, [], st);
    assert [y] + [] == [y];
    EvalAllOfCons(x, [y], st);
    assert [x] + [y] == [x, y];
    EvalOfNode(Node(Concat, [x, y]), st);
    ApplyConcat(a, b, st);
  }

  /** `puts` of a child that evaluates to a string without touching the state. */
  lemma {:induction false} EvalPuts(x: Expr, st: State, a: string)
    requires Eval(x, st) == Success((Some(StrV(a)), st))
    ensures Eval(Node(Puts, [x]), st) == Success((Some(NullV), State(st.env, st.out + [a + "\n"])))
  {
    EvalAllOfNone(st);
    EvalAllOfCons(x, [], st);
    assert [x] + [] == [x];
    EvalOfNode(Node(Puts, [x]), st);
  }

  /** An identifier leaf looks its name up and changes nothing. */
  lemma {:induction false} EvalIdentifierLeaf(name: string, st: State)
    ensures Eval(Node(Identifier(name), []), st) == Success((Lookup(st.env, name), st))
  {
    EvalAllOfNone(st);
    EvalOfNode(Node(Identifier(name), []), st);
  }

  /** A string literal leaf is its string and changes nothing. */
  lemma {:induction false} EvalStringLeaf(text: string, st: State)
    ensures Eval(Node(StringLit(text), []), st) == Success((Some(StrV(text)), st))
  {
    EvalAllOfNone(st);
    EvalOfNode(Node(StringLit(text), []), st);
  }

  lemma {:induction false} ExclaimConcatenates()
    ensures Eval(Exclaim, Bound) == Success((Some(StrV("hi!")), Bound))
  {
    EvalIdentifierLeaf("x", Bound);
    assert Lookup(Bound.env, "x") == Some(StrV("hi"));
    EvalStringLeaf("!", Bound);
    EvalConcat(Node(Identifier("x"), []), Node(StringLit("!"), []), Bound, "hi", "!");
    assert "hi" + "!" == "hi!";
  }

  /** A placeholder with two children runs them in order and yields null. */
  /** A placeholder node with any children runs them in order and yields null. */
  lemma {:induction false} EvalPlaceholder(es: seq<Expr>, st: State)
    requires EvalAll(es, st).Success?
    ensures Eval(Node(ParseTemp, es), st) == Success((Some(NullV), EvalAll(es, st).value.1))
  {
    EvalOfNode(Node(ParseTemp, es), st);
  }

  lemma {:induction false} EvalSequence(a: Expr, b: Expr, st: State)
    requires Eval(a, st).Success? && Eval(b, Eval(a, st).value.1).Success?
    ensures Eval(Node(ParseTemp, [a, b]), st) == Success((Some(NullV), Eval(b, Eval(a, st).value.1).value.1))
  {
    var mid := Eval(a, st).value.1;
    EvalAllOfNone(Eval(b, mid).value.1);
    EvalAllOfCons(b, [], mid);
    assert [b] + [] == [b];
    EvalAllOfCons(a, [b], st);
    assert [a] + [b] == [a, b];
    EvalOfNode(Node(ParseTemp, [a, b]), st);
  }

  /** The state after the `puts`. */
  const Printed: State := State(Bound.env, ["hi!\n"])

  lemma {:induction false} PutsPrints()
    ensures Eval(Node(Puts, [Exclaim]), Bound) == Success((Some(NullV), Printed))
  {
    var e := Exclaim;
    ExclaimConcatenates();
    EvalPuts(e, Bound, "hi!");
    assert "hi!" + "\n" == "hi!\n";
    assert Bound.out + ["hi!\n"] == Printed.out;
  }

  lemma {:induction false} GreetingPrints()
    ensures Interpret(Greeting) == Success("hi!\n")
  {
    SetXBinds();
    PutsPrints();
    EvalSequence(SetX, Node(Puts, [Exclaim]), State(map[], []));
    assert Render(Printed.out) == "hi!\n" by {
      assert Printed.out[..0] == [];
    }
  }
}
