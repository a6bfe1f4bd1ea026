/** The operators of `Interpreter::evaluate`, applied to already evaluated operands. Each
    `assert` of the evaluator becomes an error result; every error stands for the point
    where the evaluator stops. */
module Operators {
  import opened Wrappers
  import opened Values
  import opened Ast
  import Text

  datatype EvalError =
    | WrongArity(op: Kind, count: nat)  // an operand-count assertion fails
    | NullValue                         // the null slot of an unbound name is dereferenced
    | WrongType(op: Kind)               // an operand-type assertion fails
    | DivisorTooSmall                   // a divisor of magnitude below 1e-7
    | NotAVariable                      // `set` whose first child is not an identifier
    | ErrorReached                      // an `ErrorExpr` node is evaluated
    | OutOfRange                        // `substr` with a start outside the string
    | NeverEnds                         // `replace` with an empty needle loops forever
    | FloatText                         // `str` of a float, not part of this model

  // ---------------------------------------------------------------------------------
  // Operand checks, in the order the evaluator makes them

  predicate NumericSlot(a: Slot) {
    a.Some? && IsNumeric(a.value)
  }

  predicate AllNumeric(args: seq<Slot>) {
    forall k :: 0 <= k < |args| ==> NumericSlot(args[k])
  }

  predicate IntSlot(a: Slot) {
    a.Some? && a.value.IntV?
  }

  predicate AllInts(args: seq<Slot>) {
    forall k :: 0 <= k < |args| ==> IntSlot(args[k])
  }

  predicate StringSlot(a: Slot) {
    a.Some? && a.value.StrV?
  }

  /** The failure of the first operand from `from` on that is not a number, if any. */
  function NumericFault(op: Kind, args: seq<Slot>, from: nat): (r: Option<EvalError>)
    requires from <= |args|
    ensures r.None? <==> forall k :: from <= k < |args| ==> NumericSlot(args[k])
    ensures r.Some? ==> r.value == NullValue || r.value == WrongType(op)
    decreases |args| - from
  {
    if from == |args| then None
    else if args[from].None? then Some(NullValue)
    else if !IsNumeric(args[from].value) then Some(WrongType(op))
    else NumericFault(op, args, from + 1)
  }

  /** The failure a single operand of the wrong kind causes. */
  function SlotFault(op: Kind, a: Slot): EvalError {
    if a.None? then NullValue else WrongType(op)
  }

  /** The numbers the operands stand for. */
  function Reals(args: seq<Slot>): (xs: seq<real>)
    requires AllNumeric(args)
    ensures |xs| == |args| && forall k :: 0 <= k < |args| ==> xs[k] == AsReal(args[k].value)
  {
    seq(|args|, k requires 0 <= k < |args| && AllNumeric(args) => AsReal(args[k].value))
  }

  /** The integers the operands hold. */
  function Ints(args: seq<Slot>): (xs: seq<int>)
    requires AllInts(args)
    ensures |xs| == |args| && forall k :: 0 <= k < |args| ==> xs[k] == args[k].value.i
  {
    seq(|args|, k requires 0 <= k < |args| && AllInts(args) => args[k].value.i)
  }

  function SumR(xs: seq<real>): real
    decreases |xs|
  {
    if |xs| == 0 then 0.0 else SumR(xs[..|xs| - 1]) + xs[|xs| - 1]
  }

  function SumI(xs: seq<int>): int
    decreases |xs|
  {
    if |xs| == 0 then 0 else SumI(xs[..|xs| - 1]) + xs[|xs| - 1]
  }

  function ProductR(xs: seq<real>): real
    decreases |xs|
  {
    if |xs| == 0 then 1.0 else ProductR(xs[..|xs| - 1]) * xs[|xs| - 1]
  }

  function ProductI(xs: seq<int>): int
    decreases |xs|
  {
    if |xs| == 0 then 1 else ProductI(xs[..|xs| - 1]) * xs[|xs| - 1]
  }

  /** Integer operands need no promotion: their integer sum and product are the sum and
      product of the numbers they stand for. */
  lemma {:induction false} IntArithmeticIsExact(args: seq<Slot>)
    requires AllInts(args)
    ensures AllNumeric(args)
    ensures SumI(Ints(args)) as real == SumR(Reals(args))
    ensures ProductI(Ints(args)) as real == ProductR(Reals(args))
    decreases |args|
  {
    if |args| > 0 {
      var front := args[..|args| - 1];
      IntArithmeticIsExact(front);
      assert Ints(args)[..|args| - 1] == Ints(front);
      assert Reals(args)[..|args| - 1] == Reals(front);
    }
  }

  /** The result tag the arithmetic operators give: int exactly when every operand is an int. */
  function Tagged(args: seq<Slot>, i: int, x: real): (v: Value)
    ensures AllInts(args) ==> v == IntV(i)
    ensures !AllInts(args) ==> v == FloatV(x)
  {
    if AllInts(args) then IntV(i) else FloatV(x)
  }

  // ---------------------------------------------------------------------------------
  // Arithmetic

  /** `add`: at least one numeric operand; the sum, int-tagged when every operand is an int. */
  function Addition(args: seq<Slot>): (r: Result<Value, EvalError>)
    ensures r.Success? <==> |args| > 0 && AllNumeric(args)
    ensures |args| == 0 ==> r == Failure(WrongArity(Add, 0))
    ensures r.Failure? && r.error.WrongArity? ==> |args| == 0
    ensures r.Success? ==> ((r.value.IntV? <==> AllInts(args)) && IsNumeric(r.value)
      && AsReal(r.value) == SumR(Reals(args)))
  {
    if |args| == 0 then Failure(WrongArity(Add, 0))
    else match NumericFault(Add, args, 0)
      case Some(e) => Failure(e)
      case None =>
        if AllInts(args) then
          IntArithmeticIsExact(args);
          Success(IntV(SumI(Ints(args))))
        else Success(FloatV(SumR(Reals(args))))
  }

  /** `multiply`: at least one numeric operand; the product, int-tagged when every operand
      is an int. */
  function Multiplication(args: seq<Slot>): (r: Result<Value, EvalError>)
    ensures r.Success? <==> |args| > 0 && AllNumeric(args)
    ensures |args| == 0 ==> r == Failure(WrongArity(Multiply, 0))
    ensures r.Failure? && r.error.WrongArity? ==> |args| == 0
    ensures r.Success? ==> ((r.value.IntV? <==> AllInts(args)) && IsNumeric(r.value)
      && AsReal(r.value) == ProductR(Reals(args)))
  {
    if |args| == 0 then Failure(WrongArity(Multiply, 0))
    else match NumericFault(Multiply, args, 0)
      case Some(e) => Failure(e)
      case None =>
        if AllInts(args) then
          IntArithmeticIsExact(args);
          Success(IntV(ProductI(Ints(args))))
        else Success(FloatV(ProductR(Reals(args))))
  }

  /** `subtract`: exactly two numeric operands; the difference, int-tagged when both are ints. */
  function Subtraction(args: seq<Slot>): (r: Result<Value, EvalError>)
    ensures r.Success? <==> |args| == 2 && AllNumeric(args)
    ensures |args| != 2 ==> r == Failure(WrongArity(Subtract, |args|))
    ensures r.Failure? && r.error.WrongArity? ==> |args| != 2
    ensures r.Success? ==> ((r.value.IntV? <==> AllInts(args)) && IsNumeric(r.value)
      && AsReal(r.value) == AsReal(args[0].value) - AsReal(args[1].value))
  {
    if |args| != 2 then Failure(WrongArity(Subtract, |args|))
    else match NumericFault(Subtract, args, 0)
      case Some(e) => Failure(e)
      case None =>
        var a, b := args[0].value, args[1].value;
        Success(Tagged(args, if a.IntV? && b.IntV? then a.i - b.i else 0, AsReal(a) - AsReal(b)))
  }

  /** Integer division truncating toward zero, as the conversion of the float quotient to
      `int` does. */
  function TruncDiv(a: int, b: int): (q: int)
    requires b != 0
    ensures var rem := a - q * b;
      (if rem < 0 then -rem else rem) < (if b < 0 then -b else b)
      && (rem == 0 || (rem < 0 <==> a < 0))
  {
    var m := if a < 0 then -a else a;
    var n := if b < 0 then -b else b;
    var q := m / n;
    assert m == q * n + m % n;
    if (a < 0) == (b < 0) then
      assert a - q * b == (if a < 0 then -(m % n) else m % n);
      q
    else
      assert a - (-q) * b == (if a < 0 then -(m % n) else m % n);
      -q
  }

  /** The smallest divisor magnitude `divide` accepts. */
  const MinDivisor: real := 0.0000001

  /** `divide`: exactly two numeric operands and a divisor of magnitude at least 1e-7; two
      ints give the quotient truncated toward zero, anything else the float quotient. */
  function Division(args: seq<Slot>): (r: Result<Value, EvalError>)
    ensures r.Success? <==>
      |args| == 2 && AllNumeric(args) && !(-MinDivisor < AsReal(args[1].value) < MinDivisor)
    ensures |args| != 2 ==> r == Failure(WrongArity(Divide, |args|))
    ensures r.Failure? && r.error.WrongArity? ==> |args| != 2
    ensures |args| == 2 && AllInts(args) ==> (r.Success? <==> args[1].value.i != 0)
    ensures r.Success? ==> (r.value.IntV? <==> AllInts(args)) && IsNumeric(r.value)
    ensures r.Success? && r.value.FloatV? ==> r.value.x == AsReal(args[0].value) / AsReal(args[1].value)
    ensures r.Success? && r.value.IntV? ==> r.value.i == TruncDiv(args[0].value.i, args[1].value.i)
  {
    if |args| != 2 then Failure(WrongArity(Divide, |args|))
    else match NumericFault(Divide, args, 0)
      case Some(e) => Failure(e)
      case None =>
        var a, b := args[0].value, args[1].value;
        if -MinDivisor < AsReal(b) < MinDivisor then Failure(DivisorTooSmall)
        else Success(Tagged(args, if a.IntV? && b.IntV? then TruncDiv(a.i, b.i) else 0,
                            AsReal(a) / AsReal(b)))
  }

  /** `abs`: exactly one numeric operand; its magnitude, with the operand's tag. */
  function Absolute(args: seq<Slot>): (r: Result<Value, EvalError>)
    ensures r.Success? <==> |args| == 1 && AllNumeric(args)
    ensures |args| != 1 ==> r == Failure(WrongArity(Abs, |args|))
    ensures r.Failure? && r.error.WrongArity? ==> |args| != 1
    ensures r.Success? ==> ((r.value.IntV? <==> args[0].value.IntV?) && IsNumeric(r.value)
      && AsReal(r.value) >= 0.0
      && (AsReal(r.value) == AsReal(args[0].value) || AsReal(r.value) == -AsReal(args[0].value)))
  {
    if |args| != 1 then Failure(WrongArity(Abs, |args|))
    else match NumericFault(Abs, args, 0)
      case Some(e) => Failure(e)
      case None =>
        var a := args[0].value;
        if a.IntV? then Success(IntV(if a.i < 0 then -a.i else a.i))
        else Success(FloatV(if a.x < 0.0 then -a.x else a.x))
  }

  // ---------------------------------------------------------------------------------
  // min and max

  /** The position of the first smallest number. */
  function ArgMin(xs: seq<real>): (k: nat)
    requires |xs| > 0
    ensures k < |xs| && forall j :: 0 <= j < |xs| ==> xs[k] <= xs[j]
    decreases |xs|
  {
    if |xs| == 1 then 0
    else
      var k := ArgMin(xs[..|xs| - 1]);
      assert forall j :: 0 <= j < |xs| - 1 ==> xs[..|xs| - 1][j] == xs[j];
      if xs[|xs| - 1] < xs[k] then |xs| - 1 else k
  }

  /** The position of the first largest number. */
  function ArgMax(xs: seq<real>): (k: nat)
    requires |xs| > 0
    ensures k < |xs| && forall j :: 0 <= j < |xs| ==> xs[j] <= xs[k]
    decreases |xs|
  {
    if |xs| == 1 then 0
    else
      var k := ArgMax(xs[..|xs| - 1]);
      assert forall j :: 0 <= j < |xs| - 1 ==> xs[..|xs| - 1][j] == xs[j];
      if xs[|xs| - 1] > xs[k] then |xs| - 1 else k
  }

  /** The operand at `k`, carrying the tag of the whole operand list. */
  function Pick(args: seq<Slot>, k: nat): (v: Value)
    requires AllNumeric(args) && k < |args|
    ensures (v.IntV? <==> AllInts(args)) && IsNumeric(v) && AsReal(v) == AsReal(args[k].value)
  {
    var a := args[k].value;
    Tagged(args, if a.IntV? then a.i else 0, AsReal(a))
  }

  /** `min`: at least one numeric operand; the smallest of them, int-tagged when every
      operand is an int. */
  function Minimum(args: seq<Slot>): (r: Result<Value, EvalError>)
    ensures r.Success? <==> |args| > 0 && AllNumeric(args)
    ensures |args| == 0 ==> r == Failure(WrongArity(Min, 0))
    ensures r.Failure? && r.error.WrongArity? ==> |args| == 0
    ensures r.Success? ==> (r.value.IntV? <==> AllInts(args)) && IsNumeric(r.value)
    ensures r.Success? ==> forall k :: 0 <= k < |args| ==> AsReal(r.value) <= AsReal(args[k].value)
    ensures r.Success? ==> exists k :: 0 <= k < |args| && AsReal(r.value) == AsReal(args[k].value)
  {
    if |args| == 0 then Failure(WrongArity(Min, 0))
    else match NumericFault(Min, args, 0)
      case Some(e) => Failure(e)
      case None => Success(Pick(args, ArgMin(Reals(args))))
  }

  /** `max`: at least one numeric operand; the largest of them, int-tagged when every
      operand is an int. */
  function Maximum(args: seq<Slot>): (r: Result<Value, EvalError>)
    ensures r.Success? <==> |args| > 0 && AllNumeric(args)
    ensures |args| == 0 ==> r == Failure(WrongArity(Max, 0))
    ensures r.Failure? && r.error.WrongArity? ==> |args| == 0
    ensures r.Success? ==> (r.value.IntV? <==> AllInts(args)) && IsNumeric(r.value)
    ensures r.Success? ==> forall k :: 0 <= k < |args| ==> AsReal(args[k].value) <= AsReal(r.value)
    ensures r.Success? ==> exists k :: 0 <= k < |args| && AsReal(r.value) == AsReal(args[k].value)
  {
    if |args| == 0 then Failure(WrongArity(Max, 0))
    else match NumericFault(Max, args, 0)
      case Some(e) => Failure(e)
      case None => Success(Pick(args, ArgMax(Reals(args))))
  }

  /** The starting value of the running minimum in `min` as written. */
  const MinSeed: int := 2000000000

  /** `min` as written: the running minimum starts at 2e9 instead of at the first operand,
      so the result never exceeds 2e9. */
  function MinimumAsWritten(args: seq<Slot>): (r: Result<Value, EvalError>)
    ensures r.Success? <==> Minimum(args).Success?
    ensures r.Success? ==> (r.value.IntV? <==> AllInts(args)) && IsNumeric(r.value)
    ensures r.Success? ==> AsReal(r.value) <= MinSeed as real
  {
    match Minimum(args)
    case Failure(e) => Failure(e)
    case Success(m) =>
      if AsReal(m) <= MinSeed as real then Success(m) else Success(Tagged(args, MinSeed, MinSeed as real))
  }

  /** `max` as written: the running maximum starts at -2e9, so the result is never below -2e9. */
  function MaximumAsWritten(args: seq<Slot>): (r: Result<Value, EvalError>)
    ensures r.Success? <==> Maximum(args).Success?
    ensures r.Success? ==> (r.value.IntV? <==> AllInts(args)) && IsNumeric(r.value)
    ensures r.Success? ==> AsReal(r.value) >= -MinSeed as real
  {
    match Maximum(args)
    case Failure(e) => Failure(e)
    case Success(m) =>
      if AsReal(m) >= -MinSeed as real then Success(m) else Success(Tagged(args, -MinSeed, -MinSeed as real))
  }

  /** The seed shows through: the minimum of the single int 2100000000 comes out as
      2000000000, although the intended minimum is the operand itself. */
  lemma MinSeedCapsLargeOperands()
    ensures MinimumAsWritten([Some(IntV(2100000000))]) == Success(IntV(2000000000))
    ensures Minimum([Some(IntV(2100000000))]) == Success(IntV(2100000000))
  {
    assert AllInts([Some(IntV(2100000000))]);
    assert Reals([Some(IntV(2100000000))]) == [2100000000 as real];
  }

  /** Likewise, the maximum of the single int -2100000000 comes out as -2000000000. */
  lemma MaxSeedCapsSmallOperands()
    ensures MaximumAsWritten([Some(IntV(-2100000000))]) == Success(IntV(-2000000000))
    ensures Maximum([Some(IntV(-2100000000))]) == Success(IntV(-2100000000))
  {
    assert AllInts([Some(IntV(-2100000000))]);
    assert Reals([Some(IntV(-2100000000))]) == [-2100000000 as real];
  }

  // ---------------------------------------------------------------------------------
  // Comparison and equality

  /** `gt`: exactly two numeric operands; whether the first is the larger. */
  function Greater(args: seq<Slot>): (r: Result<Value, EvalError>)
    ensures r.Success? <==> |args| == 2 && AllNumeric(args)
    ensures |args| != 2 ==> r == Failure(WrongArity(Gt, |args|))
    ensures r.Failure? && r.error.WrongArity? ==> |args| != 2
    ensures r.Success? ==> r.value == BoolV(AsReal(args[0].value) > AsReal(args[1].value))
  {
    if |args| != 2 then Failure(WrongArity(Gt, |args|))
    else match NumericFault(Gt, args, 0)
      case Some(e) => Failure(e)
      case None => Success(BoolV(AsReal(args[0].value) > AsReal(args[1].value)))
  }

  /** `lt`: exactly two numeric operands; whether the first is the smaller. */
  function Less(args: seq<Slot>): (r: Result<Value, EvalError>)
    ensures r.Success? <==> |args| == 2 && AllNumeric(args)
    ensures |args| != 2 ==> r == Failure(WrongArity(Lt, |args|))
    ensures r.Failure? && r.error.WrongArity? ==> |args| != 2
    ensures r.Success? ==> r.value == BoolV(AsReal(args[0].value) < AsReal(args[1].value))
  {
    if |args| != 2 then Failure(WrongArity(Lt, |args|))
    else match NumericFault(Lt, args, 0)
      case Some(e) => Failure(e)
      case None => Success(BoolV(AsReal(args[0].value) < AsReal(args[1].value)))
  }

  /** `gt` with its operands swapped is `lt`. */
  lemma GreaterIsSwappedLess(a: Slot, b: Slot)
    ensures Greater([a, b]).Success? <==> Less([b, a]).Success?
    ensures Greater([a, b]).Success? ==> Greater([a, b]).value == Less([b, a]).value
  {
    assert AllNumeric([a, b]) <==> AllNumeric([b, a]) by {
      assert AllNumeric([a, b]) ==> NumericSlot([a, b][0]) && NumericSlot([a, b][1]);
      assert AllNumeric([b, a]) ==> NumericSlot([b, a][0]) && NumericSlot([b, a][1]);
    }
  }

  /** The comparison `equal` makes: two numbers by value, two non-numbers of one kind by
      content (every null equals every null), anything else unequal. */
  function ValuesEqual(a: Value, b: Value): bool {
    if IsNumeric(a) && IsNumeric(b) then AsReal(a) == AsReal(b)
    else if a.StrV? && b.StrV? then a.s == b.s
    else if a.NullV? && b.NullV? then true
    else if a.BoolV? && b.BoolV? then a.b == b.b
    else false
  }

  /** Away from floats, `equal` is exactly equality of values: an int equals only the same
      int, and values of different kinds are never equal. */
  lemma ValuesEqualIsIdentity(a: Value, b: Value)
    requires !a.FloatV? && !b.FloatV?
    ensures ValuesEqual(a, b) <==> a == b
  {
  }

  /** The comparison is an equivalence: reflexive, symmetric and transitive. */
  lemma ValuesEqualIsEquivalence(a: Value, b: Value, c: Value)
    ensures ValuesEqual(a, a)
    ensures ValuesEqual(a, b) ==> ValuesEqual(b, a)
    ensures ValuesEqual(a, b) && ValuesEqual(b, c) ==> ValuesEqual(a, c)
  {
  }

  /** `equal`: exactly two operands, neither of them null; the comparison above. */
  function Equality(args: seq<Slot>): (r: Result<Value, EvalError>)
    ensures r.Success? <==> |args| == 2 && args[0].Some? && args[1].Some?
    ensures |args| != 2 ==> r == Failure(WrongArity(Equal, |args|))
    ensures r.Failure? && r.error.WrongArity? ==> |args| != 2
    ensures r.Success? ==> r.value.BoolV?
  {
    if |args| != 2 then Failure(WrongArity(Equal, |args|))
    else if args[0].None? || args[1].None? then Failure(NullValue)
    else Success(BoolV(ValuesEqual(args[0].value, args[1].value)))
  }

  /** `not_equal`: the same checks as `equal`, with the answer negated. */
  function Inequality(args: seq<Slot>): (r: Result<Value, EvalError>)
    ensures r.Success? <==> Equality(args).Success?
    ensures r.Success? <==> |args| == 2 && args[0].Some? && args[1].Some?
    ensures |args| != 2 ==> r == Failure(WrongArity(NotEqual, |args|))
    ensures r.Failure? && r.error.WrongArity? ==> |args| != 2
    ensures r.Success? ==> r.value.BoolV? && r.value.b == !Equality(args).value.b
  {
    if |args| != 2 then Failure(WrongArity(NotEqual, |args|))
    else if args[0].None? || args[1].None? then Failure(NullValue)
    else Success(BoolV(!ValuesEqual(args[0].value, args[1].value)))
  }

  /** `not_equal` succeeds exactly when `equal` does, and then gives the opposite answer. */
  lemma InequalityNegatesEquality(args: seq<Slot>)
    ensures Inequality(args).Success? <==> Equality(args).Success?
    ensures Inequality(args).Success? ==> Inequality(args).value.b == !Equality(args).value.b
  {
  }

  /** `equal` does not depend on the order of its operands. */
  lemma EqualityIsSymmetric(a: Slot, b: Slot)
    ensures Equality([a, b]) == Equality([b, a]) || (Equality([a, b]).Failure? && Equality([b, a]).Failure?)
  {
    if a.Some? && b.Some? {
      ValuesEqualIsEquivalence(a.value, b.value, a.value);
    }
  }

  // ---------------------------------------------------------------------------------
  // Strings

  /** The failure of the first operand from `from` on that is not a string, if any. */
  function StringFault(op: Kind, args: seq<Slot>, from: nat): (r: Option<EvalError>)
    requires from <= |args|
    ensures r.None? <==> forall k :: from <= k < |args| ==> StringSlot(args[k])
    ensures r.Some? ==> r.value == NullValue || r.value == WrongType(op)
    decreases |args| - from
  {
    if from == |args| then None
    else if !StringSlot(args[from]) then Some(SlotFault(op, args[from]))
    else StringFault(op, args, from + 1)
  }

  predicate AllStrings(args: seq<Slot>) {
    forall k :: 0 <= k < |args| ==> StringSlot(args[k])
  }

  /** `concat`: exactly two strings; the first followed by the second. */
  function Concatenation(args: seq<Slot>): (r: Result<Value, EvalError>)
    ensures r.Success? <==> |args| == 2 && AllStrings(args)
    ensures |args| != 2 ==> r == Failure(WrongArity(Concat, |args|))
    ensures r.Failure? && r.error.WrongArity? ==> |args| != 2
    ensures r.Success? ==> (r.value.StrV?
      && |r.value.s| == |args[0].value.s| + |args[1].value.s|
      && r.value.s[..|args[0].value.s|] == args[0].value.s
      && r.value.s[|args[0].value.s|..] == args[1].value.s)
  {
    if |args| != 2 then Failure(WrongArity(Concat, |args|))
    else match StringFault(Concat, args, 0)
      case Some(e) => Failure(e)
      case None => Success(StrV(args[0].value.s + args[1].value.s))
  }

  /** Whether `needle` occurs in `s` at position `i`; `substr` cuts short at the end of
      `s`, so a needle running past the end does not occur there. */
  predicate OccursAt(s: string, needle: string, i: nat) {
    i + |needle| <= |s| && s[i..i + |needle|] == needle
  }

  /** The left-to-right replacement of non-overlapping occurrences of a non-empty needle. */
  function ReplaceAll(s: string, needle: string, rep: string): (r: string)
    requires |needle| > 0
    ensures |s| == 0 ==> r == ""
    decreases |s|
  {
    if |s| == 0 then ""
    else if OccursAt(s, needle, 0) then rep + ReplaceAll(s[|needle|..], needle, rep)
    else [s[0]] + ReplaceAll(s[1..], needle, rep)
  }

  /** Occurrences in a suffix are occurrences in the whole string, shifted. */
  lemma OccursInSuffix(s: string, needle: string, i: nat, j: nat)
    requires i <= |s|
    ensures OccursAt(s[i..], needle, j) <==> OccursAt(s, needle, i + j)
  {
    if i + j + |needle| <= |s| {
      assert s[i..][j..j + |needle|] == s[i + j..i + j + |needle|];
    }
  }

  /** One step of the scan at position `i`. */
  lemma ReplaceAllStep(s: string, needle: string, rep: string, i: nat)
    requires |needle| > 0 && i < |s|
    ensures OccursAt(s, needle, i) ==>
      i + |needle| <= |s|
      && ReplaceAll(s[i..], needle, rep) == rep + ReplaceAll(s[i + |needle|..], needle, rep)
    ensures !OccursAt(s, needle, i) ==>
      ReplaceAll(s[i..], needle, rep) == [s[i]] + ReplaceAll(s[i + 1..], needle, rep)
  {
    OccursInSuffix(s, needle, i, 0);
    if OccursAt(s, needle, i) {
      assert s[i..][|needle|..] == s[i + |needle|..];
    } else {
      assert s[i..][1..] == s[i + 1..];
    }
  }

  /** A string without the needle comes back unchanged. */
  lemma {:induction false} ReplaceWithoutNeedleIsIdentity(s: string, needle: string, rep: string)
    requires |needle| > 0 && forall i :: 0 <= i < |s| ==> !OccursAt(s, needle, i)
    ensures ReplaceAll(s, needle, rep) == s
    decreases |s|
  {
    if |s| > 0 {
      forall i | 0 <= i < |s| - 1 ensures !OccursAt(s[1..], needle, i) {
        OccursInSuffix(s, needle, 1, i);
      }
      ReplaceWithoutNeedleIsIdentity(s[1..], needle, rep);
      assert [s[0]] + s[1..] == s;
    }
  }

  /** Replacing a needle by itself changes nothing. */
  lemma {:induction false} ReplaceBySelfIsIdentity(s: string, needle: string)
    requires |needle| > 0
    ensures ReplaceAll(s, needle, needle) == s
    decreases |s|
  {
    if |s| > 0 {
      if OccursAt(s, needle, 0) {
        ReplaceBySelfIsIdentity(s[|needle|..], needle);
        assert needle + s[|needle|..] == s;
      } else {
        ReplaceBySelfIsIdentity(s[1..], needle);
        assert [s[0]] + s[1..] == s;
      }
    }
  }

  /** The loop of `replace`: scan `s` from the left, copying a character at a time or the
      replacement for an occurrence of `needle`. */
  method ReplaceLoop(s: string, needle: string, rep: string) returns (result: string)
    requires |needle| > 0
    ensures result == ReplaceAll(s, needle, rep)
  {
    result := "";
    var i := 0;
    while i < |s|
      invariant 0 <= i <= |s|
      invariant result + ReplaceAll(s[i..], needle, rep) == ReplaceAll(s, needle, rep)
      decreases |s| - i
    {
      ReplaceAllStep(s, needle, rep, i);
      if OccursAt(s, needle, i) {
        result := result + rep;
        i := i + |needle|;
      } else {
        result := result + [s[i]];
        i := i + 1;
      }
    }
    assert s[i..] == [];
  }

  /** `replace`: exactly three strings. An empty needle never advances the scan, so on a
      non-empty string it never finishes; on an empty string the scan does not start. */
  function Replacement(args: seq<Slot>): (r: Result<Value, EvalError>)
    ensures r.Success? ==> |args| == 3 && AllStrings(args) && r.value.StrV?
    ensures |args| != 3 ==> r == Failure(WrongArity(Replace, |args|))
    ensures r.Failure? && r.error.WrongArity? ==> |args| != 3
    ensures |args| == 3 && AllStrings(args) ==>
      var s, needle, rep := args[0].value.s, args[1].value.s, args[2].value.s;
      (|needle| == 0 && |s| > 0 <==> r == Failure(NeverEnds))
      && (|needle| == 0 && |s| == 0 ==> r == Success(StrV("")))
      && (|needle| > 0 ==> r == Success(StrV(ReplaceAll(s, needle, rep))))
  {
    if |args| != 3 then Failure(WrongArity(Replace, |args|))
    else match StringFault(Replace, args, 0)
      case Some(e) => Failure(e)
      case None =>
        var s, needle, rep := args[0].value.s, args[1].value.s, args[2].value.s;
        if |needle| > 0 then Success(StrV(ReplaceAll(s, needle, rep)))
        else if |s| == 0 then Success(StrV(""))
        else Failure(NeverEnds)
  }

  /** `std::string::substr(l, r - l)` with `int` positions: a start outside the string
      throws; a negative count, converted to an unsigned size, takes the rest. */
  function Substr(s: string, l: int, r: int): (res: Option<string>)
    ensures res.None? <==> l < 0 || l > |s|
    ensures 0 <= l <= r <= |s| ==> res == Some(s[l..r])
    ensures 0 <= l <= |s| && r > |s| ==> res == Some(s[l..])
    ensures 0 <= l <= |s| && r < l ==> res == Some(s[l..])
  {
    if l < 0 || l > |s| then None
    else if r < l then Some(s[l..])
    else if r < |s| then Some(s[l..r])
    else
      assert s[l..|s|] == s[l..];
      Some(s[l..])
  }

  /** Adjacent substrings join into the substring spanning both. */
  lemma SubstrSplits(s: string, l: int, m: int, r: int)
    requires 0 <= l <= m <= r <= |s|
    ensures Substr(s, l, m).value + Substr(s, m, r).value == Substr(s, l, r).value
  {
    assert s[l..m] + s[m..r] == s[l..r];
  }

  /** `substring`: a string and two ints; the characters from the first position up to the
      second. */
  function Substring(args: seq<Slot>): (r: Result<Value, EvalError>)
    ensures |args| != 3 ==> r == Failure(WrongArity(Ast.Substring, |args|))
    ensures r.Failure? && r.error.WrongArity? ==> |args| != 3
    ensures r.Success? <==> (|args| == 3 && StringSlot(args[0]) && IntSlot(args[1]) && IntSlot(args[2])
      && 0 <= args[1].value.i <= |args[0].value.s|)
    ensures r.Success? ==> (r.value.StrV?
      && Some(r.value.s) == Substr(args[0].value.s, args[1].value.i, args[2].value.i))
  {
    if |args| != 3 then Failure(WrongArity(Ast.Substring, |args|))
    else if !StringSlot(args[0]) then Failure(SlotFault(Ast.Substring, args[0]))
    else if !IntSlot(args[1]) then Failure(SlotFault(Ast.Substring, args[1]))
    else if !IntSlot(args[2]) then Failure(SlotFault(Ast.Substring, args[2]))
    else match Substr(args[0].value.s, args[1].value.i, args[2].value.i)
      case None => Failure(OutOfRange)
      case Some(t) => Success(StrV(t))
  }

  predicate IsUpper(c: char) {
    'A' <= c <= 'Z'
  }

  predicate IsLower(c: char) {
    'a' <= c <= 'z'
  }

  /** `std::tolower` in the "C" locale: only the ASCII capitals change. */
  function ToLower(c: char): (d: char)
    ensures IsUpper(c) ==> IsLower(d) && d as int == c as int + 32
    ensures !IsUpper(c) ==> d == c
  {
    if IsUpper(c) then (c as int + 32) as char else c
  }

  /** `std::toupper` in the "C" locale: only the ASCII small letters change. */
  function ToUpper(c: char): (d: char)
    ensures IsLower(c) ==> IsUpper(d) && d as int == c as int - 32
    ensures !IsLower(c) ==> d == c
  {
    if IsLower(c) then (c as int - 32) as char else c
  }

  function MapLower(s: string): (t: string)
    ensures |t| == |s| && forall k :: 0 <= k < |s| ==> t[k] == ToLower(s[k])
  {
    seq(|s|, k requires 0 <= k < |s| => ToLower(s[k]))
  }

  function MapUpper(s: string): (t: string)
    ensures |t| == |s| && forall k :: 0 <= k < |s| ==> t[k] == ToUpper(s[k])
  {
    seq(|s|, k requires 0 <= k < |s| => ToUpper(s[k]))
  }

  /** Case mapping forgets the case it replaces: lowering after raising is lowering, raising
      after lowering is raising, and each is idempotent. */
  lemma CaseMappingsAbsorb(s: string)
    ensures MapLower(MapUpper(s)) == MapLower(s)
    ensures MapUpper(MapLower(s)) == MapUpper(s)
    ensures MapLower(MapLower(s)) == MapLower(s)
    ensures MapUpper(MapUpper(s)) == MapUpper(s)
  {
  }

  /** `lowercase`: exactly one string; the same string with capitals lowered. */
  function Lowercasing(args: seq<Slot>): (r: Result<Value, EvalError>)
    ensures r.Success? <==> |args| == 1 && StringSlot(args[0])
    ensures |args| != 1 ==> r == Failure(WrongArity(Lowercase, |args|))
    ensures r.Failure? && r.error.WrongArity? ==> |args| != 1
    ensures r.Success? ==> r.value == StrV(MapLower(args[0].value.s))
  {
    if |args| != 1 then Failure(WrongArity(Lowercase, |args|))
    else if !StringSlot(args[0]) then Failure(SlotFault(Lowercase, args[0]))
    else Success(StrV(MapLower(args[0].value.s)))
  }

  /** `uppercase`: exactly one string; the same string with small letters raised. */
  function Uppercasing(args: seq<Slot>): (r: Result<Value, EvalError>)
    ensures r.Success? <==> |args| == 1 && StringSlot(args[0])
    ensures |args| != 1 ==> r == Failure(WrongArity(Uppercase, |args|))
    ensures r.Failure? && r.error.WrongArity? ==> |args| != 1
    ensures r.Success? ==> r.value == StrV(MapUpper(args[0].value.s))
  {
    if |args| != 1 then Failure(WrongArity(Uppercase, |args|))
    else if !StringSlot(args[0]) then Failure(SlotFault(Uppercase, args[0]))
    else Success(StrV(MapUpper(args[0].value.s)))
  }

  /** `str`: exactly one operand; its text. An int in decimal, a bool as `true`/`false`,
      null as `null`, a string unchanged. */
  function Stringify(args: seq<Slot>): (r: Result<Value, EvalError>)
    ensures |args| != 1 ==> r == Failure(WrongArity(ToStr, |args|))
    ensures r.Failure? && r.error.WrongArity? ==> |args| != 1
    ensures r.Success? <==> |args| == 1 && args[0].Some? && !args[0].value.FloatV?
    ensures r.Success? ==> r.value.StrV?
    ensures r.Success? && args[0].value.StrV? ==> r.value == args[0].value
    ensures r.Success? && args[0].value.NullV? ==> r.value.s == "null"
    ensures r.Success? && args[0].value.BoolV? ==> r.value.s == (if args[0].value.b then "true" else "false")
    ensures r.Success? && args[0].value.IntV? ==> Text.ParseInt(r.value.s) == Some(args[0].value.i)
  {
    if |args| != 1 then Failure(WrongArity(ToStr, |args|))
    else match args[0]
      case None => Failure(NullValue)
      case Some(v) =>
        match v
        case IntV(i) => Text.IntRoundTrip(i); Success(StrV(Text.IntToString(i)))
        case FloatV(_) => Failure(FloatText)
        case BoolV(b) => Success(StrV(if b then "true" else "false"))
        case StrV(s) => Success(v)
        case NullV => Success(StrV("null"))
  }

  /** The text `str` gives an int reads back as that int, so distinct ints get distinct texts. */
  lemma StringifyIntRoundTrip(i: int, j: int)
    ensures Stringify([Some(IntV(i))]).Success?
    ensures Text.ParseInt(Stringify([Some(IntV(i))]).value.s) == Some(i)
    ensures i != j ==> Stringify([Some(IntV(i))]) != Stringify([Some(IntV(j))])
  {
    Text.IntRoundTrip(i);
    Text.IntRoundTrip(j);
  }

  /** `puts`: exactly one string operand; the text to print. */
  function PutsText(args: seq<Slot>): (r: Result<string, EvalError>)
    ensures r.Success? <==> |args| == 1 && StringSlot(args[0])
    ensures |args| != 1 ==> r == Failure(WrongArity(Puts, |args|))
    ensures r.Failure? && r.error.WrongArity? ==> |args| != 1
    ensures r.Success? ==> r.value == args[0].value.s
  {
    if |args| != 1 then Failure(WrongArity(Puts, |args|))
    else if !StringSlot(args[0]) then Failure(SlotFault(Puts, args[0]))
    else Success(args[0].value.s)
  }
}
