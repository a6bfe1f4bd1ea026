/** Abstract syntax tree nodes. Every node is a kind together with its children, kept in
    the order they were pushed; literal and identifier kinds carry their stored value. */
module Ast {
  import opened Wrappers

  datatype Kind =
    | Set | Puts | ToStr
    | Add | Subtract | Multiply | Divide
    | Gt | Lt | Equal | NotEqual
    | Min | Max | Abs
    | Concat | Replace | Substring | Lowercase | Uppercase
    | IntLit(i: int) | FloatLit(x: real) | StringLit(s: string) | BoolLit(b: bool) | NullLit
    | Identifier(name: string)
    | ErrorNode
    | ParseTemp

  datatype Expr = Node(kind: Kind, kids: seq<Expr>)

  /** A node of the given kind with no children yet; for the literal kinds, `NullLiteral`
      and `ParseTempExpr` this is the whole node. */
  function Leaf(k: Kind): (e: Expr)
    ensures e.kind == k && e.kids == []
    ensures IsLeafKind(k) ==> WellShaped(e)
  {
    Node(k, [])
  }

  /** `Expr::push_back`: the new child goes last; the kind and earlier children stay. */
  function PushBack(e: Expr, child: Expr): (r: Expr)
    ensures r.kind == e.kind
    ensures |r.kids| == |e.kids| + 1
    ensures r.kids[..|e.kids|] == e.kids && r.kids[|e.kids|] == child
  {
    Node(e.kind, e.kids + [child])
  }

  /** `push_back` of each element of `xs`, in order. */
  function PushAll(e: Expr, xs: seq<Expr>): (r: Expr)
    ensures r.kind == e.kind
    decreases |xs|
  {
    if |xs| == 0 then e else PushAll(PushBack(e, xs[0]), xs[1..])
  }

  /** Pushing a list one by one appends the whole list. */
  lemma {:induction false} PushAllAppends(e: Expr, xs: seq<Expr>)
    ensures PushAll(e, xs).kids == e.kids + xs
    decreases |xs|
  {
    if |xs| > 0 {
      PushAllAppends(PushBack(e, xs[0]), xs[1..]);
      assert (e.kids + [xs[0]]) + xs[1..] == e.kids + xs;
    }
  }

  /** The one-child constructors: `Puts`, `Abs`, `Lowercase`, `Uppercase`, `Identifier`. */
  function Unary(k: Kind, target: Expr): (e: Expr)
    requires IsUnaryKind(k)
    ensures e == Node(k, [target]) && WellShaped(e)
  {
    PushBack(Leaf(k), target)
  }

  /** The two-child constructors, left child first. */
  function Binary(k: Kind, lhs: Expr, rhs: Expr): (e: Expr)
    requires IsBinaryKind(k)
    ensures e == Node(k, [lhs, rhs]) && WellShaped(e)
  {
    PushBack(PushBack(Leaf(k), lhs), rhs)
  }

  /** `Replacement(source, target, replacement)` and `Substring(source, l, r)`. */
  function Ternary(k: Kind, a: Expr, b: Expr, c: Expr): (e: Expr)
    requires IsTernaryKind(k)
    ensures e == Node(k, [a, b, c]) && WellShaped(e)
  {
    PushBack(PushBack(PushBack(Leaf(k), a), b), c)
  }

  /** The variadic constructors: every operand, in the given order. */
  function Addition(operands: seq<Expr>): (e: Expr)
    ensures e == Node(Add, operands) && WellShaped(e)
  {
    PushAllAppends(Leaf(Add), operands);
    PushAll(Leaf(Add), operands)
  }

  function Multiplication(operands: seq<Expr>): (e: Expr)
    ensures e == Node(Multiply, operands) && WellShaped(e)
  {
    PushAllAppends(Leaf(Multiply), operands);
    PushAll(Leaf(Multiply), operands)
  }

  /** The node kinds built from exactly one child. */
  predicate IsUnaryKind(k: Kind) {
    k == Puts || k == Abs || k == Lowercase || k == Uppercase || k.Identifier?
  }

  /** The node kinds built from exactly a left and a right child. */
  predicate IsBinaryKind(k: Kind) {
    k == Subtract || k == Divide || k == Gt || k == Lt || k == Equal || k == NotEqual
    || k == Min || k == Set || k == Concat
  }

  /** The node kinds built from exactly three children. */
  predicate IsTernaryKind(k: Kind) {
    k == Replace || k == Substring
  }

  /** The node kinds built with no children at all. */
  predicate IsLeafKind(k: Kind) {
    k.IntLit? || k.FloatLit? || k.StringLit? || k.BoolLit? || k == NullLit || k == ParseTemp
  }

  /** The number of children each constructor gives its node (none for the variadic kinds
      and for the kinds no constructor builds). */
  function ConstructorArity(k: Kind): (n: Option<nat>)
    ensures IsLeafKind(k) <==> n == Some(0)
    ensures IsUnaryKind(k) <==> n == Some(1)
    ensures IsBinaryKind(k) <==> n == Some(2)
    ensures IsTernaryKind(k) <==> n == Some(3)
  {
    if IsLeafKind(k) then Some(0)
    else if IsUnaryKind(k) then Some(1)
    else if IsBinaryKind(k) then Some(2)
    else if IsTernaryKind(k) then Some(3)
    else None
  }

  /** A node has the shape its constructor gives it. */
  predicate WellShaped(e: Expr) {
    match ConstructorArity(e.kind)
    case Some(n) => |e.kids| == n
    case None => e.kind == Add || e.kind == Multiply
  }
}
