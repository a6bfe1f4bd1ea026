/** Tokens: a category tag drawn from a fixed eleven-entry name table, a payload
    whose kind depends on the category, and a source position. */
module Tokens {
  import opened Wrappers
  import Text

  /** Token categories, declared in the order of their index in the name table. */
  datatype Category =
    | Keyword | Identifier | StringLit | Delimiter | ErrorCat
    | IntLit | FloatLit | BoolLit | NullLit | Space | EOF

  /** The index-to-name table every token's `get_type` reads. */
  const TokenNames: seq<string> := [
    "KeywordToken", "IdentifierToken", "StringLitToken",
    "DelimiterToken", "ErrorToken", "IntLitToken",
    "FloatLitToken", "BoolLitToken", "NullLitToken",
    "SpaceToken", "EOFToken"
  ]

  /** The template index each category alias is instantiated with. */
  function Index(c: Category): (i: nat)
    ensures i < |TokenNames|
  {
    match c
    case Keyword => 0
    case Identifier => 1
    case StringLit => 2
    case Delimiter => 3
    case ErrorCat => 4
    case IntLit => 5
    case FloatLit => 6
    case BoolLit => 7
    case NullLit => 8
    case Space => 9
    case EOF => 10
  }

  /** `get_type`: the table entry at the category's index. */
  function TypeName(c: Category): string {
    TokenNames[Index(c)]
  }

  /** The category whose type name is `name`, if any. */
  function CategoryOfName(name: string): (r: Option<Category>)
    ensures r.Some? ==> TypeName(r.value) == name
  {
    if name == "KeywordToken" then Some(Keyword)
    else if name == "IdentifierToken" then Some(Identifier)
    else if name == "StringLitToken" then Some(StringLit)
    else if name == "DelimiterToken" then Some(Delimiter)
    else if name == "ErrorToken" then Some(ErrorCat)
    else if name == "IntLitToken" then Some(IntLit)
    else if name == "FloatLitToken" then Some(FloatLit)
    else if name == "BoolLitToken" then Some(BoolLit)
    else if name == "NullLitToken" then Some(NullLit)
    else if name == "SpaceToken" then Some(Space)
    else if name == "EOFToken" then Some(EOF)
    else None
  }

  /** The table has eleven entries and the categories occupy them one-to-one. */
  lemma NameTableIsBijective()
    ensures |TokenNames| == 11
    ensures forall c: Category :: CategoryOfName(TypeName(c)) == Some(c)
    ensures forall i :: 0 <= i < |TokenNames| ==>
      CategoryOfName(TokenNames[i]).Some? && Index(CategoryOfName(TokenNames[i]).value) == i
  {
  }

  /** Two categories with the same type name are the same category. */
  lemma TypeNameInjective(c: Category, d: Category)
    requires TypeName(c) == TypeName(d)
    ensures c == d
  {
    NameTableIsBijective();
    assert CategoryOfName(TypeName(c)) == Some(c);
  }

  datatype Payload = Text(s: string) | Int(i: int) | Float(x: real) | Bool(b: bool) | NoPayload

  /** A token; `GenericToken<T, k>` and `EmptyToken<k>` become one datatype whose
      payload shape is fixed by the category (see `WellFormed`). */
  datatype Token = Token(category: Category, payload: Payload, position: int)

  /** The payload shape each category alias declares. */
  predicate WellFormed(t: Token) {
    match t.category
    case Keyword | Identifier | StringLit | Delimiter | ErrorCat => t.payload.Text?
    case IntLit => t.payload.Int?
    case FloatLit => t.payload.Float?
    case BoolLit => t.payload.Bool?
    case NullLit | Space | EOF => t.payload.NoPayload?
  }

  function GetType(t: Token): string { TypeName(t.category) }
  function GetValue(t: Token): Payload { t.payload }
  function GetPosition(t: Token): int { t.position }

  /** The text `to_string` puts between the first pair of parentheses. */
  function PayloadText(p: Payload): string
    requires !p.Float?
  {
    match p
    case Text(s) => s
    case Int(i) => Text.IntToString(i)
    case Bool(b) => if b then "true" else "false"
    case NoPayload => ""
  }

  /** `to_string`: `Name(payload)(position)`. */
  function ToString(t: Token): (r: string)
    requires !t.payload.Float?
    ensures |GetType(t)| < |r| && r[..|GetType(t)|] == GetType(t) && r[|GetType(t)|] == '('
    ensures r[|r| - 1] == ')'
  {
    GetType(t) + "(" + PayloadText(t.payload) + ")(" + Text.IntToString(t.position) + ")"
  }

  predicate NoParen(s: string) {
    forall i :: 0 <= i < |s| ==> s[i] != '(' && s[i] != ')'
  }

  lemma IntToStringNoParen(i: int)
    ensures NoParen(Text.IntToString(i))
  {
    var s := Text.IntToString(i);
    if i < 0 {
      assert s == "-" + Text.NatToString(-i);
      assert Text.AllDigits(Text.NatToString(-i));
      forall k | 0 <= k < |s| ensures s[k] != '(' && s[k] != ')' {
        if k > 0 { assert s[k] == Text.NatToString(-i)[k - 1]; }
      }
    }
  }

  /** Index of the last `(` in `r`, or -1. */
  function LastOpen(r: string): int {
    if |r| == 0 then -1
    else if r[|r| - 1] == '(' then |r| - 1
    else LastOpen(r[..|r| - 1])
  }

  lemma {:induction false} LastOpenAt(r: string, k: nat)
    requires k < |r| && r[k] == '('
    requires forall j :: k < j < |r| ==> r[j] != '('
    ensures LastOpen(r) == k
    decreases |r|
  {
    if k < |r| - 1 {
      LastOpenAt(r[..|r| - 1], k);
    }
  }

  lemma LastOpenBeforeSuffix(pre: string, q: string)
    requires |pre| > 0 && pre[|pre| - 1] == '(' && NoParen(q)
    ensures LastOpen(pre + q + ")") == |pre| - 1
  {
    var r := pre + q + ")";
    var k := |pre| - 1;
    assert r[k] == '(';
    forall j | k < j < |r| ensures r[j] != '(' {
      if j < |r| - 1 { assert r[j] == q[j - |pre|]; }
    }
    LastOpenAt(r, k);
  }

  /** The last `(` of a rendering opens its position text. */
  lemma LastOpenOfRendering(name: string, p: string, q: string)
    requires NoParen(q)
    ensures LastOpen(name + "(" + p + ")(" + q + ")") == |name| + |p| + 2
  {
    var head := name + "(" + p;
    var pre := head + ")(";
    assert pre[|pre| - 1] == '(';
    LastOpenBeforeSuffix(pre, q);
  }

  /** Splitting `prefix + "(" + p + ")(" + q + ")"` at the last `(` recovers `p` and `q`
      when `q` holds no parentheses. */
  lemma SplitRendering(name: string, p1: string, q1: string, p2: string, q2: string)
    requires NoParen(q1) && NoParen(q2)
    requires name + "(" + p1 + ")(" + q1 + ")" == name + "(" + p2 + ")(" + q2 + ")"
    ensures p1 == p2 && q1 == q2
  {
    var r := name + "(" + p1 + ")(" + q1 + ")";
    LastOpenOfRendering(name, p1, q1);
    LastOpenOfRendering(name, p2, q2);
    assert |p1| == |p2|;
    var base := |name| + 1;
    forall k | 0 <= k < |p1| ensures p1[k] == p2[k] {
      assert r[base + k] == p1[k];
      assert (name + "(" + p2 + ")(" + q2 + ")")[base + k] == p2[k];
    }
    forall k | 0 <= k < |q1| ensures q1[k] == q2[k] {
      assert r[base + |p1| + 2 + k] == q1[k];
      assert (name + "(" + p2 + ")(" + q2 + ")")[base + |p1| + 2 + k] == q2[k];
    }
  }

  /** Within one category, the rendering determines the payload text and the position:
      two tokens that print alike carry the same text and sit at the same place. */
  lemma ToStringDeterminesToken(t1: Token, t2: Token)
    requires !t1.payload.Float? && !t2.payload.Float?
    requires t1.category == t2.category
    requires ToString(t1) == ToString(t2)
    ensures PayloadText(t1.payload) == PayloadText(t2.payload)
    ensures t1.position == t2.position
  {
    IntToStringNoParen(t1.position);
    IntToStringNoParen(t2.position);
    SplitRendering(GetType(t1), PayloadText(t1.payload), Text.IntToString(t1.position),
                   PayloadText(t2.payload), Text.IntToString(t2.position));
    Text.IntToStringInjective(t1.position, t2.position);
  }

  /** Why a `TokenCreator` overload refused its arguments: the category name does not
      take a payload of that type. */
  datatype CreateError = WrongCategory(name: string)

  /** The `int` overload: only `IntLitToken`. */
  function CreateInt(name: string, data: int, pos: int): (r: Result<Token, CreateError>)
    ensures r.Success? <==> CategoryOfName(name) == Some(IntLit)
    ensures r.Success? ==>
      WellFormed(r.value) && GetType(r.value) == name && GetValue(r.value) == Int(data) && GetPosition(r.value) == pos
  {
    if name == "IntLitToken" then Success(Token(IntLit, Int(data), pos))
    else Failure(WrongCategory(name))
  }

  /** The `float` overload: only `FloatLitToken`. */
  function CreateFloat(name: string, data: real, pos: int): (r: Result<Token, CreateError>)
    ensures r.Success? <==> CategoryOfName(name) == Some(FloatLit)
    ensures r.Success? ==>
      WellFormed(r.value) && GetType(r.value) == name && GetValue(r.value) == Float(data) && GetPosition(r.value) == pos
  {
    if name == "FloatLitToken" then Success(Token(FloatLit, Float(data), pos))
    else Failure(WrongCategory(name))
  }

  /** The categories the `std::string` overload accepts. */
  predicate TakesText(c: Category) {
    c in {StringLit, Delimiter, Keyword, Identifier, ErrorCat}
  }

  /** The `std::string` overload: string literals, delimiters, keywords, identifiers
      and error tokens. */
  function CreateText(name: string, data: string, pos: int): (r: Result<Token, CreateError>)
    ensures r.Success? <==> CategoryOfName(name).Some? && TakesText(CategoryOfName(name).value)
    ensures r.Success? ==>
      WellFormed(r.value) && GetType(r.value) == name && GetValue(r.value) == Text(data) && GetPosition(r.value) == pos
  {
    if name == "StringLitToken" then Success(Token(StringLit, Text(data), pos))
    else if name == "DelimiterToken" then Success(Token(Delimiter, Text(data), pos))
    else if name == "KeywordToken" then Success(Token(Keyword, Text(data), pos))
    else if name == "IdentifierToken" then Success(Token(Identifier, Text(data), pos))
    else if name == "ErrorToken" then Success(Token(ErrorCat, Text(data), pos))
    else Failure(WrongCategory(name))
  }

  /** The `bool` overload: only `BoolLitToken`. */
  function CreateBool(name: string, data: bool, pos: int): (r: Result<Token, CreateError>)
    ensures r.Success? <==> CategoryOfName(name) == Some(BoolLit)
    ensures r.Success? ==>
      WellFormed(r.value) && GetType(r.value) == name && GetValue(r.value) == Bool(data) && GetPosition(r.value) == pos
  {
    if name == "BoolLitToken" then Success(Token(BoolLit, Bool(data), pos))
    else Failure(WrongCategory(name))
  }

  /** The categories the payload-less overload accepts. */
  predicate TakesNothing(c: Category) {
    c in {NullLit, Space, EOF}
  }

  /** The payload-less overload: null literals, spaces and end of input. */
  function CreateEmpty(name: string, pos: int): (r: Result<Token, CreateError>)
    ensures r.Success? <==> CategoryOfName(name).Some? && TakesNothing(CategoryOfName(name).value)
    ensures r.Success? ==>
      WellFormed(r.value) && GetType(r.value) == name && GetValue(r.value) == NoPayload && GetPosition(r.value) == pos
  {
    if name == "NullLitToken" then Success(Token(NullLit, NoPayload, pos))
    else if name == "SpaceToken" then Success(Token(Space, NoPayload, pos))
    else if name == "EOFToken" then Success(Token(EOF, NoPayload, pos))
    else Failure(WrongCategory(name))
  }
}
