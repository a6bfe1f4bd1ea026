/** The predictive parser: the grammar's six tables, the mapping from tokens to terminals,
    and the stack machine that recognises a token sequence. */
module Parser {
  import opened Wrappers
  import opened Tokens
  import opened Symbols
  import Text

  // Terminals, named as the tokens they stand for.
  const EOFT: Symbol := Terminal("EOFToken")
  const SpaceT: Symbol := Terminal("SpaceToken")
  const NullT: Symbol := Terminal("NullLitToken")
  const BoolT: Symbol := Terminal("BoolLitToken")
  const FloatT: Symbol := Terminal("FloatLitToken")
  const IntT: Symbol := Terminal("IntLitToken")
  const ErrorT: Symbol := Terminal("ErrorToken")
  const StringT: Symbol := Terminal("StringLitToken")
  const IdentifierT: Symbol := Terminal("IdentifierToken")
  const KeywordT: Symbol := Terminal("KeywordToken")
  /** The two delimiters are told apart by the bracket written after the type name. */
  const OpenT: Symbol := Terminal("DelimiterToken(()")
  const CloseT: Symbol := Terminal("DelimiterToken())")

  // Nonterminals.
  const LiteralN: Symbol := NonTerminal("Literal")
  const ParamsPrimeN: Symbol := NonTerminal("Params'")
  const ParamsN: Symbol := NonTerminal("Params")
  const ProgramPrimeN: Symbol := NonTerminal("Program'")
  const ExprN: Symbol := NonTerminal("Expr")
  const ProgramN: Symbol := NonTerminal("Program")

  /** The lookaheads that can begin an expression, in the order the tables list them. */
  const ExprStarts: seq<Symbol> := [OpenT, NullT, BoolT, FloatT, IntT, StringT, IdentifierT]

  const LiteralRules: seq<(Symbol, Rhs)> := [
    (NullT, [NullT]), (BoolT, [BoolT]), (FloatT, [FloatT]), (IntT, [IntT]), (StringT, [StringT])
  ]

  const ExprRules: seq<(Symbol, Rhs)> := [
    (OpenT, [OpenT, KeywordT, SpaceT, ParamsN]),
    (NullT, [LiteralN]), (BoolT, [LiteralN]), (FloatT, [LiteralN]), (IntT, [LiteralN]),
    (StringT, [LiteralN]), (IdentifierT, [IdentifierT])
  ]

  const ProgramRules: seq<(Symbol, Rhs)> := [
    (OpenT, [ExprN, ProgramPrimeN]), (NullT, [ExprN, ProgramPrimeN]), (BoolT, [ExprN, ProgramPrimeN]),
    (FloatT, [ExprN, ProgramPrimeN]), (IntT, [ExprN, ProgramPrimeN]), (StringT, [ExprN, ProgramPrimeN]),
    (IdentifierT, [ExprN, ProgramPrimeN])
  ]

  const ProgramPrimeRules: seq<(Symbol, Rhs)> := [
    (SpaceT, [SpaceT, ProgramN]), (EOFT, [EOFT])
  ]

  const ParamsRules: seq<(Symbol, Rhs)> := [
    (OpenT, [ExprN, ParamsPrimeN]), (NullT, [ExprN, ParamsPrimeN]), (BoolT, [ExprN, ParamsPrimeN]),
    (FloatT, [ExprN, ParamsPrimeN]), (IntT, [ExprN, ParamsPrimeN]), (StringT, [ExprN, ParamsPrimeN]),
    (IdentifierT, [ExprN, ParamsPrimeN])
  ]

  const ParamsPrimeRules: seq<(Symbol, Rhs)> := [
    (SpaceT, [SpaceT, ParamsN]), (CloseT, [CloseT])
  ]

  /** Each nonterminal's table, filled by `add_rules` from an empty table. */
  function Tables(): Grammar {
    map[
      "Literal" := AddRules(map[], LiteralRules),
      "Expr" := AddRules(map[], ExprRules),
      "Program" := AddRules(map[], ProgramRules),
      "Program'" := AddRules(map[], ProgramPrimeRules),
      "Params" := AddRules(map[], ParamsRules),
      "Params'" := AddRules(map[], ParamsPrimeRules)
    ]
  }

  /** The grammar read as productions, written out case by case:
      Program -> Expr Program'; Program' -> Space Program | EOF;
      Expr -> ( Keyword Space Params | Literal | Identifier;
      Params -> Expr Params'; Params' -> Space Params | );
      Literal -> one literal token. */
  function Production(nt: string, look: string): Option<Rhs> {
    var startsExpr := look in {"DelimiterToken(()", "NullLitToken", "BoolLitToken", "FloatLitToken",
                               "IntLitToken", "StringLitToken", "IdentifierToken"};
    var literal := look in {"NullLitToken", "BoolLitToken", "FloatLitToken", "IntLitToken", "StringLitToken"};
    if nt == "Program" then (if startsExpr then Some([ExprN, ProgramPrimeN]) else None)
    else if nt == "Params" then (if startsExpr then Some([ExprN, ParamsPrimeN]) else None)
    else if nt == "Program'" then
      (if look == "SpaceToken" then Some([SpaceT, ProgramN])
       else if look == "EOFToken" then Some([EOFT]) else None)
    else if nt == "Params'" then
      (if look == "SpaceToken" then Some([SpaceT, ParamsN])
       else if look == "DelimiterToken())" then Some([CloseT]) else None)
    else if nt == "Expr" then
      (if look == "DelimiterToken(()" then Some([OpenT, KeywordT, SpaceT, ParamsN])
       else if literal then Some([LiteralN])
       else if look == "IdentifierToken" then Some([IdentifierT]) else None)
    else if nt == "Literal" then (if literal then Some([Terminal(look)]) else None)
    else None
  }

  lemma {:induction false} LiteralTable(look: string)
    ensures look in AddRules(map[], LiteralRules) <==> Production("Literal", look).Some?
    ensures look in AddRules(map[], LiteralRules) ==> AddRules(map[], LiteralRules)[look] == Production("Literal", look).value
  {
    AddRulesLookup(map[], LiteralRules, look);
    if look == NullT.name {
      assert FirstRule(LiteralRules, look) == Some(LiteralRules[0].1);
    } else if look == BoolT.name {
      assert FirstRule(LiteralRules, look) == Some(LiteralRules[1].1);
    } else if look == FloatT.name {
      assert FirstRule(LiteralRules, look) == Some(LiteralRules[2].1);
    } else if look == IntT.name {
      assert FirstRule(LiteralRules, look) == Some(LiteralRules[3].1);
    } else if look == StringT.name {
      assert FirstRule(LiteralRules, look) == Some(LiteralRules[4].1);
    } else {
      assert forall k :: 0 <= k < |LiteralRules| ==> LiteralRules[k].0.name != look;
    }
  }

  lemma {:induction false} ExprTable(look: string)
    ensures look in AddRules(map[], ExprRules) <==> Production("Expr", look).Some?
    ensures look in AddRules(map[], ExprRules) ==> AddRules(map[], ExprRules)[look] == Production("Expr", look).value
  {
    AddRulesLookup(map[], ExprRules, look);
    if look == OpenT.name {
      assert FirstRule(ExprRules, look) == Some(ExprRules[0].1);
    } else if look == NullT.name {
      assert FirstRule(ExprRules, look) == Some(ExprRules[1].1);
    } else if look == BoolT.name {
      assert FirstRule(ExprRules, look) == Some(ExprRules[2].1);
    } else if look == FloatT.name {
      assert FirstRule(ExprRules, look) == Some(ExprRules[3].1);
    } else if look == IntT.name {
      assert FirstRule(ExprRules, look) == Some(ExprRules[4].1);
    } else if look == StringT.name {
      assert FirstRule(ExprRules, look) == Some(ExprRules[5].1);
    } else if look == IdentifierT.name {
      assert FirstRule(ExprRules, look) == Some(ExprRules[6].1);
    } else {
      assert forall k :: 0 <= k < |ExprRules| ==> ExprRules[k].0.name != look;
    }
  }

  lemma {:induction false} ProgramTable(look: string)
    ensures look in AddRules(map[], ProgramRules) <==> Production("Program", look).Some?
    ensures look in AddRules(map[], ProgramRules) ==> AddRules(map[], ProgramRules)[look] == Production("Program", look).value
  {
    AddRulesLookup(map[], ProgramRules, look);
    if look == OpenT.name {
      assert FirstRule(ProgramRules, look) == Some(ProgramRules[0].1);
    } else if look == NullT.name {
      assert FirstRule(ProgramRules, look) == Some(ProgramRules[1].1);
    } else if look == BoolT.name {
      assert FirstRule(ProgramRules, look) == Some(ProgramRules[2].1);
    } else if look == FloatT.name {
      assert FirstRule(ProgramRules, look) == Some(ProgramRules[3].1);
    } else if look == IntT.name {
      assert FirstRule(ProgramRules, look) == Some(ProgramRules[4].1);
    } else if look == StringT.name {
      assert FirstRule(ProgramRules, look) == Some(ProgramRules[5].1);
    } else if look == IdentifierT.name {
      assert FirstRule(ProgramRules, look) == Some(ProgramRules[6].1);
    } else {
      assert forall k :: 0 <= k < |ProgramRules| ==> ProgramRules[k].0.name != look;
    }
  }

  lemma {:induction false} ProgramPrimeTable(look: string)
    ensures look in AddRules(map[], ProgramPrimeRules) <==> Production("Program'", look).Some?
    ensures look in AddRules(map[], ProgramPrimeRules) ==> AddRules(map[], ProgramPrimeRules)[look] == Production("Program'", look).value
  {
    AddRulesLookup(map[], ProgramPrimeRules, look);
    if look == SpaceT.name {
      assert FirstRule(ProgramPrimeRules, look) == Some(ProgramPrimeRules[0].1);
    } else if look == EOFT.name {
      assert FirstRule(ProgramPrimeRules, look) == Some(ProgramPrimeRules[1].1);
    } else {
      assert forall k :: 0 <= k < |ProgramPrimeRules| ==> ProgramPrimeRules[k].0.name != look;
    }
  }

  lemma {:induction false} ParamsTable(look: string)
    ensures look in AddRules(map[], ParamsRules) <==> Production("Params", look).Some?
    ensures look in AddRules(map[], ParamsRules) ==> AddRules(map[], ParamsRules)[look] == Production("Params", look).value
  {
    AddRulesLookup(map[], ParamsRules, look);
    if look == OpenT.name {
      assert FirstRule(ParamsRules, look) == Some(ParamsRules[0].1);
    } else if look == NullT.name {
      assert FirstRule(ParamsRules, look) == Some(ParamsRules[1].1);
    } else if look == BoolT.name {
      assert FirstRule(ParamsRules, look) == Some(ParamsRules[2].1);
    } else if look == FloatT.name {
      assert FirstRule(ParamsRules, look) == Some(ParamsRules[3].1);
    } else if look == IntT.name {
      assert FirstRule(ParamsRules, look) == Some(ParamsRules[4].1);
    } else if look == StringT.name {
      assert FirstRule(ParamsRules, look) == Some(ParamsRules[5].1);
    } else if look == IdentifierT.name {
      assert FirstRule(ParamsRules, look) == Some(ParamsRules[6].1);
    } else {
      assert forall k :: 0 <= k < |ParamsRules| ==> ParamsRules[k].0.name != look;
    }
  }

  lemma {:induction false} ParamsPrimeTable(look: string)
    ensures look in AddRules(map[], ParamsPrimeRules) <==> Production("Params'", look).Some?
    ensures look in AddRules(map[], ParamsPrimeRules) ==> AddRules(map[], ParamsPrimeRules)[look] == Production("Params'", look).value
  {
    AddRulesLookup(map[], ParamsPrimeRules, look);
    if look == SpaceT.name {
      assert FirstRule(ParamsPrimeRules, look) == Some(ParamsPrimeRules[0].1);
    } else if look == CloseT.name {
      assert FirstRule(ParamsPrimeRules, look) == Some(ParamsPrimeRules[1].1);
    } else {
      assert forall k :: 0 <= k < |ParamsPrimeRules| ==> ParamsPrimeRules[k].0.name != look;
    }
  }

  /** The tables built by `add_rules` hold exactly the productions of the grammar. */
  lemma {:induction false} TablesAreProductions(nt: string, look: string)
    ensures (nt in Tables() && look in Tables()[nt]) <==> Production(nt, look).Some?
    ensures nt in Tables() && look in Tables()[nt] ==> Tables()[nt][look] == Production(nt, look).value
  {
    if nt == "Literal" { LiteralTable(look); }
    else if nt == "Expr" { ExprTable(look); }
    else if nt == "Program" { ProgramTable(look); }
    else if nt == "Program'" { ProgramPrimeTable(look); }
    else if nt == "Params" { ParamsTable(look); }
    else if nt == "Params'" { ParamsPrimeTable(look); }
  }

  /** `decompose` on the built tables, via `get_rule`: it succeeds exactly for a
      nonterminal that has a production for the lookahead, and returns that production. */
  lemma DecomposeIsProduction(top: Symbol, look: Symbol)
    ensures Decompose(Tables(), top, look).Success? <==>
      top.NonTerminal? && Production(top.name, look.name).Some?
    ensures Decompose(Tables(), top, look).Success? ==>
      Decompose(Tables(), top, look).value == Production(top.name, look.name).value
  {
    TablesAreProductions(top.name, look.name);
  }

  /** A measure under which every expansion puts a smaller symbol on top of the stack. */
  function Rank(x: Symbol): nat {
    if x.name == "Program" || x.name == "Params" then 3
    else if x.name == "Expr" then 2
    else if x.name == "Literal" || x.name == "Program'" || x.name == "Params'" then 1
    else 0
  }

  /** No production is empty and none is left-recursive: the first symbol of every
      right-hand side ranks below the nonterminal it expands. */
  lemma {:induction false} ExpansionLowersRank(top: Symbol, look: Symbol)
    requires Decompose(Tables(), top, look).Success?
    ensures var rhs := Decompose(Tables(), top, look).value;
      |rhs| > 0 && Rank(rhs[0]) < Rank(top)
  {
    TablesAreProductions(top.name, look.name);
    ProductionLowersRank(top.name, look.name);
  }

  lemma {:induction false} ProductionLowersRank(nt: string, look: string)
    requires Production(nt, look).Some?
    ensures var rhs := Production(nt, look).value;
      |rhs| > 0 && Rank(rhs[0]) < Rank(NonTerminal(nt))
  {
  }

  /** `tokenToParserSymbol` as intended: a delimiter becomes the terminal for its bracket,
      any other token the terminal for its type. */
  function TokenToSymbol(t: Token): (x: Symbol)
    requires WellFormed(t)
    ensures x.Terminal?
    ensures t.category != Delimiter ==> x == FromToken(t)
    ensures t == Token(Delimiter, Text("("), t.position) ==> x == OpenT
    ensures t == Token(Delimiter, Text(")"), t.position) ==> x == CloseT
  {
    if t.category == Delimiter then Terminal(GetType(t) + "(" + t.payload.s + ")") else FromToken(t)
  }

  /** `tokenToParserSymbol` as written: a delimiter becomes a terminal named by the token's
      full rendering, which ends with the position. */
  function TokenToSymbolAsWritten(t: Token): (x: Symbol)
    requires WellFormed(t)
    ensures x.Terminal?
    ensures t.category != Delimiter ==> x == TokenToSymbol(t)
    ensures t.category == Delimiter ==> x.name == TokenToSymbol(t).name + "(" + Text.IntToString(t.position) + ")"
  {
    if t.category == Delimiter then Terminal(ToString(t)) else FromToken(t)
  }

  predicate AllWellFormed(tokens: seq<Token>) {
    forall k :: 0 <= k < |tokens| ==> WellFormed(tokens[k])
  }

  function Lookaheads(tokens: seq<Token>): (r: seq<Symbol>)
    requires AllWellFormed(tokens)
    ensures |r| == |tokens|
    ensures forall k :: 0 <= k < |tokens| ==> r[k] == TokenToSymbol(tokens[k])
  {
    seq(|tokens|, k requires 0 <= k < |tokens| && AllWellFormed(tokens) => TokenToSymbol(tokens[k]))
  }

  function LookaheadsAsWritten(tokens: seq<Token>): (r: seq<Symbol>)
    requires AllWellFormed(tokens)
    ensures |r| == |tokens|
    ensures forall k :: 0 <= k < |tokens| ==> r[k] == TokenToSymbolAsWritten(tokens[k])
  {
    seq(|tokens|, k requires 0 <= k < |tokens| && AllWellFormed(tokens) => TokenToSymbolAsWritten(tokens[k]))
  }

  /** The loop of `parse` from input position `i` with the given stack (top first). A top
      that names the lookahead is popped and the input advances; after the last token the
      stack must be empty. Any other top is expanded by its table. When the stack empties
      first the loop simply ends. The result is the number of tokens consumed. */
  function Run(input: seq<Symbol>, stack: seq<Symbol>, i: nat): (r: Result<nat, ParseError>)
    requires i < |input|
    ensures r.Success? ==> i <= r.value <= |input|
    decreases |input| - i, if stack == [] then 0 else Rank(stack[0])
  {
    if stack == [] then Success(i)
    else if Same(stack[0], input[i]) then
      if i + 1 == |input| then (if |stack| == 1 then Success(i + 1) else Failure(StackNotEmpty))
      else Run(input, stack[1..], i + 1)
    else match Decompose(Tables(), stack[0], input[i])
      case Failure(e) => Failure(e)
      case Success(rhs) =>
        ExpansionLowersRank(stack[0], input[i]);
        Run(input, rhs + stack[1..], i)
  }

  /** `parse` on a list of symbols: nothing to do for an empty list; otherwise the loop
      starts with the start symbol alone on the stack. */
  function ParseSymbols(input: seq<Symbol>): (r: Result<nat, ParseError>)
    ensures |input| == 0 ==> r == Success(0)
    ensures r.Success? ==> r.value <= |input|
  {
    if |input| == 0 then Success(0) else Run(input, [ProgramN], 0)
  }

  /** `parse` with the delimiter mapping as intended. */
  function Parse(tokens: seq<Token>): (r: Result<nat, ParseError>)
    requires AllWellFormed(tokens)
    ensures |tokens| == 0 ==> r == Success(0)
    ensures r.Success? ==> r.value <= |tokens|
  {
    ParseSymbols(Lookaheads(tokens))
  }

  /** `parse` with the delimiter mapping as written. */
  function ParseAsWritten(tokens: seq<Token>): (r: Result<nat, ParseError>)
    requires AllWellFormed(tokens)
    ensures |tokens| == 0 ==> r == Success(0)
    ensures r.Success? ==> r.value <= |tokens|
  {
    ParseSymbols(LookaheadsAsWritten(tokens))
  }

  /** Recursive descent over the same tables: the position after `x` derives a prefix of
      `input[i..]`, choosing each production by the lookahead. */
  function Derive(input: seq<Symbol>, x: Symbol, i: nat): (r: Result<nat, ParseError>)
    requires i < |input|
    ensures r.Success? ==> i < r.value <= |input|
    decreases |input| - i, 2 * Rank(x) + 1
  {
    if Same(x, input[i]) then Success(i + 1)
    else match Decompose(Tables(), x, input[i])
      case Failure(e) => Failure(e)
      case Success(rhs) =>
        ExpansionLowersRank(x, input[i]);
        DeriveSeq(input, rhs, i)
  }

  /** Derive each of `syms` in turn; running out of input with symbols left is the error
      the stack machine reports as a non-empty stack. */
  function DeriveSeq(input: seq<Symbol>, syms: seq<Symbol>, i: nat): (r: Result<nat, ParseError>)
    requires i <= |input|
    ensures r.Success? ==> i <= r.value <= |input|
    ensures r.Success? && syms != [] ==> i < r.value
    decreases |input| - i, if syms == [] then 0 else 2 * Rank(syms[0]) + 2
  {
    if syms == [] then Success(i)
    else if i == |input| then Failure(StackNotEmpty)
    else match Derive(input, syms[0], i)
      case Failure(e) => Failure(e)
      case Success(j) => DeriveSeq(input, syms[1..], j)
  }

  /** What the loop does once the symbols above `rest` are done at position `j`. */
  function Resume(input: seq<Symbol>, rest: seq<Symbol>, j: nat): Result<nat, ParseError>
    requires j <= |input|
  {
    if j == |input| then (if rest == [] then Success(j) else Failure(StackNotEmpty))
    else Run(input, rest, j)
  }

  function Then(input: seq<Symbol>, r: Result<nat, ParseError>, rest: seq<Symbol>): Result<nat, ParseError>
    requires r.Success? ==> r.value <= |input|
  {
    match r
    case Failure(e) => Failure(e)
    case Success(j) => Resume(input, rest, j)
  }

  /** Running the stack machine on `x` above `rest` is deriving `x` and then resuming. */
  lemma {:induction false} RunSymbol(input: seq<Symbol>, x: Symbol, rest: seq<Symbol>, i: nat)
    requires i < |input|
    ensures Run(input, [x] + rest, i) == Then(input, Derive(input, x, i), rest)
    decreases |input| - i, 2 * Rank(x) + 1
  {
    var stack := [x] + rest;
    assert stack[0] == x && stack[1..] == rest;
    if !Same(x, input[i]) {
      var d := Decompose(Tables(), x, input[i]);
      if d.Success? {
        ExpansionLowersRank(x, input[i]);
        RunSymbols(input, d.value, rest, i);
      }
    }
  }

  /** Running the stack machine on `syms` above `rest` is deriving `syms` and then resuming. */
  lemma {:induction false} RunSymbols(input: seq<Symbol>, syms: seq<Symbol>, rest: seq<Symbol>, i: nat)
    requires i < |input|
    ensures Run(input, syms + rest, i) == Then(input, DeriveSeq(input, syms, i), rest)
    decreases |input| - i, if syms == [] then 0 else 2 * Rank(syms[0]) + 2
  {
    if syms == [] {
      assert syms + rest == rest;
    } else {
      var y, ys := syms[0], syms[1..];
      assert syms + rest == [y] + (ys + rest);
      RunSymbol(input, y, ys + rest, i);
      var d := Derive(input, y, i);
      if d.Success? && d.value < |input| {
        RunSymbols(input, ys, rest, d.value);
      }
    }
  }

  /** The table-driven loop and recursive descent from the start symbol agree. */
  lemma {:induction false} ParseIsDescent(input: seq<Symbol>)
    requires |input| > 0
    ensures ParseSymbols(input) == Derive(input, ProgramN, 0)
  {
    RunSymbol(input, ProgramN, [], 0);
    assert [ProgramN] + [] == [ProgramN];
  }

  /** The input holds terminals only: no symbol is named like a nonterminal. */
  predicate TerminalsOnly(input: seq<Symbol>) {
    forall k :: 0 <= k < |input| ==> Rank(input[k]) == 0
  }

  /** Deriving two symbols is deriving the first and then the second. */
  lemma {:induction false} DerivePair(input: seq<Symbol>, a: Symbol, b: Symbol, i: nat)
    requires i < |input| && DeriveSeq(input, [a, b], i).Success?
    ensures Derive(input, a, i).Success?
    ensures var m := Derive(input, a, i).value;
      m < |input| && Derive(input, b, m).Success? && Derive(input, b, m).value == DeriveSeq(input, [a, b], i).value
  {
    assert [a, b][0] == a && [a, b][1..] == [b];
    assert [b][0] == b && [b][1..] == [];
    var m := Derive(input, a, i).value;
    assert DeriveSeq(input, [a, b], i) == DeriveSeq(input, [b], m);
    assert m < |input|;
    assert DeriveSeq(input, [b], m) == DeriveSeq(input, [], Derive(input, b, m).value);
  }

  /** One step of recursive descent, read off the productions instead of the tables. */
  lemma {:induction false} DeriveStep(input: seq<Symbol>, x: Symbol, i: nat)
    requires i < |input| && !Same(x, input[i])
    ensures Derive(input, x, i).Success? ==> x.NonTerminal? && Production(x.name, input[i].name).Some?
    ensures x.NonTerminal? && Production(x.name, input[i].name).Some? ==>
      Derive(input, x, i) == DeriveSeq(input, Production(x.name, input[i].name).value, i)
  {
    TablesAreProductions(x.name, input[i].name);
  }

  /** A program always ends with the end-of-input token. */
  lemma {:induction false} ProgramEndsWithEOF(input: seq<Symbol>, i: nat)
    requires i < |input| && TerminalsOnly(input)
    requires Derive(input, ProgramN, i).Success?
    ensures input[Derive(input, ProgramN, i).value - 1].name == EOFT.name
    decreases |input| - i, 1
  {
    assert Rank(input[i]) == 0;
    DeriveStep(input, ProgramN, i);
    DerivePair(input, ExprN, ProgramPrimeN, i);
    ProgramTailEndsWithEOF(input, Derive(input, ExprN, i).value);
  }

  /** What follows a program's first expression always ends with the end-of-input token. */
  lemma {:induction false} ProgramTailEndsWithEOF(input: seq<Symbol>, i: nat)
    requires i < |input| && TerminalsOnly(input)
    requires Derive(input, ProgramPrimeN, i).Success?
    ensures input[Derive(input, ProgramPrimeN, i).value - 1].name == EOFT.name
    decreases |input| - i, 0
  {
    assert Rank(input[i]) == 0;
    DeriveStep(input, ProgramPrimeN, i);
    if input[i].name == "SpaceToken" {
      DerivePair(input, SpaceT, ProgramN, i);
      ProgramEndsWithEOF(input, i + 1);
    } else {
      assert Derive(input, EOFT, i) == Success(i + 1);
      assert DeriveSeq(input, [EOFT], i) == DeriveSeq(input, [], i + 1);
    }
  }

  /** With the mapping as written, an input starting with an opening bracket is rejected at
      once: the lookahead's name carries the position, so no table has an entry for it. */
  lemma {:induction false} AsWrittenRejectsOpeningBracket(tokens: seq<Token>)
    requires AllWellFormed(tokens) && |tokens| > 0 && tokens[0] == Token(Delimiter, Text("("), tokens[0].position)
    ensures ParseAsWritten(tokens) ==
      Failure(NoRule("Program", "DelimiterToken(()(" + Text.IntToString(tokens[0].position) + ")"))
  {
    var input := LookaheadsAsWritten(tokens);
    var look := input[0];
    assert look.name == "DelimiterToken(()(" + Text.IntToString(tokens[0].position) + ")";
    assert |look.name| > |"DelimiterToken(()"|;
    ProgramTable(look.name);
    assert [ProgramN][0] == ProgramN;
  }

  /** Deriving a sequence of symbols one after the other. */
  lemma {:induction false} DeriveCons(input: seq<Symbol>, syms: seq<Symbol>, i: nat, j: nat)
    requires i < |input| && |syms| > 0 && Derive(input, syms[0], i) == Success(j)
    ensures DeriveSeq(input, syms, i) == DeriveSeq(input, syms[1..], j)
  {
  }

  predicate IsLiteralTerminal(x: Symbol) {
    x in {NullT, BoolT, FloatT, IntT, StringT}
  }

  /** A literal token is an expression on its own. */
  lemma {:induction false} LiteralIsExpression(input: seq<Symbol>, i: nat)
    requires i < |input| && IsLiteralTerminal(input[i])
    ensures Derive(input, ExprN, i) == Success(i + 1)
  {
    DeriveStep(input, LiteralN, i);
    DeriveCons(input, [input[i]], i, i + 1);
    assert Derive(input, LiteralN, i) == Success(i + 1);
    DeriveStep(input, ExprN, i);
    DeriveCons(input, [LiteralN], i, i + 1);
  }

  /** An identifier token is an expression on its own. */
  lemma {:induction false} IdentifierIsExpression(input: seq<Symbol>, i: nat)
    requires i < |input| && input[i] == IdentifierT
    ensures Derive(input, ExprN, i) == Success(i + 1)
  {
    DeriveStep(input, ExprN, i);
    assert Derive(input, IdentifierT, i) == Success(i + 1);
    assert DeriveSeq(input, [IdentifierT], i) == DeriveSeq(input, [], i + 1);
  }

  /** An opening bracket, a keyword, a space and an argument list form an expression. */
  lemma {:induction false} CallIsExpression(input: seq<Symbol>, i: nat, k: nat)
    requires i + 3 < |input| && input[i] == OpenT && input[i + 1] == KeywordT && input[i + 2] == SpaceT
    requires Derive(input, ParamsN, i + 3) == Success(k)
    ensures Derive(input, ExprN, i) == Success(k)
  {
    var rhs := [OpenT, KeywordT, SpaceT, ParamsN];
    DeriveStep(input, ExprN, i);
    DeriveCons(input, rhs, i, i + 1);
    DeriveCons(input, rhs[1..], i + 1, i + 2);
    DeriveCons(input, rhs[2..], i + 2, i + 3);
    DeriveCons(input, rhs[3..], i + 3, k);
    assert rhs[1..][1..] == rhs[2..] && rhs[2..][1..] == rhs[3..] && rhs[3..][1..] == [];
  }

  /** Params -> Expr Params'. */
  lemma {:induction false} ArgumentList(input: seq<Symbol>, i: nat, j: nat, k: nat)
    requires i < |input| && Rank(input[i]) == 0
    requires Derive(input, ExprN, i) == Success(j) && j < |input| && Derive(input, ParamsPrimeN, j) == Success(k)
    ensures Derive(input, ParamsN, i) == Success(k)
  {
    DeriveStep(input, ExprN, i);
    ExpressionStartsProgram(input[i].name);
    DeriveStep(input, ParamsN, i);
    DeriveCons(input, [ExprN, ParamsPrimeN], i, j);
    DeriveCons(input, [ParamsPrimeN], j, k);
  }

  /** Params' -> ) ends an argument list. */
  lemma {:induction false} LastArgument(input: seq<Symbol>, j: nat)
    requires j < |input| && input[j] == CloseT
    ensures Derive(input, ParamsPrimeN, j) == Success(j + 1)
  {
    DeriveStep(input, ParamsPrimeN, j);
    DeriveCons(input, [CloseT], j, j + 1);
  }

  /** Params' -> Space Params continues an argument list. */
  lemma {:induction false} MoreArguments(input: seq<Symbol>, j: nat, k: nat)
    requires j + 1 < |input| && input[j] == SpaceT && Derive(input, ParamsN, j + 1) == Success(k)
    ensures Derive(input, ParamsPrimeN, j) == Success(k)
  {
    DeriveStep(input, ParamsPrimeN, j);
    DeriveCons(input, [SpaceT, ParamsN], j, j + 1);
    DeriveCons(input, [ParamsN], j + 1, k);
  }

  /** Program -> Expr Program' with Program' -> EOF. */
  lemma {:induction false} LastExpression(input: seq<Symbol>, i: nat, j: nat)
    requires i < |input| && Rank(input[i]) == 0
    requires Derive(input, ExprN, i) == Success(j) && j < |input| && input[j] == EOFT
    ensures Derive(input, ProgramN, i) == Success(j + 1)
  {
    ProgramTailAtEOF(input, j);
    DeriveStep(input, ExprN, i);
    ExpressionStartsProgram(input[i].name);
    DeriveStep(input, ProgramN, i);
    DeriveCons(input, [ExprN, ProgramPrimeN], i, j);
    DeriveCons(input, [ProgramPrimeN], j, j + 1);
  }

  /** Every lookahead that starts an expression starts a program and an argument list. */
  lemma ExpressionStartsProgram(look: string)
    requires Production("Expr", look).Some?
    ensures Production("Program", look) == Some([ExprN, ProgramPrimeN])
    ensures Production("Params", look) == Some([ExprN, ParamsPrimeN])
  {
  }

  /** Program' -> EOF ends a program. */
  lemma {:induction false} ProgramTailAtEOF(input: seq<Symbol>, j: nat)
    requires j < |input| && input[j] == EOFT
    ensures Derive(input, ProgramPrimeN, j) == Success(j + 1)
  {
    DeriveStep(input, ProgramPrimeN, j);
    DeriveCons(input, [EOFT], j, j + 1);
  }

  /** The symbols of `(add 1 2)`. */
  const AddOneTwo: seq<Symbol> := [OpenT, KeywordT, SpaceT, IntT, SpaceT, IntT, CloseT, EOFT]

  /** A literal followed by the closing bracket ends an argument list. */
  lemma {:induction false} LastLiteralArgument(input: seq<Symbol>, j: nat)
    requires j + 1 < |input| && IsLiteralTerminal(input[j]) && input[j + 1] == CloseT
    ensures Derive(input, ParamsN, j) == Success(j + 2)
  {
    LiteralIsExpression(input, j);
    LastArgument(input, j + 1);
    ArgumentList(input, j, j + 1, j + 2);
  }

  /** A literal and a space in front of the rest of an argument list. */
  lemma {:induction false} LiteralArgument(input: seq<Symbol>, j: nat, k: nat)
    requires j + 2 < |input| && IsLiteralTerminal(input[j]) && input[j + 1] == SpaceT
    requires Derive(input, ParamsN, j + 2) == Success(k)
    ensures Derive(input, ParamsN, j) == Success(k)
  {
    LiteralIsExpression(input, j);
    MoreArguments(input, j + 1, k);
    ArgumentList(input, j, j + 1, k);
  }

  /** A call with two literal arguments, such as `(add 1 2)`, is an expression. */
  lemma {:induction false} BinaryCallIsExpression(input: seq<Symbol>, i: nat)
    requires i + 6 < |input|
    requires input[i] == OpenT && input[i + 1] == KeywordT && input[i + 2] == SpaceT
    requires IsLiteralTerminal(input[i + 3]) && input[i + 4] == SpaceT
    requires IsLiteralTerminal(input[i + 5]) && input[i + 6] == CloseT
    ensures Derive(input, ExprN, i) == Success(i + 7)
  {
    LastLiteralArgument(input, i + 5);
    LiteralArgument(input, i + 3, i + 7);
    CallIsExpression(input, i, i + 7);
  }

  /** `(add 1 2)` derives from the start symbol, using up the whole input. */
  lemma {:induction false} AddOneTwoDerives()
    ensures Derive(AddOneTwo, ProgramN, 0) == Success(|AddOneTwo|)
  {
    BinaryCallIsExpression(AddOneTwo, 0);
    LastExpression(AddOneTwo, 0, 7);
  }

  /** The parser accepts `(add 1 2)` and consumes every token. */
  lemma {:induction false} AddOneTwoIsAccepted()
    ensures ParseSymbols(AddOneTwo) == Success(|AddOneTwo|)
  {
    AddOneTwoDerives();
    ParseIsDescent(AddOneTwo);
  }
}
