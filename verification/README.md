# mini-interpreter, modelled in Dafny

This project models the pipeline of the small S-expression language `mini-interpreter`.

1. A longest-match lexer cuts the input into tokens.
2. A table-driven predictive parser recognises the token list against a six-nonterminal grammar: Program, Program', Expr, Params, Params' and Literal.
3. A tree-walking evaluator runs the syntax tree against a variable table and an output buffer.

The model is functional. Tokens, symbols, syntax nodes and values are immutable datatypes. The lexer, the parser loop and the evaluator are total recursive functions. Every `assert` of the program becomes an error value the model can name.

Modules, in pipeline order:

| file | module | models |
|---|---|---|
| wrappers.dfy | `Wrappers` | `Option` and `Result` |
| text.dfy | `Text` | decimal rendering of `int` (`std::to_string`) and reading it back |
| tokens.dfy | `Tokens` | token categories, the name table, `to_string`, the `TokenCreator` overloads |
| lexer.dfy | `Lexer` | the rule list and the longest-match loop of `Lexer::run` |
| symbols.dfy | `Symbols` | grammar symbols, `ProductionRules`, `decompose` |
| parser.dfy | `Parser` | the grammar tables, `tokenToParserSymbol`, the stack loop of `Parser::parse` |
| frontend.dfy | `Frontend` | what the parser can rely on in lexer output |
| ast.dfy | `Ast` | node kinds, `push_back`, the node constructors and their arities |
| mapper.dfy | `Mapper` | `SymbolToExprMapper` |
| values.dfy | `Values` | `ReturnValue`, `SymbolTable`/`Context`, `Printer` |
| operators.dfy | `Operators` | each operator branch of `Interpreter::evaluate` |
| interpreter.dfy | `Interpreter` | `evaluate`, `interpret`, `repl_iteration` |

The parser is modelled twice, and the two are proved equal:

- `Parser.Run`: the stack machine the source runs.
- `Parser.Derive`: recursive descent over the same tables.

The lexer is also modelled twice:

- `Lexer.Scan`: the loop.
- `Lexer.LexesAs`: a declarative reading of the loop.

Soundness and completeness lemmas link the two lexer models.

## Model

| member | source | states |
|---|---|---|
| Text.IntToString | compiler/core/lexer/tokens.h:61-62 | `std::to_string` of an int: a leading minus sign exactly for negatives, then decimal digits; `Text.IntRoundTrip` reads it back |
| Text.NatRoundTrip | compiler/core/lexer/tokens.h:61-62 | the decimal digits of a natural number read back as that number |
| Text.IntRoundTrip | compiler/core/lexer/tokens.h:61-62 | `std::to_string` of an int, read back, is the int, sign included |
| Text.IntToStringInjective | compiler/core/lexer/tokens.h:61-62 | distinct ints render to distinct decimal text |
| Tokens.Index | compiler/core/lexer/tokens.h:88-98 | every category alias indexes inside the eleven-entry name table |
| Tokens.CategoryOfName | src/core/lexer/tokens.cpp:7-12 | a name that is found is the type name of the category returned |
| Tokens.NameTableIsBijective | src/core/lexer/tokens.cpp:7-12 | the table has exactly 11 entries; categories and table entries correspond one to one in both directions |
| Tokens.TypeNameInjective | compiler/core/lexer/tokens.h:48-51 | `get_type` tells categories apart: equal type names mean equal categories |
| Tokens.ToString | compiler/core/lexer/tokens.h:53-64 | `to_string` opens with the type name and a `(`, and closes with `)`; `Tokens.ToStringDeterminesToken` shows it fixes payload text and position |
| Tokens.ToStringDeterminesToken | compiler/core/lexer/tokens.h:53-64 | within a category, the `Name(payload)(pos)` rendering fixes the payload text and the position |
| Tokens.CreateInt | src/core/lexer/tokens.cpp:26-32 | the int overload succeeds exactly for `IntLitToken`; the token has that type, the given payload and position |
| Tokens.CreateFloat | src/core/lexer/tokens.cpp:34-40 | the float overload succeeds exactly for `FloatLitToken`, keeping payload and position |
| Tokens.CreateText | src/core/lexer/tokens.cpp:42-60 | the string overload succeeds exactly for StringLit, Delimiter, Keyword, Identifier and Error, keeping the text |
| Tokens.CreateBool | src/core/lexer/tokens.cpp:62-68 | the bool overload succeeds exactly for `BoolLitToken`, keeping the flag |
| Tokens.CreateEmpty | src/core/lexer/tokens.cpp:70-82 | the payload-less overload succeeds exactly for NullLit, Space and EOF |
| Lexer.Span | compiler/core/lexer/lexer.cpp:36 | a character-class run: every character in it qualifies and the one after it does not |
| Lexer.FirstWord | compiler/core/lexer/lexer.cpp:24-27 | the keyword alternation matches iff some keyword starts the input, and the length is that keyword's |
| Lexer.MatchLen | compiler/core/lexer/lexer.cpp:22-38 | an anchored rule match is non-empty and lies within the input |
| Lexer.LongestFrom | compiler/core/lexer/lexer.cpp:45-51 | the loop over the rules ends with the kept pair being the earliest of the longest matches, or nothing if no rule matched |
| Lexer.Longest | compiler/core/lexer/lexer.cpp:44-51 | nothing is kept iff no rule matches; otherwise the kept rule has the greatest length and every earlier rule matched strictly less |
| Lexer.RuleCategoriesAreTheRules | compiler/core/lexer/lexer.cpp:21-39 | the categories the rules produce are exactly all but Error and EOF |
| Lexer.Winner | compiler/core/lexer/lexer.cpp:44-54 | a chosen match is non-empty, within the input, and of a rule category |
| Lexer.Scan | compiler/core/lexer/lexer.cpp:44-54 | a failure is reported at an offset inside the input |
| Lexer.ScanIsSound | compiler/core/lexer/lexer.cpp:44-74 | a successful scan cuts the input into consecutive pieces, each the winner where it starts |
| Lexer.ScanStopsWhereNoRuleMatches | compiler/core/lexer/lexer.cpp:52-54 | a failed scan stops at a position where no rule matches |
| Lexer.ScanIsComplete | compiler/core/lexer/lexer.cpp:44-74 | any longest-match cutting of the input is the one the scan returns, so that cutting is unique |
| Lexer.LexemesCoverInput | compiler/core/lexer/lexer.cpp:74 | the consumed pieces concatenate back to the input, in order |
| Lexer.WinnersAreRuleCategories | compiler/core/lexer/lexer.cpp:44-51 | no lexeme is an Error or EOF lexeme |
| Lexer.MakeToken | compiler/core/lexer/lexer.cpp:55-72 | the creator call for a lexeme fails only for the EOF category; otherwise a well-formed token of the lexeme's category at position 0 |
| Lexer.MakeTokenSucceeds | compiler/core/lexer/lexer.cpp:55-72 | the creator call for a winning category succeeds; a bool carries `lexeme == "true"`, space and null nothing, the others the lexeme |
| Lexer.MakeTokens | compiler/core/lexer/lexer.cpp:55-72 | one token per lexeme, each carrying its lexeme as above |
| Lexer.Run | compiler/core/lexer/lexer.cpp:41-80 | succeeds iff the scan does, with the scan's error; one token per lexeme then an EOF token; empty input gives just `[EOF]` |
| Lexer.RunEndsWithSingleEOF | compiler/core/lexer/lexer.cpp:77 | the output ends with an EOF token and has no other |
| Lexer.EarlierRuleWinsTies | compiler/core/lexer/lexer.cpp:48 | a later rule never displaces an earlier one whose match is at least as long |
| Lexer.LongestIsUnique | compiler/core/lexer/lexer.cpp:45-51 | the earliest-longest rule and length are unique |
| Lexer.WinnerIsEarliestLongest | compiler/core/lexer/lexer.cpp:45-51 | the winner is the category of the earliest longest-matching rule |
| Lexer.AddIsKeyword | compiler/core/lexer/lexer.cpp:24-28 | `add` lexes as a keyword: it ties with the identifier rule, which comes later |
| Lexer.LongerWordIsIdentifier | compiler/core/lexer/lexer.cpp:36 | `adds` lexes as a four-character identifier |
| Lexer.NullIsNullLiteral | compiler/core/lexer/lexer.cpp:30 | `null` lexes as a null literal |
| Lexer.TrueIsBoolLiteral | compiler/core/lexer/lexer.cpp:34 | `true` lexes as a boolean literal |
| Lexer.FalseIsBoolLiteral | compiler/core/lexer/lexer.cpp:34 | `false` lexes as a boolean literal |
| Lexer.StrIsIdentifier | compiler/core/lexer/lexer.cpp:24-27 | `str` is not a keyword and lexes as an identifier |
| Lexer.MaxIsIdentifier | compiler/core/lexer/lexer.cpp:24-27 | `max` is not a keyword and lexes as an identifier |
| Lexer.SearchLen | compiler/core/lexer/lexer.cpp:31-34 | `regex_search` of an unanchored alternative succeeds iff it matches at some later position |
| Lexer.MatchLenAsWritten | compiler/core/lexer/lexer.cpp:31-34 | the patterns as written differ from the anchored reading only for the int, float and bool rules |
| Lexer.AnchoredMatchIsFound | compiler/core/lexer/lexer.cpp:31-34 | where the anchored reading matches, the search reports the same length |
| Lexer.WinnerAsWritten | compiler/core/lexer/lexer.cpp:44-54 | one turn of the loop as written fails iff no pattern is found anywhere |
| Lexer.AsWrittenCutsBooleanFromIdentifier | compiler/core/lexer/lexer.cpp:34 | as written, on `x true` the first lexeme is the four characters `x tr`, as a boolean |
| Lexer.XTrueStartsWithIdentifier | compiler/core/lexer/lexer.cpp:36 | anchored, `x true` starts with the identifier `x` |
| Lexer.AsWrittenLexesBlankAsInt | compiler/core/lexer/lexer.cpp:31 | as written, on ` 1 2)` the first lexeme is the blank, as an int: the int pattern finds `1` one character on and ties the blank rule, which comes later |
| Lexer.BlankBeforeDigitIsSpace | compiler/core/lexer/lexer.cpp:37 | anchored, the blank of ` 1 2)` is a space lexeme |
| Symbols.FromTokenKeepsOnlyCategory | compiler/core/parser/symbol.cpp:39 | a token becomes a terminal, and two tokens become the same terminal exactly when their categories agree, whatever their payloads and positions |
| Symbols.AddRule | compiler/core/parser/symbol.cpp:74-76 | `insert` adds the key and never replaces an existing entry |
| Symbols.FirstRule | src/core/parser/symbol.h:82 | finds the first pair for a name, or reports that no pair has it |
| Symbols.AddRulesLookup | src/core/parser/symbol.h:82 | after `add_rules`, a key keeps its old entry, else gets its first pair's right-hand side; no other key appears |
| Parser.DecomposeIsProduction | compiler/core/parser/symbol.cpp:47-84 | `decompose` through `get_rule` on the built tables succeeds exactly for a nonterminal that has a grammar production for the lookahead, and returns that production; a terminal always fails |
| Parser.TablesAreProductions | compiler/core/parser/parser.cpp:75-132 | the tables built by `add_rules` hold exactly the grammar's productions |
| Parser.ExpansionLowersRank | compiler/core/parser/parser.cpp:193-201 | every expansion puts a non-empty right-hand side on the stack whose first symbol ranks lower |
| Parser.ExpressionStartsProgram | compiler/core/parser/parser.cpp:84-126 | every lookahead that starts an expression selects `Expr Program'` and `Expr Params'` |
| Parser.TokenToSymbol | compiler/core/parser/parser.cpp:25-26 | a delimiter maps to the `(` or `)` terminal the tables use; any other token to its category terminal |
| Parser.TokenToSymbolAsWritten | compiler/core/parser/parser.cpp:165-170 | as written, a delimiter's terminal name also carries `(position)` |
| Parser.Run | compiler/core/parser/parser.cpp:176-204 | the stack loop consumes a count of tokens within the input |
| Parser.ParseSymbols | compiler/core/parser/parser.cpp:172-204 | an empty input is accepted at once; an accepted input is consumed no further than its end; `Parser.ParseIsDescent` gives its meaning |
| Parser.Parse | compiler/core/parser/parser.cpp:165-204 | `parse` with the corrected delimiter mapping: the same bounds; `Frontend.AcceptedLexerOutputIsConsumed` and `Frontend.AcceptedTokensEndWithEOF` state what it accepts |
| Parser.ParseAsWritten | compiler/core/parser/parser.cpp:165-204 | `parse` with the delimiter mapping as written: the same bounds; `Parser.AsWrittenRejectsOpeningBracket` shows it fails on any input that opens with `(` |
| Parser.Derive | compiler/core/parser/parser.cpp:75-132 | recursive descent from a symbol consumes at least one token |
| Parser.DeriveSeq | compiler/core/parser/parser.cpp:193-201 | deriving a non-empty sequence of symbols consumes at least one token |
| Parser.RunSymbol | compiler/core/parser/parser.cpp:178-201 | the loop on `x` above the rest is deriving `x` and then resuming with the rest |
| Parser.RunSymbols | compiler/core/parser/parser.cpp:193-201 | the same for a pushed right-hand side |
| Parser.ParseIsDescent | compiler/core/parser/parser.cpp:172-204 | parsing from `[Program]` is recursive descent from Program |
| Parser.ProgramEndsWithEOF | compiler/core/parser/parser.cpp:100-115 | an accepted program ends with the EOF terminal |
| Parser.AddOneTwoIsAccepted | compiler/core/parser/parser.cpp:172-204 | `(add 1 2)` is accepted and every token is consumed |
| Parser.AsWrittenRejectsOpeningBracket | compiler/core/parser/parser.cpp:165-170 | as written, any input starting with `(` is rejected at once: Program has no entry for the lookahead |
| Frontend.LexerOutputIsWellFormed | compiler/core/lexer/lexer.cpp:55-77 | every token the lexer emits has the payload its category declares |
| Frontend.TokenSymbolIsTerminal | compiler/core/parser/parser.cpp:165-170 | no token maps to a symbol named like a nonterminal |
| Frontend.EOFSymbolComesFromEOFToken | compiler/core/parser/parser.cpp:17 | only an EOF token maps to the EOF terminal |
| Frontend.AcceptedTokensEndWithEOF | compiler/core/parser/parser.cpp:183-192 | the last token an accepted parse consumes is an EOF token |
| Frontend.AcceptedLexerOutputIsConsumed | compiler/core/parser/parser.cpp:186-189 | when the parser accepts lexer output, it consumes all of it |
| Ast.PushBack | compiler/core/ast/tree_module.cpp:7-9 | `push_back` appends at the end and leaves the kind and earlier children unchanged |
| Ast.PushAllAppends | compiler/core/ast/tree_module.cpp:7-9 | pushing a list child by child appends the whole list in order |
| Ast.Unary | compiler/core/ast/tree_module.cpp:11-13 | Puts, Abs, Lowercase, Uppercase and Identifier nodes have exactly their one child |
| Ast.Binary | compiler/core/ast/tree_module.cpp:20-73 | the two-operand nodes have exactly `[lhs, rhs]` |
| Ast.Ternary | compiler/core/ast/tree_module.cpp:75-85 | Replacement is `[source, target, replacement]`; Substring is `[source, l, r]` |
| Ast.Addition | compiler/core/ast/tree_module.cpp:15-18 | an Addition node keeps every operand, in order |
| Ast.Multiplication | compiler/core/ast/tree_module.cpp:25-28 | a Multiplication node keeps every operand, in order |
| Ast.ConstructorArity | compiler/core/ast/tree_module.cpp:11-119 | the arity each constructor gives is 0, 1, 2 or 3 exactly for the leaf, unary, binary and ternary kinds |
| Mapper.CreatorName | compiler/utils/mapper.cpp:11-21 | scaffolding names give `ParseTempExpr`; any other symbol gives its own name |
| Mapper.MapSymbol | compiler/utils/mapper.cpp:8-21 | the node is created from `ParseTempExpr` for scaffolding and from the symbol's name otherwise |
| Mapper.MappingDependsOnNameOnly | compiler/utils/mapper.cpp:10 | symbols equal under `operator==` map to the same node |
| Mapper.ScaffoldingIsTheGrammar | compiler/utils/mapper.cpp:11-20 | the scaffolding names are exactly the parser's six nonterminals |
| Mapper.PlaceholdersAreTheNonTerminals | compiler/utils/mapper.cpp:11-21 | on every right-hand side, a symbol maps to the placeholder iff it is a nonterminal |
| Values.Bind | src/core/interpreter/interpreter.cpp:46-48 | a binding adds or replaces the name and changes no other name |
| Values.BindThenLookup | src/core/interpreter/interpreter.cpp:46-55 | a lookup after a binding sees it; other names see what they saw before |
| Values.AddOutput | src/core/interpreter/interpreter.cpp:84-86 | the text plus a newline becomes the newest entry; older entries stay |
| Values.Render | src/core/interpreter/interpreter.cpp:92-97 | the rendering of a non-empty buffer opens with the oldest entry and closes with the newest; `Values.RenderOfExtension` shows it concatenates every entry in order |
| Values.AddOutputExtendsRendering | src/core/interpreter/interpreter.cpp:84-97 | after `add_output`, the buffer's rendering is the old rendering plus the text and a newline |
| Values.RenderOfExtension | src/core/interpreter/interpreter.cpp:92-97 | rendering concatenates the entries in order |
| Operators.IntArithmeticIsExact | src/core/interpreter/interpreter.cpp:151-200 | for int operands, the integer sum and product equal the numeric sum and product |
| Operators.Addition | src/core/interpreter/interpreter.cpp:151-167 | succeeds iff there is at least one operand and all are numeric; the sum, int-tagged iff every operand is an int |
| Operators.Multiplication | src/core/interpreter/interpreter.cpp:184-200 | the same for the product |
| Operators.Subtraction | src/core/interpreter/interpreter.cpp:168-183 | exactly two numeric operands; the difference, int-tagged iff both are ints |
| Operators.TruncDiv | src/core/interpreter/interpreter.cpp:201-217 | the quotient truncated toward zero: the remainder is smaller than the divisor and has the dividend's sign |
| Operators.Division | src/core/interpreter/interpreter.cpp:201-217 | two numeric operands and a divisor of magnitude at least 1e-7, which for ints means non-zero; the truncated int quotient or the exact quotient |
| Operators.Absolute | src/core/interpreter/interpreter.cpp:324-339 | exactly one numeric operand; a non-negative result of the same magnitude and tag |
| Operators.Minimum | src/core/interpreter/interpreter.cpp:290-306 | at least one numeric operand; an operand's value no larger than any operand |
| Operators.Maximum | src/core/interpreter/interpreter.cpp:307-323 | at least one numeric operand; an operand's value no smaller than any operand |
| Operators.MinimumAsWritten | src/core/interpreter/interpreter.cpp:293 | as written, the result never exceeds the 2e9 seed |
| Operators.MaximumAsWritten | src/core/interpreter/interpreter.cpp:310 | as written, the result is never below the -2e9 seed |
| Operators.MinSeedCapsLargeOperands | src/core/interpreter/interpreter.cpp:290-306 | `min` of the single int 2100000000 gives 2000000000 as written, but the operand itself when corrected |
| Operators.MaxSeedCapsSmallOperands | src/core/interpreter/interpreter.cpp:307-323 | `max` of the single int -2100000000 gives -2000000000 as written, but the operand itself when corrected |
| Operators.Greater | src/core/interpreter/interpreter.cpp:218-226 | exactly two numeric operands; whether the first is larger |
| Operators.Less | src/core/interpreter/interpreter.cpp:227-235 | exactly two numeric operands; whether the first is smaller |
| Operators.GreaterIsSwappedLess | src/core/interpreter/interpreter.cpp:218-235 | `gt a b` is `lt b a` |
| Operators.ValuesEqualIsIdentity | src/core/interpreter/interpreter.cpp:236-262 | on the model's exact numbers and without floats, `equal` is value identity; mismatched kinds are unequal and null equals null |
| Operators.ValuesEqualIsEquivalence | src/core/interpreter/interpreter.cpp:236-262 | the model's exact comparison is reflexive, symmetric and transitive |
| Operators.Equality | src/core/interpreter/interpreter.cpp:236-262 | succeeds iff there are two operands and neither is the null slot; the answer is a bool |
| Operators.Inequality | src/core/interpreter/interpreter.cpp:263-289 | succeeds exactly when `equal` does, that is with two non-null operands, and answers the negation of `equal` |
| Operators.InequalityNegatesEquality | src/core/interpreter/interpreter.cpp:263-289 | `not_equal` succeeds iff `equal` does, and gives the opposite answer |
| Operators.EqualityIsSymmetric | src/core/interpreter/interpreter.cpp:236-262 | `equal` does not depend on operand order |
| Operators.Concatenation | src/core/interpreter/interpreter.cpp:340-348 | exactly two strings; the first followed by the second |
| Operators.ReplaceWithoutNeedleIsIdentity | src/core/interpreter/interpreter.cpp:349-371 | a string without the needle comes back unchanged |
| Operators.ReplaceBySelfIsIdentity | src/core/interpreter/interpreter.cpp:349-371 | replacing the needle by itself changes nothing |
| Operators.ReplaceLoop | src/core/interpreter/interpreter.cpp:360-369 | the left-to-right scan computes the non-overlapping replacement of every occurrence |
| Operators.Replacement | src/core/interpreter/interpreter.cpp:349-371 | exactly three strings; an empty needle on non-empty text never ends; otherwise the replacement |
| Operators.Substr | src/core/interpreter/interpreter.cpp:372-382 | fails iff the start lies outside the string; within bounds it is `s[l..r)`; a too-long or negative count takes the rest |
| Operators.SubstrSplits | src/core/interpreter/interpreter.cpp:372-382 | adjacent substrings join into the spanning substring |
| Operators.Substring | src/core/interpreter/interpreter.cpp:372-382 | a string and two ints with the start inside the string; the result is `substr` of them |
| Operators.ToLower | src/core/interpreter/interpreter.cpp:383-392 | only ASCII capitals change, each to its small letter |
| Operators.ToUpper | src/core/interpreter/interpreter.cpp:393-402 | only ASCII small letters change, each to its capital |
| Operators.CaseMappingsAbsorb | src/core/interpreter/interpreter.cpp:383-402 | lowering forgets a raising and vice versa; each is idempotent |
| Operators.Lowercasing | src/core/interpreter/interpreter.cpp:383-392 | exactly one string; the same length with each character lowered |
| Operators.Uppercasing | src/core/interpreter/interpreter.cpp:393-402 | exactly one string; the same length with each character raised |
| Operators.Stringify | src/core/interpreter/interpreter.cpp:126-150 | one non-null, non-float operand; a string unchanged, null as `null`, a bool as `true` or `false`, an int as decimal text that reads back as the int |
| Operators.StringifyIntRoundTrip | src/core/interpreter/interpreter.cpp:126-150 | the text `str` gives an int reads back as that int |
| Operators.PutsText | src/core/interpreter/interpreter.cpp:120-125 | exactly one string operand, which is the text printed |
| Interpreter.Apply | src/core/interpreter/interpreter.cpp:120-431 | only `puts` changes the state: it appends its one string argument to the buffer |
| Interpreter.Eval | src/core/interpreter/interpreter.cpp:102-433 | evaluation never unbinds a variable and never takes back output, proved through the contracts of the recursive calls |
| Interpreter.EvalAll | src/core/interpreter/interpreter.cpp:117-118 | one result per child, and the children together only add variables and output |
| Interpreter.QuietLeavesStateAlone | src/core/interpreter/interpreter.cpp:117-431 | an expression without `set` and `puts` leaves variables and output exactly as they were |
| Interpreter.EvalSetNode | src/core/interpreter/interpreter.cpp:111-116 | `set` evaluates only its right child, binds its value to the name, and returns null |
| Interpreter.SetThenLookup | src/core/interpreter/interpreter.cpp:111-116 | after `set`, the name yields the right-hand side's value; a failing right-hand side fails the `set` |
| Interpreter.UnboundNameIsNull | src/core/interpreter/interpreter.cpp:422-425 | an unbound name yields the null slot, and `puts` of it fails |
| Interpreter.ConstructorArityMeetsEvaluator | src/core/interpreter/interpreter.cpp:152-402 | a node with the arity its constructor gives never fails the evaluator's count check |
| Interpreter.EvalPlaceholder | src/core/interpreter/interpreter.cpp:117-118 | a placeholder node with any children evaluates them in order, threading the state, and yields null |
| Interpreter.EvalSequence | src/core/interpreter/interpreter.cpp:429-431 | a placeholder node with two children evaluates the first, then the second in the state the first left, and yields null |
| Interpreter.Interpret | src/core/interpreter/interpreter.cpp:435-442 | succeeds iff evaluation in a fresh context does |
| Interpreter.ReplIteration | src/core/interpreter/interpreter.cpp:444-450 | the buffer is cleared afterwards; every variable carries over |
| Interpreter.FirstIterationIsInterpret | src/core/interpreter/interpreter.cpp:435-450 | from an empty session, an iteration prints what `interpret` returns |
| Interpreter.GreetingPrints | src/core/interpreter/interpreter.cpp:111-125 | `(set x "hi") (puts (concat x "!"))` prints `hi!` and a newline |

## Left out

- Floating point: floats are exact reals.
  - There is no `float` rounding and no 1e-6 tolerance on equality.
  - There is no `fabs`, and no text for a float: `str` of a float is the error `FloatText`, and a float token has no `to_string`.
- Integer width: `int` is unbounded.
  - The 32-bit wrap-around of int results is not modelled.
  - `as_numerical` (src/core/interpreter/interpreter.cpp:34-39) turns every int operand into a `float`. No numeric operator models that rounding, so above 2^24 in magnitude the source's answers can differ from the model's. For example, the source gives true for `(equal 16777217 16777216)` and the model false.
- Operators.Addition and Operators.Multiplication: for int operands the result is the exact sum or product. The source's result is exact only for small magnitudes, because of its `float` accumulator.
- Operators.Subtraction: the int result is the exact difference. The source subtracts two `float`s, so `(subtract 16777217 0)` gives 16777216 there.
- Operators.Division: the int quotient is the exact quotient truncated toward zero. The source's is truncated from a `float`.
- Operators.Greater: ints are compared exactly. The source compares them as `float`s, so `(gt 16777217 16777216)` is false there.
- Operators.Less: ints are compared exactly, where the source compares `float`s.
- Operators.Equality: ints are compared exactly. The source compares numbers as `float`s within 1e-6, so ints that round to the same `float` count as equal there.
- Operators.Inequality: the negation of the exact comparison, for the same reason.
- Operators.ValuesEqualIsIdentity: holds of the model's exact comparison only. Above 2^24 in magnitude the source's `equal` is not value identity.
- Operators.ValuesEqualIsEquivalence: holds of the model's exact comparison only. The source's 1e-6 tolerance is not transitive: 0 equals 6e-7 and 6e-7 equals 1.2e-6, but 0 does not equal 1.2e-6.
- Operators.Stringify: `str` of a float is the error `FloatText`. The source prints the float with `std::to_string` and keeps four digits after the point. Float formatting is not modelled.
- Tokens.ToString: a float token is excluded by the precondition, because float formatting is not modelled. The lexer gives float tokens only the placeholder 1.0.
- Operators.Minimum: the operands are compared and returned exactly. The source keeps the running value in a `float`.
- Operators.Maximum: likewise exact, where the source keeps a `float`.
- Operators.Absolute: the int result is the exact magnitude. The source goes through `fabs` on a `float`.
- Interpreter.Apply: `min` and `max` use the corrected `Operators.Minimum` and `Operators.Maximum`, not the ±2e9 seeds of the source. `Operators.MinimumAsWritten` and `Operators.MaximumAsWritten` are the code as written (see Findings).
- Parser.Parse: it maps delimiters with the corrected `Parser.TokenToSymbol`, so a delimiter's terminal carries no position. `Parser.ParseAsWritten` is the code as written, which rejects every input that opens with `(` (see Findings).
- Regular expressions: each rule is a prefix matcher written out by hand, not `std::regex`.
  - The search reading of the int, float and bool patterns is modelled only to show the finding below.
- Lexer placeholder payloads: the lexer gives int tokens the value 1, float tokens 1.0 and every token position 0. No property is stated about them.
- Building the tree: the shown `parse` returns nothing and builds no tree.
  - `Interpreter.Interpret` and `Interpreter.ReplIteration` therefore take a syntax tree instead of text.
  - Lexing and parsing the text first is not part of them.
- Node creation: `ExprCreator` is not part of this model. `Mapper.MapSymbol` takes the creator as a parameter.
- Max and str nodes: the constructors in tree_module.cpp build no Max or ToStr node, so `Ast.ConstructorArity` gives these kinds no arity. The evaluator's branches for them are modelled.
- Identifier child: an identifier node's one child is evaluated, like every child, and its value dropped. The model carries the name on the node kind, as `get_name` reads it.
  - `Interpreter.SetThenLookup`, `Interpreter.EvalSetNode`, `Interpreter.UnboundNameIsNull` and `Interpreter.GreetingPrints` use identifier nodes without that child. With a child that has no `set` or `puts` and succeeds, the result is the same, by `Interpreter.QuietLeavesStateAlone`.
- I/O:
  - printing to `std::cout` in `repl_iteration`;
  - the `std::cerr` trace in `parse`;
  - the stdin loop of the REPL;
  - the test fixtures.
- The Python prototype is a different implementation.
- Ownership: `shared_ptr` ownership and aliasing are not modelled.
- Null values: the `nullptr` an unbound name yields is the null slot, `None`. Using it where a value is needed is the error `NullValue`.
- Crashes: every `assert(0)`, failed `assert` or crash is an error value of the model.
  - This covers `get_rule`, `decompose`, the evaluator's arity and type checks, and the lexer's "no rule" case.
  - An uncaught `std::out_of_range` from `substr` is covered too.
- Strings: a string is a sequence of characters, while `std::string` holds bytes. For non-ASCII text, `substr` positions and `tolower`/`toupper` could differ. The lexer's string literals hold only `\w` characters, so lexed text is ASCII. Only a syntax tree built elsewhere can reach this case.
- `substr`: a negative length converted to `size_t` takes the rest of the string. No other consequence of the conversion is modelled.
- `replace` with an empty needle: on non-empty text the source loops forever. The model reports this as the error `NeverEnds`.
- Lexer.Scan: its own contract only bounds the error offset. What it computes is stated by `Lexer.ScanIsSound`, `Lexer.ScanStopsWhereNoRuleMatches` and `Lexer.ScanIsComplete`.
- Parser.Run: like the source, it accepts when the stack empties before the input ends. On lexer output this cannot happen: `Frontend.AcceptedLexerOutputIsConsumed` proves it.
- Superseded snapshots: the `compiler/` interpreter, the parser-side token and lexer files, and the `interpreter/` lexer header are not part of this model. The `src/` evaluator is the complete one.

## Findings

| source | as written | input that shows it | evidently intended | confidence | as-written member | corrected member |
|---|---|---|---|---|---|---|
| compiler/core/parser/parser.cpp:165-170 | a delimiter's terminal is named by the token's `to_string`, which ends with `(position)`, while the tables key the delimiters by `DelimiterToken(()` and `DelimiterToken())` (lines 25-26) | the tokens of `(add 1 2)`: the first lookahead is `DelimiterToken(()(0)` and Program has no entry for it | the delimiter terminal is the type name followed by the bracket, without the position | not executed; high | Parser.AsWrittenRejectsOpeningBracket | Parser.AddOneTwoIsAccepted |
| src/core/interpreter/interpreter.cpp:293 | the running minimum starts at 2e9 | `(min 2100000000)` gives 2000000000 | the minimum of the operands | not executed; high | Operators.MinSeedCapsLargeOperands | Operators.Minimum |
| src/core/interpreter/interpreter.cpp:310 | the running maximum starts at -2e9 | `(max -2100000000)` gives -2000000000 | the maximum of the operands | not executed; high | Operators.MaxSeedCapsSmallOperands | Operators.Maximum |
| compiler/core/lexer/lexer.cpp:31-34 | in the int, float and bool patterns the `^` anchor binds only the first of the two alternatives, so `regex_search` finds the second one further on, and the loop cuts its length off the front | `x true`: the first lexeme becomes the boolean `x tr` | every alternative anchored at the current position, so the first lexeme is the identifier `x` | not executed; medium | Lexer.AsWrittenCutsBooleanFromIdentifier | Lexer.XTrueStartsWithIdentifier |
| compiler/core/lexer/lexer.cpp:31 | the `^` of the int pattern binds only its `0` alternative, so `regex_search` finds a numeral further on; its length 1 ties the blank rule's, and the int rule comes first | ` 1 2)`, the rest of `(add 1 2)` after `(add`: the blank becomes an int lexeme, so `(add 1 2)` lexes as `(`, `add`, four int tokens and `)` | the numeral anchored too, so the blank is a space lexeme | not executed; medium | Lexer.AsWrittenLexesBlankAsInt | Lexer.BlankBeforeDigitIsSpace |
