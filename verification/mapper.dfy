/** `SymbolToExprMapper`: the node a grammar symbol stands for. Grammar scaffolding becomes
    the placeholder node; every other symbol the node its own name creates. The node
    creator itself (`ExprCreator`) is not part of this model and is passed in as `create`. */
module Mapper {
  import opened Symbols
  import Parser

  const ParseTempName: string := "ParseTempExpr"

  /** The names the mapper treats as grammar scaffolding. */
  const Scaffolding: set<string> := {"Literal", "Params", "Params'", "Program'", "Expr", "Program"}

  /** The name handed to the node creator for `x`. */
  function CreatorName(x: Symbol): (n: string)
    ensures x.name in Scaffolding ==> n == ParseTempName
    ensures x.name !in Scaffolding ==> n == x.name
  {
    if x.name == "Literal" || x.name == "Params" || x.name == "Params'"
       || x.name == "Program'" || x.name == "Expr" || x.name == "Program"
    then ParseTempName
    else x.name
  }

  function MapSymbol<E>(x: Symbol, create: string -> E): (e: E)
    ensures x.name in Scaffolding ==> e == create(ParseTempName)
    ensures x.name !in Scaffolding ==> e == create(x.name)
  {
    create(CreatorName(x))
  }

  /** The mapping looks at the name alone: symbols equal under `operator==` map to the
      same node, whether terminal or not. */
  lemma MappingDependsOnNameOnly<E>(x: Symbol, y: Symbol, create: string -> E)
    requires Same(x, y)
    ensures MapSymbol(x, create) == MapSymbol(y, create)
  {
  }

  /** The scaffolding names are exactly the nonterminals of the parser's grammar. */
  lemma {:induction false} ScaffoldingIsTheGrammar()
    ensures Scaffolding == Parser.Tables().Keys
    ensures forall x :: x in Parser.Tables().Keys ==> Parser.Rank(NonTerminal(x)) > 0
  {
  }

  /** On every right-hand side of the grammar, a symbol maps to the placeholder node
      exactly when it is a nonterminal. */
  lemma {:induction false} PlaceholdersAreTheNonTerminals(nt: string, look: string, k: nat)
    requires nt in Parser.Tables() && look in Parser.Tables()[nt]
    requires k < |Parser.Tables()[nt][look]|
    ensures var x := Parser.Tables()[nt][look][k];
      x.NonTerminal? <==> CreatorName(x) == ParseTempName
  {
    Parser.TablesAreProductions(nt, look);
    ProductionPlaceholders(nt, look, k);
  }

  lemma {:induction false} ProductionPlaceholders(nt: string, look: string, k: nat)
    requires Parser.Production(nt, look).Some? && k < |Parser.Production(nt, look).value|
    ensures var x := Parser.Production(nt, look).value[k];
      x.NonTerminal? <==> CreatorName(x) == ParseTempName
  {
    var rhs := Parser.Production(nt, look).value;
    if nt == "Literal" {
      assert rhs == [Terminal(look)];
      assert look in {"NullLitToken", "BoolLitToken", "FloatLitToken", "IntLitToken", "StringLitToken"};
    }
  }
}
