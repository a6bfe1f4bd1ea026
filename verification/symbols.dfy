/** Grammar symbols and production tables. A symbol is identified by its name alone:
    the hash and the equality the tables use both look only at the name, so a table is
    a map keyed by the lookahead's name. */
module Symbols {
  import opened Wrappers
  import opened Tokens

  datatype Symbol = Terminal(name: string) | NonTerminal(name: string)

  /** `operator==`: two symbols are equal when their names are. */
  predicate Same(a: Symbol, b: Symbol) {
    a.name == b.name
  }

  /** The terminal a token stands for: the token's type name. */
  function FromToken(t: Token): (s: Symbol)
    ensures s.Terminal? && Same(s, Terminal(GetType(t)))
  {
    Terminal(GetType(t))
  }

  /** Two tokens give the same terminal exactly when they are of the same category: the
      payload and the position play no part. */
  lemma FromTokenKeepsOnlyCategory(t: Token, u: Token)
    ensures FromToken(t).Terminal?
    ensures Same(FromToken(t), FromToken(u)) <==> t.category == u.category
  {
    if GetType(t) == GetType(u) {
      TypeNameInjective(t.category, u.category);
    }
  }

  type Rhs = seq<Symbol>

  /** The productions of one nonterminal, keyed by the lookahead's name. */
  type Table = map<string, Rhs>

  /** `add_rule`: an insertion into the table that never replaces an existing entry. */
  function AddRule(t: Table, lookahead: Symbol, rhs: Rhs): (r: Table)
    ensures r.Keys == t.Keys + {lookahead.name}
    ensures forall k :: k in t ==> r[k] == t[k]
    ensures lookahead.name !in t ==> r[lookahead.name] == rhs
  {
    if lookahead.name in t then t else t[lookahead.name := rhs]
  }

  /** `add_rules`: `add_rule` on each pair in order. */
  function AddRules(t: Table, rules: seq<(Symbol, Rhs)>): Table
    decreases |rules|
  {
    if |rules| == 0 then t else AddRules(AddRule(t, rules[0].0, rules[0].1), rules[1..])
  }

  /** The right-hand side of the first pair in `rules` whose lookahead is named `name`. */
  function FirstRule(rules: seq<(Symbol, Rhs)>, name: string): (r: Option<Rhs>)
    ensures r.None? <==> forall k :: 0 <= k < |rules| ==> rules[k].0.name != name
    ensures r.Some? ==>
      exists k :: 0 <= k < |rules| && rules[k].0.name == name && rules[k].1 == r.value
        && (forall m :: 0 <= m < k ==> rules[m].0.name != name)
    decreases |rules|
  {
    if |rules| == 0 then None
    else if rules[0].0.name == name then Some(rules[0].1)
    else
      var r := FirstRule(rules[1..], name);
      assert forall k :: 1 <= k < |rules| ==> rules[k] == rules[1..][k - 1];
      r
  }

  /** After `add_rules`, a name keeps its old entry if it had one, and otherwise gets the
      right-hand side of the first pair for it; no other key appears. */
  lemma {:induction false} AddRulesLookup(t: Table, rules: seq<(Symbol, Rhs)>, name: string)
    ensures name in AddRules(t, rules) <==> name in t || FirstRule(rules, name).Some?
    ensures name in t ==> AddRules(t, rules)[name] == t[name]
    ensures name !in t && FirstRule(rules, name).Some? ==>
      AddRules(t, rules)[name] == FirstRule(rules, name).value
    decreases |rules|
  {
    if |rules| > 0 {
      AddRulesLookup(AddRule(t, rules[0].0, rules[0].1), rules[1..], name);
    }
  }

  datatype ParseError =
    | NoRule(nonterminal: string, lookahead: string)  // `get_rule` finds no entry
    | DecomposeTerminal(terminal: string)             // a terminal is asked to expand
    | StackNotEmpty                                   // input ended with symbols still pending
    | UnknownNonTerminal(nonterminal: string)         // a nonterminal without a table

  /** `get_rule`: the entry for the lookahead, or the error the source asserts on. */
  function GetRule(nonterminal: string, t: Table, lookahead: Symbol): (r: Result<Rhs, ParseError>)
    ensures r.Success? <==> lookahead.name in t
    ensures r.Success? ==> r.value == t[lookahead.name]
    ensures r.Failure? ==> r.error == NoRule(nonterminal, lookahead.name)
  {
    if lookahead.name in t then Success(t[lookahead.name]) else Failure(NoRule(nonterminal, lookahead.name))
  }

  /** A grammar: the table of each nonterminal, by the nonterminal's name. */
  type Grammar = map<string, Table>

  /** `decompose`: a terminal cannot be expanded; a nonterminal looks up its table. */
  function Decompose(g: Grammar, top: Symbol, lookahead: Symbol): (r: Result<Rhs, ParseError>)
    ensures top.Terminal? ==> r == Failure(DecomposeTerminal(top.name))
    ensures top.NonTerminal? && top.name in g ==> r == GetRule(top.name, g[top.name], lookahead)
    ensures r.Success? ==> top.NonTerminal? && top.name in g && lookahead.name in g[top.name]
  {
    match top
    case Terminal(n) => Failure(DecomposeTerminal(n))
    case NonTerminal(n) =>
      if n in g then GetRule(n, g[n], lookahead) else Failure(UnknownNonTerminal(n))
  }
}
