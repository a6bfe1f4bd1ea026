/** The lexer and the parser together: what the parser can say about lexer output. */
module Frontend {
  import opened Wrappers
  import opened Tokens
  import opened Symbols
  import Lexer
  import Parser

  /** Every token the lexer produces has the payload its category declares. */
  lemma {:induction false} LexerOutputIsWellFormed(s: string)
    requires Lexer.Run(s).Success?
    ensures Parser.AllWellFormed(Lexer.Run(s).value)
  {
    var toks := Lexer.Run(s).value;
    var lexs := Lexer.Scan(s).value;
    forall k | 0 <= k < |toks| ensures WellFormed(toks[k]) {
      if k < |lexs| {
        assert Lexer.CarriesLexeme(lexs[k], toks[k]);
      }
    }
  }

  /** No token is mapped to a symbol named like a nonterminal. */
  lemma TokenSymbolIsTerminal(t: Token)
    requires WellFormed(t)
    ensures Parser.Rank(Parser.TokenToSymbol(t)) == 0
  {
    var name := Parser.TokenToSymbol(t).name;
    if t.category == Delimiter {
      assert name[..15] == "DelimiterToken(";
    } else {
      assert name == TokenNames[Index(t.category)];
    }
  }

  /** Only an end-of-input token is mapped to the end-of-input terminal's name. */
  lemma EOFSymbolComesFromEOFToken(t: Token)
    requires WellFormed(t) && Parser.TokenToSymbol(t).name == Parser.EOFT.name
    ensures t.category == EOF
  {
    var name := Parser.TokenToSymbol(t).name;
    if t.category != Delimiter {
      NameTableIsBijective();
      assert TypeName(t.category) == TypeName(EOF);
      TypeNameInjective(t.category, EOF);
    }
  }

  /** Whatever non-empty token list the parser accepts, the last token it consumed is an
      end-of-input token. */
  lemma {:induction false} AcceptedTokensEndWithEOF(toks: seq<Token>)
    requires |toks| > 0 && Parser.AllWellFormed(toks) && Parser.Parse(toks).Success?
    ensures var n := Parser.Parse(toks).value; 0 < n <= |toks| && toks[n - 1].category == EOF
  {
    var input := Parser.Lookaheads(toks);
    forall k | 0 <= k < |input| ensures Parser.Rank(input[k]) == 0 {
      TokenSymbolIsTerminal(toks[k]);
    }
    Parser.ParseIsDescent(input);
    Parser.ProgramEndsWithEOF(input, 0);
    EOFSymbolComesFromEOFToken(toks[Parser.Parse(toks).value - 1]);
  }

  /** On lexer output the parser never stops early: the lexer's tokens are fit for the
      parser, and whenever the parser accepts them it has consumed every token, up to and
      including the final end-of-input token. */
  lemma {:induction false} AcceptedLexerOutputIsConsumed(s: string)
    requires Lexer.Run(s).Success?
    ensures Parser.AllWellFormed(Lexer.Run(s).value)
    ensures Parser.Parse(Lexer.Run(s).value).Success? ==>
      Parser.Parse(Lexer.Run(s).value).value == |Lexer.Run(s).value|
  {
    LexerOutputIsWellFormed(s);
    var toks := Lexer.Run(s).value;
    if Parser.Parse(toks).Success? {
      AcceptedTokensEndWithEOF(toks);
      Lexer.RunEndsWithSingleEOF(s);
    }
  }
}
