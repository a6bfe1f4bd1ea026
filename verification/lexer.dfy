/** The longest-match lexer: an ordered list of rules, each an anchored prefix matcher
    paired with a token category; at every position the strictly longest match wins,
    so among equally long matches the earliest-declared rule is kept. */
module Lexer {
  import opened Wrappers
  import opened Tokens
  import Text

  /** One regular pattern of the rule list, read as a matcher anchored at the start. */
  datatype Matcher =
    | DelimiterRx   // ( or )
    | KeywordRx     // the keyword alternation
    | NullRx        // null
    | IntRx         // 0, or -?[1-9][0-9]*
    | FloatRx       // 0, or -?[1-9][0-9]*\.[0-9]*
    | StringRx      // "\w*"
    | BoolRx        // false, or true
    | IdentifierRx  // [a-z][a-zA-Z]*
    | BlankRx       // a single space
    | NewlineRx     // a single line feed

  datatype Rule = Rule(matcher: Matcher, category: Category)

  /** The rules in declaration order; the order decides ties. */
  const Rules: seq<Rule> := [
    Rule(DelimiterRx, Delimiter),
    Rule(KeywordRx, Keyword),
    Rule(NullRx, NullLit),
    Rule(IntRx, IntLit),
    Rule(FloatRx, FloatLit),
    Rule(StringRx, StringLit),
    Rule(BoolRx, BoolLit),
    Rule(IdentifierRx, Identifier),
    Rule(BlankRx, Space),
    Rule(NewlineRx, Space)
  ]

  /** The keyword alternatives in the order the pattern lists them (`lowercase` twice). */
  const Keywords: seq<string> := [
    "add", "set", "puts", "concat", "lowercase", "uppercase", "lowercase", "replace",
    "substring", "subtract", "multiply", "divide", "abs", "min", "gt", "lt",
    "equal", "not_equal"
  ]

  predicate IsLower(c: char) { 'a' <= c <= 'z' }
  predicate IsLetter(c: char) { IsLower(c) || 'A' <= c <= 'Z' }
  predicate IsNonZeroDigit(c: char) { '1' <= c <= '9' }
  /** The `\w` class: letters, digits and underscore. */
  predicate IsWordChar(c: char) { IsLetter(c) || Text.IsDigit(c) || c == '_' }

  /** `s` begins with `w`, compared character by character from the left. */
  predicate StartsWith(s: string, w: string) {
    |w| <= |s| && AgreeFrom(s, w, 0)
  }

  predicate AgreeFrom(s: string, w: string, i: nat)
    requires |w| <= |s|
    decreases |w| - i
  {
    i >= |w| || (s[i] == w[i] && AgreeFrom(s, w, i + 1))
  }

  /** Number of characters satisfying `p` from index `i` on, stopping at the first miss. */
  function Span(s: string, i: nat, p: char -> bool): (n: nat)
    requires i <= |s|
    ensures i + n <= |s|
    ensures forall k :: i <= k < i + n ==> p(s[k])
    ensures i + n < |s| ==> !p(s[i + n])
    decreases |s| - i
  {
    if i < |s| && p(s[i]) then 1 + Span(s, i + 1, p) else 0
  }

  /** Length of the first alternative among `words[k..]` that `s` starts with
      (the leftmost alternative that matches is the one a regex alternation takes). */
  function FirstWord(words: seq<string>, s: string, k: nat): (r: Option<nat>)
    requires k <= |words|
    ensures r.Some? <==> exists i :: k <= i < |words| && StartsWith(s, words[i])
    ensures r.Some? ==> exists i :: k <= i < |words| && StartsWith(s, words[i]) && r.value == |words[i]|
    decreases |words| - k
  {
    if k == |words| then None
    else if StartsWith(s, words[k]) then Some(|words[k]|)
    else FirstWord(words, s, k + 1)
  }

  /** Length of `-?[1-9][0-9]*` at the start of `s`. */
  function SignedNumeral(s: string): (r: Option<nat>)
    ensures r.Some? ==> 0 < r.value <= |s|
  {
    var sign := if |s| > 0 && s[0] == '-' then 1 else 0;
    if sign < |s| && IsNonZeroDigit(s[sign]) then Some(sign + 1 + Span(s, sign + 1, Text.IsDigit))
    else None
  }

  function DelimiterLen(s: string): Option<nat> {
    if |s| > 0 && (s[0] == '(' || s[0] == ')') then Some(1) else None
  }

  function KeywordLen(s: string): (r: Option<nat>)
    ensures r.Some? ==> 0 < r.value <= |s|
  {
    assert forall k :: 0 <= k < |Keywords| ==> |Keywords[k]| > 0;
    FirstWord(Keywords, s, 0)
  }

  function NullLen(s: string): Option<nat> {
    if StartsWith(s, "null") then Some(4) else None
  }

  /** `0`, or `-?[1-9][0-9]*`. */
  function IntLen(s: string): Option<nat> {
    if |s| > 0 && s[0] == '0' then Some(1) else SignedNumeral(s)
  }

  /** `0`, or `-?[1-9][0-9]*` followed by `.` and any digits. */
  function FloatLen(s: string): (r: Option<nat>)
    ensures r.Some? ==> 0 < r.value <= |s|
  {
    if |s| > 0 && s[0] == '0' then Some(1) else FractionLen(s)
  }

  /** Length of `-?[1-9][0-9]*\.[0-9]*` at the start of `s`. */
  function FractionLen(s: string): (r: Option<nat>)
    ensures r.Some? ==> 0 < r.value <= |s|
  {
    match SignedNumeral(s)
    case Some(n) => if n < |s| && s[n] == '.' then Some(n + 1 + Span(s, n + 1, Text.IsDigit)) else None
    case None => None
  }

  /** A double quote, any word characters, a double quote. */
  function StringLen(s: string): (r: Option<nat>)
    ensures r.Some? ==> 0 < r.value <= |s|
  {
    if |s| > 0 && s[0] == '"' then
      var n := Span(s, 1, IsWordChar);
      if 1 + n < |s| && s[1 + n] == '"' then Some(n + 2) else None
    else None
  }

  function BoolLen(s: string): Option<nat> {
    if StartsWith(s, "false") then Some(5) else if StartsWith(s, "true") then Some(4) else None
  }

  function IdentifierLen(s: string): (r: Option<nat>)
    ensures r.Some? ==> 0 < r.value <= |s|
  {
    if |s| > 0 && IsLower(s[0]) then Some(1 + Span(s, 1, IsLetter)) else None
  }

  function CharLen(s: string, c: char): Option<nat> {
    if |s| > 0 && s[0] == c then Some(1) else None
  }

  /** Length of the anchored match of `m` at the start of `s`, if any. */
  function MatchLen(m: Matcher, s: string): (r: Option<nat>)
    ensures r.Some? ==> 0 < r.value <= |s|
  {
    match m
    case DelimiterRx => DelimiterLen(s)
    case KeywordRx => KeywordLen(s)
    case NullRx => NullLen(s)
    case IntRx => IntLen(s)
    case FloatRx => FloatLen(s)
    case StringRx => StringLen(s)
    case BoolRx => BoolLen(s)
    case IdentifierRx => IdentifierLen(s)
    case BlankRx => CharLen(s, ' ')
    case NewlineRx => CharLen(s, '\n')
  }

  function RuleLen(rules: seq<Rule>, j: nat, s: string): Option<nat>
    requires j < |rules|
  {
    MatchLen(rules[j].matcher, s)
  }

  /** What each rule of `rules` matches at the start of `s`, in rule order. */
  function Lens(rules: seq<Rule>, s: string): (r: seq<Option<nat>>)
    ensures |r| == |rules|
    ensures forall j :: 0 <= j < |rules| ==> r[j] == RuleLen(rules, j, s)
  {
    seq(|rules|, j requires 0 <= j < |rules| => RuleLen(rules, j, s))
  }

  /** No rule of `rules` matches at the start of `s`. */
  predicate NoneMatch(rules: seq<Rule>, s: string) {
    forall j :: 0 <= j < |rules| ==> RuleLen(rules, j, s).None?
  }

  /** Rule `idx` matches `len` characters, no rule matches more, and every earlier rule
      matches strictly fewer. */
  predicate IsLongest(rules: seq<Rule>, s: string, idx: nat, len: nat) {
    && idx < |rules| && RuleLen(rules, idx, s) == Some(len)
    && (forall j :: 0 <= j < |rules| && RuleLen(rules, j, s).Some? ==> RuleLen(rules, j, s).value <= len)
    && (forall j :: 0 <= j < idx && RuleLen(rules, j, s).Some? ==> RuleLen(rules, j, s).value < len)
  }

  /** `IsLongest` restricted to the first `k` entries of a list of match lengths. */
  predicate LongestAmongFirst(lens: seq<Option<nat>>, k: nat, idx: nat, len: nat)
    requires k <= |lens|
  {
    && idx < k && lens[idx] == Some(len)
    && (forall j :: 0 <= j < k && lens[j].Some? ==> lens[j].value <= len)
    && (forall j :: 0 <= j < idx && lens[j].Some? ==> lens[j].value < len)
  }

  /** What the kept pair satisfies after the first `k` rules have been tried. */
  predicate Kept(lens: seq<Option<nat>>, k: nat, kept: Option<(nat, nat)>)
    requires k <= |lens|
  {
    && (kept.None? ==> forall j :: 0 <= j < k ==> lens[j].None?)
    && (kept.Some? ==> LongestAmongFirst(lens, k, kept.value.0, kept.value.1))
  }

  /** One iteration over rule `k`: keep its match only if strictly longer. */
  function Keep(lens: seq<Option<nat>>, k: nat, kept: Option<(nat, nat)>): Option<(nat, nat)>
    requires k < |lens|
  {
    var m := lens[k];
    if m.Some? && (kept.None? || m.value > kept.value.1) then Some((k, m.value)) else kept
  }

  lemma KeepStep(lens: seq<Option<nat>>, k: nat, kept: Option<(nat, nat)>)
    requires k < |lens| && Kept(lens, k, kept)
    ensures Kept(lens, k + 1, Keep(lens, k, kept))
  {
    var m := lens[k];
    if m.Some? && (kept.None? || m.value > kept.value.1) {
      forall j | 0 <= j < k + 1 && lens[j].Some?
        ensures lens[j].value <= m.value
      {
        if j < k {
          assert kept.Some? && lens[j].value <= kept.value.1;
        }
      }
    }
  }

  /** The loop over the rules from index `k` on, carrying the kept pair. */
  function LongestFrom(lens: seq<Option<nat>>, k: nat, kept: Option<(nat, nat)>): (r: Option<(nat, nat)>)
    requires k <= |lens| && Kept(lens, k, kept)
    ensures Kept(lens, |lens|, r)
    decreases |lens| - k
  {
    if k == |lens| then kept
    else
      KeepStep(lens, k, kept);
      LongestFrom(lens, k + 1, Keep(lens, k, kept))
  }

  /** The scan over the rule list: the index and length of the kept match. A later rule
      replaces the kept one only when its match is strictly longer, so the earliest of
      the longest matches is kept. */
  function Longest(rules: seq<Rule>, s: string): (r: Option<(nat, nat)>)
    ensures r.None? <==> NoneMatch(rules, s)
    ensures r.Some? ==> IsLongest(rules, s, r.value.0, r.value.1)
  {
    LongestFrom(Lens(rules, s), 0, None)
  }

  /** The categories a rule can produce: all but the error and end-of-input categories. */
  predicate RuleCategory(c: Category) {
    c != ErrorCat && c != EOF
  }

  /** `RuleCategory` names exactly the categories of the rule list. */
  lemma RuleCategoriesAreTheRules(c: Category)
    ensures RuleCategory(c) <==> exists j :: 0 <= j < |Rules| && Rules[j].category == c
  {
    if RuleCategory(c) {
      var j := match c
        case Delimiter => 0 case Keyword => 1 case NullLit => 2 case IntLit => 3
        case FloatLit => 4 case StringLit => 5 case BoolLit => 6 case Identifier => 7
        case _ => 8;
      assert Rules[j].category == c;
    }
  }

  /** The category and length the rule list chooses at the start of `s`. */
  function Winner(s: string): (r: Option<(Category, nat)>)
    ensures r.Some? ==> 0 < r.value.1 <= |s| && RuleCategory(r.value.0)
  {
    match Longest(Rules, s)
    case None => None
    case Some((j, n)) =>
      assert Rules[j].category == Rules[j].category;
      Some((Rules[j].category, n))
  }

  /** The text one step consumed and the category of the rule that won it. */
  datatype Lexeme = Lexeme(category: Category, text: string)

  datatype LexError = NoRuleMatches(offset: nat)

  /** `lexs` cut `s` into consecutive pieces: each text is the next stretch of the input. */
  predicate Tiles(lexs: seq<Lexeme>, s: string)
    decreases |lexs|
  {
    if |lexs| == 0 then s == []
    else
      |lexs[0].text| <= |s| && s[..|lexs[0].text|] == lexs[0].text
      && Tiles(lexs[1..], s[|lexs[0].text|..])
  }

  /** Along the cut, every piece is the winner at the position where it starts. */
  predicate WinsAlong(lexs: seq<Lexeme>, s: string)
    decreases |lexs|
  {
    if |lexs| == 0 then true
    else
      |lexs[0].text| <= |s| && Winner(s) == Some((lexs[0].category, |lexs[0].text|))
      && WinsAlong(lexs[1..], s[|lexs[0].text|..])
  }

  /** `lexs` is what the longest-match loop produces on `s`: each lexeme is the winner at
      the point reached, and the remaining input is what follows it. */
  predicate LexesAs(lexs: seq<Lexeme>, s: string) {
    Tiles(lexs, s) && WinsAlong(lexs, s)
  }

  function Concat(lexs: seq<Lexeme>): string {
    if |lexs| == 0 then [] else lexs[0].text + Concat(lexs[1..])
  }

  /** The scanning loop: repeatedly take the winner and cut it off the front; stop with an
      error at the first position where no rule matches. What it computes is stated by
      `ScanIsSound`, `ScanStopsWhereNoRuleMatches` and `ScanIsComplete`. */
  function Scan(s: string): (r: Result<seq<Lexeme>, LexError>)
    ensures r.Failure? ==> r.error.offset < |s|
    decreases |s|
  {
    if s == [] then Success([])
    else match Winner(s)
      case None => Failure(NoRuleMatches(0))
      case Some((c, n)) =>
        match Scan(s[n..])
        case Failure(NoRuleMatches(off)) => Failure(NoRuleMatches(n + off))
        case Success(rest) => Success([Lexeme(c, s[..n])] + rest)
  }

  /** A successful scan is a longest-match reading of the input. */
  lemma {:induction false} ScanIsSound(s: string)
    requires Scan(s).Success?
    ensures LexesAs(Scan(s).value, s)
    decreases |s|
  {
    if s != [] {
      var (c, n) := Winner(s).value;
      ScanIsSound(s[n..]);
      ScanStep(s, c, n, Scan(s[n..]).value);
    }
  }

  /** A failed scan reports a position inside the input at which no rule matches. */
  lemma {:induction false} ScanStopsWhereNoRuleMatches(s: string)
    requires Scan(s).Failure?
    ensures Winner(s[Scan(s).error.offset..]).None?
    decreases |s|
  {
    var off := Scan(s).error.offset;
    if Winner(s).None? {
      assert off == 0 && s[off..] == s;
    } else {
      var n := Winner(s).value.1;
      ScanFailureShifts(s, n);
      var rest := s[n..];
      ScanStopsWhereNoRuleMatches(rest);
      assert rest[off - n..] == s[off..];
    }
  }

  /** A failure after the first winner is reported at its offset in the whole input. */
  lemma ScanFailureShifts(s: string, n: nat)
    requires Scan(s).Failure? && Winner(s).Some? && Winner(s).value.1 == n
    ensures Scan(s[n..]).Failure? && Scan(s).error.offset == n + Scan(s[n..]).error.offset
  {
  }

  lemma {:induction false} ScanStep(s: string, c: Category, n: nat, rest: seq<Lexeme>)
    requires s != [] && Winner(s) == Some((c, n))
    requires Tiles(rest, s[n..]) && WinsAlong(rest, s[n..])
    ensures Tiles([Lexeme(c, s[..n])] + rest, s) && WinsAlong([Lexeme(c, s[..n])] + rest, s)
  {
    var lexs := [Lexeme(c, s[..n])] + rest;
    assert lexs[1..] == rest;
  }

  /** Every winner comes from a rule, so no lexeme is an error or end-of-input lexeme. */
  lemma {:induction false} WinnersAreRuleCategories(lexs: seq<Lexeme>, s: string)
    requires WinsAlong(lexs, s)
    ensures forall k :: 0 <= k < |lexs| ==> RuleCategory(lexs[k].category)
    decreases |lexs|
  {
    if |lexs| > 0 {
      WinnersAreRuleCategories(lexs[1..], s[|lexs[0].text|..]);
      forall k | 0 <= k < |lexs| ensures RuleCategory(lexs[k].category) {
        if k > 0 {
          assert lexs[k] == lexs[1..][k - 1];
        }
      }
    }
  }

  /** The consumed lexemes, concatenated in order, give back the input. */
  lemma {:induction false} LexemesCoverInput(lexs: seq<Lexeme>, s: string)
    requires Tiles(lexs, s)
    ensures Concat(lexs) == s
    decreases |lexs|
  {
    if |lexs| > 0 {
      var n := |lexs[0].text|;
      LexemesCoverInput(lexs[1..], s[n..]);
      assert Concat(lexs) == lexs[0].text + Concat(lexs[1..]);
      assert s == s[..n] + s[n..];
    } else {
      assert s == [];
    }
  }

  /** The first step of a longest-match reading and the reading of what follows it. */
  lemma LexesAsHead(lexs: seq<Lexeme>, s: string)
    requires LexesAs(lexs, s) && |lexs| > 0
    ensures s != [] && Winner(s) == Some((lexs[0].category, |lexs[0].text|))
    ensures s[..|lexs[0].text|] == lexs[0].text
    ensures LexesAs(lexs[1..], s[|lexs[0].text|..])
  {
  }

  /** One turn of the scanning loop once the rest of the input has been scanned. */
  lemma ScanUnfolds(s: string, c: Category, n: nat)
    requires s != [] && Winner(s) == Some((c, n)) && Scan(s[n..]).Success?
    ensures Scan(s) == Success([Lexeme(c, s[..n])] + Scan(s[n..]).value)
  {
  }

  /** The longest-match reading of an input is unique, and `Scan` finds it. */
  lemma {:induction false} ScanIsComplete(lexs: seq<Lexeme>, s: string)
    requires LexesAs(lexs, s)
    ensures Scan(s) == Success(lexs)
    decreases |lexs|
  {
    if |lexs| > 0 {
      var n := |lexs[0].text|;
      LexesAsHead(lexs, s);
      ScanIsComplete(lexs[1..], s[n..]);
      ScanUnfolds(s, lexs[0].category, n);
      assert lexs[0] == Lexeme(lexs[0].category, s[..n]);
      assert [lexs[0]] + lexs[1..] == lexs;
    }
  }

  /** The `token_creator` call each winning category leads to: placeholder payloads for
      numbers, `lexeme == "true"` for booleans, nothing for spaces and `null`, and the
      lexeme itself for everything else. */
  function MakeToken(l: Lexeme): (r: Result<Token, CreateError>)
    ensures r.Success? <==> l.category != EOF
    ensures r.Success? ==> r.value.category == l.category && WellFormed(r.value) && r.value.position == 0
  {
    NameTableIsBijective();
    var name := TypeName(l.category);
    if l.category == IntLit then CreateInt(name, 1, 0)
    else if l.category == BoolLit then CreateBool(name, l.text == "true", 0)
    else if l.category == FloatLit then CreateFloat(name, 1.0, 0)
    else if l.category == Space || l.category == NullLit then CreateEmpty(name, 0)
    else CreateText(name, l.text, 0)
  }

  /** The payload a token built from lexeme `l` carries; number payloads are placeholders
      and are left unconstrained. */
  predicate CarriesLexeme(l: Lexeme, t: Token) {
    t.category == l.category && WellFormed(t)
    && match l.category
       case BoolLit => t.payload == Bool(l.text == "true")
       case Space | NullLit => t.payload == NoPayload
       case Keyword | Identifier | StringLit | Delimiter => t.payload == Text(l.text)
       case _ => true
  }

  lemma MakeTokenSucceeds(l: Lexeme)
    requires RuleCategory(l.category)
    ensures MakeToken(l).Success? && CarriesLexeme(l, MakeToken(l).value)
  {
    NameTableIsBijective();
  }

  function MakeTokens(lexs: seq<Lexeme>): (r: seq<Token>)
    requires forall k :: 0 <= k < |lexs| ==> RuleCategory(lexs[k].category)
    ensures |r| == |lexs|
    ensures forall k :: 0 <= k < |lexs| ==> CarriesLexeme(lexs[k], r[k])
  {
    if |lexs| == 0 then []
    else
      MakeTokenSucceeds(lexs[0]);
      [MakeToken(lexs[0]).value] + MakeTokens(lexs[1..])
  }

  const EOFToken: Token := Token(EOF, NoPayload, 0)

  /** `Lexer::run`: the tokens of every lexeme, then one end-of-input token. */
  function Run(s: string): (r: Result<seq<Token>, LexError>)
    ensures r.Success? <==> Scan(s).Success?
    ensures r.Failure? ==> r.error == Scan(s).error
    ensures r.Success? ==>
      |r.value| == |Scan(s).value| + 1
      && (forall k :: 0 <= k < |Scan(s).value| ==> CarriesLexeme(Scan(s).value[k], r.value[k]))
      && r.value[|r.value| - 1] == EOFToken
    ensures s == [] ==> r == Success([EOFToken])
  {
    match Scan(s)
    case Failure(e) => Failure(e)
    case Success(lexs) =>
      ScanIsSound(s);
      WinnersAreRuleCategories(lexs, s);
      assert CreateEmpty("EOFToken", 0).value == EOFToken;
      assert s == [] ==> lexs == [] && MakeTokens(lexs) + [EOFToken] == [EOFToken];
      Success(MakeTokens(lexs) + [CreateEmpty("EOFToken", 0).value])
  }

  /** Lexer output ends with exactly one end-of-input token. */
  lemma RunEndsWithSingleEOF(s: string)
    requires Run(s).Success?
    ensures var toks := Run(s).value;
      |toks| > 0 && toks[|toks| - 1].category == EOF
      && forall k :: 0 <= k < |toks| - 1 ==> toks[k].category != EOF
  {
    var toks := Run(s).value;
    var lexs := Scan(s).value;
    ScanIsSound(s);
    WinnersAreRuleCategories(lexs, s);
    forall k | 0 <= k < |toks| - 1 ensures toks[k].category != EOF {
      assert CarriesLexeme(lexs[k], toks[k]);
      assert RuleCategory(lexs[k].category);
    }
  }

  /** A rule never wins against an earlier rule whose match is at least as long. */
  lemma EarlierRuleWinsTies(s: string, i: nat, j: nat)
    requires i < j < |Rules|
    requires RuleLen(Rules, i, s).Some? && RuleLen(Rules, j, s).Some?
    requires RuleLen(Rules, j, s).value <= RuleLen(Rules, i, s).value
    ensures Longest(Rules, s).Some? && Longest(Rules, s).value.0 != j
  {
  }

  /** Two rule/length pairs that both satisfy `IsLongest` are the same pair. */
  lemma LongestIsUnique(rules: seq<Rule>, s: string, i: nat, n: nat, idx: nat, len: nat)
    requires IsLongest(rules, s, i, n) && IsLongest(rules, s, idx, len)
    ensures i == idx && n == len
  {
  }

  /** The winner is the earliest among the longest-matching rules. */
  lemma WinnerIsEarliestLongest(s: string, idx: nat, len: nat)
    requires IsLongest(Rules, s, idx, len)
    ensures Winner(s) == Some((Rules[idx].category, len))
  {
    LongestIsUnique(Rules, s, Longest(Rules, s).value.0, Longest(Rules, s).value.1, idx, len);
  }

  /** The winner read off a concrete list of per-rule match lengths. */
  lemma WinnerFromLens(s: string, lens: seq<Option<nat>>, idx: nat, len: nat)
    requires Lens(Rules, s) == lens && LongestAmongFirst(lens, |lens|, idx, len)
    ensures Winner(s) == Some((Rules[idx].category, len))
  {
    WinnerIsEarliestLongest(s, idx, len);
  }

  lemma LensOfAdd()
    ensures Lens(Rules, "add") == [None, Some(3), None, None, None, None, None, Some(3), None, None]
  {
  }

  /** `add` is a keyword: the keyword rule ties with the identifier rule and comes first. */
  lemma AddIsKeyword()
    ensures Winner("add") == Some((Keyword, 3))
  {
    LensOfAdd();
    WinnerFromLens("add", [None, Some(3), None, None, None, None, None, Some(3), None, None], 1, 3);
  }

  lemma LensOfAdds()
    ensures Lens(Rules, "adds") == [None, Some(3), None, None, None, None, None, Some(4), None, None]
  {
  }

  /** `adds` is an identifier: its identifier match is longer than the keyword `add`. */
  lemma LongerWordIsIdentifier()
    ensures Winner("adds") == Some((Identifier, 4))
  {
    LensOfAdds();
    WinnerFromLens("adds", [None, Some(3), None, None, None, None, None, Some(4), None, None], 7, 4);
  }

  lemma LensOfNull()
    ensures Lens(Rules, "null") == [None, None, Some(4), None, None, None, None, Some(4), None, None]
  {
    assert forall i :: 0 <= i < |Keywords| ==> !StartsWith("null", Keywords[i]);
  }

  /** `null` is a null literal: the null rule precedes the identifier rule. */
  lemma NullIsNullLiteral()
    ensures Winner("null") == Some((NullLit, 4))
  {
    LensOfNull();
    WinnerFromLens("null", [None, None, Some(4), None, None, None, None, Some(4), None, None], 2, 4);
  }

  lemma LensOfTrue()
    ensures Lens(Rules, "true") == [None, None, None, None, None, None, Some(4), Some(4), None, None]
  {
    assert forall i :: 0 <= i < |Keywords| ==> !StartsWith("true", Keywords[i]);
  }

  /** `true` is a boolean literal: the boolean rule precedes the identifier rule. */
  lemma TrueIsBoolLiteral()
    ensures Winner("true") == Some((BoolLit, 4))
  {
    LensOfTrue();
    WinnerFromLens("true", [None, None, None, None, None, None, Some(4), Some(4), None, None], 6, 4);
  }

  lemma LensOfFalse()
    ensures Lens(Rules, "false") == [None, None, None, None, None, None, Some(5), Some(5), None, None]
  {
    assert forall i :: 0 <= i < |Keywords| ==> !StartsWith("false", Keywords[i]);
  }

  /** `false` is a boolean literal for the same reason. */
  lemma FalseIsBoolLiteral()
    ensures Winner("false") == Some((BoolLit, 5))
  {
    LensOfFalse();
    WinnerFromLens("false", [None, None, None, None, None, None, Some(5), Some(5), None, None], 6, 5);
  }

  lemma LensOfStr()
    ensures Lens(Rules, "str") == [None, None, None, None, None, None, None, Some(3), None, None]
  {
    assert forall i :: 0 <= i < |Keywords| ==> !StartsWith("str", Keywords[i]);
  }

  /** `str` is missing from the keyword pattern, so it lexes as an identifier. */
  lemma StrIsIdentifier()
    ensures Winner("str") == Some((Identifier, 3))
  {
    LensOfStr();
    WinnerFromLens("str", [None, None, None, None, None, None, None, Some(3), None, None], 7, 3);
  }

  lemma LensOfMax()
    ensures Lens(Rules, "max") == [None, None, None, None, None, None, None, Some(3), None, None]
  {
    assert forall i :: 0 <= i < |Keywords| ==> !StartsWith("max", Keywords[i]);
  }

  /** `max` is missing from the keyword pattern, so it lexes as an identifier. */
  lemma MaxIsIdentifier()
    ensures Winner("max") == Some((Identifier, 3))
  {
    LensOfMax();
    WinnerFromLens("max", [None, None, None, None, None, None, None, Some(3), None, None], 7, 3);
  }
  // The patterns as written. In `^(0)|(-?[1-9][0-9]*)`, `^(0)|(...)\.([0-9]*)` and
  // `^(false)|(true)` the anchor binds only the first alternative, so `regex_search`
  // finds the second one wherever it first occurs in the remaining input, and the loop
  // then cuts that match's length off the front.

  /** The unanchored second alternatives of the int, float and bool patterns. */
  datatype Alternative = NumeralAlt | FractionAlt | TrueAlt

  function AlternativeLen(a: Alternative, s: string): (r: Option<nat>)
    ensures r.Some? ==> 0 < r.value <= |s|
  {
    match a
    case NumeralAlt => SignedNumeral(s)
    case FractionAlt => FractionLen(s)
    case TrueAlt => if StartsWith(s, "true") then Some(4) else None
  }

  /** `regex_search` for an unanchored alternative: the length of its leftmost match at or
      after position `p`, wherever that match starts. */
  function SearchLen(a: Alternative, s: string, p: nat): (r: Option<nat>)
    requires p <= |s|
    ensures r.Some? ==> 0 < r.value <= |s| - p
    ensures r.Some? <==> exists q :: p <= q <= |s| && AlternativeLen(a, s[q..]).Some?
    decreases |s| - p
  {
    if AlternativeLen(a, s[p..]).Some? then AlternativeLen(a, s[p..])
    else if p == |s| then None
    else
      var r := SearchLen(a, s, p + 1);
      assert forall q :: p <= q <= |s| && AlternativeLen(a, s[q..]).Some? ==> p + 1 <= q;
      r
  }

  /** The match length `regex_search` reports for each pattern as written. */
  function MatchLenAsWritten(m: Matcher, s: string): (r: Option<nat>)
    ensures r.Some? ==> 0 < r.value <= |s|
    ensures m !in {IntRx, FloatRx, BoolRx} ==> r == MatchLen(m, s)
  {
    match m
    case IntRx => if |s| > 0 && s[0] == '0' then Some(1) else SearchLen(NumeralAlt, s, 0)
    case FloatRx => if |s| > 0 && s[0] == '0' then Some(1) else SearchLen(FractionAlt, s, 0)
    case BoolRx => if StartsWith(s, "false") then Some(5) else SearchLen(TrueAlt, s, 0)
    case _ => MatchLen(m, s)
  }

  /** An anchored match is also what the search reports: the two readings differ only
      where the search finds the second alternative further on. */
  lemma {:induction false} AnchoredMatchIsFound(m: Matcher, s: string)
    requires MatchLen(m, s).Some?
    ensures MatchLenAsWritten(m, s) == MatchLen(m, s)
  {
    assert s[0..] == s;
  }

  function LensAsWritten(s: string): (r: seq<Option<nat>>)
    ensures |r| == |Rules|
    ensures forall j :: 0 <= j < |Rules| ==> r[j] == MatchLenAsWritten(Rules[j].matcher, s)
  {
    seq(|Rules|, j requires 0 <= j < |Rules| => MatchLenAsWritten(Rules[j].matcher, s))
  }

  /** One turn of `Lexer::run` as written: the category and the number of characters
      cut off the front. */
  function WinnerAsWritten(s: string): (r: Option<(Category, nat)>)
    ensures r.Some? ==> 0 < r.value.1 <= |s|
    ensures r.None? <==> forall j :: 0 <= j < |Rules| ==> MatchLenAsWritten(Rules[j].matcher, s).None?
  {
    var lens := LensAsWritten(s);
    match LongestFrom(lens, 0, None)
    case None => None
    case Some((j, n)) =>
      assert lens[j] == Some(n);
      Some((Rules[j].category, n))
  }

  lemma WinnerAsWrittenFromLens(s: string, lens: seq<Option<nat>>, idx: nat, len: nat)
    requires LensAsWritten(s) == lens && LongestAmongFirst(lens, |lens|, idx, len)
    ensures WinnerAsWritten(s) == Some((Rules[idx].category, len))
  {
    var r := LongestFrom(lens, 0, None);
    assert r.Some?;
    var (i, n) := r.value;
    assert LongestAmongFirst(lens, |lens|, i, n);
    assert n == len && i == idx;
  }

  /** The characters of `x true`, spelled out one by one. */
  predicate IsXTrue(s: string) {
    |s| == 6 && s[0] == 'x' && s[1] == ' '
    && s[2] == 't' && s[3] == 'r' && s[4] == 'u' && s[5] == 'e'
  }

  /** Text does not start with a word whose first character differs from its own. */
  lemma FirstCharMismatch(s: string, w: string)
    requires |s| > 0 && |w| > 0 && s[0] != w[0]
    ensures !StartsWith(s, w)
  {
  }

  /** No keyword starts with `x`. */
  lemma NoKeywordStartsWithX(s: string)
    requires |s| > 0 && s[0] == 'x'
    ensures KeywordLen(s).None?
  {
    KeywordInitials();
    forall i | 0 <= i < |Keywords| ensures !StartsWith(s, Keywords[i]) {
      FirstCharMismatch(s, Keywords[i]);
    }
  }

  lemma KeywordInitials()
    ensures forall i :: 0 <= i < |Keywords| ==> |Keywords[i]| > 0 && Keywords[i][0] != 'x'
  {
  }

  /** Text without a non-zero digit holds no numeral and no fraction anywhere. */
  lemma NoNonZeroDigitNoNumber(s: string)
    requires forall i :: 0 <= i < |s| ==> !IsNonZeroDigit(s[i])
    ensures SearchLen(NumeralAlt, s, 0).None? && SearchLen(FractionAlt, s, 0).None?
  {
    forall q | 0 <= q <= |s|
      ensures AlternativeLen(NumeralAlt, s[q..]).None? && AlternativeLen(FractionAlt, s[q..]).None?
    {
      var t := s[q..];
      if |t| > 0 {
        assert t[0] == s[q];
        if |t| > 1 { assert t[1] == s[q + 1]; }
      }
    }
  }

  /** What the anchored rules match on `x true`: the `x` alone. */
  lemma AnchoredLensOfXTrue(s: string)
    requires IsXTrue(s)
    ensures Lens(Rules, s) == [None, None, None, None, None, None, None, Some(1), None, None]
  {
    NoKeywordStartsWithX(s);
    FirstCharMismatch(s, "null");
    FirstCharMismatch(s, "false");
    FirstCharMismatch(s, "true");
    assert Span(s, 1, IsLetter) == 0;
  }

  /** `true` at the start of text that begins with it. */
  lemma StartsWithTrue(t: string)
    requires |t| == 4 && t[0] == 't' && t[1] == 'r' && t[2] == 'u' && t[3] == 'e'
    ensures StartsWith(t, "true")
  {
    assert AgreeFrom(t, "true", 4);
    assert AgreeFrom(t, "true", 3);
    assert AgreeFrom(t, "true", 2);
    assert AgreeFrom(t, "true", 1);
  }

  /** The searching rules on `x true`: no number anywhere, and `true` two characters on. */
  lemma SearchesOnXTrue(s: string)
    requires IsXTrue(s)
    ensures MatchLenAsWritten(IntRx, s).None? && MatchLenAsWritten(FloatRx, s).None?
    ensures MatchLenAsWritten(BoolRx, s) == Some(4)
  {
    NoNonZeroDigitNoNumber(s);
    FirstCharMismatch(s, "false");
    StartsWithTrue(s[2..]);
    assert SearchLen(TrueAlt, s, 2) == Some(4);
    FirstCharMismatch(s[1..], "true");
    assert SearchLen(TrueAlt, s, 1) == Some(4);
    FirstCharMismatch(s, "true");
    assert s[0..] == s;
  }

  /** Outside the int, float and bool rules, both readings give the same lengths. */
  lemma LensAsWrittenAgree(s: string, j: nat)
    requires j < |Rules| && j != 3 && j != 4 && j != 6
    ensures LensAsWritten(s)[j] == Lens(Rules, s)[j]
  {
    assert Rules[j].matcher !in {IntRx, FloatRx, BoolRx};
  }

  lemma LensAsWrittenOfXTrue(s: string)
    requires IsXTrue(s)
    ensures LensAsWritten(s) == [None, None, None, None, None, None, Some(4), Some(1), None, None]
  {
    AnchoredLensOfXTrue(s);
    LensAsWrittenAgree(s, 0);
    LensAsWrittenAgree(s, 1);
    LensAsWrittenAgree(s, 2);
    LensAsWrittenAgree(s, 5);
    LensAsWrittenAgree(s, 7);
    LensAsWrittenAgree(s, 8);
    LensAsWrittenAgree(s, 9);
    SearchesOnXTrue(s);
  }

  /** As written, `x true` does not start with the identifier `x`: the boolean pattern
      finds `true` two characters on, its four characters beat the identifier's one, and
      the first lexeme becomes the boolean `x tr`. */
  lemma AsWrittenCutsBooleanFromIdentifier(s: string)
    requires IsXTrue(s)
    ensures WinnerAsWritten(s) == Some((BoolLit, 4))
  {
    var lens := [None, None, None, None, None, None, Some(4), Some(1), None, None];
    LensAsWrittenOfXTrue(s);
    BooleanMatchIsLongest(lens);
    WinnerAsWrittenFromLens(s, lens, 6, 4);
  }

  lemma BooleanMatchIsLongest(lens: seq<Option<nat>>)
    requires lens == [None, None, None, None, None, None, Some(4), Some(1), None, None]
    ensures LongestAmongFirst(lens, |lens|, 6, 4)
  {
  }

  /** With every pattern anchored, `x true` starts with the identifier `x`. */
  lemma XTrueStartsWithIdentifier(s: string)
    requires IsXTrue(s)
    ensures Winner(s) == Some((Identifier, 1))
  {
    AnchoredLensOfXTrue(s);
    WinnerFromLens(s, [None, None, None, None, None, None, None, Some(1), None, None], 7, 1);
  }

  /** The characters of ` 1 2)`, spelled out one by one: what is left of `(add 1 2)` once
      `(add` has been cut off. */
  predicate IsSpacedDigits(s: string) {
    |s| == 5 && s[0] == ' ' && s[1] == '1' && s[2] == ' ' && s[3] == '2' && s[4] == ')'
  }

  /** Every keyword begins with a small letter. */
  lemma KeywordsStartLower()
    ensures forall i :: 0 <= i < |Keywords| ==> |Keywords[i]| > 0 && IsLower(Keywords[i][0])
  {
  }

  /** No keyword starts text whose first character is not a small letter. */
  lemma NoKeywordStartsWithNonLower(s: string)
    requires |s| > 0 && !IsLower(s[0])
    ensures KeywordLen(s).None?
  {
    KeywordsStartLower();
    forall i | 0 <= i < |Keywords| ensures !StartsWith(s, Keywords[i]) {
      FirstCharMismatch(s, Keywords[i]);
    }
  }

  /** Text without a `.` holds no fraction anywhere. */
  lemma NoDotNoFraction(s: string)
    requires forall i :: 0 <= i < |s| ==> s[i] != '.'
    ensures SearchLen(FractionAlt, s, 0).None?
  {
    forall q | 0 <= q <= |s| ensures AlternativeLen(FractionAlt, s[q..]).None? {
      var t := s[q..];
      match SignedNumeral(t)
      case Some(n) =>
        if n < |t| { assert t[n] == s[q + n]; }
      case None =>
    }
  }

  /** Text without a `t` holds no `true` anywhere. */
  lemma NoTNoTrue(s: string)
    requires forall i :: 0 <= i < |s| ==> s[i] != 't'
    ensures SearchLen(TrueAlt, s, 0).None?
  {
    forall q | 0 <= q <= |s| ensures AlternativeLen(TrueAlt, s[q..]).None? {
      var t := s[q..];
      if |t| > 0 {
        assert t[0] == s[q];
        FirstCharMismatch(t, "true");
      }
    }
  }

  /** What the anchored rules match on ` 1 2)`: the blank alone. */
  lemma AnchoredLensOfSpacedDigits(s: string)
    requires IsSpacedDigits(s)
    ensures Lens(Rules, s) == [None, None, None, None, None, None, None, None, Some(1), None]
  {
    NoKeywordStartsWithNonLower(s);
    FirstCharMismatch(s, "null");
    FirstCharMismatch(s, "false");
    FirstCharMismatch(s, "true");
  }

  /** The searching rules on ` 1 2)`: the numeral `1` one character on, no fraction and no
      boolean anywhere. */
  lemma SearchesOnSpacedDigits(s: string)
    requires IsSpacedDigits(s)
    ensures MatchLenAsWritten(IntRx, s) == Some(1)
    ensures MatchLenAsWritten(FloatRx, s).None? && MatchLenAsWritten(BoolRx, s).None?
  {
    var t := s[1..];
    assert t[0] == '1' && t[1] == ' ';
    assert SignedNumeral(t) == Some(1);
    assert SearchLen(NumeralAlt, s, 1) == Some(1);
    assert s[0..] == s;
    NoDotNoFraction(s);
    NoTNoTrue(s);
    FirstCharMismatch(s, "false");
  }

  lemma LensAsWrittenOfSpacedDigits(s: string)
    requires IsSpacedDigits(s)
    ensures LensAsWritten(s) == [None, None, None, Some(1), None, None, None, None, Some(1), None]
  {
    AnchoredLensOfSpacedDigits(s);
    LensAsWrittenAgree(s, 0);
    LensAsWrittenAgree(s, 1);
    LensAsWrittenAgree(s, 2);
    LensAsWrittenAgree(s, 5);
    LensAsWrittenAgree(s, 7);
    LensAsWrittenAgree(s, 8);
    LensAsWrittenAgree(s, 9);
    SearchesOnSpacedDigits(s);
  }

  lemma NumeralTiesBlank(lens: seq<Option<nat>>)
    requires lens == [None, None, None, Some(1), None, None, None, None, Some(1), None]
    ensures LongestAmongFirst(lens, |lens|, 3, 1)
  {
  }

  /** As written, the blank before a digit becomes an int lexeme: the int pattern finds `1`
      one character on, its length 1 ties the blank's, and the int rule comes first. So
      `(add 1 2)` lexes as `(`, `add`, then four int tokens, then `)`. */
  lemma AsWrittenLexesBlankAsInt(s: string)
    requires IsSpacedDigits(s)
    ensures WinnerAsWritten(s) == Some((IntLit, 1))
  {
    var lens := [None, None, None, Some(1), None, None, None, None, Some(1), None];
    LensAsWrittenOfSpacedDigits(s);
    NumeralTiesBlank(lens);
    WinnerAsWrittenFromLens(s, lens, 3, 1);
  }

  lemma BlankWinsAlone(lens: seq<Option<nat>>)
    requires lens == [None, None, None, None, None, None, None, None, Some(1), None]
    ensures LongestAmongFirst(lens, |lens|, 8, 1)
  {
  }

  /** With every pattern anchored, the blank before a digit is a space lexeme. */
  lemma BlankBeforeDigitIsSpace(s: string)
    requires IsSpacedDigits(s)
    ensures Winner(s) == Some((Space, 1))
  {
    var lens := [None, None, None, None, None, None, None, None, Some(1), None];
    AnchoredLensOfSpacedDigits(s);
    BlankWinsAlone(lens);
    WinnerFromLens(s, lens, 8, 1);
  }
}
