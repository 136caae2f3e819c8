/** The lexical categories of the scripting language and, for each, the set of source
    lexemes it matches. The tokenizer library that scans text (longest match, priority
    between overlapping patterns) is not modelled; what is modelled is, per category,
    the regular pattern as a predicate on the lexeme and the value the token carries. */
module Tokens {
  import opened Results

  datatype Token<N> =
    // keywords, matched case-insensitively
    | KeywordGlobal | KeywordFn | KeywordSpeak | KeywordInput
    | KeywordIf | KeywordExit | KeywordLoop
    // single-character punctuation
    | LParen | RParen | Assign | Semicolon | LBracket | RBracket
    // single-character operators
    | OperatorAdd | OperatorSub | OperatorMul | OperatorDiv
    // literals
    | Identifier(name: string)
    | Number(value: N)
    | StringContent(content: string)
    // any input no other pattern matches
    | Error

  /** The lower-case spelling of a keyword token; `None` for every other token. */
  function KeywordText<N>(t: Token<N>): Option<string> {
    match t
    case KeywordGlobal => Some("global")
    case KeywordFn => Some("fn")
    case KeywordSpeak => Some("speak")
    case KeywordInput => Some("input")
    case KeywordIf => Some("if")
    case KeywordExit => Some("exit")
    case KeywordLoop => Some("loop")
    case _ => None
  }

  /** The one fixed character of a punctuation or operator token; `None` otherwise. */
  function FixedText<N>(t: Token<N>): Option<char> {
    match t
    case LParen => Some('(')
    case RParen => Some(')')
    case Assign => Some('=')
    case Semicolon => Some(';')
    case LBracket => Some('{')
    case RBracket => Some('}')
    case OperatorAdd => Some('+')
    case OperatorSub => Some('-')
    case OperatorMul => Some('*')
    case OperatorDiv => Some('/')
    case _ => None
  }

  predicate IsAsciiLetter(c: char) {
    'a' <= c <= 'z' || 'A' <= c <= 'Z'
  }

  predicate IsDigit(c: char) {
    '0' <= c <= '9'
  }

  predicate AllDigits(s: string) {
    forall i :: 0 <= i < |s| ==> IsDigit(s[i])
  }

  /** ASCII case folding: upper-case letters map to lower case, everything else is kept. */
  function FoldCase(c: char): char {
    if 'A' <= c <= 'Z' then (c as int + 32) as char else c
  }

  function FoldCaseString(s: string): (r: string)
    ensures |r| == |s|
    ensures forall i :: 0 <= i < |s| ==> r[i] == FoldCase(s[i])
  {
    seq(|s|, i requires 0 <= i < |s| => FoldCase(s[i]))
  }

  /** `(?i)kw`: the lexeme spells the lower-case keyword `kw` in any mix of cases. */
  predicate MatchesKeyword(s: string, kw: string) {
    |s| == |kw| && forall i :: 0 <= i < |s| ==> FoldCase(s[i]) == kw[i]
  }

  /** `[_a-zA-Z][_0-9a-zA-Z]*` */
  predicate IsIdentifier(s: string) {
    && |s| >= 1
    && (s[0] == '_' || IsAsciiLetter(s[0]))
    && forall i :: 1 <= i < |s| ==> s[i] == '_' || IsAsciiLetter(s[i]) || IsDigit(s[i])
  }

  /** `[0-9]+\.[0-9]+`: digits, one dot, digits; `dot` is the position of the dot. */
  predicate IsNumberAt(s: string, dot: int) {
    && 1 <= dot < |s| - 1
    && s[dot] == '.'
    && AllDigits(s[..dot])
    && AllDigits(s[dot + 1..])
  }

  predicate IsNumberLexeme(s: string) {
    exists dot | 0 <= dot < |s| :: IsNumberAt(s, dot)
  }

  /** `"[^"]*"`: a double quote, any characters but the double quote, a double quote. */
  predicate IsStringLexeme(s: string) {
    && |s| >= 2
    && s[0] == '"'
    && s[|s| - 1] == '"'
    && forall i :: 1 <= i < |s| - 1 ==> s[i] != '"'
  }

  /** The five characters of the whitespace skip rule `[ \t\n\f\r]+`. */
  predicate IsBlank(c: char) {
    c == ' ' || c == '\t' || c == '\n' || c == '\U{000C}' || c == '\r'
  }

  predicate IsBlankRun(s: string) {
    |s| >= 1 && forall i :: 0 <= i < |s| ==> IsBlank(s[i])
  }

  /** `#.*\n?`: a hash, then anything up to and including an optional final newline. */
  predicate IsComment(s: string) {
    && |s| >= 1
    && s[0] == '#'
    && forall i :: 1 <= i < |s| - 1 ==> s[i] != '\n'
  }

  /** Lexemes the tokenizer discards without producing a token. */
  predicate IsSkip(s: string) {
    IsBlankRun(s) || IsComment(s)
  }

  predicate IsKeywordLexeme(s: string) {
    || MatchesKeyword(s, "global") || MatchesKeyword(s, "fn")
    || MatchesKeyword(s, "speak") || MatchesKeyword(s, "input")
    || MatchesKeyword(s, "if") || MatchesKeyword(s, "exit")
    || MatchesKeyword(s, "loop")
  }

  predicate IsFixedLexeme(s: string) {
    |s| == 1 && s[0] in "()=;{}+-*/"
  }

  /** The content of a string literal: the lexeme without its first and last character. */
  function StripQuotes(s: string): (r: string)
    requires IsStringLexeme(s)
    ensures |r| == |s| - 2
    ensures '"' !in r
    ensures Quote(r) == s
  {
    s[1..|s| - 1]
  }

  /** The lexeme of a string literal with the given content. */
  function Quote(content: string): string {
    "\"" + content + "\""
  }

  /** `Lexeme(t, s, parse)`: `s` is a source lexeme that the pattern of `t` matches and
      `t` carries the value the pattern's callback computes from `s`. `parse` is the
      number parser applied to a `Number` lexeme. A number lexeme the parser rejects is
      the error token, as a failing callback is. */
  ghost predicate Lexeme<N>(t: Token<N>, s: string, parse: string -> Option<N>) {
    if KeywordText(t).Some? then MatchesKeyword(s, KeywordText(t).value)
    else if FixedText(t).Some? then s == [FixedText(t).value]
    else match t
      case Identifier(name) => IsIdentifier(s) && name == s
      case Number(v) => IsNumberLexeme(s) && parse(s) == Some(v)
      case StringContent(c) => IsStringLexeme(s) && c == StripQuotes(s)
      case Error =>
        && |s| >= 1 && !IsSkip(s) && !IsKeywordLexeme(s) && !IsFixedLexeme(s)
        && !IsIdentifier(s) && (!IsNumberLexeme(s) || parse(s).None?) && !IsStringLexeme(s)
      case _ => false
  }

  // ---------------------------------------------------------------- properties

  /** A keyword is recognised whatever the case of its letters: a lexeme matches exactly
      when its ASCII case folding is the keyword's lower-case spelling, and two spellings
      that fold alike are both lexemes of the keyword or neither is. */
  lemma KeywordIgnoresCase<N>(t: Token<N>, s: string, s': string, parse: string -> Option<N>)
    requires KeywordText(t).Some?
    requires FoldCaseString(s) == FoldCaseString(s')
    ensures Lexeme(t, s, parse) <==> FoldCaseString(s) == KeywordText(t).value
    ensures Lexeme(t, s, parse) <==> Lexeme(t, s', parse)
  {
    var kw := KeywordText(t).value;
    if Lexeme(t, s, parse) {
      assert FoldCaseString(s) == kw;
    }
    if FoldCaseString(s) == kw {
      assert forall i :: 0 <= i < |s| ==> FoldCase(s[i]) == FoldCaseString(s)[i];
    }
    if FoldCaseString(s') == kw {
      assert forall i :: 0 <= i < |s'| ==> FoldCase(s'[i]) == FoldCaseString(s')[i];
    }
    if Lexeme(t, s', parse) {
      assert FoldCaseString(s') == kw;
    }
  }

  /** Each keyword, spelled in lower case, is a lexeme of its token. */
  lemma KeywordSpellingIsLexeme<N>(t: Token<N>, parse: string -> Option<N>)
    requires KeywordText(t).Some?
    ensures Lexeme(t, KeywordText(t).value, parse)
  {
  }

  /** Every keyword lexeme also matches the identifier pattern, which is the overlap that
      the scanner's priority rule (left out of this model) must resolve in favour of the
      keyword. */
  lemma KeywordsOverlapIdentifiers<N>(t: Token<N>, s: string, parse: string -> Option<N>)
    requires KeywordText(t).Some?
    requires Lexeme(t, s, parse)
    ensures IsIdentifier(s)
    ensures IsKeywordLexeme(s)
    ensures Lexeme(t, KeywordText(t).value, parse)
  {
    var kw := KeywordText(t).value;
    forall i | 0 <= i < |s|
      ensures s[i] == '_' || IsAsciiLetter(s[i])
    {
      assert FoldCase(s[i]) == kw[i];
    }
  }

  /** Each punctuation and operator token is exactly one fixed character, and no two of
      them share it: the character alone determines the token. */
  lemma FixedTokensAreSingleDistinctChars<N>(t: Token<N>, u: Token<N>, s: string,
                                             parse: string -> Option<N>)
    requires FixedText(t).Some?
    requires Lexeme(t, s, parse) && Lexeme(u, s, parse)
    ensures s == [FixedText(t).value]
    ensures IsFixedLexeme(s)
    ensures u == t
  {
    assert IsFixedLexeme(s);
    assert |s| == 1 && !IsStringLexeme(s);
    assert !IsNumberLexeme(s);
  }

  /** An identifier token carries its lexeme unchanged, and a string token carries the
      lexeme without its quotes, which can never contain a quote. */
  lemma LiteralTokensCarryTheirText<N>(t: Token<N>, s: string, parse: string -> Option<N>)
    requires Lexeme(t, s, parse)
    ensures t.Identifier? ==> t.name == s
    ensures t.StringContent? ==> Quote(t.content) == s && '"' !in t.content
  {
  }

  /** Quoting any quote-free text gives a string lexeme whose content is that text. */
  lemma QuoteRoundTrip(content: string)
    requires '"' !in content
    ensures IsStringLexeme(Quote(content))
    ensures StripQuotes(Quote(content)) == content
  {
    var q := Quote(content);
    assert forall i :: 1 <= i < |q| - 1 ==> q[i] == content[i - 1];
  }

  /** A number lexeme has exactly one dot, with at least one digit on each side; so a
      run of digits without a dot is never a number lexeme. */
  lemma NumberNeedsOneDot(s: string, dot: int)
    requires IsNumberAt(s, dot)
    ensures forall i :: 0 <= i < |s| && i != dot ==> IsDigit(s[i])
    ensures forall d :: IsNumberAt(s, d) ==> d == dot
    ensures !AllDigits(s)
  {
    forall i | 0 <= i < |s| && i != dot
      ensures IsDigit(s[i])
    {
      if i < dot {
        assert s[..dot][i] == s[i];
      } else {
        assert s[dot + 1..][i - dot - 1] == s[i];
      }
    }
  }

  lemma DigitsAreNotANumber(s: string)
    requires AllDigits(s)
    ensures !IsNumberLexeme(s)
  {
  }

  /** Whitespace runs and comments are matched by no token pattern, so they never
      produce a token (not even the error token). */
  lemma SkipsProduceNoToken<N>(s: string, t: Token<N>, parse: string -> Option<N>)
    requires IsSkip(s)
    ensures !Lexeme(t, s, parse)
  {
    assert s[0] == '#' || IsBlank(s[0]);
    assert !IsIdentifier(s);
    assert !IsStringLexeme(s);
    if KeywordText(t).Some? {
      if Lexeme(t, s, parse) {
        KeywordsOverlapIdentifiers(t, s, parse);
      }
    } else if FixedText(t).Some? {
      assert s != [FixedText(t).value];
    } else if t.Number? {
      if IsNumberLexeme(s) {
        var dot :| 0 <= dot < |s| && IsNumberAt(s, dot);
        NumberNeedsOneDot(s, dot);
      }
    }
  }

  /** The identifier pattern is ASCII-only: a lexeme starting with any character outside
      ASCII, a Chinese character for one, is not an identifier. */
  lemma IdentifiersAreAscii(s: string)
    requires |s| >= 1 && s[0] > '\U{7F}'
    ensures !IsIdentifier(s)
  {
  }

  /** The keyword test: each of the six keywords, spelled in lower case, is a lexeme of
      its keyword token. */
  lemma LexerTestKeywords<N>(parse: string -> Option<N>)
    ensures Lexeme(KeywordGlobal, "global", parse) && Lexeme(KeywordFn, "fn", parse)
    ensures Lexeme(KeywordSpeak, "speak", parse) && Lexeme(KeywordInput, "input", parse)
    ensures Lexeme(KeywordIf, "if", parse) && Lexeme(KeywordExit, "exit", parse)
  {
  }

  /** Mixed-case spellings are keyword lexemes too, and a longer word is not one. */
  lemma KeywordSpellings<N>(parse: string -> Option<N>)
    ensures Lexeme(KeywordGlobal, "GLOBAL", parse) && Lexeme(KeywordExit, "eXiT", parse)
    ensures !Lexeme(KeywordIf, "iff", parse)
  {
  }

  lemma LexerTestIdentifiers<N>(parse: string -> Option<N>)
    ensures Lexeme(Identifier("identifier123"), "identifier123", parse)
    ensures Lexeme(Identifier("_underscore"), "_underscore", parse)
    ensures Lexeme(Identifier("CamelCase"), "CamelCase", parse)
    ensures Lexeme(Identifier("leadingDigit123"), "leadingDigit123", parse)
    ensures Lexeme(Identifier("mixed_Case123"), "mixed_Case123", parse)
  {
    IdentifierLexemeOf("identifier123", parse);
    IdentifierLexemeOf("_underscore", parse);
    IdentifierLexemeOf("CamelCase", parse);
    IdentifierLexemeOf("leadingDigit123", parse);
    IdentifierLexemeOf("mixed_Case123", parse);
  }

  /** Text the identifier pattern matches is a lexeme of the identifier token carrying it. */
  lemma IdentifierLexemeOf<N>(s: string, parse: string -> Option<N>)
    requires IsIdentifier(s)
    ensures Lexeme(Identifier(s), s, parse)
  {
  }

  lemma LexerTestNumbers()
    ensures IsNumberLexeme("123.456") && IsNumberLexeme("0.5")
    ensures IsNumberLexeme("1.0") && IsNumberLexeme("2.5")
  {
    assert IsNumberAt("123.456", 3);
    assert IsNumberAt("0.5", 1);
    assert IsNumberAt("1.0", 1);
    assert IsNumberAt("2.5", 1);
  }

  /** The integer literal of the parser's declaration test has no dot, so the number
      pattern does not match it. */
  lemma IntegerLiteralIsNotANumber()
    ensures !IsNumberLexeme("42")
  {
    DigitsAreNotANumber("42");
  }

  lemma LexerTestStrings<N>(parse: string -> Option<N>)
    ensures Lexeme(StringContent("This is a string"), "\"This is a string\"", parse)
  {
    StringLexemeOf("This is a string", "\"This is a string\"", parse);
  }

  /** The second string of the same test. Its input is followed by a stray quote, and the
      test looks only at the first token, whose lexeme is the quoted text ending in a
      blank. */
  lemma LexerTestTrailingBlankString<N>(parse: string -> Option<N>)
    ensures Lexeme(StringContent("Empty string: "), "\"Empty string: \"", parse)
  {
    StringLexemeOf("Empty string: ", "\"Empty string: \"", parse);
  }

  lemma StringLexemeOf<N>(content: string, s: string, parse: string -> Option<N>)
    requires '"' !in content && s == Quote(content)
    ensures Lexeme(StringContent(content), s, parse)
  {
    QuoteRoundTrip(content);
  }
}
