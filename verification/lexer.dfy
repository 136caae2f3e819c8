/** The lexer adapter handed to the parser: it pulls `(token, span)` pairs from the
    scanner and turns each into a spanned result, surfacing the scanner's error token
    as `LexicalError.InvalidToken`. The scanner's output is given as a finite sequence. */
module Lexer {
  import opened Results
  import opened Tokens

  datatype LexicalError = InvalidToken

  /** A byte range `start..end` of the source text. */
  datatype Span = Span(start: nat, end: nat)

  /** What the adapter yields per token: `Ok((start, token, end))` or a lexical error. */
  type Spanned<N> = Result<(nat, Token<N>, nat), LexicalError>

  /** The conversion applied to one scanned pair. */
  function Convert<N>(token: Token<N>, span: Span): (r: Spanned<N>)
    ensures r.Err? <==> token.Error?
    ensures r.Ok? ==> !r.value.1.Error?
    ensures r.Ok? ==> r.value.0 == span.start && r.value.1 == token && r.value.2 == span.end
  {
    match token
    case Error => Err(InvalidToken)
    case _ => Ok((span.start, token, span.end))
  }

  /** The iterator's `next` after `pos` pairs have been consumed: nothing once the scanner
      is exhausted, otherwise the conversion of the next pair. */
  function Next<N>(stream: seq<(Token<N>, Span)>, pos: nat): (r: Option<Spanned<N>>)
    ensures r.None? <==> pos >= |stream|
    ensures r.Some? ==> (r.value.Err? <==> stream[pos].0.Error?)
  {
    if pos < |stream| then Some(Convert(stream[pos].0, stream[pos].1)) else None
  }

  /** Everything the adapter yields, in order, until it returns `None`. */
  function Lex<N>(stream: seq<(Token<N>, Span)>): (r: seq<Spanned<N>>)
    ensures |r| == |stream|
    ensures forall i :: 0 <= i < |r| ==> Next(stream, i) == Some(r[i])
    ensures forall i :: 0 <= i < |r| ==> (r[i].Err? <==> stream[i].0.Error?)
    ensures forall i :: 0 <= i < |r| && r[i].Ok? ==>
      && r[i].value.1 == stream[i].0
      && r[i].value.0 == stream[i].1.start && r[i].value.2 == stream[i].1.end
    ensures forall i :: 0 <= i < |r| && r[i].Ok? ==> !r[i].value.1.Error?
    decreases |stream|
  {
    if |stream| == 0 then []
    else [Convert(stream[0].0, stream[0].1)] + Lex(stream[1..])
  }

  /** The adapter works item by item: lexing two pieces of a token stream one after the
      other yields exactly the items of lexing the whole stream. */
  lemma {:induction false} LexAppend<N>(a: seq<(Token<N>, Span)>, b: seq<(Token<N>, Span)>)
    ensures Lex(a + b) == Lex(a) + Lex(b)
    decreases |a|
  {
    if |a| == 0 {
      assert a + b == b;
    } else {
      assert (a + b)[1..] == a[1..] + b;
      LexAppend(a[1..], b);
    }
  }
}
