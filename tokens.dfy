/** The closed set of lexical symbol kinds the analyser inspects, and the
    single-token lookahead over a token stream. Only a token's kind drives the
    parse; its text and line number only feed error messages. */
module Tokens {

  /** One constructor per symbol code of the token model. */
  datatype Kind =
    // reserved words
    | BeginSymbol | EndSymbol | IfSymbol | ThenSymbol | ElseSymbol
    | WhileSymbol | LoopSymbol | DoSymbol | UntilSymbol | ForSymbol | CallSymbol
    // operators
    | BecomesSymbol | PlusSymbol | MinusSymbol | TimesSymbol | DivideSymbol | ModSymbol
    | GreaterThanSymbol | GreaterEqualSymbol | EqualSymbol | NotEqualSymbol
    | LessThanSymbol | LessEqualSymbol
    // punctuation
    | LeftParenthesis | RightParenthesis | SemicolonSymbol | CommaSymbol
    // literal classes
    | Identifier | NumberConstant | StringConstant
    // end of input
    | EofSymbol

  /** The kind of the token at position `i`; reading past the end of the
      stream yields end-of-input. */
  function Peek(t: seq<Kind>, i: nat): Kind
  {
    if i < |t| then t[i] else EofSymbol
  }

  /** The kinds `statement` dispatches on. */
  predicate StartsStatement(k: Kind) {
    k in {Identifier, IfSymbol, WhileSymbol, CallSymbol, UntilSymbol, ForSymbol}
  }

  /** The kinds `conditionalOperator` accepts. */
  predicate IsConditionalOperator(k: Kind) {
    k in {GreaterThanSymbol, GreaterEqualSymbol, EqualSymbol, NotEqualSymbol,
          LessThanSymbol, LessEqualSymbol}
  }
}
