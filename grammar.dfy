/** A functional reference for the recursive-descent recogniser: one function
    per recognising method of the analyser. Each takes the token stream, the
    lookahead position and the notifications the sink has received so far,
    and returns where the parse stopped and the sink's notifications after
    it. A grammar error aborts the whole parse, so the first failure is
    returned unchanged by every enclosing nonterminal.

    The contracts here bound where a parse stops and settle the immediate
    failures. What a recogniser recognises is proved about these functions
    elsewhere:
    - `Trace.*Valid`: the matched terminals are the consumed tokens, and the
      notifications nest;
    - `Shapes.*Shape` and `Productions.*Outline`: the outermost notifications
      are a right-hand side of the production;
    - `Locality.*Local`: the lookahead never reaches beyond one token;
    - `Acceptance.*Accepts`: every spelling of a derivation tree is recognised;
    - `Soundness.*Sound`: every normal return recognised the spelling of a
      derivation tree. */
module Grammar {
  import opened Tokens
  import opened Events

  /** Done: the nonterminal was recognised and `pos` is the new lookahead.
      Fail: reportError was called with the token at `pos`.
      In both cases `events` is everything the sink has received, the
      notifications sent before the call included. */
  datatype Outcome = Done(pos: nat, events: seq<Event>) | Fail(pos: nat, events: seq<Event>)

  /** finishNonterminal(n) after a body that did not abort. */
  function Finish(n: Nonterminal, body: Outcome): Outcome {
    if body.Done? then Done(body.pos, body.events + [Exit(n)]) else body
  }

  /** acceptTerminal: consume the lookahead when it has the expected kind,
      otherwise report an error at it and consume nothing. */
  function Accept(t: seq<Kind>, p: nat, k: Kind, h: seq<Event>): (r: Outcome)
    requires p <= |t| && k != EofSymbol
    ensures r.Done? <==> Peek(t, p) == k
    ensures r.Done? ==> p < |t| && t[p] == k && r == Done(p + 1, h + [Match(k)])
    ensures r.Fail? ==> r == Fail(p, h)
  {
    if Peek(t, p) == k then Done(p + 1, h + [Match(k)]) else Fail(p, h)
  }

  /** _statementPart_ ::= begin StatementList end */
  function ParseStatementPart(t: seq<Kind>, p: nat, h: seq<Event>): (r: Outcome)
    requires p <= |t|
    ensures p <= r.pos <= |t|
    ensures Peek(t, p) != BeginSymbol ==> r == Fail(p, h + [Enter(StatementPart)])
  {
    var a := Accept(t, p, BeginSymbol, h + [Enter(StatementPart)]); if a.Fail? then a else
    var b := ParseStatementList(t, a.pos, a.events); if b.Fail? then b else
    Finish(StatementPart, Accept(t, b.pos, EndSymbol, b.events))
  }

  /** StatementList ::= Statement { ; Statement } */
  function ParseStatementList(t: seq<Kind>, p: nat, h: seq<Event>): (r: Outcome)
    requires p <= |t|
    decreases |t| - p, 9
    ensures p <= r.pos <= |t|
  {
    var a := ParseStatement(t, p, h + [Enter(StatementList)]); if a.Fail? then a else
    Finish(StatementList, ParseStatementListTail(t, a.pos, a.events))
  }

  /** The `while` loop of statementList: one `;` and one Statement per turn,
      until the lookahead is not `;`. */
  function ParseStatementListTail(t: seq<Kind>, p: nat, h: seq<Event>): (r: Outcome)
    requires p <= |t|
    decreases |t| - p, 1
    ensures p <= r.pos <= |t|
    ensures Peek(t, p) != SemicolonSymbol ==> r == Done(p, h)
    ensures r.Done? ==> Peek(t, r.pos) != SemicolonSymbol
  {
    if Peek(t, p) == SemicolonSymbol then
      var a := Accept(t, p, SemicolonSymbol, h);
      var b := ParseStatement(t, a.pos, a.events); if b.Fail? then b else
      ParseStatementListTail(t, b.pos, b.events)
    else
      Done(p, h)
  }

  /** statement: the alternative is chosen by the lookahead kind alone. */
  function ParseStatement(t: seq<Kind>, p: nat, h: seq<Event>): (r: Outcome)
    requires p <= |t|
    decreases |t| - p, 8
    ensures p <= r.pos <= |t|
    ensures !StartsStatement(Peek(t, p)) ==> r == Fail(p, h + [Enter(Statement)])
  {
    var h1 := h + [Enter(Statement)];
    match Peek(t, p)
    case Identifier => Finish(Statement, ParseAssignmentStatement(t, p, h1))
    case IfSymbol => Finish(Statement, ParseIfStatement(t, p, h1))
    case WhileSymbol => Finish(Statement, ParseWhileStatement(t, p, h1))
    case CallSymbol => Finish(Statement, ParseProcedureStatement(t, p, h1))
    case UntilSymbol => Finish(Statement, ParseUntilStatement(t, p, h1))
    case ForSymbol => Finish(Statement, ParseForStatement(t, p, h1))
    case _ => Fail(p, h1)
  }

  /** AssignmentStatement ::= identifier := AssignmentStatementRemainder */
  function ParseAssignmentStatement(t: seq<Kind>, p: nat, h: seq<Event>): (r: Outcome)
    requires p <= |t|
    decreases |t| - p, 7
    ensures p <= r.pos <= |t|
    ensures Peek(t, p) != Identifier ==> r == Fail(p, h + [Enter(AssignmentStatement)])
  {
    var a := Accept(t, p, Identifier, h + [Enter(AssignmentStatement)]); if a.Fail? then a else
    var b := Accept(t, a.pos, BecomesSymbol, a.events); if b.Fail? then b else
    Finish(AssignmentStatement, ParseAssignmentStatementRemainder(t, b.pos, b.events))
  }

  /** AssignmentStatementRemainder ::= stringConstant | Expression, chosen by
      the lookahead; it announces no nonterminal of its own. */
  function ParseAssignmentStatementRemainder(t: seq<Kind>, p: nat, h: seq<Event>): (r: Outcome)
    requires p <= |t|
    decreases |t| - p, 5
    ensures p <= r.pos <= |t|
  {
    if Peek(t, p) == StringConstant then Accept(t, p, StringConstant, h)
    else ParseExpression(t, p, h)
  }

  /** IfStatement ::= if Condition then StatementList IfStatementRemainder */
  function ParseIfStatement(t: seq<Kind>, p: nat, h: seq<Event>): (r: Outcome)
    requires p <= |t|
    decreases |t| - p, 7
    ensures p <= r.pos <= |t|
    ensures Peek(t, p) != IfSymbol ==> r == Fail(p, h + [Enter(IfStatement)])
  {
    var a := Accept(t, p, IfSymbol, h + [Enter(IfStatement)]); if a.Fail? then a else
    var b := ParseCondition(t, a.pos, a.events); if b.Fail? then b else
    var c := Accept(t, b.pos, ThenSymbol, b.events); if c.Fail? then c else
    var d := ParseStatementList(t, c.pos, c.events); if d.Fail? then d else
    Finish(IfStatement, ParseIfStatementRemainder(t, d.pos, d.events))
  }

  /** IfStatementRemainder ::= else StatementList end if | end if; the else
      branch is taken exactly when the lookahead is `else`. */
  function ParseIfStatementRemainder(t: seq<Kind>, p: nat, h: seq<Event>): (r: Outcome)
    requires p <= |t|
    decreases |t| - p, 1
    ensures p <= r.pos <= |t|
  {
    var a :=
      if Peek(t, p) == ElseSymbol then
        var e := Accept(t, p, ElseSymbol, h);
        ParseStatementList(t, e.pos, e.events)
      else Done(p, h);
    if a.Fail? then a else
    var b := Accept(t, a.pos, EndSymbol, a.events); if b.Fail? then b else
    Accept(t, b.pos, IfSymbol, b.events)
  }

  /** WhileStatement ::= while Condition loop StatementList end loop */
  function ParseWhileStatement(t: seq<Kind>, p: nat, h: seq<Event>): (r: Outcome)
    requires p <= |t|
    decreases |t| - p, 7
    ensures p <= r.pos <= |t|
    ensures Peek(t, p) != WhileSymbol ==> r == Fail(p, h + [Enter(WhileStatement)])
  {
    var a := Accept(t, p, WhileSymbol, h + [Enter(WhileStatement)]); if a.Fail? then a else
    var b := ParseCondition(t, a.pos, a.events); if b.Fail? then b else
    var c := Accept(t, b.pos, LoopSymbol, b.events); if c.Fail? then c else
    var d := ParseStatementList(t, c.pos, c.events); if d.Fail? then d else
    var e := Accept(t, d.pos, EndSymbol, d.events); if e.Fail? then e else
    Finish(WhileStatement, Accept(t, e.pos, LoopSymbol, e.events))
  }

  /** ProcedureStatement ::= call identifier ( ArgumentList ) */
  function ParseProcedureStatement(t: seq<Kind>, p: nat, h: seq<Event>): (r: Outcome)
    requires p <= |t|
    decreases |t| - p, 7
    ensures p <= r.pos <= |t|
    ensures Peek(t, p) != CallSymbol ==> r == Fail(p, h + [Enter(ProcedureStatement)])
  {
    var a := Accept(t, p, CallSymbol, h + [Enter(ProcedureStatement)]); if a.Fail? then a else
    var b := Accept(t, a.pos, Identifier, a.events); if b.Fail? then b else
    var c := Accept(t, b.pos, LeftParenthesis, b.events); if c.Fail? then c else
    var d := ParseArgumentList(t, c.pos, c.events); if d.Fail? then d else
    Finish(ProcedureStatement, Accept(t, d.pos, RightParenthesis, d.events))
  }

  /** untilStatement as written: do StatementList until Condition. */
  function ParseUntilStatement(t: seq<Kind>, p: nat, h: seq<Event>): (r: Outcome)
    requires p <= |t|
    decreases |t| - p, 7
    ensures p <= r.pos <= |t|
    ensures Peek(t, p) != DoSymbol ==> r == Fail(p, h + [Enter(UntilStatement)])
  {
    var a := Accept(t, p, DoSymbol, h + [Enter(UntilStatement)]); if a.Fail? then a else
    var b := ParseStatementList(t, a.pos, a.events); if b.Fail? then b else
    var c := Accept(t, b.pos, UntilSymbol, b.events); if c.Fail? then c else
    Finish(UntilStatement, ParseCondition(t, c.pos, c.events))
  }

  /** ForStatement ::= for ForControl do StatementList end loop */
  function ParseForStatement(t: seq<Kind>, p: nat, h: seq<Event>): (r: Outcome)
    requires p <= |t|
    decreases |t| - p, 7
    ensures p <= r.pos <= |t|
    ensures Peek(t, p) != ForSymbol ==> r == Fail(p, h + [Enter(ForStatement)])
  {
    var a := Accept(t, p, ForSymbol, h + [Enter(ForStatement)]); if a.Fail? then a else
    var b := ParseForControl(t, a.pos, a.events); if b.Fail? then b else
    var c := Accept(t, b.pos, DoSymbol, b.events); if c.Fail? then c else
    var d := ParseStatementList(t, c.pos, c.events); if d.Fail? then d else
    var e := Accept(t, d.pos, EndSymbol, d.events); if e.Fail? then e else
    Finish(ForStatement, Accept(t, e.pos, LoopSymbol, e.events))
  }

  /** ForControl ::= ( AssignmentStatement ; Condition ; AssignmentStatement ),
      the part of forStatement between `for` and `do`, which announces no
      nonterminal of its own. */
  function ParseForControl(t: seq<Kind>, p: nat, h: seq<Event>): (r: Outcome)
    requires p <= |t|
    ensures p <= r.pos <= |t|
    ensures Peek(t, p) != LeftParenthesis ==> r == Fail(p, h)
  {
    var a := Accept(t, p, LeftParenthesis, h); if a.Fail? then a else
    var b := ParseAssignmentStatement(t, a.pos, a.events); if b.Fail? then b else
    var c := Accept(t, b.pos, SemicolonSymbol, b.events); if c.Fail? then c else
    var d := ParseCondition(t, c.pos, c.events); if d.Fail? then d else
    var e := Accept(t, d.pos, SemicolonSymbol, d.events); if e.Fail? then e else
    var f := ParseAssignmentStatement(t, e.pos, e.events); if f.Fail? then f else
    Accept(t, f.pos, RightParenthesis, f.events)
  }

  /** ArgumentList ::= identifier { , identifier } */
  function ParseArgumentList(t: seq<Kind>, p: nat, h: seq<Event>): (r: Outcome)
    requires p <= |t|
    ensures p <= r.pos <= |t|
    ensures Peek(t, p) != Identifier ==> r == Fail(p, h + [Enter(ArgumentList)])
  {
    var a := Accept(t, p, Identifier, h + [Enter(ArgumentList)]); if a.Fail? then a else
    Finish(ArgumentList, ParseArgumentListTail(t, a.pos, a.events))
  }

  /** The `while` loop of argumentList: one `,` and one identifier per turn,
      until the lookahead is not `,`. */
  function ParseArgumentListTail(t: seq<Kind>, p: nat, h: seq<Event>): (r: Outcome)
    requires p <= |t|
    decreases |t| - p
    ensures p <= r.pos <= |t|
    ensures Peek(t, p) != CommaSymbol ==> r == Done(p, h)
    ensures r.Done? ==> Peek(t, r.pos) != CommaSymbol
  {
    if Peek(t, p) == CommaSymbol then
      var a := Accept(t, p, CommaSymbol, h);
      var b := Accept(t, a.pos, Identifier, a.events); if b.Fail? then b else
      ParseArgumentListTail(t, b.pos, b.events)
    else
      Done(p, h)
  }

  /** Condition ::= identifier ConditionalOperator ConditionRemainder */
  function ParseCondition(t: seq<Kind>, p: nat, h: seq<Event>): (r: Outcome)
    requires p <= |t|
    ensures p <= r.pos <= |t|
    ensures Peek(t, p) != Identifier ==> r == Fail(p, h + [Enter(Condition)])
  {
    var a := Accept(t, p, Identifier, h + [Enter(Condition)]); if a.Fail? then a else
    var b := ParseConditionalOperator(t, a.pos, a.events); if b.Fail? then b else
    Finish(Condition, ParseConditionRemainder(t, b.pos, b.events))
  }

  /** ConditionRemainder ::= identifier | numberConstant | stringConstant;
      it announces no nonterminal of its own. */
  function ParseConditionRemainder(t: seq<Kind>, p: nat, h: seq<Event>): (r: Outcome)
    requires p <= |t|
    ensures p <= r.pos <= |t|
    ensures r.Done? <==> Peek(t, p) in {Identifier, NumberConstant, StringConstant}
    ensures r.Done? ==> r == Done(p + 1, h + [Match(Peek(t, p))])
    ensures r.Fail? ==> r == Fail(p, h)
  {
    match Peek(t, p)
    case Identifier => Accept(t, p, Identifier, h)
    case NumberConstant => Accept(t, p, NumberConstant, h)
    case StringConstant => Accept(t, p, StringConstant, h)
    case _ => Fail(p, h)
  }

  /** ConditionalOperator ::= > | >= | = | /= | < | <= */
  function ParseConditionalOperator(t: seq<Kind>, p: nat, h: seq<Event>): (r: Outcome)
    requires p <= |t|
    ensures p <= r.pos <= |t|
    ensures r.Done? <==> IsConditionalOperator(Peek(t, p))
    ensures r.Done? ==> r == Done(p + 1, h + [Enter(ConditionalOperator), Match(Peek(t, p)), Exit(ConditionalOperator)])
    ensures r.Fail? ==> r == Fail(p, h + [Enter(ConditionalOperator)])
  {
    var h1 := h + [Enter(ConditionalOperator)];
    match Peek(t, p)
    case GreaterThanSymbol => Finish(ConditionalOperator, Accept(t, p, GreaterThanSymbol, h1))
    case GreaterEqualSymbol => Finish(ConditionalOperator, Accept(t, p, GreaterEqualSymbol, h1))
    case EqualSymbol => Finish(ConditionalOperator, Accept(t, p, EqualSymbol, h1))
    case NotEqualSymbol => Finish(ConditionalOperator, Accept(t, p, NotEqualSymbol, h1))
    case LessThanSymbol => Finish(ConditionalOperator, Accept(t, p, LessThanSymbol, h1))
    case LessEqualSymbol => Finish(ConditionalOperator, Accept(t, p, LessEqualSymbol, h1))
    case _ => Fail(p, h1)
  }

  /** Expression ::= Term { (+ | -) Term } */
  function ParseExpression(t: seq<Kind>, p: nat, h: seq<Event>): (r: Outcome)
    requires p <= |t|
    decreases |t| - p, 4
    ensures p <= r.pos <= |t|
  {
    var a := ParseTerm(t, p, h + [Enter(Expression)]); if a.Fail? then a else
    Finish(Expression, ParseExpressionTail(t, a.pos, a.events))
  }

  /** The `while` loop of expression: exactly one `+` or `-` and one Term per
      turn, until the lookahead is neither. */
  function ParseExpressionTail(t: seq<Kind>, p: nat, h: seq<Event>): (r: Outcome)
    requires p <= |t|
    decreases |t| - p, 1
    ensures p <= r.pos <= |t|
    ensures Peek(t, p) !in {PlusSymbol, MinusSymbol} ==> r == Done(p, h)
    ensures r.Done? ==> Peek(t, r.pos) !in {PlusSymbol, MinusSymbol}
  {
    if Peek(t, p) == PlusSymbol || Peek(t, p) == MinusSymbol then
      var a := if Peek(t, p) == PlusSymbol then Accept(t, p, PlusSymbol, h) else Accept(t, p, MinusSymbol, h);
      var b := ParseTerm(t, a.pos, a.events); if b.Fail? then b else
      ParseExpressionTail(t, b.pos, b.events)
    else
      Done(p, h)
  }

  /** Term ::= Factor { (* | / | mod) Factor } */
  function ParseTerm(t: seq<Kind>, p: nat, h: seq<Event>): (r: Outcome)
    requires p <= |t|
    decreases |t| - p, 3
    ensures p <= r.pos <= |t|
  {
    var a := ParseFactor(t, p, h + [Enter(Term)]); if a.Fail? then a else
    Finish(Term, ParseTermTail(t, a.pos, a.events))
  }

  /** The `while` loop of term: exactly one `*`, `/` or `mod` and one Factor
      per turn, until the lookahead is none of them. */
  function ParseTermTail(t: seq<Kind>, p: nat, h: seq<Event>): (r: Outcome)
    requires p <= |t|
    decreases |t| - p, 1
    ensures p <= r.pos <= |t|
    ensures Peek(t, p) !in {TimesSymbol, DivideSymbol, ModSymbol} ==> r == Done(p, h)
    ensures r.Done? ==> Peek(t, r.pos) !in {TimesSymbol, DivideSymbol, ModSymbol}
  {
    if Peek(t, p) == TimesSymbol || Peek(t, p) == DivideSymbol || Peek(t, p) == ModSymbol then
      var a :=
        if Peek(t, p) == TimesSymbol then Accept(t, p, TimesSymbol, h)
        else if Peek(t, p) == DivideSymbol then Accept(t, p, DivideSymbol, h)
        else Accept(t, p, ModSymbol, h);
      var b := ParseFactor(t, a.pos, a.events); if b.Fail? then b else
      ParseTermTail(t, b.pos, b.events)
    else
      Done(p, h)
  }

  /** Factor ::= identifier | numberConstant | ( Expression ) */
  function ParseFactor(t: seq<Kind>, p: nat, h: seq<Event>): (r: Outcome)
    requires p <= |t|
    decreases |t| - p, 2
    ensures p <= r.pos <= |t|
    ensures Peek(t, p) !in {Identifier, NumberConstant, LeftParenthesis} ==> r == Fail(p, h + [Enter(Factor)])
  {
    var h1 := h + [Enter(Factor)];
    match Peek(t, p)
    case Identifier => Finish(Factor, Accept(t, p, Identifier, h1))
    case NumberConstant => Finish(Factor, Accept(t, p, NumberConstant, h1))
    case LeftParenthesis =>
      var a := Accept(t, p, LeftParenthesis, h1);
      var b := ParseExpression(t, a.pos, a.events); if b.Fail? then b else
      Finish(Factor, Accept(t, b.pos, RightParenthesis, b.events))
    case _ => Fail(p, h1)
  }
}
