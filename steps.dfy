/** Regrouping a history that a recogniser extended piece by piece into the
    history followed by one appended block. */
module Appends {
  import opened Events

  lemma Pair(h: seq<Event>, a: Event, b: Event)
    ensures h + [a] + [b] == h + [a, b]
  {
  }

  lemma Triple(h: seq<Event>, a: Event, b: Event, c: Event)
    ensures h + [a] + [b] + [c] == h + [a, b, c]
  {
  }

  lemma Lead(h: seq<Event>, a: Event, x: seq<Event>, y: seq<Event>)
    ensures h + [a] + x + y == h + ([a] + x + y)
  {
  }

  lemma LeadTwo(h: seq<Event>, a: Event, b: Event, x: seq<Event>)
    ensures h + [a] + [b] + x == h + ([a, b] + x)
  {
  }

  lemma Wrap(h: seq<Event>, a: Event, x: seq<Event>, y: seq<Event>, f: Event)
    ensures h + [a] + x + y + [f] == h + ([a] + x + y + [f])
  {
  }

  lemma ArgumentsShape(h: seq<Event>, a: Event, b: Event, x: seq<Event>, f: Event)
    ensures h + [a] + [b] + x + [f] == h + ([a, b] + x + [f])
  {
  }

  lemma Bracket(h: seq<Event>, a: Event, b: Event, x: seq<Event>, c: Event, f: Event)
    ensures h + [a] + [b] + x + [c] + [f] == h + ([a, b] + x + [c, f])
  {
  }

  lemma AssignmentShape(h: seq<Event>, a: Event, b: Event, c: Event, x: seq<Event>, f: Event)
    ensures h + [a] + [b] + [c] + x + [f] == h + ([a, b, c] + x + [f])
  {
  }

  lemma ConditionShape(h: seq<Event>, a: Event, b: Event, c: Event, d: Event, e: Event, f: Event, g: Event)
    ensures h + [a] + [b] + [c, d, e] + [f] + [g] == h + [a, b, c, d, e, f, g]
  {
  }

  lemma ElseShape(h: seq<Event>, a: Event, x: seq<Event>, b: Event, c: Event)
    ensures h + [a] + x + [b] + [c] == h + ([a] + x + [b, c])
  {
  }

  lemma IfShape(h: seq<Event>, a: Event, b: Event, x1: seq<Event>, c: Event, x2: seq<Event>, x3: seq<Event>, f: Event)
    ensures h + [a] + [b] + x1 + [c] + x2 + x3 + [f] == h + ([a, b] + x1 + [c] + x2 + x3 + [f])
  {
  }

  lemma LoopShape(h: seq<Event>, a: Event, b: Event, x1: seq<Event>, c: Event, x2: seq<Event>, d: Event, e: Event, f: Event)
    ensures h + [a] + [b] + x1 + [c] + x2 + [d] + [e] + [f] == h + ([a, b] + x1 + [c] + x2 + [d, e, f])
  {
  }

  lemma CallShape(h: seq<Event>, a: Event, b: Event, c: Event, d: Event, x: seq<Event>, e: Event, f: Event)
    ensures h + [a] + [b] + [c] + [d] + x + [e] + [f] == h + ([a, b, c, d] + x + [e, f])
  {
  }

  lemma ControlShape(h: seq<Event>, a: Event, x1: seq<Event>, b: Event, x2: seq<Event>, c: Event, x3: seq<Event>, d: Event)
    ensures h + [a] + x1 + [b] + x2 + [c] + x3 + [d] == h + ([a] + x1 + [b] + x2 + [c] + x3 + [d])
  {
  }
}

/** One unfolding of a recogniser whose parts have known outcomes: each
    lemma runs the body of one Grammar function on the outcomes its calls
    return, so the proofs that use it never unfold a recogniser themselves.
    Each lemma hides the bodies of the recognisers whose outcomes it is
    given, so that only the one it runs is unfolded. */
module Steps {
  import opened Tokens
  import opened Events
  import opened Grammar
  import opened Derivations
  import opened Appends

  /** The recogniser's outcome `r` is a normal return at position `q` with
      history `g`. */
  ghost predicate Reaches(r: Outcome, q: nat, g: seq<Event>) {
    r == Done(q, g)
  }

  lemma FactorTerminal(t: seq<Kind>, p: nat, h: seq<Event>, k: Kind)
    requires p <= |t| && Peek(t, p) == k && (k == Identifier || k == NumberConstant)
    ensures Reaches(ParseFactor(t, p, h), p + 1, h + [Enter(Factor)] + [Match(k)] + [Exit(Factor)])
  {
  }

  lemma FactorParenthesised(t: seq<Kind>, p: nat, h: seq<Event>, q: nat, g: seq<Event>)
    requires p < q <= |t| && Peek(t, p) == LeftParenthesis && Peek(t, q) == RightParenthesis
    requires Reaches(ParseExpression(t, p + 1, h + [Enter(Factor)] + [Match(LeftParenthesis)]), q, g)
    ensures Reaches(ParseFactor(t, p, h), q + 1, g + [Match(RightParenthesis)] + [Exit(Factor)])
  {
    hide ParseExpression;
  }

  lemma TermStep(t: seq<Kind>, p: nat, h: seq<Event>, q: nat, g: seq<Event>, r: nat, e: seq<Event>)
    requires p <= q <= r <= |t|
    requires Reaches(ParseFactor(t, p, h + [Enter(Term)]), q, g)
    requires Reaches(ParseTermTail(t, q, g), r, e)
    ensures Reaches(ParseTerm(t, p, h), r, e + [Exit(Term)])
  {
    hide ParseTermTail, ParseFactor;
  }

  lemma TermTailStep(t: seq<Kind>, p: nat, h: seq<Event>, k: Kind, q: nat, g: seq<Event>, r: nat, e: seq<Event>)
    requires p < q <= r <= |t| && Peek(t, p) == k && (k == TimesSymbol || k == DivideSymbol || k == ModSymbol)
    requires Reaches(ParseFactor(t, p + 1, h + [Match(k)]), q, g)
    requires Reaches(ParseTermTail(t, q, g), r, e)
    ensures Reaches(ParseTermTail(t, p, h), r, e)
  {
    hide ParseFactor;
    var a := Accept(t, p, k, h);
    assert a == Done(p + 1, h + [Match(k)]);
    assert Reaches(ParseFactor(t, a.pos, a.events), q, g);
  }

  lemma ExpressionStep(t: seq<Kind>, p: nat, h: seq<Event>, q: nat, g: seq<Event>, r: nat, e: seq<Event>)
    requires p <= q <= r <= |t|
    requires Reaches(ParseTerm(t, p, h + [Enter(Expression)]), q, g)
    requires Reaches(ParseExpressionTail(t, q, g), r, e)
    ensures Reaches(ParseExpression(t, p, h), r, e + [Exit(Expression)])
  {
    hide ParseExpressionTail, ParseTerm;
  }

  lemma ExpressionTailStep(t: seq<Kind>, p: nat, h: seq<Event>, k: Kind, q: nat, g: seq<Event>, r: nat, e: seq<Event>)
    requires p < q <= r <= |t| && Peek(t, p) == k && (k == PlusSymbol || k == MinusSymbol)
    requires Reaches(ParseTerm(t, p + 1, h + [Match(k)]), q, g)
    requires Reaches(ParseExpressionTail(t, q, g), r, e)
    ensures Reaches(ParseExpressionTail(t, p, h), r, e)
  {
    hide ParseTerm;
    var a := Accept(t, p, k, h);
    assert a == Done(p + 1, h + [Match(k)]);
    assert Reaches(ParseTerm(t, a.pos, a.events), q, g);
  }

  lemma ConditionStep(t: seq<Kind>, p: nat, h: seq<Event>, c: ConditionTree)
    requires p + 3 <= |t| && Peek(t, p) == Identifier && Peek(t, p + 1) == c.op && Peek(t, p + 2) == c.operand
    ensures Reaches(ParseCondition(t, p, h), p + 3, h + ConditionEvents(c))
  {
    ConditionShape(h, Enter(Condition), Match(Identifier), Enter(ConditionalOperator), Match(c.op),
                   Exit(ConditionalOperator), Match(c.operand), Exit(Condition));
  }

  lemma RemainderString(t: seq<Kind>, p: nat, h: seq<Event>)
    requires p <= |t| && Peek(t, p) == StringConstant
    ensures Reaches(ParseAssignmentStatementRemainder(t, p, h), p + 1, h + [Match(StringConstant)])
  {
  }

  lemma RemainderExpression(t: seq<Kind>, p: nat, h: seq<Event>, o: Outcome)
    requires p <= |t| && Peek(t, p) != StringConstant
    requires ParseExpression(t, p, h) == o
    ensures ParseAssignmentStatementRemainder(t, p, h) == o
  {
    hide ParseExpression;
  }

  lemma AssignmentStep(t: seq<Kind>, p: nat, h: seq<Event>, q: nat, g: seq<Event>)
    requires p + 2 <= q <= |t| && Peek(t, p) == Identifier && Peek(t, p + 1) == BecomesSymbol
    requires Reaches(ParseAssignmentStatementRemainder(t, p + 2, h + [Enter(AssignmentStatement)] + [Match(Identifier)] + [Match(BecomesSymbol)]), q, g)
    ensures Reaches(ParseAssignmentStatement(t, p, h), q, g + [Exit(AssignmentStatement)])
  {
    hide ParseAssignmentStatementRemainder;
  }

  // statement after the alternative the lookahead selects has succeeded

  lemma StatementAssignment(t: seq<Kind>, p: nat, h: seq<Event>, q: nat, g: seq<Event>)
    requires p <= q <= |t| && Peek(t, p) == Identifier
    requires Reaches(ParseAssignmentStatement(t, p, h + [Enter(Statement)]), q, g)
    ensures Reaches(ParseStatement(t, p, h), q, g + [Exit(Statement)])
  {
    hide ParseAssignmentStatement;
  }

  lemma StatementIf(t: seq<Kind>, p: nat, h: seq<Event>, q: nat, g: seq<Event>)
    requires p <= q <= |t| && Peek(t, p) == IfSymbol
    requires Reaches(ParseIfStatement(t, p, h + [Enter(Statement)]), q, g)
    ensures Reaches(ParseStatement(t, p, h), q, g + [Exit(Statement)])
  {
    hide ParseIfStatement;
  }

  lemma StatementWhile(t: seq<Kind>, p: nat, h: seq<Event>, q: nat, g: seq<Event>)
    requires p <= q <= |t| && Peek(t, p) == WhileSymbol
    requires Reaches(ParseWhileStatement(t, p, h + [Enter(Statement)]), q, g)
    ensures Reaches(ParseStatement(t, p, h), q, g + [Exit(Statement)])
  {
    hide ParseWhileStatement;
  }

  lemma StatementCall(t: seq<Kind>, p: nat, h: seq<Event>, q: nat, g: seq<Event>)
    requires p <= q <= |t| && Peek(t, p) == CallSymbol
    requires Reaches(ParseProcedureStatement(t, p, h + [Enter(Statement)]), q, g)
    ensures Reaches(ParseStatement(t, p, h), q, g + [Exit(Statement)])
  {
    hide ParseProcedureStatement;
  }

  lemma StatementFor(t: seq<Kind>, p: nat, h: seq<Event>, q: nat, g: seq<Event>)
    requires p <= q <= |t| && Peek(t, p) == ForSymbol
    requires Reaches(ParseForStatement(t, p, h + [Enter(Statement)]), q, g)
    ensures Reaches(ParseStatement(t, p, h), q, g + [Exit(Statement)])
  {
    hide ParseForStatement;
  }

  lemma IfStep(t: seq<Kind>, p: nat, h: seq<Event>, c: ConditionTree, q: nat, x: seq<Event>, r: nat, y: seq<Event>)
    requires p + 5 <= q <= r <= |t|
    requires Peek(t, p) == IfSymbol && Peek(t, p + 1) == Identifier && Peek(t, p + 2) == c.op
    requires Peek(t, p + 3) == c.operand && Peek(t, p + 4) == ThenSymbol
    requires Reaches(ParseStatementList(t, p + 5, h + [Enter(IfStatement)] + [Match(IfSymbol)] + ConditionEvents(c) + [Match(ThenSymbol)]), q, x)
    requires Reaches(ParseIfStatementRemainder(t, q, x), r, y)
    ensures Reaches(ParseIfStatement(t, p, h), r, y + [Exit(IfStatement)])
  {
    hide ParseStatementList, ParseIfStatementRemainder;
    ConditionStep(t, p + 1, h + [Enter(IfStatement)] + [Match(IfSymbol)], c);
  }

  lemma IfRemainderElse(t: seq<Kind>, p: nat, h: seq<Event>, q: nat, g: seq<Event>)
    requires p < q && q + 2 <= |t| && Peek(t, p) == ElseSymbol && Peek(t, q) == EndSymbol && Peek(t, q + 1) == IfSymbol
    requires Reaches(ParseStatementList(t, p + 1, h + [Match(ElseSymbol)]), q, g)
    ensures Reaches(ParseIfStatementRemainder(t, p, h), q + 2, g + [Match(EndSymbol)] + [Match(IfSymbol)])
  {
    hide ParseStatementList;
  }

  lemma IfRemainderEnd(t: seq<Kind>, p: nat, h: seq<Event>)
    requires p + 2 <= |t| && Peek(t, p) == EndSymbol && Peek(t, p + 1) == IfSymbol
    ensures Reaches(ParseIfStatementRemainder(t, p, h), p + 2, h + [Match(EndSymbol)] + [Match(IfSymbol)])
  {
  }

  lemma WhileStep(t: seq<Kind>, p: nat, h: seq<Event>, c: ConditionTree, q: nat, x: seq<Event>)
    requires p + 5 <= q && q + 2 <= |t|
    requires Peek(t, p) == WhileSymbol && Peek(t, p + 1) == Identifier && Peek(t, p + 2) == c.op
    requires Peek(t, p + 3) == c.operand && Peek(t, p + 4) == LoopSymbol
    requires Reaches(ParseStatementList(t, p + 5, h + [Enter(WhileStatement)] + [Match(WhileSymbol)] + ConditionEvents(c) + [Match(LoopSymbol)]), q, x)
    requires Peek(t, q) == EndSymbol && Peek(t, q + 1) == LoopSymbol
    ensures Reaches(ParseWhileStatement(t, p, h), q + 2, x + [Match(EndSymbol)] + [Match(LoopSymbol)] + [Exit(WhileStatement)])
  {
    hide ParseStatementList, ParseCondition, ConditionEvents;
    ConditionStep(t, p + 1, h + [Enter(WhileStatement)] + [Match(WhileSymbol)], c);
    var e := Accept(t, q, EndSymbol, x);
    assert Accept(t, e.pos, LoopSymbol, e.events) == Done(q + 2, x + [Match(EndSymbol)] + [Match(LoopSymbol)]);
  }

  lemma ProcedureStep(t: seq<Kind>, p: nat, h: seq<Event>, q: nat, g: seq<Event>)
    requires p + 3 <= q < |t|
    requires Peek(t, p) == CallSymbol && Peek(t, p + 1) == Identifier && Peek(t, p + 2) == LeftParenthesis
    requires Peek(t, q) == RightParenthesis
    requires Reaches(ParseArgumentList(t, p + 3, h + [Enter(ProcedureStatement)] + [Match(CallSymbol)] + [Match(Identifier)] + [Match(LeftParenthesis)]), q, g)
    ensures Reaches(ParseProcedureStatement(t, p, h), q + 1, g + [Match(RightParenthesis)] + [Exit(ProcedureStatement)])
  {
    hide ParseArgumentList;
  }

  lemma ForStep(t: seq<Kind>, p: nat, h: seq<Event>, q1: nat, g1: seq<Event>, q2: nat, g2: seq<Event>)
    requires p < q1 < q2 && q2 + 2 <= |t|
    requires Peek(t, p) == ForSymbol && Peek(t, p + 1) == LeftParenthesis
    requires Peek(t, p + 2) == Identifier && Peek(t, p + 3) == BecomesSymbol
    requires Reaches(ParseForControl(t, p + 1, h + [Enter(ForStatement)] + [Match(ForSymbol)]), q1, g1)
    requires Peek(t, q1) == DoSymbol
    requires Reaches(ParseStatementList(t, q1 + 1, g1 + [Match(DoSymbol)]), q2, g2)
    requires Peek(t, q2) == EndSymbol && Peek(t, q2 + 1) == LoopSymbol
    ensures Reaches(ParseForStatement(t, p, h), q2 + 2, g2 + [Match(EndSymbol)] + [Match(LoopSymbol)] + [Exit(ForStatement)])
  {
    hide ParseStatementList, ParseForControl;
  }

  lemma ForControlStep(t: seq<Kind>, p: nat, h: seq<Event>, c: ConditionTree, q1: nat, g1: seq<Event>, q2: nat, g2: seq<Event>)
    requires p < q1 && q1 + 4 < q2 < |t|
    requires Peek(t, p) == LeftParenthesis
    requires Reaches(ParseAssignmentStatement(t, p + 1, h + [Match(LeftParenthesis)]), q1, g1)
    requires Peek(t, q1) == SemicolonSymbol
    requires Reaches(ParseCondition(t, q1 + 1, g1 + [Match(SemicolonSymbol)]), q1 + 4, g1 + [Match(SemicolonSymbol)] + ConditionEvents(c))
    requires Peek(t, q1 + 4) == SemicolonSymbol
    requires Reaches(ParseAssignmentStatement(t, q1 + 5, g1 + [Match(SemicolonSymbol)] + ConditionEvents(c) + [Match(SemicolonSymbol)]), q2, g2)
    requires Peek(t, q2) == RightParenthesis
    ensures Reaches(ParseForControl(t, p, h), q2 + 1, g2 + [Match(RightParenthesis)])
  {
    hide ParseAssignmentStatement, ParseCondition;
  }

  lemma ArgumentsStep(t: seq<Kind>, p: nat, h: seq<Event>, q: nat, g: seq<Event>)
    requires p < q <= |t| && Peek(t, p) == Identifier
    requires Reaches(ParseArgumentListTail(t, p + 1, h + [Enter(ArgumentList)] + [Match(Identifier)]), q, g)
    ensures Reaches(ParseArgumentList(t, p, h), q, g + [Exit(ArgumentList)])
  {
    hide ParseArgumentListTail;
  }

  lemma ArgumentsTailStep(t: seq<Kind>, p: nat, h: seq<Event>, q: nat, g: seq<Event>)
    requires p + 2 <= q <= |t| && Peek(t, p) == CommaSymbol && Peek(t, p + 1) == Identifier
    requires Reaches(ParseArgumentListTail(t, p + 2, h + [Match(CommaSymbol)] + [Match(Identifier)]), q, g)
    ensures Reaches(ParseArgumentListTail(t, p, h), q, g)
  {
  }

  lemma ListStep(t: seq<Kind>, p: nat, h: seq<Event>, q: nat, g: seq<Event>, r: nat, e: seq<Event>)
    requires p <= q <= r <= |t|
    requires Reaches(ParseStatement(t, p, h + [Enter(StatementList)]), q, g)
    requires Reaches(ParseStatementListTail(t, q, g), r, e)
    ensures Reaches(ParseStatementList(t, p, h), r, e + [Exit(StatementList)])
  {
    hide ParseStatementListTail, ParseStatement;
  }

  lemma ListTailStep(t: seq<Kind>, p: nat, h: seq<Event>, q: nat, g: seq<Event>, r: nat, e: seq<Event>)
    requires p < q <= r <= |t| && Peek(t, p) == SemicolonSymbol
    requires Reaches(ParseStatement(t, p + 1, h + [Match(SemicolonSymbol)]), q, g)
    requires Reaches(ParseStatementListTail(t, q, g), r, e)
    ensures Reaches(ParseStatementListTail(t, p, h), r, e)
  {
    hide ParseStatement;
  }

  lemma ProgramStep(t: seq<Kind>, p: nat, h: seq<Event>, q: nat, g: seq<Event>)
    requires p < q < |t| && Peek(t, p) == BeginSymbol && Peek(t, q) == EndSymbol
    requires Reaches(ParseStatementList(t, p + 1, h + [Enter(StatementPart)] + [Match(BeginSymbol)]), q, g)
    ensures Reaches(ParseStatementPart(t, p, h), q + 1, g + [Match(EndSymbol)] + [Exit(StatementPart)])
  {
    hide ParseStatementList;
  }
}
