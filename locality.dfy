/** How far the analyser looks. Every recogniser decides its outcome from the
    tokens it consumes plus at most one token of lookahead, so two streams
    that agree below one past where it stopped give the same outcome; and a
    successful statementPart, which ends by accepting `end`, never looks at
    any token after that `end`. */
module Locality {
  import opened Tokens
  import opened Events
  import opened Grammar

  /** `t` and `u` show the same lookahead at every position below `n`. */
  ghost predicate Agree(t: seq<Kind>, u: seq<Kind>, n: nat) {
    forall i :: 0 <= i < n ==> Peek(t, i) == Peek(u, i)
  }

  lemma AgreeAt(t: seq<Kind>, u: seq<Kind>, i: nat, n: nat)
    requires Agree(t, u, n)
    ensures i < n ==> Peek(t, i) == Peek(u, i)
  {
  }

  /** Accepting at a position below the agreement bound gives the same outcome
      on both streams. */
  lemma AcceptLocal(t: seq<Kind>, u: seq<Kind>, q: nat, k: Kind, ev: seq<Event>, n: nat)
    requires q <= |t| && k != EofSymbol && Agree(t, u, n)
    ensures q <= |u| && q < n ==> Accept(u, q, k, ev) == Accept(t, q, k, ev)
  {
    AgreeAt(t, u, q, n);
  }

  /** A successful statementPart reads nothing beyond the `end` it accepts
      last: agreement on the tokens it consumed is enough. */
  lemma StatementPartLocal(t: seq<Kind>, u: seq<Kind>, p: nat, h: seq<Event>)
    requires p <= |t| && p <= |u|
    requires ParseStatementPart(t, p, h).Done?
    requires Agree(t, u, ParseStatementPart(t, p, h).pos)
    ensures ParseStatementPart(u, p, h) == ParseStatementPart(t, p, h)
  {
    var n := ParseStatementPart(t, p, h).pos;
    var h1 := h + [Enter(StatementPart)];
    AcceptLocal(t, u, p, BeginSymbol, h1, n);
    var a := Accept(t, p, BeginSymbol, h1);
    StatementListLocal(t, u, a.pos, a.events, n);
    var b := ParseStatementList(t, a.pos, a.events);
    AcceptLocal(t, u, b.pos, EndSymbol, b.events, n);
  }

  /** Whatever follows the `end` of a successful statementPart, replacing it
      changes neither where the analyser stops nor what the sink receives. */
  lemma StatementPartIgnoresRest(t: seq<Kind>, p: nat, h: seq<Event>, rest: seq<Kind>)
    requires p <= |t| && ParseStatementPart(t, p, h).Done?
    ensures ParseStatementPart(t[..ParseStatementPart(t, p, h).pos] + rest, p, h) == ParseStatementPart(t, p, h)
  {
    var e := ParseStatementPart(t, p, h).pos;
    var u := t[..e] + rest;
    forall i | 0 <= i < e
      ensures Peek(t, i) == Peek(u, i)
    {
      assert u[i] == t[i];
    }
    StatementPartLocal(t, u, p, h);
  }

  lemma {:induction false} StatementListLocal(t: seq<Kind>, u: seq<Kind>, p: nat, h: seq<Event>, n: nat)
    requires p <= |t| && Agree(t, u, n)
    decreases |t| - p, 9
    ensures p <= |u| && ParseStatementList(t, p, h).pos < n ==> ParseStatementList(u, p, h) == ParseStatementList(t, p, h)
  {
    var h1 := h + [Enter(StatementList)];
    StatementLocal(t, u, p, h1, n);
    var a := ParseStatement(t, p, h1);
    if a.Fail? { return; }
    StatementListTailLocal(t, u, a.pos, a.events, n);
  }

  lemma {:induction false} StatementListTailLocal(t: seq<Kind>, u: seq<Kind>, p: nat, h: seq<Event>, n: nat)
    requires p <= |t| && Agree(t, u, n)
    decreases |t| - p, 1
    ensures p <= |u| && ParseStatementListTail(t, p, h).pos < n ==> ParseStatementListTail(u, p, h) == ParseStatementListTail(t, p, h)
  {
    AgreeAt(t, u, p, n);
    if Peek(t, p) == SemicolonSymbol {
      AcceptLocal(t, u, p, SemicolonSymbol, h, n);
      var a := Accept(t, p, SemicolonSymbol, h);
      StatementLocal(t, u, a.pos, a.events, n);
      var b := ParseStatement(t, a.pos, a.events);
      if b.Fail? { return; }
      StatementListTailLocal(t, u, b.pos, b.events, n);
    }
  }

  lemma {:induction false} StatementLocal(t: seq<Kind>, u: seq<Kind>, p: nat, h: seq<Event>, n: nat)
    requires p <= |t| && Agree(t, u, n)
    decreases |t| - p, 8
    ensures p <= |u| && ParseStatement(t, p, h).pos < n ==> ParseStatement(u, p, h) == ParseStatement(t, p, h)
  {
    var h1 := h + [Enter(Statement)];
    AgreeAt(t, u, p, n);
    match Peek(t, p)
    case Identifier => AssignmentStatementLocal(t, u, p, h1, n);
    case IfSymbol => IfStatementLocal(t, u, p, h1, n);
    case WhileSymbol => WhileStatementLocal(t, u, p, h1, n);
    case CallSymbol => ProcedureStatementLocal(t, u, p, h1, n);
    case UntilSymbol => UntilStatementLocal(t, u, p, h1, n);
    case ForSymbol => ForStatementLocal(t, u, p, h1, n);
    case _ =>
  }

  lemma {:induction false} AssignmentStatementLocal(t: seq<Kind>, u: seq<Kind>, p: nat, h: seq<Event>, n: nat)
    requires p <= |t| && Agree(t, u, n)
    decreases |t| - p, 7
    ensures p <= |u| && ParseAssignmentStatement(t, p, h).pos < n ==> ParseAssignmentStatement(u, p, h) == ParseAssignmentStatement(t, p, h)
  {
    var h1 := h + [Enter(AssignmentStatement)];
    AcceptLocal(t, u, p, Identifier, h1, n);
    var a := Accept(t, p, Identifier, h1);
    if a.Fail? { return; }
    AcceptLocal(t, u, a.pos, BecomesSymbol, a.events, n);
    var b := Accept(t, a.pos, BecomesSymbol, a.events);
    if b.Fail? { return; }
    AssignmentStatementRemainderLocal(t, u, b.pos, b.events, n);
  }

  lemma {:induction false} AssignmentStatementRemainderLocal(t: seq<Kind>, u: seq<Kind>, p: nat, h: seq<Event>, n: nat)
    requires p <= |t| && Agree(t, u, n)
    decreases |t| - p, 5
    ensures p <= |u| && ParseAssignmentStatementRemainder(t, p, h).pos < n ==> ParseAssignmentStatementRemainder(u, p, h) == ParseAssignmentStatementRemainder(t, p, h)
  {
    AgreeAt(t, u, p, n);
    if Peek(t, p) == StringConstant {
      AcceptLocal(t, u, p, StringConstant, h, n);
    } else {
      ExpressionLocal(t, u, p, h, n);
    }
  }

  lemma {:induction false} IfStatementLocal(t: seq<Kind>, u: seq<Kind>, p: nat, h: seq<Event>, n: nat)
    requires p <= |t| && Agree(t, u, n)
    decreases |t| - p, 7
    ensures p <= |u| && ParseIfStatement(t, p, h).pos < n ==> ParseIfStatement(u, p, h) == ParseIfStatement(t, p, h)
  {
    var h1 := h + [Enter(IfStatement)];
    AcceptLocal(t, u, p, IfSymbol, h1, n);
    var a := Accept(t, p, IfSymbol, h1);
    if a.Fail? { return; }
    ConditionLocal(t, u, a.pos, a.events, n);
    var b := ParseCondition(t, a.pos, a.events);
    if b.Fail? { return; }
    AcceptLocal(t, u, b.pos, ThenSymbol, b.events, n);
    var c := Accept(t, b.pos, ThenSymbol, b.events);
    if c.Fail? { return; }
    StatementListLocal(t, u, c.pos, c.events, n);
    var d := ParseStatementList(t, c.pos, c.events);
    if d.Fail? { return; }
    IfStatementRemainderLocal(t, u, d.pos, d.events, n);
  }

  lemma {:induction false} IfStatementRemainderLocal(t: seq<Kind>, u: seq<Kind>, p: nat, h: seq<Event>, n: nat)
    requires p <= |t| && Agree(t, u, n)
    decreases |t| - p, 1
    ensures p <= |u| && ParseIfStatementRemainder(t, p, h).pos < n ==> ParseIfStatementRemainder(u, p, h) == ParseIfStatementRemainder(t, p, h)
  {
    AgreeAt(t, u, p, n);
    var a := Done(p, h);
    if Peek(t, p) == ElseSymbol {
      AcceptLocal(t, u, p, ElseSymbol, h, n);
      var e := Accept(t, p, ElseSymbol, h);
      StatementListLocal(t, u, e.pos, e.events, n);
      a := ParseStatementList(t, e.pos, e.events);
    }
    if a.Fail? { return; }
    AcceptLocal(t, u, a.pos, EndSymbol, a.events, n);
    var b := Accept(t, a.pos, EndSymbol, a.events);
    if b.Fail? { return; }
    AcceptLocal(t, u, b.pos, IfSymbol, b.events, n);
  }

  lemma {:induction false} WhileStatementLocal(t: seq<Kind>, u: seq<Kind>, p: nat, h: seq<Event>, n: nat)
    requires p <= |t| && Agree(t, u, n)
    decreases |t| - p, 7
    ensures p <= |u| && ParseWhileStatement(t, p, h).pos < n ==> ParseWhileStatement(u, p, h) == ParseWhileStatement(t, p, h)
  {
    var h1 := h + [Enter(WhileStatement)];
    AcceptLocal(t, u, p, WhileSymbol, h1, n);
    var a := Accept(t, p, WhileSymbol, h1);
    if a.Fail? { return; }
    ConditionLocal(t, u, a.pos, a.events, n);
    var b := ParseCondition(t, a.pos, a.events);
    if b.Fail? { return; }
    AcceptLocal(t, u, b.pos, LoopSymbol, b.events, n);
    var c := Accept(t, b.pos, LoopSymbol, b.events);
    if c.Fail? { return; }
    StatementListLocal(t, u, c.pos, c.events, n);
    var d := ParseStatementList(t, c.pos, c.events);
    if d.Fail? { return; }
    AcceptLocal(t, u, d.pos, EndSymbol, d.events, n);
    var e := Accept(t, d.pos, EndSymbol, d.events);
    if e.Fail? { return; }
    AcceptLocal(t, u, e.pos, LoopSymbol, e.events, n);
  }

  lemma {:induction false} ProcedureStatementLocal(t: seq<Kind>, u: seq<Kind>, p: nat, h: seq<Event>, n: nat)
    requires p <= |t| && Agree(t, u, n)
    decreases |t| - p, 7
    ensures p <= |u| && ParseProcedureStatement(t, p, h).pos < n ==> ParseProcedureStatement(u, p, h) == ParseProcedureStatement(t, p, h)
  {
    var h1 := h + [Enter(ProcedureStatement)];
    AcceptLocal(t, u, p, CallSymbol, h1, n);
    var a := Accept(t, p, CallSymbol, h1);
    if a.Fail? { return; }
    AcceptLocal(t, u, a.pos, Identifier, a.events, n);
    var b := Accept(t, a.pos, Identifier, a.events);
    if b.Fail? { return; }
    AcceptLocal(t, u, b.pos, LeftParenthesis, b.events, n);
    var c := Accept(t, b.pos, LeftParenthesis, b.events);
    if c.Fail? { return; }
    ArgumentListLocal(t, u, c.pos, c.events, n);
    var d := ParseArgumentList(t, c.pos, c.events);
    if d.Fail? { return; }
    AcceptLocal(t, u, d.pos, RightParenthesis, d.events, n);
  }

  lemma {:induction false} UntilStatementLocal(t: seq<Kind>, u: seq<Kind>, p: nat, h: seq<Event>, n: nat)
    requires p <= |t| && Agree(t, u, n)
    decreases |t| - p, 7
    ensures p <= |u| && ParseUntilStatement(t, p, h).pos < n ==> ParseUntilStatement(u, p, h) == ParseUntilStatement(t, p, h)
  {
    var h1 := h + [Enter(UntilStatement)];
    AcceptLocal(t, u, p, DoSymbol, h1, n);
    var a := Accept(t, p, DoSymbol, h1);
    if a.Fail? { return; }
    StatementListLocal(t, u, a.pos, a.events, n);
    var b := ParseStatementList(t, a.pos, a.events);
    if b.Fail? { return; }
    AcceptLocal(t, u, b.pos, UntilSymbol, b.events, n);
    var c := Accept(t, b.pos, UntilSymbol, b.events);
    if c.Fail? { return; }
    ConditionLocal(t, u, c.pos, c.events, n);
  }

  lemma {:induction false} ForStatementLocal(t: seq<Kind>, u: seq<Kind>, p: nat, h: seq<Event>, n: nat)
    requires p <= |t| && Agree(t, u, n)
    decreases |t| - p, 7
    ensures p <= |u| && ParseForStatement(t, p, h).pos < n ==> ParseForStatement(u, p, h) == ParseForStatement(t, p, h)
  {
    var h1 := h + [Enter(ForStatement)];
    AcceptLocal(t, u, p, ForSymbol, h1, n);
    var a := Accept(t, p, ForSymbol, h1);
    if a.Fail? { return; }
    ForControlLocal(t, u, a.pos, a.events, n);
    var b := ParseForControl(t, a.pos, a.events);
    if b.Fail? { return; }
    AcceptLocal(t, u, b.pos, DoSymbol, b.events, n);
    var c := Accept(t, b.pos, DoSymbol, b.events);
    if c.Fail? { return; }
    StatementListLocal(t, u, c.pos, c.events, n);
    var d := ParseStatementList(t, c.pos, c.events);
    if d.Fail? { return; }
    AcceptLocal(t, u, d.pos, EndSymbol, d.events, n);
    var e := Accept(t, d.pos, EndSymbol, d.events);
    if e.Fail? { return; }
    AcceptLocal(t, u, e.pos, LoopSymbol, e.events, n);
  }

  lemma {:induction false} ForControlLocal(t: seq<Kind>, u: seq<Kind>, p: nat, h: seq<Event>, n: nat)
    requires p <= |t| && Agree(t, u, n)
    ensures p <= |u| && ParseForControl(t, p, h).pos < n ==> ParseForControl(u, p, h) == ParseForControl(t, p, h)
  {
    AcceptLocal(t, u, p, LeftParenthesis, h, n);
    var a := Accept(t, p, LeftParenthesis, h);
    if a.Fail? { return; }
    AssignmentStatementLocal(t, u, a.pos, a.events, n);
    var b := ParseAssignmentStatement(t, a.pos, a.events);
    if b.Fail? { return; }
    AcceptLocal(t, u, b.pos, SemicolonSymbol, b.events, n);
    var c := Accept(t, b.pos, SemicolonSymbol, b.events);
    if c.Fail? { return; }
    ConditionLocal(t, u, c.pos, c.events, n);
    var d := ParseCondition(t, c.pos, c.events);
    if d.Fail? { return; }
    AcceptLocal(t, u, d.pos, SemicolonSymbol, d.events, n);
    var e := Accept(t, d.pos, SemicolonSymbol, d.events);
    if e.Fail? { return; }
    AssignmentStatementLocal(t, u, e.pos, e.events, n);
    var f := ParseAssignmentStatement(t, e.pos, e.events);
    if f.Fail? { return; }
    AcceptLocal(t, u, f.pos, RightParenthesis, f.events, n);
  }

  lemma {:induction false} ArgumentListLocal(t: seq<Kind>, u: seq<Kind>, p: nat, h: seq<Event>, n: nat)
    requires p <= |t| && Agree(t, u, n)
    ensures p <= |u| && ParseArgumentList(t, p, h).pos < n ==> ParseArgumentList(u, p, h) == ParseArgumentList(t, p, h)
  {
    var h1 := h + [Enter(ArgumentList)];
    AcceptLocal(t, u, p, Identifier, h1, n);
    var a := Accept(t, p, Identifier, h1);
    if a.Fail? { return; }
    ArgumentListTailLocal(t, u, a.pos, a.events, n);
  }

  lemma {:induction false} ArgumentListTailLocal(t: seq<Kind>, u: seq<Kind>, p: nat, h: seq<Event>, n: nat)
    requires p <= |t| && Agree(t, u, n)
    decreases |t| - p
    ensures p <= |u| && ParseArgumentListTail(t, p, h).pos < n ==> ParseArgumentListTail(u, p, h) == ParseArgumentListTail(t, p, h)
  {
    AgreeAt(t, u, p, n);
    if Peek(t, p) == CommaSymbol {
      AcceptLocal(t, u, p, CommaSymbol, h, n);
      var a := Accept(t, p, CommaSymbol, h);
      AcceptLocal(t, u, a.pos, Identifier, a.events, n);
      var b := Accept(t, a.pos, Identifier, a.events);
      if b.Fail? { return; }
      ArgumentListTailLocal(t, u, b.pos, b.events, n);
    }
  }

  lemma {:induction false} ConditionLocal(t: seq<Kind>, u: seq<Kind>, p: nat, h: seq<Event>, n: nat)
    requires p <= |t| && Agree(t, u, n)
    ensures p <= |u| && ParseCondition(t, p, h).pos < n ==> ParseCondition(u, p, h) == ParseCondition(t, p, h)
  {
    var h1 := h + [Enter(Condition)];
    AcceptLocal(t, u, p, Identifier, h1, n);
    var a := Accept(t, p, Identifier, h1);
    if a.Fail? { return; }
    ConditionalOperatorLocal(t, u, a.pos, a.events, n);
    var b := ParseConditionalOperator(t, a.pos, a.events);
    if b.Fail? { return; }
    ConditionRemainderLocal(t, u, b.pos, b.events, n);
  }

  lemma {:induction false} ConditionRemainderLocal(t: seq<Kind>, u: seq<Kind>, p: nat, h: seq<Event>, n: nat)
    requires p <= |t| && Agree(t, u, n)
    ensures p <= |u| && ParseConditionRemainder(t, p, h).pos < n ==> ParseConditionRemainder(u, p, h) == ParseConditionRemainder(t, p, h)
  {
    AgreeAt(t, u, p, n);
  }

  lemma {:induction false} ConditionalOperatorLocal(t: seq<Kind>, u: seq<Kind>, p: nat, h: seq<Event>, n: nat)
    requires p <= |t| && Agree(t, u, n)
    ensures p <= |u| && ParseConditionalOperator(t, p, h).pos < n ==> ParseConditionalOperator(u, p, h) == ParseConditionalOperator(t, p, h)
  {
    AgreeAt(t, u, p, n);
  }

  lemma {:induction false} ExpressionLocal(t: seq<Kind>, u: seq<Kind>, p: nat, h: seq<Event>, n: nat)
    requires p <= |t| && Agree(t, u, n)
    decreases |t| - p, 4
    ensures p <= |u| && ParseExpression(t, p, h).pos < n ==> ParseExpression(u, p, h) == ParseExpression(t, p, h)
  {
    var h1 := h + [Enter(Expression)];
    TermLocal(t, u, p, h1, n);
    var a := ParseTerm(t, p, h1);
    if a.Fail? { return; }
    ExpressionTailLocal(t, u, a.pos, a.events, n);
  }

  lemma {:induction false} ExpressionTailLocal(t: seq<Kind>, u: seq<Kind>, p: nat, h: seq<Event>, n: nat)
    requires p <= |t| && Agree(t, u, n)
    decreases |t| - p, 1
    ensures p <= |u| && ParseExpressionTail(t, p, h).pos < n ==> ParseExpressionTail(u, p, h) == ParseExpressionTail(t, p, h)
  {
    AgreeAt(t, u, p, n);
    if Peek(t, p) in {PlusSymbol, MinusSymbol} {
      AcceptLocal(t, u, p, Peek(t, p), h, n);
      var a := Accept(t, p, Peek(t, p), h);
      TermLocal(t, u, a.pos, a.events, n);
      var b := ParseTerm(t, a.pos, a.events);
      if b.Fail? { return; }
      ExpressionTailLocal(t, u, b.pos, b.events, n);
    }
  }

  lemma {:induction false} TermLocal(t: seq<Kind>, u: seq<Kind>, p: nat, h: seq<Event>, n: nat)
    requires p <= |t| && Agree(t, u, n)
    decreases |t| - p, 3
    ensures p <= |u| && ParseTerm(t, p, h).pos < n ==> ParseTerm(u, p, h) == ParseTerm(t, p, h)
  {
    var h1 := h + [Enter(Term)];
    FactorLocal(t, u, p, h1, n);
    var a := ParseFactor(t, p, h1);
    if a.Fail? { return; }
    TermTailLocal(t, u, a.pos, a.events, n);
  }

  lemma {:induction false} TermTailLocal(t: seq<Kind>, u: seq<Kind>, p: nat, h: seq<Event>, n: nat)
    requires p <= |t| && Agree(t, u, n)
    decreases |t| - p, 1
    ensures p <= |u| && ParseTermTail(t, p, h).pos < n ==> ParseTermTail(u, p, h) == ParseTermTail(t, p, h)
  {
    AgreeAt(t, u, p, n);
    if Peek(t, p) in {TimesSymbol, DivideSymbol, ModSymbol} {
      AcceptLocal(t, u, p, Peek(t, p), h, n);
      var a := Accept(t, p, Peek(t, p), h);
      FactorLocal(t, u, a.pos, a.events, n);
      var b := ParseFactor(t, a.pos, a.events);
      if b.Fail? { return; }
      TermTailLocal(t, u, b.pos, b.events, n);
    }
  }

  lemma {:induction false} FactorLocal(t: seq<Kind>, u: seq<Kind>, p: nat, h: seq<Event>, n: nat)
    requires p <= |t| && Agree(t, u, n)
    decreases |t| - p, 2
    ensures p <= |u| && ParseFactor(t, p, h).pos < n ==> ParseFactor(u, p, h) == ParseFactor(t, p, h)
  {
    var h1 := h + [Enter(Factor)];
    AgreeAt(t, u, p, n);
    if Peek(t, p) == LeftParenthesis {
      AcceptLocal(t, u, p, LeftParenthesis, h1, n);
      var a := Accept(t, p, LeftParenthesis, h1);
      ExpressionLocal(t, u, a.pos, a.events, n);
      var b := ParseExpression(t, a.pos, a.events);
      if b.Fail? { return; }
      AcceptLocal(t, u, b.pos, RightParenthesis, b.events, n);
    }
  }
}
