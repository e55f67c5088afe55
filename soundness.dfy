/** Soundness of the recognisers: whatever a recogniser returns from
    normally is the spelling of a derivation tree, and the notifications it
    sent are exactly that tree's. Each lemma takes a normal return, returns
    the tree, and proves it by induction on the recursion of the
    recognisers: it unfolds the body of its own recogniser once, takes the
    trees of the parts from the lemmas of the recognisers it calls, and
    joins their spellings and notifications. The proofs hide the bodies of
    the recognisers they do not unfold, and the spellings and notifications
    of the parts they only join. */
module Soundness {
  import opened Tokens
  import opened Events
  import opened Grammar
  import opened Derivations
  import opened Spelling
  import opened Appends
  import opened Productions
  import opened Acceptance

  /** `r` is a normal return that consumed exactly the spelling `y` from
      position `p` and appended exactly `e` to the history `h`. */
  ghost predicate Yields(r: Outcome, t: seq<Kind>, p: nat, h: seq<Event>, y: seq<Kind>, e: seq<Event>) {
    r == Done(p + |y|, h + e) && Spells(t, p, y)
  }

  // Expressions.

  lemma {:induction false} FactorSound(t: seq<Kind>, p: nat, h: seq<Event>) returns (f: FactorTree)
    requires p <= |t| && ParseFactor(t, p, h).Done?
    ensures Yields(ParseFactor(t, p, h), t, p, h, FactorYield(f), FactorEvents(f))
    decreases |t| - p, 2
  {
    hide ParseExpression, Spells, ExpressionYield, ExpressionEvents;
    var h1 := h + [Enter(Factor)];
    if Peek(t, p) == Identifier {
      f := Name;
      Token(t, p, Identifier);
      Triple(h, Enter(Factor), Match(Identifier), Exit(Factor));
    } else if Peek(t, p) == NumberConstant {
      f := Number;
      Token(t, p, NumberConstant);
      Triple(h, Enter(Factor), Match(NumberConstant), Exit(Factor));
    } else {
      var g := h1 + [Match(LeftParenthesis)];
      var e := ExpressionSound(t, p + 1, g);
      var q := p + 1 + |ExpressionYield(e)|;
      f := Parenthesised(e);
      Token(t, p, LeftParenthesis);
      Join(t, p, [LeftParenthesis], ExpressionYield(e));
      Token(t, q, RightParenthesis);
      Join(t, p, [LeftParenthesis] + ExpressionYield(e), [RightParenthesis]);
      Bracket(h, Enter(Factor), Match(LeftParenthesis), ExpressionEvents(e), Match(RightParenthesis), Exit(Factor));
    }
  }

  lemma {:induction false} TermSound(t: seq<Kind>, p: nat, h: seq<Event>) returns (tr: TermTree)
    requires p <= |t| && ParseTerm(t, p, h).Done?
    ensures Yields(ParseTerm(t, p, h), t, p, h, TermYield(tr), TermEvents(tr))
    decreases |t| - p, 3
  {
    hide ParseFactor, ParseTermTail, Spells, FactorYield, TermRestYield, FactorEvents, TermRestEvents;
    var g := h + [Enter(Term)];
    var f := FactorSound(t, p, g);
    var rest := TermTailSound(t, p + |FactorYield(f)|, g + FactorEvents(f));
    tr := TermTree(f, rest);
    Join(t, p, FactorYield(f), TermRestYield(rest));
    Wrap(h, Enter(Term), FactorEvents(f), TermRestEvents(rest), Exit(Term));
  }

  /** One turn of the `*`, `/`, `mod` loop: the operator, then a factor. */
  lemma TermTailTurn(t: seq<Kind>, p: nat, h: seq<Event>)
    requires p <= |t| && ContinuesTerm(Peek(t, p))
    ensures p < |t|
    ensures var b := ParseFactor(t, p + 1, h + [Match(Peek(t, p))]);
      ParseTermTail(t, p, h) == if b.Fail? then b else ParseTermTail(t, b.pos, b.events)
  {
    hide ParseFactor;
  }

  lemma {:induction false} TermTailSound(t: seq<Kind>, p: nat, h: seq<Event>) returns (rest: TermRest)
    requires p <= |t| && ParseTermTail(t, p, h).Done?
    ensures Yields(ParseTermTail(t, p, h), t, p, h, TermRestYield(rest), TermRestEvents(rest))
    decreases |t| - p, 1
  {
    hide ParseFactor, ParseTermTail, Spells, FactorYield, FactorEvents;
    if ContinuesTerm(Peek(t, p)) {
      TermTailTurn(t, p, h);
      var op: MulOp := Peek(t, p);
      var g := h + [Match(op)];
      var f := FactorSound(t, p + 1, g);
      var q := p + 1 + |FactorYield(f)|;
      var next := TermTailSound(t, q, g + FactorEvents(f));
      rest := MoreFactor(op, f, next);
      Token(t, p, op);
      Join(t, p, [op], FactorYield(f));
      Join(t, p, [op] + FactorYield(f), TermRestYield(next));
      Lead(h, Match(op), FactorEvents(f), TermRestEvents(next));
    } else {
      rest := NoFactor;
      Nothing(t, p);
      assert h + [] == h;
    }
  }

  lemma {:induction false} ExpressionSound(t: seq<Kind>, p: nat, h: seq<Event>) returns (x: ExpressionTree)
    requires p <= |t| && ParseExpression(t, p, h).Done?
    ensures Yields(ParseExpression(t, p, h), t, p, h, ExpressionYield(x), ExpressionEvents(x))
    decreases |t| - p, 4
  {
    hide ParseTerm, ParseExpressionTail, Spells, TermYield, ExpressionRestYield, TermEvents, ExpressionRestEvents;
    var g := h + [Enter(Expression)];
    var tr := TermSound(t, p, g);
    var rest := ExpressionTailSound(t, p + |TermYield(tr)|, g + TermEvents(tr));
    x := ExpressionTree(tr, rest);
    Join(t, p, TermYield(tr), ExpressionRestYield(rest));
    Wrap(h, Enter(Expression), TermEvents(tr), ExpressionRestEvents(rest), Exit(Expression));
  }

  /** One turn of the `+`, `-` loop: the operator, then a term. */
  lemma ExpressionTailTurn(t: seq<Kind>, p: nat, h: seq<Event>)
    requires p <= |t| && (Peek(t, p) == PlusSymbol || Peek(t, p) == MinusSymbol)
    ensures p < |t|
    ensures var b := ParseTerm(t, p + 1, h + [Match(Peek(t, p))]);
      ParseExpressionTail(t, p, h) == if b.Fail? then b else ParseExpressionTail(t, b.pos, b.events)
  {
    hide ParseTerm;
  }

  lemma {:induction false} ExpressionTailSound(t: seq<Kind>, p: nat, h: seq<Event>) returns (rest: ExpressionRest)
    requires p <= |t| && ParseExpressionTail(t, p, h).Done?
    ensures Yields(ParseExpressionTail(t, p, h), t, p, h, ExpressionRestYield(rest), ExpressionRestEvents(rest))
    decreases |t| - p, 1
  {
    hide ParseTerm, ParseExpressionTail, Spells, TermYield, TermEvents;
    if Peek(t, p) == PlusSymbol || Peek(t, p) == MinusSymbol {
      ExpressionTailTurn(t, p, h);
      var op: AddOp := Peek(t, p);
      var g := h + [Match(op)];
      var tr := TermSound(t, p + 1, g);
      var q := p + 1 + |TermYield(tr)|;
      var next := ExpressionTailSound(t, q, g + TermEvents(tr));
      rest := MoreTerm(op, tr, next);
      Token(t, p, op);
      Join(t, p, [op], TermYield(tr));
      Join(t, p, [op] + TermYield(tr), ExpressionRestYield(next));
      Lead(h, Match(op), TermEvents(tr), ExpressionRestEvents(next));
    } else {
      rest := NoTerm;
      Nothing(t, p);
      assert h + [] == h;
    }
  }

  // Conditions, assignments and argument lists.

  lemma ConditionSound(t: seq<Kind>, p: nat, h: seq<Event>) returns (c: ConditionTree)
    requires p <= |t| && ParseCondition(t, p, h).Done?
    ensures Yields(ParseCondition(t, p, h), t, p, h, ConditionYield(c), ConditionEvents(c))
  {
    hide ParseConditionalOperator, ParseConditionRemainder;
    var h1 := h + [Enter(Condition)] + [Match(Identifier)];
    var o := ParseConditionalOperator(t, p + 1, h1);
    c := ConditionTree(Peek(t, p + 1), Peek(t, p + 2));
    assert t[p..p + 3] == [t[p], t[p + 1], t[p + 2]];
    ConditionShape(h, Enter(Condition), Match(Identifier), Enter(ConditionalOperator), Match(c.op),
      Exit(ConditionalOperator), Match(c.operand), Exit(Condition));
  }

  lemma {:induction false} ValueSound(t: seq<Kind>, p: nat, h: seq<Event>) returns (v: ValueTree)
    requires p <= |t| && ParseAssignmentStatementRemainder(t, p, h).Done?
    ensures Yields(ParseAssignmentStatementRemainder(t, p, h), t, p, h, ValueYield(v), ValueEvents(v))
  {
    hide ParseExpression, Spells;
    if Peek(t, p) == StringConstant {
      v := StringValue;
      Token(t, p, StringConstant);
    } else {
      var e := ExpressionSound(t, p, h);
      v := ExpressionValue(e);
    }
  }

  lemma {:induction false} AssignmentSound(t: seq<Kind>, p: nat, h: seq<Event>) returns (v: ValueTree)
    requires p <= |t| && ParseAssignmentStatement(t, p, h).Done?
    ensures Yields(ParseAssignmentStatement(t, p, h), t, p, h, AssignmentYield(v), AssignmentEvents(v))
  {
    hide ParseAssignmentStatementRemainder, Spells, ValueYield, ValueEvents;
    var g := h + [Enter(AssignmentStatement)] + [Match(Identifier)] + [Match(BecomesSymbol)];
    v := ValueSound(t, p + 2, g);
    Token(t, p, Identifier);
    Token(t, p + 1, BecomesSymbol);
    Join(t, p, [Identifier], [BecomesSymbol]);
    assert [Identifier] + [BecomesSymbol] == [Identifier, BecomesSymbol];
    Join(t, p, [Identifier, BecomesSymbol], ValueYield(v));
    AssignmentShape(h, Enter(AssignmentStatement), Match(Identifier), Match(BecomesSymbol), ValueEvents(v),
      Exit(AssignmentStatement));
  }

  lemma {:induction false} ArgumentsTailSound(t: seq<Kind>, p: nat, h: seq<Event>) returns (more: nat)
    requires p <= |t| && ParseArgumentListTail(t, p, h).Done?
    ensures Yields(ParseArgumentListTail(t, p, h), t, p, h, ArgumentsRestYield(more), ArgumentsRestEvents(more))
    decreases |t| - p
  {
    hide Spells;
    if Peek(t, p) == CommaSymbol {
      var next := ArgumentsTailSound(t, p + 2, h + [Match(CommaSymbol)] + [Match(Identifier)]);
      more := next + 1;
      Token(t, p, CommaSymbol);
      Token(t, p + 1, Identifier);
      Join(t, p, [CommaSymbol], [Identifier]);
      assert [CommaSymbol] + [Identifier] == [CommaSymbol, Identifier];
      Join(t, p, [CommaSymbol, Identifier], ArgumentsRestYield(next));
      LeadTwo(h, Match(CommaSymbol), Match(Identifier), ArgumentsRestEvents(next));
    } else {
      more := 0;
      Nothing(t, p);
      assert h + [] == h;
    }
  }

  lemma {:induction false} ArgumentsSound(t: seq<Kind>, p: nat, h: seq<Event>) returns (more: nat)
    requires p <= |t| && ParseArgumentList(t, p, h).Done?
    ensures Yields(ParseArgumentList(t, p, h), t, p, h, ArgumentsYield(more), ArgumentsEvents(more))
  {
    hide ParseArgumentListTail, Spells, ArgumentsRestYield, ArgumentsRestEvents;
    more := ArgumentsTailSound(t, p + 1, h + [Enter(ArgumentList)] + [Match(Identifier)]);
    Token(t, p, Identifier);
    Join(t, p, [Identifier], ArgumentsRestYield(more));
    ArgumentsShape(h, Enter(ArgumentList), Match(Identifier), ArgumentsRestEvents(more), Exit(ArgumentList));
  }

  lemma {:induction false} ForControlSound(t: seq<Kind>, p: nat, h: seq<Event>) returns (i: ValueTree, c: ConditionTree, st: ValueTree)
    requires p <= |t| && ParseForControl(t, p, h).Done?
    ensures Yields(ParseForControl(t, p, h), t, p, h, ForControlYield(i, c, st), ForControlEvents(i, c, st))
  {
    hide ParseAssignmentStatement, ParseCondition, Spells, AssignmentYield, ConditionYield, AssignmentEvents,
      ConditionEvents;
    var g1 := h + [Match(LeftParenthesis)];
    i := AssignmentSound(t, p + 1, g1);
    var q1 := p + 1 + |AssignmentYield(i)|;
    var g2 := g1 + AssignmentEvents(i) + [Match(SemicolonSymbol)];
    c := ConditionSound(t, q1 + 1, g2);
    var q2 := q1 + 1 + |ConditionYield(c)|;
    var g3 := g2 + ConditionEvents(c) + [Match(SemicolonSymbol)];
    st := AssignmentSound(t, q2 + 1, g3);
    var q3 := q2 + 1 + |AssignmentYield(st)|;
    Token(t, p, LeftParenthesis);
    Join(t, p, [LeftParenthesis], AssignmentYield(i));
    Token(t, q1, SemicolonSymbol);
    Join(t, p, [LeftParenthesis] + AssignmentYield(i), [SemicolonSymbol]);
    Join(t, p, [LeftParenthesis] + AssignmentYield(i) + [SemicolonSymbol], ConditionYield(c));
    Token(t, q2, SemicolonSymbol);
    Join(t, p, [LeftParenthesis] + AssignmentYield(i) + [SemicolonSymbol] + ConditionYield(c), [SemicolonSymbol]);
    Join(t, p, [LeftParenthesis] + AssignmentYield(i) + [SemicolonSymbol] + ConditionYield(c) + [SemicolonSymbol],
      AssignmentYield(st));
    Token(t, q3, RightParenthesis);
    Join(t, p, [LeftParenthesis] + AssignmentYield(i) + [SemicolonSymbol] + ConditionYield(c) + [SemicolonSymbol]
      + AssignmentYield(st), [RightParenthesis]);
    ControlShape(h, Match(LeftParenthesis), AssignmentEvents(i), Match(SemicolonSymbol), ConditionEvents(c),
      Match(SemicolonSymbol), AssignmentEvents(st), Match(RightParenthesis));
  }

  // Statements and statement lists.

  lemma {:induction false} ProcedureSound(t: seq<Kind>, p: nat, h: seq<Event>) returns (more: nat)
    requires p <= |t| && ParseProcedureStatement(t, p, h).Done?
    ensures Yields(ParseProcedureStatement(t, p, h), t, p, h, StatementYield(CallNode(more)),
      AlternativeEvents(CallNode(more)))
  {
    hide ParseArgumentList, Spells, ArgumentsYield, ArgumentsEvents;
    var g := h + [Enter(ProcedureStatement)] + [Match(CallSymbol)] + [Match(Identifier)] + [Match(LeftParenthesis)];
    more := ArgumentsSound(t, p + 3, g);
    var q := p + 3 + |ArgumentsYield(more)|;
    Token(t, p, CallSymbol);
    Token(t, p + 1, Identifier);
    Token(t, p + 2, LeftParenthesis);
    Join(t, p, [CallSymbol], [Identifier]);
    Join(t, p, [CallSymbol] + [Identifier], [LeftParenthesis]);
    assert [CallSymbol] + [Identifier] + [LeftParenthesis] == [CallSymbol, Identifier, LeftParenthesis];
    Join(t, p, [CallSymbol, Identifier, LeftParenthesis], ArgumentsYield(more));
    Token(t, q, RightParenthesis);
    Join(t, p, [CallSymbol, Identifier, LeftParenthesis] + ArgumentsYield(more), [RightParenthesis]);
    CallShape(h, Enter(ProcedureStatement), Match(CallSymbol), Match(Identifier), Match(LeftParenthesis),
      ArgumentsEvents(more), Match(RightParenthesis), Exit(ProcedureStatement));
  }

  /** The two closing tokens at `q`. */
  lemma Closing(t: seq<Kind>, q: nat, a: Kind, b: Kind)
    requires q + 1 < |t| && t[q] == a && t[q + 1] == b
    ensures Spells(t, q, [a, b])
  {
    assert t[q..q + 2] == [a, b];
  }

  lemma {:induction false} IfRemainderSound(t: seq<Kind>, p: nat, h: seq<Event>) returns (e: Option<ListTree>)
    requires p <= |t| && ParseIfStatementRemainder(t, p, h).Done?
    ensures Yields(ParseIfStatementRemainder(t, p, h), t, p, h, IfRemainderYield(e), IfRemainderEvents(e))
    decreases |t| - p, 1
  {
    hide ParseStatementList, Spells, ListYield, ListEvents;
    if Peek(t, p) == ElseSymbol {
      var l := ListSound(t, p + 1, h + [Match(ElseSymbol)]);
      var q := p + 1 + |ListYield(l)|;
      e := Some(l);
      Token(t, p, ElseSymbol);
      Join(t, p, [ElseSymbol], ListYield(l));
      Closing(t, q, EndSymbol, IfSymbol);
      Join(t, p, [ElseSymbol] + ListYield(l), [EndSymbol, IfSymbol]);
      ElseShape(h, Match(ElseSymbol), ListEvents(l), Match(EndSymbol), Match(IfSymbol));
    } else {
      e := None;
      Closing(t, p, EndSymbol, IfSymbol);
      Pair(h, Match(EndSymbol), Match(IfSymbol));
    }
  }

  lemma {:induction false} IfSound(t: seq<Kind>, p: nat, h: seq<Event>) returns (c: ConditionTree, a: ListTree, e: Option<ListTree>)
    requires p <= |t| && ParseIfStatement(t, p, h).Done?
    ensures Yields(ParseIfStatement(t, p, h), t, p, h, StatementYield(IfNode(c, a, e)), AlternativeEvents(IfNode(c, a, e)))
    decreases |t| - p, 7
  {
    hide ParseCondition, ParseStatementList, ParseIfStatementRemainder, Spells, ConditionYield, ListYield,
      IfRemainderYield, ConditionEvents, ListEvents, IfRemainderEvents;
    var g1 := h + [Enter(IfStatement)] + [Match(IfSymbol)];
    c := ConditionSound(t, p + 1, g1);
    var q := p + 1 + |ConditionYield(c)|;
    var g2 := g1 + ConditionEvents(c) + [Match(ThenSymbol)];
    a := ListSound(t, q + 1, g2);
    var m := q + 1 + |ListYield(a)|;
    e := IfRemainderSound(t, m, g2 + ListEvents(a));
    Token(t, p, IfSymbol);
    Join(t, p, [IfSymbol], ConditionYield(c));
    Token(t, q, ThenSymbol);
    Join(t, p, [IfSymbol] + ConditionYield(c), [ThenSymbol]);
    Join(t, p, [IfSymbol] + ConditionYield(c) + [ThenSymbol], ListYield(a));
    Join(t, p, [IfSymbol] + ConditionYield(c) + [ThenSymbol] + ListYield(a), IfRemainderYield(e));
    IfShape(h, Enter(IfStatement), Match(IfSymbol), ConditionEvents(c), Match(ThenSymbol), ListEvents(a),
      IfRemainderEvents(e), Exit(IfStatement));
  }

  lemma {:induction false} WhileSound(t: seq<Kind>, p: nat, h: seq<Event>) returns (c: ConditionTree, b: ListTree)
    requires p <= |t| && ParseWhileStatement(t, p, h).Done?
    ensures Yields(ParseWhileStatement(t, p, h), t, p, h, StatementYield(WhileNode(c, b)), AlternativeEvents(WhileNode(c, b)))
    decreases |t| - p, 7
  {
    hide ParseCondition, ParseStatementList, Spells, ConditionYield, ListYield, ConditionEvents, ListEvents;
    var g1 := h + [Enter(WhileStatement)] + [Match(WhileSymbol)];
    c := ConditionSound(t, p + 1, g1);
    var q := p + 1 + |ConditionYield(c)|;
    b := ListSound(t, q + 1, g1 + ConditionEvents(c) + [Match(LoopSymbol)]);
    var m := q + 1 + |ListYield(b)|;
    Token(t, p, WhileSymbol);
    Join(t, p, [WhileSymbol], ConditionYield(c));
    Token(t, q, LoopSymbol);
    Join(t, p, [WhileSymbol] + ConditionYield(c), [LoopSymbol]);
    Join(t, p, [WhileSymbol] + ConditionYield(c) + [LoopSymbol], ListYield(b));
    Closing(t, m, EndSymbol, LoopSymbol);
    Join(t, p, [WhileSymbol] + ConditionYield(c) + [LoopSymbol] + ListYield(b), [EndSymbol, LoopSymbol]);
    LoopShape(h, Enter(WhileStatement), Match(WhileSymbol), ConditionEvents(c), Match(LoopSymbol),
      ListEvents(b), Match(EndSymbol), Match(LoopSymbol), Exit(WhileStatement));
  }

  lemma {:induction false} ForSound(t: seq<Kind>, p: nat, h: seq<Event>) returns (i: ValueTree, c: ConditionTree, st: ValueTree, b: ListTree)
    requires p <= |t| && ParseForStatement(t, p, h).Done?
    ensures Yields(ParseForStatement(t, p, h), t, p, h, StatementYield(ForNode(i, c, st, b)),
      AlternativeEvents(ForNode(i, c, st, b)))
    decreases |t| - p, 7
  {
    hide ParseForControl, ParseStatementList, Spells, ForControlYield, ListYield, ForControlEvents, ListEvents;
    var g1 := h + [Enter(ForStatement)] + [Match(ForSymbol)];
    i, c, st := ForControlSound(t, p + 1, g1);
    var q := p + 1 + |ForControlYield(i, c, st)|;
    b := ListSound(t, q + 1, g1 + ForControlEvents(i, c, st) + [Match(DoSymbol)]);
    var m := q + 1 + |ListYield(b)|;
    Token(t, p, ForSymbol);
    Join(t, p, [ForSymbol], ForControlYield(i, c, st));
    Token(t, q, DoSymbol);
    Join(t, p, [ForSymbol] + ForControlYield(i, c, st), [DoSymbol]);
    Join(t, p, [ForSymbol] + ForControlYield(i, c, st) + [DoSymbol], ListYield(b));
    Closing(t, m, EndSymbol, LoopSymbol);
    Join(t, p, [ForSymbol] + ForControlYield(i, c, st) + [DoSymbol] + ListYield(b), [EndSymbol, LoopSymbol]);
    LoopShape(h, Enter(ForStatement), Match(ForSymbol), ForControlEvents(i, c, st), Match(DoSymbol),
      ListEvents(b), Match(EndSymbol), Match(LoopSymbol), Exit(ForStatement));
  }

  /** The statement a normal return of `statement` recognised is never an
      until-statement: UntilNeverAccepted rules that branch out. */
  lemma {:induction false} StatementSound(t: seq<Kind>, p: nat, h: seq<Event>) returns (s: StatementTree)
    requires p <= |t| && ParseStatement(t, p, h).Done?
    ensures Yields(ParseStatement(t, p, h), t, p, h, StatementYield(s), StatementEvents(s))
    decreases |t| - p, 8
  {
    hide ParseAssignmentStatement, ParseIfStatement, ParseWhileStatement, ParseProcedureStatement,
      ParseForStatement, Spells, StatementYield, AlternativeEvents;
    var g := h + [Enter(Statement)];
    if Peek(t, p) == Identifier {
      var v := AssignmentSound(t, p, g);
      s := AssignmentNode(v);
      AssignmentNodeParts(v);
    } else if Peek(t, p) == IfSymbol {
      var c, a, e := IfSound(t, p, g);
      s := IfNode(c, a, e);
    } else if Peek(t, p) == WhileSymbol {
      var c, b := WhileSound(t, p, g);
      s := WhileNode(c, b);
    } else if Peek(t, p) == CallSymbol {
      var more := ProcedureSound(t, p, g);
      s := CallNode(more);
    } else if Peek(t, p) == ForSymbol {
      var i, c, st, b := ForSound(t, p, g);
      s := ForNode(i, c, st, b);
    } else {
      UntilNeverAccepted(t, p, h);
      assert false;
    }
  }

  lemma {:induction false} ListSound(t: seq<Kind>, p: nat, h: seq<Event>) returns (l: ListTree)
    requires p <= |t| && ParseStatementList(t, p, h).Done?
    ensures Yields(ParseStatementList(t, p, h), t, p, h, ListYield(l), ListEvents(l))
    decreases |t| - p, 9
  {
    hide ParseStatement, ParseStatementListTail, Spells, StatementYield, ListRestYield, StatementEvents,
      ListRestEvents;
    var g := h + [Enter(StatementList)];
    var s := StatementSound(t, p, g);
    var rest := ListTailSound(t, p + |StatementYield(s)|, g + StatementEvents(s));
    l := ListTree(s, rest);
    Join(t, p, StatementYield(s), ListRestYield(rest));
    Wrap(h, Enter(StatementList), StatementEvents(s), ListRestEvents(rest), Exit(StatementList));
  }

  lemma {:induction false} ListTailSound(t: seq<Kind>, p: nat, h: seq<Event>) returns (rest: ListRest)
    requires p <= |t| && ParseStatementListTail(t, p, h).Done?
    ensures Yields(ParseStatementListTail(t, p, h), t, p, h, ListRestYield(rest), ListRestEvents(rest))
    decreases |t| - p, 1
  {
    hide ParseStatement, Spells, StatementYield, StatementEvents;
    if Peek(t, p) == SemicolonSymbol {
      var g := h + [Match(SemicolonSymbol)];
      var s := StatementSound(t, p + 1, g);
      var q := p + 1 + |StatementYield(s)|;
      var next := ListTailSound(t, q, g + StatementEvents(s));
      rest := MoreStatement(s, next);
      Token(t, p, SemicolonSymbol);
      Join(t, p, [SemicolonSymbol], StatementYield(s));
      Join(t, p, [SemicolonSymbol] + StatementYield(s), ListRestYield(next));
      Lead(h, Match(SemicolonSymbol), StatementEvents(s), ListRestEvents(next));
    } else {
      rest := NoStatement;
      Nothing(t, p);
      assert h + [] == h;
    }
  }

  // Whole programs.

  lemma ProgramSound(t: seq<Kind>, p: nat, h: seq<Event>) returns (l: ListTree)
    requires p <= |t| && ParseStatementPart(t, p, h).Done?
    ensures Yields(ParseStatementPart(t, p, h), t, p, h, ProgramYield(l), ProgramEvents(l))
  {
    hide ParseStatementList, Spells, ListYield, ListEvents;
    l := ListSound(t, p + 1, h + [Enter(StatementPart)] + [Match(BeginSymbol)]);
    var q := p + 1 + |ListYield(l)|;
    Token(t, p, BeginSymbol);
    Join(t, p, [BeginSymbol], ListYield(l));
    Token(t, q, EndSymbol);
    Join(t, p, [BeginSymbol] + ListYield(l), [EndSymbol]);
    Bracket(h, Enter(StatementPart), Match(BeginSymbol), ListEvents(l), Match(EndSymbol), Exit(StatementPart));
  }

  /** A normal return from `_statementPart_` at the start of a stream has
      consumed exactly the spelling of a program, and the sink received
      exactly that program's notifications. */
  lemma AcceptedIsProgram(t: seq<Kind>, h: seq<Event>)
    requires ParseStatementPart(t, 0, h).Done?
    ensures exists l: ListTree ::
      && |ProgramYield(l)| <= |t| && t[..|ProgramYield(l)|] == ProgramYield(l)
      && ParseStatementPart(t, 0, h) == Done(|ProgramYield(l)|, h + ProgramEvents(l))
  {
    hide ParseStatementPart;
    var l := ProgramSound(t, 0, h);
    assert t[..|ProgramYield(l)|] == t[0..0 + |ProgramYield(l)|];
  }

  /** The analyser returns normally exactly when the stream begins with the
      spelling of a program: soundness and completeness together. */
  lemma AcceptedIffProgram(t: seq<Kind>, h: seq<Event>)
    ensures ParseStatementPart(t, 0, h).Done?
      <==> exists l: ListTree :: |ProgramYield(l)| <= |t| && t[..|ProgramYield(l)|] == ProgramYield(l)
  {
    hide ParseStatementPart;
    if ParseStatementPart(t, 0, h).Done? {
      AcceptedIsProgram(t, h);
    }
    if exists l: ListTree :: |ProgramYield(l)| <= |t| && t[..|ProgramYield(l)|] == ProgramYield(l) {
      var l: ListTree :| |ProgramYield(l)| <= |t| && t[..|ProgramYield(l)|] == ProgramYield(l);
      assert t[0..0 + |ProgramYield(l)|] == ProgramYield(l);
      ProgramAccepts(t, 0, h, l);
    }
  }
}
