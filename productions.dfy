/** The grammar each recogniser accepts, read off its notifications: a
    successful recogniser adds one activation of its nonterminal whose
    outermost events (the terminals it matched itself and the nonterminals
    it called, see `Outline`) spell the right-hand side of its production,
    with the alternative the lookahead selects. The helpers without a label
    of their own show their part of the production without any activation
    around it. */
module Productions {
  import opened Tokens
  import opened Events
  import opened Grammar
  import opened Trace

  /** What `r` adds after `h`, which it keeps, shows `o` outermost and
      leaves no activation open. */
  ghost predicate Shows(h: seq<Event>, r: Outcome, o: seq<Event>) {
    && |h| <= |r.events| && r.events[..|h|] == h
    && Outline(Added(h, r), 0) == o && Depth(Added(h, r), 0) == 0
  }

  /** Recognised, `r` keeps `h` and adds one activation of `n` whose
      outermost content is `o`. */
  ghost predicate Derives(n: Nonterminal, h: seq<Event>, r: Outcome, o: seq<Event>) {
    r.Done? ==>
      && |h| + 2 <= |r.events| && r.events[..|h|] == h
      && Added(h, r) == [Enter(n)] + Inner(h, r) + [Exit(n)]
      && Outline(Inner(h, r), 0) == o
  }

  lemma {:induction false} StayShows(h: seq<Event>, r: Outcome)
    requires r.events == h
    ensures Shows(h, r, [])
  {
    assert Added(h, r) == [];
  }

  lemma {:induction false} AcceptShows(t: seq<Kind>, p: nat, k: Kind, h: seq<Event>)
    requires p <= |t| && k != EofSymbol && Peek(t, p) == k
    ensures Shows(h, Accept(t, p, k, h), [Match(k)])
  {
    var r := Accept(t, p, k, h);
    assert r.events[..|h|] == h;
    assert Added(h, r) == [Match(k)];
    OutlineMatch(k);
  }

  lemma {:induction false} BlockShows(n: Nonterminal, h: seq<Event>, r: Outcome)
    requires r.Done? && |h| <= |r.events| && r.events[..|h|] == h && Block(n, h, r)
    ensures Shows(h, r, [Enter(n)])
  {
    OutlineWrap(n, Inner(h, r));
  }

  lemma {:induction false} AcceptExtend(t: seq<Kind>, h: seq<Event>, x: Outcome, k: Kind, o: seq<Event>)
    requires x.pos <= |t| && k != EofSymbol && Peek(t, x.pos) == k && Shows(h, x, o)
    ensures Shows(h, Accept(t, x.pos, k, x.events), o + [Match(k)])
  {
    AcceptShows(t, x.pos, k, x.events);
    Extend(h, x, Accept(t, x.pos, k, x.events), o, [Match(k)], o + [Match(k)]);
  }

  /** Outlines of consecutive steps concatenate. */
  lemma {:induction false} Extend(h: seq<Event>, x: Outcome, y: Outcome, o1: seq<Event>, o2: seq<Event>, o: seq<Event>)
    requires Shows(h, x, o1) && Shows(x.events, y, o2) && o == o1 + o2
    ensures Shows(h, y, o)
  {
    PrefixTrans(h, x.events, y.events);
    AddedSplit(h, x, y);
    OutlineConcat(Added(h, x), Added(x.events, y), 0);
  }

  /** The body run after commenceNonterminal(n) is what finishNonterminal(n) closes. */
  lemma {:induction false} FinishDerives(n: Nonterminal, h: seq<Event>, body: Outcome, o: seq<Event>)
    requires body.Done? && Shows(h + [Enter(n)], body, o)
    ensures Derives(n, h, Finish(n, body), o)
  {
    var h1 := h + [Enter(n)];
    AddedPrefix(h1, body);
    var r := Finish(n, body);
    assert r.events == h + ([Enter(n)] + Added(h1, body) + [Exit(n)]);
    assert r.events[..|h|] == h;
    assert Added(h, r) == [Enter(n)] + Added(h1, body) + [Exit(n)];
    assert Inner(h, r) == Added(h1, body);
  }
  lemma {:induction false} StatementListShows(t: seq<Kind>, p: nat, h: seq<Event>)
    requires p <= |t|
    ensures var r := ParseStatementList(t, p, h); r.Done? ==> Shows(h, r, [Enter(StatementList)])
  {
    StatementListValid(t, p, h);
    var r := ParseStatementList(t, p, h);
    if r.Done? {
      BlockShows(StatementList, h, r);
    }
  }

  lemma {:induction false} AssignmentStatementShows(t: seq<Kind>, p: nat, h: seq<Event>)
    requires p <= |t|
    ensures var r := ParseAssignmentStatement(t, p, h); r.Done? ==> Shows(h, r, [Enter(AssignmentStatement)])
  {
    AssignmentStatementValid(t, p, h);
    var r := ParseAssignmentStatement(t, p, h);
    if r.Done? {
      BlockShows(AssignmentStatement, h, r);
    }
  }

  lemma {:induction false} IfStatementShows(t: seq<Kind>, p: nat, h: seq<Event>)
    requires p <= |t|
    ensures var r := ParseIfStatement(t, p, h); r.Done? ==> Shows(h, r, [Enter(IfStatement)])
  {
    IfStatementValid(t, p, h);
    var r := ParseIfStatement(t, p, h);
    if r.Done? {
      BlockShows(IfStatement, h, r);
    }
  }

  lemma {:induction false} WhileStatementShows(t: seq<Kind>, p: nat, h: seq<Event>)
    requires p <= |t|
    ensures var r := ParseWhileStatement(t, p, h); r.Done? ==> Shows(h, r, [Enter(WhileStatement)])
  {
    WhileStatementValid(t, p, h);
    var r := ParseWhileStatement(t, p, h);
    if r.Done? {
      BlockShows(WhileStatement, h, r);
    }
  }

  lemma {:induction false} ProcedureStatementShows(t: seq<Kind>, p: nat, h: seq<Event>)
    requires p <= |t|
    ensures var r := ParseProcedureStatement(t, p, h); r.Done? ==> Shows(h, r, [Enter(ProcedureStatement)])
  {
    ProcedureStatementValid(t, p, h);
    var r := ParseProcedureStatement(t, p, h);
    if r.Done? {
      BlockShows(ProcedureStatement, h, r);
    }
  }

  lemma {:induction false} ForStatementShows(t: seq<Kind>, p: nat, h: seq<Event>)
    requires p <= |t|
    ensures var r := ParseForStatement(t, p, h); r.Done? ==> Shows(h, r, [Enter(ForStatement)])
  {
    ForStatementValid(t, p, h);
    var r := ParseForStatement(t, p, h);
    if r.Done? {
      BlockShows(ForStatement, h, r);
    }
  }

  lemma {:induction false} ArgumentListShows(t: seq<Kind>, p: nat, h: seq<Event>)
    requires p <= |t|
    ensures var r := ParseArgumentList(t, p, h); r.Done? ==> Shows(h, r, [Enter(ArgumentList)])
  {
    ArgumentListValid(t, p, h);
    var r := ParseArgumentList(t, p, h);
    if r.Done? {
      BlockShows(ArgumentList, h, r);
    }
  }

  lemma {:induction false} ConditionShows(t: seq<Kind>, p: nat, h: seq<Event>)
    requires p <= |t|
    ensures var r := ParseCondition(t, p, h); r.Done? ==> Shows(h, r, [Enter(Condition)])
  {
    ConditionValid(t, p, h);
    var r := ParseCondition(t, p, h);
    if r.Done? {
      BlockShows(Condition, h, r);
    }
  }

  lemma {:induction false} ConditionalOperatorShows(t: seq<Kind>, p: nat, h: seq<Event>)
    requires p <= |t|
    ensures var r := ParseConditionalOperator(t, p, h); r.Done? ==> Shows(h, r, [Enter(ConditionalOperator)])
  {
    ConditionalOperatorValid(t, p, h);
    var r := ParseConditionalOperator(t, p, h);
    if r.Done? {
      BlockShows(ConditionalOperator, h, r);
    }
  }

  lemma {:induction false} ExpressionShows(t: seq<Kind>, p: nat, h: seq<Event>)
    requires p <= |t|
    ensures var r := ParseExpression(t, p, h); r.Done? ==> Shows(h, r, [Enter(Expression)])
  {
    ExpressionValid(t, p, h);
    var r := ParseExpression(t, p, h);
    if r.Done? {
      BlockShows(Expression, h, r);
    }
  }

  lemma {:induction false} StatementListExtend(t: seq<Kind>, h: seq<Event>, x: Outcome, o: seq<Event>)
    requires x.pos <= |t| && Shows(h, x, o)
    ensures var y := ParseStatementList(t, x.pos, x.events); y.Done? ==> Shows(h, y, o + [Enter(StatementList)])
  {
    StatementListShows(t, x.pos, x.events);
    var y := ParseStatementList(t, x.pos, x.events);
    if y.Done? {
      Extend(h, x, y, o, [Enter(StatementList)], o + [Enter(StatementList)]);
    }
  }

  lemma {:induction false} ConditionExtend(t: seq<Kind>, h: seq<Event>, x: Outcome, o: seq<Event>)
    requires x.pos <= |t| && Shows(h, x, o)
    ensures var y := ParseCondition(t, x.pos, x.events); y.Done? ==> Shows(h, y, o + [Enter(Condition)])
  {
    ConditionShows(t, x.pos, x.events);
    var y := ParseCondition(t, x.pos, x.events);
    if y.Done? {
      Extend(h, x, y, o, [Enter(Condition)], o + [Enter(Condition)]);
    }
  }

  lemma {:induction false} ArgumentListExtend(t: seq<Kind>, h: seq<Event>, x: Outcome, o: seq<Event>)
    requires x.pos <= |t| && Shows(h, x, o)
    ensures var y := ParseArgumentList(t, x.pos, x.events); y.Done? ==> Shows(h, y, o + [Enter(ArgumentList)])
  {
    ArgumentListShows(t, x.pos, x.events);
    var y := ParseArgumentList(t, x.pos, x.events);
    if y.Done? {
      Extend(h, x, y, o, [Enter(ArgumentList)], o + [Enter(ArgumentList)]);
    }
  }

  lemma {:induction false} AssignmentStatementExtend(t: seq<Kind>, h: seq<Event>, x: Outcome, o: seq<Event>)
    requires x.pos <= |t| && Shows(h, x, o)
    ensures var y := ParseAssignmentStatement(t, x.pos, x.events); y.Done? ==> Shows(h, y, o + [Enter(AssignmentStatement)])
  {
    AssignmentStatementShows(t, x.pos, x.events);
    var y := ParseAssignmentStatement(t, x.pos, x.events);
    if y.Done? {
      Extend(h, x, y, o, [Enter(AssignmentStatement)], o + [Enter(AssignmentStatement)]);
    }
  }

  lemma {:induction false} ExpressionExtend(t: seq<Kind>, h: seq<Event>, x: Outcome, o: seq<Event>)
    requires x.pos <= |t| && Shows(h, x, o)
    ensures var y := ParseExpression(t, x.pos, x.events); y.Done? ==> Shows(h, y, o + [Enter(Expression)])
  {
    ExpressionShows(t, x.pos, x.events);
    var y := ParseExpression(t, x.pos, x.events);
    if y.Done? {
      Extend(h, x, y, o, [Enter(Expression)], o + [Enter(Expression)]);
    }
  }


  /** The statement alternative the lookahead `k` selects. */
  function Alternative(k: Kind): Option<Nonterminal> {
    match k
    case Identifier => Some(AssignmentStatement)
    case IfSymbol => Some(IfStatement)
    case WhileSymbol => Some(WhileStatement)
    case CallSymbol => Some(ProcedureStatement)
    case UntilSymbol => Some(UntilStatement)
    case ForSymbol => Some(ForStatement)
    case _ => None
  }

  /** A recognised statement shows exactly one activation outermost: the
      alternative its first token selects, and never untilStatement. */
  lemma {:induction false} StatementOutline(t: seq<Kind>, p: nat, h: seq<Event>)
    requires p <= |t|
    ensures var r := ParseStatement(t, p, h);
      r.Done? ==> && Alternative(Peek(t, p)).Some? && Peek(t, p) != UntilSymbol
                  && Derives(Statement, h, r, [Enter(Alternative(Peek(t, p)).value)])
  {
    var h1 := h + [Enter(Statement)];
    match Peek(t, p)
    case Identifier =>
      var a := ParseAssignmentStatement(t, p, h1);
      if a.Done? {
        AssignmentStatementShows(t, p, h1);
        FinishDerives(Statement, h, a, [Enter(AssignmentStatement)]);
      }
    case IfSymbol =>
      var a := ParseIfStatement(t, p, h1);
      if a.Done? {
        IfStatementShows(t, p, h1);
        FinishDerives(Statement, h, a, [Enter(IfStatement)]);
      }
    case WhileSymbol =>
      var a := ParseWhileStatement(t, p, h1);
      if a.Done? {
        WhileStatementShows(t, p, h1);
        FinishDerives(Statement, h, a, [Enter(WhileStatement)]);
      }
    case CallSymbol =>
      var a := ParseProcedureStatement(t, p, h1);
      if a.Done? {
        ProcedureStatementShows(t, p, h1);
        FinishDerives(Statement, h, a, [Enter(ProcedureStatement)]);
      }
    case ForSymbol =>
      var a := ParseForStatement(t, p, h1);
      if a.Done? {
        ForStatementShows(t, p, h1);
        FinishDerives(Statement, h, a, [Enter(ForStatement)]);
      }
    case _ =>
  }

  /** statement sends `until` to untilStatement, which demands `do`: the
      parse aborts at the `until` token with nothing consumed. */
  lemma {:induction false} UntilNeverAccepted(t: seq<Kind>, p: nat, h: seq<Event>)
    requires p <= |t| && Peek(t, p) == UntilSymbol
    ensures ParseStatement(t, p, h) == Fail(p, h + [Enter(Statement), Enter(UntilStatement)])
  {
    var h1 := h + [Enter(Statement)];
    assert ParseUntilStatement(t, p, h1) == Fail(p, h1 + [Enter(UntilStatement)]);
  }

  /** The outermost event of assignmentStatementRemainder for lookahead `k`. */
  function Assigned(k: Kind): Event {
    if k == StringConstant then Match(StringConstant) else Enter(Expression)
  }

  /** The remainder of an assignment shows the string constant, or one
      Expression, as the lookahead selects, and no activation of its own. */
  lemma {:induction false} AssignmentStatementRemainderOutline(t: seq<Kind>, p: nat, h: seq<Event>)
    requires p <= |t|
    ensures var r := ParseAssignmentStatementRemainder(t, p, h);
      r.Done? ==> Shows(h, r, [Assigned(Peek(t, p))])
  {
    if Peek(t, p) == StringConstant {
      AcceptShows(t, p, StringConstant, h);
    } else {
      var r := ParseExpression(t, p, h);
      if r.Done? {
        ExpressionShows(t, p, h);
      }
    }
  }

  /** The outermost events of ifStatementRemainder: `else` StatementList
      when the else branch is taken, then `end` `if`. */
  function ElsePart(withElse: bool): seq<Event> {
    (if withElse then [Match(ElseSymbol)] + [Enter(StatementList)] else []) + [Match(EndSymbol)] + [Match(IfSymbol)]
  }

  /** ifStatementRemainder takes the else branch exactly when the lookahead
      is `else`, both branches end with `end` `if`, and it shows no
      activation of its own. */
  lemma {:induction false} IfStatementRemainderOutline(t: seq<Kind>, p: nat, h: seq<Event>)
    requires p <= |t|
    ensures var r := ParseIfStatementRemainder(t, p, h);
      r.Done? ==> Shows(h, r, ElsePart(Peek(t, p) == ElseSymbol))
  {
    var a: Outcome;
    var o: seq<Event>;
    if Peek(t, p) == ElseSymbol {
      var e := Accept(t, p, ElseSymbol, h);
      AcceptShows(t, p, ElseSymbol, h);
      a := ParseStatementList(t, e.pos, e.events);
      if a.Fail? { return; }
      StatementListExtend(t, h, e, [Match(ElseSymbol)]);
      o := [Match(ElseSymbol)] + [Enter(StatementList)];
    } else {
      a := Done(p, h);
      StayShows(h, a);
      o := [];
    }
    var b := Accept(t, a.pos, EndSymbol, a.events);
    if b.Fail? { return; }
    AcceptExtend(t, h, a, EndSymbol, o);
    var c := Accept(t, b.pos, IfSymbol, b.events);
    if c.Fail? { return; }
    AcceptExtend(t, h, b, IfSymbol, o + [Match(EndSymbol)]);
  }

  // The outermost events of each production's right-hand side.

  /** begin StatementList end */
  const StatementPartItems := [Match(BeginSymbol)] + [Enter(StatementList)] + [Match(EndSymbol)]
  /** identifier := and the string constant or Expression that `k` selects */
  function AssignmentItems(k: Kind): seq<Event> {
    [Match(Identifier)] + [Match(BecomesSymbol)] + [Assigned(k)]
  }
  /** if Condition then StatementList [ else StatementList ] end if */
  function IfItems(withElse: bool): seq<Event> {
    [Match(IfSymbol)] + [Enter(Condition)] + [Match(ThenSymbol)] + [Enter(StatementList)] + ElsePart(withElse)
  }
  /** while Condition loop StatementList end loop */
  const WhileItems := [Match(WhileSymbol)] + [Enter(Condition)] + [Match(LoopSymbol)] + [Enter(StatementList)]
    + [Match(EndSymbol)] + [Match(LoopSymbol)]
  /** call identifier ( ArgumentList ) */
  const ProcedureItems := [Match(CallSymbol)] + [Match(Identifier)] + [Match(LeftParenthesis)] + [Enter(ArgumentList)]
    + [Match(RightParenthesis)]
  /** do StatementList until Condition */
  const UntilItems := [Match(DoSymbol)] + [Enter(StatementList)] + [Match(UntilSymbol)] + [Enter(Condition)]
  /** The part of forStatement between `for` and `do`: ( AssignmentStatement ;
      Condition ; AssignmentStatement ) */
  const ForControlItems := [Match(LeftParenthesis)] + [Enter(AssignmentStatement)] + [Match(SemicolonSymbol)]
    + [Enter(Condition)] + [Match(SemicolonSymbol)] + [Enter(AssignmentStatement)] + [Match(RightParenthesis)]
  /** for, the for-control, do StatementList end loop */
  const ForItems := [Match(ForSymbol)] + ForControlItems + [Match(DoSymbol)] + [Enter(StatementList)]
    + [Match(EndSymbol)] + [Match(LoopSymbol)]

  /** condition accepts exactly an identifier, a conditional operator and an
      identifier or constant, and shows them outermost. */
  lemma {:induction false} ConditionOutline(t: seq<Kind>, p: nat, h: seq<Event>)
    requires p <= |t|
    ensures var r := ParseCondition(t, p, h);
      && (r.Done? <==> && Peek(t, p) == Identifier && IsConditionalOperator(Peek(t, p + 1))
                       && Peek(t, p + 2) in {Identifier, NumberConstant, StringConstant})
      && (r.Done? ==> r.pos == p + 3)
      && Derives(Condition, h, r, [Match(Identifier), Enter(ConditionalOperator), Match(Peek(t, p + 2))])
  {
    var h1 := h + [Enter(Condition)];
    var a := Accept(t, p, Identifier, h1);
    if a.Fail? { return; }
    AcceptShows(t, p, Identifier, h1);
    var b := ParseConditionalOperator(t, a.pos, a.events);
    if b.Fail? { return; }
    ConditionalOperatorShows(t, a.pos, a.events);
    Extend(h1, a, b, [Match(Identifier)], [Enter(ConditionalOperator)], [Match(Identifier), Enter(ConditionalOperator)]);
    var c := ParseConditionRemainder(t, b.pos, b.events);
    if c.Fail? { return; }
    AcceptShows(t, b.pos, Peek(t, b.pos), b.events);
    Extend(h1, b, c, [Match(Identifier), Enter(ConditionalOperator)], [Match(Peek(t, b.pos))], [Match(Identifier), Enter(ConditionalOperator), Match(Peek(t, b.pos))]);
    FinishDerives(Condition, h, c, [Match(Identifier), Enter(ConditionalOperator), Match(Peek(t, b.pos))]);
  }

  /** A recognised factor shows the identifier or number it matched, or
      `(` Expression `)`, as its first token selects. */
  lemma {:induction false} FactorOutline(t: seq<Kind>, p: nat, h: seq<Event>)
    requires p <= |t|
    ensures Derives(Factor, h, ParseFactor(t, p, h),
      if Peek(t, p) == LeftParenthesis then [Match(LeftParenthesis)] + [Enter(Expression)] + [Match(RightParenthesis)]
      else [Match(Peek(t, p))])
  {
    var h1 := h + [Enter(Factor)];
    var k := Peek(t, p);
    if k == Identifier || k == NumberConstant {
      var a := Accept(t, p, k, h1);
      AcceptShows(t, p, k, h1);
      FinishDerives(Factor, h, a, [Match(k)]);
    } else if k == LeftParenthesis {
      var a := Accept(t, p, LeftParenthesis, h1);
      AcceptShows(t, p, LeftParenthesis, h1);
      var b := ParseExpression(t, a.pos, a.events);
      if b.Fail? { return; }
      ExpressionExtend(t, h1, a, [Match(LeftParenthesis)]);
      var c := Accept(t, b.pos, RightParenthesis, b.events);
      if c.Fail? { return; }
      AcceptExtend(t, h1, b, RightParenthesis, [Match(LeftParenthesis)] + [Enter(Expression)]);
      FinishDerives(Factor, h, c, [Match(LeftParenthesis)] + [Enter(Expression)] + [Match(RightParenthesis)]);
    }
  }

  /** A recognised assignmentStatement shows identifier `:=` and then the string constant or one Expression, as the token after `:=` selects. */
  lemma {:induction false} AssignmentStatementOutline(t: seq<Kind>, p: nat, h: seq<Event>)
    requires p <= |t|
    ensures Derives(AssignmentStatement, h, ParseAssignmentStatement(t, p, h), AssignmentItems(Peek(t, p + 2)))
  {
    var h1 := h + [Enter(AssignmentStatement)];
    var a := Accept(t, p, Identifier, h1);
    if a.Fail? { return; }
    AcceptShows(t, p, Identifier, h1);
    var b := Accept(t, a.pos, BecomesSymbol, a.events);
    if b.Fail? { return; }
    AcceptExtend(t, h1, a, BecomesSymbol, [Match(Identifier)]);
    var c := ParseAssignmentStatementRemainder(t, b.pos, b.events);
    if c.Fail? { return; }
    AssignmentStatementRemainderOutline(t, b.pos, b.events);
    Extend(h1, b, c, [Match(Identifier)] + [Match(BecomesSymbol)], [Assigned(Peek(t, b.pos))], [Match(Identifier)] + [Match(BecomesSymbol)] + [Assigned(Peek(t, b.pos))]);
    FinishDerives(AssignmentStatement, h, c, AssignmentItems(Peek(t, b.pos)));
  }

  /** A recognised ifStatement shows `if` Condition `then` StatementList, an optional `else` StatementList, and `end` `if` outermost. */
  lemma {:induction false} IfStatementOutline(t: seq<Kind>, p: nat, h: seq<Event>)
    requires p <= |t|
    ensures var r := ParseIfStatement(t, p, h);
      || Derives(IfStatement, h, r, IfItems(false))
      || Derives(IfStatement, h, r, IfItems(true))
  {
    var h1 := h + [Enter(IfStatement)];
    var a := Accept(t, p, IfSymbol, h1);
    if a.Fail? { return; }
    AcceptShows(t, p, IfSymbol, h1);
    var b := ParseCondition(t, a.pos, a.events);
    if b.Fail? { return; }
    ConditionExtend(t, h1, a, [Match(IfSymbol)]);
    var c := Accept(t, b.pos, ThenSymbol, b.events);
    if c.Fail? { return; }
    AcceptExtend(t, h1, b, ThenSymbol, [Match(IfSymbol)] + [Enter(Condition)]);
    var d := ParseStatementList(t, c.pos, c.events);
    if d.Fail? { return; }
    StatementListExtend(t, h1, c, [Match(IfSymbol)] + [Enter(Condition)] + [Match(ThenSymbol)]);
    var e := ParseIfStatementRemainder(t, d.pos, d.events);
    if e.Fail? { return; }
    IfStatementRemainderOutline(t, d.pos, d.events);
    Extend(h1, d, e, [Match(IfSymbol)] + [Enter(Condition)] + [Match(ThenSymbol)] + [Enter(StatementList)], ElsePart(Peek(t, d.pos) == ElseSymbol), [Match(IfSymbol)] + [Enter(Condition)] + [Match(ThenSymbol)] + [Enter(StatementList)] + ElsePart(Peek(t, d.pos) == ElseSymbol));
    FinishDerives(IfStatement, h, e, IfItems(Peek(t, d.pos) == ElseSymbol));
  }

  /** A recognised _statementPart_ shows `begin`, one StatementList and `end` outermost. */
  lemma {:induction false} StatementPartOutline(t: seq<Kind>, p: nat, h: seq<Event>)
    requires p <= |t|
    ensures Derives(StatementPart, h, ParseStatementPart(t, p, h), StatementPartItems)
  {
    var h1 := h + [Enter(StatementPart)];
    var a := Accept(t, p, BeginSymbol, h1);
    if a.Fail? { return; }
    AcceptShows(t, p, BeginSymbol, h1);
    var b := ParseStatementList(t, a.pos, a.events);
    if b.Fail? { return; }
    StatementListExtend(t, h1, a, [Match(BeginSymbol)]);
    var c := Accept(t, b.pos, EndSymbol, b.events);
    if c.Fail? { return; }
    AcceptExtend(t, h1, b, EndSymbol, [Match(BeginSymbol)] + [Enter(StatementList)]);
    FinishDerives(StatementPart, h, c, StatementPartItems);
  }

  /** A recognised whileStatement shows `while` Condition `loop` StatementList `end` `loop` outermost. */
  lemma {:induction false} WhileStatementOutline(t: seq<Kind>, p: nat, h: seq<Event>)
    requires p <= |t|
    ensures Derives(WhileStatement, h, ParseWhileStatement(t, p, h), WhileItems)
  {
    var h1 := h + [Enter(WhileStatement)];
    var a := Accept(t, p, WhileSymbol, h1);
    if a.Fail? { return; }
    AcceptShows(t, p, WhileSymbol, h1);
    var b := ParseCondition(t, a.pos, a.events);
    if b.Fail? { return; }
    ConditionExtend(t, h1, a, [Match(WhileSymbol)]);
    var c := Accept(t, b.pos, LoopSymbol, b.events);
    if c.Fail? { return; }
    AcceptExtend(t, h1, b, LoopSymbol, [Match(WhileSymbol)] + [Enter(Condition)]);
    var d := ParseStatementList(t, c.pos, c.events);
    if d.Fail? { return; }
    StatementListExtend(t, h1, c, [Match(WhileSymbol)] + [Enter(Condition)] + [Match(LoopSymbol)]);
    var e := Accept(t, d.pos, EndSymbol, d.events);
    if e.Fail? { return; }
    AcceptExtend(t, h1, d, EndSymbol, [Match(WhileSymbol)] + [Enter(Condition)] + [Match(LoopSymbol)] + [Enter(StatementList)]);
    var f := Accept(t, e.pos, LoopSymbol, e.events);
    if f.Fail? { return; }
    AcceptExtend(t, h1, e, LoopSymbol, [Match(WhileSymbol)] + [Enter(Condition)] + [Match(LoopSymbol)] + [Enter(StatementList)] + [Match(EndSymbol)]);
    FinishDerives(WhileStatement, h, f, WhileItems);
  }

  /** A recognised procedureStatement shows `call` identifier `(` ArgumentList `)` outermost. */
  lemma {:induction false} ProcedureStatementOutline(t: seq<Kind>, p: nat, h: seq<Event>)
    requires p <= |t|
    ensures Derives(ProcedureStatement, h, ParseProcedureStatement(t, p, h), ProcedureItems)
  {
    var h1 := h + [Enter(ProcedureStatement)];
    var a := Accept(t, p, CallSymbol, h1);
    if a.Fail? { return; }
    AcceptShows(t, p, CallSymbol, h1);
    var b := Accept(t, a.pos, Identifier, a.events);
    if b.Fail? { return; }
    AcceptExtend(t, h1, a, Identifier, [Match(CallSymbol)]);
    var c := Accept(t, b.pos, LeftParenthesis, b.events);
    if c.Fail? { return; }
    AcceptExtend(t, h1, b, LeftParenthesis, [Match(CallSymbol)] + [Match(Identifier)]);
    var d := ParseArgumentList(t, c.pos, c.events);
    if d.Fail? { return; }
    ArgumentListExtend(t, h1, c, [Match(CallSymbol)] + [Match(Identifier)] + [Match(LeftParenthesis)]);
    var e := Accept(t, d.pos, RightParenthesis, d.events);
    if e.Fail? { return; }
    AcceptExtend(t, h1, d, RightParenthesis, [Match(CallSymbol)] + [Match(Identifier)] + [Match(LeftParenthesis)] + [Enter(ArgumentList)]);
    FinishDerives(ProcedureStatement, h, e, ProcedureItems);
  }

  /** A recognised untilStatement shows `do` StatementList `until` Condition outermost. */
  lemma {:induction false} UntilStatementOutline(t: seq<Kind>, p: nat, h: seq<Event>)
    requires p <= |t|
    ensures Derives(UntilStatement, h, ParseUntilStatement(t, p, h), UntilItems)
  {
    var h1 := h + [Enter(UntilStatement)];
    var a := Accept(t, p, DoSymbol, h1);
    if a.Fail? { return; }
    AcceptShows(t, p, DoSymbol, h1);
    var b := ParseStatementList(t, a.pos, a.events);
    if b.Fail? { return; }
    StatementListExtend(t, h1, a, [Match(DoSymbol)]);
    var c := Accept(t, b.pos, UntilSymbol, b.events);
    if c.Fail? { return; }
    AcceptExtend(t, h1, b, UntilSymbol, [Match(DoSymbol)] + [Enter(StatementList)]);
    var d := ParseCondition(t, c.pos, c.events);
    if d.Fail? { return; }
    ConditionExtend(t, h1, c, [Match(DoSymbol)] + [Enter(StatementList)] + [Match(UntilSymbol)]);
    FinishDerives(UntilStatement, h, d, UntilItems);
  }

  /** A recognised for-control shows `(` AssignmentStatement `;` Condition `;` AssignmentStatement `)` outermost and no activation of its own. */
  lemma {:induction false} ForControlOutline(t: seq<Kind>, p: nat, h: seq<Event>)
    requires p <= |t|
    ensures var r := ParseForControl(t, p, h); r.Done? ==> Shows(h, r, ForControlItems)
  {
    var a := Accept(t, p, LeftParenthesis, h);
    if a.Fail? { return; }
    AcceptShows(t, p, LeftParenthesis, h);
    var b := ParseAssignmentStatement(t, a.pos, a.events);
    if b.Fail? { return; }
    AssignmentStatementExtend(t, h, a, [Match(LeftParenthesis)]);
    var c := Accept(t, b.pos, SemicolonSymbol, b.events);
    if c.Fail? { return; }
    AcceptExtend(t, h, b, SemicolonSymbol, [Match(LeftParenthesis)] + [Enter(AssignmentStatement)]);
    var d := ParseCondition(t, c.pos, c.events);
    if d.Fail? { return; }
    ConditionExtend(t, h, c, [Match(LeftParenthesis)] + [Enter(AssignmentStatement)] + [Match(SemicolonSymbol)]);
    var e := Accept(t, d.pos, SemicolonSymbol, d.events);
    if e.Fail? { return; }
    AcceptExtend(t, h, d, SemicolonSymbol, [Match(LeftParenthesis)] + [Enter(AssignmentStatement)] + [Match(SemicolonSymbol)] + [Enter(Condition)]);
    var f := ParseAssignmentStatement(t, e.pos, e.events);
    if f.Fail? { return; }
    AssignmentStatementExtend(t, h, e, [Match(LeftParenthesis)] + [Enter(AssignmentStatement)] + [Match(SemicolonSymbol)] + [Enter(Condition)] + [Match(SemicolonSymbol)]);
    var g := Accept(t, f.pos, RightParenthesis, f.events);
    if g.Fail? { return; }
    AcceptExtend(t, h, f, RightParenthesis, [Match(LeftParenthesis)] + [Enter(AssignmentStatement)] + [Match(SemicolonSymbol)] + [Enter(Condition)] + [Match(SemicolonSymbol)] + [Enter(AssignmentStatement)]);
  }

  /** A recognised forStatement shows `for`, the for-control, `do` StatementList `end` `loop` outermost. */
  lemma {:induction false} ForStatementOutline(t: seq<Kind>, p: nat, h: seq<Event>)
    requires p <= |t|
    ensures Derives(ForStatement, h, ParseForStatement(t, p, h), ForItems)
  {
    var h1 := h + [Enter(ForStatement)];
    var a := Accept(t, p, ForSymbol, h1);
    if a.Fail? { return; }
    AcceptShows(t, p, ForSymbol, h1);
    var b := ParseForControl(t, a.pos, a.events);
    if b.Fail? { return; }
    ForControlOutline(t, a.pos, a.events);
    Extend(h1, a, b, [Match(ForSymbol)], ForControlItems, [Match(ForSymbol)] + ForControlItems);
    var c := Accept(t, b.pos, DoSymbol, b.events);
    if c.Fail? { return; }
    AcceptExtend(t, h1, b, DoSymbol, [Match(ForSymbol)] + ForControlItems);
    var d := ParseStatementList(t, c.pos, c.events);
    if d.Fail? { return; }
    StatementListExtend(t, h1, c, [Match(ForSymbol)] + ForControlItems + [Match(DoSymbol)]);
    var e := Accept(t, d.pos, EndSymbol, d.events);
    if e.Fail? { return; }
    AcceptExtend(t, h1, d, EndSymbol, [Match(ForSymbol)] + ForControlItems + [Match(DoSymbol)] + [Enter(StatementList)]);
    var f := Accept(t, e.pos, LoopSymbol, e.events);
    if f.Fail? { return; }
    AcceptExtend(t, h1, e, LoopSymbol, [Match(ForSymbol)] + ForControlItems + [Match(DoSymbol)] + [Enter(StatementList)] + [Match(EndSymbol)]);
    FinishDerives(ForStatement, h, f, ForItems);
  }
}
