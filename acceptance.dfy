/** Completeness of the recognisers: a token stream that begins with what a
    derivation tree spells, followed by a token that cannot continue the
    construct, is recognised exactly up to the end of the spelling, and the
    sink receives exactly the tree's notifications after the ones it already
    had. Each lemma takes the position `q` where the spelling ends and the
    history `g` the recogniser should leave, cuts the spelling with the
    Spelling lemmas, recognises the parts by induction on the tree, and
    closes with the Steps lemma of its recogniser. The proofs hide the
    bodies of the recognisers, and of `Spells` and `Peek` where they only
    pass those facts on: what a recogniser does enters only through its
    Steps lemma. */
module Acceptance {
  import opened Tokens
  import opened Events
  import opened Grammar
  import opened Derivations
  import opened Spelling
  import opened Steps
  import opened Appends

  // Expressions.

  lemma {:induction false} FactorAccepts(t: seq<Kind>, p: nat, h: seq<Event>, f: FactorTree, q: nat, g: seq<Event>)
    requires q == p + |FactorYield(f)| && g == h + FactorEvents(f) && Spells(t, p, FactorYield(f))
    ensures Reaches(ParseFactor(t, p, h), q, g)
    decreases f, 1
  {
    hide ParseExpression, ParseFactor, ExpressionYield, ExpressionEvents;
    match f
    case Name =>
      Peeks(t, p, [Identifier], 0);
      FactorTerminal(t, p, h, Identifier);
      Triple(h, Enter(Factor), Match(Identifier), Exit(Factor));
    case Number =>
      Peeks(t, p, [NumberConstant], 0);
      FactorTerminal(t, p, h, NumberConstant);
      Triple(h, Enter(Factor), Match(NumberConstant), Exit(Factor));
    case Parenthesised(e) =>
      var g1 := h + [Enter(Factor)] + [Match(LeftParenthesis)];
      var m := Enclosed(t, p, LeftParenthesis, ExpressionYield(e), RightParenthesis);
      ExpressionAccepts(t, p + 1, g1, e, m, g1 + ExpressionEvents(e));
      FactorParenthesised(t, p, h, m, g1 + ExpressionEvents(e));
      Bracket(h, Enter(Factor), Match(LeftParenthesis), ExpressionEvents(e), Match(RightParenthesis), Exit(Factor));
  }

  lemma {:induction false} TermAccepts(t: seq<Kind>, p: nat, h: seq<Event>, tr: TermTree, r: nat, e: seq<Event>)
    requires r == p + |TermYield(tr)| && e == h + TermEvents(tr) && Spells(t, p, TermYield(tr))
    requires !ContinuesTerm(Peek(t, r))
    ensures Reaches(ParseTerm(t, p, h), r, e)
    decreases tr, 1
  {
    hide Spells, Peek, ParseTerm, ParseTermTail, ParseFactor;
    var q := Cut(t, p, FactorYield(tr.first), TermRestYield(tr.rest));
    var g := h + [Enter(Term)] + FactorEvents(tr.first);
    FactorAccepts(t, p, h + [Enter(Term)], tr.first, q, g);
    TermRestAccepts(t, q, g, tr.rest, r, g + TermRestEvents(tr.rest));
    TermStep(t, p, h, q, g, r, g + TermRestEvents(tr.rest));
    Wrap(h, Enter(Term), FactorEvents(tr.first), TermRestEvents(tr.rest), Exit(Term));
  }

  lemma {:induction false} TermRestAccepts(t: seq<Kind>, p: nat, h: seq<Event>, rest: TermRest, r: nat, e: seq<Event>)
    requires r == p + |TermRestYield(rest)| && e == h + TermRestEvents(rest) && Spells(t, p, TermRestYield(rest))
    requires !ContinuesTerm(Peek(t, r))
    ensures Reaches(ParseTermTail(t, p, h), r, e)
    decreases rest, 1
  {
    hide Spells, Peek, ParseTermTail, ParseFactor;
    match rest
    case NoFactor =>
      assert h + [] == h;
    case MoreFactor(op, f, next) =>
      var q := Led(t, p, op, FactorYield(f), TermRestYield(next));
      var g := h + [Match(op)] + FactorEvents(f);
      FactorAccepts(t, p + 1, h + [Match(op)], f, q, g);
      Lead(h, Match(op), FactorEvents(f), TermRestEvents(next));
      TermRestAccepts(t, q, g, next, r, e);
      TermTailStep(t, p, h, op, q, g, r, e);
  }

  lemma {:induction false} ExpressionAccepts(t: seq<Kind>, p: nat, h: seq<Event>, x: ExpressionTree, r: nat, e: seq<Event>)
    requires r == p + |ExpressionYield(x)| && e == h + ExpressionEvents(x) && Spells(t, p, ExpressionYield(x))
    requires !ContinuesExpression(Peek(t, r))
    ensures Reaches(ParseExpression(t, p, h), r, e)
    decreases x, 1
  {
    hide Spells, Peek, ParseExpression, ParseExpressionTail, ParseTerm;
    var q := Cut(t, p, TermYield(x.first), ExpressionRestYield(x.rest));
    var g := h + [Enter(Expression)] + TermEvents(x.first);
    TermFollower(t, q, x.rest, r);
    TermAccepts(t, p, h + [Enter(Expression)], x.first, q, g);
    ExpressionRestAccepts(t, q, g, x.rest, r, g + ExpressionRestEvents(x.rest));
    ExpressionStep(t, p, h, q, g, r, g + ExpressionRestEvents(x.rest));
    Wrap(h, Enter(Expression), TermEvents(x.first), ExpressionRestEvents(x.rest), Exit(Expression));
  }

  lemma {:induction false} ExpressionRestAccepts(t: seq<Kind>, p: nat, h: seq<Event>, rest: ExpressionRest, r: nat, e: seq<Event>)
    requires r == p + |ExpressionRestYield(rest)| && e == h + ExpressionRestEvents(rest) && Spells(t, p, ExpressionRestYield(rest))
    requires !ContinuesExpression(Peek(t, r))
    ensures Reaches(ParseExpressionTail(t, p, h), r, e)
    decreases rest, 1
  {
    hide Spells, Peek, ParseExpressionTail, ParseTerm;
    match rest
    case NoTerm =>
      assert h + [] == h;
    case MoreTerm(op, tr, next) =>
      var q := Led(t, p, op, TermYield(tr), ExpressionRestYield(next));
      var g := h + [Match(op)] + TermEvents(tr);
      TermFollower(t, q, next, r);
      TermAccepts(t, p + 1, h + [Match(op)], tr, q, g);
      Lead(h, Match(op), TermEvents(tr), ExpressionRestEvents(next));
      ExpressionRestAccepts(t, q, g, next, r, e);
      ExpressionTailStep(t, p, h, op, q, g, r, e);
  }

  // Conditions, assignments and argument lists.

  lemma ConditionAccepts(t: seq<Kind>, p: nat, h: seq<Event>, c: ConditionTree)
    requires Spells(t, p, ConditionYield(c))
    ensures |ConditionYield(c)| == 3 && Reaches(ParseCondition(t, p, h), p + 3, h + ConditionEvents(c))
  {
    hide Spells, Peek, ParseCondition;
    ConditionSpelling(t, p, c);
    ConditionStep(t, p, h, c);
  }

  lemma {:induction false} ValueAccepts(t: seq<Kind>, p: nat, h: seq<Event>, v: ValueTree, q: nat, g: seq<Event>)
    requires q == p + |ValueYield(v)| && g == h + ValueEvents(v) && Spells(t, p, ValueYield(v))
    requires !ContinuesExpression(Peek(t, q))
    ensures Reaches(ParseAssignmentStatementRemainder(t, p, h), q, g)
    decreases v, 1
  {
    hide ParseAssignmentStatementRemainder, ParseExpression;
    match v
    case StringValue =>
      Peeks(t, p, [StringConstant], 0);
      RemainderString(t, p, h);
    case ExpressionValue(x) =>
      ExpressionFirst(x);
      Peeks(t, p, ExpressionYield(x), 0);
      ExpressionAccepts(t, p, h, x, q, g);
      RemainderExpression(t, p, h, Done(q, g));
  }

  lemma {:induction false} AssignmentAccepts(t: seq<Kind>, p: nat, h: seq<Event>, v: ValueTree, q: nat, g: seq<Event>)
    requires q == p + |AssignmentYield(v)| && g == h + AssignmentEvents(v) && Spells(t, p, AssignmentYield(v))
    requires !ContinuesExpression(Peek(t, q))
    ensures Reaches(ParseAssignmentStatement(t, p, h), q, g)
    decreases v, 2
  {
    hide Spells, Peek, ParseAssignmentStatement, ParseAssignmentStatementRemainder;
    var g1 := h + [Enter(AssignmentStatement)] + [Match(Identifier)] + [Match(BecomesSymbol)];
    AssignmentSpelling(t, p, v);
    ValueAccepts(t, p + 2, g1, v, q, g1 + ValueEvents(v));
    AssignmentStep(t, p, h, q, g1 + ValueEvents(v));
    AssignmentShape(h, Enter(AssignmentStatement), Match(Identifier), Match(BecomesSymbol), ValueEvents(v), Exit(AssignmentStatement));
  }

  lemma {:induction false} ArgumentsRestAccepts(t: seq<Kind>, p: nat, h: seq<Event>, more: nat)
    requires Spells(t, p, ArgumentsRestYield(more)) && Peek(t, p + |ArgumentsRestYield(more)|) != CommaSymbol
    ensures Reaches(ParseArgumentListTail(t, p, h), p + |ArgumentsRestYield(more)|, h + ArgumentsRestEvents(more))
    decreases more
  {
    hide Spells, Peek, ParseArgumentListTail;
    if more == 0 {
      assert h + [] == h;
    } else {
      var g := h + [Match(CommaSymbol)] + [Match(Identifier)];
      LedTwo(t, p, CommaSymbol, Identifier, ArgumentsRestYield(more - 1));
      ArgumentsRestAccepts(t, p + 2, g, more - 1);
      ArgumentsTailStep(t, p, h, p + 2 + |ArgumentsRestYield(more - 1)|, g + ArgumentsRestEvents(more - 1));
      LeadTwo(h, Match(CommaSymbol), Match(Identifier), ArgumentsRestEvents(more - 1));
    }
  }

  lemma ArgumentsAccepts(t: seq<Kind>, p: nat, h: seq<Event>, more: nat)
    requires Spells(t, p, ArgumentsYield(more)) && Peek(t, p + |ArgumentsYield(more)|) != CommaSymbol
    ensures Reaches(ParseArgumentList(t, p, h), p + |ArgumentsYield(more)|, h + ArgumentsEvents(more))
  {
    hide Spells, Peek, ParseArgumentList, ParseArgumentListTail;
    var g := h + [Enter(ArgumentList)] + [Match(Identifier)];
    Split(t, p, [Identifier], ArgumentsRestYield(more));
    Peeks(t, p, [Identifier], 0);
    ArgumentsRestAccepts(t, p + 1, g, more);
    ArgumentsStep(t, p, h, p + 1 + |ArgumentsRestYield(more)|, g + ArgumentsRestEvents(more));
    ArgumentsShape(h, Enter(ArgumentList), Match(Identifier), ArgumentsRestEvents(more), Exit(ArgumentList));
  }

  lemma ProcedureAccepts(t: seq<Kind>, p: nat, h: seq<Event>, more: nat, q: nat, g: seq<Event>)
    requires q == p + |StatementYield(CallNode(more))| && g == h + AlternativeEvents(CallNode(more))
    requires Spells(t, p, StatementYield(CallNode(more)))
    ensures Reaches(ParseProcedureStatement(t, p, h), q, g)
  {
    hide Spells, Peek, ParseProcedureStatement, ParseArgumentList;
    var g1 := h + [Enter(ProcedureStatement)] + [Match(CallSymbol)] + [Match(Identifier)] + [Match(LeftParenthesis)];
    var m := CallSpelling(t, p, more);
    ArgumentsAccepts(t, p + 3, g1, more);
    ProcedureStep(t, p, h, m, g1 + ArgumentsEvents(more));
    CallShape(h, Enter(ProcedureStatement), Match(CallSymbol), Match(Identifier), Match(LeftParenthesis),
      ArgumentsEvents(more), Match(RightParenthesis), Exit(ProcedureStatement));
  }

  lemma {:induction false} ForControlAccepts(t: seq<Kind>, p: nat, h: seq<Event>, i: ValueTree, c: ConditionTree, st: ValueTree, q: nat, g: seq<Event>)
    requires q == p + |ForControlYield(i, c, st)| && g == h + ForControlEvents(i, c, st)
    requires Spells(t, p, ForControlYield(i, c, st))
    ensures Reaches(ParseForControl(t, p, h), q, g)
    decreases i, st
  {
    hide Spells, Peek, ParseAssignmentStatement, ParseForControl, ParseCondition, ForControlYield,
      AssignmentYield, ValueYield, ConditionYield, AssignmentEvents, ValueEvents, ConditionEvents;
    var q1, q3 := ControlSpelling(t, p, i, c, st);
    var g1 := h + [Match(LeftParenthesis)] + AssignmentEvents(i);
    var g2 := g1 + [Match(SemicolonSymbol)] + ConditionEvents(c) + [Match(SemicolonSymbol)];
    AssignmentAccepts(t, p + 1, h + [Match(LeftParenthesis)], i, q1, g1);
    ConditionAccepts(t, q1 + 1, g1 + [Match(SemicolonSymbol)], c);
    AssignmentAccepts(t, q1 + 5, g2, st, q3, g2 + AssignmentEvents(st));
    ForControlStep(t, p, h, c, q1, g1, q3, g2 + AssignmentEvents(st));
    ControlShape(h, Match(LeftParenthesis), AssignmentEvents(i), Match(SemicolonSymbol), ConditionEvents(c),
      Match(SemicolonSymbol), AssignmentEvents(st), Match(RightParenthesis));
  }

  // Statements and statement lists, by induction on the tree.

  lemma {:induction false} StatementAccepts(t: seq<Kind>, p: nat, h: seq<Event>, s: StatementTree, q: nat, g: seq<Event>)
    requires q == p + |StatementYield(s)| && g == h + StatementEvents(s) && Spells(t, p, StatementYield(s))
    requires !ContinuesExpression(Peek(t, q))
    ensures Reaches(ParseStatement(t, p, h), q, g)
    decreases s, 3
  {
    hide Spells, Peek, ParseStatement, ParseAssignmentStatement, ParseIfStatement,
      ParseWhileStatement, ParseProcedureStatement, ParseForStatement, ValueYield, ConditionYield,
      ListYield, IfRemainderYield, ForControlYield, ArgumentsYield, ValueEvents, ConditionEvents,
      ListEvents, IfRemainderEvents, ForControlEvents, ArgumentsEvents, StatementYield, AlternativeEvents;
    var g1 := h + [Enter(Statement)];
    StatementStarts(t, p, s);
    match s
    case AssignmentNode(v) =>
      AssignmentNodeParts(v);
      AssignmentAccepts(t, p, g1, v, q, g1 + AssignmentEvents(v));
      StatementAssignment(t, p, h, q, g1 + AssignmentEvents(v));
    case IfNode(c, a, e) =>
      IfAccepts(t, p, g1, c, a, e, q, g1 + AlternativeEvents(s));
      StatementIf(t, p, h, q, g1 + AlternativeEvents(s));
    case WhileNode(c, b) =>
      WhileAccepts(t, p, g1, c, b, q, g1 + AlternativeEvents(s));
      StatementWhile(t, p, h, q, g1 + AlternativeEvents(s));
    case CallNode(n) =>
      ProcedureAccepts(t, p, g1, n, q, g1 + AlternativeEvents(s));
      StatementCall(t, p, h, q, g1 + AlternativeEvents(s));
    case ForNode(i, c, st, b) =>
      ForAccepts(t, p, g1, i, c, st, b, q, g1 + AlternativeEvents(s));
      StatementFor(t, p, h, q, g1 + AlternativeEvents(s));
  }

  lemma {:induction false} IfAccepts(t: seq<Kind>, p: nat, h: seq<Event>, c: ConditionTree, a: ListTree, e: Option<ListTree>, q: nat, g: seq<Event>)
    requires q == p + |StatementYield(IfNode(c, a, e))| && g == h + AlternativeEvents(IfNode(c, a, e))
    requires Spells(t, p, StatementYield(IfNode(c, a, e)))
    ensures Reaches(ParseIfStatement(t, p, h), q, g)
    decreases IfNode(c, a, e), 2
  {
    hide Spells, Peek, ParseIfStatement;
    var m := IfSpelling(t, p, c, a, e);
    IfParts(t, p, h, c, a, e, m, q, g);
  }

  /** The if-statement rule once the position `m` after the then-part is
      named. */
  lemma {:induction false} IfParts(t: seq<Kind>, p: nat, h: seq<Event>, c: ConditionTree, a: ListTree, e: Option<ListTree>, m: nat, q: nat, g: seq<Event>)
    requires m == p + 5 + |ListYield(a)| && q == m + |IfRemainderYield(e)| && q <= |t|
    requires g == h + AlternativeEvents(IfNode(c, a, e))
    requires Peek(t, p) == IfSymbol && Peek(t, p + 1) == Identifier && Peek(t, p + 2) == c.op
    requires Peek(t, p + 3) == c.operand && Peek(t, p + 4) == ThenSymbol
    requires Spells(t, p + 5, ListYield(a)) && Spells(t, m, IfRemainderYield(e))
    requires !ContinuesList(Peek(t, m))
    ensures Reaches(ParseIfStatement(t, p, h), q, g)
    decreases IfNode(c, a, e), 1
  {
    hide Spells, Peek, ParseStatementList, ParseIfStatement, ParseIfStatementRemainder;
    var g1 := h + [Enter(IfStatement)] + [Match(IfSymbol)] + ConditionEvents(c) + [Match(ThenSymbol)];
    ListAccepts(t, p + 5, g1, a, m, g1 + ListEvents(a));
    IfRemainderAccepts(t, m, g1 + ListEvents(a), e, q, g1 + ListEvents(a) + IfRemainderEvents(e));
    IfStep(t, p, h, c, m, g1 + ListEvents(a), q, g1 + ListEvents(a) + IfRemainderEvents(e));
    IfShape(h, Enter(IfStatement), Match(IfSymbol), ConditionEvents(c), Match(ThenSymbol),
      ListEvents(a), IfRemainderEvents(e), Exit(IfStatement));
  }

  lemma {:induction false} IfRemainderAccepts(t: seq<Kind>, p: nat, h: seq<Event>, e: Option<ListTree>, q: nat, g: seq<Event>)
    requires q == p + |IfRemainderYield(e)| && g == h + IfRemainderEvents(e) && Spells(t, p, IfRemainderYield(e))
    ensures Reaches(ParseIfStatementRemainder(t, p, h), q, g)
    decreases e, 1
  {
    hide ParseStatementList, ParseIfStatementRemainder;
    match e
    case None =>
      Peeks(t, p, [EndSymbol, IfSymbol], 0);
      Peeks(t, p, [EndSymbol, IfSymbol], 1);
      IfRemainderEnd(t, p, h);
      Pair(h, Match(EndSymbol), Match(IfSymbol));
    case Some(l) =>
      var g1 := h + [Match(ElseSymbol)];
      var m := ElseSpelling(t, p, l);
      ListAccepts(t, p + 1, g1, l, m, g1 + ListEvents(l));
      IfRemainderElse(t, p, h, m, g1 + ListEvents(l));
      ElseShape(h, Match(ElseSymbol), ListEvents(l), Match(EndSymbol), Match(IfSymbol));
  }

  lemma {:induction false} WhileAccepts(t: seq<Kind>, p: nat, h: seq<Event>, c: ConditionTree, b: ListTree, q: nat, g: seq<Event>)
    requires q == p + |StatementYield(WhileNode(c, b))| && g == h + AlternativeEvents(WhileNode(c, b))
    requires Spells(t, p, StatementYield(WhileNode(c, b)))
    ensures Reaches(ParseWhileStatement(t, p, h), q, g)
    decreases WhileNode(c, b), 2
  {
    hide Spells, Peek, ParseStatementList, ParseWhileStatement, StatementYield, ConditionYield, ListYield,
      ConditionEvents, ListEvents;
    var g1 := h + [Enter(WhileStatement)] + [Match(WhileSymbol)] + ConditionEvents(c) + [Match(LoopSymbol)];
    var m := WhileSpelling(t, p, c, b);
    ListAccepts(t, p + 5, g1, b, m, g1 + ListEvents(b));
    WhileStep(t, p, h, c, m, g1 + ListEvents(b));
    LoopShape(h, Enter(WhileStatement), Match(WhileSymbol), ConditionEvents(c), Match(LoopSymbol),
      ListEvents(b), Match(EndSymbol), Match(LoopSymbol), Exit(WhileStatement));
  }

  lemma {:induction false} ForAccepts(t: seq<Kind>, p: nat, h: seq<Event>, i: ValueTree, c: ConditionTree, st: ValueTree, b: ListTree, q: nat, g: seq<Event>)
    requires q == p + |StatementYield(ForNode(i, c, st, b))| && g == h + AlternativeEvents(ForNode(i, c, st, b))
    requires Spells(t, p, StatementYield(ForNode(i, c, st, b)))
    ensures Reaches(ParseForStatement(t, p, h), q, g)
    decreases ForNode(i, c, st, b), 2
  {
    hide Spells, Peek, ParseForStatement;
    var m, n := ForSpelling(t, p, i, c, st, b);
    ControlOpens(t, p, i, c, st);
    ForParts(t, p, h, i, c, st, b, m, n, g);
  }

  /** The for-statement rule once the positions `m` of `do` and `n` of
      `end` are named. */
  lemma {:induction false} ForParts(t: seq<Kind>, p: nat, h: seq<Event>, i: ValueTree, c: ConditionTree, st: ValueTree, b: ListTree, m: nat, n: nat, g: seq<Event>)
    requires m == p + 1 + |ForControlYield(i, c, st)| && n == m + 1 + |ListYield(b)| && n + 2 <= |t|
    requires g == h + AlternativeEvents(ForNode(i, c, st, b))
    requires Peek(t, p) == ForSymbol && Peek(t, p + 1) == LeftParenthesis
    requires Peek(t, p + 2) == Identifier && Peek(t, p + 3) == BecomesSymbol
    requires Spells(t, p + 1, ForControlYield(i, c, st)) && Peek(t, m) == DoSymbol
    requires Spells(t, m + 1, ListYield(b)) && Peek(t, n) == EndSymbol && Peek(t, n + 1) == LoopSymbol
    ensures Reaches(ParseForStatement(t, p, h), n + 2, g)
    decreases ForNode(i, c, st, b), 1
  {
    hide Spells, Peek, ParseStatementList, ParseForStatement, ParseForControl, ForControlYield,
      ListYield, ForControlEvents, ListEvents;
    var g1 := h + [Enter(ForStatement)] + [Match(ForSymbol)];
    var g2 := g1 + ForControlEvents(i, c, st);
    ForControlAccepts(t, p + 1, g1, i, c, st, m, g2);
    ListAccepts(t, m + 1, g2 + [Match(DoSymbol)], b, n, g2 + [Match(DoSymbol)] + ListEvents(b));
    ForStep(t, p, h, m, g2, n, g2 + [Match(DoSymbol)] + ListEvents(b));
    LoopShape(h, Enter(ForStatement), Match(ForSymbol), ForControlEvents(i, c, st), Match(DoSymbol),
      ListEvents(b), Match(EndSymbol), Match(LoopSymbol), Exit(ForStatement));
  }

  lemma {:induction false} ListAccepts(t: seq<Kind>, p: nat, h: seq<Event>, l: ListTree, r: nat, e: seq<Event>)
    requires r == p + |ListYield(l)| && e == h + ListEvents(l) && Spells(t, p, ListYield(l))
    requires !ContinuesList(Peek(t, r))
    ensures Reaches(ParseStatementList(t, p, h), r, e)
    decreases l, 1
  {
    hide Spells, Peek, ParseStatementList, ParseStatementListTail, ParseStatement;
    var g := h + [Enter(StatementList)] + StatementEvents(l.first);
    if l.rest.MoreStatement? {
      assert ListRestYield(l.rest)[0] == SemicolonSymbol;
    }
    var q := ListLayout(t, p, StatementYield(l.first), ListRestYield(l.rest), r);
    StatementAccepts(t, p, h + [Enter(StatementList)], l.first, q, g);
    ListRestAccepts(t, q, g, l.rest, r, g + ListRestEvents(l.rest));
    ListStep(t, p, h, q, g, r, g + ListRestEvents(l.rest));
    Wrap(h, Enter(StatementList), StatementEvents(l.first), ListRestEvents(l.rest), Exit(StatementList));
  }

  lemma {:induction false} ListRestAccepts(t: seq<Kind>, p: nat, h: seq<Event>, rest: ListRest, r: nat, e: seq<Event>)
    requires r == p + |ListRestYield(rest)| && e == h + ListRestEvents(rest) && Spells(t, p, ListRestYield(rest))
    requires !ContinuesList(Peek(t, r))
    ensures Reaches(ParseStatementListTail(t, p, h), r, e)
    decreases rest, 1
  {
    hide Spells, Peek, ParseStatementListTail, ParseStatement;
    match rest
    case NoStatement =>
      assert h + [] == h;
    case MoreStatement(s, next) =>
      var g := h + [Match(SemicolonSymbol)] + StatementEvents(s);
      if next.MoreStatement? {
        assert ListRestYield(next)[0] == SemicolonSymbol;
      }
      var q := RestLayout(t, p, StatementYield(s), ListRestYield(next), r);
      StatementAccepts(t, p + 1, h + [Match(SemicolonSymbol)], s, q, g);
      Lead(h, Match(SemicolonSymbol), StatementEvents(s), ListRestEvents(next));
      ListRestAccepts(t, q, g, next, r, e);
      ListTailStep(t, p, h, q, g, r, e);
  }

  // Whole programs.

  lemma ProgramAccepts(t: seq<Kind>, p: nat, h: seq<Event>, l: ListTree)
    requires Spells(t, p, ProgramYield(l))
    ensures Reaches(ParseStatementPart(t, p, h), p + |ProgramYield(l)|, h + ProgramEvents(l))
  {
    hide Spells, Peek, ParseStatementPart, ParseStatementList, ListYield, ListEvents;
    var g := h + [Enter(StatementPart)] + [Match(BeginSymbol)];
    var m := Enclosed(t, p, BeginSymbol, ListYield(l), EndSymbol);
    ListAccepts(t, p + 1, g, l, m, g + ListEvents(l));
    ProgramStep(t, p, h, m, g + ListEvents(l));
    Bracket(h, Enter(StatementPart), Match(BeginSymbol), ListEvents(l), Match(EndSymbol), Exit(StatementPart));
  }

  /** A stream that begins with a program's spelling is accepted whatever
      follows it: the analyser stops right after the closing `end`, and the
      sink receives exactly the program's notifications. */
  lemma ProgramAccepted(l: ListTree, rest: seq<Kind>, h: seq<Event>)
    ensures Reaches(ParseStatementPart(ProgramYield(l) + rest, 0, h), |ProgramYield(l)|, h + ProgramEvents(l))
  {
    hide ParseStatementPart;
    var t := ProgramYield(l) + rest;
    assert t[0..|ProgramYield(l)|] == ProgramYield(l);
    ProgramAccepts(t, 0, h, l);
  }

  /** Contrapositive: when the analyser reports an error, the stream does not
      begin with the spelling of any program. */
  lemma RejectedIsNoProgram(t: seq<Kind>, h: seq<Event>, l: ListTree)
    requires ParseStatementPart(t, 0, h).Fail?
    ensures |t| < |ProgramYield(l)| || t[..|ProgramYield(l)|] != ProgramYield(l)
  {
    hide ParseStatementPart;
    if |ProgramYield(l)| <= |t| && t[..|ProgramYield(l)|] == ProgramYield(l) {
      assert t[0..|ProgramYield(l)|] == ProgramYield(l);
      ProgramAccepts(t, 0, h, l);
    }
  }
}
