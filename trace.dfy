/** The facts every recogniser keeps about the notifications it sends: it
    only appends to what the sink already holds, the terminals it reports as
    matched are exactly the tokens it consumes, and a recognised nonterminal
    announces its sub-activations in well-nested order. Stated once as
    `Valid` and proved for each recogniser by following its steps. */
module Trace {
  import opened Tokens
  import opened Events
  import opened Grammar

  /** The notifications `r` adds after the history `h`. */
  ghost function Added(h: seq<Event>, r: Outcome): seq<Event>
    requires |h| <= |r.events|
  {
    r.events[|h|..]
  }

  /** Started at `p` with history `h`, outcome `r` never moves the lookahead
      back nor past the end of the stream, keeps `h` as it was, reports as
      matched exactly the tokens it consumed, in order, and, if it succeeded,
      adds a well-nested trace. */
  ghost predicate Valid(t: seq<Kind>, p: nat, h: seq<Event>, r: Outcome) {
    && p <= r.pos <= |t|
    && |h| <= |r.events| && r.events[..|h|] == h
    && Matches(Added(h, r)) == t[p..r.pos]
    && (r.Done? ==> Balanced(Added(h, r)))
  }

  /** The part of a trace between its first and its last event. */
  ghost function Inner(h: seq<Event>, r: Outcome): seq<Event>
    requires |h| + 2 <= |r.events|
  {
    r.events[|h| + 1..|r.events| - 1]
  }

  /** A successful recogniser for `n` adds one activation of `n` around a
      well-nested trace. */
  ghost predicate Block(n: Nonterminal, h: seq<Event>, r: Outcome) {
    r.Done? ==>
      && |h| + 2 <= |r.events|
      && Added(h, r) == [Enter(n)] + Inner(h, r) + [Exit(n)]
      && Balanced(Inner(h, r))
  }

  /** An outcome that kept `h` is `h` followed by what it added. */
  lemma AddedPrefix(h: seq<Event>, r: Outcome)
    requires |h| <= |r.events| && r.events[..|h|] == h
    ensures r.events == h + Added(h, r)
  {
    assert r.events == r.events[..|h|] + r.events[|h|..];
  }

  /** What `y` adds after `h` is what `x` adds, then what `y` adds after `x`. */
  lemma AddedSplit(h: seq<Event>, x: Outcome, y: Outcome)
    requires |h| <= |x.events| <= |y.events|
    requires x.events[..|h|] == h && y.events[..|x.events|] == x.events
    ensures Added(h, y) == Added(h, x) + Added(x.events, y)
  {
    var X, Y := x.events, y.events;
    assert Y == X + Y[|X|..] by {
      assert Y[..|X|] == X;
    }
  }

  /** Stopping where it started and adding nothing is consistent. */
  lemma StayValid(t: seq<Kind>, p: nat, h: seq<Event>, r: Outcome)
    requires p <= |t| && r.pos == p && r.events == h
    ensures Valid(t, p, h, r)
  {
    assert Added(h, r) == [];
  }

  lemma AcceptValid(t: seq<Kind>, p: nat, k: Kind, h: seq<Event>)
    requires p <= |t| && k != EofSymbol
    ensures Valid(t, p, h, Accept(t, p, k, h))
  {
    var r := Accept(t, p, k, h);
    if r.Done? {
      assert r.events[..|h|] == h;
      assert Added(h, r) == [Match(k)];
      assert t[p..p + 1] == [k];
      BalancedMatch(k);
    } else {
      StayValid(t, p, h, r);
    }
  }

  /** A history kept by `x` is kept by a step that keeps `x`'s. */
  lemma PrefixTrans(h: seq<Event>, x: seq<Event>, y: seq<Event>)
    requires |h| <= |x| <= |y| && x[..|h|] == h && y[..|x|] == x
    ensures y[..|h|] == h
  {
    assert y[..|h|] == y[..|x|][..|h|];
  }

  lemma SliceJoin(t: seq<Kind>, i: nat, j: nat, k: nat)
    requires i <= j <= k <= |t|
    ensures t[i..j] + t[j..k] == t[i..k]
  {
  }

  /** A step `y` taken after a successful step `x` from the same history. */
  lemma ChainValid(t: seq<Kind>, p: nat, h: seq<Event>, x: Outcome, y: Outcome)
    requires x.Done? && Valid(t, p, h, x) && Valid(t, x.pos, x.events, y)
    ensures Valid(t, p, h, y)
  {
    PrefixTrans(h, x.events, y.events);
    AddedSplit(h, x, y);
    MatchesConcat(Added(h, x), Added(x.events, y));
    SliceJoin(t, p, x.pos, y.pos);
    if y.Done? {
      BalancedConcat(Added(h, x), Added(x.events, y));
    }
  }

  /** commenceNonterminal(n), a body, and finishNonterminal(n) unless it aborted. */
  lemma FinishValid(t: seq<Kind>, p: nat, h: seq<Event>, n: Nonterminal, body: Outcome)
    requires Valid(t, p, h + [Enter(n)], body)
    ensures Valid(t, p, h, Finish(n, body))
    ensures Block(n, h, Finish(n, body))
  {
    if body.Done? {
      FinishDoneValid(t, p, h, n, body);
    } else {
      FinishFailValid(t, p, h, n, body);
    }
  }

  /** A body that succeeded is closed by Exit(n) around its own trace. */
  lemma FinishDoneValid(t: seq<Kind>, p: nat, h: seq<Event>, n: Nonterminal, body: Outcome)
    requires body.Done? && Valid(t, p, h + [Enter(n)], body)
    ensures Valid(t, p, h, Finish(n, body))
    ensures Block(n, h, Finish(n, body))
  {
    var h1 := h + [Enter(n)];
    var b := Added(h1, body);
    var r := Finish(n, body);
    AddedPrefix(h1, body);
    MatchesConcat([Enter(n)], b);
    assert r.events == h + ([Enter(n)] + b + [Exit(n)]);
    assert Added(h, r) == [Enter(n)] + b + [Exit(n)];
    assert Inner(h, r) == b;
    MatchesConcat([Enter(n)] + b, [Exit(n)]);
    BalancedWrap(n, b);
  }

  /** A body that aborted leaves Enter(n) open and the error stands. */
  lemma FinishFailValid(t: seq<Kind>, p: nat, h: seq<Event>, n: Nonterminal, body: Outcome)
    requires body.Fail? && Valid(t, p, h + [Enter(n)], body)
    ensures Valid(t, p, h, Finish(n, body))
  {
    var h1 := h + [Enter(n)];
    var b := Added(h1, body);
    var r := Finish(n, body);
    AddedPrefix(h1, body);
    MatchesConcat([Enter(n)], b);
    assert r.events == h + ([Enter(n)] + b);
    assert Added(h, r) == [Enter(n)] + b;
  }

  /** The analyser run on a whole stream: if `_statementPart_` succeeds, the
      sink saw one well-nested activation of StatementPart, and the
      terminals it was told about are exactly the prefix of the stream up to
      and including the closing `end`. */
  lemma AnalysisValid(t: seq<Kind>)
    requires ParseStatementPart(t, 0, []).Done?
    ensures var r := ParseStatementPart(t, 0, []);
      && 2 <= |r.events|
      && r.events[0] == Enter(StatementPart) && r.events[|r.events| - 1] == Exit(StatementPart)
      && Balanced(r.events)
      && Matches(r.events) == t[..r.pos]
  {
    var r := ParseStatementPart(t, 0, []);
    StatementPartValid(t, 0, []);
    assert Added([], r) == r.events;
    assert Added([], r) == [Enter(StatementPart)] + Inner([], r) + [Exit(StatementPart)];
  }

  /** _statementPart_ keeps its trace consistent with the tokens it consumes. */
  lemma {:induction false} StatementPartValid(t: seq<Kind>, p: nat, h: seq<Event>)
    requires p <= |t|
    ensures Valid(t, p, h, ParseStatementPart(t, p, h))
    ensures Block(StatementPart, h, ParseStatementPart(t, p, h))
  {
    var h1 := h + [Enter(StatementPart)];
    AcceptValid(t, p, BeginSymbol, h1);
    var a := Accept(t, p, BeginSymbol, h1);
    if a.Fail? { FinishValid(t, p, h, StatementPart, a); return; }
    StatementListValid(t, a.pos, a.events);
    var b := ParseStatementList(t, a.pos, a.events);
    ChainValid(t, p, h1, a, b);
    if b.Fail? { FinishValid(t, p, h, StatementPart, b); return; }
    AcceptValid(t, b.pos, EndSymbol, b.events);
    var c := Accept(t, b.pos, EndSymbol, b.events);
    ChainValid(t, p, h1, b, c);
    FinishValid(t, p, h, StatementPart, c);
  }

  /** statementList keeps its trace consistent with the tokens it consumes. */
  lemma {:induction false} StatementListValid(t: seq<Kind>, p: nat, h: seq<Event>)
    requires p <= |t|
    decreases |t| - p, 9
    ensures Valid(t, p, h, ParseStatementList(t, p, h))
    ensures Block(StatementList, h, ParseStatementList(t, p, h))
  {
    var h1 := h + [Enter(StatementList)];
    StatementValid(t, p, h1);
    var a := ParseStatement(t, p, h1);
    if a.Fail? { FinishValid(t, p, h, StatementList, a); return; }
    StatementListTailValid(t, a.pos, a.events);
    var b := ParseStatementListTail(t, a.pos, a.events);
    ChainValid(t, p, h1, a, b);
    FinishValid(t, p, h, StatementList, b);
  }

  lemma {:induction false} StatementListTailValid(t: seq<Kind>, p: nat, h: seq<Event>)
    requires p <= |t|
    decreases |t| - p, 1
    ensures Valid(t, p, h, ParseStatementListTail(t, p, h))
  {
    if Peek(t, p) == SemicolonSymbol {
      AcceptValid(t, p, SemicolonSymbol, h);
      var a := Accept(t, p, SemicolonSymbol, h);
      StatementValid(t, a.pos, a.events);
      var b := ParseStatement(t, a.pos, a.events);
      ChainValid(t, p, h, a, b);
      if b.Done? {
        StatementListTailValid(t, b.pos, b.events);
        ChainValid(t, p, h, b, ParseStatementListTail(t, b.pos, b.events));
      }
    } else {
      StayValid(t, p, h, Done(p, h));
    }
  }

  /** statement keeps its trace consistent with the tokens it consumes. */
  lemma {:induction false} StatementValid(t: seq<Kind>, p: nat, h: seq<Event>)
    requires p <= |t|
    decreases |t| - p, 8
    ensures Valid(t, p, h, ParseStatement(t, p, h))
    ensures Block(Statement, h, ParseStatement(t, p, h))
  {
    var h1 := h + [Enter(Statement)];
    var k := Peek(t, p);
    if k == Identifier { AssignmentStatementValid(t, p, h1); }
    else if k == IfSymbol { IfStatementValid(t, p, h1); }
    else if k == WhileSymbol { WhileStatementValid(t, p, h1); }
    else if k == CallSymbol { ProcedureStatementValid(t, p, h1); }
    else if k == UntilSymbol { UntilStatementValid(t, p, h1); }
    else if k == ForSymbol { ForStatementValid(t, p, h1); }
    else { StayValid(t, p, h1, Fail(p, h1)); }
    var body :=
      match k
      case Identifier => ParseAssignmentStatement(t, p, h1)
      case IfSymbol => ParseIfStatement(t, p, h1)
      case WhileSymbol => ParseWhileStatement(t, p, h1)
      case CallSymbol => ParseProcedureStatement(t, p, h1)
      case UntilSymbol => ParseUntilStatement(t, p, h1)
      case ForSymbol => ParseForStatement(t, p, h1)
      case _ => Fail(p, h1);
    FinishValid(t, p, h, Statement, body);
  }

  /** assignmentStatement keeps its trace consistent with the tokens it consumes. */
  lemma {:induction false} AssignmentStatementValid(t: seq<Kind>, p: nat, h: seq<Event>)
    requires p <= |t|
    decreases |t| - p, 7
    ensures Valid(t, p, h, ParseAssignmentStatement(t, p, h))
    ensures Block(AssignmentStatement, h, ParseAssignmentStatement(t, p, h))
  {
    var h1 := h + [Enter(AssignmentStatement)];
    AcceptValid(t, p, Identifier, h1);
    var a := Accept(t, p, Identifier, h1);
    if a.Fail? { FinishValid(t, p, h, AssignmentStatement, a); return; }
    AcceptValid(t, a.pos, BecomesSymbol, a.events);
    var b := Accept(t, a.pos, BecomesSymbol, a.events);
    ChainValid(t, p, h1, a, b);
    if b.Fail? { FinishValid(t, p, h, AssignmentStatement, b); return; }
    AssignmentStatementRemainderValid(t, b.pos, b.events);
    var c := ParseAssignmentStatementRemainder(t, b.pos, b.events);
    ChainValid(t, p, h1, b, c);
    FinishValid(t, p, h, AssignmentStatement, c);
  }

  lemma {:induction false} AssignmentStatementRemainderValid(t: seq<Kind>, p: nat, h: seq<Event>)
    requires p <= |t|
    decreases |t| - p, 5
    ensures Valid(t, p, h, ParseAssignmentStatementRemainder(t, p, h))
  {
    if Peek(t, p) == StringConstant {
      AcceptValid(t, p, StringConstant, h);
    } else {
      ExpressionValid(t, p, h);
    }
  }

  /** ifStatement keeps its trace consistent with the tokens it consumes. */
  lemma {:induction false} IfStatementValid(t: seq<Kind>, p: nat, h: seq<Event>)
    requires p <= |t|
    decreases |t| - p, 7
    ensures Valid(t, p, h, ParseIfStatement(t, p, h))
    ensures Block(IfStatement, h, ParseIfStatement(t, p, h))
  {
    var h1 := h + [Enter(IfStatement)];
    AcceptValid(t, p, IfSymbol, h1);
    var a := Accept(t, p, IfSymbol, h1);
    if a.Fail? { FinishValid(t, p, h, IfStatement, a); return; }
    ConditionValid(t, a.pos, a.events);
    var b := ParseCondition(t, a.pos, a.events);
    ChainValid(t, p, h1, a, b);
    if b.Fail? { FinishValid(t, p, h, IfStatement, b); return; }
    AcceptValid(t, b.pos, ThenSymbol, b.events);
    var c := Accept(t, b.pos, ThenSymbol, b.events);
    ChainValid(t, p, h1, b, c);
    if c.Fail? { FinishValid(t, p, h, IfStatement, c); return; }
    StatementListValid(t, c.pos, c.events);
    var d := ParseStatementList(t, c.pos, c.events);
    ChainValid(t, p, h1, c, d);
    if d.Fail? { FinishValid(t, p, h, IfStatement, d); return; }
    IfStatementRemainderValid(t, d.pos, d.events);
    var e := ParseIfStatementRemainder(t, d.pos, d.events);
    ChainValid(t, p, h1, d, e);
    FinishValid(t, p, h, IfStatement, e);
  }

  lemma {:induction false} IfStatementRemainderValid(t: seq<Kind>, p: nat, h: seq<Event>)
    requires p <= |t|
    decreases |t| - p, 1
    ensures Valid(t, p, h, ParseIfStatementRemainder(t, p, h))
  {
    if Peek(t, p) == ElseSymbol {
      AcceptValid(t, p, ElseSymbol, h);
      var e := Accept(t, p, ElseSymbol, h);
      StatementListValid(t, e.pos, e.events);
      ChainValid(t, p, h, e, ParseStatementList(t, e.pos, e.events));
    } else {
      StayValid(t, p, h, Done(p, h));
    }
    var a :=
      if Peek(t, p) == ElseSymbol then
        var e := Accept(t, p, ElseSymbol, h);
        ParseStatementList(t, e.pos, e.events)
      else Done(p, h);
    if a.Fail? { return; }
    AcceptValid(t, a.pos, EndSymbol, a.events);
    var b := Accept(t, a.pos, EndSymbol, a.events);
    ChainValid(t, p, h, a, b);
    if b.Fail? { return; }
    AcceptValid(t, b.pos, IfSymbol, b.events);
    ChainValid(t, p, h, b, Accept(t, b.pos, IfSymbol, b.events));
  }

  /** whileStatement keeps its trace consistent with the tokens it consumes. */
  lemma {:induction false} WhileStatementValid(t: seq<Kind>, p: nat, h: seq<Event>)
    requires p <= |t|
    decreases |t| - p, 7
    ensures Valid(t, p, h, ParseWhileStatement(t, p, h))
    ensures Block(WhileStatement, h, ParseWhileStatement(t, p, h))
  {
    var h1 := h + [Enter(WhileStatement)];
    AcceptValid(t, p, WhileSymbol, h1);
    var a := Accept(t, p, WhileSymbol, h1);
    if a.Fail? { FinishValid(t, p, h, WhileStatement, a); return; }
    ConditionValid(t, a.pos, a.events);
    var b := ParseCondition(t, a.pos, a.events);
    ChainValid(t, p, h1, a, b);
    if b.Fail? { FinishValid(t, p, h, WhileStatement, b); return; }
    AcceptValid(t, b.pos, LoopSymbol, b.events);
    var c := Accept(t, b.pos, LoopSymbol, b.events);
    ChainValid(t, p, h1, b, c);
    if c.Fail? { FinishValid(t, p, h, WhileStatement, c); return; }
    StatementListValid(t, c.pos, c.events);
    var d := ParseStatementList(t, c.pos, c.events);
    ChainValid(t, p, h1, c, d);
    if d.Fail? { FinishValid(t, p, h, WhileStatement, d); return; }
    AcceptValid(t, d.pos, EndSymbol, d.events);
    var e := Accept(t, d.pos, EndSymbol, d.events);
    ChainValid(t, p, h1, d, e);
    if e.Fail? { FinishValid(t, p, h, WhileStatement, e); return; }
    AcceptValid(t, e.pos, LoopSymbol, e.events);
    var f := Accept(t, e.pos, LoopSymbol, e.events);
    ChainValid(t, p, h1, e, f);
    FinishValid(t, p, h, WhileStatement, f);
  }

  /** procedureStatement keeps its trace consistent with the tokens it consumes. */
  lemma {:induction false} ProcedureStatementValid(t: seq<Kind>, p: nat, h: seq<Event>)
    requires p <= |t|
    decreases |t| - p, 7
    ensures Valid(t, p, h, ParseProcedureStatement(t, p, h))
    ensures Block(ProcedureStatement, h, ParseProcedureStatement(t, p, h))
  {
    var h1 := h + [Enter(ProcedureStatement)];
    AcceptValid(t, p, CallSymbol, h1);
    var a := Accept(t, p, CallSymbol, h1);
    if a.Fail? { FinishValid(t, p, h, ProcedureStatement, a); return; }
    AcceptValid(t, a.pos, Identifier, a.events);
    var b := Accept(t, a.pos, Identifier, a.events);
    ChainValid(t, p, h1, a, b);
    if b.Fail? { FinishValid(t, p, h, ProcedureStatement, b); return; }
    AcceptValid(t, b.pos, LeftParenthesis, b.events);
    var c := Accept(t, b.pos, LeftParenthesis, b.events);
    ChainValid(t, p, h1, b, c);
    if c.Fail? { FinishValid(t, p, h, ProcedureStatement, c); return; }
    ArgumentListValid(t, c.pos, c.events);
    var d := ParseArgumentList(t, c.pos, c.events);
    ChainValid(t, p, h1, c, d);
    if d.Fail? { FinishValid(t, p, h, ProcedureStatement, d); return; }
    AcceptValid(t, d.pos, RightParenthesis, d.events);
    var e := Accept(t, d.pos, RightParenthesis, d.events);
    ChainValid(t, p, h1, d, e);
    FinishValid(t, p, h, ProcedureStatement, e);
  }

  /** untilStatement keeps its trace consistent with the tokens it consumes. */
  lemma {:induction false} UntilStatementValid(t: seq<Kind>, p: nat, h: seq<Event>)
    requires p <= |t|
    decreases |t| - p, 7
    ensures Valid(t, p, h, ParseUntilStatement(t, p, h))
    ensures Block(UntilStatement, h, ParseUntilStatement(t, p, h))
  {
    var h1 := h + [Enter(UntilStatement)];
    AcceptValid(t, p, DoSymbol, h1);
    var a := Accept(t, p, DoSymbol, h1);
    if a.Fail? { FinishValid(t, p, h, UntilStatement, a); return; }
    StatementListValid(t, a.pos, a.events);
    var b := ParseStatementList(t, a.pos, a.events);
    ChainValid(t, p, h1, a, b);
    if b.Fail? { FinishValid(t, p, h, UntilStatement, b); return; }
    AcceptValid(t, b.pos, UntilSymbol, b.events);
    var c := Accept(t, b.pos, UntilSymbol, b.events);
    ChainValid(t, p, h1, b, c);
    if c.Fail? { FinishValid(t, p, h, UntilStatement, c); return; }
    ConditionValid(t, c.pos, c.events);
    var d := ParseCondition(t, c.pos, c.events);
    ChainValid(t, p, h1, c, d);
    FinishValid(t, p, h, UntilStatement, d);
  }

  /** forStatement keeps its trace consistent with the tokens it consumes. */
  lemma {:induction false} ForStatementValid(t: seq<Kind>, p: nat, h: seq<Event>)
    requires p <= |t|
    decreases |t| - p, 7
    ensures Valid(t, p, h, ParseForStatement(t, p, h))
    ensures Block(ForStatement, h, ParseForStatement(t, p, h))
  {
    var h1 := h + [Enter(ForStatement)];
    AcceptValid(t, p, ForSymbol, h1);
    var a := Accept(t, p, ForSymbol, h1);
    if a.Fail? { FinishValid(t, p, h, ForStatement, a); return; }
    ForControlValid(t, a.pos, a.events);
    var b := ParseForControl(t, a.pos, a.events);
    ChainValid(t, p, h1, a, b);
    if b.Fail? { FinishValid(t, p, h, ForStatement, b); return; }
    AcceptValid(t, b.pos, DoSymbol, b.events);
    var c := Accept(t, b.pos, DoSymbol, b.events);
    ChainValid(t, p, h1, b, c);
    if c.Fail? { FinishValid(t, p, h, ForStatement, c); return; }
    StatementListValid(t, c.pos, c.events);
    var d := ParseStatementList(t, c.pos, c.events);
    ChainValid(t, p, h1, c, d);
    if d.Fail? { FinishValid(t, p, h, ForStatement, d); return; }
    AcceptValid(t, d.pos, EndSymbol, d.events);
    var e := Accept(t, d.pos, EndSymbol, d.events);
    ChainValid(t, p, h1, d, e);
    if e.Fail? { FinishValid(t, p, h, ForStatement, e); return; }
    AcceptValid(t, e.pos, LoopSymbol, e.events);
    var f := Accept(t, e.pos, LoopSymbol, e.events);
    ChainValid(t, p, h1, e, f);
    FinishValid(t, p, h, ForStatement, f);
  }

  /** The control part of forStatement keeps its trace consistent with the tokens it consumes. */
  lemma ForControlValid(t: seq<Kind>, p: nat, h: seq<Event>)
    requires p <= |t|
    ensures Valid(t, p, h, ParseForControl(t, p, h))
  {
    AcceptValid(t, p, LeftParenthesis, h);
    var a := Accept(t, p, LeftParenthesis, h);
    if a.Fail? { return; }
    AssignmentStatementValid(t, a.pos, a.events);
    var b := ParseAssignmentStatement(t, a.pos, a.events);
    ChainValid(t, p, h, a, b);
    if b.Fail? { return; }
    AcceptValid(t, b.pos, SemicolonSymbol, b.events);
    var c := Accept(t, b.pos, SemicolonSymbol, b.events);
    ChainValid(t, p, h, b, c);
    if c.Fail? { return; }
    ConditionValid(t, c.pos, c.events);
    var d := ParseCondition(t, c.pos, c.events);
    ChainValid(t, p, h, c, d);
    if d.Fail? { return; }
    AcceptValid(t, d.pos, SemicolonSymbol, d.events);
    var e := Accept(t, d.pos, SemicolonSymbol, d.events);
    ChainValid(t, p, h, d, e);
    if e.Fail? { return; }
    AssignmentStatementValid(t, e.pos, e.events);
    var f := ParseAssignmentStatement(t, e.pos, e.events);
    ChainValid(t, p, h, e, f);
    if f.Fail? { return; }
    AcceptValid(t, f.pos, RightParenthesis, f.events);
    var g := Accept(t, f.pos, RightParenthesis, f.events);
    ChainValid(t, p, h, f, g);
  }

  /** argumentList keeps its trace consistent with the tokens it consumes. */
  lemma {:induction false} ArgumentListValid(t: seq<Kind>, p: nat, h: seq<Event>)
    requires p <= |t|
    ensures Valid(t, p, h, ParseArgumentList(t, p, h))
    ensures Block(ArgumentList, h, ParseArgumentList(t, p, h))
  {
    var h1 := h + [Enter(ArgumentList)];
    AcceptValid(t, p, Identifier, h1);
    var a := Accept(t, p, Identifier, h1);
    if a.Fail? { FinishValid(t, p, h, ArgumentList, a); return; }
    ArgumentListTailValid(t, a.pos, a.events);
    var b := ParseArgumentListTail(t, a.pos, a.events);
    ChainValid(t, p, h1, a, b);
    FinishValid(t, p, h, ArgumentList, b);
  }

  lemma {:induction false} ArgumentListTailValid(t: seq<Kind>, p: nat, h: seq<Event>)
    requires p <= |t|
    decreases |t| - p
    ensures Valid(t, p, h, ParseArgumentListTail(t, p, h))
  {
    if Peek(t, p) == CommaSymbol {
      AcceptValid(t, p, CommaSymbol, h);
      var a := Accept(t, p, CommaSymbol, h);
      AcceptValid(t, a.pos, Identifier, a.events);
      var b := Accept(t, a.pos, Identifier, a.events);
      ChainValid(t, p, h, a, b);
      if b.Done? {
        ArgumentListTailValid(t, b.pos, b.events);
        ChainValid(t, p, h, b, ParseArgumentListTail(t, b.pos, b.events));
      }
    } else {
      StayValid(t, p, h, Done(p, h));
    }
  }

  /** condition keeps its trace consistent with the tokens it consumes. */
  lemma {:induction false} ConditionValid(t: seq<Kind>, p: nat, h: seq<Event>)
    requires p <= |t|
    ensures Valid(t, p, h, ParseCondition(t, p, h))
    ensures Block(Condition, h, ParseCondition(t, p, h))
  {
    var h1 := h + [Enter(Condition)];
    AcceptValid(t, p, Identifier, h1);
    var a := Accept(t, p, Identifier, h1);
    if a.Fail? { FinishValid(t, p, h, Condition, a); return; }
    ConditionalOperatorValid(t, a.pos, a.events);
    var b := ParseConditionalOperator(t, a.pos, a.events);
    ChainValid(t, p, h1, a, b);
    if b.Fail? { FinishValid(t, p, h, Condition, b); return; }
    ConditionRemainderValid(t, b.pos, b.events);
    var c := ParseConditionRemainder(t, b.pos, b.events);
    ChainValid(t, p, h1, b, c);
    FinishValid(t, p, h, Condition, c);
  }

  lemma ConditionRemainderValid(t: seq<Kind>, p: nat, h: seq<Event>)
    requires p <= |t|
    ensures Valid(t, p, h, ParseConditionRemainder(t, p, h))
  {
    var k := Peek(t, p);
    if k in {Identifier, NumberConstant, StringConstant} {
      AcceptValid(t, p, k, h);
    } else {
      StayValid(t, p, h, Fail(p, h));
    }
  }

  lemma ConditionalOperatorValid(t: seq<Kind>, p: nat, h: seq<Event>)
    requires p <= |t|
    ensures Valid(t, p, h, ParseConditionalOperator(t, p, h))
    ensures Block(ConditionalOperator, h, ParseConditionalOperator(t, p, h))
  {
    var h1 := h + [Enter(ConditionalOperator)];
    var k := Peek(t, p);
    if IsConditionalOperator(k) {
      AcceptValid(t, p, k, h1);
      FinishValid(t, p, h, ConditionalOperator, Accept(t, p, k, h1));
    } else {
      StayValid(t, p, h1, Fail(p, h1));
      FinishValid(t, p, h, ConditionalOperator, Fail(p, h1));
    }
  }

  /** expression keeps its trace consistent with the tokens it consumes. */
  lemma {:induction false} ExpressionValid(t: seq<Kind>, p: nat, h: seq<Event>)
    requires p <= |t|
    decreases |t| - p, 4
    ensures Valid(t, p, h, ParseExpression(t, p, h))
    ensures Block(Expression, h, ParseExpression(t, p, h))
  {
    var h1 := h + [Enter(Expression)];
    TermValid(t, p, h1);
    var a := ParseTerm(t, p, h1);
    if a.Fail? { FinishValid(t, p, h, Expression, a); return; }
    ExpressionTailValid(t, a.pos, a.events);
    var b := ParseExpressionTail(t, a.pos, a.events);
    ChainValid(t, p, h1, a, b);
    FinishValid(t, p, h, Expression, b);
  }

  lemma {:induction false} ExpressionTailValid(t: seq<Kind>, p: nat, h: seq<Event>)
    requires p <= |t|
    decreases |t| - p, 1
    ensures Valid(t, p, h, ParseExpressionTail(t, p, h))
  {
    var k := Peek(t, p);
    if k == PlusSymbol || k == MinusSymbol {
      AcceptValid(t, p, k, h);
      var a := Accept(t, p, k, h);
      TermValid(t, a.pos, a.events);
      var b := ParseTerm(t, a.pos, a.events);
      ChainValid(t, p, h, a, b);
      if b.Done? {
        ExpressionTailValid(t, b.pos, b.events);
        ChainValid(t, p, h, b, ParseExpressionTail(t, b.pos, b.events));
      }
    } else {
      StayValid(t, p, h, Done(p, h));
    }
  }

  /** term keeps its trace consistent with the tokens it consumes. */
  lemma {:induction false} TermValid(t: seq<Kind>, p: nat, h: seq<Event>)
    requires p <= |t|
    decreases |t| - p, 3
    ensures Valid(t, p, h, ParseTerm(t, p, h))
    ensures Block(Term, h, ParseTerm(t, p, h))
  {
    var h1 := h + [Enter(Term)];
    FactorValid(t, p, h1);
    var a := ParseFactor(t, p, h1);
    if a.Fail? { FinishValid(t, p, h, Term, a); return; }
    TermTailValid(t, a.pos, a.events);
    var b := ParseTermTail(t, a.pos, a.events);
    ChainValid(t, p, h1, a, b);
    FinishValid(t, p, h, Term, b);
  }

  lemma {:induction false} TermTailValid(t: seq<Kind>, p: nat, h: seq<Event>)
    requires p <= |t|
    decreases |t| - p, 1
    ensures Valid(t, p, h, ParseTermTail(t, p, h))
  {
    var k := Peek(t, p);
    if k == TimesSymbol || k == DivideSymbol || k == ModSymbol {
      AcceptValid(t, p, k, h);
      var a := Accept(t, p, k, h);
      FactorValid(t, a.pos, a.events);
      var b := ParseFactor(t, a.pos, a.events);
      ChainValid(t, p, h, a, b);
      if b.Done? {
        TermTailValid(t, b.pos, b.events);
        ChainValid(t, p, h, b, ParseTermTail(t, b.pos, b.events));
      }
    } else {
      StayValid(t, p, h, Done(p, h));
    }
  }

  /** factor keeps its trace consistent with the tokens it consumes. */
  lemma {:induction false} FactorValid(t: seq<Kind>, p: nat, h: seq<Event>)
    requires p <= |t|
    decreases |t| - p, 2
    ensures Valid(t, p, h, ParseFactor(t, p, h))
    ensures Block(Factor, h, ParseFactor(t, p, h))
  {
    var h1 := h + [Enter(Factor)];
    var k := Peek(t, p);
    if k == Identifier || k == NumberConstant {
      AcceptValid(t, p, k, h1);
      FinishValid(t, p, h, Factor, Accept(t, p, k, h1));
    } else if k == LeftParenthesis {
      AcceptValid(t, p, LeftParenthesis, h1);
      var a := Accept(t, p, LeftParenthesis, h1);
      ExpressionValid(t, a.pos, a.events);
      var b := ParseExpression(t, a.pos, a.events);
      ChainValid(t, p, h1, a, b);
      if b.Fail? { FinishValid(t, p, h, Factor, b); return; }
      AcceptValid(t, b.pos, RightParenthesis, b.events);
      var c := Accept(t, b.pos, RightParenthesis, b.events);
      ChainValid(t, p, h1, b, c);
      FinishValid(t, p, h, Factor, c);
    } else {
      StayValid(t, p, h1, Fail(p, h1));
      FinishValid(t, p, h, Factor, Fail(p, h1));
    }
  }
}
