/** The analyser as the source writes it: an object holding the lookahead
    (here its position in the token stream) whose recognising methods call
    one another, consume tokens through acceptTerminal and push
    notifications to the sink. A call to reportError never returns (the sink
    throws), so every method returns `ok == false` at the first error and its
    callers return at once. Each method is proved to do exactly what the
    matching function of `Grammar` computes from the lookahead position and
    the notifications sent before the call. */
module Analyser {
  import opened Tokens
  import opened Events
  import opened Grammar

  class SyntaxAnalyser {
    /** The kinds of the tokens the lexical analyser delivers, in order. */
    const tokens: seq<Kind>
    /** The position of nextToken, the single lookahead. */
    var pos: nat
    /** The notifications sent to the sink so far. */
    ghost var events: seq<Event>

    ghost predicate Valid()
      reads this
    {
      pos <= |tokens|
    }

    /** The method ended as outcome `r` says: `ok` exactly when it succeeded,
        with the lookahead where `r` stopped and the sink holding `r`'s
        notifications. */
    ghost predicate Reaches(ok: bool, r: Outcome)
      reads this
    {
      ok == r.Done? && pos == r.pos && events == r.events
    }

    /** The lookahead is primed with the first token. */
    constructor (tokens: seq<Kind>)
      ensures Valid() && this.tokens == tokens && pos == 0 && events == []
    {
      this.tokens := tokens;
      pos := 0;
      events := [];
    }

    /** nextToken.symbol */
    function NextSymbol(): (k: Kind)
      reads this`pos
    {
      Peek(tokens, pos)
    }

    method AcceptTerminal(symbol: Kind) returns (ok: bool)
      requires Valid() && symbol != EofSymbol
      modifies this
      ensures Valid() && Reaches(ok, Accept(tokens, old(pos), symbol, old(events)))
    {
      if NextSymbol() == symbol {
        events := events + [Match(symbol)];
        pos := pos + 1;
        ok := true;
      } else {
        ok := false;
      }
    }

    method StatementPart() returns (ok: bool)
      requires Valid()
      modifies this
      ensures Valid() && Reaches(ok, ParseStatementPart(tokens, old(pos), old(events)))
    {
      events := events + [Enter(Nonterminal.StatementPart)];
      ok := AcceptTerminal(BeginSymbol);
      if !ok { return; }
      ok := StatementList();
      if !ok { return; }
      ok := AcceptTerminal(EndSymbol);
      if !ok { return; }
      events := events + [Exit(Nonterminal.StatementPart)];
    }

    method StatementList() returns (ok: bool)
      requires Valid()
      modifies this
      decreases |tokens| - pos, 9
      ensures Valid() && Reaches(ok, ParseStatementList(tokens, old(pos), old(events)))
    {
      events := events + [Enter(Nonterminal.StatementList)];
      ok := Statement();
      if !ok { return; }
      while NextSymbol() == SemicolonSymbol
        invariant Valid() && old(pos) <= pos && ok
        invariant ParseStatementList(tokens, old(pos), old(events))
               == Finish(Nonterminal.StatementList, ParseStatementListTail(tokens, pos, events))
        decreases |tokens| - pos
      {
        ok := AcceptTerminal(SemicolonSymbol);
        ok := Statement();
        if !ok { return; }
      }
      events := events + [Exit(Nonterminal.StatementList)];
    }

    method Statement() returns (ok: bool)
      requires Valid()
      modifies this
      decreases |tokens| - pos, 8
      ensures Valid() && Reaches(ok, ParseStatement(tokens, old(pos), old(events)))
    {
      events := events + [Enter(Nonterminal.Statement)];
      match NextSymbol() {
        case Identifier => ok := AssignmentStatement();
        case IfSymbol => ok := IfStatement();
        case WhileSymbol => ok := WhileStatement();
        case CallSymbol => ok := ProcedureStatement();
        case UntilSymbol => ok := UntilStatement();
        case ForSymbol => ok := ForStatement();
        case _ => ok := false;
      }
      if !ok { return; }
      events := events + [Exit(Nonterminal.Statement)];
    }

    method AssignmentStatement() returns (ok: bool)
      requires Valid()
      modifies this
      decreases |tokens| - pos, 7
      ensures Valid() && Reaches(ok, ParseAssignmentStatement(tokens, old(pos), old(events)))
    {
      events := events + [Enter(Nonterminal.AssignmentStatement)];
      ok := AcceptTerminal(Identifier);
      if !ok { return; }
      ok := AcceptTerminal(BecomesSymbol);
      if !ok { return; }
      ok := AssignmentStatementRemainder();
      if !ok { return; }
      events := events + [Exit(Nonterminal.AssignmentStatement)];
    }

    method AssignmentStatementRemainder() returns (ok: bool)
      requires Valid()
      modifies this
      decreases |tokens| - pos, 5
      ensures Valid() && Reaches(ok, ParseAssignmentStatementRemainder(tokens, old(pos), old(events)))
    {
      if NextSymbol() == StringConstant {
        ok := AcceptTerminal(StringConstant);
      } else {
        ok := Expression();
      }
    }

    method IfStatement() returns (ok: bool)
      requires Valid()
      modifies this
      decreases |tokens| - pos, 7
      ensures Valid() && Reaches(ok, ParseIfStatement(tokens, old(pos), old(events)))
    {
      events := events + [Enter(Nonterminal.IfStatement)];
      ok := AcceptTerminal(IfSymbol);
      if !ok { return; }
      ok := Condition();
      if !ok { return; }
      ok := AcceptTerminal(ThenSymbol);
      if !ok { return; }
      ok := StatementList();
      if !ok { return; }
      ok := IfStatementRemainder();
      if !ok { return; }
      events := events + [Exit(Nonterminal.IfStatement)];
    }

    method IfStatementRemainder() returns (ok: bool)
      requires Valid()
      modifies this
      decreases |tokens| - pos, 1
      ensures Valid() && Reaches(ok, ParseIfStatementRemainder(tokens, old(pos), old(events)))
    {
      if NextSymbol() == ElseSymbol {
        ok := AcceptTerminal(ElseSymbol);
        ok := StatementList();
        if !ok { return; }
      }
      ok := AcceptTerminal(EndSymbol);
      if !ok { return; }
      ok := AcceptTerminal(IfSymbol);
    }

    method WhileStatement() returns (ok: bool)
      requires Valid()
      modifies this
      decreases |tokens| - pos, 7
      ensures Valid() && Reaches(ok, ParseWhileStatement(tokens, old(pos), old(events)))
    {
      events := events + [Enter(Nonterminal.WhileStatement)];
      ok := AcceptTerminal(WhileSymbol);
      if !ok { return; }
      ok := Condition();
      if !ok { return; }
      ok := AcceptTerminal(LoopSymbol);
      if !ok { return; }
      ok := StatementList();
      if !ok { return; }
      ok := AcceptTerminal(EndSymbol);
      if !ok { return; }
      ok := AcceptTerminal(LoopSymbol);
      if !ok { return; }
      events := events + [Exit(Nonterminal.WhileStatement)];
    }

    method ProcedureStatement() returns (ok: bool)
      requires Valid()
      modifies this
      decreases |tokens| - pos, 7
      ensures Valid() && Reaches(ok, ParseProcedureStatement(tokens, old(pos), old(events)))
    {
      events := events + [Enter(Nonterminal.ProcedureStatement)];
      ok := AcceptTerminal(CallSymbol);
      if !ok { return; }
      ok := AcceptTerminal(Identifier);
      if !ok { return; }
      ok := AcceptTerminal(LeftParenthesis);
      if !ok { return; }
      ok := ArgumentList();
      if !ok { return; }
      ok := AcceptTerminal(RightParenthesis);
      if !ok { return; }
      events := events + [Exit(Nonterminal.ProcedureStatement)];
    }

    method UntilStatement() returns (ok: bool)
      requires Valid()
      modifies this
      decreases |tokens| - pos, 7
      ensures Valid() && Reaches(ok, ParseUntilStatement(tokens, old(pos), old(events)))
    {
      events := events + [Enter(Nonterminal.UntilStatement)];
      ok := AcceptTerminal(DoSymbol);
      if !ok { return; }
      ok := StatementList();
      if !ok { return; }
      ok := AcceptTerminal(UntilSymbol);
      if !ok { return; }
      ok := Condition();
      if !ok { return; }
      events := events + [Exit(Nonterminal.UntilStatement)];
    }

    method ForStatement() returns (ok: bool)
      requires Valid()
      modifies this
      decreases |tokens| - pos, 7
      ensures Valid() && Reaches(ok, ParseForStatement(tokens, old(pos), old(events)))
    {
      events := events + [Enter(Nonterminal.ForStatement)];
      ok := AcceptTerminal(ForSymbol);
      if !ok { return; }
      ok := AcceptTerminal(LeftParenthesis);
      if !ok { return; }
      ok := AssignmentStatement();
      if !ok { return; }
      ok := AcceptTerminal(SemicolonSymbol);
      if !ok { return; }
      ok := Condition();
      if !ok { return; }
      ok := AcceptTerminal(SemicolonSymbol);
      if !ok { return; }
      ok := AssignmentStatement();
      if !ok { return; }
      ok := AcceptTerminal(RightParenthesis);
      if !ok { return; }
      ok := AcceptTerminal(DoSymbol);
      if !ok { return; }
      ok := StatementList();
      if !ok { return; }
      ok := AcceptTerminal(EndSymbol);
      if !ok { return; }
      ok := AcceptTerminal(LoopSymbol);
      if !ok { return; }
      events := events + [Exit(Nonterminal.ForStatement)];
    }

    method ArgumentList() returns (ok: bool)
      requires Valid()
      modifies this
      ensures Valid() && Reaches(ok, ParseArgumentList(tokens, old(pos), old(events)))
    {
      events := events + [Enter(Nonterminal.ArgumentList)];
      ok := AcceptTerminal(Identifier);
      if !ok { return; }
      while NextSymbol() == CommaSymbol
        invariant Valid() && old(pos) <= pos && ok
        invariant ParseArgumentList(tokens, old(pos), old(events))
               == Finish(Nonterminal.ArgumentList, ParseArgumentListTail(tokens, pos, events))
        decreases |tokens| - pos
      {
        ok := AcceptTerminal(CommaSymbol);
        ok := AcceptTerminal(Identifier);
        if !ok { return; }
      }
      events := events + [Exit(Nonterminal.ArgumentList)];
    }

    method Condition() returns (ok: bool)
      requires Valid()
      modifies this
      ensures Valid() && Reaches(ok, ParseCondition(tokens, old(pos), old(events)))
    {
      events := events + [Enter(Nonterminal.Condition)];
      ok := AcceptTerminal(Identifier);
      if !ok { return; }
      ok := ConditionalOperator();
      if !ok { return; }
      ok := ConditionRemainder();
      if !ok { return; }
      events := events + [Exit(Nonterminal.Condition)];
    }

    method ConditionRemainder() returns (ok: bool)
      requires Valid()
      modifies this
      ensures Valid() && Reaches(ok, ParseConditionRemainder(tokens, old(pos), old(events)))
    {
      match NextSymbol() {
        case Identifier => ok := AcceptTerminal(Identifier);
        case NumberConstant => ok := AcceptTerminal(NumberConstant);
        case StringConstant => ok := AcceptTerminal(StringConstant);
        case _ => ok := false;
      }
    }

    method ConditionalOperator() returns (ok: bool)
      requires Valid()
      modifies this
      ensures Valid() && Reaches(ok, ParseConditionalOperator(tokens, old(pos), old(events)))
    {
      events := events + [Enter(Nonterminal.ConditionalOperator)];
      match NextSymbol() {
        case GreaterThanSymbol => ok := AcceptTerminal(GreaterThanSymbol);
        case GreaterEqualSymbol => ok := AcceptTerminal(GreaterEqualSymbol);
        case EqualSymbol => ok := AcceptTerminal(EqualSymbol);
        case NotEqualSymbol => ok := AcceptTerminal(NotEqualSymbol);
        case LessThanSymbol => ok := AcceptTerminal(LessThanSymbol);
        case LessEqualSymbol => ok := AcceptTerminal(LessEqualSymbol);
        case _ => ok := false;
      }
      if !ok { return; }
      events := events + [Exit(Nonterminal.ConditionalOperator)];
    }

    method Expression() returns (ok: bool)
      requires Valid()
      modifies this
      decreases |tokens| - pos, 4
      ensures Valid() && Reaches(ok, ParseExpression(tokens, old(pos), old(events)))
    {
      events := events + [Enter(Nonterminal.Expression)];
      ok := Term();
      if !ok { return; }
      while NextSymbol() == PlusSymbol || NextSymbol() == MinusSymbol
        invariant Valid() && old(pos) <= pos && ok
        invariant ParseExpression(tokens, old(pos), old(events))
               == Finish(Nonterminal.Expression, ParseExpressionTail(tokens, pos, events))
        decreases |tokens| - pos
      {
        if NextSymbol() == PlusSymbol {
          ok := AcceptTerminal(PlusSymbol);
        } else {
          ok := AcceptTerminal(MinusSymbol);
        }
        ok := Term();
        if !ok { return; }
      }
      events := events + [Exit(Nonterminal.Expression)];
    }

    method Term() returns (ok: bool)
      requires Valid()
      modifies this
      decreases |tokens| - pos, 3
      ensures Valid() && Reaches(ok, ParseTerm(tokens, old(pos), old(events)))
    {
      events := events + [Enter(Nonterminal.Term)];
      ok := Factor();
      if !ok { return; }
      while NextSymbol() == TimesSymbol || NextSymbol() == DivideSymbol || NextSymbol() == ModSymbol
        invariant Valid() && old(pos) <= pos && ok
        invariant ParseTerm(tokens, old(pos), old(events))
               == Finish(Nonterminal.Term, ParseTermTail(tokens, pos, events))
        decreases |tokens| - pos
      {
        if NextSymbol() == TimesSymbol {
          ok := AcceptTerminal(TimesSymbol);
        } else if NextSymbol() == DivideSymbol {
          ok := AcceptTerminal(DivideSymbol);
        } else {
          ok := AcceptTerminal(ModSymbol);
        }
        ok := Factor();
        if !ok { return; }
      }
      events := events + [Exit(Nonterminal.Term)];
    }

    method Factor() returns (ok: bool)
      requires Valid()
      modifies this
      decreases |tokens| - pos, 2
      ensures Valid() && Reaches(ok, ParseFactor(tokens, old(pos), old(events)))
    {
      events := events + [Enter(Nonterminal.Factor)];
      match NextSymbol() {
        case Identifier => ok := AcceptTerminal(Identifier);
        case NumberConstant => ok := AcceptTerminal(NumberConstant);
        case LeftParenthesis =>
          ok := AcceptTerminal(LeftParenthesis);
          ok := Expression();
          if !ok { return; }
          ok := AcceptTerminal(RightParenthesis);
        case _ => ok := false;
      }
      if !ok { return; }
      events := events + [Exit(Nonterminal.Factor)];
    }
  }
}
