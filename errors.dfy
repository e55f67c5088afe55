/** Where an error is reported, for the stream `begin identifier + 1 end`:
    an assignment whose `:=` is missing. The analyser stops at the `+`,
    which is the first token at which the stream stops being the beginning
    of some program's spelling. */
module ErrorPosition {
  import opened Tokens
  import opened Events
  import opened Grammar
  import opened Derivations

  /** `begin identifier + numberConstant end`. */
  const Scenario: seq<Kind> := [BeginSymbol, Identifier, PlusSymbol, NumberConstant, EndSymbol]

  /** `begin identifier := numberConstant end`, the program the scenario
      deviates from. */
  const Assigned: ListTree :=
    ListTree(AssignmentNode(ExpressionValue(ExpressionTree(TermTree(Number, NoFactor), NoTerm))), NoStatement)

  /** Every statement spells at least two tokens, the first being the one the
      analyser dispatches on. */
  lemma StatementBegins(s: StatementTree)
    ensures |StatementYield(s)| >= 2 && StatementYield(s)[0] == Leading(s)
  {
    match s
    case AssignmentNode(v) =>
    case IfNode(c, a, e) =>
    case WhileNode(c, b) =>
    case CallNode(n) =>
    case ForNode(i, c, st, b) =>
  }

  /** No program's spelling continues `begin identifier` with anything but
      `:=`: a statement that starts with an identifier is an assignment. */
  lemma IdentifierThenBecomes(l: ListTree)
    ensures |ProgramYield(l)| > 2
    ensures ProgramYield(l)[1] == Identifier ==> ProgramYield(l)[2] == BecomesSymbol
  {
    var s := l.first;
    StatementBegins(s);
    var y := ProgramYield(l);
    assert y == [BeginSymbol] + StatementYield(s) + (ListRestYield(l.rest) + [EndSymbol]);
    assert y[1] == StatementYield(s)[0] && y[2] == StatementYield(s)[1];
    if y[1] == Identifier {
      assert StatementYield(s) == [Identifier, BecomesSymbol] + ValueYield(s.value);
    }
  }

  /** The analyser's run on the scenario: it announces the statement part,
      the list, the statement and the assignment, matches `begin` and the
      identifier, and fails at position 2, the `+`. */
  lemma ScenarioRun()
    ensures ParseStatementPart(Scenario, 0, []) == Fail(2, [Enter(StatementPart), Match(BeginSymbol),
      Enter(StatementList), Enter(Statement), Enter(AssignmentStatement), Match(Identifier)])
  {
    var h1 := [Enter(StatementPart), Match(BeginSymbol)];
    var h2 := h1 + [Enter(StatementList)] + [Enter(Statement)];
    var f := Fail(2, h2 + [Enter(AssignmentStatement)] + [Match(Identifier)]);
    assert ParseAssignmentStatement(Scenario, 1, h2) == f;
    assert ParseStatement(Scenario, 1, h1 + [Enter(StatementList)]) == f;
    assert ParseStatementList(Scenario, 1, h1) == f;
  }

  /** The analyser fails at position 2, the `+`, having announced the
      statement part, the list, the statement and the assignment and matched
      `begin` and the identifier; the two tokens before the `+` begin a
      program, and the three tokens up to it begin none. */
  lemma ScenarioFailsAtFirstDeviation()
    ensures ParseStatementPart(Scenario, 0, []) == Fail(2, [Enter(StatementPart), Match(BeginSymbol),
      Enter(StatementList), Enter(Statement), Enter(AssignmentStatement), Match(Identifier)])
    ensures ProgramYield(Assigned)[..2] == Scenario[..2]
    ensures forall l: ListTree :: |ProgramYield(l)| > 2 && ProgramYield(l)[..3] != Scenario[..3]
  {
    hide ParseStatementPart;
    ScenarioRun();
    assert ProgramYield(Assigned) == [BeginSymbol, Identifier, BecomesSymbol, NumberConstant, EndSymbol];
    forall l: ListTree
      ensures |ProgramYield(l)| > 2 && ProgramYield(l)[..3] != Scenario[..3]
    {
      IdentifierThenBecomes(l);
      assert Scenario[..3][1] == Identifier && Scenario[..3][2] == PlusSymbol;
    }
  }
}
