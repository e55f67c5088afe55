/** Derivation trees of the grammar the analyser recognises, defined apart
    from the recognisers: what token kinds a tree spells and which
    notifications a recogniser should send for it. The notifications are the
    tree's nodes in pre-order, each nonterminal that announces itself as an
    Enter before its children and an Exit after them; the helper parts that
    announce nothing (the remainders and the control of a for-statement)
    contribute only their children. Until-statements have no tree: the
    analyser never accepts one (see Productions.UntilNeverAccepted). */
module Derivations {
  import opened Tokens
  import opened Events

  /** `+` or `-` between terms. */
  type AddOp = k: Kind | k == PlusSymbol || k == MinusSymbol witness PlusSymbol
  /** `*`, `/` or `mod` between factors. */
  type MulOp = k: Kind | k == TimesSymbol || k == DivideSymbol || k == ModSymbol witness TimesSymbol
  /** The six conditional operators. */
  type RelOp = k: Kind
    | k == GreaterThanSymbol || k == GreaterEqualSymbol || k == EqualSymbol
      || k == NotEqualSymbol || k == LessThanSymbol || k == LessEqualSymbol
    witness GreaterThanSymbol
  /** What may follow the operator of a condition. */
  type Operand = k: Kind | k == Identifier || k == NumberConstant || k == StringConstant witness Identifier

  /** Factor ::= identifier | numberConstant | ( Expression ) */
  datatype FactorTree = Name | Number | Parenthesised(inner: ExpressionTree)
  /** Term ::= Factor { (* | / | mod) Factor } */
  datatype TermTree = TermTree(first: FactorTree, rest: TermRest)
  datatype TermRest = NoFactor | MoreFactor(op: MulOp, factor: FactorTree, next: TermRest)
  /** Expression ::= Term { (+ | -) Term } */
  datatype ExpressionTree = ExpressionTree(first: TermTree, rest: ExpressionRest)
  datatype ExpressionRest = NoTerm | MoreTerm(op: AddOp, term: TermTree, next: ExpressionRest)
  /** Condition ::= identifier ConditionalOperator ConditionRemainder */
  datatype ConditionTree = ConditionTree(op: RelOp, operand: Operand)
  /** AssignmentStatementRemainder ::= stringConstant | Expression */
  datatype ValueTree = StringValue | ExpressionValue(e: ExpressionTree)
  /** The statements the analyser can accept; `more` counts the arguments
      after the first, and an assignment's tree is the value it assigns. */
  datatype StatementTree =
    | AssignmentNode(value: ValueTree)
    | IfNode(condition: ConditionTree, thenPart: ListTree, elsePart: Option<ListTree>)
    | WhileNode(condition: ConditionTree, body: ListTree)
    | CallNode(more: nat)
    | ForNode(init: ValueTree, condition: ConditionTree, step: ValueTree, body: ListTree)
  /** StatementList ::= Statement { ; Statement } */
  datatype ListTree = ListTree(first: StatementTree, rest: ListRest)
  datatype ListRest = NoStatement | MoreStatement(statement: StatementTree, next: ListRest)

  // The token kinds a tree spells.

  function FactorYield(f: FactorTree): seq<Kind> {
    match f
    case Name => [Identifier]
    case Number => [NumberConstant]
    case Parenthesised(e) => [LeftParenthesis] + ExpressionYield(e) + [RightParenthesis]
  }

  function TermYield(tr: TermTree): seq<Kind> {
    FactorYield(tr.first) + TermRestYield(tr.rest)
  }

  function TermRestYield(r: TermRest): seq<Kind> {
    match r
    case NoFactor => []
    case MoreFactor(op, f, next) => [op] + FactorYield(f) + TermRestYield(next)
  }

  function ExpressionYield(e: ExpressionTree): seq<Kind> {
    TermYield(e.first) + ExpressionRestYield(e.rest)
  }

  function ExpressionRestYield(r: ExpressionRest): seq<Kind> {
    match r
    case NoTerm => []
    case MoreTerm(op, tr, next) => [op] + TermYield(tr) + ExpressionRestYield(next)
  }

  function ConditionYield(c: ConditionTree): seq<Kind> {
    [Identifier, c.op, c.operand]
  }

  function ValueYield(v: ValueTree): seq<Kind> {
    match v
    case StringValue => [StringConstant]
    case ExpressionValue(e) => ExpressionYield(e)
  }

  function AssignmentYield(v: ValueTree): seq<Kind> {
    [Identifier, BecomesSymbol] + ValueYield(v)
  }

  function ArgumentsYield(more: nat): seq<Kind> {
    [Identifier] + ArgumentsRestYield(more)
  }

  function ArgumentsRestYield(more: nat): seq<Kind> {
    if more == 0 then [] else [CommaSymbol, Identifier] + ArgumentsRestYield(more - 1)
  }

  /** ( AssignmentStatement ; Condition ; AssignmentStatement ) */
  function ForControlYield(init: ValueTree, c: ConditionTree, step: ValueTree): seq<Kind> {
    [LeftParenthesis] + AssignmentYield(init) + [SemicolonSymbol] + ConditionYield(c)
      + [SemicolonSymbol] + AssignmentYield(step) + [RightParenthesis]
  }

  /** [ else StatementList ] end if */
  function IfRemainderYield(elsePart: Option<ListTree>): seq<Kind>
    decreases elsePart
  {
    match elsePart
    case None => [EndSymbol, IfSymbol]
    case Some(l) => [ElseSymbol] + ListYield(l) + [EndSymbol, IfSymbol]
  }

  function StatementYield(s: StatementTree): seq<Kind>
    decreases s
  {
    match s
    case AssignmentNode(v) => AssignmentYield(v)
    case IfNode(c, a, e) => [IfSymbol] + ConditionYield(c) + [ThenSymbol] + ListYield(a) + IfRemainderYield(e)
    case WhileNode(c, b) => [WhileSymbol] + ConditionYield(c) + [LoopSymbol] + ListYield(b) + [EndSymbol, LoopSymbol]
    case CallNode(n) => [CallSymbol, Identifier, LeftParenthesis] + ArgumentsYield(n) + [RightParenthesis]
    case ForNode(i, c, st, b) => [ForSymbol] + ForControlYield(i, c, st) + [DoSymbol] + ListYield(b) + [EndSymbol, LoopSymbol]
  }

  /** The token kind a statement's spelling starts with: the one the
      analyser dispatches on. */
  function Leading(s: StatementTree): Kind {
    match s
    case AssignmentNode(_) => Identifier
    case IfNode(_, _, _) => IfSymbol
    case WhileNode(_, _) => WhileSymbol
    case CallNode(_) => CallSymbol
    case ForNode(_, _, _, _) => ForSymbol
  }

  function ListYield(l: ListTree): seq<Kind>
    decreases l
  {
    StatementYield(l.first) + ListRestYield(l.rest)
  }

  function ListRestYield(r: ListRest): seq<Kind>
    decreases r
  {
    match r
    case NoStatement => []
    case MoreStatement(s, next) => [SemicolonSymbol] + StatementYield(s) + ListRestYield(next)
  }

  /** _statementPart_ ::= begin StatementList end */
  function ProgramYield(l: ListTree): seq<Kind> {
    [BeginSymbol] + ListYield(l) + [EndSymbol]
  }

  // The notifications a tree should produce.

  function FactorEvents(f: FactorTree): seq<Event> {
    match f
    case Name => [Enter(Factor), Match(Identifier), Exit(Factor)]
    case Number => [Enter(Factor), Match(NumberConstant), Exit(Factor)]
    case Parenthesised(e) =>
      [Enter(Factor), Match(LeftParenthesis)] + ExpressionEvents(e) + [Match(RightParenthesis), Exit(Factor)]
  }

  function TermEvents(tr: TermTree): seq<Event> {
    [Enter(Term)] + FactorEvents(tr.first) + TermRestEvents(tr.rest) + [Exit(Term)]
  }

  function TermRestEvents(r: TermRest): seq<Event> {
    match r
    case NoFactor => []
    case MoreFactor(op, f, next) => [Match(op)] + FactorEvents(f) + TermRestEvents(next)
  }

  function ExpressionEvents(e: ExpressionTree): seq<Event> {
    [Enter(Expression)] + TermEvents(e.first) + ExpressionRestEvents(e.rest) + [Exit(Expression)]
  }

  function ExpressionRestEvents(r: ExpressionRest): seq<Event> {
    match r
    case NoTerm => []
    case MoreTerm(op, tr, next) => [Match(op)] + TermEvents(tr) + ExpressionRestEvents(next)
  }

  function ConditionEvents(c: ConditionTree): seq<Event> {
    [Enter(Condition), Match(Identifier),
     Enter(ConditionalOperator), Match(c.op), Exit(ConditionalOperator),
     Match(c.operand), Exit(Condition)]
  }

  function ValueEvents(v: ValueTree): seq<Event> {
    match v
    case StringValue => [Match(StringConstant)]
    case ExpressionValue(e) => ExpressionEvents(e)
  }

  function AssignmentEvents(v: ValueTree): seq<Event> {
    [Enter(AssignmentStatement), Match(Identifier), Match(BecomesSymbol)] + ValueEvents(v) + [Exit(AssignmentStatement)]
  }

  function ArgumentsEvents(more: nat): seq<Event> {
    [Enter(ArgumentList), Match(Identifier)] + ArgumentsRestEvents(more) + [Exit(ArgumentList)]
  }

  function ArgumentsRestEvents(more: nat): seq<Event> {
    if more == 0 then [] else [Match(CommaSymbol), Match(Identifier)] + ArgumentsRestEvents(more - 1)
  }

  function ForControlEvents(init: ValueTree, c: ConditionTree, step: ValueTree): seq<Event> {
    [Match(LeftParenthesis)] + AssignmentEvents(init) + [Match(SemicolonSymbol)] + ConditionEvents(c)
      + [Match(SemicolonSymbol)] + AssignmentEvents(step) + [Match(RightParenthesis)]
  }

  function IfRemainderEvents(elsePart: Option<ListTree>): seq<Event>
    decreases elsePart
  {
    match elsePart
    case None => [Match(EndSymbol), Match(IfSymbol)]
    case Some(l) => [Match(ElseSymbol)] + ListEvents(l) + [Match(EndSymbol), Match(IfSymbol)]
  }

  /** The notifications of the statement's own recogniser, inside Statement. */
  function AlternativeEvents(s: StatementTree): seq<Event>
    decreases s, 0
  {
    match s
    case AssignmentNode(v) => AssignmentEvents(v)
    case IfNode(c, a, e) =>
      [Enter(IfStatement), Match(IfSymbol)] + ConditionEvents(c) + [Match(ThenSymbol)] + ListEvents(a)
        + IfRemainderEvents(e) + [Exit(IfStatement)]
    case WhileNode(c, b) =>
      [Enter(WhileStatement), Match(WhileSymbol)] + ConditionEvents(c) + [Match(LoopSymbol)] + ListEvents(b)
        + [Match(EndSymbol), Match(LoopSymbol), Exit(WhileStatement)]
    case CallNode(n) =>
      [Enter(ProcedureStatement), Match(CallSymbol), Match(Identifier), Match(LeftParenthesis)] + ArgumentsEvents(n)
        + [Match(RightParenthesis), Exit(ProcedureStatement)]
    case ForNode(i, c, st, b) =>
      [Enter(ForStatement), Match(ForSymbol)] + ForControlEvents(i, c, st) + [Match(DoSymbol)] + ListEvents(b)
        + [Match(EndSymbol), Match(LoopSymbol), Exit(ForStatement)]
  }

  function StatementEvents(s: StatementTree): seq<Event>
    decreases s, 1
  {
    [Enter(Statement)] + AlternativeEvents(s) + [Exit(Statement)]
  }

  /** An assignment statement spells and announces its assignment alone. */
  lemma AssignmentNodeParts(v: ValueTree)
    ensures StatementYield(AssignmentNode(v)) == AssignmentYield(v)
    ensures AlternativeEvents(AssignmentNode(v)) == AssignmentEvents(v)
  {
  }

  function ListEvents(l: ListTree): seq<Event>
    decreases l
  {
    [Enter(StatementList)] + StatementEvents(l.first) + ListRestEvents(l.rest) + [Exit(StatementList)]
  }

  function ListRestEvents(r: ListRest): seq<Event>
    decreases r
  {
    match r
    case NoStatement => []
    case MoreStatement(s, next) => [Match(SemicolonSymbol)] + StatementEvents(s) + ListRestEvents(next)
  }

  function ProgramEvents(l: ListTree): seq<Event> {
    [Enter(StatementPart), Match(BeginSymbol)] + ListEvents(l) + [Match(EndSymbol), Exit(StatementPart)]
  }

  // The lookaheads that would make a recogniser go on past the end of a
  // construct: a spelling is recognised whole only when the token after it
  // is none of these.

  /** `*`, `/` or `mod` continues a term. */
  predicate ContinuesTerm(k: Kind) {
    k == TimesSymbol || k == DivideSymbol || k == ModSymbol
  }

  /** `+` or `-` continues an expression, and so does whatever continues
      its last term. */
  predicate ContinuesExpression(k: Kind) {
    k == PlusSymbol || k == MinusSymbol || ContinuesTerm(k)
  }

  /** `;` continues a statement list, and so does whatever continues an
      expression that may end its last statement. */
  predicate ContinuesList(k: Kind) {
    k == SemicolonSymbol || ContinuesExpression(k)
  }
}
