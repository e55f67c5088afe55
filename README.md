# Recursive-descent syntax analyser

A Dafny model of the syntax analyser in `SyntaxAnalyser.java`. The analyser recognises the statement part of a small
imperative language (`begin` … `end` around assignments and `if`, `while`, `call`, `until` and `for` statements, with
conditions and arithmetic expressions). It uses one recognising method per nonterminal and a single lookahead token.
It tells a sink about its progress:

- `commenceNonterminal(n)` when it enters the recogniser for `n`;
- `insertTerminal(token)` for every token it matches;
- `finishNonterminal(n)` when it leaves that recogniser.

A grammar error goes to `Generate.reportError`, which always throws, so the first error aborts the whole parse.

The project has fifteen modules in fourteen files. The first eight model the analyser and what it promises on the
runs it completes:

- `Tokens` (tokens.dfy) holds the token kinds and `Peek`, the lookahead at a position. Past the end of the stream,
  `Peek` gives the end-of-input kind.
- `Events` (events.dfy) holds the three sink notifications and two views of a trace:
  - `Matches`, the kinds of the matched terminals in order;
  - `Balanced`, which says the enter and exit notifications nest.

  It also holds `Outline`, the events of a trace that are not inside any activation.
- `Grammar` (grammar.dfy) is the reference semantics. It has one function per recognising method, plus one per loop of
  the four iterating methods. Each takes the token kinds, the lookahead position and the notifications sent so far. It
  returns `Done(pos, events)` or `Fail(pos, events)`:
  - `Fail` means reportError was called with the token at `pos`;
  - `events` is everything the sink received up to that point.

  Every enclosing recogniser returns a `Fail` unchanged, which is the abort. `ParseForControl` groups the part of
  `forStatement` between `for` and `do`. It is a name in the model only and sends no notification of its own.
- `Analyser` (analyser.dfy) is the analyser itself: class `SyntaxAnalyser` holds the lookahead position and the
  notifications sent so far. It has one method per source method, with the four `while` loops written as loops.
  - Every method returns `ok == false` at the first error, and its callers return at once.
  - Each method is proved to leave the lookahead and the sink exactly as the matching `Grammar` function says.
- `Trace` (trace.dfy) proves the trace facts for every recogniser:
  - it only appends to the sink;
  - the terminals it reports as matched are exactly the tokens it consumed;
  - a recognised nonterminal adds one well-nested activation of itself.
- `Shapes` (shapes.dfy) and `Productions` (productions.dfy) read the grammar off the notifications. A recognised
  nonterminal shows, outermost, the right-hand side of its production with the alternative the lookahead selects. The
  four loops take exactly one separator per extra item.
- `Locality` (locality.dfy) proves how far the analyser looks ahead. Each recogniser's outcome depends only on the
  tokens below one past where it stopped. A successful `_statementPart_` never inspects anything after its final `end`.

The other seven relate the analyser to the grammar it is meant to recognise. They prove that it accepts exactly the
programs of the grammar, and where it reports an error:

- `Derivations` (derivations.dfy) defines the grammar apart from the recognisers. It has derivation trees for every
  nonterminal but the until-statement, the token kinds a tree spells (`…Yield`) and the notifications a recogniser
  should send for it (`…Events`, the tree's nodes in pre-order).
- `Spelling` (spelling.dfy) says where the parts of a spelling lie in the stream: the lookaheads each recogniser tests
  and the positions where the parts of varying length end.
- `Appends` and `Steps` (steps.dfy) regroup histories and run one recogniser body on outcomes already known for its
  parts.
- `Acceptance` (acceptance.dfy) proves, by induction on the tree, that each recogniser recognises a spelled tree up
  to the end of its spelling. The token that follows must not continue the construct. The sink then receives exactly
  the tree's notifications. For a whole program nothing is required of what follows the final `end`.
- `Soundness` (soundness.dfy) proves the other direction, also by induction. From every normal return of a
  recogniser it builds the derivation tree whose spelling was consumed and whose notifications were sent.
  `Soundness.AcceptedIffProgram` puts the two directions together: `_statementPart_` returns normally exactly when the
  stream begins with the spelling of some program.
- `ErrorPosition` (errors.dfy) works through the stream `begin identifier + numberConstant end`. The analyser aborts at
  the `+`, which is the first token at which the stream stops beginning some program.

The until-statement's production is `UntilStatement ::= do StatementList until Condition`, so a statement that
is an until-statement starts with `do`. The code dispatches a statement on `until` instead (SyntaxAnalyser.java:68-69),
and `untilStatement` then demands `do` (SyntaxAnalyser.java:157). The model follows the code, and
`Productions.UntilNeverAccepted` proves the consequence: a statement that starts with `until` always aborts at that
token. A statement that starts with `do` falls into the default branch. `Derivations` therefore has no until-statement
tree.

## Model

| member | source | states |
|---|---|---|
| Grammar.Accept | SyntaxAnalyser.java:21-33 | succeeds exactly when the lookahead is the expected kind; then it consumes exactly that token and appends one Match of it; otherwise it fails at the lookahead with nothing consumed and nothing sent |
| Grammar.ParseStatementPart | SyntaxAnalyser.java:11-19 | never moves the lookahead back or past the end; without `begin` it aborts at once after announcing StatementPart |
| Grammar.ParseStatementList | SyntaxAnalyser.java:40-50 | never moves the lookahead back or past the end of the stream |
| Grammar.ParseStatementListTail | SyntaxAnalyser.java:45-48 | the loop does nothing when the lookahead is not `;`, and when it ends the lookahead is not `;` |
| Grammar.ParseStatement | SyntaxAnalyser.java:52-79 | a lookahead that starts no statement aborts at that token with nothing consumed, after announcing Statement only |
| Grammar.ParseAssignmentStatement | SyntaxAnalyser.java:87-94 | without an identifier first it aborts at once with nothing consumed |
| Grammar.ParseAssignmentStatementRemainder | SyntaxAnalyser.java:96-102 | never moves the lookahead back or past the end of the stream |
| Grammar.ParseIfStatement | SyntaxAnalyser.java:110-119 | without `if` first it aborts at once with nothing consumed |
| Grammar.ParseIfStatementRemainder | SyntaxAnalyser.java:121-129 | never moves the lookahead back or past the end of the stream |
| Grammar.ParseWhileStatement | SyntaxAnalyser.java:131-141 | without `while` first it aborts at once with nothing consumed |
| Grammar.ParseProcedureStatement | SyntaxAnalyser.java:143-152 | without `call` first it aborts at once with nothing consumed |
| Grammar.ParseUntilStatement | SyntaxAnalyser.java:154-162 | without `do` first it aborts at once with nothing consumed |
| Grammar.ParseForStatement | SyntaxAnalyser.java:164-180 | without `for` first it aborts at once with nothing consumed |
| Grammar.ParseForControl | SyntaxAnalyser.java:168-174 | without `(` first it aborts at once with nothing consumed or sent |
| Grammar.ParseArgumentList | SyntaxAnalyser.java:187-196 | without an identifier first it aborts at once with nothing consumed |
| Grammar.ParseArgumentListTail | SyntaxAnalyser.java:191-194 | the loop does nothing when the lookahead is not `,`, and when it ends the lookahead is not `,` |
| Grammar.ParseCondition | SyntaxAnalyser.java:204-211 | without an identifier first it aborts at once with nothing consumed |
| Grammar.ParseConditionRemainder | SyntaxAnalyser.java:213-229 | succeeds exactly on an identifier, number or string constant, consuming and matching that one token; otherwise it aborts with nothing consumed or sent |
| Grammar.ParseConditionalOperator | SyntaxAnalyser.java:231-258 | succeeds exactly on one of the six relational operators and adds enter, that match and exit; otherwise it aborts after the enter |
| Grammar.ParseExpression | SyntaxAnalyser.java:265-278 | never moves the lookahead back or past the end of the stream |
| Grammar.ParseExpressionTail | SyntaxAnalyser.java:269-276 | the loop does nothing unless the lookahead is `+` or `-`, and when it ends the lookahead is neither |
| Grammar.ParseTerm | SyntaxAnalyser.java:285-300 | never moves the lookahead back or past the end of the stream |
| Grammar.ParseTermTail | SyntaxAnalyser.java:289-298 | the loop does nothing unless the lookahead is `*`, `/` or `mod`, and when it ends the lookahead is none of them |
| Grammar.ParseFactor | SyntaxAnalyser.java:302-322 | a lookahead other than identifier, number or `(` aborts at that token with nothing consumed |
| Analyser.SyntaxAnalyser.constructor | SyntaxAnalyser.java:6-9 | the lookahead starts at the first token and nothing has been sent |
| Analyser.SyntaxAnalyser.AcceptTerminal | SyntaxAnalyser.java:21-33 | the method moves the lookahead and feeds the sink exactly as `Grammar.Accept`, and reports success exactly when it matched |
| Analyser.SyntaxAnalyser.StatementPart | SyntaxAnalyser.java:11-19 | ends with the lookahead and the sink exactly as `Grammar.ParseStatementPart` computes, and `ok` exactly when it succeeded |
| Analyser.SyntaxAnalyser.StatementList | SyntaxAnalyser.java:40-50 | its `;` loop ends with the lookahead and the sink exactly as `Grammar.ParseStatementList` computes |
| Analyser.SyntaxAnalyser.Statement | SyntaxAnalyser.java:52-79 | ends with the lookahead and the sink exactly as `Grammar.ParseStatement` computes |
| Analyser.SyntaxAnalyser.AssignmentStatement | SyntaxAnalyser.java:87-94 | ends with the lookahead and the sink exactly as `Grammar.ParseAssignmentStatement` computes |
| Analyser.SyntaxAnalyser.AssignmentStatementRemainder | SyntaxAnalyser.java:96-102 | ends with the lookahead and the sink exactly as `Grammar.ParseAssignmentStatementRemainder` computes |
| Analyser.SyntaxAnalyser.IfStatement | SyntaxAnalyser.java:110-119 | ends with the lookahead and the sink exactly as `Grammar.ParseIfStatement` computes |
| Analyser.SyntaxAnalyser.IfStatementRemainder | SyntaxAnalyser.java:121-129 | ends with the lookahead and the sink exactly as `Grammar.ParseIfStatementRemainder` computes |
| Analyser.SyntaxAnalyser.WhileStatement | SyntaxAnalyser.java:131-141 | ends with the lookahead and the sink exactly as `Grammar.ParseWhileStatement` computes |
| Analyser.SyntaxAnalyser.ProcedureStatement | SyntaxAnalyser.java:143-152 | ends with the lookahead and the sink exactly as `Grammar.ParseProcedureStatement` computes |
| Analyser.SyntaxAnalyser.UntilStatement | SyntaxAnalyser.java:154-162 | ends with the lookahead and the sink exactly as `Grammar.ParseUntilStatement` computes |
| Analyser.SyntaxAnalyser.ForStatement | SyntaxAnalyser.java:164-180 | ends with the lookahead and the sink exactly as `Grammar.ParseForStatement` computes |
| Analyser.SyntaxAnalyser.ArgumentList | SyntaxAnalyser.java:187-196 | its `,` loop ends with the lookahead and the sink exactly as `Grammar.ParseArgumentList` computes |
| Analyser.SyntaxAnalyser.Condition | SyntaxAnalyser.java:204-211 | ends with the lookahead and the sink exactly as `Grammar.ParseCondition` computes |
| Analyser.SyntaxAnalyser.ConditionRemainder | SyntaxAnalyser.java:213-229 | ends with the lookahead and the sink exactly as `Grammar.ParseConditionRemainder` computes |
| Analyser.SyntaxAnalyser.ConditionalOperator | SyntaxAnalyser.java:231-258 | ends with the lookahead and the sink exactly as `Grammar.ParseConditionalOperator` computes |
| Analyser.SyntaxAnalyser.Expression | SyntaxAnalyser.java:265-278 | its `+`/`-` loop ends with the lookahead and the sink exactly as `Grammar.ParseExpression` computes |
| Analyser.SyntaxAnalyser.Term | SyntaxAnalyser.java:285-300 | its `*`/`/`/`mod` loop ends with the lookahead and the sink exactly as `Grammar.ParseTerm` computes |
| Analyser.SyntaxAnalyser.Factor | SyntaxAnalyser.java:302-322 | ends with the lookahead and the sink exactly as `Grammar.ParseFactor` computes |
| Trace.AcceptValid | SyntaxAnalyser.java:22-32 | acceptTerminal keeps what the sink held and reports as matched exactly the one token it consumed, or nothing |
| Trace.FinishValid | SyntaxAnalyser.java:14-18 | commenceNonterminal, a consistent body and finishNonterminal give a consistent trace with one well-nested activation around the body |
| Trace.AnalysisValid | SyntaxAnalyser.java:11-19 | a successful run from the first token sends one well-nested StatementPart activation, and its matched terminals are exactly the tokens up to the closing `end` |
| Trace.StatementPartValid | SyntaxAnalyser.java:11-19 | appends only, matches exactly the consumed tokens, and on success adds one well-nested StatementPart activation |
| Trace.StatementListValid | SyntaxAnalyser.java:40-50 | appends only, matches exactly the consumed tokens, and on success adds one well-nested StatementList activation |
| Trace.StatementListTailValid | SyntaxAnalyser.java:45-48 | the `;` loop appends only, matches exactly the consumed tokens, and adds a well-nested trace |
| Trace.StatementValid | SyntaxAnalyser.java:52-79 | appends only, matches exactly the consumed tokens, and on success adds one well-nested Statement activation |
| Trace.AssignmentStatementValid | SyntaxAnalyser.java:87-94 | appends only, matches exactly the consumed tokens, and on success adds one well-nested AssignmentStatement activation |
| Trace.AssignmentStatementRemainderValid | SyntaxAnalyser.java:96-102 | appends only, matches exactly the consumed tokens, and adds a well-nested trace |
| Trace.IfStatementValid | SyntaxAnalyser.java:110-119 | appends only, matches exactly the consumed tokens, and on success adds one well-nested IfStatement activation |
| Trace.IfStatementRemainderValid | SyntaxAnalyser.java:121-129 | appends only, matches exactly the consumed tokens, and adds a well-nested trace |
| Trace.WhileStatementValid | SyntaxAnalyser.java:131-141 | appends only, matches exactly the consumed tokens, and on success adds one well-nested WhileStatement activation |
| Trace.ProcedureStatementValid | SyntaxAnalyser.java:143-152 | appends only, matches exactly the consumed tokens, and on success adds one well-nested ProcedureStatement activation |
| Trace.UntilStatementValid | SyntaxAnalyser.java:154-162 | appends only, matches exactly the consumed tokens, and on success adds one well-nested UntilStatement activation |
| Trace.ForStatementValid | SyntaxAnalyser.java:164-180 | appends only, matches exactly the consumed tokens, and on success adds one well-nested ForStatement activation |
| Trace.ForControlValid | SyntaxAnalyser.java:168-174 | appends only, matches exactly the consumed tokens, and adds a well-nested trace |
| Trace.ArgumentListValid | SyntaxAnalyser.java:187-196 | appends only, matches exactly the consumed tokens, and on success adds one well-nested ArgumentList activation |
| Trace.ArgumentListTailValid | SyntaxAnalyser.java:191-194 | the `,` loop appends only, matches exactly the consumed tokens, and adds a well-nested trace |
| Trace.ConditionValid | SyntaxAnalyser.java:204-211 | appends only, matches exactly the consumed tokens, and on success adds one well-nested Condition activation |
| Trace.ConditionRemainderValid | SyntaxAnalyser.java:213-229 | appends only, matches exactly the consumed tokens, and adds a well-nested trace |
| Trace.ConditionalOperatorValid | SyntaxAnalyser.java:231-258 | appends only, matches exactly the consumed tokens, and on success adds one well-nested ConditionalOperator activation |
| Trace.ExpressionValid | SyntaxAnalyser.java:265-278 | appends only, matches exactly the consumed tokens, and on success adds one well-nested Expression activation |
| Trace.ExpressionTailValid | SyntaxAnalyser.java:269-276 | the `+`/`-` loop appends only, matches exactly the consumed tokens, and adds a well-nested trace |
| Trace.TermValid | SyntaxAnalyser.java:285-300 | appends only, matches exactly the consumed tokens, and on success adds one well-nested Term activation |
| Trace.TermTailValid | SyntaxAnalyser.java:289-298 | the `*`/`/`/`mod` loop appends only, matches exactly the consumed tokens, and adds a well-nested trace |
| Trace.FactorValid | SyntaxAnalyser.java:302-322 | appends only, matches exactly the consumed tokens, and on success adds one well-nested Factor activation |
| Shapes.StatementListTailShape | SyntaxAnalyser.java:45-48 | each turn of the loop adds exactly one `;` and one Statement, outermost |
| Shapes.StatementListShape | SyntaxAnalyser.java:40-50 | a recognised statementList shows Statement and then (`;` Statement) pairs, so n statements come with n-1 semicolons |
| Shapes.ArgumentListTailShape | SyntaxAnalyser.java:191-194 | each turn of the loop adds exactly one `,` and one identifier |
| Shapes.ArgumentListShape | SyntaxAnalyser.java:187-196 | a recognised argumentList shows identifier and then (`,` identifier) pairs |
| Shapes.ExpressionTailShape | SyntaxAnalyser.java:269-276 | each turn of the loop adds exactly one `+` or `-` and one Term, outermost |
| Shapes.ExpressionShape | SyntaxAnalyser.java:265-278 | a recognised expression shows Term and then (`+`/`-` Term) pairs |
| Shapes.TermTailShape | SyntaxAnalyser.java:289-298 | each turn of the loop adds exactly one `*`, `/` or `mod` and one Factor, outermost |
| Shapes.TermShape | SyntaxAnalyser.java:285-300 | a recognised term shows Factor and then (`*`/`/`/`mod` Factor) pairs |
| Productions.StatementPartOutline | SyntaxAnalyser.java:11-19 | a recognised statementPart shows `begin` StatementList `end` inside its own activation |
| Productions.StatementOutline | SyntaxAnalyser.java:52-79 | a recognised statement's first token selects an alternative, that alternative is never untilStatement, and it is the only activation shown |
| Productions.UntilNeverAccepted | SyntaxAnalyser.java:68-69 | a statement that starts with `until` is sent to untilStatement, which demands `do` (line 157), so it aborts at the `until` token with nothing consumed |
| Productions.AssignmentStatementOutline | SyntaxAnalyser.java:87-94 | a recognised assignment shows identifier `:=` and then the string constant or one Expression, as the token after `:=` selects |
| Productions.AssignmentStatementRemainderOutline | SyntaxAnalyser.java:96-102 | the remainder shows the string constant when it is the lookahead and one Expression otherwise, with no activation of its own |
| Productions.IfStatementOutline | SyntaxAnalyser.java:110-119 | a recognised if-statement shows `if` Condition `then` StatementList, optionally `else` StatementList, and then `end` `if` |
| Productions.IfStatementRemainderOutline | SyntaxAnalyser.java:121-129 | the else branch is taken exactly when the lookahead is `else`; both branches end with `end` `if`; no activation of its own |
| Productions.WhileStatementOutline | SyntaxAnalyser.java:131-141 | a recognised while-statement shows `while` Condition `loop` StatementList `end` `loop` |
| Productions.ProcedureStatementOutline | SyntaxAnalyser.java:143-152 | a recognised procedure call shows `call` identifier `(` ArgumentList `)` |
| Productions.UntilStatementOutline | SyntaxAnalyser.java:154-162 | a recognised until-statement would show `do` StatementList `until` Condition |
| Productions.ForControlOutline | SyntaxAnalyser.java:168-174 | the for-control shows `(` AssignmentStatement `;` Condition `;` AssignmentStatement `)` with no activation of its own |
| Productions.ForStatementOutline | SyntaxAnalyser.java:164-180 | a recognised for-statement shows `for`, the for-control, and then `do` StatementList `end` `loop` |
| Productions.ConditionOutline | SyntaxAnalyser.java:204-229 | condition succeeds exactly on identifier, a relational operator and an identifier or constant, consuming those three tokens and showing them |
| Productions.FactorOutline | SyntaxAnalyser.java:302-322 | a recognised factor shows the identifier or number it matched, or `(` Expression `)`, as its first token selects |
| Locality.StatementPartLocal | SyntaxAnalyser.java:11-19 | a successful statementPart gives the same outcome on any stream that agrees on the tokens it consumed |
| Locality.StatementPartIgnoresRest | SyntaxAnalyser.java:15-18 | replacing everything after the final `end` changes neither where the analyser stops nor what the sink receives |
| Locality.StatementListLocal | SyntaxAnalyser.java:40-50 | the outcome depends only on the tokens below one past where it stopped |
| Locality.StatementListTailLocal | SyntaxAnalyser.java:45-48 | the outcome of the loop depends only on the tokens below one past where it stopped |
| Locality.StatementLocal | SyntaxAnalyser.java:52-79 | the outcome depends only on the tokens below one past where it stopped |
| Locality.AssignmentStatementLocal | SyntaxAnalyser.java:87-94 | the outcome depends only on the tokens below one past where it stopped |
| Locality.AssignmentStatementRemainderLocal | SyntaxAnalyser.java:96-102 | the outcome depends only on the tokens below one past where it stopped |
| Locality.IfStatementLocal | SyntaxAnalyser.java:110-119 | the outcome depends only on the tokens below one past where it stopped |
| Locality.IfStatementRemainderLocal | SyntaxAnalyser.java:121-129 | the outcome depends only on the tokens below one past where it stopped |
| Locality.WhileStatementLocal | SyntaxAnalyser.java:131-141 | the outcome depends only on the tokens below one past where it stopped |
| Locality.ProcedureStatementLocal | SyntaxAnalyser.java:143-152 | the outcome depends only on the tokens below one past where it stopped |
| Locality.UntilStatementLocal | SyntaxAnalyser.java:154-162 | the outcome depends only on the tokens below one past where it stopped |
| Locality.ForStatementLocal | SyntaxAnalyser.java:164-180 | the outcome depends only on the tokens below one past where it stopped |
| Locality.ForControlLocal | SyntaxAnalyser.java:168-174 | the outcome depends only on the tokens below one past where it stopped |
| Locality.ArgumentListLocal | SyntaxAnalyser.java:187-196 | the outcome depends only on the tokens below one past where it stopped |
| Locality.ArgumentListTailLocal | SyntaxAnalyser.java:191-194 | the outcome of the loop depends only on the tokens below one past where it stopped |
| Locality.ConditionLocal | SyntaxAnalyser.java:204-211 | the outcome depends only on the tokens below one past where it stopped |
| Locality.ConditionRemainderLocal | SyntaxAnalyser.java:213-229 | the outcome depends only on the tokens below one past where it stopped |
| Locality.ConditionalOperatorLocal | SyntaxAnalyser.java:231-258 | the outcome depends only on the tokens below one past where it stopped |
| Locality.ExpressionLocal | SyntaxAnalyser.java:265-278 | the outcome depends only on the tokens below one past where it stopped |
| Locality.ExpressionTailLocal | SyntaxAnalyser.java:269-276 | the outcome of the loop depends only on the tokens below one past where it stopped |
| Locality.TermLocal | SyntaxAnalyser.java:285-300 | the outcome depends only on the tokens below one past where it stopped |
| Locality.TermTailLocal | SyntaxAnalyser.java:289-298 | the outcome of the loop depends only on the tokens below one past where it stopped |
| Locality.FactorLocal | SyntaxAnalyser.java:302-322 | the outcome depends only on the tokens below one past where it stopped |
| Acceptance.FactorAccepts | SyntaxAnalyser.java:302-322 | a spelled factor is recognised exactly to its end, and the sink receives exactly its notifications |
| Acceptance.TermAccepts | SyntaxAnalyser.java:285-300 | a spelled term followed by a token other than `*`, `/` or `mod` is recognised exactly to its end with exactly its notifications |
| Acceptance.TermRestAccepts | SyntaxAnalyser.java:289-298 | the `*`/`/`/`mod` loop takes exactly the spelled (operator, factor) pairs and stops at the first other token |
| Acceptance.ExpressionAccepts | SyntaxAnalyser.java:265-278 | a spelled expression followed by a token other than `+`, `-`, `*`, `/` or `mod` is recognised exactly to its end with exactly its notifications |
| Acceptance.ExpressionRestAccepts | SyntaxAnalyser.java:269-276 | the `+`/`-` loop takes exactly the spelled (operator, term) pairs and stops at the first other token |
| Acceptance.ConditionAccepts | SyntaxAnalyser.java:204-211 | a spelled condition is three tokens long and is recognised exactly with its notifications |
| Acceptance.ValueAccepts | SyntaxAnalyser.java:96-102 | a spelled string constant or expression after `:=`, followed by a token that cannot continue an expression, is recognised exactly to its end with its notifications |
| Acceptance.AssignmentAccepts | SyntaxAnalyser.java:87-94 | a spelled assignment followed by a token that cannot continue an expression is recognised exactly to its end with exactly its notifications |
| Acceptance.ArgumentsRestAccepts | SyntaxAnalyser.java:191-194 | the `,` loop takes exactly the spelled (`,` identifier) pairs when the next token is not `,` |
| Acceptance.ArgumentsAccepts | SyntaxAnalyser.java:187-196 | a spelled argument list is recognised exactly to its end with exactly its notifications |
| Acceptance.ProcedureAccepts | SyntaxAnalyser.java:143-152 | a spelled procedure call is recognised exactly to its end with exactly its notifications |
| Acceptance.ForControlAccepts | SyntaxAnalyser.java:168-174 | a spelled for-control is recognised exactly to its `)` with exactly its notifications |
| Acceptance.StatementAccepts | SyntaxAnalyser.java:52-79 | every spelled statement, followed by a token that cannot continue an expression, is recognised exactly to its end with exactly its notifications |
| Acceptance.IfAccepts | SyntaxAnalyser.java:110-119 | a spelled if-statement is recognised exactly to its `end if` with exactly its notifications |
| Acceptance.IfRemainderAccepts | SyntaxAnalyser.java:121-129 | a spelled else-part and `end if`, or `end if` alone, is recognised exactly with its notifications |
| Acceptance.WhileAccepts | SyntaxAnalyser.java:131-141 | a spelled while-statement is recognised exactly to its `end loop` with exactly its notifications |
| Acceptance.ForAccepts | SyntaxAnalyser.java:164-180 | a spelled for-statement is recognised exactly to its `end loop` with exactly its notifications |
| Acceptance.ListAccepts | SyntaxAnalyser.java:40-50 | a spelled statement list followed by a token that continues no statement list is recognised exactly to its end with exactly its notifications |
| Acceptance.ListRestAccepts | SyntaxAnalyser.java:45-48 | the `;` loop takes exactly the spelled (`;` statement) pairs and stops at the first other token |
| Acceptance.ProgramAccepts | SyntaxAnalyser.java:11-19 | a spelled program is recognised exactly to its final `end` with exactly its notifications |
| Acceptance.ProgramAccepted | SyntaxAnalyser.java:11-19 | any stream that begins with a program's spelling is accepted, whatever follows, and the sink receives exactly the program's notifications |
| Acceptance.RejectedIsNoProgram | SyntaxAnalyser.java:11-19 | when the analyser reports an error, the stream does not begin with the spelling of any program |
| ErrorPosition.IdentifierThenBecomes | SyntaxAnalyser.java:84-94 | in every program's spelling, an identifier right after `begin` is followed by `:=` |
| ErrorPosition.ScenarioFailsAtFirstDeviation | SyntaxAnalyser.java:21-33 | `begin identifier + numberConstant end` aborts at the `+` with exactly the notifications before it; the two tokens before the `+` begin a program, and the three up to it begin none |
| Soundness.FactorSound | SyntaxAnalyser.java:302-322 | a normal return from factor consumed exactly the spelling of a factor tree, and the sink received exactly its notifications |
| Soundness.TermSound | SyntaxAnalyser.java:285-300 | a normal return from term consumed exactly the spelling of a term tree, with exactly its notifications |
| Soundness.TermTailSound | SyntaxAnalyser.java:289-298 | the `*`/`/`/`mod` loop consumed exactly a sequence of (operator, factor) pairs, with their notifications |
| Soundness.ExpressionSound | SyntaxAnalyser.java:265-278 | a normal return from expression consumed exactly the spelling of an expression tree, with exactly its notifications |
| Soundness.ExpressionTailSound | SyntaxAnalyser.java:269-276 | the `+`/`-` loop consumed exactly a sequence of (operator, term) pairs, with their notifications |
| Soundness.ConditionSound | SyntaxAnalyser.java:204-211 | a normal return from condition consumed an identifier, a conditional operator and an operand, with exactly the condition's notifications |
| Soundness.ValueSound | SyntaxAnalyser.java:96-102 | a normal return from the assignment remainder consumed a string constant or the spelling of an expression, with its notifications |
| Soundness.AssignmentSound | SyntaxAnalyser.java:87-94 | a normal return from assignmentStatement consumed exactly the spelling of an assignment, with exactly its notifications |
| Soundness.ArgumentsTailSound | SyntaxAnalyser.java:191-194 | the `,` loop consumed exactly some number of (`,` identifier) pairs, with their notifications |
| Soundness.ArgumentsSound | SyntaxAnalyser.java:187-196 | a normal return from argumentList consumed exactly an identifier list, with exactly its notifications |
| Soundness.ForControlSound | SyntaxAnalyser.java:168-174 | the part of forStatement between `for` and `do` consumed exactly `(` assignment `;` condition `;` assignment `)`, with their notifications |
| Soundness.ProcedureSound | SyntaxAnalyser.java:143-152 | a normal return from procedureStatement consumed exactly the spelling of a call, with exactly its notifications |
| Soundness.IfRemainderSound | SyntaxAnalyser.java:121-129 | a normal return from the if remainder consumed exactly an optional else-part and `end if`, with their notifications |
| Soundness.IfSound | SyntaxAnalyser.java:110-119 | a normal return from ifStatement consumed exactly the spelling of an if-statement tree, with exactly its notifications |
| Soundness.WhileSound | SyntaxAnalyser.java:131-141 | a normal return from whileStatement consumed exactly the spelling of a while-statement tree, with exactly its notifications |
| Soundness.ForSound | SyntaxAnalyser.java:164-180 | a normal return from forStatement consumed exactly the spelling of a for-statement tree, with exactly its notifications |
| Soundness.StatementSound | SyntaxAnalyser.java:52-79 | a normal return from statement consumed exactly the spelling of a statement tree (never an until-statement), with exactly its notifications |
| Soundness.ListSound | SyntaxAnalyser.java:40-50 | a normal return from statementList consumed exactly the spelling of a statement-list tree, with exactly its notifications |
| Soundness.ListTailSound | SyntaxAnalyser.java:45-48 | the `;` loop consumed exactly a sequence of (`;` statement) pairs, with their notifications |
| Soundness.ProgramSound | SyntaxAnalyser.java:11-19 | a normal return from `_statementPart_` consumed exactly the spelling of a program, with exactly its notifications |
| Soundness.AcceptedIsProgram | SyntaxAnalyser.java:11-19 | a normal return at the start of a stream consumed a prefix that is a program's spelling, and the sink received exactly that program's notifications |
| Soundness.AcceptedIffProgram | SyntaxAnalyser.java:11-19 | `_statementPart_` returns normally exactly when the stream begins with the spelling of some program |

## Left out

- The constructor's lexical analyser (SyntaxAnalyser.java:6-9) and the file it reads are not modelled. The input is the
  sequence of token kinds it would deliver, and the lookahead starts at the first of them. Reading past the end gives
  the end-of-input kind.
- Token text and line numbers are not modelled; they feed only the error messages. A Match notification records the
  token's kind, not the whole token.
- The error messages and the printing in `Generate.reportError` (Generate.java:5-11) are not modelled. reportError is
  modelled only as aborting: `Fail` at the offending position, with the notifications sent before it.
- The `finishNonterminal` calls after a default-branch reportError (SyntaxAnalyser.java:78, 257, 321) never run,
  because reportError throws. The model does not send them.
- `IOException` from the lexer is not modelled.
- The sink is a ghost sequence of notifications in `Analyser`. The notifications exist for the proofs only, so the
  executable state is the lookahead position alone.
- Analyser.SyntaxAnalyser.AcceptTerminal: requires that the expected symbol is not the end-of-input kind. Every call in
  the source passes a fixed terminal constant, and none of them is end-of-input. Grammar.Accept has the same
  requirement.
- ErrorPosition.ScenarioFailsAtFirstDeviation: the first-deviation property is proved for this one stream. The general
  statement would say that every failure lies at the first token where the stream stops beginning some program. It
  needs a description of all prefixes of program spellings, which the model does not have.
- Until-statements have no derivation tree, so the acceptance lemmas say nothing about them. The analyser never
  accepts one (`Productions.UntilNeverAccepted`).
