/** Where the parts of a derivation's spelling lie in a token stream. Each
    lemma cuts the spelling of one production into the lookaheads its
    recogniser tests and the spellings of its parts, and returns the
    positions where the parts of varying length end. */
module Spelling {
  import opened Tokens
  import opened Events
  import opened Derivations

  /** The tokens from position `p` on begin with `y`. */
  ghost predicate Spells(t: seq<Kind>, p: nat, y: seq<Kind>) {
    p + |y| <= |t| && t[p..p + |y|] == y
  }

  /** A spelling of `a + b` is a spelling of `a` followed by one of `b`. */
  lemma Split(t: seq<Kind>, p: nat, a: seq<Kind>, b: seq<Kind>)
    requires Spells(t, p, a + b)
    ensures Spells(t, p, a) && Spells(t, p + |a|, b)
  {
    assert t[p..p + |a|] == (a + b)[..|a|];
    assert t[p + |a|..p + |a| + |b|] == (a + b)[|a|..];
  }

  /** Conversely, a spelling of `a` followed by one of `b` spells `a + b`. */
  lemma Join(t: seq<Kind>, p: nat, a: seq<Kind>, b: seq<Kind>)
    requires Spells(t, p, a) && Spells(t, p + |a|, b)
    ensures Spells(t, p, a + b)
  {
    assert t[p..p + |a + b|] == t[p..p + |a|] + t[p + |a|..p + |a| + |b|];
  }

  /** Every position up to the end spells the empty sequence. */
  lemma Nothing(t: seq<Kind>, p: nat)
    requires p <= |t|
    ensures Spells(t, p, [])
  {
  }

  /** A single token of kind `k` spells `[k]`. */
  lemma Token(t: seq<Kind>, p: nat, k: Kind)
    requires p < |t| && t[p] == k
    ensures Spells(t, p, [k])
  {
    assert t[p..p + 1] == [t[p]];
  }

  /** The lookahead at each position of a spelling is the spelled kind. */
  lemma Peeks(t: seq<Kind>, p: nat, y: seq<Kind>, i: nat)
    requires Spells(t, p, y) && i < |y|
    ensures Peek(t, p + i) == y[i]
  {
    assert t[p + i] == t[p..p + |y|][i];
  }

  /** `a`, then `b` from position `q`. */
  lemma Cut(t: seq<Kind>, p: nat, a: seq<Kind>, b: seq<Kind>) returns (q: nat)
    requires Spells(t, p, a + b)
    ensures q == p + |a| && q + |b| == p + |a + b| && q + |b| <= |t|
    ensures Spells(t, p, a) && Spells(t, q, b)
    ensures |b| > 0 ==> Peek(t, q) == b[0]
  {
    Split(t, p, a, b);
    q := p + |a|;
    if |b| > 0 {
      Peeks(t, q, b, 0);
    }
  }

  /** One token, `y`, then `z` from position `q`. */
  lemma Led(t: seq<Kind>, p: nat, k: Kind, y: seq<Kind>, z: seq<Kind>) returns (q: nat)
    requires Spells(t, p, [k] + y + z)
    ensures q == p + 1 + |y| && q + |z| == p + |[k] + y + z| && q + |z| <= |t|
    ensures Peek(t, p) == k && Spells(t, p + 1, y) && Spells(t, q, z)
    ensures |z| > 0 ==> Peek(t, q) == z[0]
  {
    q := Cut(t, p, [k] + y, z);
    Split(t, p, [k], y);
    Peeks(t, p, [k], 0);
  }

  /** Two tokens, then `z`. */
  lemma LedTwo(t: seq<Kind>, p: nat, a: Kind, b: Kind, z: seq<Kind>)
    requires Spells(t, p, [a, b] + z)
    ensures Peek(t, p) == a && Peek(t, p + 1) == b && Spells(t, p + 2, z)
    ensures |[a, b] + z| == 2 + |z| && p + 2 + |z| <= |t|
  {
    Split(t, p, [a, b], z);
    Peeks(t, p, [a, b], 0);
    Peeks(t, p, [a, b], 1);
  }

  /** One token, `y`, then the token at `q`. */
  lemma Enclosed(t: seq<Kind>, p: nat, a: Kind, y: seq<Kind>, b: Kind) returns (q: nat)
    requires Spells(t, p, [a] + y + [b])
    ensures q == p + 1 + |y| && q + 1 == p + |[a] + y + [b]| && q < |t|
    ensures Peek(t, p) == a && Spells(t, p + 1, y) && Peek(t, q) == b
  {
    q := Led(t, p, a, y, [b]);
  }

  /** One token, `x`, then two tokens at `q`. */
  lemma Closed(t: seq<Kind>, p: nat, a: Kind, x: seq<Kind>, c: Kind, d: Kind) returns (q: nat)
    requires Spells(t, p, [a] + x + [c, d])
    ensures q == p + 1 + |x| && q + 2 == p + |[a] + x + [c, d]| && q + 2 <= |t|
    ensures Peek(t, p) == a && Spells(t, p + 1, x) && Peek(t, q) == c && Peek(t, q + 1) == d
  {
    q := Led(t, p, a, x, [c, d]);
    Peeks(t, q, [c, d], 1);
  }

  /** One token, `x`, the token at `q`, `y`, then two tokens at `r`. */
  lemma Framed(t: seq<Kind>, p: nat, a: Kind, x: seq<Kind>, b: Kind, y: seq<Kind>, c: Kind, d: Kind)
    returns (q: nat, r: nat)
    requires Spells(t, p, [a] + x + [b] + y + [c, d])
    ensures q == p + 1 + |x| && r == q + 1 + |y| && r + 2 == p + |[a] + x + [b] + y + [c, d]| && r + 2 <= |t|
    ensures Peek(t, p) == a && Spells(t, p + 1, x) && Peek(t, q) == b && Spells(t, q + 1, y)
    ensures Peek(t, r) == c && Peek(t, r + 1) == d
  {
    r := Cut(t, p, [a] + x + [b] + y, [c, d]);
    var m := Cut(t, p, [a] + x + [b], y);
    q := Enclosed(t, p, a, x, b);
    Peeks(t, r, [c, d], 1);
  }

  /** A keyword, a condition and a keyword (the opening of an if- or a
      while-statement), then `x`, then `y` from position `q`. */
  lemma HeadLayout(t: seq<Kind>, p: nat, a: Kind, c: ConditionTree, b: Kind, x: seq<Kind>, y: seq<Kind>) returns (q: nat)
    requires Spells(t, p, [a] + ConditionYield(c) + [b] + x + y)
    ensures q == p + 5 + |x| && q + |y| == p + |[a] + ConditionYield(c) + [b] + x + y| && q + |y| <= |t|
    ensures Peek(t, p) == a && Peek(t, p + 1) == Identifier && Peek(t, p + 2) == c.op
    ensures Peek(t, p + 3) == c.operand && Peek(t, p + 4) == b
    ensures Spells(t, p + 5, x) && Spells(t, q, y)
    ensures |y| > 0 ==> Peek(t, q) == y[0]
    ensures |y| > 1 ==> Peek(t, q + 1) == y[1]
  {
    var head := [a] + ConditionYield(c) + [b];
    assert head == [a, Identifier, c.op, c.operand, b];
    q := Cut(t, p, head + x, y);
    Split(t, p, head, x);
    Peeks(t, p, head, 0);
    Peeks(t, p, head, 1);
    Peeks(t, p, head, 2);
    Peeks(t, p, head, 3);
    Peeks(t, p, head, 4);
    if |y| > 1 {
      Peeks(t, q, y, 1);
    }
  }

  /** An expression begins with an identifier, a number or `(`, never with
      a string constant. */
  lemma ExpressionFirst(e: ExpressionTree)
    ensures |ExpressionYield(e)| > 0
    ensures ExpressionYield(e)[0] == Identifier || ExpressionYield(e)[0] == NumberConstant
         || ExpressionYield(e)[0] == LeftParenthesis
  {
    var f := FactorYield(e.first.first);
    assert |f| > 0;
    assert TermYield(e.first)[0] == f[0];
  }

  /** The token after a term inside an expression cannot continue the term:
      it is the `+` or `-` of the next term, or the token after the whole
      expression. */
  lemma TermFollower(t: seq<Kind>, q: nat, x: ExpressionRest, r: nat)
    requires Spells(t, q, ExpressionRestYield(x)) && r == q + |ExpressionRestYield(x)|
    requires !ContinuesExpression(Peek(t, r))
    ensures !ContinuesTerm(Peek(t, q))
  {
    if x.MoreTerm? {
      Peeks(t, q, ExpressionRestYield(x), 0);
    }
  }

  lemma ConditionSpelling(t: seq<Kind>, p: nat, c: ConditionTree)
    requires Spells(t, p, ConditionYield(c))
    ensures p + 3 <= |t| && Peek(t, p) == Identifier && Peek(t, p + 1) == c.op && Peek(t, p + 2) == c.operand
  {
    Peeks(t, p, ConditionYield(c), 0);
    Peeks(t, p, ConditionYield(c), 1);
    Peeks(t, p, ConditionYield(c), 2);
  }

  lemma AssignmentSpelling(t: seq<Kind>, p: nat, v: ValueTree)
    requires Spells(t, p, AssignmentYield(v))
    ensures Peek(t, p) == Identifier && Peek(t, p + 1) == BecomesSymbol && Spells(t, p + 2, ValueYield(v))
    ensures |AssignmentYield(v)| == 2 + |ValueYield(v)|
  {
    LedTwo(t, p, Identifier, BecomesSymbol, ValueYield(v));
  }

  /** A spelled statement lies within the stream and starts with its leading kind. */
  lemma StatementStarts(t: seq<Kind>, p: nat, s: StatementTree)
    requires Spells(t, p, StatementYield(s))
    ensures p + |StatementYield(s)| <= |t| && Peek(t, p) == Leading(s)
  {
    if s.AssignmentNode? {
      AssignmentSpelling(t, p, s.value);
    } else {
      Peeks(t, p, StatementYield(s), 0);
    }
  }

  /** `call identifier (` arguments, then `)` at `q`. */
  lemma CallSpelling(t: seq<Kind>, p: nat, n: nat) returns (q: nat)
    requires Spells(t, p, StatementYield(CallNode(n)))
    ensures q == p + 3 + |ArgumentsYield(n)| && q + 1 == p + |StatementYield(CallNode(n))| && q < |t|
    ensures Peek(t, p) == CallSymbol && Peek(t, p + 1) == Identifier && Peek(t, p + 2) == LeftParenthesis
    ensures Spells(t, p + 3, ArgumentsYield(n)) && Peek(t, q) == RightParenthesis
  {
    var y := [CallSymbol, Identifier, LeftParenthesis] + ArgumentsYield(n) + [RightParenthesis];
    q := Cut(t, p, [CallSymbol, Identifier, LeftParenthesis] + ArgumentsYield(n), [RightParenthesis]);
    Split(t, p, [CallSymbol, Identifier, LeftParenthesis], ArgumentsYield(n));
    Peeks(t, p, y, 0);
    Peeks(t, p, y, 1);
    Peeks(t, p, y, 2);
  }

  /** The opening of an if-statement, its then-part, and the remainder from
      position `q`. */
  lemma IfSpelling(t: seq<Kind>, p: nat, c: ConditionTree, a: ListTree, e: Option<ListTree>) returns (q: nat)
    requires Spells(t, p, StatementYield(IfNode(c, a, e)))
    ensures q == p + 5 + |ListYield(a)| && q + |IfRemainderYield(e)| == p + |StatementYield(IfNode(c, a, e))|
    ensures q + |IfRemainderYield(e)| <= |t|
    ensures Peek(t, p) == IfSymbol && Peek(t, p + 1) == Identifier && Peek(t, p + 2) == c.op
    ensures Peek(t, p + 3) == c.operand && Peek(t, p + 4) == ThenSymbol
    ensures Spells(t, p + 5, ListYield(a)) && Spells(t, q, IfRemainderYield(e))
    ensures !ContinuesList(Peek(t, q))
  {
    RemainderFirst(e);
    q := HeadLayout(t, p, IfSymbol, c, ThenSymbol, ListYield(a), IfRemainderYield(e));
  }

  /** The rest of an if-statement begins with `else` or with `end`. */
  lemma RemainderFirst(e: Option<ListTree>)
    ensures |IfRemainderYield(e)| > 0
    ensures IfRemainderYield(e)[0] == if e.Some? then ElseSymbol else EndSymbol
  {
  }

  /** `else`, a statement list, then `end if` at `q`. */
  lemma ElseSpelling(t: seq<Kind>, p: nat, l: ListTree) returns (q: nat)
    requires Spells(t, p, IfRemainderYield(Some(l)))
    ensures q == p + 1 + |ListYield(l)| && q + 2 == p + |IfRemainderYield(Some(l))| && q + 2 <= |t|
    ensures Peek(t, p) == ElseSymbol && Spells(t, p + 1, ListYield(l))
    ensures Peek(t, q) == EndSymbol && Peek(t, q + 1) == IfSymbol
  {
    q := Closed(t, p, ElseSymbol, ListYield(l), EndSymbol, IfSymbol);
  }

  /** The opening of a while-statement, its body, then `end loop` at `q`. */
  lemma WhileSpelling(t: seq<Kind>, p: nat, c: ConditionTree, b: ListTree) returns (q: nat)
    requires Spells(t, p, StatementYield(WhileNode(c, b)))
    ensures q == p + 5 + |ListYield(b)| && q + 2 == p + |StatementYield(WhileNode(c, b))| && q + 2 <= |t|
    ensures Peek(t, p) == WhileSymbol && Peek(t, p + 1) == Identifier && Peek(t, p + 2) == c.op
    ensures Peek(t, p + 3) == c.operand && Peek(t, p + 4) == LoopSymbol && Spells(t, p + 5, ListYield(b))
    ensures Peek(t, q) == EndSymbol && Peek(t, q + 1) == LoopSymbol
  {
    q := HeadLayout(t, p, WhileSymbol, c, LoopSymbol, ListYield(b), [EndSymbol, LoopSymbol]);
  }

  /** `(` assignment, `;` at `q1`, condition, `;` at `q1 + 4`, assignment,
      `)` at `q3`. */
  lemma ControlSpelling(t: seq<Kind>, p: nat, i: ValueTree, c: ConditionTree, st: ValueTree)
    returns (q1: nat, q3: nat)
    requires Spells(t, p, ForControlYield(i, c, st))
    ensures q1 == p + 1 + |AssignmentYield(i)| && q3 == q1 + 5 + |AssignmentYield(st)|
    ensures q3 + 1 == p + |ForControlYield(i, c, st)| && q3 < |t|
    ensures Peek(t, p) == LeftParenthesis && Spells(t, p + 1, AssignmentYield(i)) && Peek(t, q1) == SemicolonSymbol
    ensures Spells(t, q1 + 1, ConditionYield(c)) && Peek(t, q1 + 4) == SemicolonSymbol
    ensures Spells(t, q1 + 5, AssignmentYield(st)) && Peek(t, q3) == RightParenthesis
  {
    hide Spells, Peek, AssignmentYield, ValueYield;
    var x, y := AssignmentYield(i), AssignmentYield(st);
    var z := [LeftParenthesis] + x + [SemicolonSymbol] + ConditionYield(c) + [SemicolonSymbol];
    q3 := Cut(t, p, z + y, [RightParenthesis]);
    var m := Cut(t, p, z, y);
    var k := Cut(t, p, [LeftParenthesis] + x + [SemicolonSymbol] + ConditionYield(c), [SemicolonSymbol]);
    var j := Cut(t, p, [LeftParenthesis] + x + [SemicolonSymbol], ConditionYield(c));
    q1 := Enclosed(t, p, LeftParenthesis, x, SemicolonSymbol);
  }

  /** A for-control spelled after position `p` opens with `(`, an
      identifier and `:=`. */
  lemma ControlOpens(t: seq<Kind>, p: nat, i: ValueTree, c: ConditionTree, st: ValueTree)
    requires Spells(t, p + 1, ForControlYield(i, c, st))
    ensures Peek(t, p + 1) == LeftParenthesis && Peek(t, p + 2) == Identifier && Peek(t, p + 3) == BecomesSymbol
  {
    Peeks(t, p + 1, ForControlYield(i, c, st), 0);
    Peeks(t, p + 1, ForControlYield(i, c, st), 1);
    Peeks(t, p + 1, ForControlYield(i, c, st), 2);
  }

  /** `for`, the for-control, `do` at `q`, the body, then `end loop` at `r`. */
  lemma ForSpelling(t: seq<Kind>, p: nat, i: ValueTree, c: ConditionTree, st: ValueTree, b: ListTree)
    returns (q: nat, r: nat)
    requires Spells(t, p, StatementYield(ForNode(i, c, st, b)))
    ensures q == p + 1 + |ForControlYield(i, c, st)| && r == q + 1 + |ListYield(b)|
    ensures r + 2 == p + |StatementYield(ForNode(i, c, st, b))| && r + 2 <= |t|
    ensures Peek(t, p) == ForSymbol && Spells(t, p + 1, ForControlYield(i, c, st)) && Peek(t, q) == DoSymbol
    ensures Spells(t, q + 1, ListYield(b)) && Peek(t, r) == EndSymbol && Peek(t, r + 1) == LoopSymbol
  {
    q, r := Framed(t, p, ForSymbol, ForControlYield(i, c, st), DoSymbol, ListYield(b), EndSymbol, LoopSymbol);
  }

  /** `;`, `x`, then `y` from position `q`, where `y` is empty or begins
      with `;` again and is followed at `r` by a token that continues no
      statement list. */
  lemma RestLayout(t: seq<Kind>, p: nat, x: seq<Kind>, y: seq<Kind>, r: nat) returns (q: nat)
    requires Spells(t, p, [SemicolonSymbol] + x + y) && r == p + |[SemicolonSymbol] + x + y|
    requires |y| > 0 ==> y[0] == SemicolonSymbol
    requires !ContinuesList(Peek(t, r))
    ensures q == p + 1 + |x| && r == q + |y| && r <= |t|
    ensures Peek(t, p) == SemicolonSymbol && Spells(t, p + 1, x) && Spells(t, q, y)
    ensures !ContinuesExpression(Peek(t, q))
  {
    q := Led(t, p, SemicolonSymbol, x, y);
  }

  /** `x`, then `y` from position `q`, where `y` is empty or begins with
      `;` and is followed at `r` by a token that continues no statement
      list. */
  lemma ListLayout(t: seq<Kind>, p: nat, x: seq<Kind>, y: seq<Kind>, r: nat) returns (q: nat)
    requires Spells(t, p, x + y) && r == p + |x + y|
    requires |y| > 0 ==> y[0] == SemicolonSymbol
    requires !ContinuesList(Peek(t, r))
    ensures q == p + |x| && r == q + |y| && r <= |t|
    ensures Spells(t, p, x) && Spells(t, q, y)
    ensures !ContinuesExpression(Peek(t, q))
  {
    q := Cut(t, p, x, y);
  }
}
