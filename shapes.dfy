/** The loops of the analyser seen in its notifications: a successful
    statementList, argumentList, expression or term shows, outermost
    between its own enter and exit, one item followed by any number of
    (separator, item) pairs, so each turn of its while loop takes exactly
    one separator and one item. */
module Shapes {
  import opened Tokens
  import opened Events
  import opened Grammar
  import opened Trace

  /** Read outermost, `ev` is `item` followed by a run of (separator, item) pairs. */
  ghost predicate Alternation(ev: seq<Event>, seps: set<Kind>, item: Event) {
    1 <= |ev| && ev[0] == item && Pairs(ev[1..], seps, item)
  }

  lemma {:induction false} StatementListTailShape(t: seq<Kind>, p: nat, h: seq<Event>)
    requires p <= |t|
    decreases |t| - p
    ensures Valid(t, p, h, ParseStatementListTail(t, p, h))
    ensures ParseStatementListTail(t, p, h).Done? ==>
      Pairs(Outline(Added(h, ParseStatementListTail(t, p, h)), 0), {SemicolonSymbol}, Enter(Statement))
  {
    StatementListTailValid(t, p, h);
    var k := Peek(t, p);
    if Peek(t, p) == SemicolonSymbol {
      AcceptValid(t, p, k, h);
      var a := Accept(t, p, k, h);
      StatementValid(t, a.pos, a.events);
      var b := ParseStatement(t, a.pos, a.events);
      ChainValid(t, p, h, a, b);
      if b.Done? {
        StatementListTailValid(t, b.pos, b.events);
        StatementListTailShape(t, b.pos, b.events);
        var c := ParseStatementListTail(t, b.pos, b.events);
        ChainValid(t, p, h, b, c);
        if c.Done? {
          AddedSplit(h, a, b);
          AddedSplit(h, b, c);
          assert Added(h, a) == [Match(k)];
          OutlineWrap(Statement, Inner(a.events, b));
          PairsStep(k, {SemicolonSymbol}, Enter(Statement), Added(a.events, b), Added(b.events, c));
        }
      }
    } else {
      assert Added(h, Done(p, h)) == [];
    }
  }

  /** A successful statementList shows Enter(Statement) and then
      (separator, Enter(Statement)) pairs between its enter and exit. */
  lemma StatementListShape(t: seq<Kind>, p: nat, h: seq<Event>)
    requires p <= |t|
    ensures Valid(t, p, h, ParseStatementList(t, p, h))
    ensures Block(StatementList, h, ParseStatementList(t, p, h))
    ensures ParseStatementList(t, p, h).Done? ==>
      Alternation(Outline(Inner(h, ParseStatementList(t, p, h)), 0), {SemicolonSymbol}, Enter(Statement))
  {
    StatementListValid(t, p, h);
    var h1 := h + [Enter(StatementList)];
    StatementValid(t, p, h1);
    var a := ParseStatement(t, p, h1);
    if a.Done? {
      StatementListTailShape(t, a.pos, a.events);
      var b := ParseStatementListTail(t, a.pos, a.events);
      ChainValid(t, p, h1, a, b);
      if b.Done? {
        AddedSplit(h1, a, b);
        AddedPrefix(h1, b);
        var r := ParseStatementList(t, p, h);
        assert r.events == h + [Enter(StatementList)] + Added(h1, b) + [Exit(StatementList)];
        assert Inner(h, r) == Added(h1, b);
        OutlineWrap(Statement, Inner(h1, a));
        OutlineConcat(Added(h1, a), Added(a.events, b), 0);
      }
    }
  }

  lemma {:induction false} ArgumentListTailShape(t: seq<Kind>, p: nat, h: seq<Event>)
    requires p <= |t|
    decreases |t| - p
    ensures Valid(t, p, h, ParseArgumentListTail(t, p, h))
    ensures ParseArgumentListTail(t, p, h).Done? ==>
      Pairs(Outline(Added(h, ParseArgumentListTail(t, p, h)), 0), {CommaSymbol}, Match(Identifier))
  {
    ArgumentListTailValid(t, p, h);
    var k := Peek(t, p);
    if Peek(t, p) == CommaSymbol {
      AcceptValid(t, p, k, h);
      var a := Accept(t, p, k, h);
      AcceptValid(t, a.pos, Identifier, a.events);
      var b := Accept(t, a.pos, Identifier, a.events);
      ChainValid(t, p, h, a, b);
      if b.Done? {
        ArgumentListTailValid(t, b.pos, b.events);
        ArgumentListTailShape(t, b.pos, b.events);
        var c := ParseArgumentListTail(t, b.pos, b.events);
        ChainValid(t, p, h, b, c);
        if c.Done? {
          AddedSplit(h, a, b);
          AddedSplit(h, b, c);
          assert Added(h, a) == [Match(k)];
          assert Added(a.events, b) == [Match(Identifier)];
          OutlineMatch(Identifier);
          PairsStep(k, {CommaSymbol}, Match(Identifier), Added(a.events, b), Added(b.events, c));
        }
      }
    } else {
      assert Added(h, Done(p, h)) == [];
    }
  }

  /** A successful argumentList shows Match(Identifier) and then
      (separator, Match(Identifier)) pairs between its enter and exit. */
  lemma ArgumentListShape(t: seq<Kind>, p: nat, h: seq<Event>)
    requires p <= |t|
    ensures Valid(t, p, h, ParseArgumentList(t, p, h))
    ensures Block(ArgumentList, h, ParseArgumentList(t, p, h))
    ensures ParseArgumentList(t, p, h).Done? ==>
      Alternation(Outline(Inner(h, ParseArgumentList(t, p, h)), 0), {CommaSymbol}, Match(Identifier))
  {
    ArgumentListValid(t, p, h);
    var h1 := h + [Enter(ArgumentList)];
    AcceptValid(t, p, Identifier, h1);
    var a := Accept(t, p, Identifier, h1);
    if a.Done? {
      ArgumentListTailShape(t, a.pos, a.events);
      var b := ParseArgumentListTail(t, a.pos, a.events);
      ChainValid(t, p, h1, a, b);
      if b.Done? {
        AddedSplit(h1, a, b);
        AddedPrefix(h1, b);
        var r := ParseArgumentList(t, p, h);
        assert r.events == h + [Enter(ArgumentList)] + Added(h1, b) + [Exit(ArgumentList)];
        assert Inner(h, r) == Added(h1, b);
        assert Added(h1, a) == [Match(Identifier)];
        OutlineMatch(Identifier);
        OutlineConcat(Added(h1, a), Added(a.events, b), 0);
      }
    }
  }

  lemma {:induction false} ExpressionTailShape(t: seq<Kind>, p: nat, h: seq<Event>)
    requires p <= |t|
    decreases |t| - p
    ensures Valid(t, p, h, ParseExpressionTail(t, p, h))
    ensures ParseExpressionTail(t, p, h).Done? ==>
      Pairs(Outline(Added(h, ParseExpressionTail(t, p, h)), 0), {PlusSymbol, MinusSymbol}, Enter(Term))
  {
    ExpressionTailValid(t, p, h);
    var k := Peek(t, p);
    if Peek(t, p) in {PlusSymbol, MinusSymbol} {
      AcceptValid(t, p, k, h);
      var a := Accept(t, p, k, h);
      TermValid(t, a.pos, a.events);
      var b := ParseTerm(t, a.pos, a.events);
      ChainValid(t, p, h, a, b);
      if b.Done? {
        ExpressionTailValid(t, b.pos, b.events);
        ExpressionTailShape(t, b.pos, b.events);
        var c := ParseExpressionTail(t, b.pos, b.events);
        ChainValid(t, p, h, b, c);
        if c.Done? {
          AddedSplit(h, a, b);
          AddedSplit(h, b, c);
          assert Added(h, a) == [Match(k)];
          OutlineWrap(Term, Inner(a.events, b));
          PairsStep(k, {PlusSymbol, MinusSymbol}, Enter(Term), Added(a.events, b), Added(b.events, c));
        }
      }
    } else {
      assert Added(h, Done(p, h)) == [];
    }
  }

  /** A successful expression shows Enter(Term) and then
      (separator, Enter(Term)) pairs between its enter and exit. */
  lemma ExpressionShape(t: seq<Kind>, p: nat, h: seq<Event>)
    requires p <= |t|
    ensures Valid(t, p, h, ParseExpression(t, p, h))
    ensures Block(Expression, h, ParseExpression(t, p, h))
    ensures ParseExpression(t, p, h).Done? ==>
      Alternation(Outline(Inner(h, ParseExpression(t, p, h)), 0), {PlusSymbol, MinusSymbol}, Enter(Term))
  {
    ExpressionValid(t, p, h);
    var h1 := h + [Enter(Expression)];
    TermValid(t, p, h1);
    var a := ParseTerm(t, p, h1);
    if a.Done? {
      ExpressionTailShape(t, a.pos, a.events);
      var b := ParseExpressionTail(t, a.pos, a.events);
      ChainValid(t, p, h1, a, b);
      if b.Done? {
        AddedSplit(h1, a, b);
        AddedPrefix(h1, b);
        var r := ParseExpression(t, p, h);
        assert r.events == h + [Enter(Expression)] + Added(h1, b) + [Exit(Expression)];
        assert Inner(h, r) == Added(h1, b);
        OutlineWrap(Term, Inner(h1, a));
        OutlineConcat(Added(h1, a), Added(a.events, b), 0);
      }
    }
  }

  lemma {:induction false} TermTailShape(t: seq<Kind>, p: nat, h: seq<Event>)
    requires p <= |t|
    decreases |t| - p
    ensures Valid(t, p, h, ParseTermTail(t, p, h))
    ensures ParseTermTail(t, p, h).Done? ==>
      Pairs(Outline(Added(h, ParseTermTail(t, p, h)), 0), {TimesSymbol, DivideSymbol, ModSymbol}, Enter(Factor))
  {
    TermTailValid(t, p, h);
    var k := Peek(t, p);
    if Peek(t, p) in {TimesSymbol, DivideSymbol, ModSymbol} {
      AcceptValid(t, p, k, h);
      var a := Accept(t, p, k, h);
      FactorValid(t, a.pos, a.events);
      var b := ParseFactor(t, a.pos, a.events);
      ChainValid(t, p, h, a, b);
      if b.Done? {
        TermTailValid(t, b.pos, b.events);
        TermTailShape(t, b.pos, b.events);
        var c := ParseTermTail(t, b.pos, b.events);
        ChainValid(t, p, h, b, c);
        if c.Done? {
          AddedSplit(h, a, b);
          AddedSplit(h, b, c);
          assert Added(h, a) == [Match(k)];
          OutlineWrap(Factor, Inner(a.events, b));
          PairsStep(k, {TimesSymbol, DivideSymbol, ModSymbol}, Enter(Factor), Added(a.events, b), Added(b.events, c));
        }
      }
    } else {
      assert Added(h, Done(p, h)) == [];
    }
  }

  /** A successful term shows Enter(Factor) and then
      (separator, Enter(Factor)) pairs between its enter and exit. */
  lemma TermShape(t: seq<Kind>, p: nat, h: seq<Event>)
    requires p <= |t|
    ensures Valid(t, p, h, ParseTerm(t, p, h))
    ensures Block(Term, h, ParseTerm(t, p, h))
    ensures ParseTerm(t, p, h).Done? ==>
      Alternation(Outline(Inner(h, ParseTerm(t, p, h)), 0), {TimesSymbol, DivideSymbol, ModSymbol}, Enter(Factor))
  {
    TermValid(t, p, h);
    var h1 := h + [Enter(Term)];
    FactorValid(t, p, h1);
    var a := ParseFactor(t, p, h1);
    if a.Done? {
      TermTailShape(t, a.pos, a.events);
      var b := ParseTermTail(t, a.pos, a.events);
      ChainValid(t, p, h1, a, b);
      if b.Done? {
        AddedSplit(h1, a, b);
        AddedPrefix(h1, b);
        var r := ParseTerm(t, p, h);
        assert r.events == h + [Enter(Term)] + Added(h1, b) + [Exit(Term)];
        assert Inner(h, r) == Added(h1, b);
        OutlineWrap(Factor, Inner(h1, a));
        OutlineConcat(Added(h1, a), Added(a.events, b), 0);
      }
    }
  }
}
