/** The notifications the analyser pushes to its sink, and two views of an
    event trace: the terminals it matched, and whether its enter/exit
    notifications nest. */
module Events {
  import opened Tokens

  /** The labels passed to commenceNonterminal / finishNonterminal. The three
      remainder helpers have no label: they never announce themselves. */
  datatype Nonterminal =
    | StatementPart | StatementList | Statement | AssignmentStatement
    | IfStatement | WhileStatement | ProcedureStatement | UntilStatement
    | ForStatement | ArgumentList | Condition | ConditionalOperator
    | Expression | Term | Factor

  /** commenceNonterminal, insertTerminal and finishNonterminal. */
  datatype Event = Enter(name: Nonterminal) | Match(kind: Kind) | Exit(name: Nonterminal)

  datatype Option<T> = None | Some(value: T)

  /** The kinds of the matched terminals, in the order they were matched. */
  function Matches(ev: seq<Event>): (ks: seq<Kind>)
    ensures |ks| <= |ev|
  {
    if ev == [] then []
    else (if ev[0].Match? then [ev[0].kind] else []) + Matches(ev[1..])
  }

  lemma {:induction false} MatchesConcat(a: seq<Event>, b: seq<Event>)
    ensures Matches(a + b) == Matches(a) + Matches(b)
  {
    if a == [] {
      assert a + b == b;
    } else {
      var h := if a[0].Match? then [a[0].kind] else [];
      assert (a + b)[0] == a[0] && (a + b)[1..] == a[1..] + b;
      assert Matches(a + b) == h + Matches(a[1..] + b);
      MatchesConcat(a[1..], b);
      assert Matches(a) == h + Matches(a[1..]);
    }
  }

  /** A stack machine that reads a trace left to right: Enter pushes its
      label, Exit must pop the same label, Match leaves the stack alone.
      None means an Exit did not close the innermost open nonterminal. */
  function Scan(ev: seq<Event>, stack: seq<Nonterminal>): Option<seq<Nonterminal>>
  {
    if ev == [] then Some(stack)
    else match ev[0]
      case Enter(n) => Scan(ev[1..], stack + [n])
      case Match(_) => Scan(ev[1..], stack)
      case Exit(n) =>
        if stack != [] && stack[|stack| - 1] == n then Scan(ev[1..], stack[..|stack| - 1])
        else None
  }

  /** Every Enter has a later Exit of the same nonterminal and no two
      activations cross. */
  predicate Balanced(ev: seq<Event>) {
    Scan(ev, []) == Some([])
  }

  /** Scanning a concatenation scans the second part from where the first left off. */
  lemma {:induction false} ScanConcat(a: seq<Event>, b: seq<Event>, s: seq<Nonterminal>)
    ensures Scan(a + b, s) == if Scan(a, s).Some? then Scan(b, Scan(a, s).value) else None
  {
    if a == [] {
      assert a + b == b;
    } else {
      assert (a + b)[0] == a[0];
      assert (a + b)[1..] == a[1..] + b;
      match a[0]
      case Enter(n) => ScanConcat(a[1..], b, s + [n]);
      case Match(_) => ScanConcat(a[1..], b, s);
      case Exit(n) =>
        if s != [] && s[|s| - 1] == n {
          ScanConcat(a[1..], b, s[..|s| - 1]);
        }
    }
  }

  /** Entries already on the stack below a scan are untouched by it. */
  lemma {:induction false} ScanUnder(a: seq<Event>, base: seq<Nonterminal>, s: seq<Nonterminal>, u: seq<Nonterminal>)
    requires Scan(a, s) == Some(u)
    ensures Scan(a, base + s) == Some(base + u)
  {
    if a == [] {
    } else {
      match a[0]
      case Enter(n) =>
        assert (base + s) + [n] == base + (s + [n]);
        ScanUnder(a[1..], base, s + [n], u);
      case Match(_) =>
        ScanUnder(a[1..], base, s, u);
      case Exit(n) =>
        assert (base + s)[..|base + s| - 1] == base + s[..|s| - 1];
        ScanUnder(a[1..], base, s[..|s| - 1], u);
    }
  }

  lemma BalancedConcat(a: seq<Event>, b: seq<Event>)
    requires Balanced(a) && Balanced(b)
    ensures Balanced(a + b)
  {
    ScanConcat(a, b, []);
  }

  /** Bracketing a balanced trace by one activation keeps it balanced. */
  lemma BalancedWrap(n: Nonterminal, a: seq<Event>)
    requires Balanced(a)
    ensures Balanced([Enter(n)] + a + [Exit(n)])
  {
    var w := [Enter(n)] + a + [Exit(n)];
    assert w[0] == Enter(n) && w[1..] == a + [Exit(n)];
    assert Scan(w, []) == Scan(a + [Exit(n)], [n]);
    ScanUnder(a, [n], [], []);
    assert [n] + [] == [n];
    ScanConcat(a, [Exit(n)], [n]);
    assert Scan([Exit(n)], [n]) == Some([]) by {
      assert [Exit(n)][1..] == [];
    }
  }

  lemma BalancedMatch(k: Kind)
    ensures Balanced([Match(k)])
  {
  }

  /** How many activations are open after reading `ev` with `d` open before.
      An Exit with none open leaves the count at zero. */
  function Depth(ev: seq<Event>, d: nat): nat
  {
    if ev == [] then d
    else match ev[0]
      case Enter(_) => Depth(ev[1..], d + 1)
      case Match(_) => Depth(ev[1..], d)
      case Exit(_) => Depth(ev[1..], if d == 0 then 0 else d - 1)
  }

  /** The outermost events of a trace read with `d` activations open: the
      terminals matched and the nonterminals entered while none is open. */
  function Outline(ev: seq<Event>, d: nat): seq<Event>
  {
    if ev == [] then []
    else match ev[0]
      case Enter(n) => (if d == 0 then [Enter(n)] else []) + Outline(ev[1..], d + 1)
      case Match(k) => (if d == 0 then [Match(k)] else []) + Outline(ev[1..], d)
      case Exit(_) => Outline(ev[1..], if d == 0 then 0 else d - 1)
  }

  lemma {:induction false} OutlineConcat(a: seq<Event>, b: seq<Event>, d: nat)
    ensures Outline(a + b, d) == Outline(a, d) + Outline(b, Depth(a, d))
    ensures Depth(a + b, d) == Depth(b, Depth(a, d))
  {
    if a == [] {
      assert a + b == b;
    } else {
      assert (a + b)[0] == a[0] && (a + b)[1..] == a[1..] + b;
      match a[0]
      case Enter(n) => OutlineConcat(a[1..], b, d + 1);
      case Match(k) => OutlineConcat(a[1..], b, d);
      case Exit(_) => OutlineConcat(a[1..], b, if d == 0 then 0 else d - 1);
    }
  }

  /** A scan that succeeds from stack `s` never closes more than `s` holds:
      read with `d` more activations open beneath, it ends at the scan's
      final depth and, when `d` is positive, shows nothing outermost. */
  lemma {:induction false} ScanDepth(a: seq<Event>, s: seq<Nonterminal>, u: seq<Nonterminal>, d: nat)
    requires Scan(a, s) == Some(u)
    ensures Depth(a, d + |s|) == d + |u|
    ensures d > 0 ==> Outline(a, d + |s|) == []
  {
    if a != [] {
      match a[0]
      case Enter(n) => ScanDepth(a[1..], s + [n], u, d);
      case Match(_) => ScanDepth(a[1..], s, u, d);
      case Exit(n) => ScanDepth(a[1..], s[..|s| - 1], u, d);
    }
  }

  /** One activation around a balanced trace shows only its Enter outermost. */
  lemma OutlineWrap(n: Nonterminal, a: seq<Event>)
    requires Balanced(a)
    ensures Outline([Enter(n)] + a + [Exit(n)], 0) == [Enter(n)]
    ensures Depth([Enter(n)] + a + [Exit(n)], 0) == 0
  {
    ScanDepth(a, [], [], 1);
    OutlineConcat([Enter(n)], a, 0);
    OutlineConcat([Enter(n)] + a, [Exit(n)], 0);
    assert [Enter(n)][1..] == [] && [Exit(n)][1..] == [];
  }

  lemma OutlineMatch(k: Kind)
    ensures Outline([Match(k)], 0) == [Match(k)]
    ensures Depth([Match(k)], 0) == 0
  {
    assert [Match(k)][1..] == [];
  }

  /** `ev` is a run of pairs: a terminal whose kind is in `seps`, then `item`. */
  ghost predicate Pairs(ev: seq<Event>, seps: set<Kind>, item: Event)
    decreases |ev|
  {
    ev == [] || (2 <= |ev| && ev[0].Match? && ev[0].kind in seps && ev[1] == item && Pairs(ev[2..], seps, item))
  }

  /** A separator, then a trace showing only `item` outermost, then a run of
      pairs, is a longer run of pairs. */
  lemma PairsStep(k: Kind, seps: set<Kind>, item: Event, x: seq<Event>, rest: seq<Event>)
    requires k in seps && Outline(x, 0) == [item] && Depth(x, 0) == 0
    requires Pairs(Outline(rest, 0), seps, item)
    ensures Pairs(Outline([Match(k)] + x + rest, 0), seps, item)
  {
    OutlineConcat([Match(k)], x, 0);
    OutlineConcat([Match(k)] + x, rest, 0);
    assert [Match(k)][1..] == [];
    var o := Outline([Match(k)] + x + rest, 0);
    assert o == [Match(k), item] + Outline(rest, 0);
    assert o[2..] == Outline(rest, 0);
  }
}
