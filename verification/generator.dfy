/**
 * Sentence generation (`generateFromSymbol`, `generateSentence`,
 * `generateInteractive`). A non-terminal is rewritten by a production chosen
 * with a random draw and its symbols are generated left to right, one level
 * deeper. Past the maximum depth a symbol is no longer expanded and a fixed
 * cut-off string stands for it. Randomness is an oracle: the i-th draw of a run
 * is `oracle(i)`, a real number in [0, 1).
 */
module Generator {

  import opened Wrappers
  import opened Grammar
  import opened Derivation

  /** A value of `Math.random()`. */
  type Draw = r: real | 0.0 <= r < 1.0

  /** The draws of a run, by position. */
  type Oracle = nat -> Draw

  /** The depth limit `generateFromSymbol` and `generateInteractive` use by default. */
  const DefaultMaxDepth: nat := 20

  /** `Math.floor(Math.random() * n)`: an index into a list of `n` productions. */
  function ChooseIndex(u: Draw, n: nat): (k: nat)
    requires n > 0
    ensures k < n
    ensures k as real <= u * n as real < k as real + 1.0
  {
    var x := u * n as real;
    ProductBelow(u, n as real);
    x.Floor
  }

  /** A draw scales a positive bound to something strictly below it. */
  lemma ProductBelow(u: real, m: real)
    requires 0.0 <= u < 1.0 && m > 0.0
    ensures u * m < m
  {
    PositiveProduct(1.0 - u, m);
    assert (1.0 - u) * m == m - u * m;
  }

  lemma PositiveProduct(a: real, b: real)
    requires a > 0.0 && b > 0.0
    ensures a * b > 0.0
  {
  }

  /** The production of `x` that draw `u` selects. */
  function Choose(x: Symbol, u: Draw): (p: Production)
    requires IsNonTerminal(x)
    ensures p in Productions(x)
  {
    RulesWellFormed(x);
    Productions(x)[ChooseIndex(u, |Productions(x)|)]
  }

  /** The text generated so far and the position of the next draw. */
  datatype Generated = Generated(text: string, next: nat)

  /** How deep a symbol at `depth` may still be expanded. */
  function Budget(depth: nat, maxDepth: nat): nat
  {
    if depth > maxDepth then 0 else maxDepth - depth + 1
  }

  /**
   * `generateFromSymbol(symbol, depth, maxDepth)` with the cut-off string `cut(x)`
   * replacing any symbol `x` found deeper than `maxDepth`, whatever kind of symbol it is.
   * Otherwise a terminal is itself, a non-terminal is the concatenation of what its
   * chosen production's symbols generate one level deeper, and anything else (the
   * empty-string marker) is empty.
   */
  function GenerateWith(cut: Symbol -> string, symbol: Symbol, depth: nat, maxDepth: nat,
                        oracle: Oracle, n: nat): (r: Generated)
    ensures r.next >= n
    ensures depth > maxDepth ==> r == Generated(cut(symbol), n)
    decreases Budget(depth, maxDepth), 0, 0
  {
    if depth > maxDepth then Generated(cut(symbol), n)
    else if IsTerminal(symbol) then Generated(if symbol == Epsilon then "" else [symbol], n)
    else if IsNonTerminal(symbol) then
      GenerateAllWith(cut, Choose(symbol, oracle(n)), depth + 1, maxDepth, oracle, n + 1)
    else Generated("", n)
  }

  /** The symbols of a production generated left to right, each result appended. */
  function GenerateAllWith(cut: Symbol -> string, syms: seq<Symbol>, depth: nat, maxDepth: nat,
                           oracle: Oracle, n: nat): (r: Generated)
    ensures r.next >= n
    decreases Budget(depth, maxDepth), 1, |syms|
  {
    if syms == [] then Generated("", n)
    else
      var first := GenerateWith(cut, syms[0], depth, maxDepth, oracle, n);
      var rest := GenerateAllWith(cut, syms[1..], depth, maxDepth, oracle, first.next);
      Generated(first.text + rest.text, rest.next)
  }

  /** The cut-off strings of the source: "" for A, "d" for B and D, and "" for every
      other symbol, terminals included. */
  function SourceCutOff(x: Symbol): string
  {
    if x == 'A' then "" else if x == 'B' then "d" else if x == 'D' then "d" else ""
  }

  /** `generateFromSymbol(symbol, depth, maxDepth)` as the source writes it. */
  function GenerateFromSymbol(symbol: Symbol, depth: nat, maxDepth: nat, oracle: Oracle, n: nat): (r: Generated)
    ensures depth > maxDepth ==> r.next == n && r.text == SourceCutOff(symbol)
  {
    GenerateWith(SourceCutOff, symbol, depth, maxDepth, oracle, n)
  }

  /** `generateSentence()`: from the start symbol, at depth 0, with the default limit. */
  function GenerateSentence(oracle: Oracle): string
  {
    GenerateFromSymbol(StartSymbol, 0, DefaultMaxDepth, oracle, 0).text
  }

  // The generated text is made of the grammar's terminals.

  /** The terminals a production of the grammar can contain. */
  predicate IsWordSymbol(c: Symbol)
  {
    c in {'a', 'b', 'c', 'd'}
  }

  predicate IsWord(w: string)
  {
    forall i :: 0 <= i < |w| ==> IsWordSymbol(w[i])
  }

  predicate CutOffWords(cut: Symbol -> string)
  {
    forall x :: IsWord(cut(x))
  }

  lemma {:induction false} GenerateWithWord(cut: Symbol -> string, symbol: Symbol, depth: nat, maxDepth: nat,
                                            oracle: Oracle, n: nat)
    requires CutOffWords(cut) && (symbol == Epsilon || IsWordSymbol(symbol) || IsNonTerminal(symbol))
    ensures IsWord(GenerateWith(cut, symbol, depth, maxDepth, oracle, n).text)
    decreases Budget(depth, maxDepth), 0, 0
  {
    if depth <= maxDepth && IsNonTerminal(symbol) {
      var p := Choose(symbol, oracle(n));
      RulesValues();
      GenerateAllWithWord(cut, p, depth + 1, maxDepth, oracle, n + 1);
    }
  }

  lemma {:induction false} GenerateAllWithWord(cut: Symbol -> string, syms: seq<Symbol>, depth: nat, maxDepth: nat,
                                               oracle: Oracle, n: nat)
    requires CutOffWords(cut)
    requires forall i :: 0 <= i < |syms| ==> syms[i] == Epsilon || IsWordSymbol(syms[i]) || IsNonTerminal(syms[i])
    ensures IsWord(GenerateAllWith(cut, syms, depth, maxDepth, oracle, n).text)
    decreases Budget(depth, maxDepth), 1, |syms|
  {
    if syms != [] {
      var first := GenerateWith(cut, syms[0], depth, maxDepth, oracle, n);
      GenerateWithWord(cut, syms[0], depth, maxDepth, oracle, n);
      GenerateAllWithWord(cut, syms[1..], depth, maxDepth, oracle, first.next);
    }
  }

  /** Every sentence `generateSentence` produces is a string over a, b, c and d: no
      non-terminal and no empty-string marker survives. */
  lemma SentenceIsWord(oracle: Oracle)
    ensures IsWord(GenerateSentence(oracle))
  {
    assert CutOffWords(SourceCutOff) by {
      forall x ensures IsWord(SourceCutOff(x)) {
      }
    }
    GenerateWithWord(SourceCutOff, StartSymbol, 0, DefaultMaxDepth, oracle, 0);
  }

  // The cut-off can leave the language.

  /** Every sentence of C starts with a or b. */
  lemma LanguageOfC(w: seq<Symbol>)
    requires InLanguage('C', w)
    ensures |w| > 0 && (w[0] == 'a' || w[0] == 'b')
  {
    var apps: seq<Application> :| Derive(['C'], apps) == Some(w);
    assert apps != [] by {
      assert Derive(['C'], []) == Some(['C']);
      assert !IsSentence(['C']) by { assert ['C'][0] == 'C'; }
    }
    var app := apps[0];
    assert LeftmostNonTerminal(['C']) == Some(0);
    var p := app.production;
    assert Rewrite(['C'], app).Some?;
    assert app == Application('C', p);
    ProductionsOfC(p);
    var none: seq<Symbol> := [];
    RewriteAt(none, 'C', none, p);
    assert none + ['C'] + none == ['C'] && none + Body(p) + none == p;
    assert Derive(p, apps[1..]) == Some(w);
    assert p == [p[0]] + ['D'];
    DeriveKeepsSentencePrefix([p[0]], ['D'], apps[1..]);
  }

  /** C's productions: `a D` and `b D`. */
  lemma ProductionsOfC(p: Production)
    requires p in Productions('C')
    ensures (p == ['a', 'D'] || p == ['b', 'D']) && Body(p) == p && IsSentence([p[0]])
  {
    RulesValues();
  }

  /** A terminal derives only itself. */
  lemma LanguageOfTerminal(t: Symbol, w: seq<Symbol>)
    requires !IsNonTerminal(t) && InLanguage(t, w)
    ensures w == [t]
  {
    var apps: seq<Application> :| Derive([t], apps) == Some(w);
    assert LeftmostNonTerminal([t]) == None;
  }

  /** As written, `generateFromSymbol` can return a string its symbol does not derive:
      `generateFromSymbol('C', 0, 0)` drops the terminal of C's production, which lies
      past the limit, and returns "d"; past the default limit C gives "", and so does
      any terminal. */
  lemma SourceCutOffLeavesLanguage(oracle: Oracle, n: nat)
    ensures GenerateFromSymbol('C', 0, 0, oracle, n).text == "d" && !InLanguage('C', "d")
    ensures GenerateFromSymbol('C', DefaultMaxDepth + 1, DefaultMaxDepth, oracle, n).text == "" && !InLanguage('C', "")
    ensures GenerateFromSymbol('a', DefaultMaxDepth + 1, DefaultMaxDepth, oracle, n).text == "" && !InLanguage('a', "")
  {
    var p := Choose('C', oracle(n));
    RulesValues();
    assert p == [p[0], 'D'] && p[0] != 'A' && p[0] != 'B' && p[0] != 'D';
    var first := GenerateWith(SourceCutOff, p[0], 1, 0, oracle, n + 1);
    assert first.text == "";
    assert p[1..] == ['D'] && p[1..][1..] == [];
    assert GenerateAllWith(SourceCutOff, p[1..], 1, 0, oracle, first.next).text == "d";
    assert GenerateFromSymbol('C', 0, 0, oracle, n).text == "" + "d";
    if InLanguage('C', "d") {
      LanguageOfC("d");
    }
    if InLanguage('C', "") {
      LanguageOfC("");
    }
    if InLanguage('a', "") {
      LanguageOfTerminal('a', "");
    }
  }

  // The cut-off completed: a shortest sentence of each non-terminal, and terminals kept.

  /** Past the limit, a non-terminal is replaced by a shortest sentence it derives
      (S -> A B -> B -> d A -> d, A -> ε, B -> d A -> d, C -> a D -> a d A -> a d,
      D -> d A -> d), and any other symbol generates as it would above the limit. */
  function CompletedCutOff(x: Symbol): string
  {
    if x == 'S' || x == 'B' || x == 'D' then "d"
    else if x == 'A' then ""
    else if x == 'C' then "ad"
    else if x == Epsilon then ""
    else [x]
  }

  /** d A derives d. */
  lemma DerivesDA(u: seq<Symbol>)
    requires IsSentence(u)
    ensures Derive(u + ['d', 'A'], [Application('A', [Epsilon])]) == Some(u + ['d'])
  {
    var none: seq<Symbol> := [];
    RulesValues();
    DeriveFirst(u + ['d'], 'A', none, [Epsilon], []);
    assert u + ['d'] + ['A'] + none == u + ['d', 'A'] && u + ['d'] + Body([Epsilon]) + none == u + ['d'];
    assert [Application('A', [Epsilon])] + [] == [Application('A', [Epsilon])];
  }

  /** `x -> d A` followed by `A -> ε` derives d from `x`, preceded by the sentence `u`. */
  lemma DerivesViaDA(u: seq<Symbol>, x: Symbol, v: seq<Symbol>)
    requires IsSentence(u) && (x == 'B' || x == 'D')
    ensures Derive(u + [x], [Application(x, ['d', 'A']), Application('A', [Epsilon])]) == Some(u + ['d'])
  {
    var none: seq<Symbol> := [];
    RulesValues();
    var epsA := Application('A', [Epsilon]);
    DerivesDA(u);
    DeriveFirst(u, x, none, ['d', 'A'], [epsA]);
    assert u + [x] + none == u + [x] && u + Body(['d', 'A']) + none == u + ['d', 'A'];
    assert [Application(x, ['d', 'A'])] + [epsA] == [Application(x, ['d', 'A']), epsA];
  }

  /** C -> a D -> a d A -> a d. */
  lemma DerivesAD()
    ensures InLanguage('C', "ad")
  {
    var none: seq<Symbol> := [];
    RulesValues();
    var tail := [Application('D', ['d', 'A']), Application('A', [Epsilon])];
    DerivesViaDA(['a'], 'D', none);
    assert ['a'] + ['D'] == ['a', 'D'] && ['a'] + ['d'] == ['a', 'd'];
    DeriveFirst(none, 'C', none, ['a', 'D'], tail);
    assert none + ['C'] + none == ['C'] && none + Body(['a', 'D']) + none == ['a', 'D'];
    assert Derive(['C'], [Application('C', ['a', 'D'])] + tail) == Some(['a', 'd']);
  }

  /** A B -> B -> d A -> d, preceded by the sentence `u`. */
  lemma DerivesABD(u: seq<Symbol>)
    requires IsSentence(u)
    ensures Derive(u + ['A', 'B'], [Application('A', [Epsilon]), Application('B', ['d', 'A']), Application('A', [Epsilon])]) == Some(u + ['d'])
  {
    var none: seq<Symbol> := [];
    RulesValues();
    var epsA := Application('A', [Epsilon]);
    var tail := [Application('B', ['d', 'A']), epsA];
    DerivesViaDA(u, 'B', none);
    DeriveFirst(u, 'A', ['B'], [Epsilon], tail);
    assert u + ['A'] + ['B'] == u + ['A', 'B'] && u + Body([Epsilon]) + ['B'] == u + ['B'];
    assert [epsA] + tail == [epsA, Application('B', ['d', 'A']), epsA];
  }

  /** S -> A B -> B -> d A -> d. */
  lemma DerivesStartD(u: seq<Symbol>)
    requires u == []
    ensures InLanguage('S', u + ['d'])
  {
    var epsA := Application('A', [Epsilon]);
    var tail := [epsA, Application('B', ['d', 'A']), epsA];
    assert Derive(['S'], [Application('S', ['A', 'B'])] + tail) == Some(u + ['d']) by {
      var none: seq<Symbol> := [];
      assert ['A', 'B'] in Productions('S') by {
        RulesValues();
      }
      DerivesABD(u);
      DeriveFirst(u, 'S', none, ['A', 'B'], tail);
      assert u + ['S'] + none == ['S'] && u + Body(['A', 'B']) + none == u + ['A', 'B'];
    }
    assert IsSentence(u + ['d']);
  }

  /** The completed cut-off string of a non-terminal is a sentence it derives. */
  lemma CompletedCutOffDerives(x: Symbol)
    requires IsNonTerminal(x)
    ensures InLanguage(x, CompletedCutOff(x))
  {
    var none: seq<Symbol> := [];
    if x == 'A' {
      RulesValues();
      var epsA := Application('A', [Epsilon]);
      DeriveFirst(none, 'A', none, [Epsilon], []);
      assert none + ['A'] + none == ['A'] && none + Body([Epsilon]) + none == [] && [epsA] + [] == [epsA];
    } else if x == 'B' || x == 'D' {
      DerivesViaDA(none, x, none);
      assert none + [x] == [x] && none + ['d'] == ['d'];
    } else if x == 'C' {
      DerivesAD();
    } else {
      assert x == 'S';
      DerivesStartD(none);
      assert none + ['d'] == CompletedCutOff(x);
    }
  }

  /** A production is the empty production or made of non-terminals and word symbols. */
  lemma ProductionShape(x: Symbol, p: Production)
    requires IsNonTerminal(x) && p in Productions(x)
    ensures p == [Epsilon] || forall i :: 0 <= i < |p| ==> IsNonTerminal(p[i]) || IsWordSymbol(p[i])
  {
    RulesValues();
  }

  /** The empty production generates nothing, at any depth. */
  lemma GenerateEmpty(cut: Symbol -> string, p: Production, depth: nat, maxDepth: nat, oracle: Oracle, n: nat)
    requires p == [Epsilon] && cut(Epsilon) == ""
    ensures GenerateAllWith(cut, p, depth, maxDepth, oracle, n).text == ""
  {
    var first := GenerateWith(cut, Epsilon, depth, maxDepth, oracle, n);
    assert first.text == "";
    assert p[0] == Epsilon && p[1..] == [];
  }

  /** Rewriting `x` by `p` and then deriving `w` from the body derives `w` from `x`. */
  lemma Expansion(x: Symbol, p: Production, w: seq<Symbol>, apps: seq<Application>)
    requires IsNonTerminal(x) && p in Productions(x) && Derive(Body(p), apps) == Some(w)
    ensures Derive([x], [Application(x, p)] + apps) == Some(w)
  {
    var none: seq<Symbol> := [];
    DeriveFirst(none, x, none, p, apps);
    assert none + [x] + none == [x] && none + Body(p) + none == Body(p);
  }

  /** With the completed cut-off, whatever a symbol of the grammar generates is a
      sentence it derives, for every depth, limit and sequence of draws; `apps` is the
      leftmost derivation. */
  lemma {:induction false} CompletedGeneratesLanguage(symbol: Symbol, depth: nat, maxDepth: nat, oracle: Oracle, n: nat)
    returns (apps: seq<Application>)
    requires IsNonTerminal(symbol) || IsWordSymbol(symbol)
    ensures var w := GenerateWith(CompletedCutOff, symbol, depth, maxDepth, oracle, n).text;
            IsSentence(w) && Derive([symbol], apps) == Some(w)
    decreases Budget(depth, maxDepth), 0, 1
  {
    var w := GenerateWith(CompletedCutOff, symbol, depth, maxDepth, oracle, n).text;
    if !IsNonTerminal(symbol) {
      assert w == [symbol];
      apps := [];
    } else if depth > maxDepth {
      CompletedCutOffDerives(symbol);
      apps :| Derive([symbol], apps) == Some(w);
    } else {
      apps := CompletedExpansion(symbol, depth, maxDepth, oracle, n);
    }
  }

  /** A non-terminal above the limit: its chosen production, generated one level deeper. */
  lemma {:induction false} CompletedExpansion(symbol: Symbol, depth: nat, maxDepth: nat, oracle: Oracle, n: nat)
    returns (apps: seq<Application>)
    requires IsNonTerminal(symbol) && depth <= maxDepth
    ensures var w := GenerateWith(CompletedCutOff, symbol, depth, maxDepth, oracle, n).text;
            IsSentence(w) && Derive([symbol], apps) == Some(w)
    decreases Budget(depth, maxDepth), 0, 0
  {
    var p := Choose(symbol, oracle(n));
    var w := GenerateAllWith(CompletedCutOff, p, depth + 1, maxDepth, oracle, n + 1).text;
    assert !IsTerminal(symbol);
    assert GenerateWith(CompletedCutOff, symbol, depth, maxDepth, oracle, n).text == w;
    ProductionShape(symbol, p);
    var rest: seq<Application>;
    if p == [Epsilon] {
      GenerateEmpty(CompletedCutOff, p, depth + 1, maxDepth, oracle, n + 1);
      rest := [];
      assert Derive(Body(p), rest) == Some(w);
    } else {
      rest := CompletedGeneratesAll(p, depth + 1, maxDepth, oracle, n + 1);
      assert p[0] != Epsilon;
    }
    apps := [Application(symbol, p)] + rest;
    Expansion(symbol, p, w, rest);
  }

  lemma {:induction false} CompletedGeneratesAll(syms: seq<Symbol>, depth: nat, maxDepth: nat, oracle: Oracle, n: nat)
    returns (apps: seq<Application>)
    requires forall i :: 0 <= i < |syms| ==> IsNonTerminal(syms[i]) || IsWordSymbol(syms[i])
    ensures var w := GenerateAllWith(CompletedCutOff, syms, depth, maxDepth, oracle, n).text;
            IsSentence(w) && Derive(syms, apps) == Some(w)
    decreases Budget(depth, maxDepth), 1, |syms|
  {
    if syms == [] {
      apps := [];
    } else {
      var first := GenerateWith(CompletedCutOff, syms[0], depth, maxDepth, oracle, n);
      var rest := GenerateAllWith(CompletedCutOff, syms[1..], depth, maxDepth, oracle, first.next);
      var a1 := CompletedGeneratesLanguage(syms[0], depth, maxDepth, oracle, n);
      var a2 := CompletedGeneratesAll(syms[1..], depth, maxDepth, oracle, first.next);
      DeriveConcat([syms[0]], a1, syms[1..], a2);
      assert [syms[0]] + syms[1..] == syms;
      apps := a1 + a2;
      assert IsSentence(first.text + rest.text);
    }
  }

  /** `generateSentence` with the completed cut-off. */
  function CompletedSentence(oracle: Oracle): string
  {
    GenerateWith(CompletedCutOff, StartSymbol, 0, DefaultMaxDepth, oracle, 0).text
  }

  /** Every sentence it produces belongs to the language of the grammar. */
  lemma CompletedSentenceInLanguage(oracle: Oracle)
    ensures InLanguage(StartSymbol, CompletedSentence(oracle))
  {
    var apps := CompletedGeneratesLanguage(StartSymbol, 0, DefaultMaxDepth, oracle, 0);
  }

}
