/**
 * Step-by-step generation (`generateInteractive`). The walk is the one
 * `generateFromSymbol` makes, from the start symbol with the default limit, but
 * nothing stands in for a symbol past the limit; alongside the sentence it keeps
 * the sentential form shown to the user and records one step each time a
 * non-terminal is rewritten in it. The form is searched for the FIRST occurrence
 * of the non-terminal being expanded, and past the limit only A is removed.
 */
module Interactive {

  import opened Wrappers
  import opened Grammar
  import opened Generator

  /** One recorded step: its number (from 1), the form after it, and the rewrite. */
  datatype DerivationStep = DerivationStep(step: nat, derivation: seq<Symbol>, nonTerminal: Symbol, production: Production)

  /** The walk's state: the sentence so far, the form shown, the steps, the next draw. */
  datatype Walk = Walk(sentence: string, derivation: seq<Symbol>, steps: seq<DerivationStep>, next: nat)

  /** `derivation.indexOf(x)`: the first position holding `x`. */
  function IndexOf(s: seq<Symbol>, x: Symbol): (r: Option<nat>)
    ensures r.None? <==> x !in s
    ensures r.Some? ==> r.value < |s| && s[r.value] == x && x !in s[..r.value]
  {
    if |s| == 0 then None
    else if s[0] == x then Some(0)
    else
      match IndexOf(s[1..], x)
      case None => None
      case Some(i) =>
        assert s[..i + 1] == [s[0]] + s[1..][..i];
        Some(i + 1)
  }

  /** Steps numbered 1, 2, … in order. */
  predicate StepsNumbered(steps: seq<DerivationStep>)
  {
    forall k :: 0 <= k < |steps| ==> steps[k].step == k + 1
  }

  /** Every step rewrites a non-terminal by one of its own productions. */
  predicate StepsValid(steps: seq<DerivationStep>)
  {
    forall k :: 0 <= k < |steps| ==> IsNonTerminal(steps[k].nonTerminal) && steps[k].production in Productions(steps[k].nonTerminal)
  }

  /** The last step shows the current form. */
  predicate ShowsCurrent(w: Walk)
  {
    |w.steps| > 0 ==> w.steps[|w.steps| - 1].derivation == w.derivation
  }

  /** The state the walk keeps: numbered, valid steps, the last showing the current form. */
  predicate WellKept(w: Walk)
  {
    StepsNumbered(w.steps) && StepsValid(w.steps) && ShowsCurrent(w)
  }

  /** Replacing the symbol at `i` by `body` trades that one symbol for the body's. */
  lemma Splice(d: seq<Symbol>, i: nat, body: seq<Symbol>)
    requires i < |d|
    ensures multiset(d[..i] + body + d[i + 1..]) == multiset(d) - multiset{d[i]} + multiset(body)
  {
    assert d == d[..i] + [d[i]] + d[i + 1..];
  }

  /** Appending a step numbered next, for a rule of the grammar, that shows the new form. */
  lemma Recorded(w: Walk, r: Walk, x: Symbol, production: Production)
    requires r.steps == w.steps + [DerivationStep(|w.steps| + 1, r.derivation, x, production)]
    ensures WellKept(w) && IsNonTerminal(x) && production in Productions(x) ==> WellKept(r)
  {
  }

  /** Replaces the first `x` of the form by `body` and records the step, when there is one. */
  function Rewritten(w: Walk, x: Symbol, body: seq<Symbol>, production: Production): (r: Walk)
    ensures r.sentence == w.sentence && r.next == w.next
    ensures x !in w.derivation ==> r == w
    ensures x in w.derivation ==>
              |r.steps| == |w.steps| + 1 && r.steps[..|w.steps|] == w.steps &&
              r.steps[|w.steps|] == DerivationStep(|w.steps| + 1, r.derivation, x, production) &&
              |r.derivation| == |w.derivation| - 1 + |body| &&
              multiset(r.derivation) == multiset(w.derivation) - multiset{x} + multiset(body)
    ensures WellKept(w) && IsNonTerminal(x) && production in Productions(x) ==> WellKept(r)
  {
    match IndexOf(w.derivation, x)
    case None => w
    case Some(i) =>
      var d := w.derivation[..i] + body + w.derivation[i + 1..];
      Splice(w.derivation, i, body);
      var r := w.(derivation := d, steps := w.steps + [DerivationStep(|w.steps| + 1, d, x, production)]);
      Recorded(w, r, x, production);
      r
  }

  /** The form is rewritten at the first occurrence of `x`: the symbols before it, then
      the body, then the symbols after it. */
  lemma RewritesFirstOccurrence(w: Walk, x: Symbol, body: seq<Symbol>, production: Production)
    requires x in w.derivation
    ensures exists i :: 0 <= i < |w.derivation| && w.derivation[i] == x && x !in w.derivation[..i] &&
                        Rewritten(w, x, body, production).derivation == w.derivation[..i] + body + w.derivation[i + 1..]
  {
    var i := IndexOf(w.derivation, x).value;
    assert Rewritten(w, x, body, production).derivation == w.derivation[..i] + body + w.derivation[i + 1..];
  }

  /** The step recorded when A is removed past the limit, `A -> ε`, is a rule of the grammar. */
  lemma EmptyProductionOfA()
    ensures IsNonTerminal('A') && [Epsilon] in Productions('A')
  {
    RulesValues();
  }

  /** Past the limit: an A is removed from the form, as the step `A -> ε`. */
  function CutOff(symbol: Symbol, w: Walk): (r: Walk)
    ensures r.next == w.next && r.sentence == w.sentence && w.steps <= r.steps
    ensures symbol != 'A' ==> r == w
    ensures WellKept(w) ==> WellKept(r)
  {
    if symbol == 'A' then
      EmptyProductionOfA();
      Rewritten(w, 'A', [], [Epsilon])
    else w
  }

  /** A terminal above the limit is appended to the sentence. */
  function Emit(symbol: Symbol, w: Walk): (r: Walk)
    ensures r.next == w.next && r.steps == w.steps && r.derivation == w.derivation
    ensures r.sentence == w.sentence + (if symbol == Epsilon then "" else [symbol])
    ensures WellKept(w) ==> WellKept(r)
  {
    w.(sentence := w.sentence + if symbol == Epsilon then "" else [symbol])
  }

  /**
   * `generateStep(symbol)` at `depth`. Past the limit, an A is removed from the
   * form and recorded as `A -> ε`, and nothing is generated for any symbol. Above
   * it a terminal is appended to the sentence, and a non-terminal is rewritten by
   * the drawn production (kept in the form as it is, ε included) whose symbols
   * are then walked one level deeper. Steps are only ever added.
   */
  function GenerateStep(symbol: Symbol, depth: nat, maxDepth: nat, oracle: Oracle, w: Walk): (r: Walk)
    ensures r.next >= w.next && w.sentence <= r.sentence && w.steps <= r.steps
    ensures WellKept(w) ==> WellKept(r)
    decreases Budget(depth, maxDepth), 0, 1
  {
    if depth > maxDepth then CutOff(symbol, w)
    else if IsTerminal(symbol) then Emit(symbol, w)
    else if IsNonTerminal(symbol) then Expansion(symbol, depth, maxDepth, oracle, w)
    else w
  }

  /** A non-terminal above the limit: the drawn production is recorded in the form and
      its symbols are walked one level deeper. */
  function Expansion(symbol: Symbol, depth: nat, maxDepth: nat, oracle: Oracle, w: Walk): (r: Walk)
    requires depth <= maxDepth && IsNonTerminal(symbol)
    ensures r.next > w.next && w.sentence <= r.sentence && w.steps <= r.steps
    ensures WellKept(w) ==> WellKept(r)
    decreases Budget(depth, maxDepth), 0, 0
  {
    var p := Choose(symbol, oracle(w.next));
    var shown := Rewritten(w.(next := w.next + 1), symbol, p, p);
    GenerateStepsOf(p, depth + 1, maxDepth, oracle, shown)
  }

  /** The `for` loop over a production's symbols. */
  function GenerateStepsOf(syms: seq<Symbol>, depth: nat, maxDepth: nat, oracle: Oracle, w: Walk): (r: Walk)
    ensures r.next >= w.next && w.sentence <= r.sentence && w.steps <= r.steps
    ensures WellKept(w) ==> WellKept(r)
    decreases Budget(depth, maxDepth), 1, |syms|
  {
    if syms == [] then w
    else GenerateStepsOf(syms[1..], depth, maxDepth, oracle, GenerateStep(syms[0], depth, maxDepth, oracle, w))
  }

  /** What `generateInteractive()` returns. */
  datatype InteractiveResult = InteractiveResult(sentence: string, steps: seq<DerivationStep>)

  /** `generateInteractive()`: the walk from S at depth 0, with the default limit. */
  function GenerateInteractive(oracle: Oracle): (r: InteractiveResult)
    ensures StepsNumbered(r.steps) && StepsValid(r.steps)
  {
    var start := Walk("", [StartSymbol], [], 0);
    assert WellKept(start);
    var w := GenerateStep(StartSymbol, 0, DefaultMaxDepth, oracle, start);
    assert StepsNumbered(w.steps) && StepsValid(w.steps) by { assert WellKept(w); }
    InteractiveResult(w.sentence, w.steps)
  }

  /** Nothing stands in for a symbol past the limit. */
  function NoCutOff(x: Symbol): string
  {
    ""
  }

  /** Above the limit, a non-terminal's step is its expansion. */
  lemma StepExpands(symbol: Symbol, depth: nat, maxDepth: nat, oracle: Oracle, w: Walk)
    requires depth <= maxDepth && IsNonTerminal(symbol)
    ensures GenerateStep(symbol, depth, maxDepth, oracle, w) == Expansion(symbol, depth, maxDepth, oracle, w)
  {
    ClassificationPartition(symbol);
  }

  /** The expansion rewrites the form by the drawn production, then walks its symbols. */
  lemma ExpansionUnfolds(symbol: Symbol, depth: nat, maxDepth: nat, oracle: Oracle, w: Walk)
    requires depth <= maxDepth && IsNonTerminal(symbol)
    ensures var p := Choose(symbol, oracle(w.next));
            Expansion(symbol, depth, maxDepth, oracle, w) ==
            GenerateStepsOf(p, depth + 1, maxDepth, oracle, Rewritten(w.(next := w.next + 1), symbol, p, p))
  {
  }

  /** The walk appends to the sentence exactly what `generateFromSymbol` with an empty
      cut-off generates, and uses the same draws. */
  lemma {:induction false} StepSentence(symbol: Symbol, depth: nat, maxDepth: nat, oracle: Oracle, w: Walk)
    ensures var g := GenerateWith(NoCutOff, symbol, depth, maxDepth, oracle, w.next);
            var r := GenerateStep(symbol, depth, maxDepth, oracle, w);
            r.sentence == w.sentence + g.text && r.next == g.next
    decreases Budget(depth, maxDepth), 0, 1
  {
    if depth > maxDepth {
      assert GenerateStep(symbol, depth, maxDepth, oracle, w) == CutOff(symbol, w);
    } else if IsTerminal(symbol) {
      assert GenerateStep(symbol, depth, maxDepth, oracle, w) == Emit(symbol, w);
    } else if IsNonTerminal(symbol) {
      ExpansionSentence(symbol, depth, maxDepth, oracle, w);
    } else {
      assert GenerateStep(symbol, depth, maxDepth, oracle, w) == w;
    }
  }

  /** The case of a non-terminal above the limit. */
  lemma {:induction false} ExpansionSentence(symbol: Symbol, depth: nat, maxDepth: nat, oracle: Oracle, w: Walk)
    requires depth <= maxDepth && IsNonTerminal(symbol)
    ensures var g := GenerateWith(NoCutOff, symbol, depth, maxDepth, oracle, w.next);
            var r := GenerateStep(symbol, depth, maxDepth, oracle, w);
            r.sentence == w.sentence + g.text && r.next == g.next
    decreases Budget(depth, maxDepth), 0, 0
  {
    var p := Choose(symbol, oracle(w.next));
    var shown := Rewritten(w.(next := w.next + 1), symbol, p, p);
    StepExpands(symbol, depth, maxDepth, oracle, w);
    ExpansionUnfolds(symbol, depth, maxDepth, oracle, w);
    assert GenerateWith(NoCutOff, symbol, depth, maxDepth, oracle, w.next) ==
           GenerateAllWith(NoCutOff, p, depth + 1, maxDepth, oracle, w.next + 1) by {
      ClassificationPartition(symbol);
    }
    StepsSentence(p, depth + 1, maxDepth, oracle, shown);
  }

  lemma {:induction false} StepsSentence(syms: seq<Symbol>, depth: nat, maxDepth: nat, oracle: Oracle, w: Walk)
    ensures var g := GenerateAllWith(NoCutOff, syms, depth, maxDepth, oracle, w.next);
            var r := GenerateStepsOf(syms, depth, maxDepth, oracle, w);
            r.sentence == w.sentence + g.text && r.next == g.next
    decreases Budget(depth, maxDepth), 1, |syms|
  {
    if syms != [] {
      var first := GenerateStep(syms[0], depth, maxDepth, oracle, w);
      var g1 := GenerateWith(NoCutOff, syms[0], depth, maxDepth, oracle, w.next);
      var g2 := GenerateAllWith(NoCutOff, syms[1..], depth, maxDepth, oracle, g1.next);
      var rest := GenerateStepsOf(syms[1..], depth, maxDepth, oracle, first);
      assert first.sentence == w.sentence + g1.text && first.next == g1.next by {
        StepSentence(syms[0], depth, maxDepth, oracle, w);
      }
      assert rest.sentence == first.sentence + g2.text && rest.next == g2.next by {
        StepsSentence(syms[1..], depth, maxDepth, oracle, first);
      }
      assert w.sentence + g1.text + g2.text == w.sentence + (g1.text + g2.text);
    }
  }

  /** The interactive sentence is what `generateFromSymbol` with an empty cut-off
      produces from S under the same draws, so it is a string over a, b, c and d. */
  lemma InteractiveSentence(oracle: Oracle)
    ensures GenerateInteractive(oracle).sentence == GenerateWith(NoCutOff, StartSymbol, 0, DefaultMaxDepth, oracle, 0).text
    ensures IsWord(GenerateInteractive(oracle).sentence)
  {
    StepSentence(StartSymbol, 0, DefaultMaxDepth, oracle, Walk("", [StartSymbol], [], 0));
    assert CutOffWords(NoCutOff) by {
      forall x ensures IsWord(NoCutOff(x)) {
      }
    }
    GenerateWithWord(NoCutOff, StartSymbol, 0, DefaultMaxDepth, oracle, 0);
  }

}
