/**
 * The table-driven predictive analyzer (`PredictiveParser.analyze`).
 *
 * The input string loses its white-space characters and gains the end-marker;
 * the stack starts as `$ S` (bottom first). Each step looks at the top of the
 * stack: a terminal must equal the current token (the end-marker accepts, any
 * other terminal is popped and the input advances); a non-terminal is replaced
 * by the table's production for the current token, pushed right to left, the
 * empty production pushing nothing; anything else is an unknown symbol. Every
 * step appends one line to the trace.
 */
module Analyzer {

  import opened Wrappers
  import opened Grammar
  import opened FollowSets
  import opened ParsingTable
  import opened Derivation

  // Tokens.

  /** The characters `String.prototype.trim` removes: ECMAScript white space and line
      terminators. */
  predicate IsWhitespace(c: char)
  {
    c == '\t' || c == '\n' || c == '\U{000B}' || c == '\U{000C}' || c == '\r' || c == ' ' ||
    c == '\U{00A0}' || c == '\U{1680}' || ('\U{2000}' <= c <= '\U{200A}') ||
    c == '\U{2028}' || c == '\U{2029}' || c == '\U{202F}' || c == '\U{205F}' ||
    c == '\U{3000}' || c == '\U{FEFF}'
  }

  /** The characters of `input` that are not white space, in order. */
  function NonBlank(input: string): (r: seq<Symbol>)
    ensures |r| <= |input|
    ensures forall i :: 0 <= i < |r| ==> !IsWhitespace(r[i]) && r[i] in input
  {
    if input == [] then []
    else if IsWhitespace(input[0]) then NonBlank(input[1..])
    else [input[0]] + NonBlank(input[1..])
  }

  /** Splitting the input anywhere and filtering the parts gives the same tokens. */
  lemma {:induction false} NonBlankAppend(a: string, b: string)
    ensures NonBlank(a + b) == NonBlank(a) + NonBlank(b)
  {
    if a == [] {
      assert a + b == b;
    } else {
      var ab := a + b;
      assert ab[0] == a[0] && ab[1..] == a[1..] + b;
      NonBlankAppend(a[1..], b);
      if IsWhitespace(a[0]) {
        assert NonBlank(ab) == NonBlank(a[1..] + b);
      } else {
        assert NonBlank(ab) == [a[0]] + NonBlank(a[1..] + b);
      }
    }
  }

  /** Input without white space is kept whole; input of white space only vanishes. */
  lemma {:induction false} NonBlankExtremes(input: string)
    ensures (forall i :: 0 <= i < |input| ==> !IsWhitespace(input[i])) ==> NonBlank(input) == input
    ensures (forall i :: 0 <= i < |input| ==> IsWhitespace(input[i])) ==> NonBlank(input) == []
  {
    if input != [] {
      NonBlankExtremes(input[1..]);
      assert input == [input[0]] + input[1..];
    }
  }

  /** The token list: the non-blank characters followed by the end-marker. */
  function Tokenize(input: string): (r: seq<Symbol>)
    ensures |r| > 0 && r[|r| - 1] == EndMarker
    ensures forall i :: 0 <= i < |r| - 1 ==> !IsWhitespace(r[i]) && r[i] in input
  {
    NonBlank(input) + [EndMarker]
  }

  /** The tokens before the first end-marker: the part of the input the analyzer reads
      when it accepts. */
  function UntilEnd(tokens: seq<Symbol>): (r: seq<Symbol>)
    ensures EndMarker !in r
  {
    if tokens == [] then []
    else if tokens[0] == EndMarker then []
    else [tokens[0]] + UntilEnd(tokens[1..])
  }

  lemma {:induction false} UntilEndAt(tokens: seq<Symbol>, k: nat)
    requires k < |tokens| && tokens[k] == EndMarker && EndMarker !in tokens[..k]
    ensures UntilEnd(tokens) == tokens[..k]
  {
    if k > 0 {
      assert tokens[0] == tokens[..k][0];
      assert tokens[1..][..k - 1] == tokens[1..k];
      assert forall x :: x in tokens[1..k] ==> x in tokens[..k];
      UntilEndAt(tokens[1..], k - 1);
      assert tokens[..k] == [tokens[0]] + tokens[1..k];
    }
  }

  // The trace and the result.

  /** What a step did. */
  datatype Action =
    | Init
    | Accept
    | Match(terminal: Symbol)
    | Apply(nonTerminal: Symbol, production: Production)
    | ExpectedButFound(expected: Symbol, found: Symbol)
    | NoEntry(nonTerminal: Symbol, found: Symbol)
    | UnknownTop(symbol: Symbol)

  /** One line of the trace: the step number, the stack top first, the unread input. */
  datatype TraceStep = TraceStep(step: nat, stack: seq<Symbol>, input: seq<Symbol>, action: Action)

  datatype ParseError =
    | Mismatch(position: nat, expected: Symbol, found: Symbol)
    | NoProduction(position: nat, nonTerminal: Symbol, found: Symbol)
    | UnknownSymbol(symbol: Symbol)
    | EmptyStack

  datatype ParseResult = ParseResult(accepted: bool, trace: seq<TraceStep>, steps: nat, error: Option<ParseError>)

  /** `addTraceStep`: the stack shown from the top down and the input from the current
      token on. */
  function Record(step: nat, stack: seq<Symbol>, tokens: seq<Symbol>, idx: nat, action: Action): (r: TraceStep)
    requires idx <= |tokens|
    ensures r.step == step && r.action == action
    ensures |r.stack| == |stack| && (|stack| > 0 ==> r.stack[0] == stack[|stack| - 1])
    ensures forall i :: 0 <= i < |stack| ==> r.stack[i] == stack[|stack| - 1 - i]
    ensures |r.input| == |tokens| - idx && (idx < |tokens| ==> r.input[0] == tokens[idx])
    ensures r.input == tokens[idx..]
  {
    TraceStep(step, Reverse(stack), tokens[idx..], action)
  }

  /** Every line carries its own position as step number. */
  predicate StepsNumbered(trace: seq<TraceStep>)
  {
    forall i :: 0 <= i < |trace| ==> trace[i].step == i
  }

  /** The last line of the trace reports the outcome. */
  predicate Reports(r: ParseResult)
  {
    |r.trace| > 0 &&
    var last := r.trace[|r.trace| - 1].action;
    match r.error
    case None => last == Accept
    case Some(Mismatch(_, expected, found)) => last == ExpectedButFound(expected, found)
    case Some(NoProduction(_, x, found)) => last == NoEntry(x, found)
    case Some(UnknownSymbol(s)) => last == UnknownTop(s)
    case Some(EmptyStack) => true
  }

  // The stack.

  /** The table's production for non-terminal `x` and token `t`; none when the token
      has no column. */
  function Lookup(table: Table, x: Symbol, t: Symbol): (r: Option<Production>)
    requires x in table && WellFormedTable(table)
    ensures r.Some? ==> r.value in Productions(x)
  {
    if t in table[x] then table[x][t] else None
  }

  /** The stack (bottom first) after the top non-terminal, already popped off `rest`, is
      replaced by `p`: the production's symbols are pushed from last to first, so its
      first symbol ends on top; a production led by the empty-string marker pushes
      nothing. */
  function Expand(rest: seq<Symbol>, p: Production): seq<Symbol>
  {
    if |p| > 0 && p[0] == Epsilon then rest else rest + Reverse(p)
  }

  lemma ExpandShowsBody(rest: seq<Symbol>, p: Production)
    requires |rest| > 0
    ensures Expand(rest, p)[..|rest|] == rest
    ensures Reverse(Expand(rest, p)[1..]) == Body(p) + Reverse(rest[1..])
  {
    var e := Expand(rest, p);
    assert e == rest + Reverse(Body(p));
    assert e[1..] == rest[1..] + Reverse(Body(p));
    ReverseAppend(rest[1..], Reverse(Body(p)));
    assert Reverse(Reverse(Body(p))) == Body(p);
  }

  /** The ranks of the non-terminals on top of the stack, down to the first symbol that
      is not one. A step that expands a non-terminal lowers it. */
  function Pot(stack: seq<Symbol>): nat
  {
    if |stack| == 0 then 0
    else if IsNonTerminal(stack[|stack| - 1]) then Rank(stack[|stack| - 1]) + Pot(stack[..|stack| - 1])
    else 0
  }

  lemma PotExpand(rest: seq<Symbol>, x: Symbol, p: Production)
    requires IsNonTerminal(x) && p in Productions(x)
    ensures Pot(Expand(rest, p)) < Rank(x) + Pot(rest)
  {
    RulesValues();
    if p == ['A', 'B'] {
      var e := rest + ['B', 'A'];
      assert Expand(rest, p) == e;
      assert e[..|e| - 1] == rest + ['B'];
      assert (rest + ['B'])[..|rest|] == rest;
    } else if p != [Epsilon] {
      assert Expand(rest, p)[|Expand(rest, p)| - 1] == p[0];
    }
  }

  // The loop.

  /**
   * The analyzer's loop from stack `stack` (bottom first) at token `idx`, with `steps`
   * steps taken and `trace` recorded. Each iteration counts a step and adds one trace
   * line; the loop stops at acceptance, at the first error, or when the stack is empty.
   */
  function Run(table: Table, tokens: seq<Symbol>, stack: seq<Symbol>, idx: nat, steps: nat,
               trace: seq<TraceStep>): (r: ParseResult)
    requires NonTerminalSet <= table.Keys && WellFormedTable(table)
    requires |tokens| > 0 && tokens[|tokens| - 1] == EndMarker && idx < |tokens|
    ensures r.steps >= steps && (|stack| > 0 ==> r.steps > steps)
    ensures trace <= r.trace && |r.trace| - |trace| == r.steps - steps
    ensures |trace| == steps + 1 && StepsNumbered(trace) ==> StepsNumbered(r.trace)
    ensures r.accepted <==> r.error.None?
    ensures r.error != Some(EmptyStack) ==> Reports(r)
    ensures r.error.Some? && r.error.value.Mismatch? ==>
              var e := r.error.value;
              e.position < |tokens| && tokens[e.position] == e.found && e.expected != e.found &&
              IsTerminal(e.expected)
    ensures r.error.Some? && r.error.value.NoProduction? ==>
              var e := r.error.value;
              e.position < |tokens| && tokens[e.position] == e.found && IsNonTerminal(e.nonTerminal) &&
              Lookup(table, e.nonTerminal, e.found) == None
    decreases |tokens| - idx, Pot(stack)
  {
    if |stack| == 0 then ParseResult(false, trace, steps, Some(EmptyStack))
    else
      var n := steps + 1;
      var top := stack[|stack| - 1];
      var rest := stack[..|stack| - 1];
      var current := tokens[idx];
      if IsTerminal(top) then
        if top == current then
          if top == EndMarker then
            ParseResult(true, trace + [Record(n, stack, tokens, idx, Accept)], n, None)
          else
            Run(table, tokens, rest, idx + 1, n, trace + [Record(n, rest, tokens, idx + 1, Match(top))])
        else
          ParseResult(false, trace + [Record(n, stack, tokens, idx, ExpectedButFound(top, current))], n,
                      Some(Mismatch(idx, top, current)))
      else if IsNonTerminal(top) then
        match Lookup(table, top, current)
        case None =>
          ParseResult(false, trace + [Record(n, stack, tokens, idx, NoEntry(top, current))], n,
                      Some(NoProduction(idx, top, current)))
        case Some(p) =>
          PotExpand(rest, top, p);
          var next := Expand(rest, p);
          Run(table, tokens, next, idx, n, trace + [Record(n, next, tokens, idx, Apply(top, p))])
      else
        ParseResult(false, trace + [Record(n, stack, tokens, idx, UnknownTop(top))], n, Some(UnknownSymbol(top)))
  }

  /** `analyze(input)` with the analyzer's table. */
  function Analyze(table: Table, input: string): (r: ParseResult)
    requires NonTerminalSet <= table.Keys && WellFormedTable(table)
    ensures r.steps >= 1 && |r.trace| == r.steps + 1 && StepsNumbered(r.trace)
    ensures r.trace[0].action == Init && r.trace[0].input == Tokenize(input)
    ensures r.accepted <==> r.error.None?
    ensures r.error != Some(EmptyStack) ==> Reports(r)
    ensures r.trace[0].stack == [StartSymbol, EndMarker]
    ensures r.error.Some? && r.error.value.Mismatch? ==>
              var e := r.error.value;
              e.position < |Tokenize(input)| && Tokenize(input)[e.position] == e.found &&
              e.expected != e.found && IsTerminal(e.expected)
    ensures r.error.Some? && r.error.value.NoProduction? ==>
              var e := r.error.value;
              e.position < |Tokenize(input)| && Tokenize(input)[e.position] == e.found &&
              IsNonTerminal(e.nonTerminal) && Lookup(table, e.nonTerminal, e.found) == None
  {
    var tokens := Tokenize(input);
    var stack := [EndMarker, StartSymbol];
    Run(table, tokens, stack, 0, 0, [Record(0, stack, tokens, 0, Init)])
  }

  // What an accepting run means.

  /** The productions the trace applied, in order. */
  function Applications(trace: seq<TraceStep>): (r: seq<Application>)
    ensures |r| <= |trace|
  {
    if trace == [] then []
    else
      var last := trace[|trace| - 1].action;
      Applications(trace[..|trace| - 1]) +
        (if last.Apply? then [Application(last.nonTerminal, last.production)] else [])
  }

  /** A symbol a production can put on the stack. */
  predicate StackSymbol(s: Symbol)
  {
    s in NonTerminalSet || (s in TerminalSet && s != EndMarker)
  }

  lemma ProductionSymbols(x: Symbol, p: Production)
    requires IsNonTerminal(x) && p in Productions(x)
    ensures forall i :: 0 <= i < |Body(p)| ==> StackSymbol(Body(p)[i])
  {
    RulesValues();
  }

  /**
   * The loop's invariant: the end-marker sits alone at the bottom of the stack, the
   * tokens matched so far are terminals other than the end-marker, and the trace's
   * productions, applied leftmost from the start symbol, derive the matched tokens
   * followed by the stack read from the top down.
   */
  ghost predicate Consistent(tokens: seq<Symbol>, stack: seq<Symbol>, idx: nat, trace: seq<TraceStep>)
  {
    |stack| > 0 && stack[0] == EndMarker &&
    (forall i :: 1 <= i < |stack| ==> StackSymbol(stack[i])) &&
    idx <= |tokens| && IsSentence(tokens[..idx]) && EndMarker !in tokens[..idx] &&
    Derive([StartSymbol], Applications(trace)) == Some(tokens[..idx] + Reverse(stack[1..]))
  }

  /** Moving the matched top of the stack to the end of the matched tokens keeps the form. */
  lemma MatchKeepsForm(tokens: seq<Symbol>, stack: seq<Symbol>, idx: nat)
    requires idx < |tokens| && |stack| > 1 && stack[|stack| - 1] == tokens[idx]
    ensures tokens[..idx + 1] + Reverse(stack[..|stack| - 1][1..]) == tokens[..idx] + Reverse(stack[1..])
  {
    var rest := stack[..|stack| - 1];
    var top := stack[|stack| - 1];
    assert stack[1..] == rest[1..] + [top];
    ReverseAppend(rest[1..], [top]);
    assert tokens[..idx + 1] == tokens[..idx] + [top];
  }

  /** The matched tokens stay a sentence free of the end-marker. */
  lemma MatchKeepsTokens(tokens: seq<Symbol>, idx: nat)
    requires idx < |tokens| && IsSentence(tokens[..idx]) && EndMarker !in tokens[..idx]
    requires IsTerminal(tokens[idx]) && tokens[idx] != EndMarker
    ensures IsSentence(tokens[..idx + 1]) && EndMarker !in tokens[..idx + 1]
  {
    assert tokens[..idx + 1] == tokens[..idx] + [tokens[idx]];
    ClassificationPartition(tokens[idx]);
  }

  lemma ConsistentAfterMatch(tokens: seq<Symbol>, stack: seq<Symbol>, idx: nat, trace: seq<TraceStep>, line: TraceStep)
    requires Consistent(tokens, stack, idx, trace) && idx < |tokens|
    requires |stack| > 1 && stack[|stack| - 1] == tokens[idx] && IsTerminal(tokens[idx]) && tokens[idx] != EndMarker
    requires !line.action.Apply?
    ensures Consistent(tokens, stack[..|stack| - 1], idx + 1, trace + [line])
  {
    var rest := stack[..|stack| - 1];
    ApplicationsSnoc(trace, line);
    assert Applications(trace + [line]) == Applications(trace);
    MatchKeepsForm(tokens, stack, idx);
    MatchKeepsTokens(tokens, idx);
    assert forall i :: 1 <= i < |rest| ==> rest[i] == stack[i];
  }

  lemma ExpandedStackSymbols(rest: seq<Symbol>, x: Symbol, p: Production)
    requires |rest| > 0 && forall i :: 1 <= i < |rest| ==> StackSymbol(rest[i])
    requires IsNonTerminal(x) && p in Productions(x)
    ensures forall i :: 1 <= i < |Expand(rest, p)| ==> StackSymbol(Expand(rest, p)[i])
  {
    var next := Expand(rest, p);
    ProductionSymbols(x, p);
    assert next == rest + Reverse(Body(p));
    forall i | 1 <= i < |next|
      ensures StackSymbol(next[i])
    {
      if i >= |rest| {
        assert next[i] == Body(p)[|Body(p)| - 1 - (i - |rest|)];
      }
    }
  }

  lemma ApplicationsSnoc(trace: seq<TraceStep>, line: TraceStep)
    ensures Applications(trace + [line]) == Applications(trace) +
              (if line.action.Apply? then [Application(line.action.nonTerminal, line.action.production)] else [])
  {
    assert (trace + [line])[..|trace|] == trace;
  }

  /** The stack after an expansion, read from the top down below the end-marker. */
  lemma ExpandedForm(stack: seq<Symbol>, u: seq<Symbol>, p: Production)
    requires |stack| > 1
    ensures var rest := stack[..|stack| - 1];
            u + Reverse(stack[1..]) == u + [stack[|stack| - 1]] + Reverse(rest[1..]) &&
            u + Reverse(Expand(rest, p)[1..]) == u + Body(p) + Reverse(rest[1..])
  {
    var rest := stack[..|stack| - 1];
    var top := stack[|stack| - 1];
    assert stack[1..] == rest[1..] + [top];
    ReverseAppend(rest[1..], [top]);
    ExpandShowsBody(rest, p);
  }

  lemma ConsistentAfterApply(tokens: seq<Symbol>, stack: seq<Symbol>, idx: nat, trace: seq<TraceStep>,
                             p: Production, line: TraceStep)
    requires Consistent(tokens, stack, idx, trace)
    requires |stack| > 1 && IsNonTerminal(stack[|stack| - 1]) && p in Productions(stack[|stack| - 1])
    requires line.action == Apply(stack[|stack| - 1], p)
    ensures Consistent(tokens, Expand(stack[..|stack| - 1], p), idx, trace + [line])
  {
    var rest := stack[..|stack| - 1];
    var top := stack[|stack| - 1];
    var u := tokens[..idx];
    ApplicationsSnoc(trace, line);
    ExpandedForm(stack, u, p);
    DeriveStep([StartSymbol], Applications(trace), u, top, Reverse(rest[1..]), p);
    ExpandShowsBody(rest, p);
    assert forall i :: 1 <= i < |rest| ==> rest[i] == stack[i];
    ExpandedStackSymbols(rest, top, p);
  }

  lemma ConsistentAtAccept(tokens: seq<Symbol>, stack: seq<Symbol>, idx: nat, trace: seq<TraceStep>, line: TraceStep)
    requires Consistent(tokens, stack, idx, trace) && idx < |tokens|
    requires stack[|stack| - 1] == EndMarker && tokens[idx] == EndMarker && line.action == Accept
    ensures Derive([StartSymbol], Applications(trace + [line])) == Some(UntilEnd(tokens))
    ensures IsSentence(UntilEnd(tokens))
  {
    ApplicationsSnoc(trace, line);
    assert Applications(trace + [line]) == Applications(trace) + [];
    EndMarkerAlone(stack);
    assert tokens[..idx] + Reverse(stack[1..]) == tokens[..idx];
    UntilEndAt(tokens, idx);
    assert Derive([StartSymbol], Applications(trace)) == Some(tokens[..idx]);
    assert Applications(trace + [line]) == Applications(trace);
  }

  lemma EndMarkerAlone(stack: seq<Symbol>)
    requires |stack| > 0 && forall i :: 1 <= i < |stack| ==> StackSymbol(stack[i])
    requires stack[|stack| - 1] == EndMarker
    ensures stack[1..] == [] && Reverse(stack[1..]) == []
  {
    assert !StackSymbol(EndMarker);
  }

  /** From a consistent configuration the loop neither empties the stack nor meets an
      unknown symbol, and when it accepts, the trace's productions derive exactly the
      tokens before the first end-marker, leftmost. */
  lemma {:induction false} RunSound(table: Table, tokens: seq<Symbol>, stack: seq<Symbol>, idx: nat, steps: nat,
                                    trace: seq<TraceStep>)
    requires NonTerminalSet <= table.Keys && WellFormedTable(table)
    requires |tokens| > 0 && tokens[|tokens| - 1] == EndMarker && idx < |tokens|
    requires Consistent(tokens, stack, idx, trace)
    ensures var r := Run(table, tokens, stack, idx, steps, trace);
            r.error != Some(EmptyStack) && (r.error.Some? ==> !r.error.value.UnknownSymbol?)
    ensures var r := Run(table, tokens, stack, idx, steps, trace);
            r.accepted ==> Derive([StartSymbol], Applications(r.trace)) == Some(UntilEnd(tokens)) &&
                           IsSentence(UntilEnd(tokens))
    decreases |tokens| - idx, Pot(stack)
  {
    var n := steps + 1;
    var top := stack[|stack| - 1];
    var rest := stack[..|stack| - 1];
    var current := tokens[idx];
    if |stack| == 1 {
      assert top == EndMarker;
    } else {
      assert StackSymbol(top);
    }
    if IsTerminal(top) && top == current && top != EndMarker {
      var line := Record(n, rest, tokens, idx + 1, Match(top));
      ConsistentAfterMatch(tokens, stack, idx, trace, line);
      RunSound(table, tokens, rest, idx + 1, n, trace + [line]);
    } else if IsNonTerminal(top) && Lookup(table, top, current).Some? {
      var p := Lookup(table, top, current).value;
      PotExpand(rest, top, p);
      var next := Expand(rest, p);
      var line := Record(n, next, tokens, idx, Apply(top, p));
      ConsistentAfterApply(tokens, stack, idx, trace, p, line);
      RunSound(table, tokens, next, idx, n, trace + [line]);
    } else if IsTerminal(top) && top == current {
      ConsistentAtAccept(tokens, stack, idx, trace, Record(n, stack, tokens, idx, Accept));
    }
  }

  lemma InitiallyConsistent(tokens: seq<Symbol>)
    requires |tokens| > 0
    ensures var stack := [EndMarker, StartSymbol];
            Consistent(tokens, stack, 0, [Record(0, stack, tokens, 0, Init)])
  {
    var stack := [EndMarker, StartSymbol];
    var init := [Record(0, stack, tokens, 0, Init)];
    assert init[..0] == [];
    assert Applications(init) == [];
    assert tokens[..0] == [] && stack[1..] == [StartSymbol];
    assert Reverse(stack[1..]) == [StartSymbol];
  }

  /** The analyzer with any well-formed table never reports an empty stack or an unknown
      symbol, and an accepted input's tokens up to the first end-marker are a sentence of
      the grammar, derived leftmost by the productions the trace applied. */
  lemma AnalyzeSound(table: Table, input: string)
    requires NonTerminalSet <= table.Keys && WellFormedTable(table)
    ensures var r := Analyze(table, input);
            r.error != Some(EmptyStack) && (r.error.Some? ==> !r.error.value.UnknownSymbol?)
    ensures var r := Analyze(table, input);
            r.accepted ==> Derive([StartSymbol], Applications(r.trace)) == Some(UntilEnd(Tokenize(input)))
    ensures Analyze(table, input).accepted ==> InLanguage(StartSymbol, UntilEnd(Tokenize(input)))
  {
    var tokens := Tokenize(input);
    InitiallyConsistent(tokens);
    RunSound(table, tokens, [EndMarker, StartSymbol], 0, 0, [Record(0, [EndMarker, StartSymbol], tokens, 0, Init)]);
  }

  /** In particular for the table `createParsingTable` builds. */
  lemma ParserSound(prior: Cache, input: string)
    ensures Analyze(CreateParsingTable(prior), input).accepted ==> InLanguage(StartSymbol, UntilEnd(Tokenize(input)))
  {
    AnalyzeSound(CreateParsingTable(prior), input);
  }

  // Runs on the fixed grammar's table.

  lemma GrammarTableCell(table: Table, a: Symbol, t: Symbol)
    requires IsGrammarTable(table) && a in NonTerminalSet && t in TerminalSet
    ensures a in table && Lookup(table, a, t) == ExpectedCell(a, t)
  {
  }

  /** One expansion step of the loop. */
  lemma RunApplies(table: Table, tokens: seq<Symbol>, stack: seq<Symbol>, idx: nat, steps: nat,
                   trace: seq<TraceStep>, p: Production)
    requires NonTerminalSet <= table.Keys && WellFormedTable(table)
    requires |tokens| > 0 && tokens[|tokens| - 1] == EndMarker && idx < |tokens|
    requires |stack| > 0 && IsNonTerminal(stack[|stack| - 1])
    requires Lookup(table, stack[|stack| - 1], tokens[idx]) == Some(p)
    ensures var next := Expand(stack[..|stack| - 1], p);
            Run(table, tokens, stack, idx, steps, trace) ==
            Run(table, tokens, next, idx, steps + 1,
                trace + [Record(steps + 1, next, tokens, idx, Apply(stack[|stack| - 1], p))])
  {
    assert !IsTerminal(stack[|stack| - 1]);
  }

  /** One matching step of the loop. */
  lemma RunMatches(table: Table, tokens: seq<Symbol>, stack: seq<Symbol>, idx: nat, steps: nat,
                   trace: seq<TraceStep>)
    requires NonTerminalSet <= table.Keys && WellFormedTable(table)
    requires |tokens| > 0 && tokens[|tokens| - 1] == EndMarker && idx < |tokens|
    requires |stack| > 0 && IsTerminal(stack[|stack| - 1]) && stack[|stack| - 1] == tokens[idx] != EndMarker
    ensures var rest := stack[..|stack| - 1];
            Run(table, tokens, stack, idx, steps, trace) ==
            Run(table, tokens, rest, idx + 1, steps + 1,
                trace + [Record(steps + 1, rest, tokens, idx + 1, Match(tokens[idx]))])
  {
  }

  /** The trace lines of the four steps that read a leading `d`. */
  function ReadDLines(tokens: seq<Symbol>, steps: nat): seq<TraceStep>
    requires |tokens| >= 2
  {
    [Record(steps + 1, ['$', 'B', 'A'], tokens, 0, Apply('S', ['A', 'B'])),
     Record(steps + 2, ['$', 'B'], tokens, 0, Apply('A', [Epsilon])),
     Record(steps + 3, ['$', 'A', 'd'], tokens, 0, Apply('B', ['d', 'A'])),
     Record(steps + 4, ['$', 'A'], tokens, 1, Match('d'))]
  }

  /** A leading `d` is read by S -> A B, A -> ε, B -> d A and a match, leaving `$ A`. */
  lemma ReadsD(table: Table, tokens: seq<Symbol>, trace: seq<TraceStep>, steps: nat)
    requires NonTerminalSet <= table.Keys && WellFormedTable(table)
    requires |tokens| >= 2 && tokens[0] == 'd' && tokens[|tokens| - 1] == EndMarker
    requires Lookup(table, 'S', 'd') == Some(['A', 'B']) && Lookup(table, 'A', 'd') == Some([Epsilon])
    requires Lookup(table, 'B', 'd') == Some(['d', 'A'])
    ensures Run(table, tokens, ['$', 'S'], 0, steps, trace) ==
            Run(table, tokens, ['$', 'A'], 1, steps + 4, trace + ReadDLines(tokens, steps))
  {
    var lines := ReadDLines(tokens, steps);
    var t := trace + [lines[0]];
    assert trace + lines == t + lines[1..];
    var r1 := Run(table, tokens, ['$', 'S'], 0, steps, trace);
    var r2 := Run(table, tokens, ['$', 'B', 'A'], 0, steps + 1, t);
    var r3 := Run(table, tokens, ['$', 'A'], 1, steps + 4, t + lines[1..]);
    assert r1 == r2 by { ReadsDExpandS(table, tokens, trace, steps); }
    assert r2 == r3 by { ReadsAfterS(table, tokens, t, steps); }
  }

  /** The last three of those steps; `base` steps preceded the first of the four. */
  lemma ReadsAfterS(table: Table, tokens: seq<Symbol>, trace: seq<TraceStep>, base: nat)
    requires NonTerminalSet <= table.Keys && WellFormedTable(table)
    requires |tokens| >= 2 && tokens[0] == 'd' && tokens[|tokens| - 1] == EndMarker
    requires Lookup(table, 'A', 'd') == Some([Epsilon]) && Lookup(table, 'B', 'd') == Some(['d', 'A'])
    ensures Run(table, tokens, ['$', 'B', 'A'], 0, base + 1, trace) ==
            Run(table, tokens, ['$', 'A'], 1, base + 4, trace + ReadDLines(tokens, base)[1..])
  {
    var lines := ReadDLines(tokens, base);
    var t := trace + [lines[1]];
    assert trace + lines[1..] == t + lines[2..];
    var r1 := Run(table, tokens, ['$', 'B', 'A'], 0, base + 1, trace);
    var r2 := Run(table, tokens, ['$', 'B'], 0, base + 2, t);
    var r3 := Run(table, tokens, ['$', 'A'], 1, base + 4, t + lines[2..]);
    assert r1 == r2 by { ReadsDEmptyA(table, tokens, trace, base); }
    assert r2 == r3 by { ReadsAfterA(table, tokens, t, base); }
  }

  /** The last two of those steps. */
  lemma ReadsAfterA(table: Table, tokens: seq<Symbol>, trace: seq<TraceStep>, base: nat)
    requires NonTerminalSet <= table.Keys && WellFormedTable(table)
    requires |tokens| >= 2 && tokens[0] == 'd' && tokens[|tokens| - 1] == EndMarker
    requires Lookup(table, 'B', 'd') == Some(['d', 'A'])
    ensures Run(table, tokens, ['$', 'B'], 0, base + 2, trace) ==
            Run(table, tokens, ['$', 'A'], 1, base + 4, trace + ReadDLines(tokens, base)[2..])
  {
    var lines := ReadDLines(tokens, base);
    var t := trace + [lines[2]];
    assert trace + lines[2..] == t + [lines[3]];
    var r1 := Run(table, tokens, ['$', 'B'], 0, base + 2, trace);
    var r2 := Run(table, tokens, ['$', 'A', 'd'], 0, base + 3, t);
    var r3 := Run(table, tokens, ['$', 'A'], 1, base + 4, t + [lines[3]]);
    assert r1 == r2 by { ReadsDExpandB(table, tokens, trace, base); }
    assert r2 == r3 by { ReadsDMatch(table, tokens, t, base); }
  }

  lemma ReadsDExpandS(table: Table, tokens: seq<Symbol>, trace: seq<TraceStep>, base: nat)
    requires NonTerminalSet <= table.Keys && WellFormedTable(table)
    requires |tokens| >= 2 && tokens[0] == 'd' && tokens[|tokens| - 1] == EndMarker
    requires Lookup(table, 'S', 'd') == Some(['A', 'B'])
    ensures Run(table, tokens, ['$', 'S'], 0, base, trace) ==
            Run(table, tokens, ['$', 'B', 'A'], 0, base + 1, trace + [ReadDLines(tokens, base)[0]])
  {
    var s0: seq<Symbol> := ['$', 'S'];
    assert s0[..|s0| - 1] == ['$'] && s0[|s0| - 1] == 'S';
    assert Expand(['$'], ['A', 'B']) == ['$', 'B', 'A'];
    RunApplies(table, tokens, s0, 0, base, trace, ['A', 'B']);
  }

  lemma ReadsDEmptyA(table: Table, tokens: seq<Symbol>, trace: seq<TraceStep>, base: nat)
    requires NonTerminalSet <= table.Keys && WellFormedTable(table)
    requires |tokens| >= 2 && tokens[0] == 'd' && tokens[|tokens| - 1] == EndMarker
    requires Lookup(table, 'A', 'd') == Some([Epsilon])
    ensures Run(table, tokens, ['$', 'B', 'A'], 0, base + 1, trace) ==
            Run(table, tokens, ['$', 'B'], 0, base + 2, trace + [ReadDLines(tokens, base)[1]])
  {
    var s1: seq<Symbol> := ['$', 'B', 'A'];
    assert s1[..|s1| - 1] == ['$', 'B'] && s1[|s1| - 1] == 'A';
    assert Expand(['$', 'B'], [Epsilon]) == ['$', 'B'];
    RunApplies(table, tokens, s1, 0, base + 1, trace, [Epsilon]);
  }

  lemma ReadsDExpandB(table: Table, tokens: seq<Symbol>, trace: seq<TraceStep>, base: nat)
    requires NonTerminalSet <= table.Keys && WellFormedTable(table)
    requires |tokens| >= 2 && tokens[0] == 'd' && tokens[|tokens| - 1] == EndMarker
    requires Lookup(table, 'B', 'd') == Some(['d', 'A'])
    ensures Run(table, tokens, ['$', 'B'], 0, base + 2, trace) ==
            Run(table, tokens, ['$', 'A', 'd'], 0, base + 3, trace + [ReadDLines(tokens, base)[2]])
  {
    var s2: seq<Symbol> := ['$', 'B'];
    assert s2[..|s2| - 1] == ['$'] && s2[|s2| - 1] == 'B';
    assert Expand(['$'], ['d', 'A']) == ['$', 'A', 'd'];
    RunApplies(table, tokens, s2, 0, base + 2, trace, ['d', 'A']);
  }

  lemma ReadsDMatch(table: Table, tokens: seq<Symbol>, trace: seq<TraceStep>, base: nat)
    requires NonTerminalSet <= table.Keys && WellFormedTable(table)
    requires |tokens| >= 2 && tokens[0] == 'd' && tokens[|tokens| - 1] == EndMarker
    ensures Run(table, tokens, ['$', 'A', 'd'], 0, base + 3, trace) ==
            Run(table, tokens, ['$', 'A'], 1, base + 4, trace + [ReadDLines(tokens, base)[3]])
  {
    var s3: seq<Symbol> := ['$', 'A', 'd'];
    assert s3[..|s3| - 1] == ['$', 'A'] && s3[|s3| - 1] == 'd';
    RunMatches(table, tokens, s3, 0, base + 3, trace);
  }

  /** After the leading `d`, the empty production of A leaves the end-marker alone on
      the stack, facing the token at position 1. */
  lemma AfterD(table: Table, tokens: seq<Symbol>, trace: seq<TraceStep>, steps: nat)
    requires NonTerminalSet <= table.Keys && WellFormedTable(table)
    requires |tokens| >= 2 && tokens[|tokens| - 1] == EndMarker
    requires Lookup(table, 'A', tokens[1]) == Some([Epsilon])
    ensures var r := Run(table, tokens, ['$', 'A'], 1, steps, trace);
            r.steps == steps + 2 &&
            (tokens[1] == EndMarker ==> r.accepted) &&
            (tokens[1] != EndMarker ==> r.error == Some(Mismatch(1, EndMarker, tokens[1])))
  {
    var next := [Record(steps + 1, ['$'], tokens, 1, Apply('A', [Epsilon]))];
    assert Expand(['$'], [Epsilon]) == ['$'];
    RunApplies(table, tokens, ['$', 'A'], 1, steps, trace, [Epsilon]);
    assert Run(table, tokens, ['$', 'A'], 1, steps, trace) == Run(table, tokens, ['$'], 1, steps + 1, trace + next);
  }

  lemma TokenizeExamples()
    ensures Tokenize("d") == ['d', '$'] && Tokenize(" d\n") == ['d', '$']
    ensures Tokenize("dd") == ['d', 'd', '$'] && Tokenize("d$x") == ['d', '$', 'x', '$']
    ensures Tokenize("") == ['$'] && Tokenize("x") == ['x', '$']
  {
  }

  lemma GrammarTableLookups(table: Table)
    requires IsGrammarTable(table)
    ensures NonTerminalSet <= table.Keys && WellFormedTable(table)
    ensures Lookup(table, 'S', 'd') == Some(['A', 'B']) && Lookup(table, 'A', 'd') == Some([Epsilon])
    ensures Lookup(table, 'B', 'd') == Some(['d', 'A']) && Lookup(table, 'A', '$') == Some([Epsilon])
    ensures Lookup(table, 'S', '$') == None && Lookup(table, 'S', 'x') == None
  {
    GrammarTableCell(table, 'S', 'd');
    GrammarTableCell(table, 'A', 'd');
    GrammarTableCell(table, 'B', 'd');
    GrammarTableCell(table, 'A', '$');
    GrammarTableCell(table, 'S', '$');
  }

  /** The analyzer on the fixed grammar's table: "d" is accepted in six steps; "dd" is
      rejected at position 1, where the end-marker was expected; the empty input has no
      production for S on the end-marker; white space is ignored; an end-marker in
      the input ends the analysis there, so "d$x" is accepted; and a character outside
      the grammar's terminals is a terminal with no column in the table. */
  lemma AnalyzeExamples(table: Table)
    requires IsGrammarTable(table)
    ensures var r := Analyze(table, "d"); r.accepted && r.steps == 6
    ensures var r := Analyze(table, " d\n"); r.accepted && r.steps == 6
    ensures var r := Analyze(table, "dd"); !r.accepted && r.steps == 6 && r.error == Some(Mismatch(1, '$', 'd'))
    ensures var r := Analyze(table, ""); !r.accepted && r.steps == 1 && r.error == Some(NoProduction(0, 'S', '$'))
    ensures var r := Analyze(table, "d$x"); r.accepted && r.steps == 6
    ensures var r := Analyze(table, "x"); !r.accepted && r.steps == 1 && r.error == Some(NoProduction(0, 'S', 'x'))
  {
    AcceptsD(table, "d");
    AcceptsD(table, " d\n");
    AcceptsD(table, "d$x");
    RejectsDD(table);
    RejectsAtStart(table, "", '$');
    RejectsAtStart(table, "x", 'x');
  }

  /** Inputs whose tokens start with `d $` are accepted in six steps. */
  lemma AcceptsD(table: Table, input: string)
    requires IsGrammarTable(table)
    requires input in {"d", " d\n", "d$x"}
    ensures var r := Analyze(table, input); r.accepted && r.steps == 6
  {
    GrammarTableLookups(table);
    TokenizeExamples();
    var tokens := Tokenize(input);
    assert |tokens| >= 2 && tokens[0] == 'd' && tokens[1] == '$';
    ExamplesD(table, input, tokens);
  }

  lemma RejectsDD(table: Table)
    requires IsGrammarTable(table)
    ensures var r := Analyze(table, "dd"); !r.accepted && r.steps == 6 && r.error == Some(Mismatch(1, '$', 'd'))
  {
    GrammarTableLookups(table);
    TokenizeExamples();
    ExamplesD(table, "dd", ['d', 'd', '$']);
  }

  lemma RejectsAtStart(table: Table, input: string, t: Symbol)
    requires IsGrammarTable(table)
    requires (input == "" && t == '$') || (input == "x" && t == 'x')
    ensures var r := Analyze(table, input); !r.accepted && r.steps == 1 && r.error == Some(NoProduction(0, 'S', t))
  {
    GrammarTableLookups(table);
    TokenizeExamples();
    RejectsFirstToken(table, input, t);
  }

  /** An input whose first token has no production for S fails at the first step. */
  lemma RejectsFirstToken(table: Table, input: string, t: Symbol)
    requires NonTerminalSet <= table.Keys && WellFormedTable(table)
    requires Tokenize(input)[0] == t && Lookup(table, 'S', t) == None
    ensures var r := Analyze(table, input); !r.accepted && r.steps == 1 && r.error == Some(NoProduction(0, 'S', t))
  {
    assert !IsTerminal('S');
  }

  lemma ExamplesD(table: Table, input: string, tokens: seq<Symbol>)
    requires NonTerminalSet <= table.Keys && WellFormedTable(table)
    requires Lookup(table, 'S', 'd') == Some(['A', 'B']) && Lookup(table, 'A', 'd') == Some([Epsilon])
    requires Lookup(table, 'B', 'd') == Some(['d', 'A']) && Lookup(table, 'A', '$') == Some([Epsilon])
    requires Tokenize(input) == tokens && |tokens| >= 2 && tokens[0] == 'd' && tokens[1] in {'d', '$'}
    ensures var r := Analyze(table, input);
            r.steps == 6 &&
            (tokens[1] == EndMarker ==> r.accepted) &&
            (tokens[1] != EndMarker ==> r.error == Some(Mismatch(1, EndMarker, tokens[1])))
  {
    var init := [Record(0, ['$', 'S'], tokens, 0, Init)];
    ReadsD(table, tokens, init, 0);
    AfterD(table, tokens, init + ReadDLines(tokens, 0), 4);
  }

  /** The same runs with the table `createParsingTable` builds. */
  lemma ParserExamples(prior: Cache)
    ensures var r := Analyze(CreateParsingTable(prior), "d"); r.accepted && r.steps == 6
    ensures var r := Analyze(CreateParsingTable(prior), "dd"); r.error == Some(Mismatch(1, '$', 'd'))
    ensures var r := Analyze(CreateParsingTable(prior), ""); r.error == Some(NoProduction(0, 'S', '$'))
    ensures Analyze(CreateParsingTable(prior), "d$x").accepted
    ensures Analyze(CreateParsingTable(prior), "x").error == Some(NoProduction(0, 'S', 'x'))
  {
    CreatedTableIsGrammarTable(prior);
    AnalyzeExamples(CreateParsingTable(prior));
  }

}
