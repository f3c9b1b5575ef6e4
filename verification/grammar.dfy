/**
 * The fixed LL(1) grammar and the classification of its symbols.
 *
 *   S -> A B
 *   A -> a A | b C | ε
 *   B -> c B | d A
 *   C -> a D | b D
 *   D -> c D | d A
 *
 * Every grammar symbol and every input token is a single character, so a
 * symbol is a `char`. The empty-string marker is the Greek letter epsilon.
 */
module Grammar {

  type Symbol = char

  /** A right-hand side: an ordered sequence of symbols; `[Epsilon]` is the empty production. */
  type Production = seq<Symbol>

  const Epsilon: Symbol := '\U{03B5}'
  const EndMarker: Symbol := '$'
  const StartSymbol: Symbol := 'S'

  /** Declared terminals, end-marker included, in declaration order. */
  const Terminals: seq<Symbol> := ['a', 'b', 'c', 'd', '$']

  /** Declared non-terminals, in declaration order (also the order of the rules). */
  const NonTerminals: seq<Symbol> := ['S', 'A', 'B', 'C', 'D']

  const TerminalSet: set<Symbol> := {'a', 'b', 'c', 'd', '$'}
  const NonTerminalSet: set<Symbol> := {'S', 'A', 'B', 'C', 'D'}

  /** The rules, keyed by non-terminal; each list is in declaration order. */
  const Rules: map<Symbol, seq<Production>> := map[
    'S' := [['A', 'B']],
    'A' := [['a', 'A'], ['b', 'C'], [Epsilon]],
    'B' := [['c', 'B'], ['d', 'A']],
    'C' := [['a', 'D'], ['b', 'D']],
    'D' := [['c', 'D'], ['d', 'A']]
  ]

  /** The productions of `x`, or none when `x` is not a rule's left-hand side. */
  function Productions(x: Symbol): seq<Production>
  {
    if x in Rules then Rules[x] else []
  }

  /** A symbol is a terminal when declared as one, or -- the permissive default --
      when it is neither the empty-string marker nor a declared non-terminal. */
  predicate IsTerminal(s: Symbol)
  {
    s in TerminalSet || (s != Epsilon && s !in NonTerminalSet)
  }

  predicate IsNonTerminal(s: Symbol)
  {
    s in NonTerminalSet
  }

  /** The declared lists and their set views agree (the membership tests above use
      the set views), and the rules are keyed by exactly the non-terminals. */
  lemma DeclarationsConsistent()
    ensures forall s :: s in Terminals <==> s in TerminalSet
    ensures forall s :: s in NonTerminals <==> s in NonTerminalSet
    ensures Rules.Keys == NonTerminalSet
    ensures StartSymbol in NonTerminalSet && EndMarker in TerminalSet
  {
  }

  /** The non-terminal list names each non-terminal exactly once. */
  lemma NonTerminalsListedOnce()
    ensures forall j :: 0 <= j < |NonTerminals| ==> NonTerminals[j] in NonTerminalSet
    ensures forall i, j :: 0 <= i < j < |NonTerminals| ==> NonTerminals[i] != NonTerminals[j]
  {
  }

  /** Every symbol other than the empty-string marker is exactly one of terminal or
      non-terminal; the marker is neither; an undeclared symbol is a terminal. */
  lemma ClassificationPartition(s: Symbol)
    ensures s != Epsilon ==> (IsTerminal(s) <==> !IsNonTerminal(s))
    ensures !IsTerminal(Epsilon) && !IsNonTerminal(Epsilon)
    ensures s !in Terminals && s !in NonTerminals && s != Epsilon ==> IsTerminal(s)
  {
  }

  /** Every symbol on a right-hand side is a terminal, a declared non-terminal, or the
      marker standing alone; and every non-terminal has at least one production. */
  lemma RulesWellFormed(x: Symbol)
    requires IsNonTerminal(x)
    ensures |Productions(x)| > 0
    ensures forall i, j :: 0 <= i < |Productions(x)| && 0 <= j < |Productions(x)[i]| ==>
              (Productions(x)[i][j] == Epsilon <==> Productions(x)[i] == [Epsilon])
    ensures forall i, j :: 0 <= i < |Productions(x)| && 0 <= j < |Productions(x)[i]| ==>
              Productions(x)[i][j] != EndMarker
  {
  }

  /** The rules, one non-terminal at a time. */
  lemma RulesValues()
    ensures Productions('S') == [['A', 'B']]
    ensures Productions('A') == [['a', 'A'], ['b', 'C'], [Epsilon]]
    ensures Productions('B') == [['c', 'B'], ['d', 'A']]
    ensures Productions('C') == [['a', 'D'], ['b', 'D']]
    ensures Productions('D') == [['c', 'D'], ['d', 'A']]
  {
  }

  /**
   * Ranks that make the recursion of FIRST and the expansions of the parser
   * well-founded for this grammar: S is above A, B, C, D, which are above every
   * symbol that is not a non-terminal.
   */
  function Rank(s: Symbol): nat
  {
    if s == 'S' then 3 else if IsNonTerminal(s) then 1 else 0
  }

  function Max(a: nat, b: nat): nat
  {
    if a < b then b else a
  }

  /** The highest rank among the leading non-terminals of `syms` (0 when it starts
      with anything else): FIRST of a sequence never looks past its first
      non-non-terminal, so this bounds the symbols it consults. */
  function Bound(syms: seq<Symbol>): nat
  {
    if syms == [] then 0
    else if IsNonTerminal(syms[0]) then Max(Rank(syms[0]), Bound(syms[1..]))
    else 0
  }

  /** The total rank of the leading non-terminals of `syms`. */
  function PrefixWeight(syms: seq<Symbol>): nat
  {
    if syms == [] then 0
    else if IsNonTerminal(syms[0]) then Rank(syms[0]) + PrefixWeight(syms[1..])
    else 0
  }

  /** No production of `x` starts with a run of non-terminals whose rank reaches `x`'s own. */
  lemma ProductionsRanked(x: Symbol)
    requires IsNonTerminal(x)
    ensures forall i :: 0 <= i < |Productions(x)| ==> Bound(Productions(x)[i]) < Rank(x)
    ensures forall i :: 0 <= i < |Productions(x)| ==> PrefixWeight(Productions(x)[i]) < Rank(x)
  {
    assert Bound(['A', 'B']) == 1 && PrefixWeight(['A', 'B']) == 2;
  }

}
