/**
 * FIRST of a symbol and of a symbol sequence, by plain structural recursion
 * (no cycle guard), terminating by the grammar's ranks.
 */
module FirstSets {

  import opened Grammar

  /** FIRST of one symbol: `{x}` for a terminal; for a non-terminal the union of
      FIRST over its productions; the empty set for the empty-string marker,
      which is neither terminal nor non-terminal. */
  function First(x: Symbol): (r: set<Symbol>)
    ensures IsTerminal(x) ==> r == {x}
    ensures x == Epsilon ==> r == {}
    ensures !IsNonTerminal(x) ==> Epsilon !in r
    decreases Rank(x), 1, 0
  {
    if IsTerminal(x) then {x}
    else if IsNonTerminal(x) then
      ProductionsRanked(x);
      FirstOfProductions(x, Productions(x))
    else {}
  }

  /** The union of FIRST over the productions `prods` of `x`. */
  function FirstOfProductions(x: Symbol, prods: seq<Production>): set<Symbol>
    requires forall i :: 0 <= i < |prods| ==> Bound(prods[i]) < Rank(x)
    decreases Rank(x), 0, |prods|
  {
    if prods == [] then {}
    else FirstOfString(prods[0]) + FirstOfProductions(x, prods[1..])
  }

  /** FIRST of a sequence: `{ε}` for an empty or marker-led sequence, otherwise the
      left-to-right scan of `FirstScan`. */
  function FirstOfString(syms: seq<Symbol>): (r: set<Symbol>)
    ensures |syms| == 0 || syms[0] == Epsilon ==> r == {Epsilon}
    decreases Bound(syms), 3, 0
  {
    if |syms| == 0 || syms[0] == Epsilon then {Epsilon}
    else FirstScan(syms)
  }

  /** Adds the non-marker members of each symbol's FIRST, stopping after the first
      symbol whose FIRST lacks the marker; adds the marker when no symbol stopped the scan. */
  function FirstScan(syms: seq<Symbol>): set<Symbol>
    decreases Bound(syms), 2, |syms|
  {
    if syms == [] then {Epsilon}
    else
      var f := First(syms[0]);
      (f - {Epsilon}) + (if Epsilon in f then FirstScan(syms[1..]) else {})
  }

  /** `s` can derive the empty string, as FIRST reports it. */
  predicate Nullable(s: Symbol)
  {
    Epsilon in First(s)
  }

  /** Every symbol of `syms` before index `k` is nullable. */
  predicate NullablePrefix(syms: seq<Symbol>, k: nat)
    requires k <= |syms|
  {
    forall j :: 0 <= j < k ==> Nullable(syms[j])
  }

  /** The marker is in the scan's result exactly when every symbol is nullable. */
  lemma {:induction false} FirstScanEpsilon(syms: seq<Symbol>)
    ensures Epsilon in FirstScan(syms) <==> NullablePrefix(syms, |syms|)
    decreases |syms|
  {
    if syms != [] {
      FirstScanEpsilon(syms[1..]);
      if Nullable(syms[0]) {
        assert NullablePrefix(syms, |syms|) <==> NullablePrefix(syms[1..], |syms| - 1) by {
          forall j | 0 < j < |syms| ensures syms[j] == syms[1..][j - 1] { }
        }
      }
    }
  }

  /** A symbol other than the marker is in the scan's result exactly when it is in
      FIRST of some symbol all of whose predecessors are nullable. */
  lemma {:induction false} FirstScanMember(syms: seq<Symbol>, t: Symbol)
    requires t != Epsilon
    ensures t in FirstScan(syms) <==>
            exists k :: 0 <= k < |syms| && t in First(syms[k]) && NullablePrefix(syms, k)
    decreases |syms|
  {
    if syms != [] {
      FirstScanMember(syms[1..], t);
      var tail := syms[1..];
      if t in FirstScan(syms) && t !in First(syms[0]) {
        var k :| 0 <= k < |tail| && t in First(tail[k]) && NullablePrefix(tail, k);
        assert t in First(syms[k + 1]) && NullablePrefix(syms, k + 1);
      }
      if k :| 0 <= k < |syms| && t in First(syms[k]) && NullablePrefix(syms, k) {
        if k > 0 {
          assert Nullable(syms[0]);
          assert t in First(tail[k - 1]) && NullablePrefix(tail, k - 1);
        }
      }
    }
  }

  /** FIRST of a non-empty sequence that does not start with the marker, stated
      without the scan: its non-marker members come from the symbols up to and
      including the first non-nullable one, and the marker is present only if
      every symbol is nullable. */
  lemma FirstOfStringCharacterized(syms: seq<Symbol>, t: Symbol)
    requires |syms| > 0 && syms[0] != Epsilon
    ensures Epsilon in FirstOfString(syms) <==> NullablePrefix(syms, |syms|)
    ensures t != Epsilon ==>
              (t in FirstOfString(syms) <==>
               exists k :: 0 <= k < |syms| && t in First(syms[k]) && NullablePrefix(syms, k))
  {
    FirstScanEpsilon(syms);
    if t != Epsilon {
      FirstScanMember(syms, t);
    }
  }

  lemma {:induction false} FirstOfProductionsMember(x: Symbol, prods: seq<Production>, t: Symbol)
    requires forall i :: 0 <= i < |prods| ==> Bound(prods[i]) < Rank(x)
    ensures t in FirstOfProductions(x, prods) <==>
            exists i :: 0 <= i < |prods| && t in FirstOfString(prods[i])
    decreases |prods|
  {
    if prods != [] {
      FirstOfProductionsMember(x, prods[1..], t);
      if i :| 0 <= i < |prods| && t in FirstOfString(prods[i]) {
        if i > 0 {
          assert prods[1..][i - 1] == prods[i];
        }
      }
      if t in FirstOfProductions(x, prods[1..]) {
        var i :| 0 <= i < |prods[1..]| && t in FirstOfString(prods[1..][i]);
        assert prods[i + 1] == prods[1..][i];
      }
    }
  }

  /** FIRST of a non-terminal is the union of FIRST over its productions, so it
      contains the marker exactly when some production is the empty one or
      consists of nullable symbols only. */
  lemma FirstOfNonTerminal(x: Symbol, t: Symbol)
    requires IsNonTerminal(x)
    ensures t in First(x) <==>
            exists i :: 0 <= i < |Productions(x)| && t in FirstOfString(Productions(x)[i])
    ensures Nullable(x) <==>
            exists i :: 0 <= i < |Productions(x)| &&
                        (Productions(x)[i] == [] || Productions(x)[i][0] == Epsilon ||
                         NullablePrefix(Productions(x)[i], |Productions(x)[i]|))
  {
    ProductionsRanked(x);
    var ps := Productions(x);
    assert First(x) == FirstOfProductions(x, ps);
    FirstOfProductionsMember(x, ps, t);
    FirstOfProductionsMember(x, ps, Epsilon);
    forall i | 0 <= i < |ps|
      ensures Epsilon in FirstOfString(ps[i]) <==>
              (ps[i] == [] || ps[i][0] == Epsilon || NullablePrefix(ps[i], |ps[i]|))
    {
      var p := ps[i];
      if p != [] && p[0] != Epsilon {
        FirstScanEpsilon(p);
      }
    }
  }

  /** `getAllFirstSets`: FIRST of every declared non-terminal. */
  function AllFirstSets(): (r: map<Symbol, set<Symbol>>)
    ensures r.Keys == NonTerminalSet
    ensures forall x :: x in r ==> r[x] == First(x)
  {
    map x | x in NonTerminalSet :: First(x)
  }

  lemma FirstOfTerminalsValues()
    ensures First('a') == {'a'} && First('b') == {'b'} && First('c') == {'c'} && First('d') == {'d'}
  {
  }

  /** A two-symbol sequence led by a terminal contributes exactly that terminal. */
  lemma FirstScanTerminalLed(t: Symbol, rest: seq<Symbol>)
    requires IsTerminal(t)
    ensures FirstScan([t] + rest) == {t}
  {
    assert ([t] + rest)[0] == t;
  }

  lemma FirstAValue()
    ensures First('A') == {'a', 'b', Epsilon}
  {
    FirstScanTerminalLed('a', ['A']);
    FirstScanTerminalLed('b', ['C']);
    assert ['a', 'A'] == ['a'] + ['A'];
    assert ['b', 'C'] == ['b'] + ['C'];
    ProductionsRanked('A');
    var ps := Productions('A');
    assert ps == [['a', 'A'], ['b', 'C'], [Epsilon]];
    assert FirstOfString(ps[0]) == {'a'};
    assert FirstOfString(ps[1]) == {'b'};
    assert FirstOfString(ps[2]) == {Epsilon};
    assert FirstOfProductions('A', ps[2..]) == {Epsilon};
    assert FirstOfProductions('A', ps[1..]) == {'b', Epsilon};
  }

  /** Shared by B, C and D: two productions, each led by a terminal. */
  lemma FirstOfTwoTerminalLed(x: Symbol, t1: Symbol, s1: Symbol, t2: Symbol, s2: Symbol)
    requires IsNonTerminal(x) && IsTerminal(t1) && IsTerminal(t2)
    requires Productions(x) == [[t1, s1], [t2, s2]]
    ensures First(x) == {t1, t2}
  {
    FirstScanTerminalLed(t1, [s1]);
    FirstScanTerminalLed(t2, [s2]);
    assert [t1, s1] == [t1] + [s1];
    assert [t2, s2] == [t2] + [s2];
    ProductionsRanked(x);
    var ps := Productions(x);
    assert FirstOfProductions(x, ps[1..]) == {t2};
  }

  lemma FirstSValue()
    ensures First('S') == {'a', 'b', 'c', 'd'}
  {
    FirstAValue();
    FirstOfTwoTerminalLed('B', 'c', 'B', 'd', 'A');
    var ab: seq<Symbol> := ['A', 'B'];
    assert ab[1..] == ['B'];
    assert ['B'][1..] == [];
    var fb := FirstScan(['B']);
    assert fb == {'c', 'd'};
    assert FirstScan(ab) == (First('A') - {Epsilon}) + fb;
    ProductionsRanked('S');
    assert FirstOfProductions('S', [ab]) == FirstOfString(ab);
  }

  /** The FIRST sets of the fixed grammar. */
  lemma FirstValues()
    ensures First('A') == {'a', 'b', Epsilon}
    ensures First('B') == {'c', 'd'}
    ensures First('C') == {'a', 'b'}
    ensures First('D') == {'c', 'd'}
    ensures First('S') == {'a', 'b', 'c', 'd'}
  {
    FirstAValue();
    FirstOfTwoTerminalLed('B', 'c', 'B', 'd', 'A');
    FirstOfTwoTerminalLed('C', 'a', 'D', 'b', 'D');
    FirstOfTwoTerminalLed('D', 'c', 'D', 'd', 'A');
    FirstSValue();
  }

}
