/**
 * FOLLOW of a non-terminal with a `visited` guard and a memo cache. The cache
 * changes results, so it is threaded explicitly: every call takes the cache as
 * it stands and returns the cache as it leaves it.
 */
module FollowSets {

  import opened Grammar
  import opened FirstSets

  type Cache = map<Symbol, set<Symbol>>

  /** The cache holds no marker. */
  predicate CacheClean(c: Cache)
  {
    forall k :: k in c ==> Epsilon !in c[k]
  }

  /** `c'` keeps every entry of `c` unchanged. */
  predicate Extends(c: Cache, c': Cache)
  {
    forall k :: k in c ==> k in c' && c'[k] == c[k]
  }

  /** The rules' productions are their own: every listed right-hand side belongs to `lhs`. */
  predicate OwnProductions(lhs: Symbol, prods: seq<Production>)
  {
    forall j :: 0 <= j < |prods| ==> prods[j] in Productions(lhs)
  }

  /**
   * `calculateFollow(nt, visited)` against cache `cache`: a cached entry, even an
   * empty set, is returned as is; a non-terminal already being computed yields the
   * empty set; otherwise the rules are scanned with `nt` added to the visited set,
   * starting from `{$}` for the start symbol, and the result is cached unconditionally.
   */
  function Follow(nt: Symbol, visited: set<Symbol>, cache: Cache): (r: (set<Symbol>, Cache))
    ensures Extends(cache, r.1)
    ensures forall k :: k in r.1 && k !in cache ==> k !in visited && (k == nt || IsNonTerminal(k))
    ensures nt in cache ==> r == (cache[nt], cache)
    ensures nt !in cache && nt in visited ==> r == ({}, cache)
    ensures nt !in cache && nt !in visited ==> nt in r.1 && r.1[nt] == r.0
    ensures CacheClean(cache) ==> Epsilon !in r.0 && CacheClean(r.1)
    ensures nt !in cache && nt !in visited && nt == StartSymbol ==> EndMarker in r.0
    decreases NonTerminalSet + {nt} - visited, 4, 0
  {
    if nt in cache then (cache[nt], cache)
    else if nt in visited then ({}, cache)
    else
      var init: set<Symbol> := if nt == StartSymbol then {EndMarker} else {};
      var scanned := ScanRules(nt, visited + {nt}, NonTerminals, init, cache);
      (scanned.0, scanned.1[nt := scanned.0])
  }

  /** The outer loop, over the rules in declaration order, on behalf of `nt`. */
  function ScanRules(nt: Symbol, visited: set<Symbol>, lhss: seq<Symbol>, acc: set<Symbol>, cache: Cache)
    : (r: (set<Symbol>, Cache))
    requires nt in visited
    requires forall j :: 0 <= j < |lhss| ==> IsNonTerminal(lhss[j])
    ensures acc <= r.0
    ensures Extends(cache, r.1)
    ensures forall k :: k in r.1 && k !in cache ==> k !in visited && IsNonTerminal(k)
    ensures Epsilon !in acc && CacheClean(cache) ==> Epsilon !in r.0 && CacheClean(r.1)
    decreases NonTerminalSet - visited + {nt}, 3, |lhss|
  {
    if lhss == [] then (acc, cache)
    else
      var step := ScanProductions(nt, visited, lhss[0], Productions(lhss[0]), acc, cache);
      ScanRules(nt, visited, lhss[1..], step.0, step.1)
  }

  /** The middle loop, over the productions of rule `lhs`. */
  function ScanProductions(nt: Symbol, visited: set<Symbol>, lhs: Symbol, prods: seq<Production>,
                           acc: set<Symbol>, cache: Cache)
    : (r: (set<Symbol>, Cache))
    requires nt in visited && IsNonTerminal(lhs)
    ensures acc <= r.0
    ensures Extends(cache, r.1)
    ensures forall k :: k in r.1 && k !in cache ==> k !in visited && IsNonTerminal(k)
    ensures Epsilon !in acc && CacheClean(cache) ==> Epsilon !in r.0 && CacheClean(r.1)
    decreases NonTerminalSet - visited + {nt}, 2, |prods|
  {
    if prods == [] then (acc, cache)
    else
      var step := ScanPositions(nt, visited, lhs, prods[0], 0, acc, cache);
      ScanProductions(nt, visited, lhs, prods[1..], step.0, step.1)
  }

  /** The inner loop, over the positions `i` of production `p`. */
  function ScanPositions(nt: Symbol, visited: set<Symbol>, lhs: Symbol, p: Production, i: nat,
                         acc: set<Symbol>, cache: Cache)
    : (r: (set<Symbol>, Cache))
    requires nt in visited && IsNonTerminal(lhs)
    ensures acc <= r.0
    ensures Extends(cache, r.1)
    ensures forall k :: k in r.1 && k !in cache ==> k !in visited && IsNonTerminal(k)
    ensures Epsilon !in acc && CacheClean(cache) ==> Epsilon !in r.0 && CacheClean(r.1)
    decreases NonTerminalSet - visited + {nt}, 1, |p| - i
  {
    if i >= |p| then (acc, cache)
    else
      var step := ScanAt(nt, visited, lhs, p, i, acc, cache);
      ScanPositions(nt, visited, lhs, p, i + 1, step.0, step.1)
  }

  /** One position `lhs -> alpha x beta` with `x = p[i]`: nothing unless `x` is `nt`;
      then FIRST(beta) without the marker, and FOLLOW(lhs) when beta is empty or
      nullable -- except that a rule's own FOLLOW is never requested (a
      self-reference). The nested call receives a copy of `visited`. */
  function ScanAt(nt: Symbol, visited: set<Symbol>, lhs: Symbol, p: Production, i: nat,
                  acc: set<Symbol>, cache: Cache)
    : (r: (set<Symbol>, Cache))
    requires nt in visited && IsNonTerminal(lhs) && i < |p|
    ensures acc <= r.0
    ensures Extends(cache, r.1)
    ensures forall k :: k in r.1 && k !in cache ==> k !in visited && IsNonTerminal(k)
    ensures Epsilon !in acc && CacheClean(cache) ==> Epsilon !in r.0 && CacheClean(r.1)
    ensures p[i] != nt ==> r == (acc, cache)
    decreases NonTerminalSet - visited + {nt}, 0, 0
  {
    if p[i] != nt then (acc, cache)
    else
      var beta := p[i + 1..];
      if |beta| > 0 then
        var fb := FirstOfString(beta);
        var acc1 := acc + (fb - {Epsilon});
        if Epsilon in fb && lhs != nt then
          var sub := Follow(lhs, visited, cache);
          (acc1 + sub.0, sub.1)
        else (acc1, cache)
      else if lhs != nt then
        var sub := Follow(lhs, visited, cache);
        (acc + sub.0, sub.1)
      else (acc, cache)
  }

  /** `getAllFollowSets`' loop: FOLLOW of each of `nts` from an empty visited set,
      threading the cache from one call to the next. */
  function FollowAll(nts: seq<Symbol>, sets: map<Symbol, set<Symbol>>, cache: Cache)
    : (r: (map<Symbol, set<Symbol>>, Cache))
  {
    if nts == [] then (sets, cache)
    else
      var f := Follow(nts[0], {}, cache);
      FollowAll(nts[1..], sets[nts[0] := f.0], f.1)
  }

  /** What the loop leaves behind: one set per listed non-terminal, each equal to
      the cache entry for it, no marker anywhere, and no cache entry for anything else. */
  lemma {:induction false} FollowAllFacts(nts: seq<Symbol>, sets: map<Symbol, set<Symbol>>, cache: Cache)
    requires forall k :: k in sets ==> k in cache && cache[k] == sets[k]
    requires forall k :: k in cache ==> k in sets || k in nts
    requires forall k :: IsNonTerminal(k) ==> k in sets || k in nts
    requires forall i :: 0 <= i < |nts| ==> IsNonTerminal(nts[i])
    requires CacheClean(cache)
    ensures forall k :: k in FollowAll(nts, sets, cache).0 <==> k in sets || k in nts
    ensures FollowAll(nts, sets, cache).1 == FollowAll(nts, sets, cache).0
    ensures CacheClean(FollowAll(nts, sets, cache).1)
  {
    if nts == [] {
      assert cache == sets;
    } else {
      var f := Follow(nts[0], {}, cache);
      var sets' := sets[nts[0] := f.0];
      assert nts[0] in f.1 && f.1[nts[0]] == f.0;
      assert forall k :: k in nts <==> k == nts[0] || k in nts[1..];
      FollowAllFacts(nts[1..], sets', f.1);
    }
  }

  /** An entry already collected and not listed again is left alone. */
  lemma {:induction false} FollowAllKeeps(nts: seq<Symbol>, sets: map<Symbol, set<Symbol>>, cache: Cache, k: Symbol)
    requires k in sets && k !in nts
    ensures k in FollowAll(nts, sets, cache).0 && FollowAll(nts, sets, cache).0[k] == sets[k]
  {
    if nts != [] {
      var f := Follow(nts[0], {}, cache);
      FollowAllKeeps(nts[1..], sets[nts[0] := f.0], f.1, k);
    }
  }

  /** `getAllFollowSets` called while the global cache holds `prior`: the cache is
      cleared first, then FOLLOW of every non-terminal is computed in declaration
      order. Returns the sets and the cache left behind. */
  function GetAllFollowSets(prior: Cache): (r: (map<Symbol, set<Symbol>>, Cache))
    ensures r.0.Keys == NonTerminalSet
    ensures r.1 == r.0
    ensures forall x :: x in r.0 ==> Epsilon !in r.0[x]
    ensures EndMarker in r.0[StartSymbol]
  {
    var cleared := prior - prior.Keys;
    ClearedRun(cleared);
    FollowAll(NonTerminals, map[], cleared)
  }

  /** The loop of `getAllFollowSets` run from a cleared cache. */
  lemma ClearedRun(cleared: Cache)
    requires cleared == map[]
    ensures var r := FollowAll(NonTerminals, map[], cleared);
            r.0.Keys == NonTerminalSet && r.1 == r.0 && CacheClean(r.0) && EndMarker in r.0[StartSymbol]
  {
    var empty: Cache := map[];
    var r := FollowAll(NonTerminals, empty, cleared);
    assert r.0.Keys == NonTerminalSet && r.1 == r.0 && CacheClean(r.0) by {
      FollowAllFacts(NonTerminals, empty, cleared);
      DeclarationsConsistent();
      assert forall k :: k in r.0 <==> k in NonTerminalSet;
    }
    assert EndMarker in r.0[StartSymbol] by {
      StartFollowHasEndMarker();
    }
  }

  /** FOLLOW of the start symbol, computed first from a cleared cache, contains the
      end-marker and is what the loop reports for it. */
  lemma StartFollowHasEndMarker()
    ensures StartSymbol in FollowAll(NonTerminals, map[], map[]).0
    ensures EndMarker in FollowAll(NonTerminals, map[], map[]).0[StartSymbol]
  {
    var f := Follow(StartSymbol, {}, map[]);
    assert EndMarker in f.0;
    var nts := NonTerminals;
    assert nts[0] == StartSymbol && nts[1..] == ['A', 'B', 'C', 'D'];
    FollowAllKeeps(nts[1..], map[StartSymbol := f.0], f.1, StartSymbol);
  }

  /** Repeated calls give identical sets: the result does not depend on what the
      cache held before the call. */
  lemma FollowSetsIgnoreStaleCache(prior1: Cache, prior2: Cache)
    ensures GetAllFollowSets(prior1) == GetAllFollowSets(prior2)
  {
  }

  /** The textbook FOLLOW condition at position `i` of `lhs -> p`, with `x = p[i]`:
      FIRST of the rest without the marker is in FOLLOW(x), and FOLLOW(lhs) is too
      when the rest is nullable (or empty). */
  predicate Closed(F: Cache, lhs: Symbol, p: Production, i: nat)
    requires i < |p|
  {
    IsNonTerminal(p[i]) ==>
      var fb := FirstOfString(p[i + 1..]);
      p[i] in F && lhs in F &&
      fb - {Epsilon} <= F[p[i]] &&
      (Epsilon in fb ==> F[lhs] <= F[p[i]])
  }

  /** `F` is a solution of the FOLLOW equations of the grammar. */
  predicate IsFollowSolution(F: Cache)
  {
    NonTerminalSet <= F.Keys &&
    EndMarker in F[StartSymbol] &&
    forall x, p, i :: x in NonTerminalSet && p in Productions(x) && 0 <= i < |p| ==> Closed(F, x, p, i)
  }

  /** Every cache entry lies within the corresponding set of `F`. */
  predicate Below(c: Cache, F: Cache)
  {
    forall k :: k in c ==> k in F && c[k] <= F[k]
  }

  /** Soundness: with a cache below a solution `F`, FOLLOW of a non-terminal stays
      within `F` and leaves the cache below `F`. The cut-offs only ever lose members. */
  lemma FollowSound(F: Cache, nt: Symbol, visited: set<Symbol>, cache: Cache)
    requires IsFollowSolution(F) && IsNonTerminal(nt) && Below(cache, F)
    ensures Follow(nt, visited, cache).0 <= F[nt]
    ensures Below(Follow(nt, visited, cache).1, F)
    decreases NonTerminalSet + {nt} - visited, 4, 0
  {
    if nt !in cache && nt !in visited {
      var init: set<Symbol> := if nt == StartSymbol then {EndMarker} else {};
      ScanRulesSound(F, nt, visited + {nt}, NonTerminals, init, cache);
    }
  }

  lemma ScanRulesSound(F: Cache, nt: Symbol, visited: set<Symbol>, lhss: seq<Symbol>,
                       acc: set<Symbol>, cache: Cache)
    requires IsFollowSolution(F) && IsNonTerminal(nt) && Below(cache, F)
    requires nt in visited && acc <= F[nt]
    requires forall j :: 0 <= j < |lhss| ==> IsNonTerminal(lhss[j])
    ensures ScanRules(nt, visited, lhss, acc, cache).0 <= F[nt]
    ensures Below(ScanRules(nt, visited, lhss, acc, cache).1, F)
    decreases NonTerminalSet - visited + {nt}, 3, |lhss|
  {
    if lhss != [] {
      ScanProductionsSound(F, nt, visited, lhss[0], Productions(lhss[0]), acc, cache);
      var step := ScanProductions(nt, visited, lhss[0], Productions(lhss[0]), acc, cache);
      ScanRulesSound(F, nt, visited, lhss[1..], step.0, step.1);
    }
  }

  lemma ScanProductionsSound(F: Cache, nt: Symbol, visited: set<Symbol>, lhs: Symbol,
                             prods: seq<Production>, acc: set<Symbol>, cache: Cache)
    requires IsFollowSolution(F) && IsNonTerminal(nt) && Below(cache, F)
    requires nt in visited && acc <= F[nt] && IsNonTerminal(lhs) && OwnProductions(lhs, prods)
    ensures ScanProductions(nt, visited, lhs, prods, acc, cache).0 <= F[nt]
    ensures Below(ScanProductions(nt, visited, lhs, prods, acc, cache).1, F)
    decreases NonTerminalSet - visited + {nt}, 2, |prods|
  {
    if prods != [] {
      ScanPositionsSound(F, nt, visited, lhs, prods[0], 0, acc, cache);
      var step := ScanPositions(nt, visited, lhs, prods[0], 0, acc, cache);
      ScanProductionsSound(F, nt, visited, lhs, prods[1..], step.0, step.1);
    }
  }

  lemma ScanPositionsSound(F: Cache, nt: Symbol, visited: set<Symbol>, lhs: Symbol, p: Production,
                           i: nat, acc: set<Symbol>, cache: Cache)
    requires IsFollowSolution(F) && IsNonTerminal(nt) && Below(cache, F)
    requires nt in visited && acc <= F[nt] && IsNonTerminal(lhs) && p in Productions(lhs)
    ensures ScanPositions(nt, visited, lhs, p, i, acc, cache).0 <= F[nt]
    ensures Below(ScanPositions(nt, visited, lhs, p, i, acc, cache).1, F)
    decreases NonTerminalSet - visited + {nt}, 1, |p| - i
  {
    if i < |p| {
      ScanAtSound(F, nt, visited, lhs, p, i, acc, cache);
      var step := ScanAt(nt, visited, lhs, p, i, acc, cache);
      ScanPositionsSound(F, nt, visited, lhs, p, i + 1, step.0, step.1);
    }
  }

  lemma ScanAtSound(F: Cache, nt: Symbol, visited: set<Symbol>, lhs: Symbol, p: Production,
                    i: nat, acc: set<Symbol>, cache: Cache)
    requires IsFollowSolution(F) && IsNonTerminal(nt) && Below(cache, F)
    requires nt in visited && acc <= F[nt] && IsNonTerminal(lhs) && p in Productions(lhs) && i < |p|
    ensures ScanAt(nt, visited, lhs, p, i, acc, cache).0 <= F[nt]
    ensures Below(ScanAt(nt, visited, lhs, p, i, acc, cache).1, F)
    decreases NonTerminalSet - visited + {nt}, 0, 0
  {
    if p[i] == nt {
      assert Closed(F, lhs, p, i);
      var fb := FirstOfString(p[i + 1..]);
      if (i + 1 == |p| || Epsilon in fb) && lhs != nt {
        FollowSound(F, lhs, visited, cache);
      }
    }
  }

  // Concrete evaluation for the fixed grammar.

  /** A scan over a production without `nt` changes nothing. */
  lemma {:induction false} ScanPositionsSkip(nt: Symbol, visited: set<Symbol>, lhs: Symbol, p: Production,
                                             i: nat, acc: set<Symbol>, cache: Cache)
    requires nt in visited && IsNonTerminal(lhs) && nt !in p
    ensures ScanPositions(nt, visited, lhs, p, i, acc, cache) == (acc, cache)
    decreases |p| - i
  {
    if i < |p| {
      ScanPositionsSkip(nt, visited, lhs, p, i + 1, acc, cache);
    }
  }

  /** A scan over productions none of which mention `nt` changes nothing. */
  lemma {:induction false} ScanProductionsSkip(nt: Symbol, visited: set<Symbol>, lhs: Symbol,
                                               prods: seq<Production>, acc: set<Symbol>, cache: Cache)
    requires nt in visited && IsNonTerminal(lhs)
    requires forall p :: p in prods ==> nt !in p
    ensures ScanProductions(nt, visited, lhs, prods, acc, cache) == (acc, cache)
  {
    if prods != [] {
      assert prods[0] in prods;
      assert forall p :: p in prods[1..] ==> p in prods;
      ScanPositionsSkip(nt, visited, lhs, prods[0], 0, acc, cache);
      ScanProductionsSkip(nt, visited, lhs, prods[1..], acc, cache);
    }
  }

  /** A rule of the fixed grammar whose productions do not mention `nt`. */
  lemma SkipRule(nt: Symbol, visited: set<Symbol>, x: Symbol, acc: set<Symbol>, cache: Cache)
    requires nt in visited && IsNonTerminal(x) && IsNonTerminal(nt)
    requires x == 'S' ==> nt != 'A' && nt != 'B'
    requires x == 'A' ==> nt != 'A' && nt != 'C'
    requires x == 'B' ==> nt != 'B' && nt != 'A'
    requires x == 'C' ==> nt != 'D'
    requires x == 'D' ==> nt != 'D' && nt != 'A'
    ensures ScanProductions(nt, visited, x, Productions(x), acc, cache) == (acc, cache)
  {
    RulesValues();
    ScanProductionsSkip(nt, visited, x, Productions(x), acc, cache);
  }

  /** A two-symbol production mentioning `nt` only at position 1. */
  lemma ScanPair(nt: Symbol, visited: set<Symbol>, lhs: Symbol, p: Production, acc: set<Symbol>, cache: Cache)
    requires nt in visited && IsNonTerminal(lhs) && |p| == 2 && p[0] != nt
    ensures ScanPositions(nt, visited, lhs, p, 0, acc, cache) == ScanAt(nt, visited, lhs, p, 1, acc, cache)
  {
    var s := ScanAt(nt, visited, lhs, p, 1, acc, cache);
    assert ScanPositions(nt, visited, lhs, p, 2, s.0, s.1) == s;
  }

  /** A two-symbol production ending in `nt`: FOLLOW(lhs) flows in, unless `lhs` is `nt`. */
  lemma ScanEndsWith(nt: Symbol, visited: set<Symbol>, lhs: Symbol, p: Production, acc: set<Symbol>, cache: Cache)
    requires nt in visited && IsNonTerminal(lhs) && |p| == 2 && p[0] != nt && p[1] == nt
    ensures var f := Follow(lhs, visited, cache);
            ScanPositions(nt, visited, lhs, p, 0, acc, cache) ==
            if lhs == nt then (acc, cache) else (acc + f.0, f.1)
  {
    ScanPair(nt, visited, lhs, p, acc, cache);
    assert |p[2..]| == 0;
  }

  /** A two-symbol production starting with `nt` and followed by a non-nullable symbol. */
  lemma ScanStartsWith(nt: Symbol, visited: set<Symbol>, lhs: Symbol, p: Production, acc: set<Symbol>, cache: Cache)
    requires nt in visited && IsNonTerminal(lhs) && |p| == 2 && p[0] == nt && p[1] != nt
    requires Epsilon !in FirstOfString(p[1..])
    ensures ScanPositions(nt, visited, lhs, p, 0, acc, cache) == (acc + FirstOfString(p[1..]), cache)
  {
    var fb := FirstOfString(p[1..]);
    assert fb - {Epsilon} == fb;
    var s := ScanAt(nt, visited, lhs, p, 0, acc, cache);
    assert s == (acc + fb, cache);
    assert ScanPositions(nt, visited, lhs, p, 2, s.0, s.1) == s;
    assert ScanPositions(nt, visited, lhs, p, 1, s.0, s.1) == s;
  }

  /** A rule with a single production. */
  lemma ScanOne(nt: Symbol, visited: set<Symbol>, lhs: Symbol, p: Production, acc: set<Symbol>, cache: Cache)
    requires nt in visited && IsNonTerminal(lhs)
    ensures ScanProductions(nt, visited, lhs, [p], acc, cache) == ScanPositions(nt, visited, lhs, p, 0, acc, cache)
  {
    var s := ScanPositions(nt, visited, lhs, p, 0, acc, cache);
    assert [p][1..] == [];
    assert ScanProductions(nt, visited, lhs, [], s.0, s.1) == s;
  }

  /** Two productions of a rule scanned one after the other. */
  lemma ScanTwo(nt: Symbol, visited: set<Symbol>, lhs: Symbol, p: Production, q: Production,
                acc: set<Symbol>, cache: Cache)
    requires nt in visited && IsNonTerminal(lhs)
    ensures var s := ScanPositions(nt, visited, lhs, p, 0, acc, cache);
            ScanProductions(nt, visited, lhs, [p, q], acc, cache) ==
            ScanPositions(nt, visited, lhs, q, 0, s.0, s.1)
  {
    var ps := [p, q];
    assert ps[1..] == [q] && ps[1..][1..] == [];
    var s := ScanPositions(nt, visited, lhs, p, 0, acc, cache);
    var t := ScanPositions(nt, visited, lhs, q, 0, s.0, s.1);
    assert ScanProductions(nt, visited, lhs, [q], s.0, s.1) == ScanProductions(nt, visited, lhs, [], t.0, t.1);
  }

  /** The outer loop over the declared rules, one rule at a time. */
  lemma ScanAllRules(nt: Symbol, visited: set<Symbol>, acc: set<Symbol>, cache: Cache)
    requires nt in visited
    ensures var s := ScanProductions(nt, visited, 'S', Productions('S'), acc, cache);
            var a := ScanProductions(nt, visited, 'A', Productions('A'), s.0, s.1);
            var b := ScanProductions(nt, visited, 'B', Productions('B'), a.0, a.1);
            var c := ScanProductions(nt, visited, 'C', Productions('C'), b.0, b.1);
            var d := ScanProductions(nt, visited, 'D', Productions('D'), c.0, c.1);
            ScanRules(nt, visited, NonTerminals, acc, cache) == d
  {
    var s := ScanProductions(nt, visited, 'S', Productions('S'), acc, cache);
    var a := ScanProductions(nt, visited, 'A', Productions('A'), s.0, s.1);
    ScanFirstTwoRules(nt, visited, acc, cache);
    ScanLastThreeRules(nt, visited, a.0, a.1);
  }

  /** The rounds for S and A. */
  lemma ScanFirstTwoRules(nt: Symbol, visited: set<Symbol>, acc: set<Symbol>, cache: Cache)
    requires nt in visited
    ensures var s := ScanProductions(nt, visited, 'S', Productions('S'), acc, cache);
            var a := ScanProductions(nt, visited, 'A', Productions('A'), s.0, s.1);
            ScanRules(nt, visited, NonTerminals, acc, cache) == ScanRules(nt, visited, ['B', 'C', 'D'], a.0, a.1)
  {
    var nts: seq<Symbol> := NonTerminals;
    var s := ScanProductions(nt, visited, 'S', Productions('S'), acc, cache);
    assert ScanRules(nt, visited, nts, acc, cache) == ScanRules(nt, visited, ['A', 'B', 'C', 'D'], s.0, s.1) by {
      ScanRulesStep(nt, visited, nts, acc, cache);
      assert nts[1..] == ['A', 'B', 'C', 'D'];
    }
    var l: seq<Symbol> := ['A', 'B', 'C', 'D'];
    ScanRulesStep(nt, visited, l, s.0, s.1);
    assert l[1..] == ['B', 'C', 'D'];
  }

  /** The rounds for B, C and D. */
  lemma ScanLastThreeRules(nt: Symbol, visited: set<Symbol>, acc: set<Symbol>, cache: Cache)
    requires nt in visited
    ensures var b := ScanProductions(nt, visited, 'B', Productions('B'), acc, cache);
            var c := ScanProductions(nt, visited, 'C', Productions('C'), b.0, b.1);
            var d := ScanProductions(nt, visited, 'D', Productions('D'), c.0, c.1);
            ScanRules(nt, visited, ['B', 'C', 'D'], acc, cache) == d
  {
    var b := ScanProductions(nt, visited, 'B', Productions('B'), acc, cache);
    var c := ScanProductions(nt, visited, 'C', Productions('C'), b.0, b.1);
    assert ScanRules(nt, visited, ['B', 'C', 'D'], acc, cache) == ScanRules(nt, visited, ['C', 'D'], b.0, b.1) by {
      var l: seq<Symbol> := ['B', 'C', 'D'];
      ScanRulesStep(nt, visited, l, acc, cache);
      assert l[1..] == ['C', 'D'];
    }
    assert ScanRules(nt, visited, ['C', 'D'], b.0, b.1) == ScanRules(nt, visited, ['D'], c.0, c.1) by {
      var l: seq<Symbol> := ['C', 'D'];
      ScanRulesStep(nt, visited, l, b.0, b.1);
      assert l[1..] == ['D'];
    }
    var l: seq<Symbol> := ['D'];
    ScanRulesStep(nt, visited, l, c.0, c.1);
    assert l[1..] == [];
  }

  /** One round of the outer loop. */
  lemma ScanRulesStep(nt: Symbol, visited: set<Symbol>, lhss: seq<Symbol>, acc: set<Symbol>, cache: Cache)
    requires nt in visited && |lhss| > 0 && forall j :: 0 <= j < |lhss| ==> IsNonTerminal(lhss[j])
    ensures var step := ScanProductions(nt, visited, lhss[0], Productions(lhss[0]), acc, cache);
            ScanRules(nt, visited, lhss, acc, cache) == ScanRules(nt, visited, lhss[1..], step.0, step.1)
  {
  }

  // The lemmas below take the visited set and the cache as parameters and state
  // their results relative to them: each holds for every visited set and cache with
  // the listed members and entries present or absent.

  /** S occurs on no right-hand side, so the scan for it finds nothing. */
  lemma ScanForS(v: set<Symbol>, c: Cache)
    requires 'S' in v
    ensures ScanRules('S', v, NonTerminals, {'$'}, c) == ({'$'}, c)
  {
    ScanAllRules('S', v, {'$'}, c);
    SkipRule('S', v, 'S', {'$'}, c);
    SkipRule('S', v, 'A', {'$'}, c);
    SkipRule('S', v, 'B', {'$'}, c);
    SkipRule('S', v, 'C', {'$'}, c);
    SkipRule('S', v, 'D', {'$'}, c);
  }

  /** FOLLOW(S) is just the end-marker. */
  lemma FollowOfS(v: set<Symbol>, c: Cache)
    requires 'S' !in v && 'S' !in c
    ensures Follow('S', v, c) == ({'$'}, c['S' := {'$'}])
  {
    ScanForS(v + {'S'}, c);
  }

  /** S -> A B gives B the cached FOLLOW(S). */
  lemma ScanSForB(v: set<Symbol>, c: Cache)
    requires 'B' in v && 'S' in c && c['S'] == {'$'}
    ensures ScanProductions('B', v, 'S', Productions('S'), {}, c) == ({'$'}, c)
  {
    RulesValues();
    ScanOne('B', v, 'S', ['A', 'B'], {}, c);
    ScanEndsWith('B', v, 'S', ['A', 'B'], {}, c);
    assert Follow('S', v, c) == ({'$'}, c);
    var none: set<Symbol> := {};
    assert none + {'$'} == {'$'};
  }

  /** B -> c B is a self-reference; B -> d A does not mention B. */
  lemma ScanBForB(v: set<Symbol>, acc: set<Symbol>, c: Cache)
    requires 'B' in v
    ensures ScanProductions('B', v, 'B', Productions('B'), acc, c) == (acc, c)
  {
    RulesValues();
    ScanTwo('B', v, 'B', ['c', 'B'], ['d', 'A'], acc, c);
    ScanEndsWith('B', v, 'B', ['c', 'B'], acc, c);
    ScanPositionsSkip('B', v, 'B', ['d', 'A'], 0, acc, c);
  }

  /** The scan for B: only S -> A B contributes. */
  lemma ScanForB(v: set<Symbol>, c: Cache)
    requires 'B' in v && 'S' in c && c['S'] == {'$'}
    ensures ScanRules('B', v, NonTerminals, {}, c) == ({'$'}, c)
  {
    ScanAllRules('B', v, {}, c);
    ScanSForB(v, c);
    SkipRule('B', v, 'A', {'$'}, c);
    ScanBForB(v, {'$'}, c);
    SkipRule('B', v, 'C', {'$'}, c);
    SkipRule('B', v, 'D', {'$'}, c);
  }

  /** Once FOLLOW(S) is cached, FOLLOW(B) is {$} whatever is being computed. */
  lemma FollowOfB(v: set<Symbol>, c: Cache)
    requires 'B' !in v && 'S' in c && c['S'] == {'$'} && 'B' !in c
    ensures Follow('B', v, c) == ({'$'}, c['B' := {'$'}])
  {
    ScanForB(v + {'B'}, c);
  }

  /** The productions of A scanned for C while A is being computed: A -> b C asks
      for FOLLOW(A), which is cut off. */
  lemma ScanAForC(v: set<Symbol>, c: Cache)
    requires 'A' in v && 'C' in v && 'A' !in c
    ensures ScanProductions('C', v, 'A', Productions('A'), {}, c) == ({}, c)
  {
    RulesValues();
    var pa := Productions('A');
    assert pa[1..] == [['b', 'C'], [Epsilon]] && pa[2..] == [[Epsilon]];
    ScanPositionsSkip('C', v, 'A', ['a', 'A'], 0, {}, c);
    assert ScanProductions('C', v, 'A', pa, {}, c) == ScanProductions('C', v, 'A', pa[1..], {}, c);
    ScanEndsWith('C', v, 'A', ['b', 'C'], {}, c);
    assert Follow('A', v, c) == ({}, c);
    var none: set<Symbol> := {};
    assert none + none == none;
    assert ScanProductions('C', v, 'A', pa[1..], {}, c) == ScanProductions('C', v, 'A', pa[2..], {}, c);
    ScanProductionsSkip('C', v, 'A', pa[2..], {}, c);
  }

  lemma ScanForC(v: set<Symbol>, c: Cache)
    requires 'A' in v && 'C' in v && 'A' !in c
    ensures ScanRules('C', v, NonTerminals, {}, c) == ({}, c)
  {
    ScanAllRules('C', v, {}, c);
    SkipRule('C', v, 'S', {}, c);
    ScanAForC(v, c);
    SkipRule('C', v, 'B', {}, c);
    SkipRule('C', v, 'C', {}, c);
    SkipRule('C', v, 'D', {}, c);
  }

  /** FOLLOW(C) while A is being computed: the cut-off result is empty. */
  lemma FollowOfCWithinA(v: set<Symbol>, c: Cache)
    requires 'A' in v && 'C' !in v && 'A' !in c && 'C' !in c
    ensures Follow('C', v, c) == ({}, c['C' := {}])
  {
    ScanForC(v + {'C'}, c);
  }

  /** The productions of C scanned for D: C -> a D computes (and caches) the cut-off
      FOLLOW(C); C -> b D reuses it. */
  lemma ScanCForD(v: set<Symbol>, c: Cache)
    requires 'A' in v && 'D' in v && 'C' !in v && 'A' !in c && 'C' !in c
    ensures ScanProductions('D', v, 'C', Productions('C'), {}, c) == ({}, c['C' := {}])
  {
    var c3 := c['C' := {}];
    RulesValues();
    FollowOfCWithinA(v, c);
    ScanTwo('D', v, 'C', ['a', 'D'], ['b', 'D'], {}, c);
    ScanEndsWith('D', v, 'C', ['a', 'D'], {}, c);
    ScanEndsWith('D', v, 'C', ['b', 'D'], {}, c3);
    assert Follow('C', v, c3) == ({}, c3);
    var none: set<Symbol> := {};
    assert none + none == none;
  }

  lemma ScanForD(v: set<Symbol>, c: Cache)
    requires 'A' in v && 'D' in v && 'C' !in v && 'A' !in c && 'C' !in c
    ensures ScanRules('D', v, NonTerminals, {}, c) == ({}, c['C' := {}])
  {
    var c3 := c['C' := {}];
    ScanAllRules('D', v, {}, c);
    SkipRule('D', v, 'S', {}, c);
    SkipRule('D', v, 'A', {}, c);
    SkipRule('D', v, 'B', {}, c);
    ScanCForD(v, c);
    ScanTwo('D', v, 'D', ['c', 'D'], ['d', 'A'], {}, c3);
    ScanEndsWith('D', v, 'D', ['c', 'D'], {}, c3);
    ScanPositionsSkip('D', v, 'D', ['d', 'A'], 0, {}, c3);
  }

  /** FOLLOW(D) while A is being computed; D -> c D is a self-reference. */
  lemma FollowOfDWithinA(v: set<Symbol>, c: Cache)
    requires 'A' in v && 'C' !in v && 'D' !in v && 'A' !in c && 'C' !in c && 'D' !in c
    ensures Follow('D', v, c) == ({}, c['C' := {}]['D' := {}])
  {
    ScanForD(v + {'D'}, c);
  }

  /** S -> A B contributes FIRST(B) to FOLLOW(A). */
  lemma ScanSForA(v: set<Symbol>, c: Cache)
    requires 'A' in v
    ensures ScanProductions('A', v, 'S', Productions('S'), {}, c) == ({'c', 'd'}, c)
  {
    RulesValues();
    FirstValues();
    assert ['A', 'B'][1..] == ['B'];
    assert FirstOfString(['B']) == {'c', 'd'};
    ScanOne('A', v, 'S', ['A', 'B'], {}, c);
    ScanStartsWith('A', v, 'S', ['A', 'B'], {}, c);
    assert {} + {'c', 'd'} == {'c', 'd'};
  }

  /** A -> a A is a self-reference; the rest of A's productions do not mention A. */
  lemma ScanAForA(v: set<Symbol>, acc: set<Symbol>, c: Cache)
    requires 'A' in v
    ensures ScanProductions('A', v, 'A', Productions('A'), acc, c) == (acc, c)
  {
    RulesValues();
    var pa := Productions('A');
    assert pa[1..] == [['b', 'C'], [Epsilon]];
    ScanEndsWith('A', v, 'A', ['a', 'A'], acc, c);
    ScanProductionsSkip('A', v, 'A', pa[1..], acc, c);
  }

  /** B -> d A contributes FOLLOW(B). */
  lemma ScanBForA(v: set<Symbol>, acc: set<Symbol>, c: Cache)
    requires 'A' in v && 'B' !in v && 'S' in c && c['S'] == {'$'} && 'B' !in c
    ensures ScanProductions('A', v, 'B', Productions('B'), acc, c) == (acc + {'$'}, c['B' := {'$'}])
  {
    RulesValues();
    FollowOfB(v, c);
    ScanTwo('A', v, 'B', ['c', 'B'], ['d', 'A'], acc, c);
    ScanPositionsSkip('A', v, 'B', ['c', 'B'], 0, acc, c);
    ScanEndsWith('A', v, 'B', ['d', 'A'], acc, c);
  }

  /** D -> d A contributes FOLLOW(D), which computes the cut-off FOLLOW(C) and FOLLOW(D). */
  lemma ScanDForA(v: set<Symbol>, acc: set<Symbol>, c: Cache)
    requires 'A' in v && 'C' !in v && 'D' !in v && 'A' !in c && 'C' !in c && 'D' !in c
    ensures ScanProductions('A', v, 'D', Productions('D'), acc, c) == (acc, c['C' := {}]['D' := {}])
  {
    RulesValues();
    FollowOfDWithinA(v, c);
    ScanTwo('A', v, 'D', ['c', 'D'], ['d', 'A'], acc, c);
    ScanPositionsSkip('A', v, 'D', ['c', 'D'], 0, acc, c);
    ScanEndsWith('A', v, 'D', ['d', 'A'], acc, c);
    assert acc + {} == acc;
  }

  /** The scan for A over the rules of S, A and B. */
  lemma ScanForAUpToB(v: set<Symbol>, c: Cache)
    requires 'A' in v && 'B' !in v && 'S' in c && c['S'] == {'$'} && 'B' !in c
    ensures var s := ScanProductions('A', v, 'S', Productions('S'), {}, c);
            var a := ScanProductions('A', v, 'A', Productions('A'), s.0, s.1);
            ScanProductions('A', v, 'B', Productions('B'), a.0, a.1) == ({'c', 'd', '$'}, c['B' := {'$'}])
  {
    ScanSForA(v, c);
    ScanAForA(v, {'c', 'd'}, c);
    ScanBForA(v, {'c', 'd'}, c);
    assert {'c', 'd'} + {'$'} == {'c', 'd', '$'};
  }

  lemma ScanForA(v: set<Symbol>, c: Cache)
    requires 'A' in v && 'B' !in v && 'C' !in v && 'D' !in v
    requires 'S' in c && c['S'] == {'$'} && 'A' !in c && 'B' !in c && 'C' !in c && 'D' !in c
    ensures ScanRules('A', v, NonTerminals, {}, c) ==
            ({'c', 'd', '$'}, c['B' := {'$'}]['C' := {}]['D' := {}])
  {
    var c2 := c['B' := {'$'}];
    var acc: set<Symbol> := {'c', 'd', '$'};
    ScanAllRules('A', v, {}, c);
    ScanForAUpToB(v, c);
    SkipRule('A', v, 'C', acc, c2);
    ScanDForA(v, acc, c2);
  }

  /** FOLLOW(A) from a cache holding only FOLLOW(S) = {$}: its occurrence in S -> A B
      gives FIRST(B); B -> d A and D -> d A add FOLLOW(B) and the cut-off FOLLOW(D),
      caching FOLLOW(B), FOLLOW(C) and FOLLOW(D) along the way. */
  lemma FollowOfA(v: set<Symbol>, c: Cache)
    requires 'A' !in v && 'B' !in v && 'C' !in v && 'D' !in v
    requires 'S' in c && c['S'] == {'$'} && 'A' !in c && 'B' !in c && 'C' !in c && 'D' !in c
    ensures Follow('A', v, c) ==
            ({'c', 'd', '$'}, c['B' := {'$'}]['C' := {}]['D' := {}]['A' := {'c', 'd', '$'}])
  {
    ScanForA(v + {'A'}, c);
  }

  /** What `getAllFollowSets` computes for the fixed grammar. */
  const ComputedFollow: Cache := map['S' := {'$'}, 'B' := {'$'}, 'C' := {}, 'D' := {}, 'A' := {'c', 'd', '$'}]

  /** Once every listed non-terminal is cached, the rest of the loop leaves the cache alone. */
  lemma {:induction false} FollowAllCached(nts: seq<Symbol>, sets: map<Symbol, set<Symbol>>, cache: Cache)
    requires forall i :: 0 <= i < |nts| ==> nts[i] in cache
    ensures FollowAll(nts, sets, cache).1 == cache
  {
    if nts != [] {
      FollowAllCached(nts[1..], sets[nts[0] := cache[nts[0]]], cache);
    }
  }

  /** The first two rounds of `getAllFollowSets`' loop, from a cleared cache. */
  lemma FollowAllRun(nts: seq<Symbol>, sets: map<Symbol, set<Symbol>>, cache: Cache)
    requires nts == NonTerminals && sets == map[] && cache == map[]
    ensures FollowAll(nts, sets, cache).1 == ComputedFollow
  {
    var none: set<Symbol> := {};
    assert nts[0] == 'S' && nts[1] == 'A';
    FollowOfS(none, cache);
    var c1 := cache['S' := {'$'}];
    var s1 := sets['S' := {'$'}];
    assert FollowAll(nts, sets, cache) == FollowAll(nts[1..], s1, c1);
    FollowOfA(none, c1);
    var c5 := c1['B' := {'$'}]['C' := {}]['D' := {}]['A' := {'c', 'd', '$'}];
    var s2 := s1['A' := {'c', 'd', '$'}];
    assert FollowAll(nts[1..], s1, c1) == FollowAll(nts[2..], s2, c5);
    assert nts[2..] == ['B', 'C', 'D'];
    FollowAllCached(nts[2..], s2, c5);
    assert c5 == ComputedFollow;
  }

  /** The FOLLOW sets `getAllFollowSets` reports for the fixed grammar, whatever the
      cache held before. FOLLOW(C) and FOLLOW(D) are empty: C and D are first reached
      from inside FOLLOW(A), where the revisit of A is cut off, and those cut-off
      results are cached and reused. */
  lemma FollowValues(prior: Cache)
    ensures GetAllFollowSets(prior).0 == ComputedFollow
  {
    FollowAllRun(NonTerminals, map[], map[]);
    assert GetAllFollowSets(prior).1 == ComputedFollow;
  }

  /** The computed FOLLOW sets entry by entry. */
  lemma FollowEntries(prior: Cache)
    ensures var f := GetAllFollowSets(prior).0;
      f['S'] == {'$'} && f['A'] == {'c', 'd', '$'} && f['B'] == {'$'} && f['C'] == {} && f['D'] == {}
  {
    FollowValues(prior);
  }

  /** The least solution of the FOLLOW equations of the fixed grammar. */
  const TextbookFollow: Cache :=
    map['S' := {'$'}, 'A' := {'c', 'd', '$'}, 'B' := {'$'}, 'C' := {'c', 'd', '$'}, 'D' := {'c', 'd', '$'}]

  lemma TextbookFollowIsSolution()
    ensures IsFollowSolution(TextbookFollow)
  {
    forall x, p, i | x in NonTerminalSet && p in Productions(x) && 0 <= i < |p|
      ensures Closed(TextbookFollow, x, p, i)
    {
      ClosedInTextbook(x, p, i);
    }
  }

  /** Where a non-terminal occurs in a production: last, with the pairs of left side and
      occurring non-terminal listed, or as the A of S -> A B. */
  lemma NonTerminalPositions(x: Symbol, p: Production, i: nat)
    requires x in NonTerminalSet && p in Productions(x) && i < |p| && IsNonTerminal(p[i])
    ensures (i + 1 == |p| &&
             (x, p[i]) in {('S', 'B'), ('A', 'A'), ('A', 'C'), ('B', 'B'), ('B', 'A'), ('C', 'D'), ('D', 'D'), ('D', 'A')}) ||
            (x == 'S' && p == ['A', 'B'] && i == 0)
  {
    RulesValues();
  }

  lemma FirstOfB()
    ensures FirstOfString(['B']) == {'c', 'd'}
  {
    FirstValues();
  }

  lemma ClosedInTextbook(x: Symbol, p: Production, i: nat)
    requires x in NonTerminalSet && p in Productions(x) && i < |p|
    ensures Closed(TextbookFollow, x, p, i)
  {
    if IsNonTerminal(p[i]) {
      NonTerminalPositions(x, p, i);
      if i + 1 == |p| {
        assert p[i + 1..] == [];
      } else {
        assert p[i + 1..] == ['B'];
        FirstOfB();
      }
    }
  }

  /** The productions along which the end-marker and c, d travel down to D. */
  lemma ChainProductions()
    ensures ['A', 'B'] in Productions('S') && ['d', 'A'] in Productions('B')
    ensures ['b', 'C'] in Productions('A') && ['a', 'D'] in Productions('C')
  {
    RulesValues();
  }

  lemma SolutionClosed(F: Cache, x: Symbol, p: Production, i: nat)
    requires IsFollowSolution(F) && x in NonTerminalSet && p in Productions(x) && i < |p|
    ensures Closed(F, x, p, i)
  {
  }

  /** Every solution contains the textbook sets, so they are the least one. */
  lemma TextbookFollowIsLeast(F: Cache)
    requires IsFollowSolution(F)
    ensures forall x :: x in TextbookFollow ==> TextbookFollow[x] <= F[x]
  {
    ChainProductions();
    var ab: seq<Symbol> := ['A', 'B'];
    assert 'c' in F['A'] && 'd' in F['A'] by {
      SolutionClosed(F, 'S', ab, 0);
      assert ab[1..] == ['B'];
      FirstOfB();
    }
    assert F['S'] <= F['B'] by {
      SolutionClosed(F, 'S', ab, 1);
      assert ab[2..] == [];
    }
    assert F['B'] <= F['A'] by {
      var da: seq<Symbol> := ['d', 'A'];
      SolutionClosed(F, 'B', da, 1);
      assert da[2..] == [];
    }
    assert F['A'] <= F['C'] by {
      var bc: seq<Symbol> := ['b', 'C'];
      SolutionClosed(F, 'A', bc, 1);
      assert bc[2..] == [];
    }
    assert F['C'] <= F['D'] by {
      var ad: seq<Symbol> := ['a', 'D'];
      SolutionClosed(F, 'C', ad, 1);
      assert ad[2..] == [];
    }
  }

  /** The computed sets stay within the least solution, agree with it on S, A and B,
      and miss every member of FOLLOW(C) and FOLLOW(D); so they are not themselves a
      solution. */
  lemma ComputedFollowUnderApproximates(prior: Cache)
    ensures forall x :: x in NonTerminalSet ==> GetAllFollowSets(prior).0[x] <= TextbookFollow[x]
    ensures GetAllFollowSets(prior).0['C'] == {} != TextbookFollow['C']
    ensures !IsFollowSolution(GetAllFollowSets(prior).0)
  {
    FollowValues(prior);
    RulesValues();
    assert ['b', 'C'] in Productions('A');
    assert !Closed(ComputedFollow, 'A', ['b', 'C'], 1);
  }

}
