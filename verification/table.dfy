/**
 * The LL(1) parsing table: one row per declared non-terminal, one cell per
 * declared terminal, each cell empty or holding one production of its row.
 * A production claims the terminals of FIRST of its right-hand side and, when
 * that right-hand side is nullable, the terminals of FOLLOW of its rule; a
 * later production overwrites an earlier one's claim on the same cell.
 */
module ParsingTable {

  import opened Wrappers
  import opened Grammar
  import opened FirstSets
  import opened FollowSets

  type Row = map<Symbol, Option<Production>>
  type Table = map<Symbol, Row>

  /** Every declared terminal, with an empty cell. */
  const InitialRow: Row := map t | t in TerminalSet :: None

  /** Every declared non-terminal, with an all-empty row. */
  const InitialTable: Table := map a | a in NonTerminalSet :: InitialRow

  /** The declared terminals production `p` claims, given FOLLOW of its rule: the
      members of FIRST(p) other than the marker, and FOLLOW of the rule when FIRST(p)
      holds the marker. */
  function Claims(p: Production, followA: set<Symbol>): (r: set<Symbol>)
    ensures r <= TerminalSet
    ensures Epsilon !in r
  {
    var f := FirstOfString(p);
    set t | t in TerminalSet && ((t in f && t != Epsilon) || (Epsilon in f && t in followA))
  }

  /** Writes `p` into every claimed cell of a row. */
  function WriteClaims(row: Row, p: Production, claims: set<Symbol>): (r: Row)
    ensures r.Keys == row.Keys + claims
  {
    map t | t in row.Keys + claims :: if t in claims then Some(p) else row[t]
  }

  /** The productions of one rule written into its row in declaration order. */
  function FillRow(row: Row, prods: seq<Production>, followA: set<Symbol>): (r: Row)
    ensures row.Keys <= r.Keys
    ensures row.Keys == TerminalSet ==> r.Keys == TerminalSet
    ensures forall t :: t in r ==> (t in row && r[t] == row[t]) || (r[t].Some? && r[t].value in prods)
    decreases |prods|
  {
    if prods == [] then row
    else FillRow(WriteClaims(row, prods[0], Claims(prods[0], followA)), prods[1..], followA)
  }

  /** The rules `lhss` written into the table in order, each row against FOLLOW of its rule. */
  function FillRules(table: Table, lhss: seq<Symbol>, follow: map<Symbol, set<Symbol>>): (r: Table)
    requires forall j :: 0 <= j < |lhss| ==> lhss[j] in table && lhss[j] in follow
    ensures r.Keys == table.Keys
    ensures (forall a :: a in table ==> table[a].Keys == TerminalSet) ==>
              forall a :: a in r ==> r[a].Keys == TerminalSet
    ensures WellFormedTable(table) ==> WellFormedTable(r)
  {
    if lhss == [] then table
    else
      var a := lhss[0];
      var next := table[a := FillRow(table[a], Productions(a), follow[a])];
      FillOneRule(table, a, follow[a]);
      FillRules(next, lhss[1..], follow)
  }

  /** Writing one rule's row keeps the rows, their columns and the rows' own productions. */
  lemma FillOneRule(table: Table, a: Symbol, followA: set<Symbol>)
    requires a in table
    ensures var next := table[a := FillRow(table[a], Productions(a), followA)];
            next.Keys == table.Keys &&
            ((forall b :: b in table ==> table[b].Keys == TerminalSet) ==> forall b :: b in next ==> next[b].Keys == TerminalSet) &&
            (WellFormedTable(table) ==> WellFormedTable(next))
  {
  }

  lemma InitialTableFacts()
    ensures InitialTable.Keys == NonTerminalSet
    ensures forall a :: a in InitialTable ==> InitialTable[a].Keys == TerminalSet
    ensures WellFormedTable(InitialTable)
    ensures forall j :: 0 <= j < |NonTerminals| ==> NonTerminals[j] in InitialTable
  {
    assert InitialRow.Keys == TerminalSet;
  }

  /** `createParsingTable` while the FOLLOW cache holds `prior`: FOLLOW is recomputed
      from a cleared cache, and the rules are written into the initial table in
      declaration order. (FIRST of every non-terminal is also computed by the source
      and then not used.) */
  function CreateParsingTable(prior: Cache): (r: Table)
    ensures r.Keys == NonTerminalSet
    ensures forall a :: a in r ==> r[a].Keys == TerminalSet
    ensures WellFormedTable(r)
  {
    var follow := GetAllFollowSets(prior).0;
    InitialTableFacts();
    FillRules(InitialTable, NonTerminals, follow)
  }

  /** The reference definition: a cell holds the last production of the rule that
      claims it, or stays as it was when none does. */
  function LastClaimant(prods: seq<Production>, t: Symbol, followA: set<Symbol>): Option<Production>
  {
    if prods == [] then None
    else
      var last := prods[|prods| - 1];
      if t in Claims(last, followA) then Some(last) else LastClaimant(prods[..|prods| - 1], t, followA)
  }

  /** Every filled cell of the table holds one of its own row's productions. */
  predicate WellFormedTable(table: Table)
  {
    forall a, t :: a in table && t in table[a] && table[a][t].Some? ==> table[a][t].value in Productions(a)
  }

  /** The last claimant is a claimant; it is found whenever some production claims
      the cell; and no later production claims it. */
  lemma {:induction false} LastClaimantIsLast(prods: seq<Production>, t: Symbol, followA: set<Symbol>)
    ensures LastClaimant(prods, t, followA).Some? <==>
            exists j :: 0 <= j < |prods| && t in Claims(prods[j], followA)
    ensures LastClaimant(prods, t, followA).Some? ==>
            exists j :: 0 <= j < |prods| && prods[j] == LastClaimant(prods, t, followA).value &&
                        t in Claims(prods[j], followA) &&
                        forall k :: j < k < |prods| ==> t !in Claims(prods[k], followA)
  {
    if prods != [] {
      var n := |prods| - 1;
      var init := prods[..n];
      LastClaimantIsLast(init, t, followA);
      assert forall j :: 0 <= j < n ==> init[j] == prods[j];
      if t !in Claims(prods[n], followA) {
        if LastClaimant(init, t, followA).Some? {
          var j :| 0 <= j < |init| && init[j] == LastClaimant(init, t, followA).value &&
                   t in Claims(init[j], followA) &&
                   forall k :: j < k < |init| ==> t !in Claims(init[k], followA);
          assert prods[j] == init[j];
        }
      }
    }
  }

  /** Filling with one more production writes it over the row already filled. */
  lemma {:induction false} FillRowSnoc(row: Row, prods: seq<Production>, q: Production, followA: set<Symbol>)
    ensures FillRow(row, prods + [q], followA) ==
            WriteClaims(FillRow(row, prods, followA), q, Claims(q, followA))
    decreases |prods|
  {
    if prods == [] {
      assert prods + [q] == [q];
      assert [q][1..] == [];
    } else {
      var row' := WriteClaims(row, prods[0], Claims(prods[0], followA));
      assert (prods + [q])[0] == prods[0];
      assert (prods + [q])[1..] == prods[1..] + [q];
      FillRowSnoc(row', prods[1..], q, followA);
    }
  }

  /** Last write wins: filling a row with a rule's productions in order leaves in each
      cell exactly its last claimant, or the cell's old content when none claims it. */
  lemma {:induction false} FillRowLastWins(row: Row, prods: seq<Production>, followA: set<Symbol>, t: Symbol)
    requires t in row
    ensures FillRow(row, prods, followA)[t] ==
            match LastClaimant(prods, t, followA)
            case Some(p) => Some(p)
            case None => row[t]
    decreases |prods|
  {
    if prods != [] {
      var n := |prods| - 1;
      var init := prods[..n];
      assert prods == init + [prods[n]];
      FillRowSnoc(row, init, prods[n], followA);
      FillRowLastWins(row, init, followA, t);
    }
  }

  /** Rules written one after another: each listed rule's row is filled once from the
      row it had, the other rows are untouched. */
  lemma {:induction false} FillRulesRows(table: Table, lhss: seq<Symbol>, follow: map<Symbol, set<Symbol>>, a: Symbol)
    requires forall j :: 0 <= j < |lhss| ==> lhss[j] in table && lhss[j] in follow
    requires forall i, j :: 0 <= i < j < |lhss| ==> lhss[i] != lhss[j]
    requires a in table
    ensures FillRules(table, lhss, follow)[a] ==
            if a in lhss then FillRow(table[a], Productions(a), follow[a]) else table[a]
  {
    if lhss != [] {
      var b := lhss[0];
      var table' := table[b := FillRow(table[b], Productions(b), follow[b])];
      assert forall j :: 1 <= j < |lhss| ==> lhss[j] != b;
      assert forall j :: 0 <= j < |lhss[1..]| ==> lhss[1..][j] == lhss[j + 1];
      FillRulesRows(table', lhss[1..], follow, a);
      assert a in lhss <==> a == b || a in lhss[1..];
    }
  }

  /** Each row of the table is its rule's productions written into an empty row. */
  lemma TableRow(prior: Cache, a: Symbol)
    requires a in NonTerminalSet
    ensures a in CreateParsingTable(prior)
    ensures CreateParsingTable(prior)[a] == FillRow(InitialRow, Productions(a), GetAllFollowSets(prior).0[a])
  {
    var follow := GetAllFollowSets(prior).0;
    var nts := NonTerminals;
    NonTerminalsListedOnce();
    InitialTableFacts();
    assert a in nts by { DeclarationsConsistent(); }
    FillRulesRows(InitialTable, nts, follow, a);
  }

  /** The table's cells: every declared (non-terminal, terminal) pair has one, nothing
      else does, and each holds the last production of its rule that claims it, or
      nothing. */
  lemma TableCells(prior: Cache)
    ensures CreateParsingTable(prior).Keys == NonTerminalSet
    ensures forall a :: a in NonTerminalSet ==> CreateParsingTable(prior)[a].Keys == TerminalSet
    ensures forall a, t :: a in NonTerminalSet && t in TerminalSet ==>
              CreateParsingTable(prior)[a][t] ==
              LastClaimant(Productions(a), t, GetAllFollowSets(prior).0[a])
  {
    var follow := GetAllFollowSets(prior).0;
    assert InitialTable.Keys == NonTerminalSet;
    assert InitialRow.Keys == TerminalSet;
    forall a, t | a in NonTerminalSet && t in TerminalSet
      ensures CreateParsingTable(prior)[a].Keys == TerminalSet
      ensures CreateParsingTable(prior)[a][t] == LastClaimant(Productions(a), t, follow[a])
    {
      TableRow(prior, a);
      FillRowLastWins(InitialRow, Productions(a), follow[a], t);
    }
  }

  lemma TableKeys(prior: Cache)
    ensures CreateParsingTable(prior).Keys == NonTerminalSet
    ensures forall a :: a in NonTerminalSet ==> CreateParsingTable(prior)[a].Keys == TerminalSet
  {
    TableCells(prior);
  }

  /** A filled cell holds a production of its row that claims it. */
  lemma CellSound(prior: Cache, a: Symbol, t: Symbol)
    requires a in NonTerminalSet && t in TerminalSet
    ensures a in CreateParsingTable(prior) && t in CreateParsingTable(prior)[a]
    ensures var cell := CreateParsingTable(prior)[a][t];
            cell.Some? ==> cell.value in Productions(a) && t in Claims(cell.value, GetAllFollowSets(prior).0[a])
  {
    TableCells(prior);
    LastClaimantIsLast(Productions(a), t, GetAllFollowSets(prior).0[a]);
  }

  /** Repeated calls give identical tables, whatever the FOLLOW cache held. */
  lemma TableIgnoresStaleCache(prior1: Cache, prior2: Cache)
    ensures CreateParsingTable(prior1) == CreateParsingTable(prior2)
  {
    FollowSetsIgnoreStaleCache(prior1, prior2);
  }

  // The table of the fixed grammar.

  /** A production led by a declared terminal claims exactly that terminal. */
  lemma ClaimsTerminalLed(p: Production, followA: set<Symbol>)
    requires |p| > 0 && p[0] in TerminalSet
    ensures Claims(p, followA) == {p[0]}
  {
    assert p == [p[0]] + p[1..];
    FirstScanTerminalLed(p[0], p[1..]);
    DeclarationsConsistent();
    assert p[0] != Epsilon;
  }

  /** The empty production claims the declared terminals of FOLLOW of its rule. */
  lemma ClaimsEpsilon(followA: set<Symbol>)
    ensures Claims([Epsilon], followA) == followA * TerminalSet
  {
  }

  /** S -> A B claims FIRST(A B) = {a, b, c, d}. */
  lemma ClaimsOfStart(followA: set<Symbol>)
    ensures Claims(['A', 'B'], followA) == {'a', 'b', 'c', 'd'}
  {
    FirstValues();
    var ab: seq<Symbol> := ['A', 'B'];
    assert ab[1..] == ['B'] && ['B'][1..] == [];
    FirstOfTwoTerminalLed('B', 'c', 'B', 'd', 'A');
    assert FirstScan(['B']) == {'c', 'd'};
    assert FirstOfString(ab) == {'a', 'b', 'c', 'd'};
  }

  /** No two productions of one rule claim the same terminal. */
  predicate NoConflicts(follow: map<Symbol, set<Symbol>>)
    requires NonTerminalSet <= follow.Keys
  {
    forall a, i, j :: a in NonTerminalSet && 0 <= i < j < |Productions(a)| ==>
      Claims(Productions(a)[i], follow[a]) * Claims(Productions(a)[j], follow[a]) == {}
  }

  /** FOLLOW sets that agree with the grammar's on S, A and B, the rules whose claims
      depend on them; C's and D's productions all start with a terminal. */
  predicate FollowOfGrammar(follow: map<Symbol, set<Symbol>>)
  {
    NonTerminalSet <= follow.Keys &&
    follow['S'] == {'$'} && follow['A'] == {'c', 'd', '$'} && follow['B'] == {'$'}
  }

  /** The claims of every production of the fixed grammar under the computed FOLLOW sets. */
  lemma ClaimsValues(follow: map<Symbol, set<Symbol>>)
    requires FollowOfGrammar(follow)
    ensures Claims(['A', 'B'], follow['S']) == {'a', 'b', 'c', 'd'}
    ensures Claims(['a', 'A'], follow['A']) == {'a'} && Claims(['b', 'C'], follow['A']) == {'b'}
    ensures Claims([Epsilon], follow['A']) == {'c', 'd', '$'}
    ensures Claims(['c', 'B'], follow['B']) == {'c'} && Claims(['d', 'A'], follow['B']) == {'d'}
    ensures Claims(['a', 'D'], follow['C']) == {'a'} && Claims(['b', 'D'], follow['C']) == {'b'}
    ensures Claims(['c', 'D'], follow['D']) == {'c'} && Claims(['d', 'A'], follow['D']) == {'d'}
  {
    ClaimsOfStart(follow['S']);
    ClaimsTerminalLed(['a', 'A'], follow['A']);
    ClaimsTerminalLed(['b', 'C'], follow['A']);
    ClaimsEpsilon(follow['A']);
    ClaimsTerminalLed(['c', 'B'], follow['B']);
    ClaimsTerminalLed(['d', 'A'], follow['B']);
    ClaimsTerminalLed(['a', 'D'], follow['C']);
    ClaimsTerminalLed(['b', 'D'], follow['C']);
    ClaimsTerminalLed(['c', 'D'], follow['D']);
    ClaimsTerminalLed(['d', 'A'], follow['D']);
  }

  /** The fixed grammar is LL(1) under the FOLLOW sets the engine computes: no cell is
      claimed twice, so last-write-wins never discards a production. */
  lemma GrammarHasNoConflicts(prior: Cache)
    ensures NoConflicts(GetAllFollowSets(prior).0)
  {
    var follow := GetAllFollowSets(prior).0;
    FollowEntries(prior);
    forall a, i, j | a in NonTerminalSet && 0 <= i < j < |Productions(a)|
      ensures Claims(Productions(a)[i], follow[a]) * Claims(Productions(a)[j], follow[a]) == {}
    {
      RuleHasNoConflicts(follow, a, i, j);
    }
  }

  lemma RuleHasNoConflicts(follow: map<Symbol, set<Symbol>>, a: Symbol, i: int, j: int)
    requires FollowOfGrammar(follow) && a in NonTerminalSet && 0 <= i < j < |Productions(a)|
    ensures Claims(Productions(a)[i], follow[a]) * Claims(Productions(a)[j], follow[a]) == {}
  {
    ClaimsValues(follow);
    RulesValues();
  }

  /** The cell the fixed grammar's table is expected to hold. */
  function ExpectedCell(a: Symbol, t: Symbol): Option<Production>
  {
    match a
    case 'S' => if t in {'a', 'b', 'c', 'd'} then Some(['A', 'B']) else None
    case 'A' => if t == 'a' then Some(['a', 'A']) else if t == 'b' then Some(['b', 'C'])
                else if t in {'c', 'd', '$'} then Some([Epsilon]) else None
    case 'B' => if t == 'c' then Some(['c', 'B']) else if t == 'd' then Some(['d', 'A']) else None
    case 'C' => if t == 'a' then Some(['a', 'D']) else if t == 'b' then Some(['b', 'D']) else None
    case 'D' => if t == 'c' then Some(['c', 'D']) else if t == 'd' then Some(['d', 'A']) else None
    case _ => None
  }

  lemma LastClaimantOfOne(p0: Production, t: Symbol, followA: set<Symbol>)
    ensures LastClaimant([p0], t, followA) == if t in Claims(p0, followA) then Some(p0) else None
  {
    assert [p0][..0] == [];
  }

  lemma LastClaimantOfTwo(p0: Production, p1: Production, t: Symbol, followA: set<Symbol>)
    ensures LastClaimant([p0, p1], t, followA) ==
            if t in Claims(p1, followA) then Some(p1) else LastClaimant([p0], t, followA)
  {
    assert [p0, p1][..1] == [p0];
  }

  lemma LastClaimantOfThree(p0: Production, p1: Production, p2: Production, t: Symbol, followA: set<Symbol>)
    ensures LastClaimant([p0, p1, p2], t, followA) ==
            if t in Claims(p2, followA) then Some(p2) else LastClaimant([p0, p1], t, followA)
  {
    assert [p0, p1, p2][..2] == [p0, p1];
  }

  lemma LastClaimantValues(follow: map<Symbol, set<Symbol>>, a: Symbol, t: Symbol)
    requires FollowOfGrammar(follow) && a in NonTerminalSet && t in TerminalSet
    ensures LastClaimant(Productions(a), t, follow[a]) == ExpectedCell(a, t)
  {
    ClaimsValues(follow);
    RulesValues();
    if a == 'S' {
      LastClaimantOfOne(['A', 'B'], t, follow[a]);
    } else if a == 'A' {
      LastClaimantOfThree(['a', 'A'], ['b', 'C'], [Epsilon], t, follow[a]);
      LastClaimantOfTwo(['a', 'A'], ['b', 'C'], t, follow[a]);
      LastClaimantOfOne(['a', 'A'], t, follow[a]);
    } else if a == 'B' {
      LastClaimantOfTwo(['c', 'B'], ['d', 'A'], t, follow[a]);
      LastClaimantOfOne(['c', 'B'], t, follow[a]);
    } else if a == 'C' {
      LastClaimantOfTwo(['a', 'D'], ['b', 'D'], t, follow[a]);
      LastClaimantOfOne(['a', 'D'], t, follow[a]);
    } else {
      LastClaimantOfTwo(['c', 'D'], ['d', 'A'], t, follow[a]);
      LastClaimantOfOne(['c', 'D'], t, follow[a]);
    }
  }

  lemma CellValue(prior: Cache, a: Symbol, t: Symbol)
    requires a in NonTerminalSet && t in TerminalSet
    ensures CreateParsingTable(prior)[a][t] == ExpectedCell(a, t)
  {
    var follow := GetAllFollowSets(prior).0;
    TableCells(prior);
    assert CreateParsingTable(prior)[a][t] == LastClaimant(Productions(a), t, follow[a]);
    FollowEntries(prior);
    LastClaimantValues(follow, a, t);
  }

  /** The table `createParsingTable` builds for the fixed grammar. */
  lemma TableValues(prior: Cache)
    ensures forall a, t :: a in NonTerminalSet && t in TerminalSet ==>
              CreateParsingTable(prior)[a][t] == ExpectedCell(a, t)
  {
    forall a, t | a in NonTerminalSet && t in TerminalSet
      ensures CreateParsingTable(prior)[a][t] == ExpectedCell(a, t)
    {
      CellValue(prior, a, t);
    }
  }

  /** A table with exactly the rows and cells of the fixed grammar's table. */
  predicate IsGrammarTable(table: Table)
  {
    table.Keys == NonTerminalSet && WellFormedTable(table) &&
    forall a :: a in table ==> table[a].Keys == TerminalSet && forall t :: t in table[a] ==> table[a][t] == ExpectedCell(a, t)
  }

  lemma CreatedTableIsGrammarTable(prior: Cache)
    ensures IsGrammarTable(CreateParsingTable(prior))
  {
    TableValues(prior);
  }

  /** Built from the least FOLLOW sets instead of the computed ones, every cell of the
      table is the same: the sets differ only on C and D, which have no empty production. */
  lemma TextbookFollowSameTable(prior: Cache, a: Symbol, t: Symbol)
    requires a in NonTerminalSet && t in TerminalSet
    ensures LastClaimant(Productions(a), t, TextbookFollow[a]) == CreateParsingTable(prior)[a][t]
  {
    assert FollowOfGrammar(TextbookFollow);
    LastClaimantValues(TextbookFollow, a, t);
    CellValue(prior, a, t);
  }

}
