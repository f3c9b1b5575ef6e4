# LL(1) engine of a predictive-parsing teaching tool

A Dafny model of the grammar-analysis and parsing engine of a small web tool for
top-down predictive parsing. The tool's grammar is fixed:

    S -> A B      A -> a A | b C | ε      B -> c B | d A
    C -> a D | b D      D -> c D | d A

The terminals are a, b, c, d and the end-marker `$`. The model covers the following.

- **Grammar** (`grammar.dfy`, module `Grammar`): the declarations and symbol classification.
  Any symbol that is neither declared nor ε counts as a terminal.
- **FIRST sets** (`first.dfy`, module `FirstSets`): `calculateFirst`,
  `calculateFirstOfString` and `getAllFirstSets`. They are characterised against the
  textbook definition through nullable prefixes.
- **FOLLOW sets** (`follow.dfy`, module `FollowSets`): `calculateFollow` with its
  process-wide cache and its `visited` guard, and `getAllFollowSets`, which clears the
  cache first. The cache is an explicit map threaded in and out.
  - The computed values are proved: FOLLOW(S) = {$}, FOLLOW(A) = {c, d, $},
    FOLLOW(B) = {$}, FOLLOW(C) = FOLLOW(D) = {}.
  - They are compared with the least solution of the FOLLOW equations.
- **Parsing table** (`table.dfy`, module `ParsingTable`): `createParsingTable`.
  - Writes are modelled in order, so the last write to a cell wins. This is proved
    against an independent "last claimant" definition.
  - Every cell is computed.
  - No two productions of a rule claim the same terminal, so the grammar is LL(1).
- **Derivations** (`derivation.dfy`, module `Derivation`): leftmost derivations in the
  grammar. They are the reference against which the analyzer and the generator are judged.
- **Analyzer** (`analyzer.dfy`, module `Analyzer`): `PredictiveParser.analyze` and
  `addTraceStep`. The loop is a terminating recursive function over (stack, input
  position, trace).
  - Soundness: when an input is accepted, the `Aplicar` lines of its trace form a
    leftmost derivation, from S, of the tokens before the first `$`. So the non-blank
    characters before the first `$` of an accepted input form a sentence of the grammar.
    Characters after that `$` are never read: "d$x" is accepted.
  - The "stack empty" and "unknown symbol" outcomes are unreachable.
  - Concrete runs are computed.
- **Generator** (`generator.dfy`, module `Generator`): `generateFromSymbol` and
  `generateSentence`. `Math.random()` is an oracle: the i-th draw is `oracle(i)`, a real
  in [0, 1).
- **Interactive generator** (`interactive.dfy`, module `Interactive`): `generateInteractive`,
  with its shown sentential form, its `indexOf`/`splice` rewriting and its step list.

`wrappers.dfy` holds the `Option` type.

## Model

| member | source | states |
|---|---|---|
| Grammar.DeclarationsConsistent | grammar.js:5-29 | The terminal list, the non-terminal list and the rule table's keys agree with the sets used for classification. The start symbol is a non-terminal and `$` is a terminal. |
| Grammar.ClassificationPartition | grammar.js:31-39 | Every symbol other than ε is exactly one of terminal or non-terminal. ε is neither. A symbol in neither list is a terminal. |
| Grammar.RulesWellFormed | grammar.js:5-20 | Every non-terminal has a production. ε occurs only as the whole production `[ε]`. No production contains `$`. |
| Grammar.RulesValues | grammar.js:5-20 | The productions of S, A, B, C and D, in declaration order. |
| Grammar.ProductionsRanked | grammar.js:5-20 | The leading non-terminals of each production rank strictly below its left-hand side. This is why the unguarded recursion of `calculateFirst` terminates on this grammar. |
| FirstSets.First | grammar.js:42-89 | FIRST of a terminal is itself. FIRST of ε is empty, because ε is neither terminal nor non-terminal. ε is never in FIRST of a symbol that is not a non-terminal. |
| FirstSets.FirstOfString | grammar.js:92-123 | An empty or ε-led string has FIRST exactly {ε}. |
| FirstSets.FirstScanEpsilon | grammar.js:100-120 | The scan adds ε exactly when every symbol of the string is nullable. |
| FirstSets.FirstScanMember | grammar.js:100-120 | A terminal is added exactly when it is in FIRST of some symbol whose predecessors are all nullable. |
| FirstSets.FirstOfStringCharacterized | grammar.js:92-123 | For a string not led by ε, FIRST is the textbook FIRST of a sequence, in both directions, for ε and for terminals. |
| FirstSets.FirstOfProductionsMember | grammar.js:59-85 | A symbol is in the union over a rule's productions exactly when it is in FIRST of one of them. |
| FirstSets.FirstOfNonTerminal | grammar.js:56-86 | FIRST of a non-terminal is the union of its productions' FIRST. It is nullable exactly when some production is empty, ε-led or entirely nullable. |
| FirstSets.AllFirstSets | grammar.js:193-201 | `getAllFirstSets` has one entry per non-terminal, each its FIRST set. |
| FirstSets.FirstOfTerminalsValues | grammar.js:46-53 | FIRST of a, b, c and d. |
| FirstSets.FirstOfTwoTerminalLed | grammar.js:59-85 | A rule with two terminal-led productions has exactly those two terminals as FIRST. |
| FirstSets.FirstValues | grammar.js:42-89 | FIRST(A) = {a, b, ε}, FIRST(B) = FIRST(D) = {c, d}, FIRST(C) = {a, b}, FIRST(S) = {a, b, c, d}. |
| FollowSets.Follow | grammar.js:128-190 | A cached non-terminal returns its cached set and leaves the cache alone. A non-terminal already in `visited` gives {} and caches nothing. Otherwise the result is cached under the non-terminal. The cache only grows, and only with entries outside `visited`. ε never enters a set. `$` is in FOLLOW(S). |
| FollowSets.ScanRules | grammar.js:148-185 | The loop over rules only adds to the set, only extends the cache, and keeps ε out. |
| FollowSets.ScanProductions | grammar.js:149-184 | The loop over one rule's productions keeps the same facts. |
| FollowSets.ScanPositions | grammar.js:150-183 | The loop over a production's positions keeps the same facts. |
| FollowSets.ScanAt | grammar.js:151-182 | A position not holding the non-terminal changes nothing. Otherwise only additions and cache extensions happen. |
| FollowSets.FollowAllFacts | grammar.js:208-214 | The loop of `getAllFollowSets` gives one entry per non-terminal. It leaves the cache equal to the returned map, with no ε. |
| FollowSets.FollowAllKeeps | grammar.js:208-214 | An entry already computed and not revisited is kept unchanged. |
| FollowSets.GetAllFollowSets | grammar.js:204-215 | Keys are the five non-terminals. The cache left behind equals the result. No set holds ε. FOLLOW(S) holds `$`. |
| FollowSets.StartFollowHasEndMarker | grammar.js:142-145 | From a cleared cache, FOLLOW(S) contains `$`. |
| FollowSets.FollowSetsIgnoreStaleCache | grammar.js:204-215 | The result does not depend on what the cache held before the call, because it is cleared first. |
| FollowSets.FollowSound | grammar.js:128-190 | Every set `calculateFollow` returns, and every entry it caches, lies within any solution of the FOLLOW equations. |
| FollowSets.ScanRulesSound | grammar.js:148-185 | The rule loop keeps the set and the cache within any solution. |
| FollowSets.ScanProductionsSound | grammar.js:149-184 | The production loop keeps the set and the cache within any solution. |
| FollowSets.ScanPositionsSound | grammar.js:150-183 | The position loop keeps the set and the cache within any solution. |
| FollowSets.ScanAtSound | grammar.js:151-182 | One occurrence adds only FIRST(β) without ε and FOLLOW of the rule's left side, both within any solution. |
| FollowSets.ScanPositionsSkip | grammar.js:150-151 | A production without the non-terminal contributes nothing. |
| FollowSets.ScanProductionsSkip | grammar.js:149-151 | A rule with no occurrence of the non-terminal contributes nothing. |
| FollowSets.FollowOfS | grammar.js:128-190 | Computing FOLLOW(S) yields {$} and caches it. |
| FollowSets.FollowOfB | grammar.js:128-190 | With FOLLOW(S) cached, FOLLOW(B) is {$}. |
| FollowSets.FollowOfCWithinA | grammar.js:134-137 | Inside FOLLOW(A), FOLLOW(C) meets A in `visited`, gets {} back and caches {}. |
| FollowSets.FollowOfDWithinA | grammar.js:134-137 | Inside FOLLOW(A), FOLLOW(D) likewise computes and caches {} (and C's {}). |
| FollowSets.FollowOfA | grammar.js:128-190 | FOLLOW(A) is {c, d, $}, caching B, C and D on the way. |
| FollowSets.FollowAllCached | grammar.js:130-132 | Once every non-terminal is cached, the loop changes nothing. |
| FollowSets.FollowValues | grammar.js:204-215 | `getAllFollowSets` returns S = {$}, A = {c, d, $}, B = {$}, C = {}, D = {}. |
| FollowSets.FollowEntries | grammar.js:204-215 | The same values, entry by entry. |
| FollowSets.TextbookFollowIsSolution | grammar.js:142-182 | The sets S = {$}, A = {c, d, $}, B = {$}, C = D = {c, d, $} satisfy every FOLLOW equation of the grammar. |
| FollowSets.TextbookFollowIsLeast | grammar.js:142-182 | Every solution contains them, so they are the least solution. |
| FollowSets.ComputedFollowUnderApproximates | grammar.js:134-137 | The computed sets lie within the least solution. FOLLOW(C) = {} differs from it, so the computed sets are not a solution. |
| ParsingTable.Claims | grammar.js:234-253 | The cells a production writes are terminals or `$`, never ε. |
| ParsingTable.FillRow | grammar.js:233-254 | Filling a row keeps its keys. Every cell either keeps its value or holds one of the rule's own productions. |
| ParsingTable.FillRules | grammar.js:232-255 | Filling keeps the rows and their columns. A table holding only own productions stays so. |
| ParsingTable.CreateParsingTable | grammar.js:218-258 | One row per non-terminal and one column per terminal. Every cell is empty or one of its row's productions. |
| ParsingTable.LastClaimantIsLast | grammar.js:232-255 | The reference cell value is a production claiming the terminal, with no later production claiming it. It is absent exactly when no production claims it. |
| ParsingTable.FillRowSnoc | grammar.js:233-241 | Filling with one more production is writing its claims over the earlier result. |
| ParsingTable.FillRowLastWins | grammar.js:233-254 | After filling, each cell holds the last production claiming it, or keeps its initial null. |
| ParsingTable.FillRulesRows | grammar.js:232-255 | Each row of the filled table is its rule's row filled with its own productions and FOLLOW set. |
| ParsingTable.TableRow | grammar.js:218-258 | A row of `createParsingTable` is the initial null row filled with the rule's productions. |
| ParsingTable.TableCells | grammar.js:218-258 | Every cell is the last claimant under the computed FOLLOW sets. |
| ParsingTable.TableKeys | grammar.js:224-229 | The table has exactly the non-terminal rows and terminal columns. |
| ParsingTable.CellSound | grammar.js:237-252 | A filled cell holds a production of its row that claims its column. |
| ParsingTable.TableIgnoresStaleCache | grammar.js:204-220 | Two calls give the same table, whatever the FOLLOW cache held: the table is idempotent. |
| ParsingTable.ClaimsTerminalLed | grammar.js:234-241 | A production led by a terminal claims exactly that terminal. |
| ParsingTable.ClaimsEpsilon | grammar.js:243-253 | The empty production claims exactly the terminals of FOLLOW. |
| ParsingTable.ClaimsOfStart | grammar.js:234-241 | S -> A B claims a, b, c and d. |
| ParsingTable.ClaimsValues | grammar.js:232-255 | The claims of every production of the grammar. |
| ParsingTable.GrammarHasNoConflicts | grammar.js:232-255 | No two productions of one rule claim the same terminal, so no cell is overwritten and the grammar is LL(1). |
| ParsingTable.RuleHasNoConflicts | grammar.js:232-255 | The same, for one rule and one pair of its productions. |
| ParsingTable.LastClaimantOfOne | grammar.js:237-240 | The last claimant among one production. |
| ParsingTable.LastClaimantOfTwo | grammar.js:237-240 | The last claimant among two productions is the second if it claims the terminal, else that of the first. |
| ParsingTable.LastClaimantOfThree | grammar.js:237-240 | The same step for three productions. |
| ParsingTable.LastClaimantValues | grammar.js:232-255 | Under the grammar's FOLLOW sets the last claimants are the expected cells. |
| ParsingTable.CellValue | grammar.js:218-258 | Each cell of `createParsingTable` is the expected one. |
| ParsingTable.TableValues | grammar.js:218-258 | The whole table: S -> A B on a, b, c, d; A -> a A on a, b C on b, ε on c, d, $; B -> c B on c, d A on d; C -> a D on a, b D on b; D -> c D on c, d A on d; every other cell null. |
| ParsingTable.CreatedTableIsGrammarTable | grammar.js:218-258 | The table built is the grammar's table. |
| ParsingTable.TextbookFollowSameTable | grammar.js:243-253 | Built from the least FOLLOW sets, every cell would be the same. |
| Analyzer.NonBlank | analyzer.js:16 | The kept characters are non-white characters of the input, no more of them than the input has. |
| Analyzer.NonBlankAppend | analyzer.js:16 | Filtering distributes over concatenation, so order is kept. |
| Analyzer.NonBlankExtremes | analyzer.js:16 | An input without white space is kept whole. An all-white input becomes empty. |
| Analyzer.Tokenize | analyzer.js:16-17 | The tokens end with `$`. All earlier tokens are non-white characters of the input. |
| Analyzer.TokenizeExamples | analyzer.js:16-17 | Tokens of "d", " d\n", "dd", "d$x", "" and "x". |
| Analyzer.Record | analyzer.js:87-97 | A trace line keeps the step number and action. It shows the whole stack reversed, top first, and the input from the current token to the end. |
| Analyzer.Lookup | analyzer.js:52-54 | A production found in the table is one of the non-terminal's own. |
| Analyzer.ExpandShowsBody | analyzer.js:62-69 | Pushing right to left leaves the production's body, read from the top, above the rest of the stack. The empty production pushes nothing. |
| Analyzer.Run | analyzer.js:26-83 | The loop terminates. Each iteration adds one step and one trace line. Steps are numbered by position. `accepted` holds exactly when there is no error. The last line reports the outcome. A mismatch names the current token at its position and a terminal that differs from it. A missing table entry names the current token at its position and a non-terminal whose table row has no entry for it. |
| Analyzer.Analyze | analyzer.js:11-84 | At least one step. One trace line per step plus the initial one, numbered in order. The first line shows the stack S $ and all tokens. Accepted exactly when there is no error, and the last line reports the outcome. Mismatch and missing-entry errors name the token at their position, as in `Run`. |
| Analyzer.ConsistentAfterMatch | analyzer.js:33-41 | Matching a terminal keeps the invariant: the matched prefix followed by the stack, read top down, is the current leftmost sentential form. |
| Analyzer.ConsistentAfterApply | analyzer.js:51-73 | Expanding the top non-terminal extends the recorded derivation by that leftmost step. |
| Analyzer.ConsistentAtAccept | analyzer.js:35-37 | At acceptance, the recorded derivation yields exactly the tokens before the first `$`, a sentence. |
| Analyzer.RunSound | analyzer.js:26-83 | From a consistent configuration, neither the empty-stack nor the unknown-symbol outcome occurs. Acceptance means the trace's productions derive, leftmost from S, the tokens before the first `$`. |
| Analyzer.AnalyzeSound | analyzer.js:11-84 | For any table of the grammar's own productions: never an empty stack or unknown symbol. An accepted input's trace is a leftmost derivation of its non-blank characters before the first `$`, so those form a sentence of the grammar. |
| Analyzer.ParserSound | analyzer.js:4-84 | With the table `createParsingTable` builds, the non-blank characters before the first `$` of an accepted input form a sentence of the grammar. |
| Analyzer.RejectsFirstToken | analyzer.js:51-60 | A first token with no production for S fails at step 1 with that non-terminal and token at position 0. |
| Analyzer.AnalyzeExamples | analyzer.js:11-84 | "d" and " d\n" are accepted in 6 steps. "dd" fails at step 6 at position 1, where `$` was expected and d found. "" fails at step 1 with no production for S on `$`. "x" fails at step 1 with no production for S on x. "d$x" is accepted. |
| Analyzer.ParserExamples | analyzer.js:4-84 | The same outcomes with the table `createParsingTable` builds. |
| Generator.ChooseIndex | analyzer.js:127 | `Math.floor(u * n)` is a valid index, the unique k with k <= u·n < k + 1. |
| Generator.Choose | analyzer.js:125-127 | The drawn production is one of the symbol's own. |
| Generator.GenerateWith | analyzer.js:105-137 | The draw counter never moves back. Past the limit the cut-off string is returned and nothing is drawn. |
| Generator.GenerateWithWord | analyzer.js:105-137 | With cut-off strings over a–d, a grammar symbol generates a string over a–d. |
| Generator.GenerateAllWithWord | analyzer.js:129-133 | The same for the symbols of a production. |
| Generator.SentenceIsWord | analyzer.js:100-137 | `generateSentence` returns a string over a, b, c, d for every sequence of draws. |
| Generator.LanguageOfC | grammar.js:16 | Every sentence derived from C starts with a or b. |
| Generator.LanguageOfTerminal | grammar.js:31-39 | A symbol that is not a non-terminal derives only itself. |
| Generator.SourceCutOffLeavesLanguage | analyzer.js:106-118 | `generateFromSymbol('C', 0, 0)` returns "d", which C does not derive. Past the limit C and any terminal give "", which they do not derive. |
| Generator.CompletedCutOffDerives | analyzer.js:106-118 | Each completed cut-off string is a sentence of its non-terminal. |
| Generator.CompletedGeneratesLanguage | analyzer.js:105-137 | With the completed cut-off, what a grammar symbol generates is a sentence it derives, for every depth, limit and draw sequence. The derivation is returned. |
| Generator.CompletedExpansion | analyzer.js:124-134 | The same for a non-terminal expanded above the limit. |
| Generator.CompletedGeneratesAll | analyzer.js:129-133 | The concatenation generated for a production's symbols is derived from them. |
| Generator.CompletedSentenceInLanguage | analyzer.js:100-102 | `generateSentence` with the completed cut-off always yields a sentence of the language of S. |
| Interactive.IndexOf | analyzer.js:152-153 | `indexOf` finds the first occurrence, and is absent exactly when the symbol is not in the form. |
| Interactive.Rewritten | analyzer.js:180-188 | When the symbol is in the form, one occurrence is traded for the body, so the length and multiset change accordingly. A step is appended, numbered next, showing the new form. Otherwise nothing changes. The kept state survives. |
| Interactive.RewritesFirstOccurrence | analyzer.js:180-182 | The rewrite happens at the first occurrence of the symbol. The new form is the symbols before it, then the body, then the symbols after it. |
| Interactive.CutOff | analyzer.js:149-163 | Past the limit only an A is removed, as the step `A -> ε`. Nothing is generated. |
| Interactive.GenerateStep | analyzer.js:148-196 | Draws, sentence and steps only grow. Steps stay numbered 1, 2, …, each a rule of the grammar, and the last shows the current form. |
| Interactive.Expansion | analyzer.js:172-194 | Expanding a non-terminal uses at least one draw. The sentence and steps only grow, and the kept state survives. |
| Interactive.GenerateStepsOf | analyzer.js:191-193 | The same for the loop over a production's symbols. |
| Interactive.GenerateInteractive | analyzer.js:140-204 | The steps are numbered 1, 2, … and each applies a production of its non-terminal. |
| Interactive.StepSentence | analyzer.js:148-196 | The walk appends what `generateFromSymbol` with an empty cut-off generates, with the same draws. |
| Interactive.StepsSentence | analyzer.js:191-193 | The same for a production's symbols. |
| Interactive.InteractiveSentence | analyzer.js:140-204 | The interactive sentence is `generateFromSymbol`'s from S under the same draws with an empty cut-off, and it is a string over a–d. |

## Left out

- The presentation layer (`app.js`) is not part of this model: rendering, buttons and text boxes.
- `Math.random()` is an oracle parameter (`nat -> real` in [0, 1)). The model says nothing about the distribution of draws.
- Text rendering is left out. The model keeps symbol sequences and datatypes instead of the joined strings:
  - trace lines: `join(' ')` of the stack, `join('')` of the input
  - the Portuguese action labels and error messages
  - the `derivation.join(' ') || 'ε'` and `production` strings of the interactive steps
- `input.split('')` splits into UTF-16 code units. The model splits into Unicode scalar values, so a character outside the Basic Multilingual Plane is one token here and two in the source.
- The FOLLOW cache is a module-level object in the source. Here it is a map passed in and returned. The table builder takes the cache left by earlier calls as the parameter `prior`.
- `createParsingTable` calls `getAllFirstSets()` and never uses the result. The model leaves out that call; `AllFirstSets` models `getAllFirstSets` on its own.
- `calculateFirst` has no recursion guard. Its termination is proved for this grammar only, through a ranking of its non-terminals.
- Analyzer.AnalyzeSound: proves soundness only, that the non-blank characters before the first `$` of an accepted input form a sentence. It does not prove the converse, that every sentence of the language is accepted.
- Analyzer.AnalyzeSound: says nothing about what follows the first `$`. `analyze` accepts as soon as `$` on the stack matches a `$` token (analyzer.js:34-37), without checking that this token is the last one. So "d$x" is accepted although no sentence contains `$` or x (`Analyzer.AnalyzeExamples`, `Analyzer.ParserExamples`). This is modelled as written.
- Interactive.GenerateStep: does not state that the shown forms make a derivation. `indexOf` rewrites the first occurrence of the symbol, which after a cut-off can be a non-terminal left behind earlier rather than the one being expanded. Past the limit only A is removed, so other non-terminals stay in the shown form. Both are modelled as written.
- Two behaviours of the code, modelled as written:
  - `analyze("dd")` stops with a mismatch at position 1 (expected `$`, found d). See `Analyzer.AnalyzeExamples`.
  - `calculateFirst('ε')` returns the empty set, because ε is neither a terminal nor a non-terminal.

## Findings

| source | as written | input that shows it | evidently intended | confidence | as-written member | corrected member |
|---|---|---|---|---|---|---|
| analyzer.js:106-118 | Past the depth limit, `generateFromSymbol` returns "" for every symbol except A, B and D. That includes terminals and the non-terminals C and S. | `generateFromSymbol('C', 0, 0)`: C -> a D with a and D past the limit gives "" + "d" = "d". C derives only strings starting with a or b. | Past the limit, each symbol yields a sentence it derives: a shortest sentence for a non-terminal, the terminal itself for a terminal. | not executed | Generator.SourceCutOffLeavesLanguage | Generator.CompletedSentenceInLanguage |
| grammar.js:134-137 | A non-terminal met again inside its own computation gets {}, and the caller caches its incomplete result. FOLLOW(C) and FOLLOW(D) are cached as {} while computing FOLLOW(A). | `getAllFollowSets()` returns FOLLOW(C) = {}. The least solution of the FOLLOW equations has FOLLOW(C) = {c, d, $}. | FOLLOW sets that solve the FOLLOW equations. The parsing table built from them is the same, because C and D have no empty production. | not executed | FollowSets.ComputedFollowUnderApproximates | ParsingTable.TextbookFollowSameTable |
