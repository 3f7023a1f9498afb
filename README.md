# bnf_rules — a Dafny model of the LR(1) parser generator and its runtime

bnf_rules turns a grammar written in a BNF/EBNF notation into a table-driven LR(1) parser. The
model covers its whole core:

- the **front end** (`parse_rules`, `parse_rule`): grammar tokens become a map of rules. Optional
  `[ ]`, repeated `{ }` and grouped `( )` parts become synthetic rules named `" n"` from a shared
  counter (`NonDuplicateNumber`);
- the **generator** (`ParserGenerator`):
  - `new` adds the start rule ` source ::= source`, splits rules into single-pattern rules and
    numbers the symbols;
  - `search_nulls_and_first_set` computes the nullable rules and the FIRST sets by fixpoint
    iteration;
  - `generate_parser` builds LR(1)-style item sets (`add_items` expands each state), fills the
    shift/reduce/goto/accept table, reports conflicts, and emits the arrays the runtime reads;
- the **lexer** (`Lexer::scan`): longest match over the terminal matchers, blanks dropped, lines and
  columns written into the tokens, one EOF token at the end;
- the **runtime parser** (`__parse`): the LR loop over those arrays. It builds the AST, splices the
  children of synthetic rules into their parent, merges positions, and unsets internal symbol ids.

## Modules

| file | module |
|---|---|
| wrappers.dfy | `Wrappers`: Option and Result |
| grammar.dfy | `Grammar`: symbols, rules, single-pattern rules, operations and their encoding |
| names.dfy | `SymbolNames`: the counter and synthetic names |
| frontend.dfy | `FrontEnd`: the grammar front end |
| analysis.dfy | `Analysis`: nullable set, FIRST sets, `get_first_set` |
| items.dfy | `Items`: LR(1) items and `add_items` |
| automaton.dfy | `Automaton`: the state worklist of `generate_parser` |
| table.dfy | `Table`: `insert_opreration`, the operations of a state, and the table rows |
| generator.dfy | `Generator`: the `ParserGenerator` class and the emitted arrays |
| lexer.dfy | `Lexer`: token positions and the scanner |
| parser.dfy | `Parser`: the runtime parser |

The form of the model follows the source:

- Loops become methods with invariants. Each is proved equal to a specification function, and the
  properties are lemmas about that function.
- `ParserGenerator` and `NonDuplicateNumber` are classes, because their methods update fields.
- Values the source owns exclusively are datatypes: `LRGroup` inside the state map, and
  `TokenPosition`, whose `marge` updates a plain struct. Operations on them take the value and
  return the new one.
- A `HashMap`/`HashSet` is visited in whatever order the map chooses. The model picks each element
  with `:|`, so every proved property holds for every order.

Behaviour of the code worth noting, which the model keeps:

- Lexer ties: when two matchers return the same greatest length, the earlier matcher in the list
  wins. It does not matter whether the matcher is a literal or a regex (lexer.rs:87-93).
  `Lexer.BestMatchFacts` states this.
- Line and column after CRLF: the code puts `b` of `"a\r\nb"` at line 2, column 3, not column 1.
  The column count continues from the column of the `\r` (lexer.rs:170-201).
  `Lexer.CrLfColumnAsWritten` shows this.
- Positions of reduced nodes: the runtime merges the children's positions with `marge` as
  written (parser.rs:218, 222, 344). An empty child followed by a non-empty child at the same
  offset gives a node of length 0 (see Findings). `Parser.MergeAllLosesLength` shows this, and
  `Parser.MergeAllCovers` states when the merge does cover every child.
- Unreferenced rules: a user rule that no alternative names gets no symbol id. It still has
  single-pattern rules, so `generate_parser` fails with "Symbol's id is not found" while building
  `left_side_symbol_ids` (lib.rs:757-764, 964-968). `Generator.UnreferencedRuleHasNoId` shows this.
- Spurious conflicts: `add_items` looks for an item to merge into by comparing the
  marker-stripped alternative with the unstripped one. Only the items present when the pass began
  are searched. So a state can hold two equal items, and the second write of their Reduce is
  reported as a conflict. One such grammar is `source ::= e "y" | e "y" "w"; e ::= | "a"` (lib.rs:912-938).
  The model keeps this behaviour.

## Model

| member | source | states |
|---|---|---|
| Grammar.WithoutContents | bnf_rules_parser/src/lib.rs:1112-1127 | removing markers keeps exactly the symbols outside the dropped set, never lengthens the alternative, and leaves one without markers unchanged |
| Grammar.WithoutAppend | bnf_rules_parser/src/lib.rs:366-374 | removing markers element by element: the filter of `p + [x]` is the filter of `p` followed by `x` unless `x` is dropped |
| Grammar.WithoutIdempotent | bnf_rules_parser/src/lib.rs:366-374 | removing the markers a second time changes nothing |
| Grammar.NewSinglePatternRule | bnf_rules_parser/src/lib.rs:1112-1127 | `SinglePatternRule::new` keeps the root name and every non-`Null` symbol in order, and no `Null` remains |
| Grammar.ToTuple | bnf_rules_parser/src/lib.rs:1142-1157 | the code of an operation is never the no-operation code 0 and never exceeds the Accept code; Accept is exactly `(4, 0)` |
| Grammar.EncodeCellRoundTrip | bnf_rules_parser/src/lib.rs:1150-1157 | the runtime's decoding of a cell (generated LR_TABLE pairs) gives back the cell; distinct cells have distinct codes; an empty cell is exactly `(0, 0)` |
| SymbolNames.Decimal | bnf_rules_parser/src/lib.rs:337-339 | the decimal text of a number is non-empty and made of digits only |
| SymbolNames.DecimalRoundTrip | bnf_rules_parser/src/lib.rs:337-339 | reading the decimal text back gives the number |
| SymbolNames.SymbolName | bnf_rules_parser/src/lib.rs:337-339 | the synthetic name starts with a space, so no user identifier equals it, and it is never the start rule's name ` source` |
| SymbolNames.SymbolNameInjective | bnf_rules_parser/src/lib.rs:320-340 | distinct counter values give distinct synthetic names, so every synthetic rule is fresh |
| SymbolNames.NonDuplicateNumber.constructor | bnf_rules_parser/src/lib.rs:326-330 | the counter starts at 0 |
| SymbolNames.NonDuplicateNumber.Next | bnf_rules_parser/src/lib.rs:332-335 | the counter grows by one and the new value is returned |
| SymbolNames.NonDuplicateNumber.AsSymbolName | bnf_rules_parser/src/lib.rs:337-339 | increments the counter and returns the name of the new value |
| FrontEnd.Next | bnf_rules_parser/src/lib.rs:94-100 | the index moves by one; the result is the following token exactly when one exists, and is an error past the end |
| FrontEnd.CheckNextPunct | bnf_rules_parser/src/lib.rs:78-91 | succeeds exactly when the following token exists and is the punctuation asked for; the index moves by one either way |
| FrontEnd.ExpectPuncts | bnf_rules_parser/src/lib.rs:35-39 | succeeds exactly when the given punctuation characters follow in order and one more token comes after; returns that token's index |
| FrontEnd.ExpectAssignment | bnf_rules_parser/src/lib.rs:54-57 | the `:=` check after a rule name is the check for the characters `:` `=` then one more token |
| FrontEnd.HeaderAfter | bnf_rules_parser/src/lib.rs:41-62 | finds the first later `:`, i.e. the start of the next rule's header, with no `:` between; None exactly when no `:` follows |
| FrontEnd.Register | bnf_rules_parser/src/lib.rs:218-234 | a synthetic name whose alternatives are already known re-uses the earlier rule and changes nothing; any other rule is inserted under its name, and a synthetic one is recorded as known |
| FrontEnd.ParseRule | bnf_rules_parser/src/lib.rs:104-237 | the recursive parse of one rule equals its specification, and the counter ends where the specification says |
| FrontEnd.ParseRules | bnf_rules_parser/src/lib.rs:12-74 | the loop over rule headers equals its specification |
| FrontEnd.ParseRuleInv | bnf_rules_parser/src/lib.rs:104-237 | parse_rule keeps the rule-map invariant (synthetic names fresh, known alternatives sound, alternatives well shaped) and only adds rules. The returned name names a rule with exactly the parsed alternatives: the given name when it is not synthetic, otherwise a synthetic rule with the same alternatives |
| FrontEnd.AlternativesInv | bnf_rules_parser/src/lib.rs:111-216 | the body loop of parse_rule keeps the invariant, only grows the state, and closes only well-shaped alternatives |
| FrontEnd.AlternativesGroupInv | bnf_rules_parser/src/lib.rs:158-197 | the same at a delimited group |
| FrontEnd.AlternativesParenInv | bnf_rules_parser/src/lib.rs:159-166 | the same at a `( )` group, whose rule is named by the counter |
| FrontEnd.AlternativesWrappedInv | bnf_rules_parser/src/lib.rs:167-190 | the same at a `{ }` or `[ ]` group |
| FrontEnd.AlternativesAtWrapped | bnf_rules_parser/src/lib.rs:167-196 | at a `{ }` or `[ ]` group the counter advances by two and the wrapper rule takes the first name: an error in the body is the loop's error, otherwise the loop goes on after the group with the wrapper's symbol appended |
| FrontEnd.AlternativesAtParen | bnf_rules_parser/src/lib.rs:158-166 | at a `( )` group the counter advances by one: an error in the body is the loop's error, otherwise the loop goes on after the group with the group's rule symbol appended |
| FrontEnd.AlternativesAtPunct | bnf_rules_parser/src/lib.rs:119-131 | at a punctuation other than the separator bar the loop fails with "Invalid punctuation."; a bar closes the alternative being built, an empty one as `[Null]`, and starts an empty one |
| FrontEnd.EmptyAlternativeIsNull | bnf_rules_parser/src/lib.rs:119-131 | a body made of a bar then `a` has the alternatives `[Null]` and `[a]` |
| FrontEnd.InvalidPunctuation | bnf_rules_parser/src/lib.rs:119-122 | a rule body starting with a punctuation other than the separator bar is an "Invalid punctuation." error |
| FrontEnd.WrappedBodyInv | bnf_rules_parser/src/lib.rs:167-190 | the body of a `{ }` or `[ ]` group followed by its repeat or optional wrapper rule keeps the invariant and only grows the state |
| FrontEnd.InsertWrapperInv | bnf_rules_parser/src/lib.rs:171-189 | inserting the repeat or optional wrapper under its own fresh name keeps the invariant |
| FrontEnd.GrowsTransitive | bnf_rules_parser/src/lib.rs:104-237 | "only grows the state" composes over successive parses |
| FrontEnd.GrowsPastFresh | bnf_rules_parser/src/lib.rs:161-169 | a rule parsed under a fresh counter name adds no rule that existed before |
| FrontEnd.GrowsUserRules | bnf_rules_parser/src/lib.rs:218-234 | parsing a user rule adds exactly its name to the user-writable rule names |
| FrontEnd.RulesFromNames | bnf_rules_parser/src/lib.rs:24-71 | when the header loop from a position succeeds, its state keeps the invariant and its user rules are the current ones plus the pending rule's name plus exactly the header names after the position |
| FrontEnd.NextRule | bnf_rules_parser/src/lib.rs:41-58 | at a header: the buffered body's parse error, or a header without `::=` or without a name, ends the loop with that error, otherwise the loop goes on after the `::=` with the header's name and one more rule |
| FrontEnd.UserRuleStep | bnf_rules_parser/src/lib.rs:43 | parsing one user rule keeps the invariant and adds exactly its name to the user rules |
| FrontEnd.HeadersAtEnd | bnf_rules_parser/src/lib.rs:66-70 | with no header left there are no header names after the position |
| FrontEnd.HeadersAtNext | bnf_rules_parser/src/lib.rs:41-58 | the header names after a position are the next header's name and the header names after its `::=` |
| FrontEnd.NamesFromNext | bnf_rules_parser/src/lib.rs:41-58 | the user-rule property from after a header carries back to before it |
| FrontEnd.NamesFromLast | bnf_rules_parser/src/lib.rs:66-70 | the last rule alone gives the user-rule property |
| FrontEnd.ParseRulesNames | bnf_rules_parser/src/lib.rs:12-74 | a successful parse_rules keeps the invariant, and its user-named rules are exactly the identifiers written before a `:` |
| Analysis.NullableCount | bnf_rules_parser/src/lib.rs:443-462 | the count of empty-deriving symbols of an alternative is at most its length |
| Analysis.NullableCountFull | bnf_rules_parser/src/lib.rs:443-464 | the count equals the length exactly when every symbol is `Null` or names a nullable rule |
| Analysis.NullableRuleMonotone | bnf_rules_parser/src/lib.rs:435-465 | knowing more nullable rules never makes a rule non-nullable |
| Analysis.NullLeastAdd | bnf_rules_parser/src/lib.rs:464-470 | adding a rule whose alternative is all empty keeps the set below the least fixpoint |
| Analysis.NullSupportedAdd | bnf_rules_parser/src/lib.rs:464-470 | adding such a rule keeps every member of the set justified |
| Analysis.NullablePass | bnf_rules_parser/src/lib.rs:420-471 | one pass, in any order, only adds justified and necessary rules; `retry` is set exactly when a rule flipped; without a flip the set is closed |
| Analysis.SearchNullables | bnf_rules_parser/src/lib.rs:418-476 | the loop ends with exactly the nullable rules: the least set closed under "no alternatives, or an alternative of empty symbols" |
| Analysis.NullableSetUnique | bnf_rules_parser/src/lib.rs:418-476 | only one set has the three properties of the nullable set |
| Analysis.NullableCharacterised | bnf_rules_parser/src/lib.rs:435-465 | a rule without alternatives is nullable; a rule is nullable exactly when it has no alternatives or one alternative of `Null`s and nullable rules |
| Analysis.PatternFirstMonotone | bnf_rules_parser/src/lib.rs:500-547 | with larger FIRST sets known, an alternative contributes a superset |
| Analysis.PatternsFirstMonotone | bnf_rules_parser/src/lib.rs:499-548 | the same for all alternatives of a rule |
| Analysis.PatternFirstKinds | bnf_rules_parser/src/lib.rs:500-547 | an alternative contributes only terminals, terminal functions and EOF that the bound holds |
| Analysis.PatternsFirstKinds | bnf_rules_parser/src/lib.rs:499-548 | the same for all alternatives of a rule |
| Analysis.Terminals | bnf_rules_parser/src/lib.rs:524-544 | the set of FIRST-kind symbols written in the grammar holds every one of them and nothing else |
| Analysis.FirstStep | bnf_rules_parser/src/lib.rs:496-551 | extending one rule's set keeps the invariant and only grows the sets, within the bound; a real addition changes the measure |
| Analysis.FirstPass | bnf_rules_parser/src/lib.rs:485-552 | one pass in any order keeps the invariant and only grows the sets; `retry` means something was added; without it the sets are closed |
| Analysis.FirstStart | bnf_rules_parser/src/lib.rs:482-494 | the empty sets satisfy the invariant |
| Analysis.FirstDone | bnf_rules_parser/src/lib.rs:554-557 | closed sets under the invariant are the FIRST sets and hold only FIRST-kind symbols |
| Analysis.SearchFirstSets | bnf_rules_parser/src/lib.rs:482-557 | the loop ends, and ends with exactly the FIRST sets (the least map closed under the alternatives' contributions), of FIRST-kind symbols only |
| Analysis.FirstMapFacts | bnf_rules_parser/src/lib.rs:482-557 | the FIRST map is unique, and each set equals what the rule's alternatives give |
| Analysis.GetFirstSetFacts | bnf_rules_parser/src/lib.rs:973-1002 | `get_first_set` of the empty sequence is the lookahead; the lookahead is added exactly when the sequence is nullable (otherwise the result does not depend on it); only a missing rule gives None; FIRST-kind inputs give FIRST-kind output |
| Analysis.GetFirstSet | bnf_rules_parser/src/lib.rs:973-1002 | get_first_set fails only when the sequence names a rule that does not exist |
| Items.GetNextSymbol | bnf_rules_parser/src/lib.rs:1069-1071 | there is a next symbol exactly when the dot is before the end |
| Items.GetNextNonterminalSymbolName | bnf_rules_parser/src/lib.rs:1057-1067 | a name exactly when the next symbol is a non-terminal, and it is that symbol's name |
| Items.GetLatterPattern | bnf_rules_parser/src/lib.rs:1073-1085 | before the end, the pattern is the symbols up to and including the next one, followed by the latter pattern; past the end it is empty |
| Items.CreateNext | bnf_rules_parser/src/lib.rs:1087-1097 | no next item exactly at the last position |
| Items.ItemParts | bnf_rules_parser/src/lib.rs:1073-1097 | before the end the pattern splits into prefix, next symbol and latter pattern; the next item keeps rule, pattern and lookahead, is unscanned, and has moved exactly that symbol before its dot |
| Items.WidenedTransitive | bnf_rules_parser/src/lib.rs:912-938 | "items kept with wider lookaheads" composes |
| Items.ExpandedWidened | bnf_rules_parser/src/lib.rs:912-938 | widening keeps a rule's alternatives started in the state |
| Items.HasStartWidened | bnf_rules_parser/src/lib.rs:912-938 | an alternative started in the state stays started after widening |
| Items.FindStart | bnf_rules_parser/src/lib.rs:914-921 | finds the first of the searched items that starts the alternative of the rule at position 0; None exactly when none does |
| Items.ExpandAlternative | bnf_rules_parser/src/lib.rs:912-937 | one alternative of the rule after the dot: an existing start item is only widened, otherwise one unscanned item at dot 0 with the lookahead is appended; later items untouched; without markers the alternative is then started |
| Items.ExpandRule | bnf_rules_parser/src/lib.rs:912-938 | existing items are only widened, later ones untouched, new items appended unscanned; with marker-free items, every alternative of the rule is started in the state |
| Items.ClosedAfterExpand | bnf_rules_parser/src/lib.rs:892-938 | scanning an item and expanding the rule after its dot keeps every scanned item's rule expanded |
| Items.ClosedAfterMark | bnf_rules_parser/src/lib.rs:892-901 | scanning an item with a terminal or nothing next keeps the closure property |
| Items.ScanPass | bnf_rules_parser/src/lib.rs:886-942 | one pass only widens and appends; reporting all scanned means the items are unchanged; it keeps marker-freeness and closure |
| Items.AddItems | bnf_rules_parser/src/lib.rs:884-948 | only the item list changes; it is a widening of the old one, every item is scanned, and for marker-free input every scanned item's rule is expanded |
| Automaton.NextSymbolsMeaning | bnf_rules_parser/src/lib.rs:611-620 | a symbol is a transition symbol exactly when some item has it after the dot |
| Automaton.Selected | bnf_rules_parser/src/lib.rs:611-620 | the items grouped under a symbol all have it next and come from the state |
| Automaton.Advance | bnf_rules_parser/src/lib.rs:630-633 | each grouped item moved one symbol on, one for one |
| Automaton.SuccessorsFacts | bnf_rules_parser/src/lib.rs:630-633 | successor items are unscanned and stay marker-free |
| Automaton.UnscannedClosed | bnf_rules_parser/src/lib.rs:581-600 | a list of unscanned items trivially satisfies the closure property |
| Automaton.GroupByNextSymbol | bnf_rules_parser/src/lib.rs:611-620 | next_group_map has exactly the symbols after dots as keys, each mapped to its items in item order |
| Automaton.GroupMapGroups | bnf_rules_parser/src/lib.rs:611-620 | grouping the items keyed by their next symbol puts each item under its next symbol, in order |
| Automaton.SelectedAppend | bnf_rules_parser/src/lib.rs:611-620 | one more item joins the group of its next symbol only |
| Automaton.NextSymbolsAppend | bnf_rules_parser/src/lib.rs:611-620 | one more item adds only its next symbol to the transition symbols |
| Automaton.GroupSkip | bnf_rules_parser/src/lib.rs:612-614 | an item with nothing after the dot leaves the grouping as it was |
| Automaton.GroupAdd | bnf_rules_parser/src/lib.rs:615-619 | an item with a next symbol is appended to that symbol's group |
| Automaton.NextGroupItems | bnf_rules_parser/src/lib.rs:630-633 | the loop builds the advanced items |
| Automaton.MatchesSelf | bnf_rules_parser/src/lib.rs:640-667 | an item list matches itself |
| Automaton.IsAllMatched | bnf_rules_parser/src/lib.rs:640-667 | the nested loops decide exactly whether the lists have the same length and each new item has an equal item in the kernel |
| Automaton.FindGroup | bnf_rules_parser/src/lib.rs:635-673 | a found state matches the items; None exactly when no state does |
| Automaton.NumberedCard | bnf_rules_parser/src/lib.rs:677-687 | states numbered 0 .. n-1 are n states |
| Automaton.KeysCard | bnf_rules_parser/src/lib.rs:677-687 | a key set that is exactly 0 .. n-1 has n elements |
| Automaton.LeadsTransfer | bnf_rules_parser/src/lib.rs:675-693 | transitions to matching kernels stay matching when the kernels are kept |
| Automaton.Goto | bnf_rules_parser/src/lib.rs:626-693 | reuses a state exactly when some existing kernel matches the successors, else makes a state with the next number whose kernel is the successors, closed and without transitions |
| Automaton.LeadsExisting | bnf_rules_parser/src/lib.rs:675-676 | a transition to a matching earlier state keeps the transitions matching |
| Automaton.LeadsFresh | bnf_rules_parser/src/lib.rs:677-693 | a transition to a new state keeps the new states fresh and the transitions matching |
| Automaton.AddTransition | bnf_rules_parser/src/lib.rs:626-693 | one symbol more in the transition map, with the new states fresh and all transitions to matching kernels |
| Automaton.ExpandSymbols | bnf_rules_parser/src/lib.rs:626-694 | when the loop over the symbols finishes, every symbol has a transition to a state whose kernel matches its successors, and the new states are fresh |
| Automaton.ProcessGroup | bnf_rules_parser/src/lib.rs:609-700 | the transition map of a state has exactly its symbols after dots, each leading to a state whose kernel matches the successors; new states are numbered on |
| Automaton.FirstGroupItems | bnf_rules_parser/src/lib.rs:581-594 | the start kernel is one item per start alternative, dot 0, lookahead EOF |
| Automaton.Range | bnf_rules_parser/src/lib.rs:677-687 | the pushed state numbers are consecutive |
| Automaton.StepKeeps | bnf_rules_parser/src/lib.rs:696-699 | a round keeps the numbering and every old state's items and adds the new states |
| Automaton.StepClosure | bnf_rules_parser/src/lib.rs:696-699 | a round keeps every state closed and sound |
| Automaton.StepStack | bnf_rules_parser/src/lib.rs:602-605 | the worklist stays increasing and holds only unexpanded states |
| Automaton.StepDone | bnf_rules_parser/src/lib.rs:696-699 | every state off the worklist is expanded |
| Automaton.WorklistStep | bnf_rules_parser/src/lib.rs:602-700 | one round keeps the worklist invariant: states numbered on, each closed and sound, the worklist increasing over unexpanded states, every other state expanded |
| Automaton.StartKept | bnf_rules_parser/src/lib.rs:696-699 | a round keeps the kernel of state 0 |
| Automaton.ExpandStates | bnf_rules_parser/src/lib.rs:581-700 | when the loop finishes, the worklist invariant holds with no state left to expand, and the kernel of state 0 is unchanged |
| Automaton.WorklistEmpty | bnf_rules_parser/src/lib.rs:602-605 | an empty worklist over states with the start kernel at 0 is a complete automaton |
| Automaton.BuildAutomaton | bnf_rules_parser/src/lib.rs:575-700 | the finished map has states 0 .. n-1, state 0 from the start alternatives, every state closed and with exactly one transition per symbol after a dot to a state with a matching kernel |
| Table.PatternIndex | bnf_rules_parser/src/lib.rs:952-960 | the first index of the rule `root ::= pattern`; None exactly when there is none |
| Table.GetPatternId | bnf_rules_parser/src/lib.rs:952-960 | the loop returns that first index, or the not-found error for the item |
| Table.GetSymbolId | bnf_rules_parser/src/lib.rs:964-969 | the id exactly when the symbol has one, else the not-found error |
| Table.InsertOperation | bnf_rules_parser/src/lib.rs:852-880 | succeeds exactly when the symbol has no operation yet, then adds only that entry; otherwise a conflict naming both operations |
| Table.TransitionOperation | bnf_rules_parser/src/lib.rs:710-726 | a transition over a rule is GoTo, over a terminal Shift, over a marker nothing |
| Table.TransitionOperations | bnf_rules_parser/src/lib.rs:708-727 | succeeds exactly when no transition is over a marker; then the same keys, each with its operation |
| Table.InsertAll | bnf_rules_parser/src/lib.rs:735-737 | succeeds exactly when no lookahead symbol is taken; then adds exactly those, keeping the rest |
| Table.ItemOperations | bnf_rules_parser/src/lib.rs:729-740 | an item writes only at its end (Accept on EOF for the start rule, else Reduce on its lookahead); succeeds exactly when its pattern is found and its symbols are free |
| Table.GroupOperations | bnf_rules_parser/src/lib.rs:704-740 | a state's operation map is built exactly when no symbol is written twice and no pattern is missing; it holds exactly the state's writes, pointing to successors or rules |
| Table.ItemsStart | bnf_rules_parser/src/lib.rs:708-729 | the transition operations are the written operations before any item |
| Table.ItemStep | bnf_rules_parser/src/lib.rs:729-740 | an item whose symbols are free extends the written and placed operations by its own |
| Table.ItemKeeps | bnf_rules_parser/src/lib.rs:729-740 | an item whose symbols are free extends the written keys by its own symbols, with no clash and no missing pattern |
| Table.ItemKeys | bnf_rules_parser/src/lib.rs:735-737 | the keys grow by exactly the item's symbols |
| Table.ItemNoClash | bnf_rules_parser/src/lib.rs:735-737 | an item whose symbols are all free adds no symbol written twice |
| Table.ItemPlaces | bnf_rules_parser/src/lib.rs:729-740 | an item's operations sit beside the earlier ones, which are unchanged |
| Table.ItemFails | bnf_rules_parser/src/lib.rs:729-740 | a failing item means a conflict or a missing pattern |
| Table.FinishGroup | bnf_rules_parser/src/lib.rs:729-740 | after the last item the map is the state's map, with no conflict |
| Table.FitsFromPlaced | bnf_rules_parser/src/lib.rs:710-740 | every operation points to a successor state or a rule index |
| Table.Row | bnf_rules_parser/src/lib.rs:742-753 | the row has the width, succeeds exactly when every written symbol has an id, each filled cell is the operation of a symbol with that id, and with distinct ids each symbol's operation is in its column |
| Table.GroupRow | bnf_rules_parser/src/lib.rs:704-754 | a state's row exists exactly when it is buildable and then is its row |
| Table.RowFromOperations | bnf_rules_parser/src/lib.rs:742-753 | the row facts make it the row of the state |
| Table.BuildTable | bnf_rules_parser/src/lib.rs:703-755 | the table has one row per state, exists exactly when every state is buildable, and each row is the row of its state |
| Generator.PatternRulesFacts | bnf_rules_parser/src/lib.rs:359-376 | every alternative of every rule yields its stripped single-pattern rule, and every single-pattern rule comes from one |
| Generator.PatternRulesStripped | bnf_rules_parser/src/lib.rs:364-371 | no single-pattern rule holds `Null` or `EOF` |
| Generator.SymbolsFacts | bnf_rules_parser/src/lib.rs:385-396 | numbering one alternative keeps the ids dense and distinct, keeps old ids, and adds exactly its non-marker symbols |
| Generator.AssignFacts | bnf_rules_parser/src/lib.rs:386-394 | numbering one symbol keeps the ids dense and the old ids, and adds exactly that symbol unless it is a marker |
| Generator.PatternsFacts | bnf_rules_parser/src/lib.rs:383-398 | the same for all alternatives of a rule |
| Generator.RulesFacts | bnf_rules_parser/src/lib.rs:383-398 | the same for all rules in the visit order |
| Generator.SymbolIdsFacts | bnf_rules_parser/src/lib.rs:378-400 | symbol_id_map gives EOF id 0, holds the start symbol, holds no `Null`, and otherwise holds exactly the symbols written in alternatives; without a reference to the start symbol the ids are distinct and below the count |
| Generator.SameShapeIds | bnf_rules_parser/src/lib.rs:359-400 | single-pattern rules and ids depend only on the alternatives |
| Generator.NotOccurring | bnf_rules_parser/src/lib.rs:383-398 | a symbol written in no alternative is not numbered by the loop |
| Generator.UnreferencedRuleHasNoId | bnf_rules_parser/src/lib.rs:757-764 | a user rule with alternatives that no alternative names has no id, but has a single-pattern rule, so the left-side ids fail |
| Generator.StripMarkers | bnf_rules_parser/src/lib.rs:364-371 | `new_pattern` is the alternative without markers, and holds none |
| Generator.RuleSinglePatterns | bnf_rules_parser/src/lib.rs:364-377 | a rule's single-pattern rules, one per alternative |
| Generator.PatternIds | bnf_rules_parser/src/lib.rs:385-396 | the id loop over one alternative |
| Generator.RuleIds | bnf_rules_parser/src/lib.rs:383-398 | the id loop over a rule's alternatives |
| Generator.SplitRules | bnf_rules_parser/src/lib.rs:359-378 | visits each rule once in some order and collects the single-pattern rules in that order |
| Generator.NumberSymbols | bnf_rules_parser/src/lib.rs:383-398 | the ids, visiting the rules in the same order, from EOF ↦ 0 |
| Generator.RootNames | bnf_rules_parser/src/lib.rs:785-789 | RULE_PATTERN_NAME lists each single-pattern rule's rule name |
| Generator.EncodeTable | bnf_rules_parser/src/lib.rs:792-807 | LR_TABLE has the table's shape and each pair decodes to its cell |
| Generator.RuleCodes | bnf_rules_parser/src/lib.rs:810-822 | BNF_RULES holds, per rule, the id of its name and the ids of its symbols in order |
| Generator.LeftSideIds | bnf_rules_parser/src/lib.rs:757-764 | succeeds exactly when every rule's name has an id, then lists them; else the not-found error of a rule's name |
| Generator.TablesWellFormed | bnf_rules_parser/src/lib.rs:785-822 | the emitted arrays fit together so that every lookup of the runtime is in bounds |
| Generator.PatternIdsPresent | bnf_rules_parser/src/lib.rs:383-398 | every symbol of a single-pattern rule has an id |
| Generator.AlternativeSymbolId | bnf_rules_parser/src/lib.rs:383-398 | each symbol of a single-pattern rule taken from an alternative has an id |
| Generator.ParserGenerator.constructor | bnf_rules_parser/src/lib.rs:355-407 | the rule map with the start rule added, with single-pattern rules and ids as specified |
| Generator.ParserGenerator.SearchNullsAndFirstSet | bnf_rules_parser/src/lib.rs:416-572 | marks exactly the nullable rules and stores exactly the FIRST sets, keeping alternatives, single-pattern rules and ids |
| Generator.MarkedFacts | bnf_rules_parser/src/lib.rs:416-572 | storing the nullable flags and FIRST sets keeps the alternatives, the visit order, the single-pattern rules and the ids, and the stored flags and sets are exactly the computed ones |
| Generator.ParserGenerator.GenerateParser | bnf_rules_parser/src/lib.rs:575-848 | emitted arrays come from the automaton, one row of symbol-id width per state, each cell decoding to its state's operation, and are well formed for the runtime; a rejection names an unbuildable state or a rule name without an id |
| Generator.ParserGenerator.Generate | bnf_rules_parser/src/lib.rs:410-413 | `generate` marks exactly the nullable rules and FIRST sets and keeps the alternatives; emitted arrays then come from an automaton of the analysed rules and are well formed; a rejection for a rule name without an id names that rule |
| Lexer.Marge | bnf_rules_parser/src/lexer.rs:328-347 | the merged start is the smaller start, line and column are the smaller ones, and merging an empty position keeps the length |
| Lexer.MargeFromStart | bnf_rules_parser/src/lexer.rs:319-347 | merging a non-empty position into the neutral start gives that position |
| Lexer.MargeOrdered | bnf_rules_parser/src/lexer.rs:328-347 | when the other position starts after this one ends, the merge spans both |
| Lexer.MargeLosesLength | bnf_rules_parser/src/lexer.rs:333-345 | as written, an empty position then a non-empty one at the same offset merge to length 0 |
| Lexer.MargeHull | bnf_rules_parser/src/lexer.rs:328-347 | the corrected merge: the smallest span holding both, with empty positions contributing only their offset |
| Lexer.MargeHullKeepsLength | bnf_rules_parser/src/lexer.rs:333-345 | on the counterexample the corrected merge keeps the token's length |
| Lexer.MargeHullAgreesWhenOrdered | bnf_rules_parser/src/lexer.rs:328-347 | on ordered, separate positions the corrected merge equals the written one |
| Lexer.ReadBack | bnf_rules_parser/src/lexer.rs:209-214 | the character `back` places before the position, exactly when it is inside the source |
| Lexer.CursorFacts | bnf_rules_parser/src/lexer.rs:149-207 | line and column are at least 1, and the line is one more than the line breaks before the index |
| Lexer.CursorAfterBreak | bnf_rules_parser/src/lexer.rs:170-201 | after a bare `\n` or a `\r` the next character is at column 1 of the next line |
| Lexer.CursorAfterCrLf | bnf_rules_parser/src/lexer.rs:170-201 | a `\n` after `\r` does not start another line |
| Lexer.CrLfColumnAsWritten | bnf_rules_parser/src/lexer.rs:170-201 | in "a\r\nb" the `b` is at line 2, column 3 |
| Lexer.SetLineAndColumnInfo | bnf_rules_parser/src/lexer.rs:149-207 | each position referred to by the map gets the line and column of its start; the rest are unchanged |
| Lexer.BlankRun | bnf_rules_parser/src/lexer.rs:13-28 | the blank matcher's length is a maximal run of tabs, spaces and full-width spaces |
| Lexer.MatchFromSlice | bnf_rules_parser/src/lexer.rs:246-262 | the character-wise comparison is a slice equality |
| Lexer.TokenizeString | bnf_rules_parser/src/lexer.rs:246-262 | a literal matches with its whole length exactly when it occurs at the offset, else 0 |
| Lexer.Tokenize | bnf_rules_parser/src/lexer.rs:246-262 | a literal matcher returns 0 or the literal's whole length, never a partial match |
| Lexer.TokenizeBounded | bnf_rules_parser/src/lexer.rs:246-262 | no matcher reads past the end |
| Lexer.BestMatch | bnf_rules_parser/src/lexer.rs:83-93 | with length 0 the chosen index is 0; with a positive length it names a matcher |
| Lexer.BestMatchFacts | bnf_rules_parser/src/lexer.rs:83-93 | the chosen length is the greatest length of any matcher, the chosen matcher returns it, and every earlier matcher returns less |
| Lexer.LongestMatch | bnf_rules_parser/src/lexer.rs:83-93 | the loop over the matchers gives the chosen length, and, when it is positive, the chosen matcher |
| Lexer.ReadSpec | bnf_rules_parser/src/lexer.rs:78-133 | a token read is non-empty and within the source |
| Lexer.ReadSpecLongestMatch | bnf_rules_parser/src/lexer.rs:78-133 | a read succeeds exactly when some matcher accepts; then the longest length and first such matcher; else the error at the offset with length 1 and that character |
| Lexer.ReadUntilTokenFound | bnf_rules_parser/src/lexer.rs:78-133 | the loop computes the read step and moves the index by the token's length |
| Lexer.NewEof | bnf_rules_parser/src/lexer.rs:290-298 | the EOF token has id 0 and no text |
| Lexer.NewLexer | bnf_rules_parser/src/lexer.rs:12-43 | the user matchers in order, then the blank matcher with id u32::MAX |
| Lexer.RawTokensStep | bnf_rules_parser/src/lexer.rs:54-66 | one unfolding of the scan at a successful offset |
| Lexer.Located | bnf_rules_parser/src/lexer.rs:135-141 | the tokens with the line and column of their start, otherwise unchanged |
| Lexer.RawTokensFacts | bnf_rules_parser/src/lexer.rs:54-66 | each raw match is the read step at its own offset, and they are in order |
| Lexer.KeptFacts | bnf_rules_parser/src/lexer.rs:57-66 | dropping blank matches keeps the others in order |
| Lexer.KeptMembers | bnf_rules_parser/src/lexer.rs:61-63 | a token is kept exactly when it is a match that is not blank |
| Lexer.KeptOrdered | bnf_rules_parser/src/lexer.rs:57-66 | dropping the blank matches keeps ordered matches ordered |
| Lexer.ScanEndsWithEof | bnf_rules_parser/src/lexer.rs:45-76 | a successful scan ends with exactly one EOF token: id 0, no text, length 0; an empty source gives only the EOF token at offset 0, line 1, column 1 |
| Lexer.ScanTokenProperties | bnf_rules_parser/src/lexer.rs:45-76 | every other token is non-empty, is the text it covers, is not blank, is the longest match at its offset, and carries the line and column of its offset |
| Lexer.LocatedMatch | bnf_rules_parser/src/lexer.rs:135-141 | a non-blank token read at its own offset, once given its line and column, has every property of a scanned token |
| Lexer.ScanTokensOrdered | bnf_rules_parser/src/lexer.rs:45-76 | the tokens are strictly increasing and do not overlap |
| Lexer.SetLineAndColumnInfoForTokens | bnf_rules_parser/src/lexer.rs:135-141 | the method writes exactly the located tokens |
| Lexer.ScanLoopDone | bnf_rules_parser/src/lexer.rs:54-66 | the kept matches are inside the source and increasing |
| Lexer.ScanSoFarStep | bnf_rules_parser/src/lexer.rs:54-66 | a read step yielding a token and a next offset extends the matches read so far by that token |
| Lexer.ScanSoFarFails | bnf_rules_parser/src/lexer.rs:54-66 | a failed read step is the failure of the scan |
| Lexer.ScanSoFarDone | bnf_rules_parser/src/lexer.rs:54-66 | at the end the matches read are all the matches |
| Lexer.ScanSoFarStart | bnf_rules_parser/src/lexer.rs:54-66 | nothing is read at the start |
| Lexer.ScanTokens | bnf_rules_parser/src/lexer.rs:54-66 | the loop gives the kept matches of the scan |
| Lexer.Scan | bnf_rules_parser/src/lexer.rs:45-76 | `scan` computes its specification |
| Parser.ClearIds | bnf_rules_parser/src/parser.rs:296-317 | the tree with no internal ids, otherwise the same tree |
| Parser.SameTreeCleared | bnf_rules_parser/src/parser.rs:296-317 | two cleared trees alike up to ids are equal |
| Parser.ClearIdsIdempotent | bnf_rules_parser/src/parser.rs:296-317 | clearing twice is clearing once |
| Parser.SameTreeTransitive | bnf_rules_parser/src/parser.rs:296-317 | "alike up to ids" is transitive |
| Parser.SameTreeTidy | bnf_rules_parser/src/parser.rs:296-317 | changing ids keeps synthetic nodes spliced away |
| Parser.UnsetInternalSymbolId | bnf_rules_parser/src/parser.rs:296-317 | the recursion clears every id |
| Parser.MergeAll | bnf_rules_parser/src/parser.rs:336-348 | the offset of the merged position is at most every child's offset, and is one of them unless there are no children |
| Parser.MergeAllCovers | bnf_rules_parser/src/parser.rs:336-348 | with `marge` as written, on chained children where no non-empty child after the first starts at the first child's offset: the merge starts at the first child, reaches the end of every non-empty child and ends no later than the last child |
| Parser.MergeAllAgrees | bnf_rules_parser/src/parser.rs:336-348 | under the same condition, the merge as written equals the corrected merge |
| Parser.MergeAllLosesLength | bnf_rules_parser/src/parser.rs:336-348 | an empty child at offset 0 then a one-character token at offset 0 are chained but break the condition; they merge to length 0 as written and to length 1 when corrected |
| Parser.MergeAllHullCovers | bnf_rules_parser/src/lexer.rs:328-347 | the corrected merge starts at the least offset and reaches the end of every non-empty child |
| Parser.MergeAllHullEnd | bnf_rules_parser/src/lexer.rs:328-347 | the corrected merge ends within any bound all children end within |
| Parser.GetBufferPosition | bnf_rules_parser/src/parser.rs:336-348 | the loop gives None for an empty buffer, else the positions merged in order with `marge` as written |
| Parser.FirstMismatch | bnf_rules_parser/src/parser.rs:198-209 | the first entry whose id differs from the rule's; None exactly when all agree |
| Parser.FirstMismatchAt | bnf_rules_parser/src/parser.rs:198-209 | a mismatch after a matching prefix is the first mismatch |
| Parser.SpliceAppend | bnf_rules_parser/src/parser.rs:211-248 | splicing keeps the children's order |
| Parser.SpliceTidy | bnf_rules_parser/src/parser.rs:211-248 | no child of a reduced node is synthetic, nor anything below it |
| Parser.ReducedPositionCovers | bnf_rules_parser/src/parser.rs:185-222 | an empty rule's node sits at the next token with length 0; otherwise, on chained children with no non-empty child after the first at its offset, the node starts at the first child and covers every child |
| Parser.PopEntries | bnf_rules_parser/src/parser.rs:169-181 | pops exactly n entries and n states and returns the entries in order |
| Parser.ReverseReverse | bnf_rules_parser/src/parser.rs:169-181 | reversing the popped entries twice gives them back, and the reversed list is the mirror image |
| Parser.BuildChildren | bnf_rules_parser/src/parser.rs:183-249 | the first mismatch, or the spliced children and the node's position |
| Parser.Reduce | bnf_rules_parser/src/parser.rs:155-276 | the Reduce branch computes its specification |
| Parser.ReducedNodeOk | bnf_rules_parser/src/parser.rs:183-249 | the node built from the popped entries is well formed |
| Parser.GoToAfterFacts | bnf_rules_parser/src/parser.rs:250-276 | after pushing the node, the GoTo lookup fails only with InvalidSyntax, and otherwise pushes exactly the GoTo target over the kept states, keeping the tokens and the loop invariant |
| Parser.ReduceSpec | bnf_rules_parser/src/parser.rs:155-276 | every failure of a Reduce is InvalidSyntax; on success the tokens are kept and at most one entry is added |
| Parser.ChildrenIds | bnf_rules_parser/src/parser.rs:198-209 | the first mismatch among the popped entries is the first buffer entry, counted from the popped ones, whose id differs from the pattern |
| Parser.ReduceSpecFacts | bnf_rules_parser/src/parser.rs:155-276 | pops exactly the pattern's length, pushes the node and the GoTo target, keeps the rest and the tokens, keeps the loop invariant; succeeds only when every popped entry carries the pattern's id; too few entries fail at the buffer's merged position and a wrong id at the first entry carrying one; every failure is InvalidSyntax |
| Parser.Step | bnf_rules_parser/src/parser.rs:129-280 | one turn from a good configuration leads to a good one, or accepts it unchanged |
| Parser.Turn | bnf_rules_parser/src/parser.rs:129-280 | the body of the loop computes one turn |
| Parser.RunStart | bnf_rules_parser/src/parser.rs:100-128 | the start configuration (state 0, nothing buffered, all tokens) is good and its run is the parse |
| Parser.RunTurn | bnf_rules_parser/src/parser.rs:129-280 | a run is a failed turn's error, an accepted turn's result, or the run from the next configuration with one step less |
| Parser.StepCases | bnf_rules_parser/src/parser.rs:129-154 | no token left fails; an empty cell fails with InvalidSyntax at the token; Shift moves exactly the next token and pushes the target |
| Parser.Finish | bnf_rules_parser/src/parser.rs:282-293 | an error exactly when the buffer does not hold one entry, an InternalError; the tree returned has no ids |
| Parser.Parse | bnf_rules_parser/src/parser.rs:100-294 | the loop computes its specification |
| Parser.RunResult | bnf_rules_parser/src/parser.rs:129-293 | a run from a good configuration returns a tree with no ids and no synthetic node inside, or an error that is not UnexpectedToken |
| Parser.ParseResult | bnf_rules_parser/src/parser.rs:100-294 | a lexer error becomes UnexpectedToken at its position; any other error is InvalidSyntax or InternalError; a tree has no ids and no synthetic node inside |

## Left out

- The procedural macro entry points, `TokenParser`, and the `syn`/`litrs` literal parsing are not
  part of this model. The front end starts from a token tree of identifiers, punctuation, groups
  and literals.
- The generated Rust source text and the terminal-symbol code (lib.rs:826-840) are not modelled.
  The model emits the arrays RULE_PATTERN_NAME, LR_TABLE and BNF_RULES as values.
- `symbol_is_terminal` (lib.rs:766-773) is left out: its result is never used.
- Error messages with their text are abstracted into error values (`TableError`, `FrontError`).
  The rule alternatives listed in a conflict message are not kept.
- `Rc` sharing and `RefCell` are left out. `LRGroup` values have a single owner in the state map,
  so they are plain values.
- `HashMap` and `HashSet` orders are chosen by `:|`. In particular, when several states match in
  `FindGroup`, which one is found is left open.
- Regex matching and user tokenizer functions are left out. They become a parameter that returns
  a length within the source.
- Automaton.BuildAutomaton, Items.AddItems and Parser.Parse take a `fuel` bound. With the source's
  non-termination (`add_items` can keep re-adding an item; a malformed table can loop the runtime),
  the model stops with an OutOfFuel outcome. It does not state that the source would loop.
- Automaton.BuildAutomaton: the closure facts (every scanned item's rule expanded) are proved only
  when the start alternatives hold no `Null`/`EOF`.
- Items.AddItems: the same — closure is proved for marker-free items only.
- Generator.ParserGenerator.GenerateParser: requires that no alternative names the start rule
  ` source`. Otherwise the start symbol's id equals the row width and the indexing at lib.rs:750
  panics.
- Generator.ParserGenerator.SearchNullsAndFirstSet: requires that every rule is stored under its
  own name, as parse_rules builds it. The source unwraps lookups by name.
- FrontEnd.ParseRules: requires a non-empty token sequence. The source indexes the first token.
- Parser.Parse: requires well-formed tables and tokens whose ids fit them. The source indexes the
  arrays unchecked and would panic otherwise.
- The `unwrap` of the rule name in the conflict message of `insert_opreration` is left out,
  because the message text is not modelled.
- Integer widths: `usize`/`u32` counters and offsets are unbounded naturals. The only place the
  bound matters is the blank matcher's id `u32::MAX`, which is kept as a constant.

## Findings

| source | as written | input that shows it | evidently intended | confidence | as-written member | corrected member |
|---|---|---|---|---|---|---|
| bnf_rules_parser/src/lexer.rs:328-347 | `marge` keeps the end of only one of the two positions: `other`'s when `self` starts first, else `self`'s; with equal starts a non-empty `other` contributes nothing to the length | grammar `source ::= [ "-" ] "5"` on input "5": the empty optional part at offset 0 merges with the token "5" at offset 0, and the root gets length 0 | the merged position spans both, so the root has length 1 | not executed | Lexer.Marge, used by Parser.MergeAll (counterexamples Lexer.MargeLosesLength, Parser.MergeAllLosesLength) | Lexer.MargeHull and Parser.MergeAllHull (Lexer.MargeHullKeepsLength, Lexer.MargeHullAgreesWhenOrdered, Parser.MergeAllHullCovers) |
