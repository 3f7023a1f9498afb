/**
 * ParserGenerator (bnf_rules_parser/src/lib.rs): the augmented rule map, the single-pattern
 * rules and the symbol ids fixed by `new`, the analysis of search_nulls_and_first_set written
 * back into the rules, and generate_parser's automaton, table and the arrays handed to the
 * runtime parser.
 */
module Generator {
  import opened Wrappers
  import opened Grammar
  import opened Analysis
  import opened Items
  import opened Automaton
  import opened Table
  import Parser

  /** The start symbol of the augmented grammar. */
  const SOURCE_SYMBOL: BNFSymbol := NonTerminalSymbolName(SOURCE_RULE_NAME)

  /** ` source ::= source`, the rule ParserGenerator::new adds. */
  function SourceRule(): BNFRule {
    BNFRule(SOURCE_RULE_NAME, [[NonTerminalSymbolName(USER_START_NAME)]], {}, false)
  }

  /** An order in which the rules of `m` are visited: each rule exactly once. */
  ghost predicate IsOrder(order: seq<string>, m: RuleMap) {
    && (forall i | 0 <= i < |order| :: order[i] in m)
    && (forall i, j | 0 <= i < j < |order| :: order[i] != order[j])
    && (forall n | n in m :: n in order)
  }

  /** Two rule maps with the same rules, names and alternatives (they may differ in the analysis results). */
  ghost predicate SameShape(a: RuleMap, b: RuleMap) {
    && (forall n :: n in a <==> n in b)
    && forall n | n in a ::
         a[n].nonTerminalSymbolName == b[n].nonTerminalSymbolName && a[n].orPatterns == b[n].orPatterns
  }

  // ---------------------------------------------------------------- single-pattern rules

  /** The single-pattern rules of one rule: one per alternative, markers removed, in order. */
  function RuleEntries(r: BNFRule): seq<SinglePatternRule> {
    seq(|r.orPatterns|, k requires 0 <= k < |r.orPatterns| =>
      SinglePatternRule(r.nonTerminalSymbolName, Without(r.orPatterns[k], MARKERS)))
  }

  /** The single-pattern rules of the rules visited in `order`. */
  function PatternRules(m: RuleMap, order: seq<string>): seq<SinglePatternRule>
    requires forall i | 0 <= i < |order| :: order[i] in m
  {
    if order == [] then []
    else PatternRules(m, order[..|order| - 1]) + RuleEntries(m[order[|order| - 1]])
  }

  /** `r` is the single-pattern rule of an alternative of a visited rule. */
  ghost predicate FromAlternative(r: SinglePatternRule, m: RuleMap, order: seq<string>)
    requires forall i | 0 <= i < |order| :: order[i] in m
  {
    exists i, k | 0 <= i < |order| && 0 <= k < |m[order[i]].orPatterns| ::
      r == SinglePatternRule(m[order[i]].nonTerminalSymbolName, Without(m[order[i]].orPatterns[k], MARKERS))
  }

  /**
   * Every alternative of every visited rule has its single-pattern rule, and every single-pattern
   * rule comes from an alternative of a visited rule.
   */
  lemma {:induction false} PatternRulesFacts(m: RuleMap, order: seq<string>)
    requires forall i | 0 <= i < |order| :: order[i] in m
    ensures forall i, k | 0 <= i < |order| && 0 <= k < |m[order[i]].orPatterns| ::
              SinglePatternRule(m[order[i]].nonTerminalSymbolName, Without(m[order[i]].orPatterns[k], MARKERS))
                in PatternRules(m, order)
    ensures forall t | 0 <= t < |PatternRules(m, order)| :: FromAlternative(PatternRules(m, order)[t], m, order)
  {
    if order != [] {
      var front := order[..|order| - 1];
      var n := order[|order| - 1];
      PatternRulesFacts(m, front);
      var p := PatternRules(m, front);
      var e := RuleEntries(m[n]);
      forall i, k | 0 <= i < |order| && 0 <= k < |m[order[i]].orPatterns|
        ensures SinglePatternRule(m[order[i]].nonTerminalSymbolName, Without(m[order[i]].orPatterns[k], MARKERS))
                  in PatternRules(m, order)
      {
        if i < |front| {
          assert order[i] == front[i];
        } else {
          assert e[k] in e;
        }
      }
      assert PatternRules(m, order) == p + e;
      forall t | 0 <= t < |PatternRules(m, order)|
        ensures FromAlternative(PatternRules(m, order)[t], m, order)
      {
        if t < |p| {
          assert FromAlternative(p[t], m, front);
          var i, k :| 0 <= i < |front| && 0 <= k < |m[front[i]].orPatterns| &&
                      p[t] == SinglePatternRule(m[front[i]].nonTerminalSymbolName, Without(m[front[i]].orPatterns[k], MARKERS));
          assert (p + e)[t] == p[t] && front[i] == order[i];
          assert PatternRules(m, order)[t] == SinglePatternRule(m[order[i]].nonTerminalSymbolName, Without(m[order[i]].orPatterns[k], MARKERS));
        } else {
          assert (p + e)[t] == e[t - |p|];
          var i, k := |order| - 1, t - |p|;
          assert PatternRules(m, order)[t] == SinglePatternRule(m[order[i]].nonTerminalSymbolName, Without(m[order[i]].orPatterns[k], MARKERS));
        }
      }
    }
  }

  /** No single-pattern rule holds a marker. */
  lemma {:induction false} PatternRulesStripped(m: RuleMap, order: seq<string>)
    requires forall i | 0 <= i < |order| :: order[i] in m
    ensures forall t, j | 0 <= t < |PatternRules(m, order)| && 0 <= j < |PatternRules(m, order)[t].pattern| ::
              PatternRules(m, order)[t].pattern[j] !in MARKERS
  {
    PatternRulesFacts(m, order);
    forall t, j | 0 <= t < |PatternRules(m, order)| && 0 <= j < |PatternRules(m, order)[t].pattern|
      ensures PatternRules(m, order)[t].pattern[j] !in MARKERS
    {
      assert FromAlternative(PatternRules(m, order)[t], m, order);
      var i, k :| 0 <= i < |order| && 0 <= k < |m[order[i]].orPatterns| &&
                  PatternRules(m, order)[t] ==
                    SinglePatternRule(m[order[i]].nonTerminalSymbolName, Without(m[order[i]].orPatterns[k], MARKERS));
      WithoutContents(m[order[i]].orPatterns[k], MARKERS);
      assert PatternRules(m, order)[t].pattern[j] in Without(m[order[i]].orPatterns[k], MARKERS);
    }
  }

  // ---------------------------------------------------------------- symbol ids

  /** The ids given so far and the next id. */
  type IdState = (map<BNFSymbol, nat>, nat)

  /** One symbol of the id loop: markers are skipped, a symbol without an id gets the next one. */
  function Assign(st: IdState, s: BNFSymbol): IdState {
    if s in MARKERS || s in st.0 then st else (st.0[s := st.1], st.1 + 1)
  }

  function IdsForSymbols(st: IdState, p: seq<BNFSymbol>): IdState {
    if p == [] then st else Assign(IdsForSymbols(st, p[..|p| - 1]), p[|p| - 1])
  }

  function IdsForPatterns(st: IdState, ps: seq<seq<BNFSymbol>>): IdState {
    if ps == [] then st else IdsForSymbols(IdsForPatterns(st, ps[..|ps| - 1]), ps[|ps| - 1])
  }

  function IdsForRules(st: IdState, m: RuleMap, order: seq<string>): IdState
    requires forall i | 0 <= i < |order| :: order[i] in m
  {
    if order == [] then st else IdsForPatterns(IdsForRules(st, m, order[..|order| - 1]), m[order[|order| - 1]].orPatterns)
  }

  /** The symbol_id_map of ParserGenerator::new: EOF is 0, then the loop, then the start symbol last. */
  function SymbolIds(m: RuleMap, order: seq<string>): map<BNFSymbol, nat>
    requires forall i | 0 <= i < |order| :: order[i] in m
  {
    var st := IdsForRules((map[EOF := 0], 1), m, order);
    st.0[SOURCE_SYMBOL := st.1]
  }

  /** Ids are distinct and below the next id, which counts them. */
  ghost predicate IdsDense(st: IdState) {
    && |st.0| == st.1
    && (forall s | s in st.0 :: st.0[s] < st.1)
    && Injective(st.0)
  }

  /** Ids once given are kept. */
  ghost predicate Keeps(a: IdState, b: IdState) {
    forall s | s in a.0 :: s in b.0 && b.0[s] == a.0[s]
  }

  lemma AssignFacts(st: IdState, s: BNFSymbol)
    ensures IdsDense(st) ==> IdsDense(Assign(st, s))
    ensures Keeps(st, Assign(st, s))
    ensures forall t :: t in Assign(st, s).0 <==> t in st.0 || (t == s && s !in MARKERS)
  {
  }

  lemma {:induction false} SymbolsFacts(st: IdState, p: seq<BNFSymbol>)
    ensures IdsDense(st) ==> IdsDense(IdsForSymbols(st, p))
    ensures Keeps(st, IdsForSymbols(st, p))
    ensures forall t :: t in IdsForSymbols(st, p).0 <==> t in st.0 || (t in p && t !in MARKERS)
  {
    if p != [] {
      var front := p[..|p| - 1];
      SymbolsFacts(st, front);
      AssignFacts(IdsForSymbols(st, front), p[|p| - 1]);
      assert forall t :: t in p <==> t in front || t == p[|p| - 1];
    }
  }

  /** The symbol `t` is a non-marker of one of the alternatives. */
  ghost predicate InPatterns(t: BNFSymbol, ps: seq<seq<BNFSymbol>>) {
    t !in MARKERS && exists k | 0 <= k < |ps| :: t in ps[k]
  }

  lemma {:induction false} PatternsFacts(st: IdState, ps: seq<seq<BNFSymbol>>)
    ensures IdsDense(st) ==> IdsDense(IdsForPatterns(st, ps))
    ensures Keeps(st, IdsForPatterns(st, ps))
    ensures forall t :: t in IdsForPatterns(st, ps).0 <==> t in st.0 || InPatterns(t, ps)
  {
    if ps != [] {
      var front := ps[..|ps| - 1];
      PatternsFacts(st, front);
      SymbolsFacts(IdsForPatterns(st, front), ps[|ps| - 1]);
      forall t ensures InPatterns(t, ps) <==> InPatterns(t, front) || (t in ps[|ps| - 1] && t !in MARKERS) {
        if InPatterns(t, front) {
          var k :| 0 <= k < |front| && t in front[k];
          assert ps[k] == front[k];
        }
        if InPatterns(t, ps) {
          var k :| 0 <= k < |ps| && t in ps[k];
          if k < |front| {
            assert ps[k] == front[k];
          }
        }
      }
    }
  }

  /** The symbol `t` is a non-marker of an alternative of a visited rule. */
  ghost predicate Occurs(t: BNFSymbol, m: RuleMap, order: seq<string>)
    requires forall i | 0 <= i < |order| :: order[i] in m
  {
    exists i | 0 <= i < |order| :: InPatterns(t, m[order[i]].orPatterns)
  }

  lemma {:induction false} RulesFacts(st: IdState, m: RuleMap, order: seq<string>)
    requires forall i | 0 <= i < |order| :: order[i] in m
    ensures IdsDense(st) ==> IdsDense(IdsForRules(st, m, order))
    ensures Keeps(st, IdsForRules(st, m, order))
    ensures forall t :: t in IdsForRules(st, m, order).0 <==> t in st.0 || Occurs(t, m, order)
  {
    if order != [] {
      var front := order[..|order| - 1];
      var n := order[|order| - 1];
      RulesFacts(st, m, front);
      PatternsFacts(IdsForRules(st, m, front), m[n].orPatterns);
      forall t ensures Occurs(t, m, order) <==> Occurs(t, m, front) || InPatterns(t, m[n].orPatterns) {
        if Occurs(t, m, front) {
          var i :| 0 <= i < |front| && InPatterns(t, m[front[i]].orPatterns);
          assert order[i] == front[i];
        }
        if Occurs(t, m, order) {
          var i :| 0 <= i < |order| && InPatterns(t, m[order[i]].orPatterns);
          if i < |front| {
            assert order[i] == front[i];
          }
        }
      }
    }
  }

  /**
   * What symbol_id_map holds: EOF with id 0, the start symbol, and exactly the non-marker symbols
   * of the alternatives. When no alternative names the start symbol, the ids are distinct and
   * below the number of symbols, so they index a row of the table.
   */
  lemma SymbolIdsFacts(m: RuleMap, order: seq<string>)
    requires forall i | 0 <= i < |order| :: order[i] in m
    ensures EOF in SymbolIds(m, order) && SymbolIds(m, order)[EOF] == 0
    ensures SOURCE_SYMBOL in SymbolIds(m, order) && Null !in SymbolIds(m, order)
    ensures forall t | t != EOF && t != SOURCE_SYMBOL :: t in SymbolIds(m, order) <==> Occurs(t, m, order)
    ensures !Occurs(SOURCE_SYMBOL, m, order) ==>
              && Injective(SymbolIds(m, order))
              && forall t | t in SymbolIds(m, order) :: SymbolIds(m, order)[t] < |SymbolIds(m, order)|
  {
    var init: IdState := (map[EOF := 0], 1);
    assert IdsDense(init);
    RulesFacts(init, m, order);
    var st := IdsForRules(init, m, order);
    if !Occurs(SOURCE_SYMBOL, m, order) {
      assert SOURCE_SYMBOL !in st.0;
    }
  }

  /** The id loop depends only on the rules' alternatives. */
  lemma {:induction false} SameShapeIds(a: RuleMap, b: RuleMap, st: IdState, order: seq<string>)
    requires SameShape(a, b) && forall i | 0 <= i < |order| :: order[i] in a
    ensures IdsForRules(st, a, order) == IdsForRules(st, b, order)
    ensures PatternRules(a, order) == PatternRules(b, order)
  {
    if order != [] {
      SameShapeIds(a, b, st, order[..|order| - 1]);
      assert RuleEntries(a[order[|order| - 1]]) == RuleEntries(b[order[|order| - 1]]);
    }
  }

  /** No alternative of any rule names the start symbol ` source`. */
  predicate StartUnreferenced(m: RuleMap) {
    forall n, k, j | n in m && 0 <= k < |m[n].orPatterns| && 0 <= j < |m[n].orPatterns[k]| ::
      m[n].orPatterns[k][j] != SOURCE_SYMBOL
  }

  /** A symbol no alternative names does not occur, whatever the order. */
  lemma NotOccurring(m: RuleMap, order: seq<string>, t: BNFSymbol)
    requires forall n, k, j | n in m && 0 <= k < |m[n].orPatterns| && 0 <= j < |m[n].orPatterns[k]| :: m[n].orPatterns[k][j] != t
    requires forall i | 0 <= i < |order| :: order[i] in m
    ensures !Occurs(t, m, order)
  {
    forall i, k | 0 <= i < |order| && 0 <= k < |m[order[i]].orPatterns|
      ensures t !in m[order[i]].orPatterns[k]
    {
      assert forall j | 0 <= j < |m[order[i]].orPatterns[k]| :: m[order[i]].orPatterns[k][j] != t;
    }
  }

  /**
   * A user rule that no alternative names gets no id, although it has single-pattern rules: so
   * generate_parser stops at its `left_side_symbol_ids` with the "id is not found" error.
   */
  lemma UnreferencedRuleHasNoId(m: RuleMap, order: seq<string>, n: string)
    requires IsOrder(order, m) && n in m && n != SOURCE_RULE_NAME && |m[n].orPatterns| > 0
    requires forall r, k, j | r in m && 0 <= k < |m[r].orPatterns| && 0 <= j < |m[r].orPatterns[k]| ::
               m[r].orPatterns[k][j] != NonTerminalSymbolName(n)
    ensures NonTerminalSymbolName(n) !in SymbolIds(m, order)
    ensures exists t | 0 <= t < |PatternRules(m, order)| :: PatternRules(m, order)[t].rootSymbolName == m[n].nonTerminalSymbolName
  {
    NotOccurring(m, order, NonTerminalSymbolName(n));
    SymbolIdsFacts(m, order);
    PatternRulesFacts(m, order);
    var i :| 0 <= i < |order| && order[i] == n;
    var e := SinglePatternRule(m[order[i]].nonTerminalSymbolName, Without(m[order[i]].orPatterns[0], MARKERS));
    assert e in PatternRules(m, order);
  }

  // ---------------------------------------------------------------- the loops of ParserGenerator::new

  /** `new_pattern`: the alternative without its `Null` and `EOF` markers. */
  method StripMarkers(pattern: seq<BNFSymbol>) returns (r: seq<BNFSymbol>)
    ensures r == Without(pattern, MARKERS)
    ensures forall j | 0 <= j < |r| :: r[j] != Null && r[j] != EOF
  {
    r := [];
    var j := 0;
    while j < |pattern|
      invariant 0 <= j <= |pattern|
      invariant r == Without(pattern[..j], MARKERS)
    {
      WithoutAppend(pattern[..j], pattern[j], MARKERS);
      assert pattern[..j + 1] == pattern[..j] + [pattern[j]];
      if pattern[j] != Null && pattern[j] != EOF {
        r := r + [pattern[j]];
      }
      j := j + 1;
    }
    assert pattern[..j] == pattern;
    WithoutContents(pattern, MARKERS);
    forall j | 0 <= j < |r| ensures r[j] != Null && r[j] != EOF {
      assert r[j] in r;
    }
  }

  /** The single-pattern rules one rule contributes. */
  method RuleSinglePatterns(rule: BNFRule) returns (r: seq<SinglePatternRule>)
    ensures r == RuleEntries(rule)
  {
    r := [];
    var k := 0;
    while k < |rule.orPatterns|
      invariant 0 <= k <= |rule.orPatterns|
      invariant r == RuleEntries(rule)[..k]
    {
      var newPattern := StripMarkers(rule.orPatterns[k]);
      WithoutContents(newPattern, {Null});
      var single := NewSinglePatternRule(rule.nonTerminalSymbolName, newPattern);
      assert single == RuleEntries(rule)[k];
      r := r + [single];
      k := k + 1;
    }
  }

  /** The id loop over one alternative. */
  method PatternIds(st: IdState, pattern: seq<BNFSymbol>) returns (r: IdState)
    ensures r == IdsForSymbols(st, pattern)
  {
    var ids, lastId := st.0, st.1;
    var j := 0;
    while j < |pattern|
      invariant 0 <= j <= |pattern|
      invariant (ids, lastId) == IdsForSymbols(st, pattern[..j])
    {
      assert pattern[..j + 1][..j] == pattern[..j];
      var symbol := pattern[j];
      if symbol != Null && symbol != EOF && symbol !in ids {
        ids := ids[symbol := lastId];
        lastId := lastId + 1;
      }
      j := j + 1;
    }
    assert pattern[..j] == pattern;
    r := (ids, lastId);
  }

  /** The id loop over the alternatives of one rule. */
  method RuleIds(st: IdState, rule: BNFRule) returns (r: IdState)
    ensures r == IdsForPatterns(st, rule.orPatterns)
  {
    r := st;
    var k := 0;
    while k < |rule.orPatterns|
      invariant 0 <= k <= |rule.orPatterns|
      invariant r == IdsForPatterns(st, rule.orPatterns[..k])
    {
      assert rule.orPatterns[..k + 1][..k] == rule.orPatterns[..k];
      r := PatternIds(r, rule.orPatterns[k]);
      k := k + 1;
    }
    assert rule.orPatterns[..k] == rule.orPatterns;
  }

  /**
   * The first loop of `new`: visits every rule once, in an order the hash map chooses, and
   * collects its single-pattern rules.
   */
  method SplitRules(m: RuleMap) returns (order: seq<string>, singles: seq<SinglePatternRule>)
    ensures IsOrder(order, m)
    ensures singles == PatternRules(m, order)
  {
    order := [];
    var todo := m.Keys;
    singles := [];
    while todo != {}
      invariant todo <= m.Keys
      invariant forall i | 0 <= i < |order| :: order[i] in m && order[i] !in todo
      invariant forall i, j | 0 <= i < j < |order| :: order[i] != order[j]
      invariant forall n | n in m :: n in order || n in todo
      invariant singles == PatternRules(m, order)
      decreases |todo|
    {
      var n :| n in todo;
      var entries := RuleSinglePatterns(m[n]);
      assert (order + [n])[..|order|] == order;
      singles := singles + entries;
      order := order + [n];
      todo := todo - {n};
    }
  }

  /** The second loop of `new`: the ids of the symbols, visiting the rules in the same order. */
  method NumberSymbols(m: RuleMap, order: seq<string>) returns (st: IdState)
    requires forall i | 0 <= i < |order| :: order[i] in m
    ensures st == IdsForRules((map[EOF := 0], 1), m, order)
  {
    st := (map[EOF := 0], 1);
    var i := 0;
    while i < |order|
      invariant 0 <= i <= |order|
      invariant st == IdsForRules((map[EOF := 0], 1), m, order[..i])
    {
      assert order[..i + 1][..i] == order[..i];
      st := RuleIds(st, m[order[i]]);
      i := i + 1;
    }
    assert order[..i] == order;
  }

  // ---------------------------------------------------------------- generate_parser's arrays

  /** RULE_PATTERN_NAME: the rule name of each single-pattern rule. */
  function RootNames(rules: seq<SinglePatternRule>): (r: seq<string>)
    ensures |r| == |rules| && forall i | 0 <= i < |rules| :: r[i] == rules[i].rootSymbolName
  {
    seq(|rules|, i requires 0 <= i < |rules| => rules[i].rootSymbolName)
  }

  /** LR_TABLE: every cell as its (code, argument) pair. */
  function EncodeTable(table: seq<seq<Option<Operation>>>): (r: seq<seq<(nat, nat)>>)
    ensures |r| == |table|
    ensures forall n | 0 <= n < |table| :: |r[n]| == |table[n]|
    ensures forall n, k | 0 <= n < |table| && 0 <= k < |table[n]| :: DecodeCell(r[n][k]) == table[n][k]
  {
    var r := seq(|table|, n requires 0 <= n < |table| =>
               seq(|table[n]|, k requires 0 <= k < |table[n]| => EncodeCell(table[n][k])));
    forall n, k | 0 <= n < |table| && 0 <= k < |table[n]| ensures DecodeCell(r[n][k]) == table[n][k] {
      EncodeCellRoundTrip(table[n][k], table[n][k]);
    }
    r
  }

  /** Every rule's name and symbols have ids. */
  predicate RulesHaveIds(rules: seq<SinglePatternRule>, ids: map<BNFSymbol, nat>) {
    forall i | 0 <= i < |rules| ::
      && NonTerminalSymbolName(rules[i].rootSymbolName) in ids
      && forall j | 0 <= j < |rules[i].pattern| :: rules[i].pattern[j] in ids
  }

  /** BNF_RULES: the id of each rule's name and the ids of its symbols, in order. */
  function RuleCodes(rules: seq<SinglePatternRule>, ids: map<BNFSymbol, nat>): (r: seq<(nat, seq<nat>)>)
    requires RulesHaveIds(rules, ids)
    ensures |r| == |rules|
    ensures forall i | 0 <= i < |rules| ::
              && r[i].0 == ids[NonTerminalSymbolName(rules[i].rootSymbolName)]
              && |r[i].1| == |rules[i].pattern|
              && forall j | 0 <= j < |rules[i].pattern| :: r[i].1[j] == ids[rules[i].pattern[j]]
  {
    seq(|rules|, i requires 0 <= i < |rules| =>
      (ids[NonTerminalSymbolName(rules[i].rootSymbolName)],
       seq(|rules[i].pattern|, j requires 0 <= j < |rules[i].pattern| => ids[rules[i].pattern[j]])))
  }

  /** `left_side_symbol_ids`: the id of each rule's name, or the error for the first rule without one. */
  method LeftSideIds(rules: seq<SinglePatternRule>, ids: map<BNFSymbol, nat>) returns (r: Result<seq<nat>, TableError>)
    ensures r.Ok? <==> forall i | 0 <= i < |rules| :: NonTerminalSymbolName(rules[i].rootSymbolName) in ids
    ensures r.Ok? ==> |r.value| == |rules|
    ensures r.Ok? ==> forall i | 0 <= i < |rules| :: r.value[i] == ids[NonTerminalSymbolName(rules[i].rootSymbolName)]
    ensures r.Err? ==> exists i | 0 <= i < |rules| ::
              r.error == SymbolIdNotFound(NonTerminalSymbolName(rules[i].rootSymbolName))
  {
    var result: seq<nat> := [];
    var i := 0;
    while i < |rules|
      invariant 0 <= i <= |rules| && |result| == i
      invariant forall t | 0 <= t < i :: NonTerminalSymbolName(rules[t].rootSymbolName) in ids
      invariant forall t | 0 <= t < i :: result[t] == ids[NonTerminalSymbolName(rules[t].rootSymbolName)]
    {
      var found := GetSymbolId(ids, NonTerminalSymbolName(rules[i].rootSymbolName));
      if found.Err? {
        return Err(found.error);
      }
      result := result + [found.value];
      i := i + 1;
    }
    r := Ok(result);
  }

  /**
   * The arrays fit together when the ids stay below the row width, every state's targets are
   * states and every row is the row of its state: then the runtime parser's lookups are in bounds.
   */
  lemma TablesWellFormed(groups: map<nat, LRGroup>, table: seq<seq<Option<Operation>>>,
                         rules: seq<SinglePatternRule>, ids: map<BNFSymbol, nat>)
    requires Numbered(groups, |groups|) && |groups| > 0 && |table| == |groups|
    requires forall k | k in groups :: forall x | x in groups[k].nextGroupNumberMap :: groups[k].nextGroupNumberMap[x] in groups
    requires forall n | 0 <= n < |table| :: RowOf(groups[n], rules, ids, |ids|, table[n])
    requires RulesHaveIds(rules, ids) && forall s | s in ids :: ids[s] < |ids|
    ensures Parser.WellFormed(Parser.Tables(RootNames(rules), EncodeTable(table), RuleCodes(rules, ids)))
  {
    var t := Parser.Tables(RootNames(rules), EncodeTable(table), RuleCodes(rules, ids));
    assert |t.lrTable[0]| == |ids| by {
      assert RowOf(groups[0], rules, ids, |ids|, table[0]);
    }
    forall s, k | 0 <= s < |t.lrTable| && 0 <= k < |t.lrTable[s]| ensures Parser.CellOk(t, t.lrTable[s][k]) {
      assert RowOf(groups[s], rules, ids, |ids|, table[s]);
      var cell := table[s][k];
      if cell.Some? {
        var op := cell.value;
        assert OperationFits(op, groups[s].nextGroupNumberMap.Values, |rules|);
        if op.Shift? || op.GoTo? {
          var x :| x in groups[s].nextGroupNumberMap && groups[s].nextGroupNumberMap[x] == op.target;
          assert op.target in groups;
        }
      }
    }
  }

  // ---------------------------------------------------------------- the generator

  datatype Generated = Generated(groups: map<nat, LRGroup>, table: seq<seq<Option<Operation>>>, tables: Parser.Tables)

  /**
   * What generate_parser ends with: the generated arrays, an error while filling the table, an
   * error for a rule whose name has no id, or the panic or fuel exhaustion of the state construction.
   */
  datatype GenerateOutcome =
    | Emitted(value: Generated)
    | TableRejected(groups: map<nat, LRGroup>, error: TableError)
    | RootWithoutId(error: TableError)
    | GeneratePanicked
    | GenerateOutOfFuel

  /** The rules marked nullable. */
  function NullableNames(m: RuleMap): set<string> {
    set n | n in m && m[n].isNullable
  }

  /** The rules' first sets. */
  function FirstSets(m: RuleMap): FirstMap {
    map n | n in m :: m[n].firstSet
  }

  /** The rules with the analysis written back: each marked nullable or not, and given its first set. */
  function Marked(m: RuleMap, nullable: set<string>, first: FirstMap): RuleMap
    requires m.Keys <= first.Keys
  {
    map n | n in m :: m[n].(isNullable := n in nullable, firstSet := first[n])
  }

  /**
   * Writing the analysis back keeps the names, the alternatives, the visiting order and so the
   * single-pattern rules and ids, and the marks read back as the analysis results.
   */
  lemma MarkedFacts(m: RuleMap, nullable: set<string>, first: FirstMap, order: seq<string>)
    requires nullable <= m.Keys && first.Keys == m.Keys && IsOrder(order, m)
    ensures var m2 := Marked(m, nullable, first);
      && SameShape(m, m2) && (Named(m) ==> Named(m2)) && IsOrder(order, m2)
      && NullableNames(m2) == nullable && FirstSets(m2) == first
      && PatternRules(m2, order) == PatternRules(m, order) && SymbolIds(m2, order) == SymbolIds(m, order)
  {
    var m2 := Marked(m, nullable, first);
    assert NullableNames(m2) == nullable;
    assert FirstSets(m2) == first;
    SameShapeIds(m, m2, (map[EOF := 0], 1), order);
  }

  class ParserGenerator {
    var ruleMap: RuleMap
    var singlePatternRules: seq<SinglePatternRule>
    var symbolIdMap: map<BNFSymbol, nat>
    /** The order in which `rule_map.values()` visits the rules (the same for both loops of `new`). */
    ghost var ruleOrder: seq<string>

    /** The rules with the start rule, and the single-pattern rules and ids `new` derived from them. */
    ghost predicate Valid()
      reads this
    {
      && SOURCE_RULE_NAME in ruleMap
      && ruleMap[SOURCE_RULE_NAME].orPatterns == SourceRule().orPatterns
      && IsOrder(ruleOrder, ruleMap)
      && singlePatternRules == PatternRules(ruleMap, ruleOrder)
      && symbolIdMap == SymbolIds(ruleMap, ruleOrder)
    }

    /** ParserGenerator::new: adds ` source ::= source`, splits the rules into single patterns and numbers the symbols. */
    constructor (rules: RuleMap)
      ensures ruleMap == rules[SOURCE_RULE_NAME := SourceRule()]
      ensures Valid()
    {
      var m := rules[SOURCE_RULE_NAME := SourceRule()];
      var order, singles := SplitRules(m);
      var st := NumberSymbols(m, order);
      ruleMap := m;
      singlePatternRules := singles;
      symbolIdMap := st.0[SOURCE_SYMBOL := st.1];
      ruleOrder := order;
    }

    /**
     * search_nulls_and_first_set: marks the nullable rules and stores each rule's first set; the
     * rules' alternatives, and so the single-pattern rules and ids, stay as they were.
     */
    method SearchNullsAndFirstSet()
      requires Valid() && Named(ruleMap)
      modifies this
      ensures Valid() && Named(ruleMap)
      ensures SameShape(old(ruleMap), ruleMap)
      ensures IsNullableSet(old(ruleMap), NullableNames(ruleMap))
      ensures IsFirstMap(old(ruleMap), NullableNames(ruleMap), FirstSets(ruleMap))
      ensures singlePatternRules == old(singlePatternRules) && symbolIdMap == old(symbolIdMap)
    {
      var m := ruleMap;
      var nullable := SearchNullables(m);
      var first := SearchFirstSets(m, nullable);
      MarkedFacts(m, nullable, first, ruleOrder);
      ruleMap := Marked(m, nullable, first);
    }

    /**
     * generate_parser up to the generated arrays: the automaton, the table of one row per state
     * with a column per symbol id, the ids of the rule names, and RULE_PATTERN_NAME, LR_TABLE and
     * BNF_RULES. The arrays are well formed for the runtime parser, and each cell decodes to the
     * operation of its state.
     */
    method GenerateParser(fuel: nat) returns (r: GenerateOutcome)
      requires Valid() && StartUnreferenced(ruleMap)
      ensures r.Emitted? ==>
                && IsAutomaton(r.value.groups, ruleMap)
                && |r.value.table| == |r.value.groups|
                && (forall n | 0 <= n < |r.value.table| ::
                      RowOf(r.value.groups[n], singlePatternRules, symbolIdMap, |symbolIdMap|, r.value.table[n]))
                && RulesHaveIds(singlePatternRules, symbolIdMap)
                && r.value.tables == Parser.Tables(RootNames(singlePatternRules), EncodeTable(r.value.table),
                                                   RuleCodes(singlePatternRules, symbolIdMap))
                && Parser.WellFormed(r.value.tables)
      ensures r.TableRejected? ==>
                && IsAutomaton(r.groups, ruleMap)
                && exists n: nat | n < |r.groups| :: !Buildable(r.groups[n], singlePatternRules, symbolIdMap)
      ensures r.RootWithoutId? ==>
                exists i | 0 <= i < |singlePatternRules| ::
                  NonTerminalSymbolName(singlePatternRules[i].rootSymbolName) !in symbolIdMap
    {
      var automaton := BuildAutomaton(ruleMap, fuel);
      if automaton.BuildPanicked? {
        return GeneratePanicked;
      }
      if automaton.BuildOutOfFuel? {
        return GenerateOutOfFuel;
      }
      var groups := automaton.groups;
      NotOccurring(ruleMap, ruleOrder, SOURCE_SYMBOL);
      SymbolIdsFacts(ruleMap, ruleOrder);
      var width := |symbolIdMap|;
      var table := BuildTable(groups, |groups|, singlePatternRules, symbolIdMap, width);
      if table.Err? {
        return TableRejected(groups, table.error);
      }
      var roots := LeftSideIds(singlePatternRules, symbolIdMap);
      if roots.Err? {
        return RootWithoutId(roots.error);
      }
      PatternIdsPresent(ruleMap, ruleOrder);
      TablesWellFormed(groups, table.value, singlePatternRules, symbolIdMap);
      var tables := Parser.Tables(RootNames(singlePatternRules), EncodeTable(table.value),
                                  RuleCodes(singlePatternRules, symbolIdMap));
      r := Emitted(Generated(groups, table.value, tables));
    }

    /**
     * ParserGenerator::generate: the nullable and FIRST analysis, then generate_parser over the
     * analysed rules, whose alternatives are those the generator was built with.
     */
    method Generate(fuel: nat) returns (r: GenerateOutcome)
      requires Valid() && Named(ruleMap) && StartUnreferenced(ruleMap)
      modifies this
      ensures Valid() && SameShape(old(ruleMap), ruleMap)
      ensures IsNullableSet(old(ruleMap), NullableNames(ruleMap))
      ensures IsFirstMap(old(ruleMap), NullableNames(ruleMap), FirstSets(ruleMap))
      ensures r.Emitted? ==> IsAutomaton(r.value.groups, ruleMap) && Parser.WellFormed(r.value.tables)
      ensures r.RootWithoutId? ==>
                exists i | 0 <= i < |singlePatternRules| ::
                  NonTerminalSymbolName(singlePatternRules[i].rootSymbolName) !in symbolIdMap
    {
      SearchNullsAndFirstSet();
      r := GenerateParser(fuel);
    }
  }

  /** The symbols of the single-pattern rules all have ids. */
  lemma PatternIdsPresent(m: RuleMap, order: seq<string>)
    requires forall i | 0 <= i < |order| :: order[i] in m
    ensures forall t, j | 0 <= t < |PatternRules(m, order)| && 0 <= j < |PatternRules(m, order)[t].pattern| ::
              PatternRules(m, order)[t].pattern[j] in SymbolIds(m, order)
  {
    PatternRulesFacts(m, order);
    var rs := PatternRules(m, order);
    forall t, j | 0 <= t < |rs| && 0 <= j < |rs[t].pattern| ensures rs[t].pattern[j] in SymbolIds(m, order) {
      AlternativeSymbolId(m, order, rs[t], j);
    }
  }

  /** The symbols of a single-pattern rule taken from an alternative all have ids. */
  lemma AlternativeSymbolId(m: RuleMap, order: seq<string>, r: SinglePatternRule, j: nat)
    requires forall i | 0 <= i < |order| :: order[i] in m
    requires FromAlternative(r, m, order) && j < |r.pattern|
    ensures r.pattern[j] in SymbolIds(m, order)
  {
    var i, k :| 0 <= i < |order| && 0 <= k < |m[order[i]].orPatterns| &&
                r == SinglePatternRule(m[order[i]].nonTerminalSymbolName, Without(m[order[i]].orPatterns[k], MARKERS));
    var s := r.pattern[j];
    WithoutContents(m[order[i]].orPatterns[k], MARKERS);
    assert s in Without(m[order[i]].orPatterns[k], MARKERS);
    assert InPatterns(s, m[order[i]].orPatterns);
    assert Occurs(s, m, order);
    SymbolIdsFacts(m, order);
  }
}
