/**
 * The grammar analysis of ParserGenerator::search_nulls_and_first_set and get_first_set
 * (bnf_rules_parser/src/lib.rs): which rules derive the empty word, and the FIRST set of every
 * rule, both computed by passes that repeat until nothing changes.
 */
module Analysis {
  import opened Wrappers
  import opened Grammar

  type RuleMap = map<string, BNFRule>

  /** Every rule is stored under its own name (the analysis writes its results back by name). */
  ghost predicate Named(m: RuleMap) {
    forall n | n in m :: m[n].nonTerminalSymbolName == n
  }

  // ---------------------------------------------------------------- nullable rules

  /** A symbol that counts as empty: `Null`, or a reference to a rule known to be nullable. */
  predicate EmptySymbol(s: BNFSymbol, nullable: set<string>) {
    s == Null || (s.NonTerminalSymbolName? && s.name in nullable)
  }

  /** `nullable_count`: how many symbols of the alternative count as empty. */
  function NullableCount(p: seq<BNFSymbol>, nullable: set<string>): (c: nat)
    ensures c <= |p|
  {
    if p == [] then 0 else (if EmptySymbol(p[0], nullable) then 1 else 0) + NullableCount(p[1..], nullable)
  }

  /** The count reaches the length exactly when every symbol counts as empty. */
  lemma {:induction false} NullableCountFull(p: seq<BNFSymbol>, nullable: set<string>)
    ensures NullableCount(p, nullable) == |p| <==> forall i | 0 <= i < |p| :: EmptySymbol(p[i], nullable)
  {
    if p != [] {
      NullableCountFull(p[1..], nullable);
      assert forall i | 1 <= i < |p| :: p[i] == p[1..][i - 1];
    }
  }

  /** A rule is nullable when it has no alternatives or one alternative whose count is its length. */
  predicate NullableRule(r: BNFRule, nullable: set<string>) {
    |r.orPatterns| == 0 || exists k | 0 <= k < |r.orPatterns| :: NullableCount(r.orPatterns[k], nullable) == |r.orPatterns[k]|
  }

  /** Knowing more nullable rules never makes a rule non-nullable. */
  lemma NullableRuleMonotone(r: BNFRule, small: set<string>, large: set<string>)
    requires small <= large && NullableRule(r, small)
    ensures NullableRule(r, large)
  {
    if |r.orPatterns| > 0 {
      var k :| 0 <= k < |r.orPatterns| && NullableCount(r.orPatterns[k], small) == |r.orPatterns[k]|;
      NullableCountFull(r.orPatterns[k], small);
      NullableCountFull(r.orPatterns[k], large);
    }
  }

  /** No rule outside `nullable` is nullable given `nullable`. */
  ghost predicate NullClosed(m: RuleMap, nullable: set<string>) {
    forall n | n in m :: NullableRule(m[n], nullable) ==> n in nullable
  }

  /** Every rule of `nullable` is nullable given `nullable`. */
  ghost predicate NullSupported(m: RuleMap, nullable: set<string>) {
    forall n | n in nullable :: n in m && NullableRule(m[n], nullable)
  }

  /** `nullable` lies inside every set that is closed: no rule is called nullable without cause. */
  ghost predicate NullLeast(m: RuleMap, nullable: set<string>) {
    forall s: set<string> | NullClosed(m, s) :: nullable <= s
  }

  /** The nullable rules of the grammar: the least set closed under the rule. */
  ghost predicate IsNullableSet(m: RuleMap, nullable: set<string>) {
    NullClosed(m, nullable) && NullSupported(m, nullable) && NullLeast(m, nullable)
  }

  lemma NullLeastAdd(m: RuleMap, nullable: set<string>, n: string)
    requires NullLeast(m, nullable) && n in m && NullableRule(m[n], nullable)
    ensures NullLeast(m, nullable + {n})
  {
    forall s: set<string> | NullClosed(m, s)
      ensures nullable + {n} <= s
    {
      NullableRuleMonotone(m[n], nullable, s);
    }
  }

  lemma NullSupportedAdd(m: RuleMap, nullable: set<string>, n: string)
    requires NullSupported(m, nullable) && n in m && NullableRule(m[n], nullable)
    ensures NullSupported(m, nullable + {n})
  {
    forall k | k in nullable + {n}
      ensures k in m && NullableRule(m[k], nullable + {n})
    {
      NullableRuleMonotone(m[k], nullable, nullable + {n});
    }
  }

  /**
   * One pass of the nullable loop over the rules in any order: a rule not yet nullable is checked
   * against what is known so far and becomes nullable at once; `retry` says a rule flipped.
   */
  method NullablePass(m: RuleMap, nullable: set<string>) returns (next: set<string>, retry: bool)
    requires nullable <= m.Keys && NullSupported(m, nullable) && NullLeast(m, nullable)
    ensures nullable <= next <= m.Keys && NullSupported(m, next) && NullLeast(m, next)
    ensures retry <==> next != nullable
    ensures !retry ==> NullClosed(m, next)
  {
    next := nullable;
    retry := false;
    var todo := m.Keys;
    while todo != {}
      invariant todo <= m.Keys
      invariant nullable <= next <= m.Keys && NullSupported(m, next) && NullLeast(m, next)
      invariant retry <==> next != nullable
      invariant !retry ==> forall n | n in m.Keys - todo :: n in next || !NullableRule(m[n], next)
      decreases |todo|
    {
      var n :| n in todo;
      todo := todo - {n};
      if n in next {
        continue;
      }
      if NullableRule(m[n], next) {
        NullLeastAdd(m, next, n);
        NullSupportedAdd(m, next, n);
        next := next + {n};
        retry := true;
      }
    }
  }

  lemma {:induction false} SubsetCard<T>(small: set<T>, large: set<T>)
    requires small <= large
    ensures |small| <= |large|
    decreases large
  {
    if small != {} {
      var y :| y in small;
      SubsetCard(small - {y}, large - {y});
    }
  }

  lemma ProperSubsetCard<T>(small: set<T>, large: set<T>)
    requires small < large
    ensures |small| < |large|
  {
    assert large - small == {} ==> large == small;
    var x :| x in large - small;
    SubsetCard(small, large - {x});
  }

  /** The nullable loop: passes until none flips a rule. The result is exactly the nullable rules. */
  method SearchNullables(m: RuleMap) returns (nullable: set<string>)
    ensures nullable <= m.Keys && IsNullableSet(m, nullable)
  {
    nullable := {};
    while true
      invariant nullable <= m.Keys && NullSupported(m, nullable) && NullLeast(m, nullable)
      decreases |m.Keys - nullable|
    {
      var next, retry := NullablePass(m, nullable);
      if !retry {
        nullable := next;
        break;
      }
      ProperSubsetCard(m.Keys - next, m.Keys - nullable);
      nullable := next;
    }
  }

  /** The nullable set is unique: it is the only set with the three properties. */
  lemma NullableSetUnique(m: RuleMap, a: set<string>, b: set<string>)
    requires IsNullableSet(m, a) && IsNullableSet(m, b)
    ensures a == b
  {
  }

  /** Every symbol of the alternative counts as empty. */
  ghost predicate AllEmpty(p: seq<BNFSymbol>, nullable: set<string>) {
    forall i | 0 <= i < |p| :: EmptySymbol(p[i], nullable)
  }

  /**
   * The rules the source promises: a rule without alternatives is nullable, and a rule is
   * nullable exactly when one alternative consists of `Null`s and nullable rules only.
   */
  lemma NullableCharacterised(m: RuleMap, nullable: set<string>, n: string)
    requires IsNullableSet(m, nullable) && n in m
    ensures |m[n].orPatterns| == 0 ==> n in nullable
    ensures n in nullable <==>
              |m[n].orPatterns| == 0 || exists k | 0 <= k < |m[n].orPatterns| :: AllEmpty(m[n].orPatterns[k], nullable)
  {
    var ps := m[n].orPatterns;
    if n in nullable && |ps| > 0 {
      var k :| 0 <= k < |ps| && NullableCount(ps[k], nullable) == |ps[k]|;
      NullableCountFull(ps[k], nullable);
      assert AllEmpty(ps[k], nullable);
    }
    if exists k | 0 <= k < |ps| :: AllEmpty(ps[k], nullable) {
      var k :| 0 <= k < |ps| && AllEmpty(ps[k], nullable);
      NullableCountFull(ps[k], nullable);
      assert NullableRule(m[n], nullable);
    }
  }

  // ---------------------------------------------------------------- FIRST sets

  type FirstMap = map<string, set<BNFSymbol>>

  function Lookup(first: FirstMap, n: string): set<BNFSymbol> {
    if n in first then first[n] else {}
  }

  /**
   * What one alternative adds to its rule in a pass: walking from the left, a rule reference adds
   * that rule's current set and stops unless the rule is nullable, `Null` is skipped, and a
   * terminal or EOF is added and stops the walk.
   */
  function PatternFirst(p: seq<BNFSymbol>, first: FirstMap, nullable: set<string>): set<BNFSymbol> {
    if p == [] then {}
    else
      match p[0]
      case NonTerminalSymbolName(name) =>
        Lookup(first, name) + (if name in nullable then PatternFirst(p[1..], first, nullable) else {})
      case Null => PatternFirst(p[1..], first, nullable)
      case _ => {p[0]}
  }

  /** What all alternatives of a rule add in a pass. */
  function PatternsFirst(ps: seq<seq<BNFSymbol>>, first: FirstMap, nullable: set<string>): set<BNFSymbol> {
    if ps == [] then {} else PatternFirst(ps[0], first, nullable) + PatternsFirst(ps[1..], first, nullable)
  }

  /** `first` is below `other` rule by rule. */
  ghost predicate Below(first: FirstMap, other: FirstMap) {
    forall n | n in first :: first[n] <= Lookup(other, n)
  }

  lemma {:induction false} PatternFirstMonotone(p: seq<BNFSymbol>, small: FirstMap, large: FirstMap, nullable: set<string>)
    requires Below(small, large)
    ensures PatternFirst(p, small, nullable) <= PatternFirst(p, large, nullable)
  {
    if p != [] {
      PatternFirstMonotone(p[1..], small, large, nullable);
    }
  }

  lemma {:induction false} PatternsFirstMonotone(ps: seq<seq<BNFSymbol>>, small: FirstMap, large: FirstMap, nullable: set<string>)
    requires Below(small, large)
    ensures PatternsFirst(ps, small, nullable) <= PatternsFirst(ps, large, nullable)
  {
    if ps != [] {
      PatternFirstMonotone(ps[0], small, large, nullable);
      PatternsFirstMonotone(ps[1..], small, large, nullable);
    }
  }

  /** Every symbol an alternative adds is a terminal, a terminal function or EOF. */
  lemma {:induction false} PatternFirstKinds(p: seq<BNFSymbol>, first: FirstMap, nullable: set<string>, u: set<BNFSymbol>)
    requires forall n | n in first :: first[n] <= u
    requires forall i | 0 <= i < |p| && IsFirstKind(p[i]) :: p[i] in u
    requires forall s | s in u :: IsFirstKind(s)
    ensures PatternFirst(p, first, nullable) <= u
  {
    if p != [] {
      PatternFirstKinds(p[1..], first, nullable, u);
    }
  }

  lemma {:induction false} PatternsFirstKinds(ps: seq<seq<BNFSymbol>>, first: FirstMap, nullable: set<string>, u: set<BNFSymbol>)
    requires forall n | n in first :: first[n] <= u
    requires forall k, i | 0 <= k < |ps| && 0 <= i < |ps[k]| && IsFirstKind(ps[k][i]) :: ps[k][i] in u
    requires forall s | s in u :: IsFirstKind(s)
    ensures PatternsFirst(ps, first, nullable) <= u
  {
    if ps != [] {
      PatternFirstKinds(ps[0], first, nullable, u);
      PatternsFirstKinds(ps[1..], first, nullable, u);
    }
  }

  /** The terminals, terminal functions and EOF written in the grammar: every FIRST set lies in it. */
  function Terminals(m: RuleMap): (u: set<BNFSymbol>)
    ensures forall s | s in u :: IsFirstKind(s)
    ensures forall n, k, i | n in m && 0 <= k < |m[n].orPatterns| && 0 <= i < |m[n].orPatterns[k]|
                              && IsFirstKind(m[n].orPatterns[k][i]) :: m[n].orPatterns[k][i] in u
  {
    set n, k, i | n in m && 0 <= k < |m[n].orPatterns| && 0 <= i < |m[n].orPatterns[k]|
                  && IsFirstKind(m[n].orPatterns[k][i]) :: m[n].orPatterns[k][i]
  }

  /** No rule's set grows in a further pass. */
  ghost predicate FirstClosed(m: RuleMap, nullable: set<string>, first: FirstMap) {
    forall n | n in m :: PatternsFirst(m[n].orPatterns, first, nullable) <= Lookup(first, n)
  }

  /** Every symbol of a rule's set is one that some pass adds. */
  ghost predicate FirstSupported(m: RuleMap, nullable: set<string>, first: FirstMap) {
    forall n | n in first :: n in m && first[n] <= PatternsFirst(m[n].orPatterns, first, nullable)
  }

  /** The sets lie below those of every closed assignment. */
  ghost predicate FirstLeast(m: RuleMap, nullable: set<string>, first: FirstMap) {
    forall other: FirstMap | FirstClosed(m, nullable, other) :: Below(first, other)
  }

  /** The FIRST sets: one set per rule, the least assignment closed under the passes. */
  ghost predicate IsFirstMap(m: RuleMap, nullable: set<string>, first: FirstMap) {
    && first.Keys == m.Keys
    && FirstClosed(m, nullable, first) && FirstSupported(m, nullable, first) && FirstLeast(m, nullable, first)
  }

  /** The (rule, symbol) pairs of an assignment; a pass that adds anything adds a pair. */
  ghost function Pairs(first: FirstMap): set<(string, BNFSymbol)> {
    set n, s | n in first && s in first[n] :: (n, s)
  }

  ghost function PairBound(m: RuleMap): set<(string, BNFSymbol)> {
    set n, s | n in m && s in Terminals(m) :: (n, s)
  }

  /** What the passes keep true of the assignment. */
  ghost predicate FirstInvariant(m: RuleMap, nullable: set<string>, first: FirstMap) {
    && first.Keys == m.Keys
    && (forall n | n in first :: first[n] <= Terminals(m))
    && FirstSupported(m, nullable, first) && FirstLeast(m, nullable, first)
  }

  /** Adding to rule `n` what its alternatives give keeps the invariant. */
  lemma FirstStep(m: RuleMap, nullable: set<string>, first: FirstMap, n: string)
    requires FirstInvariant(m, nullable, first) && n in m
    ensures var add := PatternsFirst(m[n].orPatterns, first, nullable);
            var next := first[n := first[n] + add];
            && FirstInvariant(m, nullable, next) && Below(first, next)
            && Pairs(first) <= Pairs(next) <= PairBound(m)
            && (!(add <= first[n]) ==> Pairs(first) != Pairs(next))
  {
    var add := PatternsFirst(m[n].orPatterns, first, nullable);
    var next := first[n := first[n] + add];
    assert Below(first, next);
    PatternsFirstKinds(m[n].orPatterns, first, nullable, Terminals(m));
    forall k | k in next
      ensures next[k] <= PatternsFirst(m[k].orPatterns, next, nullable)
    {
      PatternsFirstMonotone(m[k].orPatterns, first, next, nullable);
    }
    forall other: FirstMap | FirstClosed(m, nullable, other)
      ensures Below(next, other)
    {
      PatternsFirstMonotone(m[n].orPatterns, first, other, nullable);
    }
    if !(add <= first[n]) {
      var s :| s in add && s !in first[n];
      assert (n, s) in Pairs(next) && (n, s) !in Pairs(first);
    }
  }

  lemma ExtendNothing(first: FirstMap, n: string, add: set<BNFSymbol>)
    requires n in first && add <= first[n]
    ensures first[n := first[n] + add] == first
  {
    assert first[n] + add == first[n];
  }

  lemma StrictlyMore<T>(a: set<T>, b: set<T>, c: set<T>)
    requires a <= b <= c
    ensures a != b ==> a != c
  {
    assert a == c ==> b == a;
  }

  /**
   * One pass of the FIRST loop over the rules in any order: each rule's set is extended by what
   * its alternatives give from the sets known so far; `retry` says some set grew.
   */
  method FirstPass(m: RuleMap, nullable: set<string>, first: FirstMap) returns (next: FirstMap, retry: bool)
    requires FirstInvariant(m, nullable, first)
    ensures FirstInvariant(m, nullable, next) && Below(first, next)
    ensures Pairs(first) <= Pairs(next) <= PairBound(m)
    ensures retry ==> Pairs(first) != Pairs(next)
    ensures !retry ==> FirstClosed(m, nullable, next)
  {
    next := first;
    retry := false;
    var todo := m.Keys;
    while todo != {}
      invariant todo <= m.Keys
      invariant FirstInvariant(m, nullable, next) && Below(first, next)
      invariant Pairs(first) <= Pairs(next) <= PairBound(m)
      invariant retry ==> Pairs(first) != Pairs(next)
      invariant !retry ==> next == first
      invariant !retry ==> forall n | n in m.Keys - todo :: PatternsFirst(m[n].orPatterns, next, nullable) <= next[n]
      decreases |todo|
    {
      var n :| n in todo;
      todo := todo - {n};
      var add := PatternsFirst(m[n].orPatterns, next, nullable);
      FirstStep(m, nullable, next, n);
      ghost var before := next;
      if !(add <= next[n]) {
        retry := true;
      } else {
        ExtendNothing(next, n, add);
      }
      next := next[n := next[n] + add];
      StrictlyMore(Pairs(first), Pairs(before), Pairs(next));
    }
  }

  lemma MeasureDecreases<T>(a: set<T>, b: set<T>, bound: set<T>)
    requires a <= b <= bound && a != b
    ensures |bound - b| < |bound - a|
  {
    ProperSubsetCard(bound - b, bound - a);
  }

  lemma FirstStart(m: RuleMap, nullable: set<string>)
    ensures var first: FirstMap := map n | n in m :: {};
            FirstInvariant(m, nullable, first) && Pairs(first) <= PairBound(m)
  {
    var first: FirstMap := map n | n in m :: {};
    assert Pairs(first) == {};
  }

  lemma FirstDone(m: RuleMap, nullable: set<string>, first: FirstMap)
    requires FirstInvariant(m, nullable, first) && FirstClosed(m, nullable, first)
    ensures IsFirstMap(m, nullable, first)
    ensures forall n | n in first :: forall s | s in first[n] :: IsFirstKind(s)
  {
  }

  /** The FIRST loop: passes until none adds a symbol. The result is exactly the FIRST sets. */
  method SearchFirstSets(m: RuleMap, nullable: set<string>) returns (first: FirstMap)
    ensures IsFirstMap(m, nullable, first)
    ensures forall n | n in first :: forall s | s in first[n] :: IsFirstKind(s)
  {
    first := map n | n in m :: {};
    FirstStart(m, nullable);
    while true
      invariant FirstInvariant(m, nullable, first) && Pairs(first) <= PairBound(m)
      decreases |PairBound(m) - Pairs(first)|
    {
      var next, retry := FirstPass(m, nullable, first);
      if !retry {
        first := next;
        FirstDone(m, nullable, first);
        break;
      }
      MeasureDecreases(Pairs(first), Pairs(next), PairBound(m));
      first := next;
    }
  }

  /** The FIRST sets are unique, and each is exactly what the rule's alternatives give. */
  lemma FirstMapFacts(m: RuleMap, nullable: set<string>, a: FirstMap, b: FirstMap)
    requires IsFirstMap(m, nullable, a) && IsFirstMap(m, nullable, b)
    ensures a == b
    ensures forall n | n in a :: a[n] == PatternsFirst(m[n].orPatterns, a, nullable)
  {
    assert Below(a, b) && Below(b, a);
    assert forall n | n in a :: a[n] == b[n];
  }

  // ---------------------------------------------------------------- get_first_set

  /**
   * get_first_set: the FIRST set of a symbol sequence followed by an item's lookahead.
   * A reference to a rule that does not exist is the `unwrap` that panics: None.
   */
  function GetFirstSet(m: RuleMap, symbols: seq<BNFSymbol>, lookahead: set<BNFSymbol>): (r: Option<set<BNFSymbol>>)
    ensures r.None? ==> exists i | 0 <= i < |symbols| :: symbols[i].NonTerminalSymbolName? && symbols[i].name !in m
  {
    if symbols == [] then Some(lookahead)
    else
      match symbols[0]
      case NonTerminalSymbolName(name) =>
        if name !in m then None
        else if !m[name].isNullable then Some(m[name].firstSet)
        else
          (match GetFirstSet(m, symbols[1..], lookahead)
           case None => None
           case Some(rest) => Some(m[name].firstSet + rest))
      case Null => GetFirstSet(m, symbols[1..], lookahead)
      case _ => Some({symbols[0]})
  }

  /** The sequence derives the empty word: it is made of `Null`s and nullable rules. */
  ghost predicate SequenceNullable(m: RuleMap, symbols: seq<BNFSymbol>) {
    forall i | 0 <= i < |symbols| ::
      symbols[i] == Null || (symbols[i].NonTerminalSymbolName? && symbols[i].name in m && m[symbols[i].name].isNullable)
  }

  /**
   * The lookahead is added exactly when the whole sequence is nullable: an empty sequence gives
   * exactly the lookahead, a non-nullable one gives the same set whatever the lookahead, and a
   * nullable one contains it. Only a missing rule gives None, and only symbols of FIRST kinds are
   * produced from FIRST-kind sets.
   */
  lemma {:induction false} GetFirstSetFacts(m: RuleMap, symbols: seq<BNFSymbol>, lookahead: set<BNFSymbol>, other: set<BNFSymbol>)
    ensures symbols == [] ==> GetFirstSet(m, symbols, lookahead) == Some(lookahead)
    ensures GetFirstSet(m, symbols, lookahead).None? <==> GetFirstSet(m, symbols, other).None?
    ensures GetFirstSet(m, symbols, lookahead).Some? && SequenceNullable(m, symbols) ==>
              lookahead <= GetFirstSet(m, symbols, lookahead).value
    ensures GetFirstSet(m, symbols, lookahead).Some? && !SequenceNullable(m, symbols) ==>
              GetFirstSet(m, symbols, lookahead) == GetFirstSet(m, symbols, other)
    ensures GetFirstSet(m, symbols, lookahead).None? ==>
              exists i | 0 <= i < |symbols| :: symbols[i].NonTerminalSymbolName? && symbols[i].name !in m
    ensures GetFirstSet(m, symbols, lookahead).Some? && (forall s | s in lookahead :: IsFirstKind(s))
            && (forall n | n in m :: forall s | s in m[n].firstSet :: IsFirstKind(s)) ==>
              forall s | s in GetFirstSet(m, symbols, lookahead).value :: IsFirstKind(s)
  {
    if symbols != [] {
      GetFirstSetFacts(m, symbols[1..], lookahead, other);
      assert forall i | 1 <= i < |symbols| :: symbols[i] == symbols[1..][i - 1];
      if SequenceNullable(m, symbols) {
        assert SequenceNullable(m, symbols[1..]);
      }
      if !SequenceNullable(m, symbols[1..]) {
        var i :| 0 <= i < |symbols[1..]| && !(symbols[1..][i] == Null ||
          (symbols[1..][i].NonTerminalSymbolName? && symbols[1..][i].name in m && m[symbols[1..][i].name].isNullable));
        assert symbols[i + 1] == symbols[1..][i];
      }
      if GetFirstSet(m, symbols[1..], lookahead).None? {
        var i :| 0 <= i < |symbols[1..]| && symbols[1..][i].NonTerminalSymbolName? && symbols[1..][i].name !in m;
        assert symbols[i + 1] == symbols[1..][i];
      }
    }
  }
}
