/**
 * LR(1) items and the closure of an item set (LRItem, LRGroup and ParserGenerator::add_items in
 * bnf_rules_parser/src/lib.rs).
 */
module Items {
  import opened Wrappers
  import opened Grammar
  import opened Analysis

  /** An item `root ::= pattern` with its dot at `currentPosition` and its lookahead `firstSet`. */
  datatype LRItem = LRItem(
    rootName: string,
    pattern: seq<BNFSymbol>,
    firstSet: set<BNFSymbol>,
    currentPosition: nat,
    isScanned: bool)

  /** LRItem::new */
  function NewItem(root: string): LRItem {
    LRItem(root, [], {}, 0, false)
  }

  /** LRItem::is_last_position: the dot is at the end. */
  predicate IsLastPosition(item: LRItem) {
    |item.pattern| == item.currentPosition
  }

  /** LRItem::get_next_symbol: the symbol after the dot, if any. */
  function GetNextSymbol(item: LRItem): (r: Option<BNFSymbol>)
    ensures r.Some? <==> item.currentPosition < |item.pattern|
  {
    if item.currentPosition < |item.pattern| then Some(item.pattern[item.currentPosition]) else None
  }

  /** LRItem::get_next_nonterminal_symbol_name: the rule after the dot, if the next symbol is one. */
  function GetNextNonterminalSymbolName(item: LRItem): (r: Option<string>)
    ensures r.Some? <==> GetNextSymbol(item).Some? && GetNextSymbol(item).value.NonTerminalSymbolName?
    ensures r.Some? ==> GetNextSymbol(item) == Some(NonTerminalSymbolName(r.value))
  {
    if item.currentPosition < |item.pattern| && item.pattern[item.currentPosition].NonTerminalSymbolName? then
      Some(item.pattern[item.currentPosition].name)
    else None
  }

  /** LRItem::get_latter_pattern: the symbols after the next one; empty when there are none. */
  function GetLatterPattern(item: LRItem): (r: seq<BNFSymbol>)
    ensures item.currentPosition < |item.pattern| ==> item.pattern == item.pattern[..item.currentPosition + 1] + r
    ensures |item.pattern| <= item.currentPosition ==> r == []
  {
    if item.currentPosition + 1 >= |item.pattern| then [] else item.pattern[item.currentPosition + 1..]
  }

  /** LRItem::create_next: the item with its dot moved over the next symbol, not yet scanned. */
  function CreateNext(item: LRItem): (r: Option<LRItem>)
    ensures r.None? <==> IsLastPosition(item)
  {
    if IsLastPosition(item) then None
    else Some(item.(currentPosition := item.currentPosition + 1, isScanned := false))
  }

  /**
   * Before the last position the pattern is what lies before the dot, the next symbol and the
   * latter pattern; the next item has moved exactly that symbol before its dot, keeping its rule,
   * its pattern and its lookahead.
   */
  lemma ItemParts(item: LRItem)
    requires item.currentPosition < |item.pattern|
    ensures item.pattern == item.pattern[..item.currentPosition] + [GetNextSymbol(item).value] + GetLatterPattern(item)
    ensures CreateNext(item).Some?
    ensures var next := CreateNext(item).value;
            && next.rootName == item.rootName && next.pattern == item.pattern && next.firstSet == item.firstSet
            && !next.isScanned && next.currentPosition <= |next.pattern|
            && next.pattern[..next.currentPosition] == item.pattern[..item.currentPosition] + [GetNextSymbol(item).value]
  {
    var p, c := item.pattern, item.currentPosition;
    if c + 1 >= |p| {
      assert p == p[..c] + [p[c]];
    } else {
      assert p == p[..c] + [p[c]] + p[c + 1..];
    }
    assert p[..c + 1] == p[..c] + [p[c]];
  }

  /** An item set: its kernel (`defaultItemList`), its closure and its transitions. */
  datatype LRGroup = LRGroup(
    groupNumber: nat,
    defaultItemList: seq<LRItem>,
    itemList: seq<LRItem>,
    nextGroupNumberMap: map<BNFSymbol, nat>)

  /** LRGroup::new */
  function NewGroup(groupNumber: nat): LRGroup {
    LRGroup(groupNumber, [], [], map[])
  }

  // ---------------------------------------------------------------- add_items

  /** Rule, pattern and dot: what the closure never changes in an item. */
  predicate SameCore(a: LRItem, b: LRItem) {
    a.rootName == b.rootName && a.pattern == b.pattern && a.currentPosition == b.currentPosition
  }

  /** `after` keeps every item of `before` in place, only widening lookaheads and marking items scanned. */
  ghost predicate Widened(before: seq<LRItem>, after: seq<LRItem>) {
    && |before| <= |after|
    && forall j | 0 <= j < |before| ::
         && SameCore(before[j], after[j]) && before[j].firstSet <= after[j].firstSet
         && (before[j].isScanned ==> after[j].isScanned)
  }

  lemma WidenedTransitive(a: seq<LRItem>, b: seq<LRItem>, c: seq<LRItem>)
    requires Widened(a, b) && Widened(b, c)
    ensures Widened(a, c)
  {
  }

  /** The markers a stored item pattern never holds. */
  const MARKERS: set<BNFSymbol> := {Null, EOF}

  /** No item pattern holds `Null` or `EOF`. */
  ghost predicate Stripped(items: seq<LRItem>) {
    forall j, k | 0 <= j < |items| && 0 <= k < |items[j].pattern| :: items[j].pattern[k] !in MARKERS
  }

  /** Some item starts the alternative `pattern` of rule `root` (dot at 0). */
  ghost predicate HasStart(items: seq<LRItem>, root: string, pattern: seq<BNFSymbol>) {
    exists j | 0 <= j < |items| ::
      items[j].rootName == root && items[j].pattern == pattern && items[j].currentPosition == 0
  }

  /** Every alternative of rule `name` is started by some item. */
  ghost predicate Expanded(items: seq<LRItem>, rules: RuleMap, name: string) {
    name in rules &&
    forall k | 0 <= k < |rules[name].orPatterns| :: HasStart(items, name, Without(rules[name].orPatterns[k], MARKERS))
  }

  /** Every scanned item whose dot is before a rule has that rule's alternatives started in the set. */
  ghost predicate ClosedCores(items: seq<LRItem>, rules: RuleMap) {
    forall i | 0 <= i < |items| && items[i].isScanned && GetNextNonterminalSymbolName(items[i]).Some? ::
      Expanded(items, rules, GetNextNonterminalSymbolName(items[i]).value)
  }

  /** Every item is scanned or complete: the stopping condition of add_items. */
  ghost predicate AllScanned(items: seq<LRItem>) {
    forall i | 0 <= i < |items| :: items[i].isScanned || IsLastPosition(items[i])
  }

  /** Widening keeps every started alternative started. */
  lemma HasStartWidened(before: seq<LRItem>, after: seq<LRItem>, root: string, pattern: seq<BNFSymbol>)
    requires Widened(before, after) && HasStart(before, root, pattern)
    ensures HasStart(after, root, pattern)
  {
    var j :| 0 <= j < |before| && before[j].rootName == root && before[j].pattern == pattern
             && before[j].currentPosition == 0;
    assert SameCore(before[j], after[j]);
  }

  lemma ExpandedWidened(before: seq<LRItem>, after: seq<LRItem>, rules: RuleMap, name: string)
    requires Widened(before, after) && Expanded(before, rules, name)
    ensures Expanded(after, rules, name)
  {
    forall k | 0 <= k < |rules[name].orPatterns|
      ensures HasStart(after, name, Without(rules[name].orPatterns[k], MARKERS))
    {
      HasStartWidened(before, after, name, Without(rules[name].orPatterns[k], MARKERS));
    }
  }

  /** The first of the first `n` items that starts `pattern` of rule `name` (the search in add_items). */
  method FindStart(items: seq<LRItem>, n: nat, name: string, pattern: seq<BNFSymbol>) returns (r: Option<nat>)
    requires n <= |items|
    ensures r.Some? ==> r.value < n && items[r.value].rootName == name && items[r.value].pattern == pattern
                        && items[r.value].currentPosition == 0
    ensures r.Some? ==> forall j | 0 <= j < r.value ::
              !(items[j].rootName == name && items[j].pattern == pattern && items[j].currentPosition == 0)
    ensures r.None? ==> forall j | 0 <= j < n ::
              !(items[j].rootName == name && items[j].pattern == pattern && items[j].currentPosition == 0)
  {
    var j := 0;
    while j < n
      invariant j <= n
      invariant forall k | 0 <= k < j ::
                  !(items[k].rootName == name && items[k].pattern == pattern && items[k].currentPosition == 0)
    {
      if items[j].rootName == name && items[j].pattern == pattern && items[j].currentPosition == 0 {
        return Some(j);
      }
      j := j + 1;
    }
    return None;
  }

  /**
   * One alternative of the inner loop of add_items: an item among the first `n` that starts the
   * unstripped `pattern` of rule `name` has its lookahead widened by `first`; otherwise a new item
   * with the stripped alternative and lookahead `first` is appended.
   */
  method ExpandAlternative(items: seq<LRItem>, n: nat, name: string, pattern: seq<BNFSymbol>,
                           first: set<BNFSymbol>) returns (r: seq<LRItem>)
    requires n <= |items|
    ensures Widened(items, r) && |r| <= |items| + 1
    ensures forall j | 0 <= j < |items| :: r[j].isScanned == items[j].isScanned
    ensures forall j | n <= j < |items| :: r[j] == items[j]
    ensures forall j | |items| <= j < |r| ::
              r[j].rootName == name && r[j].currentPosition == 0 && !r[j].isScanned && r[j].firstSet == first
    ensures Stripped(items) ==> Stripped(r) && HasStart(r, name, Without(pattern, MARKERS))
  {
    var found := FindStart(items, n, name, pattern);
    WithoutContents(pattern, MARKERS);
    match found {
      case Some(j) =>
        r := items[j := items[j].(firstSet := items[j].firstSet + first)];
        if Stripped(items) {
          assert r[j].pattern == Without(pattern, MARKERS);
        }
      case None =>
        var stripped := Without(pattern, MARKERS);
        r := items + [LRItem(name, stripped, first, 0, false)];
        assert r[|r| - 1].pattern == stripped;
    }
  }

  /**
   * The inner loop of add_items over the alternatives of rule `name`: an item already starting the
   * unstripped alternative among the first `n` items has its lookahead widened by `first`; otherwise
   * a new item with the stripped alternative and lookahead `first` is appended (the pending list).
   */
  method ExpandRule(items: seq<LRItem>, n: nat, name: string, patterns: seq<seq<BNFSymbol>>,
                    first: set<BNFSymbol>) returns (r: seq<LRItem>)
    requires n <= |items|
    ensures Widened(items, r)
    ensures forall j | 0 <= j < |items| :: r[j].isScanned == items[j].isScanned
    ensures forall j | n <= j < |items| :: r[j] == items[j]
    ensures forall j | |items| <= j < |r| ::
              r[j].rootName == name && r[j].currentPosition == 0 && !r[j].isScanned && r[j].firstSet == first
    ensures Stripped(items) ==> Stripped(r)
    ensures Stripped(items) ==> forall k | 0 <= k < |patterns| :: HasStart(r, name, Without(patterns[k], MARKERS))
  {
    r := items;
    var k := 0;
    while k < |patterns|
      invariant k <= |patterns|
      invariant Widened(items, r)
      invariant forall j | 0 <= j < |items| :: r[j].isScanned == items[j].isScanned
      invariant forall j | n <= j < |items| :: r[j] == items[j]
      invariant forall j | |items| <= j < |r| ::
                  r[j].rootName == name && r[j].currentPosition == 0 && !r[j].isScanned && r[j].firstSet == first
      invariant Stripped(items) ==> Stripped(r)
      invariant Stripped(items) ==> forall k' | 0 <= k' < k :: HasStart(r, name, Without(patterns[k'], MARKERS))
    {
      ghost var before := r;
      r := ExpandAlternative(r, n, name, patterns[k], first);
      WidenedTransitive(items, before, r);
      forall k' | 0 <= k' < k && Stripped(items)
        ensures HasStart(r, name, Without(patterns[k'], MARKERS))
      {
        HasStartWidened(before, r, name, Without(patterns[k'], MARKERS));
      }
      k := k + 1;
    }
  }

  /** Scanning item `i` and expanding the rule after its dot keeps every scanned item expanded. */
  lemma ClosedAfterExpand(pre: seq<LRItem>, after: seq<LRItem>, i: nat, rules: RuleMap, name: string)
    requires i < |pre| && ClosedCores(pre, rules)
    requires GetNextNonterminalSymbolName(pre[i]) == Some(name)
    requires var marked := pre[i := pre[i].(isScanned := true)];
             && Widened(marked, after)
             && (forall j | 0 <= j < |marked| :: after[j].isScanned == marked[j].isScanned)
             && (forall j | |marked| <= j < |after| :: !after[j].isScanned)
    requires Expanded(after, rules, name)
    ensures ClosedCores(after, rules)
  {
    var marked := pre[i := pre[i].(isScanned := true)];
    assert Widened(pre, marked);
    forall j | 0 <= j < |after| && after[j].isScanned && GetNextNonterminalSymbolName(after[j]).Some?
      ensures Expanded(after, rules, GetNextNonterminalSymbolName(after[j]).value)
    {
      assert SameCore(pre[j], after[j]);
      if j != i {
        ExpandedWidened(pre, after, rules, GetNextNonterminalSymbolName(pre[j]).value);
      }
    }
  }

  /** Marking an item whose next symbol is not a rule as scanned keeps every scanned item expanded. */
  lemma ClosedAfterMark(pre: seq<LRItem>, i: nat, rules: RuleMap)
    requires i < |pre| && ClosedCores(pre, rules)
    requires GetNextNonterminalSymbolName(pre[i]).None?
    ensures Widened(pre, pre[i := pre[i].(isScanned := true)])
    ensures ClosedCores(pre[i := pre[i].(isScanned := true)], rules)
  {
    var marked := pre[i := pre[i].(isScanned := true)];
    assert Widened(pre, marked);
    forall j | 0 <= j < |marked| && marked[j].isScanned && GetNextNonterminalSymbolName(marked[j]).Some?
      ensures Expanded(marked, rules, GetNextNonterminalSymbolName(marked[j]).value)
    {
      ExpandedWidened(pre, marked, rules, GetNextNonterminalSymbolName(pre[j]).value);
    }
  }

  /** One pass of add_items; `PassPanicked` is an `unwrap` of a rule that does not exist. */
  datatype PassOutcome = PassDone(items: seq<LRItem>, allScanned: bool) | PassPanicked

  /**
   * One pass of the loop of add_items: every item present at the start that is neither scanned
   * nor complete is marked scanned, and the rule after its dot, if any, is expanded with the
   * lookahead `get_first_set(latter pattern, item lookahead)`. The items created in the pass are
   * kept after the first `n` and are neither visited nor searched until the next pass.
   */
  method ScanPass(rules: RuleMap, items: seq<LRItem>) returns (r: PassOutcome)
    ensures r.PassDone? ==> Widened(items, r.items)
    ensures r.PassDone? && r.allScanned ==> r.items == items && AllScanned(items)
    ensures r.PassDone? && Stripped(items) ==> Stripped(r.items)
    ensures r.PassDone? && Stripped(items) && ClosedCores(items, rules) ==> ClosedCores(r.items, rules)
  {
    var n := |items|;
    var all := items;
    var allScanned := true;
    ghost var good := Stripped(items) && ClosedCores(items, rules);
    var i := 0;
    while i < n
      invariant i <= n <= |all|
      invariant Widened(items, all)
      invariant allScanned ==> all == items && forall j | 0 <= j < i :: items[j].isScanned || IsLastPosition(items[j])
      invariant Stripped(items) ==> Stripped(all)
      invariant good ==> ClosedCores(all, rules)
    {
      var item := all[i];
      if item.isScanned || IsLastPosition(item) {
        i := i + 1;
        continue;
      }
      allScanned := false;
      var next := GetNextNonterminalSymbolName(item);
      if next.None? {
        if good {
          ClosedAfterMark(all, i, rules);
        }
        assert Widened(all, all[i := item.(isScanned := true)]);
        all := all[i := item.(isScanned := true)];
        i := i + 1;
        continue;
      }
      ghost var pre := all;
      all := all[i := item.(isScanned := true)];
      assert Widened(pre, all);
      var name := next.value;
      var latter := GetLatterPattern(item);
      var first := GetFirstSet(rules, latter, all[i].firstSet);
      if first.None? {
        return PassPanicked;
      }
      if name !in rules {
        return PassPanicked;
      }
      ghost var marked := all;
      all := ExpandRule(all, n, name, rules[name].orPatterns, first.value);
      WidenedTransitive(items, marked, all);
      if good {
        ClosedAfterExpand(pre, all, i, rules, name);
      }
      i := i + 1;
    }
    r := PassDone(all, allScanned);
  }

  /** The closure of add_items, with `ClosureOutOfFuel` once `fuel` passes have not settled it. */
  datatype ClosureOutcome = Closed(group: LRGroup) | ClosurePanicked | ClosureOutOfFuel

  /**
   * add_items: passes until one finds every item scanned or complete. Only the item list changes:
   * items are appended or have their lookahead widened and become scanned; the kernel is untouched.
   */
  method AddItems(rules: RuleMap, group: LRGroup, fuel: nat) returns (r: ClosureOutcome)
    ensures r.Closed? ==> r.group == group.(itemList := r.group.itemList)
    ensures r.Closed? ==> Widened(group.itemList, r.group.itemList) && AllScanned(r.group.itemList)
    ensures r.Closed? && Stripped(group.itemList) ==> Stripped(r.group.itemList)
    ensures r.Closed? && Stripped(group.itemList) && ClosedCores(group.itemList, rules) ==>
              ClosedCores(r.group.itemList, rules)
  {
    var items := group.itemList;
    var steps := fuel;
    ghost var good := Stripped(group.itemList) && ClosedCores(group.itemList, rules);
    while true
      invariant Widened(group.itemList, items)
      invariant Stripped(group.itemList) ==> Stripped(items)
      invariant good ==> ClosedCores(items, rules)
      decreases steps
    {
      if steps == 0 {
        return ClosureOutOfFuel;
      }
      steps := steps - 1;
      var pass := ScanPass(rules, items);
      if pass.PassPanicked? {
        return ClosurePanicked;
      }
      WidenedTransitive(group.itemList, items, pass.items);
      items := pass.items;
      if pass.allScanned {
        return Closed(group.(itemList := items));
      }
    }
  }
}
