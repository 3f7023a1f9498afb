/**
 * The LR(1) automaton of ParserGenerator::generate_parser (bnf_rules_parser/src/lib.rs): the
 * start state, the grouping of items by the symbol after their dot, the search for an existing
 * state with the same kernel and the worklist that numbers the new states.
 */
module Automaton {
  import opened Wrappers
  import opened Grammar
  import opened Analysis
  import opened Items

  // ---------------------------------------------------------------- transitions of one state

  /** The symbols that follow a dot in `items`. */
  function NextSymbols(items: seq<LRItem>): set<BNFSymbol> {
    if items == [] then {}
    else
      var last := items[|items| - 1];
      NextSymbols(items[..|items| - 1]) + (if GetNextSymbol(last).Some? then {GetNextSymbol(last).value} else {})
  }

  lemma {:induction false} NextSymbolsMeaning(items: seq<LRItem>, x: BNFSymbol)
    ensures x in NextSymbols(items) <==> exists i | 0 <= i < |items| :: GetNextSymbol(items[i]) == Some(x)
  {
    if items != [] {
      var front := items[..|items| - 1];
      NextSymbolsMeaning(front, x);
      if x in NextSymbols(front) {
        var i :| 0 <= i < |front| && GetNextSymbol(front[i]) == Some(x);
        assert items[i] == front[i];
      }
      forall i | 0 <= i < |items| - 1 ensures items[i] == front[i] { }
    }
  }

  /** The items of `items` whose next symbol is `x`, in order (one list of next_group_map). */
  function Selected(items: seq<LRItem>, x: BNFSymbol): (r: seq<LRItem>)
    ensures |r| <= |items|
    ensures forall j | 0 <= j < |r| :: GetNextSymbol(r[j]) == Some(x) && r[j] in items
  {
    if items == [] then []
    else
      var last := items[|items| - 1];
      var front := Selected(items[..|items| - 1], x);
      assert forall j | 0 <= j < |front| :: front[j] in items[..|items| - 1];
      front + (if GetNextSymbol(last) == Some(x) then [last] else [])
  }

  /** Every item of `list` moved one symbol on (next_group_items). */
  function Advance(list: seq<LRItem>): (r: seq<LRItem>)
    requires forall j | 0 <= j < |list| :: !IsLastPosition(list[j])
    ensures |r| == |list|
    ensures forall j | 0 <= j < |list| :: Some(r[j]) == CreateNext(list[j])
  {
    seq(|list|, j requires 0 <= j < |list| => CreateNext(list[j]).value)
  }

  /** The items reached from `items` over `x`: the successors of the items whose next symbol is `x`. */
  function Successors(items: seq<LRItem>, x: BNFSymbol): seq<LRItem> {
    Advance(Selected(items, x))
  }

  /** Moving the dot keeps patterns and leaves every new item unscanned. */
  lemma SuccessorsFacts(items: seq<LRItem>, x: BNFSymbol)
    ensures forall j | 0 <= j < |Successors(items, x)| :: !Successors(items, x)[j].isScanned
    ensures Stripped(items) ==> Stripped(Successors(items, x))
  {
    var sel := Selected(items, x);
    var succ := Successors(items, x);
    if Stripped(items) {
      forall j, k | 0 <= j < |succ| && 0 <= k < |succ[j].pattern| ensures succ[j].pattern[k] !in MARKERS {
        assert CreateNext(sel[j]) == Some(succ[j]);
        var i :| 0 <= i < |items| && items[i] == sel[j];
        assert succ[j].pattern == items[i].pattern;
      }
    }
  }

  /** The items after the dot of `x` are closed under any rules: none of them is scanned yet. */
  lemma UnscannedClosed(items: seq<LRItem>, rules: RuleMap)
    requires forall j | 0 <= j < |items| :: !items[j].isScanned
    ensures ClosedCores(items, rules)
  {
  }

  /** next_group_map after the items of `done`: each item appended to the list of its next symbol. */
  function GroupMap(done: seq<LRItem>): map<BNFSymbol, seq<LRItem>> {
    if done == [] then map[]
    else
      var m := GroupMap(done[..|done| - 1]);
      var last := done[|done| - 1];
      match GetNextSymbol(last)
      case Some(x) => m[x := (if x in m then m[x] else []) + [last]]
      case None => m
  }

  /** The grouping of `done`: the symbols after their dots, each with its items in order. */
  ghost predicate GroupedOf(done: seq<LRItem>, m: map<BNFSymbol, seq<LRItem>>) {
    && (forall x :: x in m <==> x in NextSymbols(done))
    && forall x :: Selected(done, x) == if x in m then m[x] else []
  }

  lemma SelectedAppend(done: seq<LRItem>, item: LRItem, y: BNFSymbol)
    ensures Selected(done + [item], y) == Selected(done, y) + (if GetNextSymbol(item) == Some(y) then [item] else [])
  {
    var all := done + [item];
    assert all[..|all| - 1] == done;
  }

  lemma NextSymbolsAppend(done: seq<LRItem>, item: LRItem)
    ensures NextSymbols(done + [item]) ==
              NextSymbols(done) + (if GetNextSymbol(item).Some? then {GetNextSymbol(item).value} else {})
  {
    var all := done + [item];
    assert all[..|all| - 1] == done;
  }

  /** An item with nothing after its dot leaves the grouping as it is. */
  lemma GroupSkip(done: seq<LRItem>, item: LRItem, m: map<BNFSymbol, seq<LRItem>>)
    requires GroupedOf(done, m) && GetNextSymbol(item).None?
    ensures GroupedOf(done + [item], m)
  {
    NextSymbolsAppend(done, item);
    forall y ensures Selected(done + [item], y) == if y in m then m[y] else [] {
      SelectedAppend(done, item, y);
    }
  }

  /** Appending an item to the list of its next symbol groups one item more. */
  lemma GroupAdd(done: seq<LRItem>, item: LRItem, m: map<BNFSymbol, seq<LRItem>>, x: BNFSymbol)
    requires GroupedOf(done, m) && GetNextSymbol(item) == Some(x)
    ensures GroupedOf(done + [item], m[x := (if x in m then m[x] else []) + [item]])
  {
    var m2 := m[x := (if x in m then m[x] else []) + [item]];
    NextSymbolsAppend(done, item);
    forall y ensures Selected(done + [item], y) == if y in m2 then m2[y] else [] {
      SelectedAppend(done, item, y);
    }
  }

  /** The map built item by item groups the items by their next symbol. */
  lemma {:induction false} GroupMapGroups(done: seq<LRItem>)
    ensures GroupedOf(done, GroupMap(done))
  {
    if done != [] {
      var front := done[..|done| - 1];
      var last := done[|done| - 1];
      GroupMapGroups(front);
      assert done == front + [last];
      match GetNextSymbol(last) {
        case Some(x) => GroupAdd(front, last, GroupMap(front), x);
        case None => GroupSkip(front, last, GroupMap(front));
      }
    }
  }

  /**
   * The loop that fills next_group_map: every symbol after a dot maps to the items before it, in
   * item order, and no other symbol is a key.
   */
  method GroupByNextSymbol(items: seq<LRItem>) returns (m: map<BNFSymbol, seq<LRItem>>)
    ensures m.Keys == NextSymbols(items)
    ensures forall x | x in m :: m[x] == Selected(items, x)
  {
    m := map[];
    var i := 0;
    while i < |items|
      invariant i <= |items|
      invariant m == GroupMap(items[..i])
    {
      assert items[..i + 1][..i] == items[..i];
      match GetNextSymbol(items[i]) {
        case Some(symbol) =>
          var list := if symbol in m then m[symbol] else [];
          m := m[symbol := list + [items[i]]];
        case None =>
      }
      i := i + 1;
    }
    assert items[..i] == items;
    GroupMapGroups(items);
    forall x | x in m ensures m[x] == Selected(items, x) {
      assert Selected(items, x) == m[x];
    }
  }

  /** The loop that builds next_group_items from one list of next_group_map. */
  method NextGroupItems(list: seq<LRItem>) returns (r: seq<LRItem>)
    requires forall j | 0 <= j < |list| :: !IsLastPosition(list[j])
    ensures r == Advance(list)
  {
    r := [];
    var i := 0;
    while i < |list|
      invariant i <= |list|
      invariant r == Advance(list[..i])
    {
      assert list[..i + 1][..i] == list[..i];
      var next := CreateNext(list[i]);
      r := r + [next.value];
      i := i + 1;
    }
    assert list[..i] == list;
  }

  // ---------------------------------------------------------------- kernel comparison

  /** What the kernel comparison looks at: everything but the scanned flag. */
  predicate SameItem(a: LRItem, b: LRItem) {
    SameCore(a, b) && a.firstSet == b.firstSet
  }

  ghost predicate Contains(kernel: seq<LRItem>, item: LRItem) {
    exists j | 0 <= j < |kernel| :: SameItem(item, kernel[j])
  }

  /** The test of generate_parser: as many items as the kernel, each of them found in the kernel. */
  ghost predicate Matches(items: seq<LRItem>, kernel: seq<LRItem>) {
    |items| == |kernel| && forall i | 0 <= i < |items| :: Contains(kernel, items[i])
  }

  lemma MatchesSelf(items: seq<LRItem>)
    ensures Matches(items, items)
  {
    forall i | 0 <= i < |items| ensures Contains(items, items[i]) {
      assert SameItem(items[i], items[i]);
    }
  }

  /** The nested loops computing is_all_matched. */
  method IsAllMatched(items: seq<LRItem>, kernel: seq<LRItem>) returns (b: bool)
    ensures b == Matches(items, kernel)
  {
    if |items| != |kernel| {
      return false;
    }
    var i := 0;
    while i < |items|
      invariant i <= |items|
      invariant forall k | 0 <= k < i :: Contains(kernel, items[k])
    {
      var found := false;
      var j := 0;
      while j < |kernel| && !found
        invariant j <= |kernel|
        invariant !found ==> forall l | 0 <= l < j :: !SameItem(items[i], kernel[l])
        invariant found ==> Contains(kernel, items[i])
      {
        if SameItem(items[i], kernel[j]) {
          found := true;
        }
        j := j + 1;
      }
      if !found {
        assert !Contains(kernel, items[i]);
        return false;
      }
      i := i + 1;
    }
    return true;
  }

  /**
   * The search of lr_group_map for a state whose kernel matches `items`; when several match, the
   * last one met in the map's order wins, which the model leaves open.
   */
  method FindGroup(groups: map<nat, LRGroup>, items: seq<LRItem>) returns (r: Option<nat>)
    ensures r.Some? ==> r.value in groups && Matches(items, groups[r.value].defaultItemList)
    ensures r.None? <==> forall k | k in groups :: !Matches(items, groups[k].defaultItemList)
  {
    r := None;
    var todo := groups.Keys;
    while todo != {}
      invariant todo <= groups.Keys
      invariant r.Some? ==> r.value in groups && Matches(items, groups[r.value].defaultItemList)
      invariant r.None? ==> forall k | k in groups && k !in todo :: !Matches(items, groups[k].defaultItemList)
      decreases |todo|
    {
      var k :| k in todo;
      var matched := IsAllMatched(items, groups[k].defaultItemList);
      if matched {
        r := Some(k);
      }
      todo := todo - {k};
    }
  }

  // ---------------------------------------------------------------- states and their expansion

  /** The states so far are numbered 0 .. last - 1, each under its own number. */
  ghost predicate Numbered(groups: map<nat, LRGroup>, last: nat) {
    && (forall k: nat :: k in groups <==> k < last)
    && (forall k | k in groups :: groups[k].groupNumber == k)
  }

  lemma NumberedCard(groups: map<nat, LRGroup>, last: nat)
    requires Numbered(groups, last)
    ensures |groups| == last
  {
    KeysCard(groups.Keys, last);
  }

  lemma {:induction false} KeysCard(keys: set<nat>, n: nat)
    requires forall k: nat :: k in keys <==> k < n
    ensures |keys| == n
  {
    if n > 0 {
      KeysCard(keys - {n - 1}, n - 1);
    } else {
      assert keys == {};
    }
  }

  /** A state's item list is what add_items leaves: its kernel widened, every item scanned or complete. */
  ghost predicate Closure(g: LRGroup) {
    Widened(g.defaultItemList, g.itemList) && AllScanned(g.itemList)
  }

  /** The closure holds no marker and starts every alternative of each rule after a scanned dot. */
  ghost predicate Sound(g: LRGroup, rules: RuleMap) {
    Stripped(g.itemList) && ClosedCores(g.itemList, rules)
  }

  /** Every transition of `items` in `nextMap` leads to a state whose kernel matches the successors. */
  ghost predicate Leads(items: seq<LRItem>, nextMap: map<BNFSymbol, nat>, states: map<nat, LRGroup>) {
    forall x | x in nextMap ::
      nextMap[x] in states && Matches(Successors(items, x), states[nextMap[x]].defaultItemList)
  }

  lemma LeadsTransfer(items: seq<LRItem>, nextMap: map<BNFSymbol, nat>, a: map<nat, LRGroup>, b: map<nat, LRGroup>)
    requires Leads(items, nextMap, a)
    requires forall t | t in a :: t in b && b[t].defaultItemList == a[t].defaultItemList
    ensures Leads(items, nextMap, b)
  {
  }

  /** The states created while expanding one state: numbered last .. newLast - 1, closed, not yet expanded. */
  ghost predicate FreshGroups(added: map<nat, LRGroup>, last: nat, newLast: nat, rules: RuleMap, stripped: bool) {
    && last <= newLast
    && (forall k: nat :: k in added <==> last <= k < newLast)
    && forall k | k in added ::
         && added[k].groupNumber == k && added[k].nextGroupNumberMap == map[] && Closure(added[k])
         && (stripped ==> Sound(added[k], rules))
  }

  /** Where a transition goes: an existing state with a matching kernel, or a new closed state. */
  datatype GotoOutcome = Existing(number: nat) | Fresh(group: LRGroup) | GotoPanicked | GotoOutOfFuel

  /**
   * One entry of next_group_map: the successors over `x`, then a state of `groups` whose kernel
   * matches them, or else a new state numbered `number` with them as its kernel, closed by add_items.
   */
  method Goto(rules: RuleMap, groups: map<nat, LRGroup>, items: seq<LRItem>, list: seq<LRItem>, x: BNFSymbol,
              number: nat, fuel: nat) returns (r: GotoOutcome)
    requires list == Selected(items, x)
    ensures r.Existing? ==> r.number in groups && Matches(Successors(items, x), groups[r.number].defaultItemList)
    ensures r.Existing? <==> exists k | k in groups :: Matches(Successors(items, x), groups[k].defaultItemList)
    ensures r.Fresh? ==>
              && r.group.groupNumber == number && r.group.defaultItemList == Successors(items, x)
              && r.group.nextGroupNumberMap == map[] && Closure(r.group)
              && (Stripped(items) ==> Sound(r.group, rules))
  {
    var next := NextGroupItems(list);
    var found := FindGroup(groups, next);
    if found.Some? {
      return Existing(found.value);
    }
    var group := LRGroup(number, next, next, map[]);
    SuccessorsFacts(items, x);
    UnscannedClosed(next, rules);
    var closure := AddItems(rules, group, fuel);
    match closure {
      case Closed(h) => r := Fresh(h);
      case ClosurePanicked => r := GotoPanicked;
      case ClosureOutOfFuel => r := GotoOutOfFuel;
    }
  }

  /** The expansion of one state: its transitions and the states it created. */
  datatype StepOutcome =
    | Stepped(nextMap: map<BNFSymbol, nat>, added: map<nat, LRGroup>, newLast: nat)
    | StepPanicked
    | StepOutOfFuel

  /** A transition to a state of an earlier round keeps the transitions so far leading to matching states. */
  lemma LeadsExisting(groups: map<nat, LRGroup>, last: nat, added: map<nat, LRGroup>, newLast: nat, rules: RuleMap,
                      items: seq<LRItem>, nextMap: map<BNFSymbol, nat>, x: BNFSymbol, k: nat)
    requires Numbered(groups, last) && FreshGroups(added, last, newLast, rules, Stripped(items))
    requires Leads(items, nextMap, groups + added)
    requires k in groups && Matches(Successors(items, x), groups[k].defaultItemList)
    ensures Leads(items, nextMap[x := k], groups + added)
  {
    assert k !in added;
  }

  /** A transition to a new state numbered `newLast` keeps the new states fresh and the transitions matching. */
  lemma LeadsFresh(groups: map<nat, LRGroup>, last: nat, added: map<nat, LRGroup>, newLast: nat, rules: RuleMap,
                   items: seq<LRItem>, nextMap: map<BNFSymbol, nat>, x: BNFSymbol, h: LRGroup)
    requires Numbered(groups, last) && FreshGroups(added, last, newLast, rules, Stripped(items))
    requires Leads(items, nextMap, groups + added)
    requires h.groupNumber == newLast && h.defaultItemList == Successors(items, x)
    requires h.nextGroupNumberMap == map[] && Closure(h) && (Stripped(items) ==> Sound(h, rules))
    ensures FreshGroups(added[newLast := h], last, newLast + 1, rules, Stripped(items))
    ensures Leads(items, nextMap[x := newLast], groups + added[newLast := h])
  {
    MatchesSelf(h.defaultItemList);
    assert newLast !in groups + added;
    LeadsTransfer(items, nextMap, groups + added, groups + added[newLast := h]);
  }

  /**
   * Part of a state's expansion done: transitions over exactly the symbols `over`, each to a
   * matching state of `groups` or of the new states, which are fresh.
   */
  ghost predicate Expanding(rules: RuleMap, groups: map<nat, LRGroup>, last: nat, items: seq<LRItem>,
                            st: StepOutcome, over: set<BNFSymbol>) {
    match st
    case Stepped(nextMap, added, newLast) =>
      && nextMap.Keys == over
      && FreshGroups(added, last, newLast, rules, Stripped(items))
      && Leads(items, nextMap, groups + added)
    case _ => false
  }

  /**
   * The body of the worklist loop for a state with item list `items`: one transition per symbol
   * after a dot, to a matching state of `groups` (the states of earlier rounds) or to a new one.
   */
  method ProcessGroup(rules: RuleMap, groups: map<nat, LRGroup>, last: nat, items: seq<LRItem>, fuel: nat)
    returns (r: StepOutcome)
    requires Numbered(groups, last)
    ensures r.Stepped? ==> Expanding(rules, groups, last, items, r, NextSymbols(items))
  {
    var byNext := GroupByNextSymbol(items);
    r := ExpandSymbols(rules, groups, last, items, byNext, fuel);
  }

  /** The loop over next_group_map: the transitions over its symbols, one after the other. */
  method ExpandSymbols(rules: RuleMap, groups: map<nat, LRGroup>, last: nat, items: seq<LRItem>,
                       byNext: map<BNFSymbol, seq<LRItem>>, fuel: nat)
    returns (r: StepOutcome)
    requires Numbered(groups, last)
    requires forall x | x in byNext :: byNext[x] == Selected(items, x)
    ensures r.Stepped? ==> Expanding(rules, groups, last, items, r, byNext.Keys)
  {
    var todo := byNext.Keys;
    var st := Stepped(map[], map[], last);
    while todo != {}
      invariant todo <= byNext.Keys
      invariant Expanding(rules, groups, last, items, st, byNext.Keys - todo)
      decreases |todo|
    {
      var x :| x in todo;
      ghost var over := byNext.Keys - (todo - {x});
      assert over == byNext.Keys - todo + {x};
      var step := AddTransition(rules, groups, last, items, byNext[x], x, st, byNext.Keys - todo, over, fuel);
      if !step.Stepped? {
        return step;
      }
      st := step;
      todo := todo - {x};
    }
    assert byNext.Keys - todo == byNext.Keys;
    r := st;
  }

  /** One iteration over next_group_map: the transition over `x`, to an old state or to a new one. */
  method AddTransition(rules: RuleMap, groups: map<nat, LRGroup>, last: nat, items: seq<LRItem>, list: seq<LRItem>,
                       x: BNFSymbol, st: StepOutcome, ghost over: set<BNFSymbol>, ghost over': set<BNFSymbol>,
                       fuel: nat)
    returns (r: StepOutcome)
    requires Numbered(groups, last) && Expanding(rules, groups, last, items, st, over)
    requires list == Selected(items, x) && over' == over + {x}
    ensures r.Stepped? ==> Expanding(rules, groups, last, items, r, over')
  {
    var target := Goto(rules, groups, items, list, x, st.newLast, fuel);
    match target {
      case Existing(k) =>
        LeadsExisting(groups, last, st.added, st.newLast, rules, items, st.nextMap, x, k);
        r := Stepped(st.nextMap[x := k], st.added, st.newLast);
      case Fresh(h) =>
        LeadsFresh(groups, last, st.added, st.newLast, rules, items, st.nextMap, x, h);
        r := Stepped(st.nextMap[x := st.newLast], st.added[st.newLast := h], st.newLast + 1);
      case GotoPanicked =>
        r := StepPanicked;
      case GotoOutOfFuel =>
        r := StepOutOfFuel;
    }
  }

  // ---------------------------------------------------------------- the worklist

  /** The start state's kernel: one item ` source ::= . p` with lookahead EOF per alternative p. */
  function StartItems(patterns: seq<seq<BNFSymbol>>): seq<LRItem> {
    seq(|patterns|, k requires 0 <= k < |patterns| => LRItem(SOURCE_RULE_NAME, patterns[k], {EOF}, 0, false))
  }

  /** The loop of generate_parser that builds the kernel of state 0. */
  method FirstGroupItems(patterns: seq<seq<BNFSymbol>>) returns (items: seq<LRItem>)
    ensures items == StartItems(patterns)
  {
    items := [];
    var k := 0;
    while k < |patterns|
      invariant k <= |patterns|
      invariant items == StartItems(patterns[..k])
    {
      assert patterns[..k + 1][..k] == patterns[..k];
      var item := NewItem(SOURCE_RULE_NAME);
      item := item.(pattern := item.pattern + patterns[k], firstSet := item.firstSet + {EOF});
      assert item == LRItem(SOURCE_RULE_NAME, patterns[k], {EOF}, 0, false);
      assert StartItems(patterns[..k + 1]) == StartItems(patterns[..k]) + [item];
      items := items + [item];
      k := k + 1;
    }
    assert patterns[..k] == patterns;
  }

  /** A state is expanded: its transitions are exactly the symbols after its dots and lead to matching states. */
  ghost predicate Done(groups: map<nat, LRGroup>, k: nat)
    requires k in groups
  {
    && groups[k].nextGroupNumberMap.Keys == NextSymbols(groups[k].itemList)
    && Leads(groups[k].itemList, groups[k].nextGroupNumberMap, groups)
  }

  /**
   * The worklist invariant: states numbered densely and closed; the states on the stack, in
   * increasing order, are those not yet expanded.
   */
  ghost predicate Worklist(groups: map<nat, LRGroup>, last: nat, stack: seq<nat>, rules: RuleMap, stripped: bool) {
    Numbered(groups, last) && AllClosed(groups, rules, stripped) && Pending(groups, stack) && AllDone(groups, stack)
  }

  /** Every state is closed, and sound when the start rule holds no marker. */
  ghost predicate AllClosed(groups: map<nat, LRGroup>, rules: RuleMap, stripped: bool) {
    forall k | k in groups :: Closure(groups[k]) && (stripped ==> Sound(groups[k], rules))
  }

  /** The stack holds unexpanded states in increasing order. */
  ghost predicate Pending(groups: map<nat, LRGroup>, stack: seq<nat>) {
    && (forall i | 0 <= i < |stack| :: stack[i] in groups && groups[stack[i]].nextGroupNumberMap == map[])
    && (forall i, j | 0 <= i < j < |stack| :: stack[i] < stack[j])
  }

  /** Every state off the stack is expanded. */
  ghost predicate AllDone(groups: map<nat, LRGroup>, stack: seq<nat>) {
    forall k | k in groups && k !in stack :: Done(groups, k)
  }

  /** The numbers lo .. hi - 1 in order, as pushed onto not_scanned_group_list. */
  function Range(lo: nat, hi: nat): (r: seq<nat>)
    requires lo <= hi
    ensures |r| == hi - lo && forall i | 0 <= i < |r| :: r[i] == lo + i
  {
    seq(hi - lo, i requires 0 <= i < hi - lo => lo + i)
  }

  /** The new map keeps the kernels and item lists of the old states and adds the new ones. */
  lemma StepKeeps(groups: map<nat, LRGroup>, last: nat, g: nat, rules: RuleMap, nextMap: map<BNFSymbol, nat>,
                  added: map<nat, LRGroup>, newLast: nat, stripped: bool)
    requires Numbered(groups, last) && g in groups && FreshGroups(added, last, newLast, rules, stripped)
    ensures var n := groups[g := groups[g].(nextGroupNumberMap := nextMap)] + added;
            && Numbered(n, newLast)
            && (forall k | k in groups ::
                 k in n && n[k].defaultItemList == groups[k].defaultItemList && n[k].itemList == groups[k].itemList
                 && (k != g ==> n[k] == groups[k]))
            && (forall t | t in added :: t in n && n[t] == added[t])
  {
    var n := groups[g := groups[g].(nextGroupNumberMap := nextMap)] + added;
    forall k | k in groups ensures k !in added { }
    forall k: nat ensures k in n <==> k < newLast {
      assert k in n <==> k in groups || k in added;
    }
  }

  /** One round keeps the kernel of state 0. */
  lemma StartKept(groups: map<nat, LRGroup>, last: nat, g: nat, rules: RuleMap, nextMap: map<BNFSymbol, nat>,
                  added: map<nat, LRGroup>, newLast: nat, stripped: bool)
    requires Numbered(groups, last) && g in groups && FreshGroups(added, last, newLast, rules, stripped)
    ensures var n := groups[g := groups[g].(nextGroupNumberMap := nextMap)] + added;
      0 in groups ==> 0 in n && n[0].defaultItemList == groups[0].defaultItemList
  {
    StepKeeps(groups, last, g, rules, nextMap, added, newLast, stripped);
  }

  /** Numbering and closure survive one round. */
  lemma StepClosure(groups: map<nat, LRGroup>, last: nat, g: nat, rules: RuleMap, nextMap: map<BNFSymbol, nat>,
                    added: map<nat, LRGroup>, newLast: nat, stripped: bool)
    requires Numbered(groups, last) && g in groups
    requires forall k | k in groups :: Closure(groups[k]) && (stripped ==> Sound(groups[k], rules))
    requires FreshGroups(added, last, newLast, rules, Stripped(groups[g].itemList))
    ensures AllClosed(groups[g := groups[g].(nextGroupNumberMap := nextMap)] + added, rules, stripped)
  {
    var n := groups[g := groups[g].(nextGroupNumberMap := nextMap)] + added;
    StepKeeps(groups, last, g, rules, nextMap, added, newLast, Stripped(groups[g].itemList));
    forall k | k in n ensures Closure(n[k]) && (stripped ==> Sound(n[k], rules)) {
      if k !in added {
        assert k in groups && n[k].defaultItemList == groups[k].defaultItemList && n[k].itemList == groups[k].itemList;
      }
    }
  }

  /** The popped stack with the new states pushed is increasing and holds only unexpanded states. */
  lemma StepStack(groups: map<nat, LRGroup>, last: nat, stack: seq<nat>, g: nat, rules: RuleMap,
                  nextMap: map<BNFSymbol, nat>, added: map<nat, LRGroup>, newLast: nat, stripped: bool)
    requires Numbered(groups, last) && g in groups && FreshGroups(added, last, newLast, rules, stripped)
    requires forall i | 0 <= i < |stack + [g]| :: (stack + [g])[i] in groups && groups[(stack + [g])[i]].nextGroupNumberMap == map[]
    requires forall i, j | 0 <= i < j < |stack + [g]| :: (stack + [g])[i] < (stack + [g])[j]
    ensures Pending(groups[g := groups[g].(nextGroupNumberMap := nextMap)] + added, stack + Range(last, newLast))
  {
    var old_stack := stack + [g];
    assert old_stack[|stack|] == g;
    var n := groups[g := groups[g].(nextGroupNumberMap := nextMap)] + added;
    StepKeeps(groups, last, g, rules, nextMap, added, newLast, stripped);
    var pushed := Range(last, newLast);
    var s := stack + pushed;
    forall i | 0 <= i < |s| ensures s[i] in n && n[s[i]].nextGroupNumberMap == map[] {
      if i < |stack| {
        assert old_stack[i] == stack[i] && old_stack[i] < old_stack[|stack|];
      } else {
        assert s[i] == pushed[i - |stack|];
      }
    }
    forall i, j | 0 <= i < j < |s| ensures s[i] < s[j] {
      if j < |stack| {
        assert old_stack[i] < old_stack[j];
      } else if i < |stack| {
        assert old_stack[i] < old_stack[|stack|] && old_stack[|stack|] in groups;
      }
    }
  }

  /** After the round, the popped state and every state expanded before are expanded in the new map. */
  lemma StepDone(groups: map<nat, LRGroup>, last: nat, stack: seq<nat>, g: nat, rules: RuleMap,
                 nextMap: map<BNFSymbol, nat>, added: map<nat, LRGroup>, newLast: nat, stripped: bool)
    requires Numbered(groups, last) && g in groups && FreshGroups(added, last, newLast, rules, stripped)
    requires forall k | k in groups && k !in stack + [g] :: Done(groups, k)
    requires nextMap.Keys == NextSymbols(groups[g].itemList)
    requires Leads(groups[g].itemList, nextMap, groups + added)
    ensures AllDone(groups[g := groups[g].(nextGroupNumberMap := nextMap)] + added, stack + Range(last, newLast))
  {
    var n := groups[g := groups[g].(nextGroupNumberMap := nextMap)] + added;
    StepKeeps(groups, last, g, rules, nextMap, added, newLast, stripped);
    forall t | t in groups + added ensures t in n && n[t].defaultItemList == (groups + added)[t].defaultItemList {
      if t in added {
      } else {
        assert t in groups;
      }
    }
    forall k | k in added ensures k in stack + Range(last, newLast) {
      assert Range(last, newLast)[k - last] == k;
    }
    forall k | k in n && k !in stack + Range(last, newLast) ensures Done(n, k) {
      assert k !in added;
      if k == g {
        LeadsTransfer(groups[g].itemList, nextMap, groups + added, n);
      } else {
        assert k in groups && k !in stack + [g];
        LeadsTransfer(groups[k].itemList, groups[k].nextGroupNumberMap, groups, n);
      }
    }
  }

  /** Expanding the top of the stack and pushing the new states keeps the worklist invariant. */
  lemma WorklistStep(groups: map<nat, LRGroup>, last: nat, stack: seq<nat>, g: nat, rules: RuleMap, stripped: bool,
                     nextMap: map<BNFSymbol, nat>, added: map<nat, LRGroup>, newLast: nat)
    requires Worklist(groups, last, stack + [g], rules, stripped) && g in groups
    requires FreshGroups(added, last, newLast, rules, Stripped(groups[g].itemList))
    requires nextMap.Keys == NextSymbols(groups[g].itemList)
    requires Leads(groups[g].itemList, nextMap, groups + added)
    ensures Worklist(groups[g := groups[g].(nextGroupNumberMap := nextMap)] + added, newLast,
                     stack + Range(last, newLast), rules, stripped)
  {
    var st := Stripped(groups[g].itemList);
    StepKeeps(groups, last, g, rules, nextMap, added, newLast, st);
    StepClosure(groups, last, g, rules, nextMap, added, newLast, stripped);
    StepStack(groups, last, stack, g, rules, nextMap, added, newLast, st);
    StepDone(groups, last, stack, g, rules, nextMap, added, newLast, st);
  }

  /** The result of the worklist, with `BuildPanicked` for a panic of add_items. */
  datatype AutomatonOutcome = Built(groups: map<nat, LRGroup>) | BuildPanicked | BuildOutOfFuel

  /** The start alternatives hold no marker, as ParserGenerator::new builds them. */
  ghost predicate StartStripped(rules: RuleMap)
    requires SOURCE_RULE_NAME in rules
  {
    Stripped(StartItems(rules[SOURCE_RULE_NAME].orPatterns))
  }

  /**
   * The automaton: states 0 .. |groups| - 1, state 0 started from the start rule, every state
   * closed and expanded.
   */
  ghost predicate IsAutomaton(groups: map<nat, LRGroup>, rules: RuleMap)
    requires SOURCE_RULE_NAME in rules
  {
    && Numbered(groups, |groups|)
    && 0 in groups && groups[0].defaultItemList == StartItems(rules[SOURCE_RULE_NAME].orPatterns)
    && (forall k | k in groups :: Closure(groups[k]) && Done(groups, k))
    && (StartStripped(rules) ==> forall k | k in groups :: Sound(groups[k], rules))
  }

  /**
   * The state construction of generate_parser: state 0 from the start rule, then states popped
   * from not_scanned_group_list and expanded until it is empty, with at most `fuel` rounds.
   */
  method BuildAutomaton(rules: RuleMap, fuel: nat) returns (r: AutomatonOutcome)
    requires SOURCE_RULE_NAME in rules
    ensures r.Built? ==> IsAutomaton(r.groups, rules)
  {
    var kernel := FirstGroupItems(rules[SOURCE_RULE_NAME].orPatterns);
    var first := LRGroup(0, kernel, kernel, map[]);
    ghost var stripped := StartStripped(rules);
    UnscannedClosed(kernel, rules);
    var closure := AddItems(rules, first, fuel);
    if closure.ClosurePanicked? {
      return BuildPanicked;
    }
    if closure.ClosureOutOfFuel? {
      return BuildOutOfFuel;
    }
    r := ExpandStates(rules, map[0 := closure.group], 1, [0], stripped, fuel);
    if r.Built? {
      WorklistEmpty(r.groups, rules, stripped);
    }
  }

  /** With the stack empty, every state is expanded: an automaton, sound when the start rule holds no marker. */
  lemma WorklistEmpty(groups: map<nat, LRGroup>, rules: RuleMap, stripped: bool)
    requires SOURCE_RULE_NAME in rules && Worklist(groups, |groups|, [], rules, stripped)
    requires 0 in groups && groups[0].defaultItemList == StartItems(rules[SOURCE_RULE_NAME].orPatterns)
    requires stripped == StartStripped(rules)
    ensures IsAutomaton(groups, rules)
  {
  }

  /**
   * The loop of generate_parser over not_scanned_group_list: pop a state, expand it, push the
   * new states, until the stack is empty or `fuel` rounds are spent.
   */
  method ExpandStates(rules: RuleMap, groups: map<nat, LRGroup>, last: nat, stack: seq<nat>, ghost stripped: bool,
                      fuel: nat)
    returns (r: AutomatonOutcome)
    requires Worklist(groups, last, stack, rules, stripped)
    ensures r.Built? ==> Worklist(r.groups, |r.groups|, [], rules, stripped)
    ensures r.Built? && 0 in groups ==> 0 in r.groups && r.groups[0].defaultItemList == groups[0].defaultItemList
  {
    var groups, last, stack := groups, last, stack;
    ghost var start := groups;
    var steps := fuel;
    while stack != []
      invariant Worklist(groups, last, stack, rules, stripped)
      invariant 0 in start ==> 0 in groups && groups[0].defaultItemList == start[0].defaultItemList
      decreases steps
    {
      if steps == 0 {
        return BuildOutOfFuel;
      }
      steps := steps - 1;
      ghost var whole := stack;
      var g := stack[|stack| - 1];
      stack := stack[..|stack| - 1];
      assert whole == stack + [g];
      var step := ProcessGroup(rules, groups, last, groups[g].itemList, fuel);
      if step.StepPanicked? {
        return BuildPanicked;
      }
      if step.StepOutOfFuel? {
        return BuildOutOfFuel;
      }
      WorklistStep(groups, last, stack, g, rules, stripped, step.nextMap, step.added, step.newLast);
      StartKept(groups, last, g, rules, step.nextMap, step.added, step.newLast, Stripped(groups[g].itemList));
      groups := groups[g := groups[g].(nextGroupNumberMap := step.nextMap)] + step.added;
      stack := stack + Range(last, step.newLast);
      last := step.newLast;
    }
    NumberedCard(groups, last);
    r := Built(groups);
  }
}
