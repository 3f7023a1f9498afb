/**
 * The LR table of ParserGenerator::generate_parser (bnf_rules_parser/src/lib.rs): per state, the
 * map from symbols to operations built by insert_opreration, which refuses a second operation
 * for a symbol, and the row of the table indexed by symbol ids.
 */
module Table {
  import opened Wrappers
  import opened Grammar
  import opened Items

  /** Why the table cannot be built; the source reports each as a formatted message. */
  datatype TableError =
    | Conflict(symbol: BNFSymbol, existing: Operation, incoming: Operation)
    | UnexpectedSymbol(symbol: BNFSymbol)
    | PatternNotFound(item: LRItem)
    | SymbolIdNotFound(symbol: BNFSymbol)

  // ---------------------------------------------------------------- lookups

  /** The index of the first single-pattern rule `root ::= pattern`, if there is one. */
  function PatternIndex(rules: seq<SinglePatternRule>, root: string, pattern: seq<BNFSymbol>): (r: Option<nat>)
    ensures r.Some? ==> r.value < |rules| && rules[r.value] == SinglePatternRule(root, pattern)
    ensures r.Some? ==> forall i | 0 <= i < r.value :: rules[i] != SinglePatternRule(root, pattern)
    ensures r.None? <==> forall i | 0 <= i < |rules| :: rules[i] != SinglePatternRule(root, pattern)
  {
    if rules == [] then None
    else if rules[0] == SinglePatternRule(root, pattern) then Some(0)
    else
      match PatternIndex(rules[1..], root, pattern)
      case Some(i) => Some(i + 1)
      case None => None
  }

  /** get_pattern_id: the loop over the single-pattern rules for the item's rule and pattern. */
  method GetPatternId(rules: seq<SinglePatternRule>, item: LRItem) returns (r: Result<nat, TableError>)
    ensures r.Ok? <==> PatternIndex(rules, item.rootName, item.pattern).Some?
    ensures r.Ok? ==> Some(r.value) == PatternIndex(rules, item.rootName, item.pattern)
    ensures r.Err? ==> r.error == PatternNotFound(item)
  {
    var i := 0;
    while i < |rules|
      invariant i <= |rules|
      invariant forall j | 0 <= j < i :: rules[j] != SinglePatternRule(item.rootName, item.pattern)
    {
      if rules[i].rootSymbolName == item.rootName && rules[i].pattern == item.pattern {
        return Ok(i);
      }
      i := i + 1;
    }
    return Err(PatternNotFound(item));
  }

  /** get_symbol_id */
  function GetSymbolId(ids: map<BNFSymbol, nat>, s: BNFSymbol): (r: Result<nat, TableError>)
    ensures r.Ok? <==> s in ids
    ensures r.Ok? ==> r.value == ids[s]
    ensures r.Err? ==> r.error == SymbolIdNotFound(s)
  {
    if s in ids then Ok(ids[s]) else Err(SymbolIdNotFound(s))
  }

  /**
   * insert_opreration: a symbol gets at most one operation; a second one is a conflict, and
   * otherwise the map gains exactly the new entry.
   */
  function InsertOperation(ops: map<BNFSymbol, Operation>, s: BNFSymbol, op: Operation)
    : (r: Result<map<BNFSymbol, Operation>, TableError>)
    ensures r.Ok? <==> s !in ops
    ensures r.Err? ==> r.error == Conflict(s, ops[s], op)
    ensures r.Ok? ==> (forall t :: t in r.value <==> t in ops || t == s) && r.value[s] == op
                      && forall t | t in ops :: r.value[t] == ops[t]
  {
    if s in ops then Err(Conflict(s, ops[s], op)) else Ok(ops[s := op])
  }

  // ---------------------------------------------------------------- what a state writes

  /** The operation of a transition: GoTo over a rule, Shift over a terminal, nothing over a marker. */
  function TransitionOperation(x: BNFSymbol, target: nat): (r: Option<Operation>)
    ensures r.Some? <==> !x.Null? && !x.EOF?
    ensures r.Some? ==> (x.NonTerminalSymbolName? <==> r.value == GoTo(target))
    ensures r.Some? && !x.NonTerminalSymbolName? ==> r.value == Shift(target)
  {
    match x
    case NonTerminalSymbolName(_) => Some(GoTo(target))
    case TerminalSymbolString(_) => Some(Shift(target))
    case TerminalSymbolFunction(_) => Some(Shift(target))
    case Null => None
    case EOF => None
  }

  /** The symbols a complete item writes: EOF for the start rule, its lookahead otherwise. */
  function ItemSymbols(item: LRItem): set<BNFSymbol> {
    if !IsLastPosition(item) then {}
    else if item.rootName == SOURCE_RULE_NAME then {EOF}
    else item.firstSet
  }

  /** The operation a complete item writes: Accept for the start rule, else Reduce by its pattern's index. */
  function ItemOperation(item: LRItem, rules: seq<SinglePatternRule>): Option<Operation> {
    if item.rootName == SOURCE_RULE_NAME then Some(Accept)
    else
      match PatternIndex(rules, item.rootName, item.pattern)
      case Some(i) => Some(Reduce(i))
      case None => None
  }

  /** The symbol `s` is written by the state: a transition over it, or a complete item with it. */
  ghost predicate WritesSymbol(group: LRGroup, s: BNFSymbol) {
    s in group.nextGroupNumberMap || exists i | 0 <= i < |group.itemList| :: s in ItemSymbols(group.itemList[i])
  }

  /** Item `i` writes `s` where a transition or an earlier item already did. */
  ghost predicate Clash(group: LRGroup, i: nat, s: BNFSymbol) {
    && i < |group.itemList| && s in ItemSymbols(group.itemList[i])
    && (s in group.nextGroupNumberMap || exists j | 0 <= j < i :: s in ItemSymbols(group.itemList[j]))
  }

  /** Two operations fall on the same symbol of the state. */
  ghost predicate Conflicting(group: LRGroup) {
    exists i: nat, s :: Clash(group, i, s)
  }

  /** A transition over a marker, or a complete item whose pattern is not a single-pattern rule. */
  ghost predicate Malformed(group: LRGroup, rules: seq<SinglePatternRule>) {
    || (exists x | x in group.nextGroupNumberMap :: TransitionOperation(x, group.nextGroupNumberMap[x]).None?)
    || (exists i | 0 <= i < |group.itemList| && IsLastPosition(group.itemList[i]) ::
          ItemOperation(group.itemList[i], rules).None?)
  }

  /** An operation points where the table can go: a successor of the state, or a single-pattern rule. */
  predicate OperationFits(op: Operation, targets: set<nat>, ruleCount: nat) {
    && ((op.Shift? || op.GoTo?) ==> op.target in targets)
    && (op.Reduce? ==> op.rule < ruleCount)
  }

  /** `ops` holds exactly the writes of the state, each symbol with the operation written for it. */
  ghost predicate Placed(group: LRGroup, rules: seq<SinglePatternRule>, ops: map<BNFSymbol, Operation>) {
    && (forall s :: s in ops <==> WritesSymbol(group, s))
    && (forall x | x in group.nextGroupNumberMap ::
          x in ops && Some(ops[x]) == TransitionOperation(x, group.nextGroupNumberMap[x]))
    && (forall i, s | 0 <= i < |group.itemList| && s in ItemSymbols(group.itemList[i]) ::
          s in ops && Some(ops[s]) == ItemOperation(group.itemList[i], rules))
  }

  /** Every operation of `ops` fits the table. */
  ghost predicate AllFit(ops: map<BNFSymbol, Operation>, targets: set<nat>, ruleCount: nat) {
    forall s | s in ops :: OperationFits(ops[s], targets, ruleCount)
  }

  // ---------------------------------------------------------------- the operation map

  /**
   * The loop over next_group_number_map: each transition becomes its GoTo or Shift, and a
   * transition over a marker is an error.
   */
  method TransitionOperations(nextMap: map<BNFSymbol, nat>) returns (r: Result<map<BNFSymbol, Operation>, TableError>)
    ensures r.Ok? <==> forall x | x in nextMap :: TransitionOperation(x, nextMap[x]).Some?
    ensures r.Ok? ==> forall x :: x in r.value <==> x in nextMap
    ensures r.Ok? ==> forall x | x in nextMap :: Some(r.value[x]) == TransitionOperation(x, nextMap[x])
  {
    var ops: map<BNFSymbol, Operation> := map[];
    var todo := nextMap.Keys;
    while todo != {}
      invariant todo <= nextMap.Keys
      invariant forall x :: x in ops <==> x in nextMap && x !in todo
      invariant forall x | x in ops :: Some(ops[x]) == TransitionOperation(x, nextMap[x])
      decreases |todo|
    {
      var x :| x in todo;
      var op := TransitionOperation(x, nextMap[x]);
      if op.None? {
        return Err(UnexpectedSymbol(x));
      }
      var inserted := InsertOperation(ops, x, op.value);
      ops := inserted.value;
      todo := todo - {x};
    }
    r := Ok(ops);
  }

  /** The loop over a lookahead set inserting one operation for each of its symbols. */
  method InsertAll(ops: map<BNFSymbol, Operation>, symbols: set<BNFSymbol>, op: Operation)
    returns (r: Result<map<BNFSymbol, Operation>, TableError>)
    ensures r.Ok? <==> forall s | s in symbols :: s !in ops
    ensures r.Err? ==> r.error.Conflict?
    ensures r.Ok? ==> forall t :: t in r.value <==> t in ops || t in symbols
    ensures r.Ok? ==> (forall t | t in ops :: r.value[t] == ops[t]) && forall s | s in symbols :: r.value[s] == op
  {
    var current := ops;
    var todo := symbols;
    while todo != {}
      invariant todo <= symbols
      invariant forall t :: t in current <==> t in ops || (t in symbols && t !in todo)
      invariant forall s | s in symbols && s !in todo :: s !in ops
      invariant forall t | t in ops :: current[t] == ops[t]
      invariant forall s | s in symbols && s !in todo :: current[s] == op
      decreases |todo|
    {
      var s :| s in todo;
      var inserted := InsertOperation(current, s, op);
      if inserted.Err? {
        return inserted;
      }
      current := inserted.value;
      todo := todo - {s};
    }
    r := Ok(current);
  }

  /** The writes of one item: nothing before its end, Accept on EOF for the start rule, else Reduce on its lookahead. */
  method ItemOperations(ops: map<BNFSymbol, Operation>, item: LRItem, rules: seq<SinglePatternRule>)
    returns (r: Result<map<BNFSymbol, Operation>, TableError>)
    ensures r.Ok? <==> && (IsLastPosition(item) ==> ItemOperation(item, rules).Some?)
                       && (forall s | s in ItemSymbols(item) :: s !in ops)
    ensures r.Ok? ==> forall t :: t in r.value <==> t in ops || t in ItemSymbols(item)
    ensures r.Ok? ==> forall t | t in ops :: r.value[t] == ops[t]
    ensures r.Ok? ==> forall s | s in ItemSymbols(item) :: Some(r.value[s]) == ItemOperation(item, rules)
  {
    if !IsLastPosition(item) {
      return Ok(ops);
    }
    if item.rootName == SOURCE_RULE_NAME {
      r := InsertOperation(ops, EOF, Accept);
    } else {
      var id := GetPatternId(rules, item);
      if id.Err? {
        return Err(id.error);
      }
      r := InsertAll(ops, item.firstSet, Reduce(id.value));
    }
  }

  /**
   * The operation map of one state: its transitions, then its complete items in order. It is
   * built exactly when no symbol is written twice and nothing is malformed, and then holds
   * exactly the writes of the state.
   */
  method GroupOperations(group: LRGroup, rules: seq<SinglePatternRule>)
    returns (r: Result<map<BNFSymbol, Operation>, TableError>)
    ensures r.Ok? <==> !Conflicting(group) && !Malformed(group, rules)
    ensures r.Ok? ==> Placed(group, rules, r.value)
    ensures r.Ok? ==> AllFit(r.value, group.nextGroupNumberMap.Values, |rules|)
  {
    var nextMap := group.nextGroupNumberMap;
    var first := TransitionOperations(nextMap);
    if first.Err? {
      return first;
    }
    var ops := first.value;
    var items := group.itemList;
    var i := 0;
    ItemsStart(group, rules, ops);
    while i < |items|
      invariant i <= |items|
      invariant ItemsDone(group, rules, i, ops)
    {
      var next := ItemOperations(ops, items[i], rules);
      if next.Err? {
        ItemFails(group, rules, i, ops);
        return next;
      }
      ItemStep(group, rules, i, ops, next.value);
      ops := next.value;
      i := i + 1;
    }
    FinishGroup(group, rules, ops);
    r := Ok(ops);
  }

  /**
   * After the first `i` items: `ops` holds the transitions and the writes of those items, each
   * with its operation, and none of them clashed or was malformed.
   */
  ghost predicate ItemsDone(group: LRGroup, rules: seq<SinglePatternRule>, i: nat, ops: map<BNFSymbol, Operation>) {
    i <= |group.itemList| && ItemsWritten(group, rules, i, ops) && ItemsPlaced(group, rules, i, ops)
  }

  /** The keys of `ops` are the writes of the transitions and the first `i` items, none clashing or malformed. */
  ghost predicate ItemsWritten(group: LRGroup, rules: seq<SinglePatternRule>, i: nat, ops: map<BNFSymbol, Operation>)
    requires i <= |group.itemList|
  {
    var items := group.itemList;
    && (forall s :: s in ops <==> s in group.nextGroupNumberMap || exists j | 0 <= j < i :: s in ItemSymbols(items[j]))
    && (forall j: nat, s | j < i :: !Clash(group, j, s))
    && (forall j | 0 <= j < i && IsLastPosition(items[j]) :: ItemOperation(items[j], rules).Some?)
  }

  /** Each transition and each write of the first `i` items has its own operation in `ops`. */
  ghost predicate ItemsPlaced(group: LRGroup, rules: seq<SinglePatternRule>, i: nat, ops: map<BNFSymbol, Operation>)
    requires i <= |group.itemList|
  {
    var items := group.itemList;
    && (forall x | x in group.nextGroupNumberMap ::
          x in ops && Some(ops[x]) == TransitionOperation(x, group.nextGroupNumberMap[x]))
    && (forall j, s | 0 <= j < i && s in ItemSymbols(items[j]) ::
          s in ops && Some(ops[s]) == ItemOperation(items[j], rules))
  }

  /** The transitions alone are the state after no item. */
  lemma ItemsStart(group: LRGroup, rules: seq<SinglePatternRule>, ops: map<BNFSymbol, Operation>)
    requires forall x :: x in ops <==> x in group.nextGroupNumberMap
    requires forall x | x in group.nextGroupNumberMap :: Some(ops[x]) == TransitionOperation(x, group.nextGroupNumberMap[x])
    ensures ItemsDone(group, rules, 0, ops)
  {
  }

  /** An item whose symbols are all new and whose operations are placed extends the state by one item. */
  lemma ItemStep(group: LRGroup, rules: seq<SinglePatternRule>, i: nat, ops: map<BNFSymbol, Operation>,
                 ops2: map<BNFSymbol, Operation>)
    requires i < |group.itemList| && ItemsDone(group, rules, i, ops)
    requires IsLastPosition(group.itemList[i]) ==> ItemOperation(group.itemList[i], rules).Some?
    requires forall s | s in ItemSymbols(group.itemList[i]) :: s !in ops
    requires forall t :: t in ops2 <==> t in ops || t in ItemSymbols(group.itemList[i])
    requires forall t | t in ops :: ops2[t] == ops[t]
    requires forall s | s in ItemSymbols(group.itemList[i]) :: Some(ops2[s]) == ItemOperation(group.itemList[i], rules)
    ensures ItemsDone(group, rules, i + 1, ops2)
  {
    ItemKeeps(group, rules, i, ops, ops2);
    ItemPlaces(group, rules, i, ops, ops2);
  }

  /** An item whose symbols are all new adds no clash and extends the written symbols by its own. */
  lemma ItemKeeps(group: LRGroup, rules: seq<SinglePatternRule>, i: nat, ops: map<BNFSymbol, Operation>,
                  ops2: map<BNFSymbol, Operation>)
    requires i < |group.itemList| && ItemsWritten(group, rules, i, ops)
    requires IsLastPosition(group.itemList[i]) ==> ItemOperation(group.itemList[i], rules).Some?
    requires forall s | s in ItemSymbols(group.itemList[i]) :: s !in ops
    requires forall t :: t in ops2 <==> t in ops || t in ItemSymbols(group.itemList[i])
    ensures ItemsWritten(group, rules, i + 1, ops2)
  {
    var items := group.itemList;
    ItemKeys(group, i, ops, ops2);
    ItemNoClash(group, i, ops);
    forall j | 0 <= j < i + 1 && IsLastPosition(items[j]) ensures ItemOperation(items[j], rules).Some? {
      if j < i {
        assert ItemOperation(items[j], rules).Some?;
      }
    }
  }

  /** The keys grow by the new item's symbols. */
  lemma ItemKeys(group: LRGroup, i: nat, ops: map<BNFSymbol, Operation>, ops2: map<BNFSymbol, Operation>)
    requires i < |group.itemList|
    requires forall s :: s in ops <==> s in group.nextGroupNumberMap || exists j | 0 <= j < i :: s in ItemSymbols(group.itemList[j])
    requires forall t :: t in ops2 <==> t in ops || t in ItemSymbols(group.itemList[i])
    ensures forall s :: s in ops2 <==> s in group.nextGroupNumberMap || exists j | 0 <= j < i + 1 :: s in ItemSymbols(group.itemList[j])
  {
    var items := group.itemList;
    forall s ensures s in ops2 <==> s in group.nextGroupNumberMap || exists j | 0 <= j < i + 1 :: s in ItemSymbols(items[j]) {
      if exists j | 0 <= j < i + 1 :: s in ItemSymbols(items[j]) {
        var j :| 0 <= j < i + 1 && s in ItemSymbols(items[j]);
        if j < i {
          assert s in ops;
        }
      }
    }
  }

  /** An item whose symbols are not yet written clashes nowhere. */
  lemma ItemNoClash(group: LRGroup, i: nat, ops: map<BNFSymbol, Operation>)
    requires i < |group.itemList|
    requires forall s :: s in ops <==> s in group.nextGroupNumberMap || exists j | 0 <= j < i :: s in ItemSymbols(group.itemList[j])
    requires forall j: nat, s | j < i :: !Clash(group, j, s)
    requires forall s | s in ItemSymbols(group.itemList[i]) :: s !in ops
    ensures forall j: nat, s | j < i + 1 :: !Clash(group, j, s)
  {
    forall j: nat, s | j < i + 1 ensures !Clash(group, j, s) {
      if j < i {
        assert !Clash(group, j, s);
      }
    }
  }

  /** The new item's operations sit beside the old ones, which are unchanged. */
  lemma ItemPlaces(group: LRGroup, rules: seq<SinglePatternRule>, i: nat, ops: map<BNFSymbol, Operation>,
                   ops2: map<BNFSymbol, Operation>)
    requires i < |group.itemList| && ItemsPlaced(group, rules, i, ops)
    requires forall t :: t in ops2 <==> t in ops || t in ItemSymbols(group.itemList[i])
    requires forall t | t in ops :: ops2[t] == ops[t]
    requires forall s | s in ItemSymbols(group.itemList[i]) :: Some(ops2[s]) == ItemOperation(group.itemList[i], rules)
    ensures ItemsPlaced(group, rules, i + 1, ops2)
  {
  }

  /** A failing item explains the failure: its pattern is missing, or one of its symbols is written twice. */
  lemma ItemFails(group: LRGroup, rules: seq<SinglePatternRule>, i: nat, ops: map<BNFSymbol, Operation>)
    requires i < |group.itemList| && ItemsDone(group, rules, i, ops)
    requires !((IsLastPosition(group.itemList[i]) ==> ItemOperation(group.itemList[i], rules).Some?)
               && forall s | s in ItemSymbols(group.itemList[i]) :: s !in ops)
    ensures Conflicting(group) || Malformed(group, rules)
  {
    var items := group.itemList;
    if IsLastPosition(items[i]) && ItemOperation(items[i], rules).None? {
      assert Malformed(group, rules);
    } else {
      var s :| s in ItemSymbols(items[i]) && s in ops;
      assert Clash(group, i, s);
    }
  }

  /** After the last item the map is the placed map of the state, and nothing conflicts or is malformed. */
  lemma FinishGroup(group: LRGroup, rules: seq<SinglePatternRule>, ops: map<BNFSymbol, Operation>)
    requires forall x | x in group.nextGroupNumberMap :: TransitionOperation(x, group.nextGroupNumberMap[x]).Some?
    requires ItemsDone(group, rules, |group.itemList|, ops)
    ensures !Conflicting(group) && !Malformed(group, rules)
    ensures Placed(group, rules, ops)
    ensures AllFit(ops, group.nextGroupNumberMap.Values, |rules|)
  {
    FitsFromPlaced(group, rules, ops);
  }

  /** In a placed map every operation points to a successor of the state or to a single-pattern rule. */
  lemma FitsFromPlaced(group: LRGroup, rules: seq<SinglePatternRule>, ops: map<BNFSymbol, Operation>)
    requires Placed(group, rules, ops)
    ensures AllFit(ops, group.nextGroupNumberMap.Values, |rules|)
  {
    forall s | s in ops ensures OperationFits(ops[s], group.nextGroupNumberMap.Values, |rules|) {
      if s in group.nextGroupNumberMap {
        assert group.nextGroupNumberMap[s] in group.nextGroupNumberMap.Values;
      } else {
        var i :| 0 <= i < |group.itemList| && s in ItemSymbols(group.itemList[i]);
      }
    }
  }

  // ---------------------------------------------------------------- rows

  /** Distinct symbols have distinct ids. */
  ghost predicate Injective(ids: map<BNFSymbol, nat>) {
    forall a, b | a in ids && b in ids && a != b :: ids[a] != ids[b]
  }

  /**
   * The loop filling one row of the table: every operation goes to the column of its symbol's
   * id; a symbol without an id is an error. Each filled cell holds the operation of a symbol with
   * that id, and with distinct ids each symbol's operation is in its own column.
   */
  method Row(ops: map<BNFSymbol, Operation>, ids: map<BNFSymbol, nat>, width: nat)
    returns (r: Result<seq<Option<Operation>>, TableError>)
    requires forall s | s in ids :: ids[s] < width
    ensures r.Ok? <==> forall s | s in ops :: s in ids
    ensures r.Err? ==> r.error.SymbolIdNotFound?
    ensures r.Ok? ==> |r.value| == width
    ensures r.Ok? ==> forall k | 0 <= k < width && r.value[k].Some? ::
              exists s | s in ops && s in ids :: ids[s] == k && r.value[k] == Some(ops[s])
    ensures r.Ok? ==> forall s | s in ops :: r.value[ids[s]].Some?
    ensures r.Ok? && Injective(ids) ==> forall s | s in ops :: r.value[ids[s]] == Some(ops[s])
  {
    var row: seq<Option<Operation>> := seq(width, _ => None);
    var todo := ops.Keys;
    while todo != {}
      invariant todo <= ops.Keys && |row| == width
      invariant forall s | s in ops && s !in todo :: s in ids && row[ids[s]].Some?
      invariant forall k | 0 <= k < width && row[k].Some? ::
                  exists s | s in ops && s in ids && s !in todo :: ids[s] == k && row[k] == Some(ops[s])
      invariant Injective(ids) ==> forall s | s in ops && s !in todo :: row[ids[s]] == Some(ops[s])
      decreases |todo|
    {
      var s :| s in todo;
      var id := GetSymbolId(ids, s);
      if id.Err? {
        return Err(id.error);
      }
      row := row[id.value := Some(ops[s])];
      todo := todo - {s};
    }
    r := Ok(row);
  }

  /** Every symbol the state writes has an id. */
  ghost predicate Buildable(group: LRGroup, rules: seq<SinglePatternRule>, ids: map<BNFSymbol, nat>) {
    && !Conflicting(group) && !Malformed(group, rules)
    && forall s | WritesSymbol(group, s) :: s in ids
  }

  /**
   * `row` is the row of the state: filled only at the ids of symbols the state writes, with
   * operations that fit the table, and — when ids are distinct — with each transition's GoTo or
   * Shift and each complete item's Accept or Reduce at the column of its symbol.
   */
  ghost predicate RowOf(group: LRGroup, rules: seq<SinglePatternRule>, ids: map<BNFSymbol, nat>, width: nat,
                        row: seq<Option<Operation>>) {
    && |row| == width
    && (forall k | 0 <= k < width && row[k].Some? :: exists s | WritesSymbol(group, s) && s in ids :: ids[s] == k)
    && (forall k | 0 <= k < width && row[k].Some? :: OperationFits(row[k].value, group.nextGroupNumberMap.Values, |rules|))
    && (Injective(ids) ==>
          && (forall x | x in group.nextGroupNumberMap ::
                x in ids && ids[x] < width && row[ids[x]] == TransitionOperation(x, group.nextGroupNumberMap[x]))
          && (forall i, s | 0 <= i < |group.itemList| && s in ItemSymbols(group.itemList[i]) ::
                s in ids && ids[s] < width && row[ids[s]] == ItemOperation(group.itemList[i], rules)))
  }

  /** The row of one state: its operation map, then its cells. */
  method GroupRow(group: LRGroup, rules: seq<SinglePatternRule>, ids: map<BNFSymbol, nat>, width: nat)
    returns (r: Result<seq<Option<Operation>>, TableError>)
    requires forall s | s in ids :: ids[s] < width
    ensures r.Ok? <==> Buildable(group, rules, ids)
    ensures r.Ok? ==> RowOf(group, rules, ids, width, r.value)
  {
    var ops := GroupOperations(group, rules);
    if ops.Err? {
      return Err(ops.error);
    }
    r := Row(ops.value, ids, width);
    if r.Ok? {
      RowFromOperations(group, rules, ids, width, ops.value, r.value);
    }
  }

  lemma RowFromOperations(group: LRGroup, rules: seq<SinglePatternRule>, ids: map<BNFSymbol, nat>, width: nat,
                          ops: map<BNFSymbol, Operation>, row: seq<Option<Operation>>)
    requires forall s | s in ids :: ids[s] < width
    requires Placed(group, rules, ops) && AllFit(ops, group.nextGroupNumberMap.Values, |rules|)
    requires forall s | s in ops :: s in ids
    requires |row| == width
    requires forall k | 0 <= k < width && row[k].Some? :: exists s | s in ops && s in ids :: ids[s] == k && row[k] == Some(ops[s])
    requires Injective(ids) ==> forall s | s in ops :: row[ids[s]] == Some(ops[s])
    ensures RowOf(group, rules, ids, width, row)
  {
    forall k | 0 <= k < width && row[k].Some?
      ensures (exists s | WritesSymbol(group, s) && s in ids :: ids[s] == k)
      ensures OperationFits(row[k].value, group.nextGroupNumberMap.Values, |rules|)
    {
      var s :| s in ops && s in ids && ids[s] == k && row[k] == Some(ops[s]);
      assert WritesSymbol(group, s);
    }
  }

  /**
   * The table: one row per state 0 .. count - 1. It is built exactly when every state is
   * buildable, and then each row is the row of its state.
   */
  method BuildTable(groups: map<nat, LRGroup>, count: nat, rules: seq<SinglePatternRule>, ids: map<BNFSymbol, nat>,
                    width: nat) returns (r: Result<seq<seq<Option<Operation>>>, TableError>)
    requires forall n: nat | n < count :: n in groups
    requires forall s | s in ids :: ids[s] < width
    ensures r.Ok? <==> forall n: nat | n < count :: Buildable(groups[n], rules, ids)
    ensures r.Ok? ==> |r.value| == count
    ensures r.Ok? ==> forall n | 0 <= n < count :: RowOf(groups[n], rules, ids, width, r.value[n])
  {
    var table: seq<seq<Option<Operation>>> := [];
    var n := 0;
    while n < count
      invariant n <= count && |table| == n
      invariant forall m: nat | m < n :: Buildable(groups[m], rules, ids)
      invariant forall m | 0 <= m < n :: RowOf(groups[m], rules, ids, width, table[m])
    {
      var row := GroupRow(groups[n], rules, ids, width);
      if row.Err? {
        return Err(row.error);
      }
      table := table + [row.value];
      n := n + 1;
    }
    r := Ok(table);
  }
}
