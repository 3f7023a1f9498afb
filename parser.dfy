/**
 * The table-driven shift/reduce interpreter of bnf_rules_parser/src/parser.rs: a state stack, a
 * buffer of tokens and reduced nodes, and the remaining tokens, driven by a table of
 * (operation code, argument) cells and a list of rules (root symbol id, pattern of symbol ids).
 */
module Parser {
  import opened Wrappers
  import opened Grammar
  import opened Lexer

  // ---------------------------------------------------------------- the tree

  /** ASTNode; `position` is ASTNode::get_position, `internalSymbolId` the id get_symbol_id unwraps. */
  datatype ASTNode =
    | NonTerminal(internalSymbolId: Option<nat>, symbolName: string, children: seq<ASTNode>, position: TokenPosition)
    | Terminal(internalSymbolId: Option<nat>, text: string, position: TokenPosition)

  /** A node of a desugared group, whose children are spliced into the parent on reduce. */
  predicate IsSyntheticNode(n: ASTNode) {
    n.NonTerminal? && IsSynthetic(n.symbolName)
  }

  /** No node strictly below `n` is a synthetic node. */
  predicate Tidy(n: ASTNode) {
    n.NonTerminal? ==>
      forall i | 0 <= i < |n.children| :: !IsSyntheticNode(n.children[i]) && Tidy(n.children[i])
  }

  /** Every internal symbol id in the tree is unset. */
  predicate Cleared(n: ASTNode) {
    && n.internalSymbolId.None?
    && (n.NonTerminal? ==> forall i | 0 <= i < |n.children| :: Cleared(n.children[i]))
  }

  /** The two trees agree on everything but the internal symbol ids. */
  predicate SameTree(a: ASTNode, b: ASTNode) {
    match a
    case Terminal(_, text, position) => b.Terminal? && b.text == text && b.position == position
    case NonTerminal(_, name, children, position) =>
      && b.NonTerminal? && b.symbolName == name && b.position == position
      && |b.children| == |children|
      && forall i | 0 <= i < |children| :: SameTree(children[i], b.children[i])
  }

  /** The tree with every internal symbol id unset. */
  function ClearIds(n: ASTNode): (r: ASTNode)
    ensures Cleared(r) && SameTree(n, r)
  {
    match n
    case Terminal(_, text, position) => Terminal(None, text, position)
    case NonTerminal(_, name, children, position) =>
      NonTerminal(None, name, seq(|children|, i requires 0 <= i < |children| => ClearIds(children[i])), position)
  }

  /** Clearing only the ids determines the tree: two cleared trees alike but for ids are equal. */
  lemma {:induction false} SameTreeCleared(a: ASTNode, b: ASTNode, c: ASTNode)
    requires SameTree(a, b) && SameTree(a, c) && Cleared(b) && Cleared(c)
    ensures b == c
    decreases a
  {
    if a.NonTerminal? {
      forall i | 0 <= i < |a.children| ensures b.children[i] == c.children[i] {
        SameTreeCleared(a.children[i], b.children[i], c.children[i]);
      }
      assert b.children == c.children;
    }
  }

  /** Clearing is idempotent: a tree without ids is left as it is. */
  lemma ClearIdsIdempotent(n: ASTNode)
    ensures ClearIds(ClearIds(n)) == ClearIds(n)
  {
    SameTreeTransitive(n, ClearIds(n), ClearIds(ClearIds(n)));
    SameTreeCleared(n, ClearIds(n), ClearIds(ClearIds(n)));
  }

  lemma {:induction false} SameTreeTransitive(a: ASTNode, b: ASTNode, c: ASTNode)
    requires SameTree(a, b) && SameTree(b, c)
    ensures SameTree(a, c)
    decreases a
  {
    if a.NonTerminal? {
      forall i | 0 <= i < |a.children| ensures SameTree(a.children[i], c.children[i]) {
        SameTreeTransitive(a.children[i], b.children[i], c.children[i]);
      }
    }
  }

  /** Changing only the ids keeps a tree tidy. */
  lemma {:induction false} SameTreeTidy(a: ASTNode, b: ASTNode)
    requires SameTree(a, b) && Tidy(a)
    ensures Tidy(b)
    decreases a
  {
    if a.NonTerminal? {
      forall i | 0 <= i < |b.children| ensures !IsSyntheticNode(b.children[i]) && Tidy(b.children[i]) {
        SameTreeTidy(a.children[i], b.children[i]);
      }
    }
  }

  /** unset_internal_symbol_id: unset the node's own id, then each child's in turn. */
  method UnsetInternalSymbolId(n: ASTNode) returns (r: ASTNode)
    ensures r == ClearIds(n)
    decreases n
  {
    match n
    case Terminal(_, text, position) =>
      r := Terminal(None, text, position);
    case NonTerminal(_, name, children, position) =>
      var cleared: seq<ASTNode> := [];
      var i := 0;
      while i < |children|
        invariant 0 <= i <= |children|
        invariant |cleared| == i
        invariant forall j | 0 <= j < i :: cleared[j] == ClearIds(children[j])
      {
        var child := UnsetInternalSymbolId(children[i]);
        cleared := cleared + [child];
        i := i + 1;
      }
      r := NonTerminal(None, name, cleared, position);
  }

  // ---------------------------------------------------------------- buffer entries

  /** Either<Token, ASTNode>, an entry of the reduced buffer. */
  datatype Entry = TokenEntry(token: Token) | NodeEntry(node: ASTNode)

  /** The interpreter only buffers nodes it built, with their id set and nothing synthetic below them. */
  predicate EntryOk(e: Entry) {
    e.NodeEntry? ==> e.node.internalSymbolId.Some? && Tidy(e.node)
  }

  /** get_token_or_node_symbol_id. */
  function EntrySymbolId(e: Entry): nat
    requires EntryOk(e)
  {
    match e
    case TokenEntry(token) => token.symbolId
    case NodeEntry(node) => node.internalSymbolId.value
  }

  /** get_token_or_node_position, for an entry that is present. */
  function EntryPosition(e: Entry): TokenPosition {
    match e
    case TokenEntry(token) => token.position
    case NodeEntry(node) => node.position
  }

  function Positions(es: seq<Entry>): (ps: seq<TokenPosition>)
    ensures |ps| == |es| && forall i | 0 <= i < |es| :: ps[i] == EntryPosition(es[i])
  {
    seq(|es|, i requires 0 <= i < |es| => EntryPosition(es[i]))
  }

  /**
   * The positions merged with `marge` as written, from the neutral start, in order: the merge of
   * get_buffer_position and of the Reduce loop. Its offset is the least offset of the positions.
   */
  function MergeAll(ps: seq<TokenPosition>): (r: TokenPosition)
    ensures forall i | 0 <= i < |ps| :: r.startPosition <= ps[i].startPosition
    ensures r.startPosition == USIZE_MAX || exists i | 0 <= i < |ps| :: r.startPosition == ps[i].startPosition
  {
    if ps == [] then MargeStartPosition() else Marge(MergeAll(ps[..|ps| - 1]), ps[|ps| - 1])
  }

  /** The same fold over the corrected merge `MargeHull`. */
  function MergeAllHull(ps: seq<TokenPosition>): TokenPosition {
    if ps == [] then MargeStartPosition() else MargeHull(MergeAllHull(ps[..|ps| - 1]), ps[|ps| - 1])
  }

  /**
   * The corrected merge of positions (all offsets below usize::MAX) starts at the least offset and
   * reaches at least the end of every non-empty one.
   */
  lemma {:induction false} MergeAllHullCovers(ps: seq<TokenPosition>)
    requires ps != [] && forall i | 0 <= i < |ps| :: ps[i].startPosition < USIZE_MAX
    ensures MergeAllHull(ps).startPosition < USIZE_MAX
    ensures exists i | 0 <= i < |ps| :: MergeAllHull(ps).startPosition == ps[i].startPosition
    ensures forall i | 0 <= i < |ps| :: MergeAllHull(ps).startPosition <= ps[i].startPosition
    ensures forall i | 0 <= i < |ps| && ps[i].textLength > 0 ::
              ps[i].startPosition + ps[i].textLength <= MergeAllHull(ps).startPosition + MergeAllHull(ps).textLength
  {
    var init := ps[..|ps| - 1];
    var last := ps[|ps| - 1];
    if init == [] {
      assert ps == [last];
    } else {
      MergeAllHullCovers(init);
      var m := MergeAllHull(init);
      assert MergeAllHull(ps) == MargeHull(m, last);
      forall i | 0 <= i < |ps| && ps[i].textLength > 0
        ensures ps[i].startPosition + ps[i].textLength <= MergeAllHull(ps).startPosition + MergeAllHull(ps).textLength
      {
        if i < |init| {
          assert init[i] == ps[i];
        }
      }
      var k :| 0 <= k < |init| && m.startPosition == init[k].startPosition;
      assert init[k] == ps[k];
      forall i | 0 <= i < |ps| ensures MergeAllHull(ps).startPosition <= ps[i].startPosition {
        if i < |init| {
          assert init[i] == ps[i];
        }
      }
    }
  }

  /** The corrected merge ends no later than a bound every position ends within. */
  lemma {:induction false} MergeAllHullEnd(ps: seq<TokenPosition>, bound: nat)
    requires ps != [] && forall i | 0 <= i < |ps| :: ps[i].startPosition < USIZE_MAX
    requires forall i | 0 <= i < |ps| :: ps[i].startPosition + ps[i].textLength <= bound
    ensures MergeAllHull(ps).startPosition + MergeAllHull(ps).textLength <= bound
  {
    var init := ps[..|ps| - 1];
    if init != [] {
      assert forall i | 0 <= i < |init| :: init[i] == ps[i];
      MergeAllHullEnd(init, bound);
      MergeAllHullCovers(init);
    }
  }

  /** Each position ends before every later one starts, and offsets stay below usize::MAX. */
  predicate Chained(ps: seq<TokenPosition>) {
    && (forall i | 0 <= i < |ps| :: ps[i].startPosition < USIZE_MAX)
    && (forall i, j | 0 <= i < j < |ps| :: ps[i].startPosition + ps[i].textLength <= ps[j].startPosition)
  }

  /** No non-empty position after the first starts at the first one's offset. */
  predicate NoneAtFirstOffset(ps: seq<TokenPosition>) {
    forall i | 0 < i < |ps| && ps[i].textLength > 0 :: ps[0].startPosition < ps[i].startPosition
  }

  /** Dropping the last of chained positions keeps them chained, and they all end before it starts. */
  lemma ChainedInit(ps: seq<TokenPosition>)
    requires ps != [] && Chained(ps) && NoneAtFirstOffset(ps)
    ensures var init := ps[..|ps| - 1]; var last := ps[|ps| - 1];
      && Chained(init) && NoneAtFirstOffset(init) && last.startPosition < USIZE_MAX
      && (forall i | 0 <= i < |init| :: init[i].startPosition + init[i].textLength <= last.startPosition)
      && (init != [] && last.textLength > 0 ==> init[0].startPosition < last.startPosition)
  {
    var init := ps[..|ps| - 1];
    assert forall i | 0 <= i < |init| :: init[i] == ps[i];
  }

  /** On chained positions the corrected merge starts at the first one. */
  lemma HullStartsFirst(ps: seq<TokenPosition>)
    requires ps != [] && Chained(ps)
    ensures MergeAllHull(ps).startPosition == ps[0].startPosition < USIZE_MAX
  {
    MergeAllHullCovers(ps);
    var k :| 0 <= k < |ps| && MergeAllHull(ps).startPosition == ps[k].startPosition;
    assert ps[0].startPosition <= ps[k].startPosition;
  }

  /**
   * On chained positions where no non-empty one after the first starts at the first one's
   * offset, `marge` as written computes the corrected merge.
   */
  lemma {:induction false} MergeAllAgrees(ps: seq<TokenPosition>)
    requires Chained(ps) && NoneAtFirstOffset(ps)
    ensures MergeAll(ps) == MergeAllHull(ps)
  {
    if ps != [] {
      var init := ps[..|ps| - 1];
      var last := ps[|ps| - 1];
      ChainedInit(ps);
      MergeAllAgrees(init);
      if init == [] {
        assert ps == [last];
      } else {
        HullStartsFirst(init);
        MergeAllHullEnd(init, last.startPosition);
        MargeHullAgreesWhenOrdered(MergeAllHull(init), last);
      }
    }
  }

  /**
   * `marge` as written on chained positions where no non-empty one after the first starts at the
   * first one's offset: the merge starts at the first offset, reaches the end of every non-empty
   * position and ends no later than the last position.
   */
  lemma MergeAllCovers(ps: seq<TokenPosition>)
    requires ps != [] && Chained(ps) && NoneAtFirstOffset(ps)
    ensures MergeAll(ps).startPosition == ps[0].startPosition
    ensures forall i | 0 <= i < |ps| && ps[i].textLength > 0 ::
              ps[i].startPosition + ps[i].textLength <= MergeAll(ps).startPosition + MergeAll(ps).textLength
    ensures MergeAll(ps).startPosition + MergeAll(ps).textLength
         <= ps[|ps| - 1].startPosition + ps[|ps| - 1].textLength
  {
    MergeAllAgrees(ps);
    MergeAllHullCovers(ps);
    MergeAllHullEnd(ps, ps[|ps| - 1].startPosition + ps[|ps| - 1].textLength);
  }

  /**
   * The merge as written loses the length of `source ::= [ "-" ] "5"` over "5": the empty
   * optional node at offset 0, then the token "5" at offset 0, merge to length 0, while the
   * corrected merge has length 1.
   */
  lemma MergeAllLosesLength()
    ensures var ps := [TokenPosition(0, 0, 1, 1), TokenPosition(0, 1, 1, 1)];
            && Chained(ps) && !NoneAtFirstOffset(ps)
            && MergeAll(ps).textLength == 0 && MergeAllHull(ps).textLength == 1
  {
    var ps := [TokenPosition(0, 0, 1, 1), TokenPosition(0, 1, 1, 1)];
    assert ps[..1] == [ps[0]] && [ps[0]][..0] == [];
    assert ps[1].textLength > 0 && !(ps[0].startPosition < ps[1].startPosition);
  }

  /** The merged position of a buffer, as get_buffer_position computes it: none for an empty buffer. */
  function BufferPosition(es: seq<Entry>): Option<TokenPosition> {
    if es == [] then None else Some(MergeAll(Positions(es)))
  }

  /** get_buffer_position. */
  method GetBufferPosition(buffer: seq<Entry>) returns (r: Option<TokenPosition>)
    ensures r == BufferPosition(buffer)
  {
    if buffer == [] {
      return None;
    }
    var merged := MargeStartPosition();
    var i := 0;
    while i < |buffer|
      invariant 0 <= i <= |buffer|
      invariant merged == MergeAll(Positions(buffer)[..i])
    {
      assert Positions(buffer)[..i + 1][..i] == Positions(buffer)[..i];
      merged := Marge(merged, EntryPosition(buffer[i]));
      i := i + 1;
    }
    assert Positions(buffer)[..i] == Positions(buffer);
    r := Some(merged);
  }

  /** The first index whose entry's symbol id differs from the pattern's, if any. */
  function FirstMismatch(es: seq<Entry>, pattern: seq<nat>): (r: Option<nat>)
    requires |es| == |pattern| && forall i | 0 <= i < |es| :: EntryOk(es[i])
    ensures r.None? <==> forall j | 0 <= j < |es| :: EntrySymbolId(es[j]) == pattern[j]
    ensures r.Some? ==> && r.value < |es| && EntrySymbolId(es[r.value]) != pattern[r.value]
                        && forall j | 0 <= j < r.value :: EntrySymbolId(es[j]) == pattern[j]
  {
    if es == [] then None
    else
      var n := |es| - 1;
      match FirstMismatch(es[..n], pattern[..n])
      case Some(i) => Some(i)
      case None => if EntrySymbolId(es[n]) != pattern[n] then Some(n) else None
  }

  /** The nodes an entry contributes to its parent: a synthetic node gives its children, anything else itself. */
  function ChildNodes(e: Entry): seq<ASTNode> {
    match e
    case TokenEntry(token) => [Terminal(Some(token.symbolId), token.text, token.position)]
    case NodeEntry(node) => if IsSyntheticNode(node) then node.children else [node]
  }

  /** The children of a reduced node: each entry's contribution, in order. */
  function Splice(es: seq<Entry>): seq<ASTNode> {
    if es == [] then [] else Splice(es[..|es| - 1]) + ChildNodes(es[|es| - 1])
  }

  /** Splicing distributes over concatenation, so the entries' contributions keep their order. */
  lemma {:induction false} SpliceAppend(a: seq<Entry>, b: seq<Entry>)
    ensures Splice(a + b) == Splice(a) + Splice(b)
    decreases |b|
  {
    if b == [] {
      assert a + b == a;
    } else {
      var front, e := b[..|b| - 1], b[|b| - 1];
      assert b == front + [e];
      assert a + b == (a + front) + [e];
      SpliceAppend(a, front);
      SpliceLast(a + front, e);
      SpliceLast(front, e);
      AppendAssoc(Splice(a), Splice(front), ChildNodes(e));
    }
  }

  lemma AppendAssoc<T>(x: seq<T>, y: seq<T>, z: seq<T>)
    ensures (x + y) + z == x + (y + z)
  {
  }

  lemma SpliceLast(es: seq<Entry>, e: Entry)
    ensures Splice(es + [e]) == Splice(es) + ChildNodes(e)
  {
    assert (es + [e])[..|es|] == es;
  }

  /** Built from well-formed entries, no child of a reduced node is synthetic, nor anything below it. */
  lemma {:induction false} SpliceTidy(es: seq<Entry>)
    requires forall i | 0 <= i < |es| :: EntryOk(es[i])
    ensures forall k | 0 <= k < |Splice(es)| :: !IsSyntheticNode(Splice(es)[k]) && Tidy(Splice(es)[k])
  {
    if es != [] {
      var n := |es| - 1;
      SpliceTidy(es[..n]);
      var e := es[n];
      assert EntryOk(e);
      var s := Splice(es);
      forall k | 0 <= k < |s| ensures !IsSyntheticNode(s[k]) && Tidy(s[k]) {
        if k >= |Splice(es[..n])| {
          assert s[k] == ChildNodes(e)[k - |Splice(es[..n])|];
        } else {
          assert s[k] == Splice(es[..n])[k];
        }
      }
    }
  }

  // ---------------------------------------------------------------- tables and configurations

  /** The generated arrays: rule names, the LR table of (code, argument) cells, and (root id, pattern ids). */
  datatype Tables = Tables(rulePatternName: seq<string>, lrTable: seq<seq<(nat, nat)>>, bnfRules: seq<(nat, seq<nat>)>)

  /** A cell whose argument indexes what its operation needs. */
  predicate CellOk(t: Tables, cell: (nat, nat)) {
    && ((cell.0 == OPERATION_SHIFT || cell.0 == OPERATION_GOTO) ==> cell.1 < |t.lrTable|)
    && (cell.0 == OPERATION_REDUCE ==> cell.1 < |t.bnfRules| && cell.1 < |t.rulePatternName|)
  }

  /** The tables index each other in bounds: every row as wide as the first, every target a row, every rule root a column. */
  predicate WellFormed(t: Tables) {
    && |t.lrTable| > 0
    && (forall s | 0 <= s < |t.lrTable| :: |t.lrTable[s]| == |t.lrTable[0]|)
    && (forall s, k | 0 <= s < |t.lrTable| && 0 <= k < |t.lrTable[s]| :: CellOk(t, t.lrTable[s][k]))
    && (forall r | 0 <= r < |t.bnfRules| :: t.bnfRules[r].0 < |t.lrTable[0]|)
  }

  /** Every token's symbol id is a column of the table. */
  predicate TokensFit(t: Tables, tokens: seq<Token>)
    requires |t.lrTable| > 0
  {
    forall i | 0 <= i < |tokens| :: tokens[i].symbolId < |t.lrTable[0]|
  }

  /**
   * The interpreter state: the state stack and the reduced buffer (tops last), and the tokens
   * still to read in input order (the reversed vector of the source, whose last element is the
   * next token).
   */
  datatype Config = Config(stack: seq<nat>, buffer: seq<Entry>, tokens: seq<Token>)

  /** The invariant of the loop: one more state than buffered entries, states in range. */
  predicate Good(t: Tables, c: Config)
    requires |t.lrTable| > 0
  {
    && |c.stack| == |c.buffer| + 1
    && (forall i | 0 <= i < |c.stack| :: c.stack[i] < |t.lrTable|)
    && (forall i | 0 <= i < |c.buffer| :: EntryOk(c.buffer[i]))
    && TokensFit(t, c.tokens)
  }

  datatype ParseErrorType = InvalidSyntax | UnexpectedToken | InternalError

  datatype ParseError = ParseError(position: Option<TokenPosition>, message: string, errorType: ParseErrorType)

  /** The outcome of a bounded run; `Panicked` is the unwrap of a buffered token accepted as the tree. */
  datatype ParseOutcome = Finished(result: Result<ASTNode, ParseError>) | OutOfFuel | Panicked

  datatype StepResult = Continue(next: Config) | Accepted(config: Config) | Failed(error: ParseError)

  /** The position of a node reduced from no entries: the next token's offset with length 0, else the last token's. */
  function EmptyRulePosition(tokens: seq<Token>, lastTokenPosition: TokenPosition): TokenPosition {
    if tokens != [] then tokens[0].position.(textLength := 0) else lastTokenPosition
  }

  /** The position of a reduced node. */
  function ReducedPosition(children: seq<Entry>, tokens: seq<Token>, lastTokenPosition: TokenPosition): TokenPosition {
    if children == [] then EmptyRulePosition(tokens, lastTokenPosition) else MergeAll(Positions(children))
  }

  /** The node a Reduce by rule `ruleId` builds from the popped entries. */
  function ReducedNode(t: Tables, lastTokenPosition: TokenPosition, children: seq<Entry>, tokens: seq<Token>, ruleId: nat): ASTNode
    requires ruleId < |t.bnfRules| && ruleId < |t.rulePatternName|
  {
    NonTerminal(Some(t.bnfRules[ruleId].0), t.rulePatternName[ruleId], Splice(children),
                ReducedPosition(children, tokens, lastTokenPosition))
  }

  /** The GoTo that ends a Reduce: the state left on top must have a GoTo cell on the rule's root. */
  function GoToAfter(t: Tables, stack: seq<nat>, buffer: seq<Entry>, tokens: seq<Token>, root: nat): Result<Config, ParseError>
    requires WellFormed(t) && stack != [] && stack[|stack| - 1] < |t.lrTable| && root < |t.lrTable[0]|
  {
    var op := t.lrTable[stack[|stack| - 1]][root];
    if op.0 != OPERATION_GOTO then Err(ParseError(BufferPosition(buffer), "Invalid operation.", InvalidSyntax))
    else Ok(Config(stack + [op.1], buffer, tokens))
  }

  /**
   * The Reduce operation by rule `ruleId`: the last |pattern| entries must carry the pattern's
   * ids; they become one node, and the state below them must have a GoTo on the rule's root.
   */
  function ReduceSpec(t: Tables, lastTokenPosition: TokenPosition, c: Config, ruleId: nat): (r: Result<Config, ParseError>)
    requires WellFormed(t) && Good(t, c) && ruleId < |t.bnfRules| && ruleId < |t.rulePatternName|
    ensures r.Err? ==> r.error.errorType == InvalidSyntax
    ensures r.Ok? ==> r.value.tokens == c.tokens && |r.value.buffer| <= |c.buffer| + 1
  {
    var pattern := t.bnfRules[ruleId].1;
    var n := |pattern|;
    if |c.buffer| < n then Err(ParseError(BufferPosition(c.buffer), "Invalid syntax.", InvalidSyntax))
    else
      var children := c.buffer[|c.buffer| - n..];
      match FirstMismatch(children, pattern)
      case Some(i) => Err(ParseError(Some(EntryPosition(children[i])), "Invalid syntax.", InvalidSyntax))
      case None =>
        GoToAfter(t, c.stack[..|c.stack| - n],
                  c.buffer[..|c.buffer| - n] + [NodeEntry(ReducedNode(t, lastTokenPosition, children, c.tokens, ruleId))],
                  c.tokens, t.bnfRules[ruleId].0)
  }

  /**
   * Reduce pops exactly |pattern| entries from both stacks and pushes the built node and the GoTo
   * target; everything below is kept, the tokens are untouched, and the loop invariant holds after.
   * It succeeds only when every popped entry carries the pattern's id; too few entries fail at the
   * whole buffer's position and a wrong id fails at the first entry carrying one. Every failure
   * is InvalidSyntax.
   */
  lemma ReduceSpecFacts(t: Tables, lastTokenPosition: TokenPosition, c: Config, ruleId: nat)
    requires WellFormed(t) && Good(t, c) && ruleId < |t.bnfRules| && ruleId < |t.rulePatternName|
    ensures var r := ReduceSpec(t, lastTokenPosition, c, ruleId);
      && (r.Ok? ==> Good(t, r.value) && r.value.tokens == c.tokens)
      && (r.Err? ==> r.error.errorType == InvalidSyntax)
      && (|c.buffer| < |t.bnfRules[ruleId].1| ==>
            r == Err(ParseError(BufferPosition(c.buffer), "Invalid syntax.", InvalidSyntax)))
      && (r.Ok? ==> forall j | 0 <= j < |t.bnfRules[ruleId].1| ::
            EntrySymbolId(c.buffer[|c.buffer| - |t.bnfRules[ruleId].1| + j]) == t.bnfRules[ruleId].1[j])
      && (forall i: nat | FirstWrongId(c.buffer, t.bnfRules[ruleId].1, i) ::
            r == Err(ParseError(Some(EntryPosition(c.buffer[|c.buffer| - |t.bnfRules[ruleId].1| + i])),
                                "Invalid syntax.", InvalidSyntax)))
      && (r.Ok? ==>
            var n := |t.bnfRules[ruleId].1|;
            && n <= |c.buffer|
            && |r.value.stack| == |c.stack| - n + 1 && r.value.stack[..|c.stack| - n] == c.stack[..|c.stack| - n]
            && |r.value.buffer| == |c.buffer| - n + 1 && r.value.buffer[..|c.buffer| - n] == c.buffer[..|c.buffer| - n]
            && r.value.buffer[|c.buffer| - n]
                 == NodeEntry(ReducedNode(t, lastTokenPosition, c.buffer[|c.buffer| - n..], c.tokens, ruleId))
            && t.lrTable[r.value.stack[|c.stack| - n - 1]][t.bnfRules[ruleId].0]
                 == (OPERATION_GOTO, r.value.stack[|c.stack| - n]))
  {
    var n := |t.bnfRules[ruleId].1|;
    if n <= |c.buffer| {
      var children := c.buffer[|c.buffer| - n..];
      ChildrenIds(c.buffer, t.bnfRules[ruleId].1);
      if FirstMismatch(children, t.bnfRules[ruleId].1).None? {
        var node := NodeEntry(ReducedNode(t, lastTokenPosition, children, c.tokens, ruleId));
        ReducedNodeOk(t, lastTokenPosition, c, ruleId);
        GoToAfterFacts(t, c, n, node, t.bnfRules[ruleId].0);
      }
    }
  }

  /** The `i`-th of the last |pattern| entries is the first whose id differs from the pattern's. */
  predicate FirstWrongId(buffer: seq<Entry>, pattern: seq<nat>, i: nat)
    requires forall k | 0 <= k < |buffer| :: EntryOk(buffer[k])
  {
    && |pattern| <= |buffer| && i < |pattern|
    && EntrySymbolId(buffer[|buffer| - |pattern| + i]) != pattern[i]
    && forall j | 0 <= j < i :: EntrySymbolId(buffer[|buffer| - |pattern| + j]) == pattern[j]
  }

  /** FirstMismatch over the last |pattern| entries, in terms of the buffer's own indices. */
  lemma ChildrenIds(buffer: seq<Entry>, pattern: seq<nat>)
    requires forall k | 0 <= k < |buffer| :: EntryOk(buffer[k])
    requires |pattern| <= |buffer|
    ensures var children := buffer[|buffer| - |pattern|..];
      && (FirstMismatch(children, pattern).None? ==>
            forall j | 0 <= j < |pattern| :: EntrySymbolId(buffer[|buffer| - |pattern| + j]) == pattern[j])
      && (forall i: nat | FirstWrongId(buffer, pattern, i) ::
            FirstMismatch(children, pattern) == Some(i) && children[i] == buffer[|buffer| - |pattern| + i])
  {
    var children := buffer[|buffer| - |pattern|..];
    assert forall j | 0 <= j < |children| :: children[j] == buffer[|buffer| - |pattern| + j];
    forall i: nat | FirstWrongId(buffer, pattern, i)
      ensures FirstMismatch(children, pattern) == Some(i)
    {
      assert EntrySymbolId(children[i]) != pattern[i];
      assert forall j | 0 <= j < i :: EntrySymbolId(children[j]) == pattern[j];
    }
  }

  /** The node built from the last `n` entries, all well formed, is well formed. */
  lemma ReducedNodeOk(t: Tables, lastTokenPosition: TokenPosition, c: Config, ruleId: nat)
    requires WellFormed(t) && Good(t, c) && ruleId < |t.bnfRules| && ruleId < |t.rulePatternName|
    requires |t.bnfRules[ruleId].1| <= |c.buffer|
    ensures EntryOk(NodeEntry(ReducedNode(t, lastTokenPosition, c.buffer[|c.buffer| - |t.bnfRules[ruleId].1|..], c.tokens, ruleId)))
  {
    var children := c.buffer[|c.buffer| - |t.bnfRules[ruleId].1|..];
    assert forall i | 0 <= i < |children| :: children[i] == c.buffer[|c.buffer| - |t.bnfRules[ruleId].1| + i];
    SpliceTidy(children);
  }

  /** Replacing the last `n` entries by a well-formed one and taking the GoTo keeps the loop invariant. */
  lemma GoToAfterFacts(t: Tables, c: Config, n: nat, node: Entry, root: nat)
    requires WellFormed(t) && Good(t, c) && n <= |c.buffer| && EntryOk(node) && root < |t.lrTable[0]|
    ensures var r := GoToAfter(t, c.stack[..|c.stack| - n], c.buffer[..|c.buffer| - n] + [node], c.tokens, root);
      && (r.Err? ==> r.error.errorType == InvalidSyntax)
      && (r.Ok? ==>
            && Good(t, r.value) && r.value.tokens == c.tokens
            && |r.value.stack| == |c.stack| - n + 1 && r.value.stack[..|c.stack| - n] == c.stack[..|c.stack| - n]
            && |r.value.buffer| == |c.buffer| - n + 1 && r.value.buffer[..|c.buffer| - n] == c.buffer[..|c.buffer| - n]
            && r.value.buffer[|c.buffer| - n] == node
            && t.lrTable[r.value.stack[|c.stack| - n - 1]][root] == (OPERATION_GOTO, r.value.stack[|c.stack| - n]))
  {
    var stack := c.stack[..|c.stack| - n];
    var buffer := c.buffer[..|c.buffer| - n] + [node];
    assert forall i | 0 <= i < |buffer| :: EntryOk(buffer[i]) by {
      forall i | 0 <= i < |buffer| ensures EntryOk(buffer[i]) {
        if i < |c.buffer| - n {
          assert buffer[i] == c.buffer[i];
        }
      }
    }
    var r := GoToAfter(t, stack, buffer, c.tokens, root);
    if r.Ok? {
      assert r.value.stack == stack + [r.value.stack[|stack|]];
      assert r.value.stack[..|stack|] == stack;
      assert r.value.buffer[..|c.buffer| - n] == c.buffer[..|c.buffer| - n];
    }
  }

  /** One turn of the loop of __parse. */
  function Step(t: Tables, lastTokenPosition: TokenPosition, c: Config): (r: StepResult)
    requires WellFormed(t) && Good(t, c)
    ensures r.Continue? ==> Good(t, r.next)
    ensures r.Accepted? ==> r.config == c
  {
    var s := c.stack[|c.stack| - 1];
    if c.tokens == [] then Failed(ParseError(None, "Elements of the tokens are missing.", InvalidSyntax))
    else
      var op := t.lrTable[s][c.tokens[0].symbolId];
      if op.0 == OPERATION_NONE then
        Failed(ParseError(Some(c.tokens[0].position), "Invalid operation.", InvalidSyntax))
      else if op.0 == OPERATION_SHIFT then
        Continue(Config(c.stack + [op.1], c.buffer + [TokenEntry(c.tokens[0])], c.tokens[1..]))
      else if op.0 == OPERATION_REDUCE then
        ReduceSpecFacts(t, lastTokenPosition, c, op.1);
        match ReduceSpec(t, lastTokenPosition, c, op.1)
        case Err(e) => Failed(e)
        case Ok(next) => Continue(next)
      else if op.0 == OPERATION_ACCEPT then Accepted(c)
      else Continue(c)
  }

  /** Accept: the single buffered node, with its ids cleared. */
  function Finish(c: Config): (r: ParseOutcome)
    ensures r.Finished? && r.result.Err? <==> |c.buffer| != 1
    ensures r.Finished? && r.result.Err? ==> r.result.error.errorType == InternalError
    ensures r.Finished? && r.result.Ok? ==> Cleared(r.result.value)
  {
    if |c.buffer| != 1 then
      Finished(Err(ParseError(None, "May be internal error. reduce_buffer.len() is not 1.", InternalError)))
    else
      match c.buffer[0]
      case TokenEntry(_) => Panicked
      case NodeEntry(node) => Finished(Ok(ClearIds(node)))
  }

  /** At most `fuel` turns of the loop. */
  function Run(t: Tables, lastTokenPosition: TokenPosition, c: Config, fuel: nat): ParseOutcome
    requires WellFormed(t) && Good(t, c)
    decreases fuel
  {
    if fuel == 0 then OutOfFuel
    else
      match Step(t, lastTokenPosition, c)
      case Failed(e) => Finished(Err(e))
      case Accepted(config) => Finish(config)
      case Continue(next) => Run(t, lastTokenPosition, next, fuel - 1)
  }

  /** The position kept for empty rules at the end of input: the last token's, or all zeros. */
  function LastTokenPosition(tokens: seq<Token>): TokenPosition {
    if tokens == [] then TokenPosition(0, 0, 0, 0) else tokens[|tokens| - 1].position
  }

  /** What __parse computes within `fuel` turns of its loop. */
  function ParseSpec(tokens: Result<seq<Token>, UnexpectedCharacter>, t: Tables, fuel: nat): ParseOutcome
    requires WellFormed(t) && (tokens.Ok? ==> TokensFit(t, tokens.value))
  {
    match tokens
    case Err(err) => Finished(Err(ParseError(Some(err.position), "Unexpected token(Lexer).", UnexpectedToken)))
    case Ok(ts) => Run(t, LastTokenPosition(ts), Config([0], [], ts), fuel)
  }

  // ---------------------------------------------------------------- the interpreter

  /** The popping loop of Reduce: `n` entries off the buffer and `n` states off the stack, then put back in order. */
  method PopEntries(stack: seq<nat>, reducedBuffer: seq<Entry>, n: nat)
      returns (newStack: seq<nat>, newBuffer: seq<Entry>, popped: seq<Entry>)
    requires n <= |reducedBuffer| && |stack| == |reducedBuffer| + 1
    ensures newStack == stack[..|stack| - n] && newBuffer == reducedBuffer[..|reducedBuffer| - n]
    ensures popped == reducedBuffer[|reducedBuffer| - n..]
  {
    newStack, newBuffer := stack, reducedBuffer;
    var reversed: seq<Entry> := [];
    var k := 0;
    while k < n
      invariant 0 <= k <= n
      invariant newBuffer == reducedBuffer[..|reducedBuffer| - k]
      invariant newStack == stack[..|stack| - k]
      invariant reversed == Reverse(reducedBuffer[|reducedBuffer| - k..])
    {
      assert reducedBuffer[|reducedBuffer| - (k + 1)..] == [newBuffer[|newBuffer| - 1]] + reducedBuffer[|reducedBuffer| - k..];
      reversed := reversed + [newBuffer[|newBuffer| - 1]];
      newBuffer := newBuffer[..|newBuffer| - 1];
      // |stack| == |reduced_buffer| + 1, so the pop of the stack always finds a state
      newStack := newStack[..|newStack| - 1];
      k := k + 1;
    }
    popped := Reverse(reversed);
    ReverseReverse(reducedBuffer[|reducedBuffer| - n..]);
  }

  /**
   * The checking loop of Reduce: the first entry whose id differs from the pattern's, or else the
   * children of the new node and its position.
   */
  method BuildChildren(buffer: seq<Entry>, pattern: seq<nat>, tokens: seq<Token>, lastTokenPosition: TokenPosition)
      returns (mismatch: Option<nat>, reduceChildren: seq<ASTNode>, position: TokenPosition)
    requires |buffer| == |pattern| && forall j | 0 <= j < |buffer| :: EntryOk(buffer[j])
    ensures mismatch == FirstMismatch(buffer, pattern)
    ensures mismatch.None? ==> reduceChildren == Splice(buffer)
    ensures mismatch.None? ==> position == ReducedPosition(buffer, tokens, lastTokenPosition)
  {
    position := if |buffer| == 0 then EmptyRulePosition(tokens, lastTokenPosition) else MargeStartPosition();
    reduceChildren := [];
    var i := 0;
    while i < |buffer|
      invariant 0 <= i <= |buffer|
      invariant FirstMismatch(buffer[..i], pattern[..i]).None?
      invariant reduceChildren == Splice(buffer[..i])
      invariant |buffer| > 0 ==> position == MergeAll(Positions(buffer)[..i])
      invariant |buffer| == 0 ==> position == EmptyRulePosition(tokens, lastTokenPosition)
    {
      var tokenOrNode := buffer[i];
      assert buffer[..i + 1][..i] == buffer[..i] && pattern[..i + 1][..i] == pattern[..i];
      assert Positions(buffer)[..i + 1][..i] == Positions(buffer)[..i];
      if EntrySymbolId(tokenOrNode) != pattern[i] {
        FirstMismatchAt(buffer, pattern, i);
        return Some(i), reduceChildren, position;
      }
      position := Marge(position, EntryPosition(tokenOrNode));
      reduceChildren := reduceChildren + ChildNodes(tokenOrNode);
      i := i + 1;
    }
    assert buffer[..i] == buffer && pattern[..i] == pattern && Positions(buffer)[..i] == Positions(buffer);
    mismatch := None;
  }

  /** The Reduce branch of __parse: pop the entries, check them against the pattern, build the node, GoTo. */
  method Reduce(t: Tables, lastTokenPosition: TokenPosition, c: Config, ruleId: nat) returns (r: Result<Config, ParseError>)
    requires WellFormed(t) && Good(t, c) && ruleId < |t.bnfRules| && ruleId < |t.rulePatternName|
    ensures r == ReduceSpec(t, lastTokenPosition, c, ruleId)
  {
    var rule := t.bnfRules[ruleId];
    var pattern := rule.1;
    var rightSideCount := |pattern|;
    if |c.buffer| < rightSideCount {
      var position := GetBufferPosition(c.buffer);
      return Err(ParseError(position, "Invalid syntax.", InvalidSyntax));
    }
    var stack, reducedBuffer, buffer := PopEntries(c.stack, c.buffer, rightSideCount);
    assert forall j | 0 <= j < |buffer| :: buffer[j] == c.buffer[|c.buffer| - rightSideCount + j];
    var mismatch, reduceChildren, position := BuildChildren(buffer, pattern, c.tokens, lastTokenPosition);
    if mismatch.Some? {
      return Err(ParseError(Some(EntryPosition(buffer[mismatch.value])), "Invalid syntax.", InvalidSyntax));
    }
    var node := NonTerminal(Some(rule.0), t.rulePatternName[ruleId], reduceChildren, position);
    assert node == ReducedNode(t, lastTokenPosition, buffer, c.tokens, ruleId);
    reducedBuffer := reducedBuffer + [NodeEntry(node)];
    assert ReduceSpec(t, lastTokenPosition, c, ruleId) == GoToAfter(t, stack, reducedBuffer, c.tokens, rule.0);
    var stackLast := stack[|stack| - 1];
    var operation := t.lrTable[stackLast][rule.0];
    if operation.0 != OPERATION_GOTO {
      var errorPosition := GetBufferPosition(reducedBuffer);
      return Err(ParseError(errorPosition, "Invalid operation.", InvalidSyntax));
    }
    r := Ok(Config(stack + [operation.1], reducedBuffer, c.tokens));
  }

  /** A mismatch at `i` after a matching prefix is the first mismatch. */
  lemma FirstMismatchAt(es: seq<Entry>, pattern: seq<nat>, i: nat)
    requires |es| == |pattern| && forall j | 0 <= j < |es| :: EntryOk(es[j])
    requires i < |es| && FirstMismatch(es[..i], pattern[..i]).None?
    requires EntrySymbolId(es[i]) != pattern[i]
    ensures FirstMismatch(es, pattern) == Some(i)
  {
    assert forall j | 0 <= j < i :: es[..i][j] == es[j] && pattern[..i][j] == pattern[j];
    var r := FirstMismatch(es, pattern);
  }

  function Reverse<T>(s: seq<T>): (r: seq<T>)
    ensures |r| == |s|
  {
    if s == [] then [] else Reverse(s[1..]) + [s[0]]
  }

  lemma {:induction false} ReverseReverse<T>(s: seq<T>)
    ensures Reverse(Reverse(s)) == s
    ensures forall i | 0 <= i < |s| :: Reverse(s)[i] == s[|s| - 1 - i]
  {
    if s != [] {
      ReverseReverse(s[1..]);
      ReverseAppend(Reverse(s[1..]), [s[0]]);
      assert Reverse([s[0]]) == [s[0]];
      assert [s[0]] + s[1..] == s;
    }
  }

  lemma {:induction false} ReverseAppend<T>(a: seq<T>, b: seq<T>)
    ensures Reverse(a + b) == Reverse(b) + Reverse(a)
    decreases |a|
  {
    if a == [] {
      assert a + b == b && Reverse(b) + [] == Reverse(b);
    } else {
      assert (a + b)[1..] == a[1..] + b;
      ReverseAppend(a[1..], b);
    }
  }

  /** One turn of the loop of __parse: read the cell of the top state and the next token, and act on it. */
  method Turn(t: Tables, lastTokenPosition: TokenPosition, c: Config) returns (r: StepResult)
    requires WellFormed(t) && Good(t, c)
    ensures r == Step(t, lastTokenPosition, c)
  {
    var stackLast := c.stack[|c.stack| - 1];
    if c.tokens == [] {
      return Failed(ParseError(None, "Elements of the tokens are missing.", InvalidSyntax));
    }
    var operation := t.lrTable[stackLast][c.tokens[0].symbolId];
    if operation.0 == OPERATION_NONE {
      return Failed(ParseError(Some(c.tokens[0].position), "Invalid operation.", InvalidSyntax));
    }
    if operation.0 == OPERATION_SHIFT {
      r := Continue(Config(c.stack + [operation.1], c.buffer + [TokenEntry(c.tokens[0])], c.tokens[1..]));
    } else if operation.0 == OPERATION_REDUCE {
      var reduced := Reduce(t, lastTokenPosition, c, operation.1);
      if reduced.Err? {
        return Failed(reduced.error);
      }
      r := Continue(reduced.value);
    } else if operation.0 == OPERATION_ACCEPT {
      r := Accepted(c);
    } else {
      r := Continue(c);
    }
  }

  /** The loop starts from the state stack [0], an empty buffer and all the tokens. */
  lemma RunStart(tokens: Result<seq<Token>, UnexpectedCharacter>, t: Tables, fuel: nat)
    requires WellFormed(t) && tokens.Ok? && TokensFit(t, tokens.value)
    ensures Good(t, Config([0], [], tokens.value))
    ensures Run(t, LastTokenPosition(tokens.value), Config([0], [], tokens.value), fuel) == ParseSpec(tokens, t, fuel)
  {
  }

  /** A run of `steps > 0` turns is one turn followed by the rest. */
  lemma RunTurn(t: Tables, lastTokenPosition: TokenPosition, c: Config, steps: nat)
    requires WellFormed(t) && Good(t, c) && steps > 0
    ensures match Step(t, lastTokenPosition, c)
      case Failed(e) => Run(t, lastTokenPosition, c, steps) == Finished(Err(e))
      case Accepted(config) => Run(t, lastTokenPosition, c, steps) == Finish(config)
      case Continue(next) => Good(t, next) && Run(t, lastTokenPosition, c, steps) == Run(t, lastTokenPosition, next, steps - 1)
  {
  }

  /** __parse, with the loop bounded by `fuel` turns. */
  method Parse(tokens: Result<seq<Token>, UnexpectedCharacter>, t: Tables, fuel: nat) returns (r: ParseOutcome)
    requires WellFormed(t) && (tokens.Ok? ==> TokensFit(t, tokens.value))
    ensures r == ParseSpec(tokens, t, fuel)
  {
    if tokens.Err? {
      return Finished(Err(ParseError(Some(tokens.error.position), "Unexpected token(Lexer).", UnexpectedToken)));
    }
    var lastTokenPosition := LastTokenPosition(tokens.value);
    var c := Config([0], [], tokens.value);
    var steps := fuel;
    RunStart(tokens, t, fuel);
    while steps > 0
      invariant Good(t, c)
      invariant Run(t, lastTokenPosition, c, steps) == ParseSpec(tokens, t, fuel)
      decreases steps
    {
      var turn := Turn(t, lastTokenPosition, c);
      RunTurn(t, lastTokenPosition, c, steps);
      match turn
      case Failed(e) =>
        return Finished(Err(e));
      case Accepted(_) =>
        if |c.buffer| != 1 {
          return Finished(Err(ParseError(None, "May be internal error. reduce_buffer.len() is not 1.", InternalError)));
        }
        if c.buffer[0].TokenEntry? {
          return Panicked;
        }
        var node := UnsetInternalSymbolId(c.buffer[0].node);
        return Finished(Ok(node));
      case Continue(next) =>
        c := next;
      steps := steps - 1;
    }
    r := OutOfFuel;
  }

  // ---------------------------------------------------------------- properties of a run

  /**
   * A run started in a good configuration either runs out of fuel, panics, fails with
   * InvalidSyntax or InternalError, or returns a tree with every internal id unset and no
   * synthetic node below its root.
   */
  lemma {:induction false} RunResult(t: Tables, lastTokenPosition: TokenPosition, c: Config, fuel: nat)
    requires WellFormed(t) && Good(t, c)
    ensures var r := Run(t, lastTokenPosition, c, fuel);
      && (r.Finished? && r.result.Ok? ==> Cleared(r.result.value) && Tidy(r.result.value))
      && (r.Finished? && r.result.Err? ==> r.result.error.errorType != UnexpectedToken)
    decreases fuel
  {
    if fuel > 0 {
      match Step(t, lastTokenPosition, c)
      case Failed(e) =>
      case Accepted(config) =>
        if |config.buffer| == 1 && config.buffer[0].NodeEntry? {
          assert EntryOk(config.buffer[0]);
          SameTreeTidy(config.buffer[0].node, ClearIds(config.buffer[0].node));
        }
      case Continue(next) => RunResult(t, lastTokenPosition, next, fuel - 1);
    }
  }

  /**
   * What __parse returns: a lexer error becomes UnexpectedToken at the lexer's position; any
   * other error is InvalidSyntax or InternalError; a tree has no internal id and no synthetic
   * node below its root.
   */
  lemma ParseResult(tokens: Result<seq<Token>, UnexpectedCharacter>, t: Tables, fuel: nat)
    requires WellFormed(t) && (tokens.Ok? ==> TokensFit(t, tokens.value))
    ensures var r := ParseSpec(tokens, t, fuel);
      && (tokens.Err? ==> r == Finished(Err(ParseError(Some(tokens.error.position), "Unexpected token(Lexer).", UnexpectedToken))))
      && (tokens.Ok? && r.Finished? && r.result.Err? ==> r.result.error.errorType != UnexpectedToken)
      && (r.Finished? && r.result.Ok? ==> Cleared(r.result.value) && Tidy(r.result.value))
  {
    if tokens.Ok? {
      RunResult(t, LastTokenPosition(tokens.value), Config([0], [], tokens.value), fuel);
    }
  }

  /**
   * One turn from a good configuration: with no token left the run fails; a None cell fails with
   * InvalidSyntax at the next token; Shift moves exactly the next token onto the buffer and pushes
   * the target state.
   */
  lemma StepCases(t: Tables, lastTokenPosition: TokenPosition, c: Config)
    requires WellFormed(t) && Good(t, c)
    ensures c.tokens == [] ==> Step(t, lastTokenPosition, c).Failed?
    ensures c.tokens != [] ==>
      var op := t.lrTable[c.stack[|c.stack| - 1]][c.tokens[0].symbolId];
      var r := Step(t, lastTokenPosition, c);
      && (op.0 == OPERATION_NONE ==>
            r == Failed(ParseError(Some(c.tokens[0].position), "Invalid operation.", InvalidSyntax)))
      && (op.0 == OPERATION_SHIFT ==>
            && r.Continue? && r.next.tokens == c.tokens[1..] && [c.tokens[0]] + r.next.tokens == c.tokens
            && r.next.buffer == c.buffer + [TokenEntry(c.tokens[0])] && r.next.stack == c.stack + [op.1])
      && (op.0 == OPERATION_REDUCE ==> r.Continue? || (r.Failed? && r.error.errorType == InvalidSyntax))
      && (op.0 == OPERATION_ACCEPT <==> r.Accepted?)
  {
  }

  /**
   * A reduced node's position: for an empty rule the next token's offset with length 0; for
   * children whose positions are chained, with no non-empty child after the first at the first
   * child's offset, it starts at the first child and covers every child.
   */
  lemma ReducedPositionCovers(children: seq<Entry>, tokens: seq<Token>, lastTokenPosition: TokenPosition)
    requires Chained(Positions(children)) && NoneAtFirstOffset(Positions(children))
    ensures children == [] && tokens != [] ==>
      ReducedPosition(children, tokens, lastTokenPosition)
        == TokenPosition(tokens[0].position.startPosition, 0, tokens[0].position.line, tokens[0].position.column)
    ensures children != [] ==>
      var p := ReducedPosition(children, tokens, lastTokenPosition);
      && p.startPosition == EntryPosition(children[0]).startPosition
      && (forall i | 0 <= i < |children| && EntryPosition(children[i]).textLength > 0 ::
            EntryPosition(children[i]).startPosition + EntryPosition(children[i]).textLength
              <= p.startPosition + p.textLength)
  {
    if children != [] {
      MergeAllCovers(Positions(children));
    }
  }
}
