/**
 * The grammar vocabulary shared by the front-end, the analysis and the table builder:
 * BNF symbols, rules, single-alternative rules and table operations
 * (bnf_rules_parser/src/lib.rs).
 */
module Grammar {
  import opened Wrappers

  /** A symbol of an alternative. `Null` is the empty word, `EOF` the end of input. */
  datatype BNFSymbol =
    | NonTerminalSymbolName(name: string)
    | TerminalSymbolString(text: string)
    | TerminalSymbolFunction(spec: string)
    | Null
    | EOF

  /** BNFSymbol::is_terminal_symbol: everything except a non-terminal reference. */
  predicate IsTerminalSymbol(s: BNFSymbol) {
    !s.NonTerminalSymbolName?
  }

  /** The kinds of symbol a FIRST set may hold. */
  predicate IsFirstKind(s: BNFSymbol) {
    s.TerminalSymbolString? || s.TerminalSymbolFunction? || s.EOF?
  }

  /** One non-terminal and its alternatives, with the analysis results. */
  datatype BNFRule = BNFRule(
    nonTerminalSymbolName: string,
    orPatterns: seq<seq<BNFSymbol>>,
    firstSet: set<BNFSymbol>,
    isNullable: bool)

  /** BNFRule::new: a rule with no alternatives yet. */
  function NewRule(name: string): BNFRule {
    BNFRule(name, [], {}, false)
  }

  /** Names generated for desugared groups begin with a space; user names are identifiers. */
  predicate IsSynthetic(name: string) {
    |name| > 0 && name[0] == ' '
  }

  /** The name of the augmented start rule ` source ::= source`. */
  const SOURCE_RULE_NAME: string := " source"
  const USER_START_NAME: string := "source"

  /** The symbols of `p` that are not in `drop`, in order. */
  function Without(p: seq<BNFSymbol>, drop: set<BNFSymbol>): seq<BNFSymbol> {
    if p == [] then []
    else (if p[0] in drop then [] else [p[0]]) + Without(p[1..], drop)
  }

  lemma {:induction false} WithoutAppend(p: seq<BNFSymbol>, x: BNFSymbol, drop: set<BNFSymbol>)
    ensures Without(p + [x], drop) == Without(p, drop) + (if x in drop then [] else [x])
  {
    if p == [] {
      assert [x][1..] == [];
    } else {
      assert (p + [x])[1..] == p[1..] + [x];
      WithoutAppend(p[1..], x, drop);
    }
  }

  /** What `Without` keeps: exactly the symbols outside `drop`, and nothing is invented. */
  lemma {:induction false} WithoutContents(p: seq<BNFSymbol>, drop: set<BNFSymbol>)
    ensures forall s :: s in Without(p, drop) <==> s in p && s !in drop
    ensures |Without(p, drop)| <= |p|
    ensures (forall i :: 0 <= i < |p| ==> p[i] !in drop) ==> Without(p, drop) == p
  {
    if p != [] {
      WithoutContents(p[1..], drop);
      assert forall s :: s in p <==> s == p[0] || s in p[1..];
    }
  }

  /** Stripping twice is stripping once. */
  lemma {:induction false} WithoutIdempotent(p: seq<BNFSymbol>, drop: set<BNFSymbol>)
    ensures Without(Without(p, drop), drop) == Without(p, drop)
  {
    WithoutContents(p, drop);
    var q := Without(p, drop);
    forall i | 0 <= i < |q| ensures q[i] !in drop {
      assert q[i] in q;
    }
    WithoutContents(q, drop);
  }

  /** An alternative with its `Null` markers removed, under the name of its rule. */
  datatype SinglePatternRule = SinglePatternRule(rootSymbolName: string, pattern: seq<BNFSymbol>)

  /** SinglePatternRule::new: keeps every symbol of `pattern` except `Null`, in order. */
  method NewSinglePatternRule(root: string, pattern: seq<BNFSymbol>) returns (r: SinglePatternRule)
    ensures r.rootSymbolName == root
    ensures r.pattern == Without(pattern, {Null})
    ensures Null !in r.pattern
  {
    var newPattern: seq<BNFSymbol> := [];
    var i := 0;
    while i < |pattern|
      invariant 0 <= i <= |pattern|
      invariant newPattern == Without(pattern[..i], {Null})
    {
      WithoutAppend(pattern[..i], pattern[i], {Null});
      assert pattern[..i + 1] == pattern[..i] + [pattern[i]];
      if pattern[i] != Null {
        newPattern := newPattern + [pattern[i]];
      }
      i := i + 1;
    }
    assert pattern[..i] == pattern;
    WithoutContents(pattern, {Null});
    r := SinglePatternRule(root, newPattern);
  }

  /** One cell of the LR table. */
  datatype Operation = Shift(target: nat) | Reduce(rule: nat) | GoTo(target: nat) | Accept

  const OPERATION_NONE: nat := 0
  const OPERATION_SHIFT: nat := 1
  const OPERATION_REDUCE: nat := 2
  const OPERATION_GOTO: nat := 3
  const OPERATION_ACCEPT: nat := 4

  /** Operation::to_tuple. */
  function ToTuple(op: Operation): (t: (nat, nat))
    ensures t.0 != OPERATION_NONE && t.0 <= OPERATION_ACCEPT
    ensures op.Accept? <==> t == (OPERATION_ACCEPT, 0)
  {
    match op
    case Shift(i) => (OPERATION_SHIFT, i)
    case Reduce(i) => (OPERATION_REDUCE, i)
    case GoTo(i) => (OPERATION_GOTO, i)
    case Accept => (OPERATION_ACCEPT, 0)
  }

  /** The cell encoding of the generated table: an empty cell is (0, 0). */
  function EncodeCell(cell: Option<Operation>): (nat, nat) {
    match cell
    case None => (OPERATION_NONE, 0)
    case Some(op) => ToTuple(op)
  }

  /** How the runtime reads a code back (parser.rs dispatches on the first component). */
  function DecodeCell(t: (nat, nat)): Option<Operation> {
    if t.0 == OPERATION_SHIFT then Some(Shift(t.1))
    else if t.0 == OPERATION_REDUCE then Some(Reduce(t.1))
    else if t.0 == OPERATION_GOTO then Some(GoTo(t.1))
    else if t.0 == OPERATION_ACCEPT then Some(Accept)
    else None
  }

  /** The encodings of distinct cells are distinct, and the runtime decodes each back. */
  lemma EncodeCellRoundTrip(c: Option<Operation>, d: Option<Operation>)
    ensures DecodeCell(EncodeCell(c)) == c
    ensures c != d ==> EncodeCell(c) != EncodeCell(d)
    ensures c.None? <==> EncodeCell(c) == (OPERATION_NONE, 0)
  {
    assert DecodeCell(EncodeCell(d)) == d;
  }
}
