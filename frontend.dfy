/**
 * The grammar front end of bnf_rules_parser/src/lib.rs: `parse_rules` splits a flat token
 * sequence into `Name ::= alternatives` rules and `parse_rule` turns one rule body into its
 * alternatives, desugaring `( )`, `{ }` and `[ ]` groups into rules whose names begin with a
 * space and merging desugared rules with identical alternatives.
 */
module FrontEnd {
  import opened Wrappers
  import opened Grammar
  import opened SymbolNames

  // ---------------------------------------------------------------- input tokens

  datatype Delimiter = Parenthesis | Brace | Bracket | NoDelimiter

  /**
   * The host token trees: an identifier, one punctuation character, a delimited group (its
   * tokens and its rendered text), or a literal (its rendered text and its decoded string value,
   * None when it is not a valid string literal).
   */
  datatype TokenTree =
    | Ident(name: string)
    | Punct(ch: char)
    | Group(delimiter: Delimiter, stream: seq<TokenTree>, text: string)
    | Literal(text: string, value: Option<string>)

  /** The error of the front end; the source span it carries is not modelled. */
  datatype FrontError = FrontError(message: string)

  /** A size that every group exceeds its own tokens by; it bounds the recursion into groups. */
  function Size(ts: seq<TokenTree>): nat {
    if ts == [] then 0 else TreeSize(ts[0]) + Size(ts[1..])
  }

  function TreeSize(t: TokenTree): nat {
    match t
    case Group(_, stream, _) => 1 + Size(stream)
    case _ => 1
  }

  lemma SizeStep(ts: seq<TokenTree>, i: nat)
    requires i < |ts|
    ensures Size(ts[i..]) == TreeSize(ts[i]) + Size(ts[i + 1..]) > Size(ts[i + 1..])
  {
    assert ts[i..][0] == ts[i] && ts[i..][1..] == ts[i + 1..];
  }

  lemma {:induction false} SizeAt(ts: seq<TokenTree>, i: nat)
    requires i < |ts|
    ensures TreeSize(ts[i]) <= Size(ts)
  {
    if i > 0 {
      SizeAt(ts[1..], i - 1);
      assert ts[1..][i - 1] == ts[i];
    }
  }

  // ---------------------------------------------------------------- parse_rule

  /** The state `parse_rule` updates in place: `rule_map`, `unnamed_pattern_map` and the counter of names. */
  datatype FrontState = FrontState(
    ruleMap: map<string, BNFRule>,
    unnamed: map<seq<seq<BNFSymbol>>, string>,
    number: nat)

  /** The rule `{ body }` stands for: `name ::= Null | body name`. */
  function RepeatRule(name: string, body: string): BNFRule {
    BNFRule(name, [[Null], [NonTerminalSymbolName(body), NonTerminalSymbolName(name)]], {}, false)
  }

  /** The rule `[ body ]` stands for: `name ::= body | Null`. */
  function OptionalRule(name: string, body: string): BNFRule {
    BNFRule(name, [[NonTerminalSymbolName(body)], [Null]], {}, false)
  }

  /**
   * The end of `parse_rule`: a rule with a space-prefixed name whose alternatives are already
   * known is not inserted and its name becomes the earlier one; any other rule is inserted,
   * replacing a rule of that name.
   */
  function Register(st: FrontState, name: string, orPatterns: seq<seq<BNFSymbol>>): (r: (FrontState, string))
    ensures r.0.number == st.number
    ensures IsSynthetic(name) && orPatterns in st.unnamed ==> r == (st, st.unnamed[orPatterns])
    ensures !(IsSynthetic(name) && orPatterns in st.unnamed) ==>
              && r.1 == name && r.0.ruleMap == st.ruleMap[name := BNFRule(name, orPatterns, {}, false)]
              && r.0.unnamed == (if IsSynthetic(name) then st.unnamed[orPatterns := name] else st.unnamed)
  {
    var rule := BNFRule(name, orPatterns, {}, false);
    if IsSynthetic(name) then
      if orPatterns in st.unnamed then (st, st.unnamed[orPatterns])
      else (FrontState(st.ruleMap[name := rule], st.unnamed[orPatterns := name], st.number), name)
    else (st.(ruleMap := st.ruleMap[name := rule]), name)
  }

  /**
   * parse_rule on the rule `name` with body `tokens`: its alternatives, then registration.
   * Yields the new state and the name the rule is known by.
   */
  function ParseRuleSpec(st: FrontState, name: string, tokens: seq<TokenTree>): Result<(FrontState, string), FrontError>
    decreases Size(tokens), 1
  {
    assert tokens[0..] == tokens;
    match Alternatives(st, tokens, 0, [], [])
    case Err(e) => Err(e)
    case Ok((st2, orPatterns)) => Ok(Register(st2, name, orPatterns))
  }

  /** The symbol a string literal stands for: a function terminal for a raw literal, else a string terminal. */
  function LiteralSymbol(text: string, value: string): BNFSymbol {
    if |text| > 0 && text[0] == 'r' then TerminalSymbolFunction(value) else TerminalSymbolString(value)
  }

  /**
   * The loop of parse_rule from `index`, with the alternative being built (`pattern`) and those
   * already closed (`orPatterns`).
   */
  function Alternatives(st: FrontState, tokens: seq<TokenTree>, index: nat, pattern: seq<BNFSymbol>,
                        orPatterns: seq<seq<BNFSymbol>>): Result<(FrontState, seq<seq<BNFSymbol>>), FrontError>
    requires index <= |tokens|
    decreases Size(tokens[index..]), 0
  {
    if index == |tokens| then Ok((st, if pattern != [] then orPatterns + [pattern] else orPatterns))
    else
      SizeStep(tokens, index);
      match tokens[index]
      case Punct(c) =>
        if c != '|' then Err(FrontError("Invalid punctuation."))
        else Alternatives(st, tokens, index + 1, [], orPatterns + [if pattern == [] then [Null] else pattern])
      case Ident(s) =>
        if s != "fn" then Alternatives(st, tokens, index + 1, pattern + [NonTerminalSymbolName(s)], orPatterns)
        else if index + 1 >= |tokens| then Err(FrontError("A function must be specified."))
        else
          SizeStep(tokens, index + 1);
          (match tokens[index + 1]
           case Group(delimiter, _, text) =>
             if delimiter != Parenthesis then Err(FrontError("Invalid delimiter."))
             else if |text| <= 2 then Err(FrontError("A function must be specified."))
             else Alternatives(st, tokens, index + 2, pattern + [TerminalSymbolFunction(text[1..|text| - 1])], orPatterns)
           case _ => Err(FrontError("A function must be specified.")))
      case Group(delimiter, stream, _) =>
        var n1 := st.number + 1;
        var newName := SymbolName(n1);
        if delimiter == Parenthesis then
          (match ParseRuleSpec(st.(number := n1), newName, stream)
           case Err(e) => Err(e)
           case Ok((st2, resolved)) =>
             Alternatives(st2, tokens, index + 1, pattern + [NonTerminalSymbolName(resolved)], orPatterns))
        else if delimiter == Brace || delimiter == Bracket then
          var n2 := n1 + 1;
          (match ParseRuleSpec(st.(number := n2), SymbolName(n2), stream)
           case Err(e) => Err(e)
           case Ok((st2, body)) =>
             var wrapper := if delimiter == Brace then RepeatRule(newName, body) else OptionalRule(newName, body);
             Alternatives(st2.(ruleMap := st2.ruleMap[newName := wrapper]), tokens, index + 1,
                          pattern + [NonTerminalSymbolName(newName)], orPatterns))
        else Err(FrontError("Invalid delimiter."))
      case Literal(text, value) =>
        match value
        case None => Err(FrontError("Invalid terminal symbol."))
        case Some(s) => Alternatives(st, tokens, index + 1, pattern + [LiteralSymbol(text, s)], orPatterns)
  }

  /**
   * parse_rule. The maps are passed in and returned; the counter is the shared object. The
   * returned name is the one the rule is known by (the `&mut String` argument after the call).
   */
  method ParseRule(ruleMap: map<string, BNFRule>, name: string, tokens: seq<TokenTree>,
                   counter: NonDuplicateNumber, unnamed: map<seq<seq<BNFSymbol>>, string>)
      returns (r: Result<(FrontState, string), FrontError>)
    modifies counter
    ensures r == ParseRuleSpec(FrontState(ruleMap, unnamed, old(counter.number)), name, tokens)
    ensures r.Ok? ==> counter.number == r.value.0.number
    decreases Size(tokens)
  {
    ghost var start := FrontState(ruleMap, unnamed, counter.number);
    assert tokens[0..] == tokens;
    var rules := ruleMap;
    var unnamedPatterns := unnamed;
    var pattern: seq<BNFSymbol> := [];
    var orPatterns: seq<seq<BNFSymbol>> := [];
    var index := 0;
    while index < |tokens|
      invariant index <= |tokens|
      invariant Alternatives(FrontState(rules, unnamedPatterns, counter.number), tokens, index, pattern, orPatterns)
             == Alternatives(start, tokens, 0, [], [])
      decreases |tokens| - index
    {
      var st := FrontState(rules, unnamedPatterns, counter.number);
      SizeStep(tokens, index);
      SizeAt(tokens, index);
      match tokens[index] {
        case Punct(c) =>
          if c != '|' {
            return Err(FrontError("Invalid punctuation."));
          }
          if pattern == [] {
            pattern := [Null];
          }
          orPatterns := orPatterns + [pattern];
          pattern := [];
        case Ident(s) =>
          if s == "fn" {
            var nextIndex := index + 1;
            if nextIndex >= |tokens| {
              return Err(FrontError("A function must be specified."));
            }
            match tokens[nextIndex] {
              case Group(delimiter, _, text) =>
                if delimiter != Parenthesis {
                  return Err(FrontError("Invalid delimiter."));
                }
                if |text| <= 2 {
                  return Err(FrontError("A function must be specified."));
                }
                pattern := pattern + [TerminalSymbolFunction(text[1..|text| - 1])];
                index := nextIndex;
              case _ =>
                return Err(FrontError("A function must be specified."));
            }
          } else {
            pattern := pattern + [NonTerminalSymbolName(s)];
          }
        case Group(delimiter, stream, _) =>
          var newSymbolName := counter.AsSymbolName();
          if delimiter == Parenthesis {
            var inner := ParseRule(rules, newSymbolName, stream, counter, unnamedPatterns);
            if inner.Err? {
              return Err(inner.error);
            }
            rules, unnamedPatterns := inner.value.0.ruleMap, inner.value.0.unnamed;
            newSymbolName := inner.value.1;
          } else if delimiter == Brace || delimiter == Bracket {
            var newPatternName := counter.AsSymbolName();
            var inner := ParseRule(rules, newPatternName, stream, counter, unnamedPatterns);
            if inner.Err? {
              return Err(inner.error);
            }
            rules, unnamedPatterns := inner.value.0.ruleMap, inner.value.0.unnamed;
            newPatternName := inner.value.1;
            var wrapper := if delimiter == Brace then RepeatRule(newSymbolName, newPatternName)
                           else OptionalRule(newSymbolName, newPatternName);
            rules := rules[wrapper.nonTerminalSymbolName := wrapper];
          } else {
            return Err(FrontError("Invalid delimiter."));
          }
          pattern := pattern + [NonTerminalSymbolName(newSymbolName)];
        case Literal(text, value) =>
          if value.None? {
            return Err(FrontError("Invalid terminal symbol."));
          }
          pattern := pattern + [LiteralSymbol(text, value.value)];
      }
      index := index + 1;
    }
    if pattern != [] {
      orPatterns := orPatterns + [pattern];
    }
    var rule := BNFRule(name, orPatterns, {}, false);
    var st := FrontState(rules, unnamedPatterns, counter.number);
    if IsSynthetic(name) {
      if orPatterns in unnamedPatterns {
        return Ok((st, unnamedPatterns[orPatterns]));
      }
      unnamedPatterns := unnamedPatterns[orPatterns := name];
      rules := rules[name := rule];
    } else {
      rules := rules[name := rule];
    }
    r := Ok((FrontState(rules, unnamedPatterns, counter.number), name));
  }

  // ---------------------------------------------------------------- parse_rules

  /** next: advance the index; past the last token it is an error. */
  function Next(tokens: seq<TokenTree>, i: nat): (r: (Result<TokenTree, FrontError>, nat))
    requires i < |tokens|
    ensures r.1 == i + 1
    ensures r.0.Ok? <==> i + 1 < |tokens|
    ensures r.0.Ok? ==> r.0.value == tokens[i + 1]
  {
    if i + 1 == |tokens| then (Err(FrontError("Unexpected EOF.")), i + 1) else (Ok(tokens[i + 1]), i + 1)
  }

  /** check_next_punct: the next token must be the punctuation `c`. */
  function CheckNextPunct(tokens: seq<TokenTree>, i: nat, c: char): (r: (Result<(), FrontError>, nat))
    requires i < |tokens|
    ensures r.1 == i + 1
    ensures r.0.Ok? <==> i + 1 < |tokens| && tokens[i + 1] == Punct(c)
  {
    match Next(tokens, i)
    case (Err(e), j) => (Err(e), j)
    case (Ok(token), j) =>
      if token.Punct? && token.ch == c then (Ok(()), j) else (Err(FrontError("Invalid syntax.")), j)
  }

  /** The punctuation `cs` after index `i`, then one more token: the index of that token. */
  function ExpectPuncts(tokens: seq<TokenTree>, i: nat, cs: seq<char>): (r: Result<nat, FrontError>)
    requires i < |tokens|
    ensures r.Ok? ==> r.value == i + |cs| + 1 < |tokens|
    ensures r.Ok? <==> i + |cs| + 1 < |tokens| && forall k | 0 <= k < |cs| :: tokens[i + 1 + k] == Punct(cs[k])
    decreases |cs|
  {
    if cs == [] then
      if i + 1 < |tokens| then Ok(i + 1) else Err(FrontError("Unexpected EOF."))
    else
      match CheckNextPunct(tokens, i, cs[0])
      case (Err(e), _) => Err(e)
      case (Ok(_), j) =>
        var r := ExpectPuncts(tokens, j, cs[1..]);
        assert r.Ok? <==> i + |cs| + 1 < |tokens| && forall k | 0 <= k < |cs| :: tokens[i + 1 + k] == Punct(cs[k]) by {
          assert forall k | 1 <= k < |cs| :: cs[k] == cs[1..][k - 1];
        }
        r
  }

  /** The first index from `i` whose next token is `:`, the name of the following rule. */
  function HeaderAfter(tokens: seq<TokenTree>, i: nat): (r: Option<nat>)
    requires i < |tokens|
    ensures r.Some? ==> && i <= r.value && r.value + 1 < |tokens| && tokens[r.value + 1] == Punct(':')
                        && forall k | i < k <= r.value :: tokens[k] != Punct(':')
    ensures r.None? ==> forall k | i < k < |tokens| :: tokens[k] != Punct(':')
    decreases |tokens| - i
  {
    if i + 1 == |tokens| then None
    else if tokens[i + 1] == Punct(':') then Some(i)
    else HeaderAfter(tokens, i + 1)
  }

  const INITIAL_STATE: FrontState := FrontState(map[], map[], 0)

  /**
   * What parse_rules computes: a rule named by an identifier followed by `::=`, whose body runs
   * up to the identifier of the next `Name ::=` header or to the end of the tokens, each body
   * given to parse_rule in order on one shared state.
   */
  function ParseRulesSpec(tokens: seq<TokenTree>): Result<FrontState, FrontError>
    requires |tokens| > 0
  {
    if !tokens[0].Ident? then Err(FrontError("Invalid non terminal symbol name."))
    else
      match ExpectPuncts(tokens, 0, "::=")
      case Err(e) => Err(e)
      case Ok(start) => RulesFrom(tokens, start, tokens[0].name, INITIAL_STATE)
  }

  /** The rules from the body starting at `start`, which belongs to the rule `name`. */
  function RulesFrom(tokens: seq<TokenTree>, start: nat, name: string, st: FrontState): Result<FrontState, FrontError>
    requires start < |tokens|
    decreases |tokens| - start
  {
    match HeaderAfter(tokens, start)
    case None =>
      (match ParseRuleSpec(st, name, tokens[start..])
       case Err(e) => Err(e)
       case Ok((st2, _)) => Ok(st2))
    case Some(j) =>
      match ParseRuleSpec(st, name, tokens[start..j])
      case Err(e) => Err(e)
      case Ok((st2, _)) =>
        if !tokens[j].Ident? then Err(FrontError("Invalid non terminal symbol name."))
        else
          match ExpectPuncts(tokens, j + 1, ":=")
          case Err(e) => Err(e)
          case Ok(next) => RulesFrom(tokens, next, tokens[j].name, st2)
  }

  function RuleMapOf(r: Result<FrontState, FrontError>): Result<map<string, BNFRule>, FrontError> {
    match r
    case Err(e) => Err(e)
    case Ok(st) => Ok(st.ruleMap)
  }

  /** The `:=` that ends a rule header after its first `:`, then the first token of the body. */
  method ExpectAssignment(tokens: seq<TokenTree>, i: nat) returns (r: Result<nat, FrontError>)
    requires i < |tokens|
    ensures r == ExpectPuncts(tokens, i, ":=")
  {
    var check := CheckNextPunct(tokens, i, ':');
    if check.0.Err? { return Err(check.0.error); }
    check := CheckNextPunct(tokens, check.1, '=');
    if check.0.Err? { return Err(check.0.error); }
    var next := Next(tokens, check.1);
    if next.0.Err? { return Err(next.0.error); }
    assert ":="[1..] == "=" && "="[1..] == "";
    r := Ok(next.1);
  }

  /** parse_rules; an empty token sequence is out of its domain (it indexes the first token). */
  method ParseRules(tokens: seq<TokenTree>) returns (r: Result<map<string, BNFRule>, FrontError>)
    requires |tokens| > 0
    ensures r == RuleMapOf(ParseRulesSpec(tokens))
  {
    var counter := new NonDuplicateNumber();
    var ruleMap: map<string, BNFRule> := map[];
    var unnamedPatternMap: map<seq<seq<BNFSymbol>>, string> := map[];
    var token := tokens[0];
    if !token.Ident? {
      return Err(FrontError("Invalid non terminal symbol name."));
    }
    var name := token.name;
    var first := CheckNextPunct(tokens, 0, ':');
    if first.0.Err? { return Err(first.0.error); }
    var body := ExpectAssignment(tokens, first.1);
    if body.Err? { return Err(body.error); }
    var i: nat := body.value;
    token := tokens[i];
    var bufferedTokens: seq<TokenTree> := [];
    ghost var start: nat := i;
    while i + 1 != |tokens|
      invariant start <= i < |tokens| && token == tokens[i]
      invariant bufferedTokens == tokens[start..i]
      invariant HeaderAfter(tokens, start) == HeaderAfter(tokens, i)
      invariant RulesFrom(tokens, start, name, FrontState(ruleMap, unnamedPatternMap, counter.number))
             == ParseRulesSpec(tokens)
      decreases |tokens| - i
    {
      var peek := CheckNextPunct(tokens, i, ':');
      if peek.0.Ok? {
        var step := NextRule(tokens, start, i, bufferedTokens, name, ruleMap, unnamedPatternMap, counter);
        if step.Err? {
          return Err(step.error);
        }
        var st := step.value.0;
        assert st == FrontState(st.ruleMap, st.unnamed, counter.number);
        ruleMap, unnamedPatternMap, name, i := st.ruleMap, st.unnamed, step.value.1, step.value.2;
        start := i;
        bufferedTokens := [];
      } else {
        BufferStep(tokens, start, i);
        bufferedTokens := bufferedTokens + [token];
        i := peek.1;
      }
      token := tokens[i];
    }
    BufferDone(tokens, start, i);
    bufferedTokens := bufferedTokens + [token];
    var parsed := ParseRule(ruleMap, name, bufferedTokens, counter, unnamedPatternMap);
    if parsed.Err? {
      return Err(parsed.error);
    }
    r := Ok(parsed.value.0.ruleMap);
  }

  /** A token not followed by `:` joins the buffered body. */
  lemma BufferStep(tokens: seq<TokenTree>, start: nat, i: nat)
    requires start <= i && i + 1 < |tokens| && tokens[i + 1] != Punct(':')
    ensures tokens[start..i + 1] == tokens[start..i] + [tokens[i]]
    ensures HeaderAfter(tokens, i) == HeaderAfter(tokens, i + 1)
  {
  }

  /** The last token ends the body of the last rule. */
  lemma BufferDone(tokens: seq<TokenTree>, start: nat, i: nat)
    requires start <= i && i + 1 == |tokens|
    ensures tokens[start..i] + [tokens[i]] == tokens[start..]
    ensures HeaderAfter(tokens, i) == None
  {
  }

  /**
   * The branch of parse_rules at a header `Name ::=` whose name is at `i`: the buffered body
   * goes to parse_rule, then the new rule's name and the index of its first body token.
   */
  method NextRule(tokens: seq<TokenTree>, ghost start: nat, i: nat, bufferedTokens: seq<TokenTree>, name: string,
                  ruleMap: map<string, BNFRule>, unnamed: map<seq<seq<BNFSymbol>>, string>, counter: NonDuplicateNumber)
      returns (r: Result<(FrontState, string, nat), FrontError>)
    requires start <= i < |tokens| && HeaderAfter(tokens, start) == Some(i) && bufferedTokens == tokens[start..i]
    modifies counter
    ensures r.Ok? ==> i < r.value.2 < |tokens| && r.value.0.number == counter.number
    ensures r.Ok? ==>
              RulesFrom(tokens, start, name, FrontState(ruleMap, unnamed, old(counter.number)))
              == RulesFrom(tokens, r.value.2, r.value.1, r.value.0)
    ensures r.Err? ==> RulesFrom(tokens, start, name, FrontState(ruleMap, unnamed, old(counter.number))) == Err(r.error)
  {
    var parsed := ParseRule(ruleMap, name, bufferedTokens, counter, unnamed);
    if parsed.Err? {
      return Err(parsed.error);
    }
    var token := tokens[i];
    if !token.Ident? {
      return Err(FrontError("Invalid non terminal symbol name."));
    }
    var body := ExpectAssignment(tokens, i + 1);
    if body.Err? {
      return Err(body.error);
    }
    r := Ok((parsed.value.0, token.name, body.value));
  }

  // ---------------------------------------------------------------- what the front end keeps true

  /** Symbols a user can write in an alternative: neither the empty symbol nor end of input. */
  ghost predicate RealSymbols(p: seq<BNFSymbol>) {
    forall i | 0 <= i < |p| :: p[i] != Null && p[i] != EOF
  }

  /** Every alternative is `[Null]` (an empty alternative) or a non-empty run of real symbols. */
  ghost predicate Shaped(ps: seq<seq<BNFSymbol>>) {
    forall i | 0 <= i < |ps| :: ps[i] == [Null] || (ps[i] != [] && RealSymbols(ps[i]))
  }

  /**
   * What `parse_rule` keeps true of its state: every rule is stored under its own name with
   * well-shaped alternatives and no lookahead data yet; every remembered list of alternatives
   * names a space-prefixed rule with exactly those alternatives; and no name the counter has
   * not yet reached is taken.
   */
  ghost predicate Inv(st: FrontState) {
    && (forall n | n in st.ruleMap ::
          && st.ruleMap[n].nonTerminalSymbolName == n && Shaped(st.ruleMap[n].orPatterns)
          && st.ruleMap[n].firstSet == {} && !st.ruleMap[n].isNullable)
    && (forall ps | ps in st.unnamed ::
          IsSynthetic(st.unnamed[ps]) && st.unnamed[ps] in st.ruleMap && st.ruleMap[st.unnamed[ps]].orPatterns == ps)
    && (forall j: nat | j > st.number :: SymbolName(j) !in st.ruleMap)
  }

  /**
   * The state only grows from `st` to `st2`: the counter does not go back, no rule disappears,
   * and the only new rules are those of `names` and space-prefixed rules with numbers the
   * counter had not yet reached.
   */
  ghost predicate Grows(st: FrontState, st2: FrontState, names: set<string>) {
    && st.number <= st2.number
    && (forall k | k in st.ruleMap :: k in st2.ruleMap)
    && (forall k | k in st2.ruleMap && !IsSynthetic(k) :: k in st.ruleMap || k in names)
    && (forall j: nat | j <= st.number && SymbolName(j) in st2.ruleMap ::
          SymbolName(j) in st.ruleMap || SymbolName(j) in names)
  }

  /** A successful loop of parse_rule from `st` ends in a state keeping Inv, grown from `st`, with well-shaped alternatives. */
  ghost predicate Extends(st: FrontState, r: Result<(FrontState, seq<seq<BNFSymbol>>), FrontError>) {
    match r
    case Err(_) => true
    case Ok((st2, ps)) => Inv(st2) && Grows(st, st2, {}) && Shaped(ps)
  }

  /** What extends a state grown from `st` extends `st`. */
  lemma ExtendsThrough(st: FrontState, st3: FrontState, r: Result<(FrontState, seq<seq<BNFSymbol>>), FrontError>)
    requires Grows(st, st3, {}) && Extends(st3, r)
    ensures Extends(st, r)
  {
    if r.Ok? {
      GrowsTransitive(st, st3, r.value.0, {});
    }
  }

  lemma GrowsTransitive(a: FrontState, b: FrontState, c: FrontState, names: set<string>)
    requires Grows(a, b, {}) && Grows(b, c, names)
    ensures Grows(a, c, names)
  {
  }

  /** A rule parsed under the fresh name numbered `n` adds, seen from before the counter moved, no old name. */
  lemma GrowsPastFresh(st: FrontState, st2: FrontState, n: nat)
    requires st.number < n
    requires Grows(st.(number := n), st2, {SymbolName(n)})
    ensures Grows(st, st2, {})
  {
    forall j: nat | j <= st.number
      ensures SymbolName(j) != SymbolName(n)
    {
      SymbolNameInjective(j, n);
    }
  }

  /**
   * parse_rule keeps Inv, only grows the state, and the name it returns is a rule of the new
   * state with exactly the parsed alternatives: the name given when it is not space-prefixed,
   * else that one or an earlier rule with the same alternatives.
   */
  lemma {:induction false} ParseRuleInv(st: FrontState, name: string, tokens: seq<TokenTree>)
    requires Inv(st)
    requires IsSynthetic(name) ==> name == SymbolName(st.number) && name !in st.ruleMap
    ensures ParseRuleSpec(st, name, tokens).Ok? ==>
              (assert tokens[0..] == tokens;
               var (st2, resolved) := ParseRuleSpec(st, name, tokens).value;
               && Inv(st2) && Grows(st, st2, {name})
               && resolved in st2.ruleMap
               && st2.ruleMap[resolved].orPatterns == Alternatives(st, tokens, 0, [], []).value.1
               && (IsSynthetic(name) <==> IsSynthetic(resolved))
               && (!IsSynthetic(name) ==> resolved == name))
    decreases Size(tokens), 4
  {
    assert tokens[0..] == tokens;
    AlternativesInv(st, tokens, 0, [], []);
    match Alternatives(st, tokens, 0, [], []) {
      case Err(_) =>
      case Ok((st1, ps)) =>
        if IsSynthetic(name) {
          assert name !in st1.ruleMap;
          forall j: nat | j > st1.number
            ensures SymbolName(j) != name
          {
            SymbolNameInjective(j, st.number);
          }
        }
    }
  }

  /** The loop of parse_rule keeps Inv, only grows the state, and closes only well-shaped alternatives. */
  lemma {:induction false} AlternativesInv(st: FrontState, tokens: seq<TokenTree>, index: nat, pattern: seq<BNFSymbol>,
                                           orPatterns: seq<seq<BNFSymbol>>)
    requires index <= |tokens|
    requires Inv(st) && Shaped(orPatterns) && RealSymbols(pattern)
    ensures Extends(st, Alternatives(st, tokens, index, pattern, orPatterns))
    decreases Size(tokens[index..]), 3
  {
    if index < |tokens| {
      SizeStep(tokens, index);
      match tokens[index] {
        case Punct(c) =>
          if c == '|' {
            AlternativesInv(st, tokens, index + 1, [], orPatterns + [if pattern == [] then [Null] else pattern]);
          }
        case Ident(s) =>
          if s != "fn" {
            AlternativesInv(st, tokens, index + 1, pattern + [NonTerminalSymbolName(s)], orPatterns);
          } else if index + 1 < |tokens| {
            SizeStep(tokens, index + 1);
            match tokens[index + 1] {
              case Group(delimiter, _, text) =>
                if delimiter == Parenthesis && |text| > 2 {
                  AlternativesInv(st, tokens, index + 2, pattern + [TerminalSymbolFunction(text[1..|text| - 1])], orPatterns);
                }
              case _ =>
            }
          }
        case Group(delimiter, stream, _) =>
          AlternativesGroupInv(st, tokens, index, pattern, orPatterns);
        case Literal(text, value) =>
          if value.Some? {
            AlternativesInv(st, tokens, index + 1, pattern + [LiteralSymbol(text, value.value)], orPatterns);
          }
      }
    }
  }

  /** AlternativesInv at a group. */
  lemma {:induction false} AlternativesGroupInv(st: FrontState, tokens: seq<TokenTree>, index: nat, pattern: seq<BNFSymbol>,
                                                orPatterns: seq<seq<BNFSymbol>>)
    requires index < |tokens| && tokens[index].Group?
    requires Inv(st) && Shaped(orPatterns) && RealSymbols(pattern)
    ensures Extends(st, Alternatives(st, tokens, index, pattern, orPatterns))
    decreases Size(tokens[index..]), 2
  {
    var delimiter := tokens[index].delimiter;
    if delimiter == Parenthesis {
      AlternativesParenInv(st, tokens, index, pattern, orPatterns);
    } else if delimiter == Brace || delimiter == Bracket {
      AlternativesWrappedInv(st, tokens, index, pattern, orPatterns);
    }
  }

  /** AlternativesInv at a `( )` group. */
  lemma {:induction false} AlternativesParenInv(st: FrontState, tokens: seq<TokenTree>, index: nat, pattern: seq<BNFSymbol>,
                                                orPatterns: seq<seq<BNFSymbol>>)
    requires index < |tokens| && tokens[index].Group? && tokens[index].delimiter == Parenthesis
    requires Inv(st) && Shaped(orPatterns) && RealSymbols(pattern)
    ensures Extends(st, Alternatives(st, tokens, index, pattern, orPatterns))
    decreases Size(tokens[index..]), 1
  {
    SizeStep(tokens, index);
    var stream := tokens[index].stream;
    var n1 := st.number + 1;
    ParseRuleInv(st.(number := n1), SymbolName(n1), stream);
    var inner := ParseRuleSpec(st.(number := n1), SymbolName(n1), stream);
    AlternativesAtParen(st, tokens, index, pattern, orPatterns);
    if inner.Ok? {
      var (st2, resolved) := inner.value;
      GrowsPastFresh(st, st2, n1);
      var rest := Alternatives(st2, tokens, index + 1, pattern + [NonTerminalSymbolName(resolved)], orPatterns);
      AlternativesInv(st2, tokens, index + 1, pattern + [NonTerminalSymbolName(resolved)], orPatterns);
      ExtendsThrough(st, st2, rest);
    }
  }

  /** AlternativesInv at a `{ }` or `[ ]` group. */
  lemma {:induction false} AlternativesWrappedInv(st: FrontState, tokens: seq<TokenTree>, index: nat, pattern: seq<BNFSymbol>,
                                                  orPatterns: seq<seq<BNFSymbol>>)
    requires index < |tokens| && tokens[index].Group?
    requires tokens[index].delimiter == Brace || tokens[index].delimiter == Bracket
    requires Inv(st) && Shaped(orPatterns) && RealSymbols(pattern)
    ensures Extends(st, Alternatives(st, tokens, index, pattern, orPatterns))
    decreases Size(tokens[index..]), 1
  {
    SizeStep(tokens, index);
    var delimiter, stream := tokens[index].delimiter, tokens[index].stream;
    var n1 := st.number + 1;
    var newName := SymbolName(n1);
    WrappedBodyInv(st, delimiter, stream);
    var inner := ParseRuleSpec(st.(number := n1 + 1), SymbolName(n1 + 1), stream);
    AlternativesAtWrapped(st, tokens, index, pattern, orPatterns);
    if inner.Ok? {
      var (st2, body) := inner.value;
      var wrapper := if delimiter == Brace then RepeatRule(newName, body) else OptionalRule(newName, body);
      var st3 := st2.(ruleMap := st2.ruleMap[newName := wrapper]);
      var rest := Alternatives(st3, tokens, index + 1, pattern + [NonTerminalSymbolName(newName)], orPatterns);
      AlternativesInv(st3, tokens, index + 1, pattern + [NonTerminalSymbolName(newName)], orPatterns);
      ExtendsThrough(st, st3, rest);
    }
  }

  /** The body of a `{ }` or `[ ]` group, then the rule the group stands for: Inv holds and the state only grows. */
  lemma WrappedBodyInv(st: FrontState, delimiter: Delimiter, stream: seq<TokenTree>)
    requires Inv(st)
    ensures var n1 := st.number + 1;
            var inner := ParseRuleSpec(st.(number := n1 + 1), SymbolName(n1 + 1), stream);
            inner.Ok? ==>
              var wrapper := if delimiter == Brace then RepeatRule(SymbolName(n1), inner.value.1)
                             else OptionalRule(SymbolName(n1), inner.value.1);
              var st3 := inner.value.0.(ruleMap := inner.value.0.ruleMap[SymbolName(n1) := wrapper]);
              Inv(st3) && Grows(st, st3, {})
    decreases Size(stream), 5
  {
    var n1 := st.number + 1;
    ParseRuleInv(st.(number := n1 + 1), SymbolName(n1 + 1), stream);
    var inner := ParseRuleSpec(st.(number := n1 + 1), SymbolName(n1 + 1), stream);
    if inner.Ok? {
      var wrapper := if delimiter == Brace then RepeatRule(SymbolName(n1), inner.value.1)
                     else OptionalRule(SymbolName(n1), inner.value.1);
      InsertWrapperInv(st, inner.value.0, n1, wrapper);
    }
  }

  /** The step of parse_rule's loop at a `( )` group: the body's error, or the loop going on after the group. */
  lemma AlternativesAtParen(st: FrontState, tokens: seq<TokenTree>, index: nat, pattern: seq<BNFSymbol>,
                            orPatterns: seq<seq<BNFSymbol>>)
    requires index < |tokens| && tokens[index].Group? && tokens[index].delimiter == Parenthesis
    ensures var inner := ParseRuleSpec(st.(number := st.number + 1), SymbolName(st.number + 1), tokens[index].stream);
            && (inner.Err? ==> Alternatives(st, tokens, index, pattern, orPatterns) == Err(inner.error))
            && (inner.Ok? ==>
                  Alternatives(st, tokens, index, pattern, orPatterns)
                  == Alternatives(inner.value.0, tokens, index + 1, pattern + [NonTerminalSymbolName(inner.value.1)], orPatterns))
  {
  }

  /**
   * The step of parse_rule's loop at a punctuation: anything but `|` is an error; `|` closes the
   * alternative being built, an empty one as `[Null]`, and starts an empty one.
   */
  lemma AlternativesAtPunct(st: FrontState, tokens: seq<TokenTree>, index: nat, pattern: seq<BNFSymbol>,
                            orPatterns: seq<seq<BNFSymbol>>)
    requires index < |tokens| && tokens[index].Punct?
    ensures tokens[index].ch != '|' ==>
              Alternatives(st, tokens, index, pattern, orPatterns) == Err(FrontError("Invalid punctuation."))
    ensures tokens[index].ch == '|' && pattern == [] ==>
              Alternatives(st, tokens, index, pattern, orPatterns)
              == Alternatives(st, tokens, index + 1, [], orPatterns + [[Null]])
    ensures tokens[index].ch == '|' && pattern != [] ==>
              Alternatives(st, tokens, index, pattern, orPatterns)
              == Alternatives(st, tokens, index + 1, [], orPatterns + [pattern])
  {
  }

  /** The body `| a`: the empty alternative before `|` becomes `[Null]`, then `a`. */
  lemma EmptyAlternativeIsNull(st: FrontState)
    ensures Alternatives(st, [Punct('|'), Ident("a")], 0, [], [])
            == Ok((st, [[Null], [NonTerminalSymbolName("a")]]))
  {
    var tokens := [Punct('|'), Ident("a")];
    AlternativesAtPunct(st, tokens, 0, [], []);
    var empty: seq<seq<BNFSymbol>> := [];
    assert empty + [[Null]] == [[Null]];
    var none: seq<BNFSymbol> := [];
    assert tokens[1] == Ident("a") && "a" != "fn" && none + [NonTerminalSymbolName("a")] == [NonTerminalSymbolName("a")];
    assert Alternatives(st, tokens, 1, none, [[Null]]) == Alternatives(st, tokens, 2, [NonTerminalSymbolName("a")], [[Null]]);
    assert |tokens| == 2 && [[Null]] + [[NonTerminalSymbolName("a")]] == [[Null], [NonTerminalSymbolName("a")]];
    assert Alternatives(st, tokens, 2, [NonTerminalSymbolName("a")], [[Null]]) == Ok((st, [[Null], [NonTerminalSymbolName("a")]]));
  }

  /** A body starting with a punctuation other than `|`, such as `a ::= ; b`, is an error. */
  lemma InvalidPunctuation(st: FrontState, name: string, tokens: seq<TokenTree>)
    requires tokens != [] && tokens[0].Punct? && tokens[0].ch != '|'
    ensures ParseRuleSpec(st, name, tokens) == Err(FrontError("Invalid punctuation."))
  {
    AlternativesAtPunct(st, tokens, 0, [], []);
  }

  /**
   * The step of parse_rule's loop at a `{ }` or `[ ]` group: the body's error, or the loop going
   * on after the group with the wrapping rule stored under the group's name.
   */
  lemma AlternativesAtWrapped(st: FrontState, tokens: seq<TokenTree>, index: nat, pattern: seq<BNFSymbol>,
                              orPatterns: seq<seq<BNFSymbol>>)
    requires index < |tokens| && tokens[index].Group?
    requires tokens[index].delimiter == Brace || tokens[index].delimiter == Bracket
    ensures var inner := ParseRuleSpec(st.(number := st.number + 2), SymbolName(st.number + 2), tokens[index].stream);
            var newName := SymbolName(st.number + 1);
            && (inner.Err? ==> Alternatives(st, tokens, index, pattern, orPatterns) == Err(inner.error))
            && (inner.Ok? ==>
                  var wrapper := if tokens[index].delimiter == Brace then RepeatRule(newName, inner.value.1)
                                 else OptionalRule(newName, inner.value.1);
                  Alternatives(st, tokens, index, pattern, orPatterns)
                  == Alternatives(inner.value.0.(ruleMap := inner.value.0.ruleMap[newName := wrapper]), tokens, index + 1,
                                  pattern + [NonTerminalSymbolName(newName)], orPatterns))
  {
  }

  /** Inserting the rule that a `{ }` or `[ ]` group stands for under its name, numbered `n1`, keeps Inv. */
  lemma InsertWrapperInv(st: FrontState, st2: FrontState, n1: nat, wrapper: BNFRule)
    requires n1 == st.number + 1
    requires Inv(st) && Inv(st2) && Grows(st.(number := n1 + 1), st2, {SymbolName(n1 + 1)})
    requires wrapper.nonTerminalSymbolName == SymbolName(n1) && Shaped(wrapper.orPatterns)
    requires wrapper.firstSet == {} && !wrapper.isNullable
    ensures var st3 := st2.(ruleMap := st2.ruleMap[SymbolName(n1) := wrapper]);
            Inv(st3) && Grows(st, st3, {})
  {
    var newName := SymbolName(n1);
    GrowsPastFresh(st, st2, n1 + 1);
    SymbolNameInjective(n1, n1 + 1);
    assert newName !in st2.ruleMap;
    forall j: nat | j <= st.number || j > st2.number
      ensures SymbolName(j) != newName
    {
      SymbolNameInjective(j, n1);
    }
  }

  /** Identifiers are host identifiers, which never begin with a space. */
  ghost predicate UserNames(tokens: seq<TokenTree>) {
    forall k | 0 <= k < |tokens| && tokens[k].Ident? :: !IsSynthetic(tokens[k].name)
  }

  /** The identifiers from `start` on that are followed by `:`, the names of rule headers. */
  ghost function HeadersFrom(tokens: seq<TokenTree>, start: nat): set<string> {
    set k | start <= k < |tokens| - 1 && tokens[k].Ident? && tokens[k + 1] == Punct(':') :: tokens[k].name
  }

  /** The rules of a state whose names a user wrote. */
  ghost function UserRules(st: FrontState): set<string> {
    set n | n in st.ruleMap && !IsSynthetic(n)
  }

  lemma GrowsUserRules(st: FrontState, st2: FrontState, name: string)
    requires Grows(st, st2, {name}) && name in st2.ruleMap && !IsSynthetic(name)
    ensures UserRules(st2) == UserRules(st) + {name}
  {
  }

  /** One user rule parsed: Inv holds and the user rules gain exactly its name. */
  lemma UserRuleStep(st: FrontState, name: string, body: seq<TokenTree>, st2: FrontState)
    requires Inv(st) && !IsSynthetic(name)
    requires ParseRuleSpec(st, name, body).Ok? && st2 == ParseRuleSpec(st, name, body).value.0
    ensures Inv(st2) && UserRules(st2) == UserRules(st) + {name}
  {
    ParseRuleInv(st, name, body);
    GrowsUserRules(st, st2, name);
  }

  /** No header after `start`: no header names from there on. */
  lemma HeadersAtEnd(tokens: seq<TokenTree>, start: nat)
    requires start < |tokens| && HeaderAfter(tokens, start).None?
    ensures HeadersFrom(tokens, start) == {}
  {
  }

  /** The next header `Name ::=` at `j`: its name, then the headers after its `::=`. */
  lemma HeadersAtNext(tokens: seq<TokenTree>, start: nat, j: nat)
    requires start < |tokens| && HeaderAfter(tokens, start) == Some(j) && tokens[j].Ident?
    requires ExpectPuncts(tokens, j + 1, ":=").Ok?
    ensures ExpectPuncts(tokens, j + 1, ":=").value == j + 4
    ensures HeadersFrom(tokens, start) == {tokens[j].name} + HeadersFrom(tokens, j + 4)
  {
    assert tokens[j + 2] == Punct(':') && tokens[j + 3] == Punct('=');
  }

  lemma NamesChain(u0: set<string>, u1: set<string>, u2: set<string>, name: string, next: string,
                   h: set<string>, h2: set<string>)
    requires u1 == u0 + {name} && u2 == u1 + {next} + h2 && h == {next} + h2
    ensures u2 == u0 + {name} + h
  {
  }

  /**
   * The rules from the body at `start` on, if they parse, keep Inv and add to the user rules of
   * `st` the rule `name` and the names of the later headers.
   */
  ghost predicate NamesFrom(tokens: seq<TokenTree>, start: nat, name: string, st: FrontState)
    requires start < |tokens|
  {
    match RulesFrom(tokens, start, name, st)
    case Err(_) => true
    case Ok(st3) => Inv(st3) && UserRules(st3) == UserRules(st) + {name} + HeadersFrom(tokens, start)
  }

  /** The rule before the header at `j`, then the rules after it. */
  lemma NamesFromNext(tokens: seq<TokenTree>, start: nat, name: string, st: FrontState, j: nat, st2: FrontState)
    requires start < |tokens| && Inv(st) && !IsSynthetic(name)
    requires HeaderAfter(tokens, start) == Some(j) && tokens[j].Ident? && ExpectPuncts(tokens, j + 1, ":=").Ok?
    requires ParseRuleSpec(st, name, tokens[start..j]).Ok? && st2 == ParseRuleSpec(st, name, tokens[start..j]).value.0
    requires NamesFrom(tokens, j + 4, tokens[j].name, st2)
    ensures NamesFrom(tokens, start, name, st)
  {
    UserRuleStep(st, name, tokens[start..j], st2);
    HeadersAtNext(tokens, start, j);
    var rest := RulesFrom(tokens, j + 4, tokens[j].name, st2);
    assert RulesFrom(tokens, start, name, st) == rest;
    if rest.Ok? {
      NamesChain(UserRules(st), UserRules(st2), UserRules(rest.value), name, tokens[j].name,
                 HeadersFrom(tokens, start), HeadersFrom(tokens, j + 4));
    }
  }

  /** The last rule, with no header after it. */
  lemma NamesFromLast(tokens: seq<TokenTree>, start: nat, name: string, st: FrontState)
    requires start < |tokens| && Inv(st) && !IsSynthetic(name) && HeaderAfter(tokens, start).None?
    ensures NamesFrom(tokens, start, name, st)
  {
    var inner := ParseRuleSpec(st, name, tokens[start..]);
    if inner.Ok? {
      UserRuleStep(st, name, tokens[start..], inner.value.0);
      HeadersAtEnd(tokens, start);
      assert RulesFrom(tokens, start, name, st) == Ok(inner.value.0);
    }
  }

  lemma {:induction false} RulesFromNames(tokens: seq<TokenTree>, start: nat, name: string, st: FrontState)
    requires start < |tokens| && Inv(st) && UserNames(tokens) && !IsSynthetic(name)
    ensures NamesFrom(tokens, start, name, st)
    decreases |tokens| - start
  {
    match HeaderAfter(tokens, start) {
      case None =>
        NamesFromLast(tokens, start, name, st);
      case Some(j) =>
        var inner := ParseRuleSpec(st, name, tokens[start..j]);
        if inner.Ok? && tokens[j].Ident? && ExpectPuncts(tokens, j + 1, ":=").Ok? {
          var st2 := inner.value.0;
          UserRuleStep(st, name, tokens[start..j], st2);
          assert ExpectPuncts(tokens, j + 1, ":=").value == j + 4;
          RulesFromNames(tokens, j + 4, tokens[j].name, st2);
          NamesFromNext(tokens, start, name, st, j, st2);
        } else {
          assert RulesFrom(tokens, start, name, st).Err?;
        }
    }
  }

  /**
   * A successful parse_rules keeps Inv, and the rules it returns whose names a user can write
   * are exactly the identifiers written before a `:`.
   */
  lemma ParseRulesNames(tokens: seq<TokenTree>)
    requires |tokens| > 0 && UserNames(tokens)
    ensures ParseRulesSpec(tokens).Ok? ==>
              Inv(ParseRulesSpec(tokens).value) && UserRules(ParseRulesSpec(tokens).value) == HeadersFrom(tokens, 0)
  {
    if tokens[0].Ident? && ExpectPuncts(tokens, 0, "::=").Ok? {
      assert tokens[1] == Punct(':') && tokens[2] == Punct(':') && tokens[3] == Punct('=');
      assert UserRules(INITIAL_STATE) == {};
      RulesFromNames(tokens, 4, tokens[0].name, INITIAL_STATE);
      assert HeadersFrom(tokens, 0) == {tokens[0].name} + HeadersFrom(tokens, 4);
    }
  }
}
