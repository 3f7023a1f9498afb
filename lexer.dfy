/**
 * The longest-match lexer (bnf_rules_parser/src/lexer.rs): an ordered list of terminal matchers,
 * an implicit blank matcher appended last whose tokens are dropped, one EOF token at the end,
 * and 1-based line/column information.
 */
module Lexer {
  import opened Wrappers

  const U32_MAX: nat := 0xFFFF_FFFF
  const USIZE_MAX: nat := 0xFFFF_FFFF_FFFF_FFFF

  /** An offset into the character sequence, a length, and the line and column of the offset. */
  datatype TokenPosition = TokenPosition(startPosition: nat, textLength: nat, line: nat, column: nat)

  function Min(a: nat, b: nat): nat {
    if a < b then a else b
  }

  function Max(a: nat, b: nat): nat {
    if a < b then b else a
  }

  /** TokenPosition::marge_start_position: the neutral start of a merge, every field at usize::MAX but the length. */
  function MargeStartPosition(): TokenPosition {
    TokenPosition(USIZE_MAX, 0, USIZE_MAX, USIZE_MAX)
  }

  /**
   * TokenPosition::marge, as written. The `&mut self` update of a plain value is
   * modelled as returning the updated value.
   */
  function Marge(self: TokenPosition, other: TokenPosition): (r: TokenPosition)
    ensures r.startPosition <= self.startPosition && r.startPosition <= other.startPosition
    ensures r.startPosition == self.startPosition || r.startPosition == other.startPosition
    ensures r.line == Min(self.line, other.line) && r.column == Min(self.column, other.column)
    ensures other.textLength == 0 ==> r.textLength == self.textLength
  {
    var length :=
      if other.textLength == 0 then self.textLength
      else if self.startPosition == USIZE_MAX then other.textLength
      else if other.startPosition == USIZE_MAX then self.textLength
      else if self.startPosition < other.startPosition then
        (other.startPosition - self.startPosition) + other.textLength
      else
        (self.startPosition - other.startPosition) + self.textLength;
    TokenPosition(Min(self.startPosition, other.startPosition), length,
                  Min(self.line, other.line), Min(self.column, other.column))
  }

  /** Merging a non-empty position into the neutral start yields that position's offset and length. */
  lemma MargeFromStart(p: TokenPosition)
    requires 0 < p.textLength && p.startPosition <= USIZE_MAX
    requires p.line <= USIZE_MAX && p.column <= USIZE_MAX
    ensures Marge(MargeStartPosition(), p) == p
  {
  }

  /** When `other` starts after `self` ends, the merge spans from `self`'s start to `other`'s end. */
  lemma MargeOrdered(self: TokenPosition, other: TokenPosition)
    requires self.startPosition < USIZE_MAX && other.startPosition < USIZE_MAX
    requires 0 < other.textLength && self.startPosition < other.startPosition
    requires self.startPosition + self.textLength <= other.startPosition
    ensures Marge(self, other).startPosition == self.startPosition
    ensures Marge(self, other).startPosition + Marge(self, other).textLength
         == other.startPosition + other.textLength
  {
  }

  /**
   * The as-written merge loses the length of a non-empty position that starts where an
   * empty one already merged starts: the node of `source ::= [ "-" ] "5"` over "5"
   * (an empty optional part at offset 0, then the token "5" at offset 0) gets length 0.
   */
  lemma MargeLosesLength()
    ensures var empty := TokenPosition(0, 0, 1, 1);
            var five := TokenPosition(0, 1, 1, 1);
            Marge(Marge(MargeStartPosition(), empty), five).textLength == 0
  {
  }

  /**
   * The evident intent of `marge`: the smallest span holding both. Positions of length 0
   * contribute their offset only, and the merge of a position into the neutral start is that
   * position.
   */
  function MargeHull(self: TokenPosition, other: TokenPosition): (r: TokenPosition)
    ensures r.startPosition == Min(self.startPosition, other.startPosition)
    ensures r.line == Min(self.line, other.line) && r.column == Min(self.column, other.column)
    ensures self.startPosition < USIZE_MAX ==>
              r.startPosition + r.textLength >= self.startPosition + self.textLength
    ensures self.startPosition < USIZE_MAX && other.startPosition < USIZE_MAX && other.textLength > 0 ==>
              r.startPosition + r.textLength >= other.startPosition + other.textLength
    ensures self.startPosition == USIZE_MAX ==> r.textLength == other.textLength
  {
    var start := Min(self.startPosition, other.startPosition);
    var length :=
      if self.startPosition == USIZE_MAX then other.textLength
      else if other.startPosition == USIZE_MAX then self.textLength
      else
        var selfEnd := self.startPosition + self.textLength;
        var end := if other.textLength == 0 then selfEnd else Max(selfEnd, other.startPosition + other.textLength);
        end - start;
    TokenPosition(start, length, Min(self.line, other.line), Min(self.column, other.column))
  }

  /** On the inputs of the counterexample the corrected merge keeps the token's length. */
  lemma MargeHullKeepsLength()
    ensures var empty := TokenPosition(0, 0, 1, 1);
            var five := TokenPosition(0, 1, 1, 1);
            MargeHull(MargeHull(MargeStartPosition(), empty), five) == five
  {
  }

  /** On ordered, non-overlapping positions the corrected merge agrees with the as-written one. */
  lemma MargeHullAgreesWhenOrdered(self: TokenPosition, other: TokenPosition)
    requires self.startPosition < USIZE_MAX && other.startPosition < USIZE_MAX
    requires self.startPosition + self.textLength <= other.startPosition
    requires self.startPosition < other.startPosition || self.textLength > 0 || other.textLength == 0
    ensures MargeHull(self, other) == Marge(self, other)
  {
  }

  // ---------------------------------------------------------------- line and column

  /** Lexer::read_back: the character `back` places before `position`, if there is one. */
  function ReadBack(src: seq<char>, position: nat, back: nat): (r: Option<char>)
    ensures r.Some? <==> back <= position && position - back < |src|
    ensures r.Some? ==> r.value == src[position - back]
  {
    if position < back then None
    else if position - back < |src| then Some(src[position - back])
    else None
  }

  /** The counters of set_line_and_column_info when it reaches an index. */
  datatype Cursor = Cursor(line: nat, column: nat, previousColumn: nat)

  /**
   * The line, column and saved column at index `i`: a `\n` right after `\r` restores the
   * column saved at the `\r` instead of starting a new line; any other `\n`, and every `\r`,
   * starts a new line.
   */
  function CursorAt(src: seq<char>, i: nat): Cursor
    requires i <= |src|
  {
    if i == 0 then Cursor(1, 1, 1)
    else
      var c := CursorAt(src, i - 1);
      var ch := src[i - 1];
      if ch == '\n' && ReadBack(src, i - 1, 1) == Some('\r') then
        Cursor(c.line, c.previousColumn + 1, c.previousColumn)
      else if ch == '\n' || ch == '\r' then
        Cursor(c.line + 1, 1, c.column)
      else
        Cursor(c.line, c.column + 1, c.previousColumn)
  }

  /** A line break: every `\r`, and every `\n` not directly after a `\r`. */
  predicate IsLineBreakAt(src: seq<char>, j: nat)
    requires j < |src|
  {
    src[j] == '\r' || (src[j] == '\n' && !(j > 0 && src[j - 1] == '\r'))
  }

  /** The number of line breaks among the first `i` characters. */
  function LineBreaks(src: seq<char>, i: nat): nat
    requires i <= |src|
  {
    if i == 0 then 0 else LineBreaks(src, i - 1) + (if IsLineBreakAt(src, i - 1) then 1 else 0)
  }

  /** Lines and columns are 1-based, and the line is one more than the breaks before the index. */
  lemma {:induction false} CursorFacts(src: seq<char>, i: nat)
    requires i <= |src|
    ensures CursorAt(src, i).line >= 1 && CursorAt(src, i).column >= 1 && CursorAt(src, i).previousColumn >= 1
    ensures CursorAt(src, i).line == 1 + LineBreaks(src, i)
  {
    if i > 0 {
      CursorFacts(src, i - 1);
    }
  }

  /** Index 0 is line 1, column 1; after a bare `\n` or a `\r` the next index is at column 1 of the next line. */
  lemma CursorAfterBreak(src: seq<char>, i: nat)
    requires 0 < i <= |src| && IsLineBreakAt(src, i - 1)
    ensures CursorAt(src, 0) == Cursor(1, 1, 1)
    ensures CursorAt(src, i).line == CursorAt(src, i - 1).line + 1 && CursorAt(src, i).column == 1
  {
  }

  /** A `\n` directly after `\r` does not advance the line a second time. */
  lemma CursorAfterCrLf(src: seq<char>, i: nat)
    requires 1 < i <= |src| && src[i - 1] == '\n' && src[i - 2] == '\r'
    ensures CursorAt(src, i).line == CursorAt(src, i - 1).line
    ensures CursorAt(src, i).line == CursorAt(src, i - 2).line + 1
  {
  }

  /** As written, the character after `\r\n` is not at column 1: in "a\r\nb" the `b` is at line 2, column 3. */
  lemma CrLfColumnAsWritten()
    ensures CursorAt("a\r\nb", 3).line == 2 && CursorAt("a\r\nb", 3).column == 3
  {
  }

  function WithLineColumn(p: TokenPosition, c: Cursor): TokenPosition {
    p.(line := c.line, column := c.column)
  }

  /**
   * Lexer::set_line_and_column_info: walks the characters once and writes the line and the column
   * of index `i` into the position `positionMap[i]` refers to (the map stands for the
   * `HashMap<usize, &mut TokenPosition>`; each entry refers to a position starting at its key).
   */
  method SetLineAndColumnInfo(src: seq<char>, positions: seq<TokenPosition>, positionMap: map<nat, nat>)
      returns (out: seq<TokenPosition>)
    requires |src| > 0
    requires forall i :: i in positionMap ==> positionMap[i] < |positions| && positions[positionMap[i]].startPosition == i
    ensures |out| == |positions|
    ensures forall k :: 0 <= k < |positions| ==>
              out[k] == (var s := positions[k].startPosition;
                         if s in positionMap && positionMap[s] == k && s < |src|
                         then WithLineColumn(positions[k], CursorAt(src, s)) else positions[k])
  {
    out := positions;
    var i := 0;
    var line, column := 1, 1;
    var previousColumn := column;
    while i < |src|
      invariant 0 <= i <= |src|
      invariant Cursor(line, column, previousColumn) == CursorAt(src, i)
      invariant |out| == |positions|
      invariant forall k :: 0 <= k < |positions| ==>
                  out[k] == (var s := positions[k].startPosition;
                             if s in positionMap && positionMap[s] == k && s < i
                             then WithLineColumn(positions[k], CursorAt(src, s)) else positions[k])
    {
      var ch := src[i];
      if i in positionMap {
        var k := positionMap[i];
        out := out[k := out[k].(line := line, column := column)];
      }
      var lineFeed := false;
      if ch == '\n' {
        var previous := ReadBack(src, i, 1);
        if previous == Some('\r') {
          column := previousColumn;
        } else {
          lineFeed := true;
        }
      } else if ch == '\r' {
        lineFeed := true;
      }
      if lineFeed {
        previousColumn := column;
        line := line + 1;
        column := 0;
      }
      i := i + 1;
      column := column + 1;
    }
  }

  // ---------------------------------------------------------------- matchers

  /** The three kinds of judgement: an exact string, a user tokenizer function (by id), the blank tokenizer. */
  datatype Judgement = StringJudge(chars: seq<char>) | FnJudge(fnId: nat) | BlankJudge

  datatype TerminalSymbol = TerminalSymbol(judgement: Judgement, symbolId: nat)

  /** TerminalSymbol::new_from_string and ::new_from_tokenizer_fn. */
  function NewFromString(s: seq<char>, symbolId: nat): TerminalSymbol {
    TerminalSymbol(StringJudge(s), symbolId)
  }

  function NewFromTokenizerFn(fnId: nat, symbolId: nat): TerminalSymbol {
    TerminalSymbol(FnJudge(fnId), symbolId)
  }

  /** The user tokenizer functions, by id: each maps a source and an offset to a match length (0 rejects). */
  type TokenizerFns = (nat, seq<char>, nat) -> nat

  /** A tokenizer never claims more characters than are left. */
  ghost predicate Bounded(fns: TokenizerFns) {
    forall id: nat, src: seq<char>, pos: nat {:trigger fns(id, src, pos)} :: pos <= |src| ==> pos + fns(id, src, pos) <= |src|
  }

  predicate IsBlank(c: char) {
    c == '\t' || c == ' ' || c == '\U{3000}'
  }

  /** blank_tokenizer: the length of the run of tabs, spaces and full-width spaces from `pos`. */
  function BlankRun(src: seq<char>, pos: nat): (n: nat)
    ensures pos + n <= |src| || n == 0
    ensures forall i :: pos <= i < pos + n ==> IsBlank(src[i])
    ensures pos + n < |src| ==> !IsBlank(src[pos + n])
    decreases |src| - pos
  {
    if pos < |src| && IsBlank(src[pos]) then 1 + BlankRun(src, pos + 1) else 0
  }

  /** Whether `s[i..]` occurs at `pos + i`, compared one character at a time. */
  predicate MatchFrom(s: seq<char>, src: seq<char>, pos: nat, i: nat)
    requires i <= |s|
    decreases |s| - i
  {
    i == |s| || (pos + i < |src| && src[pos + i] == s[i] && MatchFrom(s, src, pos, i + 1))
  }

  lemma {:induction false} MatchFromSlice(s: seq<char>, src: seq<char>, pos: nat, i: nat)
    requires i < |s|
    ensures MatchFrom(s, src, pos, i) <==> pos + |s| <= |src| && src[pos + i..pos + |s|] == s[i..]
    decreases |s| - i
  {
    if i + 1 < |s| {
      MatchFromSlice(s, src, pos, i + 1);
      if pos + |s| <= |src| {
        assert src[pos + i..pos + |s|] == [src[pos + i]] + src[pos + i + 1..pos + |s|];
        assert s[i..] == [s[i]] + s[i + 1..];
      }
    }
  }

  /** The string judgement of TerminalSymbol::tokenize: `|s|` when `s` occurs at `pos`, else 0. */
  function TokenizeString(s: seq<char>, src: seq<char>, pos: nat): (n: nat)
    ensures n == 0 || n == |s|
    ensures |s| > 0 ==> (n == |s| <==> pos + |s| <= |src| && src[pos..pos + |s|] == s)
  {
    if |s| == 0 then 0
    else
      MatchFromSlice(s, src, pos, 0);
      if MatchFrom(s, src, pos, 0) then |s| else 0
  }

  /** TerminalSymbol::tokenize. */
  function Tokenize(sym: TerminalSymbol, src: seq<char>, pos: nat, fns: TokenizerFns): (n: nat)
    ensures sym.judgement.StringJudge? ==> n == 0 || n == |sym.judgement.chars|
  {
    match sym.judgement
    case StringJudge(s) => TokenizeString(s, src, pos)
    case FnJudge(id) => fns(id, src, pos)
    case BlankJudge => BlankRun(src, pos)
  }

  lemma TokenizeBounded(sym: TerminalSymbol, src: seq<char>, pos: nat, fns: TokenizerFns)
    requires Bounded(fns) && pos <= |src|
    ensures Tokenize(sym, src, pos, fns) <= |src| - pos
  {
    if sym.judgement.FnJudge? {
      assert fns(sym.judgement.fnId, src, pos) <= |src| - pos;
    }
  }

  /**
   * The choice of read_until_token_found over `syms`: the greatest length, and the index of
   * the first matcher reaching it (a later matcher wins only when strictly longer).
   */
  function BestMatch(syms: seq<TerminalSymbol>, src: seq<char>, pos: nat, fns: TokenizerFns): (b: (nat, nat))
    ensures b.0 == 0 ==> b.1 == 0
    ensures b.0 > 0 ==> b.1 < |syms|
    decreases |syms|
  {
    if syms == [] then (0, 0)
    else
      var prev := BestMatch(syms[..|syms| - 1], src, pos, fns);
      var length := Tokenize(syms[|syms| - 1], src, pos, fns);
      if length > prev.0 then (length, |syms| - 1) else prev
  }

  /** The choice is the greatest length any matcher returns, and the first matcher returning it. */
  lemma {:induction false} BestMatchFacts(syms: seq<TerminalSymbol>, src: seq<char>, pos: nat, fns: TokenizerFns)
    ensures var b := BestMatch(syms, src, pos, fns);
      && (forall j :: 0 <= j < |syms| ==> Tokenize(syms[j], src, pos, fns) <= b.0)
      && (b.0 > 0 ==> Tokenize(syms[b.1], src, pos, fns) == b.0)
      && (b.0 > 0 ==> forall j :: 0 <= j < b.1 ==> Tokenize(syms[j], src, pos, fns) < b.0)
  {
    if syms != [] {
      var front := syms[..|syms| - 1];
      BestMatchFacts(front, src, pos, fns);
      forall j | 0 <= j < |front| ensures syms[j] == front[j] { }
    }
  }

  /** An emitted token; the matcher it came from is kept only as its symbol id. */
  datatype Token = Token(position: TokenPosition, text: seq<char>, symbolId: nat, isEof: bool)

  datatype UnexpectedCharacter = UnexpectedCharacter(position: TokenPosition, character: char)

  /** Token::new_eof: symbol id 0, no text. */
  function NewEof(position: TokenPosition): (t: Token)
    ensures t.isEof && t.symbolId == 0 && t.text == [] && t.position == position
  {
    Token(position, [], 0, true)
  }

  datatype Lexer = Lexer(terminalSymbols: seq<TerminalSymbol>, eofSymbol: TerminalSymbol)

  /** Lexer::new: the user matchers in order, then the blank matcher with id u32::MAX. */
  function NewLexer(terminalSymbols: seq<TerminalSymbol>): (lexer: Lexer)
    ensures |lexer.terminalSymbols| == |terminalSymbols| + 1
    ensures lexer.terminalSymbols[..|terminalSymbols|] == terminalSymbols
    ensures lexer.terminalSymbols[|terminalSymbols|] == TerminalSymbol(BlankJudge, U32_MAX)
  {
    Lexer(terminalSymbols + [TerminalSymbol(BlankJudge, U32_MAX)], NewFromString("EOF", 0))
  }

  /** One step of the scan at offset `pos`: the longest match, or the character no matcher accepts. */
  function ReadSpec(lexer: Lexer, src: seq<char>, pos: nat, fns: TokenizerFns): (r: Result<Token, UnexpectedCharacter>)
    requires Bounded(fns) && pos < |src|
    ensures r.Ok? ==> 0 < r.value.position.textLength <= |src| - pos
  {
    var best := BestMatch(lexer.terminalSymbols, src, pos, fns);
    if best.0 == 0 then
      Err(UnexpectedCharacter(WithLineColumn(TokenPosition(pos, 1, 0, 0), CursorAt(src, pos)), src[pos]))
    else
      BestMatchFacts(lexer.terminalSymbols, src, pos, fns);
      TokenizeBounded(lexer.terminalSymbols[best.1], src, pos, fns);
      Ok(Token(TokenPosition(pos, best.0, 0, 0), src[pos..pos + best.0], lexer.terminalSymbols[best.1].symbolId, false))
  }

  /** The loop of read_until_token_found over the matchers: the longest match and the first matcher reaching it. */
  method LongestMatch(symbols: seq<TerminalSymbol>, eofSymbol: TerminalSymbol, src: seq<char>, startPosition: nat,
                      fns: TokenizerFns)
      returns (textLength: nat, terminalSymbol: TerminalSymbol, ghost best: nat)
    ensures (textLength, best) == BestMatch(symbols, src, startPosition, fns)
    ensures textLength > 0 ==> best < |symbols| && terminalSymbol == symbols[best]
  {
    terminalSymbol := eofSymbol;
    textLength := 0;
    best := 0;
    var i := 0;
    while i < |symbols|
      invariant 0 <= i <= |symbols|
      invariant (textLength, best) == BestMatch(symbols[..i], src, startPosition, fns)
      invariant textLength > 0 ==> best < i && terminalSymbol == symbols[best]
    {
      var length := Tokenize(symbols[i], src, startPosition, fns);
      assert symbols[..i + 1][..i] == symbols[..i];
      assert BestMatch(symbols[..i + 1], src, startPosition, fns)
          == if length > textLength then (length, i) else (textLength, best);
      if length > textLength {
        terminalSymbol := symbols[i];
        textLength := length;
        best := i;
      }
      i := i + 1;
    }
    assert symbols[..i] == symbols;
  }

  /** Lexer::read_until_token_found; the `&mut usize` index is returned as `next`. */
  method ReadUntilTokenFound(lexer: Lexer, src: seq<char>, sourceIndex: nat, fns: TokenizerFns)
      returns (r: Result<Token, UnexpectedCharacter>, next: nat)
    requires Bounded(fns) && sourceIndex < |src|
    ensures r == ReadSpec(lexer, src, sourceIndex, fns)
    ensures r.Ok? ==> next == sourceIndex + r.value.position.textLength
  {
    var symbols := lexer.terminalSymbols;
    var startPosition := sourceIndex;
    var textLength, terminalSymbol, best := LongestMatch(symbols, lexer.eofSymbol, src, startPosition, fns);
    if textLength > 0 {
      BestMatchFacts(symbols, src, startPosition, fns);
      TokenizeBounded(symbols[best], src, startPosition, fns);
    }
    var endPosition := startPosition + textLength;
    var tokenText := src[startPosition..endPosition];
    next := endPosition;
    if textLength == 0 {
      var positions := SetLineAndColumnInfo(src, [TokenPosition(startPosition, 1, 0, 0)], map[startPosition := 0]);
      assert positions[0] == WithLineColumn(TokenPosition(startPosition, 1, 0, 0), CursorAt(src, startPosition));
      r := Err(UnexpectedCharacter(positions[0], src[startPosition]));
    } else {
      r := Ok(Token(TokenPosition(startPosition, textLength, 0, 0), tokenText, terminalSymbol.symbolId, false));
    }
  }

  /**
   * The longest-match rule of one read step: success exactly when some matcher accepts; then the
   * length is the greatest any matcher returns and the symbol is the first matcher returning it;
   * otherwise the error is at the offset, has length 1 and names the character there.
   */
  lemma ReadSpecLongestMatch(lexer: Lexer, src: seq<char>, pos: nat, fns: TokenizerFns)
    requires Bounded(fns) && pos < |src|
    ensures var r := ReadSpec(lexer, src, pos, fns);
      var syms := lexer.terminalSymbols;
      && (r.Ok? <==> exists j :: 0 <= j < |syms| && Tokenize(syms[j], src, pos, fns) > 0)
      && (r.Ok? ==> && (forall j :: 0 <= j < |syms| ==> Tokenize(syms[j], src, pos, fns) <= r.value.position.textLength)
                    && (exists j :: 0 <= j < |syms| && r.value.symbolId == syms[j].symbolId
                                    && Tokenize(syms[j], src, pos, fns) == r.value.position.textLength
                                    && forall i :: 0 <= i < j ==> Tokenize(syms[i], src, pos, fns) < r.value.position.textLength)
                    && r.value.position.startPosition == pos
                    && r.value.text == src[pos..pos + r.value.position.textLength])
      && (r.Err? ==> && r.error.position.startPosition == pos && r.error.position.textLength == 1
                     && r.error.character == src[pos]
                     && r.error.position.line == CursorAt(src, pos).line
                     && r.error.position.column == CursorAt(src, pos).column)
  {
    var best := BestMatch(lexer.terminalSymbols, src, pos, fns);
    BestMatchFacts(lexer.terminalSymbols, src, pos, fns);
    if best.0 > 0 {
      assert Tokenize(lexer.terminalSymbols[best.1], src, pos, fns) > 0;
    }
  }

  /** The full sequence of matches from `pos` to the end, blank ones included, before line numbering. */
  function RawTokens(lexer: Lexer, src: seq<char>, pos: nat, fns: TokenizerFns): Result<seq<Token>, UnexpectedCharacter>
    requires Bounded(fns) && pos <= |src|
    decreases |src| - pos
  {
    if pos == |src| then Ok([])
    else
      var step := ReadSpec(lexer, src, pos, fns);
      if step.Err? then Err(step.error)
      else Prepend([step.value], RawTokens(lexer, src, pos + step.value.position.textLength, fns))
  }

  /** `ts` in front of the tokens of `r`, or the error of `r`. */
  function Prepend(ts: seq<Token>, r: Result<seq<Token>, UnexpectedCharacter>): Result<seq<Token>, UnexpectedCharacter> {
    match r
    case Err(e) => Err(e)
    case Ok(rest) => Ok(ts + rest)
  }

  /** One unfolding of `RawTokens` at an offset where a read step succeeds. */
  lemma RawTokensStep(lexer: Lexer, src: seq<char>, pos: nat, fns: TokenizerFns)
    requires Bounded(fns) && pos < |src| && ReadSpec(lexer, src, pos, fns).Ok?
    ensures var t := ReadSpec(lexer, src, pos, fns).value;
      RawTokens(lexer, src, pos, fns) == Prepend([t], RawTokens(lexer, src, pos + t.position.textLength, fns))
  {
  }

  lemma PrependAppend(a: seq<Token>, b: seq<Token>, r: Result<seq<Token>, UnexpectedCharacter>)
    ensures Prepend(a, Prepend(b, r)) == Prepend(a + b, r)
  {
    match r {
      case Ok(rest) => assert a + (b + rest) == (a + b) + rest;
      case Err(e) =>
    }
  }

  /** The tokens `scan` keeps: those whose symbol id is not the blank matcher's u32::MAX. */
  function Kept(ts: seq<Token>): seq<Token> {
    if ts == [] then [] else (if ts[0].symbolId == U32_MAX then [] else [ts[0]]) + Kept(ts[1..])
  }

  lemma {:induction false} KeptAppend(ts: seq<Token>, t: Token)
    ensures Kept(ts + [t]) == Kept(ts) + (if t.symbolId == U32_MAX then [] else [t])
  {
    var all := ts + [t];
    if ts == [] {
      assert all[1..] == [];
    } else {
      assert all[0] == ts[0] && all[1..] == ts[1..] + [t];
      KeptAppend(ts[1..], t);
      assert Kept(all) == (if ts[0].symbolId == U32_MAX then [] else [ts[0]]) + Kept(ts[1..] + [t]);
    }
  }

  function Locate(t: Token, src: seq<char>): Token
    requires t.position.startPosition < |src|
  {
    t.(position := WithLineColumn(t.position, CursorAt(src, t.position.startPosition)))
  }

  /** The tokens numbered with the line and column of their start. */
  function Located(ts: seq<Token>, src: seq<char>): (r: seq<Token>)
    requires forall k :: 0 <= k < |ts| ==> ts[k].position.startPosition < |src|
    ensures |r| == |ts|
    ensures forall k :: 0 <= k < |ts| ==> r[k] == Locate(ts[k], src)
  {
    if ts == [] then [] else [Locate(ts[0], src)] + Located(ts[1..], src)
  }

  /** The EOF token of `scan`: (0, 0, 1, 1) for empty input, else at the last index with length 0. */
  function EofToken(src: seq<char>): Token {
    if |src| == 0 then NewEof(TokenPosition(0, 0, 1, 1))
    else NewEof(WithLineColumn(TokenPosition(|src| - 1, 0, 0, 0), CursorAt(src, |src| - 1)))
  }

  /** Each token ends at or before the next one starts. */
  ghost predicate Ordered(ts: seq<Token>) {
    forall j, k :: 0 <= j < k < |ts| ==>
      ts[j].position.startPosition + ts[j].position.textLength <= ts[k].position.startPosition
  }

  /** Every raw match is what one read step yields at its own offset, at or after `pos`, and they are in order. */
  lemma {:induction false} RawTokensFacts(lexer: Lexer, src: seq<char>, pos: nat, fns: TokenizerFns)
    requires Bounded(fns) && pos <= |src|
    requires RawTokens(lexer, src, pos, fns).Ok?
    ensures forall t :: t in RawTokens(lexer, src, pos, fns).value ==>
              pos <= t.position.startPosition < |src| && ReadSpec(lexer, src, t.position.startPosition, fns) == Ok(t)
    ensures Ordered(RawTokens(lexer, src, pos, fns).value)
    decreases |src| - pos
  {
    if pos < |src| {
      var t := ReadSpec(lexer, src, pos, fns).value;
      var next := pos + t.position.textLength;
      RawTokensFacts(lexer, src, next, fns);
      var rest := RawTokens(lexer, src, next, fns).value;
      assert RawTokens(lexer, src, pos, fns).value == [t] + rest;
      assert forall u :: u in [t] + rest <==> u == t || u in rest;
      OrderedCons(t, rest);
    }
  }

  /** A token ending before every token of an ordered sequence can be put in front of it. */
  lemma OrderedCons(t: Token, rest: seq<Token>)
    requires Ordered(rest)
    requires forall u | u in rest :: t.position.startPosition + t.position.textLength <= u.position.startPosition
    ensures Ordered([t] + rest)
  {
    var ts := [t] + rest;
    forall j, k | 0 <= j < k < |ts|
      ensures ts[j].position.startPosition + ts[j].position.textLength <= ts[k].position.startPosition
    {
      assert ts[k] == rest[k - 1];
      if j > 0 {
        assert ts[j] == rest[j - 1];
      }
    }
  }

  lemma OrderedTail(ts: seq<Token>)
    requires Ordered(ts) && ts != []
    ensures Ordered(ts[1..])
    ensures forall u | u in ts[1..] :: ts[0].position.startPosition + ts[0].position.textLength <= u.position.startPosition
  {
    var tail := ts[1..];
    forall j, k | 0 <= j < k < |tail|
      ensures tail[j].position.startPosition + tail[j].position.textLength <= tail[k].position.startPosition
    {
      assert tail[j] == ts[j + 1] && tail[k] == ts[k + 1];
    }
    forall u | u in tail
      ensures ts[0].position.startPosition + ts[0].position.textLength <= u.position.startPosition
    {
      var b :| 0 <= b < |tail| && tail[b] == u;
      assert u == ts[b + 1];
    }
  }

  /** The tokens kept from `ts` are the non-blank tokens of `ts`. */
  lemma {:induction false} KeptMembers(ts: seq<Token>)
    ensures forall t :: t in Kept(ts) <==> t in ts && t.symbolId != U32_MAX
  {
    if ts != [] {
      KeptMembers(ts[1..]);
      assert forall t :: t in ts <==> t == ts[0] || t in ts[1..];
    }
  }

  /** Dropping the blank matches keeps the others in order. */
  lemma {:induction false} KeptOrdered(ts: seq<Token>)
    requires Ordered(ts)
    ensures Ordered(Kept(ts))
  {
    if ts != [] {
      OrderedTail(ts);
      KeptOrdered(ts[1..]);
      if ts[0].symbolId != U32_MAX {
        KeptMembers(ts[1..]);
        assert Kept(ts) == [ts[0]] + Kept(ts[1..]);
        OrderedCons(ts[0], Kept(ts[1..]));
      }
    }
  }

  /** Dropping the blank matches keeps the others, in order. */
  lemma KeptFacts(ts: seq<Token>)
    ensures forall t :: t in Kept(ts) <==> t in ts && t.symbolId != U32_MAX
    ensures Ordered(ts) ==> Ordered(Kept(ts))
  {
    KeptMembers(ts);
    if Ordered(ts) {
      KeptOrdered(ts);
    }
  }

  /** What `scan` promises: the kept matches numbered with lines and columns, then one EOF token. */
  function ScanSpec(lexer: Lexer, src: seq<char>, fns: TokenizerFns): Result<seq<Token>, UnexpectedCharacter>
    requires Bounded(fns)
  {
    match RawTokens(lexer, src, 0, fns)
    case Err(e) => Err(e)
    case Ok(raw) =>
      RawTokensFacts(lexer, src, 0, fns);
      KeptFacts(raw);
      Ok(Located(Kept(raw), src) + [EofToken(src)])
  }

  /** The EOF token of a successful scan: exactly one, last, with id 0, no text and length 0. */
  lemma ScanEndsWithEof(lexer: Lexer, src: seq<char>, fns: TokenizerFns)
    requires Bounded(fns) && ScanSpec(lexer, src, fns).Ok?
    ensures var ts := ScanSpec(lexer, src, fns).value;
      && |ts| >= 1 && ts[|ts| - 1] == EofToken(src)
      && ts[|ts| - 1].symbolId == 0 && ts[|ts| - 1].isEof && ts[|ts| - 1].text == []
      && ts[|ts| - 1].position.textLength == 0
      && (|src| == 0 ==> ts == [NewEof(TokenPosition(0, 0, 1, 1))])
      && (|src| > 0 ==> ts[|ts| - 1].position.startPosition == |src| - 1)
      && (forall k :: 0 <= k < |ts| - 1 ==> !ts[k].isEof)
  {
    var raw := RawTokens(lexer, src, 0, fns).value;
    RawTokensFacts(lexer, src, 0, fns);
    KeptFacts(raw);
    var ts := ScanSpec(lexer, src, fns).value;
    if |src| == 0 {
      assert raw == [];
    }
    forall k | 0 <= k < |ts| - 1 ensures !ts[k].isEof {
      assert ts[k] == Locate(Kept(raw)[k], src);
      assert Kept(raw)[k] in raw;
    }
  }

  /**
   * Every other token of a successful scan is non-empty, is the text it covers, is not a blank
   * match, is the longest match at its offset, and carries the 1-based line and column of its offset.
   */
  lemma ScanTokenProperties(lexer: Lexer, src: seq<char>, fns: TokenizerFns, k: nat)
    requires Bounded(fns) && ScanSpec(lexer, src, fns).Ok?
    requires k < |ScanSpec(lexer, src, fns).value| - 1
    ensures ReadTokenProperties(lexer, src, fns, ScanSpec(lexer, src, fns).value[k])
  {
    var raw := RawTokens(lexer, src, 0, fns).value;
    RawTokensFacts(lexer, src, 0, fns);
    KeptFacts(raw);
    var ts := ScanSpec(lexer, src, fns).value;
    var u := Kept(raw)[k];
    assert ts[k] == Locate(u, src);
    assert u in Kept(raw);
    LocatedMatch(lexer, src, fns, u);
  }

  /** The properties of one kept, numbered token (see `ScanTokenProperties`). */
  ghost predicate ReadTokenProperties(lexer: Lexer, src: seq<char>, fns: TokenizerFns, t: Token)
    requires Bounded(fns)
  {
    var p := t.position;
    && t.symbolId != U32_MAX && !t.isEof
    && 0 < p.textLength && p.startPosition + p.textLength <= |src|
    && t.text == src[p.startPosition..p.startPosition + p.textLength]
    && p.textLength == BestMatch(lexer.terminalSymbols, src, p.startPosition, fns).0
    && t.symbolId == lexer.terminalSymbols[BestMatch(lexer.terminalSymbols, src, p.startPosition, fns).1].symbolId
    && 1 <= p.line == CursorAt(src, p.startPosition).line
    && 1 <= p.column == CursorAt(src, p.startPosition).column
  }

  lemma LocatedMatch(lexer: Lexer, src: seq<char>, fns: TokenizerFns, u: Token)
    requires Bounded(fns) && u.position.startPosition < |src| && u.symbolId != U32_MAX
    requires ReadSpec(lexer, src, u.position.startPosition, fns) == Ok(u)
    ensures ReadTokenProperties(lexer, src, fns, Locate(u, src))
  {
    CursorFacts(src, u.position.startPosition);
  }

  /** The tokens of a successful scan are strictly increasing and do not overlap. */
  lemma ScanTokensOrdered(lexer: Lexer, src: seq<char>, fns: TokenizerFns)
    requires Bounded(fns) && ScanSpec(lexer, src, fns).Ok?
    ensures var ts := ScanSpec(lexer, src, fns).value;
      forall j, k :: 0 <= j < k < |ts| - 1 ==>
        ts[j].position.startPosition + ts[j].position.textLength <= ts[k].position.startPosition
  {
    var raw := RawTokens(lexer, src, 0, fns).value;
    RawTokensFacts(lexer, src, 0, fns);
    KeptFacts(raw);
    var kept := Kept(raw);
    var ts := ScanSpec(lexer, src, fns).value;
    forall j, k | 0 <= j < k < |ts| - 1
      ensures ts[j].position.startPosition + ts[j].position.textLength <= ts[k].position.startPosition
    {
      assert ts[j] == Locate(kept[j], src) && ts[k] == Locate(kept[k], src);
    }
  }

  /** Lexer::set_line_and_column_info_for_tokens: the map from start offsets to tokens, then the walk. */
  method SetLineAndColumnInfoForTokens(src: seq<char>, tokens: seq<Token>) returns (out: seq<Token>)
    requires |src| > 0
    requires forall j, k :: 0 <= j < k < |tokens| ==> tokens[j].position.startPosition < tokens[k].position.startPosition
    requires forall k :: 0 <= k < |tokens| ==> tokens[k].position.startPosition < |src|
    ensures out == Located(tokens, src)
  {
    var positionMap: map<nat, nat> := map[];
    var positions: seq<TokenPosition> := [];
    var k := 0;
    while k < |tokens|
      invariant 0 <= k <= |tokens|
      invariant |positions| == k
      invariant forall j :: 0 <= j < k ==> positions[j] == tokens[j].position
      invariant forall j :: 0 <= j < k ==>
                  tokens[j].position.startPosition in positionMap && positionMap[tokens[j].position.startPosition] == j
      invariant forall i :: i in positionMap ==> positionMap[i] < k && tokens[positionMap[i]].position.startPosition == i
    {
      positionMap := positionMap[tokens[k].position.startPosition := k];
      positions := positions + [tokens[k].position];
      k := k + 1;
    }
    var located := SetLineAndColumnInfo(src, positions, positionMap);
    out := [];
    k := 0;
    while k < |tokens|
      invariant 0 <= k <= |tokens|
      invariant |out| == k
      invariant forall j :: 0 <= j < k ==> out[j] == Locate(tokens[j], src)
    {
      out := out + [tokens[k].(position := located[k])];
      k := k + 1;
    }
  }

  /** After the loop of `scan`: the kept matches are in range and strictly increasing. */
  lemma ScanLoopDone(lexer: Lexer, src: seq<char>, fns: TokenizerFns, raw: seq<Token>)
    requires Bounded(fns) && RawTokens(lexer, src, 0, fns) == Ok(raw)
    ensures forall k :: 0 <= k < |Kept(raw)| ==> Kept(raw)[k].position.startPosition < |src|
    ensures forall j, k :: 0 <= j < k < |Kept(raw)| ==>
              Kept(raw)[j].position.startPosition < Kept(raw)[k].position.startPosition
    ensures ScanSpec(lexer, src, fns) == Ok(Located(Kept(raw), src) + [EofToken(src)])
  {
    RawTokensFacts(lexer, src, 0, fns);
    KeptFacts(raw);
    var kept := Kept(raw);
    forall k | 0 <= k < |kept| ensures kept[k].position.startPosition < |src| {
      assert kept[k] in kept;
    }
    forall j, k | 0 <= j < k < |kept|
      ensures kept[j].position.startPosition < kept[k].position.startPosition
    {
      assert kept[j] in kept;
      assert ReadSpec(lexer, src, kept[j].position.startPosition, fns) == Ok(kept[j]);
    }
  }

  /** The loop invariant of `scan`: the matches read so far, then those still to read, are all the matches. */
  ghost predicate ScanSoFar(lexer: Lexer, src: seq<char>, fns: TokenizerFns, raw: seq<Token>, pos: nat)
    requires Bounded(fns)
  {
    pos <= |src| && RawTokens(lexer, src, 0, fns) == Prepend(raw, RawTokens(lexer, src, pos, fns))
  }

  /** One successful read step extends the matches read so far by that match. */
  lemma ScanSoFarStep(lexer: Lexer, src: seq<char>, fns: TokenizerFns, raw: seq<Token>, pos: nat, t: Token, next: nat)
    requires Bounded(fns) && ScanSoFar(lexer, src, fns, raw, pos) && next <= |src|
    requires RawTokens(lexer, src, pos, fns) == Prepend([t], RawTokens(lexer, src, next, fns))
    ensures ScanSoFar(lexer, src, fns, raw + [t], next)
  {
    PrependAppend(raw, [t], RawTokens(lexer, src, next, fns));
  }

  /** What the loop of `scan` yields: the first read error, or the non-blank matches. */
  function KeptTokens(lexer: Lexer, src: seq<char>, fns: TokenizerFns): Result<seq<Token>, UnexpectedCharacter>
    requires Bounded(fns)
  {
    match RawTokens(lexer, src, 0, fns)
    case Err(e) => Err(e)
    case Ok(raw) => Ok(Kept(raw))
  }

  /** A failed read step is the failure of the whole scan. */
  lemma ScanSoFarFails(lexer: Lexer, src: seq<char>, fns: TokenizerFns, raw: seq<Token>, pos: nat)
    requires Bounded(fns) && ScanSoFar(lexer, src, fns, raw, pos) && pos < |src|
    requires ReadSpec(lexer, src, pos, fns).Err?
    ensures KeptTokens(lexer, src, fns) == Err(ReadSpec(lexer, src, pos, fns).error)
  {
  }

  /** At the end of the source the matches read are all the matches. */
  lemma ScanSoFarDone(lexer: Lexer, src: seq<char>, fns: TokenizerFns, raw: seq<Token>)
    requires Bounded(fns) && ScanSoFar(lexer, src, fns, raw, |src|)
    ensures RawTokens(lexer, src, 0, fns) == Ok(raw)
    ensures KeptTokens(lexer, src, fns) == Ok(Kept(raw))
  {
    assert raw + [] == raw;
  }

  lemma ScanSoFarStart(lexer: Lexer, src: seq<char>, fns: TokenizerFns)
    requires Bounded(fns)
    ensures ScanSoFar(lexer, src, fns, [], 0)
  {
    if RawTokens(lexer, src, 0, fns).Ok? {
      assert [] + RawTokens(lexer, src, 0, fns).value == RawTokens(lexer, src, 0, fns).value;
    }
  }

  /** The loop of `scan`: read steps from offset 0 to the end of the source, keeping the non-blank matches. */
  method ScanTokens(lexer: Lexer, src: seq<char>, fns: TokenizerFns) returns (r: Result<seq<Token>, UnexpectedCharacter>)
    requires Bounded(fns)
    ensures r == KeptTokens(lexer, src, fns)
  {
    var tokens: seq<Token> := [];
    var sourceIndex: nat := 0;
    ghost var raw: seq<Token> := [];
    ScanSoFarStart(lexer, src, fns);
    while sourceIndex < |src|
      invariant ScanSoFar(lexer, src, fns, raw, sourceIndex)
      invariant tokens == Kept(raw)
      decreases |src| - sourceIndex
    {
      var token, next := ReadUntilTokenFound(lexer, src, sourceIndex, fns);
      if token.Err? {
        ScanSoFarFails(lexer, src, fns, raw, sourceIndex);
        return Err(token.error);
      }
      var t := token.value;
      RawTokensStep(lexer, src, sourceIndex, fns);
      ScanSoFarStep(lexer, src, fns, raw, sourceIndex, t, next);
      KeptAppend(raw, t);
      raw := raw + [t];
      if t.symbolId != U32_MAX {
        tokens := tokens + [t];
      }
      sourceIndex := next;
    }
    ScanSoFarDone(lexer, src, fns, raw);
    r := Ok(tokens);
  }

  /** Lexer::scan. */
  method Scan(lexer: Lexer, src: seq<char>, fns: TokenizerFns) returns (r: Result<seq<Token>, UnexpectedCharacter>)
    requires Bounded(fns)
    ensures r == ScanSpec(lexer, src, fns)
  {
    if |src| == 0 {
      assert RawTokens(lexer, src, 0, fns) == Ok([]);
      assert Located(Kept([]), src) == [];
      assert ScanSpec(lexer, src, fns) == Ok([] + [EofToken(src)]);
      assert [] + [EofToken(src)] == [NewEof(TokenPosition(0, 0, 1, 1))];
      return Ok([NewEof(TokenPosition(0, 0, 1, 1))]);
    }
    var scanned := ScanTokens(lexer, src, fns);
    if scanned.Err? {
      return Err(scanned.error);
    }
    var tokens := scanned.value;
    ScanLoopDone(lexer, src, fns, RawTokens(lexer, src, 0, fns).value);
    var located := SetLineAndColumnInfoForTokens(src, tokens);
    var eofPosition := TokenPosition(|src| - 1, 0, 0, 0);
    var eofPositions := SetLineAndColumnInfo(src, [eofPosition], map[|src| - 1 := 0]);
    var eofToken := NewEof(eofPositions[0]);
    r := Ok(located + [eofToken]);
  }
}
