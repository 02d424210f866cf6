/**
 * The hand-written DFA lexer of src/frontend/lexer.py: one step method per
 * node, the operator match against the two tries, token-type prediction
 * for unquoted words and numbers, and the lex loop.
 */
module Lexer {
  import opened Wrappers
  import opened MaxMunch
  import opened LexerConstants
  import opened LexerUtil

  // ---------------------------------------------------------------- tokens

  /** The running balance of `open` minus `close` tokens. */
  function Balance(tokens: seq<Token>, open: string, close: string): int
    decreases |tokens|
  {
    if tokens == [] then 0
    else
      var last := tokens[|tokens| - 1].tokenType;
      Balance(tokens[..|tokens| - 1], open, close) + (if last == open then 1 else if last == close then -1 else 0)
  }

  lemma {:induction false} BalanceAppend(a: seq<Token>, b: seq<Token>, open: string, close: string)
    ensures Balance(a + b, open, close) == Balance(a, open, close) + Balance(b, open, close)
    decreases |b|
  {
    if b == [] {
      assert a + b == a;
    } else {
      assert (a + b)[..|a + b| - 1] == a + b[..|b| - 1];
      BalanceAppend(a, b[..|b| - 1], open, close);
    }
  }

  predicate IsBracket(tokenType: string)
  {
    tokenType in {"CURLY_OPEN", "CURLY_CLOSE", "PAREN_OPEN", "PAREN_CLOSE", "SQUARE_OPEN", "SQUARE_CLOSE"}
  }

  predicate NoBrackets(tokens: seq<Token>)
  {
    forall i :: 0 <= i < |tokens| ==> !IsBracket(tokens[i].tokenType)
  }

  lemma {:induction false} NoBracketsBalance(tokens: seq<Token>, open: string, close: string)
    requires NoBrackets(tokens) && IsBracket(open) && IsBracket(close)
    ensures Balance(tokens, open, close) == 0
    decreases |tokens|
  {
    if tokens != [] {
      NoBracketsBalance(tokens[..|tokens| - 1], open, close);
    }
  }

  lemma {:induction false} NoBracketsAppend(a: seq<Token>, b: seq<Token>)
    requires NoBrackets(a) && NoBrackets(b)
    ensures NoBrackets(a + b)
  {
    forall i | 0 <= i < |a + b|
      ensures !IsBracket((a + b)[i].tokenType)
    {
      if i >= |a| {
        assert (a + b)[i] == b[i - |a|];
      }
    }
  }

  /** No keyword names a bracket token. */
  lemma {:induction false} KeywordsNotBrackets()
    ensures forall k :: KeywordToken(k).Some? ==> !IsBracket(KeywordToken(k).value)
  {
    assert forall k :: KeywordToken(k).Some? ==> |KeywordToken(k).value| <= 8 || KeywordToken(k).value[0] == 'A';
  }

  lemma {:induction false} Assoc<T>(a: seq<T>, b: seq<T>, c: seq<T>)
    ensures a + b + c == a + (b + c)
  {
  }

  /** The texts of `tokens`, concatenated. */
  function Sources(tokens: seq<Token>): string
  {
    if tokens == [] then [] else tokens[0].source + Sources(tokens[1..])
  }

  lemma {:induction false} SourcesAppend(a: seq<Token>, b: seq<Token>)
    ensures Sources(a + b) == Sources(a) + Sources(b)
    decreases |a|
  {
    if a == [] {
      assert a + b == b;
    } else {
      assert (a + b)[0] == a[0] && (a + b)[1..] == a[1..] + b;
      SourcesAppend(a[1..], b);
    }
  }

  // ------------------------------------------------------- token prediction

  const TOKENS_BEFORE_NAMES: set<string> := {
    "AS", "BREAK", "CATCH", "CLASS", "COLON", "CONTINUE", "DOT", "ELLIPSIS", "FOR", "FN",
    "USE", "LAMBDA", "NAMESPACE", "PAREN_CLOSE", "SQUARE_CLOSE",
    "POWER", "INT_DIV", "TIMES", "DIVIDE", "PLUS", "MINUS", "MOD"
  }

  /** UnquotedLiteral.get_token_type: the type an unquoted word is predicted to have. */
  function UnquotedTokenType(source: string, prev: Option<string>, inBlock: bool): string
  {
    if prev == Some("EXEC_ARG") then "EXEC_ARG"
    else if KeywordToken(source).Some? then KeywordToken(source).value
    else if source == "_" || (|source| >= 2 && source[..2] == "_.") then "IMPLICIT_LAMBDA_PARAM"
    else if inBlock || (prev.Some? && prev.value in TOKENS_BEFORE_NAMES) then "NAME"
    else "EXEC_ARG"
  }

  /**
   * The prediction by outcome: an exec argument stays one, keywords keep
   * their token, a leading `_` is a lambda parameter, and otherwise a word
   * is a name exactly in a block or after a token that precedes names.
   */
  lemma {:induction false} UnquotedTokenTypeCases(source: string, prev: Option<string>, inBlock: bool)
    ensures var t := UnquotedTokenType(source, prev, inBlock);
      && (prev == Some("EXEC_ARG") ==> t == "EXEC_ARG")
      && (prev != Some("EXEC_ARG") && KeywordToken(source).Some? ==> t == KeywordToken(source).value)
      && (t == "IMPLICIT_LAMBDA_PARAM" <==>
            prev != Some("EXEC_ARG") && KeywordToken(source).None? && (source == "_" || (|source| >= 2 && source[..2] == "_.")))
      && (t == "NAME" <==>
            prev != Some("EXEC_ARG") && KeywordToken(source).None? && source != "_" && !(|source| >= 2 && source[..2] == "_.")
            && (inBlock || (prev.Some? && prev.value in TOKENS_BEFORE_NAMES)))
      && !IsBracket(t)
  {
    KeywordsNotBrackets();
    assert forall k :: KeywordToken(k).Some? ==> KeywordToken(k).value != "NAME" && KeywordToken(k).value != "IMPLICIT_LAMBDA_PARAM";
  }

  /** No predicted type of an unquoted word is a bracket. */
  lemma {:induction false} UnquotedNotBracket(source: string, prev: Option<string>, inBlock: bool)
    ensures !IsBracket(UnquotedTokenType(source, prev, inBlock))
  {
    KeywordsNotBrackets();
  }

  /** NumberNode.get_token_type. */
  function NumberTokenType(hasDecimal: bool, prev: Option<string>): (t: string)
    ensures t == "EXEC_ARG" <==> prev == Some("EXEC_ARG")
    ensures t != "EXEC_ARG" ==> (t == "FLOAT" <==> hasDecimal) && (t == "INTEGER" <==> !hasDecimal)
  {
    if prev == Some("EXEC_ARG") then "EXEC_ARG" else if hasDecimal then "FLOAT" else "INTEGER"
  }

  // ------------------------------------------------------------ name parts

  /** Python's `s.split('.')`: the pieces between dots, empty ones included. */
  function Split(s: string): (parts: seq<string>)
    ensures |parts| >= 1
  {
    if s == [] then [""]
    else if s[0] == '.' then [""] + Split(s[1..])
    else var r := Split(s[1..]); [[s[0]] + r[0]] + r[1..]
  }

  /** The pieces joined with dots. */
  function Join(parts: seq<string>): string
  {
    if parts == [] then ""
    else if |parts| == 1 then parts[0]
    else parts[0] + "." + Join(parts[1..])
  }

  /** Splitting on dots yields dot-free pieces that join back to the word. */
  lemma {:induction false} SplitJoin(s: string)
    ensures Join(Split(s)) == s
    ensures forall i :: 0 <= i < |Split(s)| ==> '.' !in Split(s)[i]
    decreases |s|
  {
    if s != [] {
      SplitJoin(s[1..]);
      var r := Split(s[1..]);
      if s[0] == '.' {
        assert Split(s)[1..] == r;
      } else {
        var parts := Split(s);
        assert parts[1..] == r[1..];
        if |r| > 1 {
          assert r == [r[0]] + r[1..];
        }
        forall i | 0 <= i < |parts|
          ensures '.' !in parts[i]
        {
          if i > 0 {
            assert parts[i] == r[i];
          }
        }
      }
    }
  }

  /** The tokens for one piece: a name or lambda parameter if non-empty, then a dot unless it is the last. */
  function PartTokens(part: string, more: bool): seq<Token>
  {
    (if part == [] then [] else [Token(if part == "_" then "IMPLICIT_LAMBDA_PARAM" else "NAME", part)])
    + (if more then [Token("DOT", ".")] else [])
  }

  function NameTokens(parts: seq<string>): seq<Token>
  {
    if parts == [] then [] else PartTokens(parts[0], |parts| > 1) + NameTokens(parts[1..])
  }

  /** The name-part tokens spell out the dotted word, and none is a bracket. */
  lemma {:induction false} NameTokensSpell(parts: seq<string>)
    ensures Sources(NameTokens(parts)) == Join(parts)
    ensures NoBrackets(NameTokens(parts))
    decreases |parts|
  {
    if parts != [] {
      NameTokensSpell(parts[1..]);
      var head := PartTokens(parts[0], |parts| > 1);
      SourcesAppend(head, NameTokens(parts[1..]));
      if parts[0] == [] {
        assert Sources(head) == (if |parts| > 1 then "." else "");
      } else {
        var t := Token(if parts[0] == "_" then "IMPLICIT_LAMBDA_PARAM" else "NAME", parts[0]);
        assert Sources([t]) == parts[0];
        SourcesAppend([t], if |parts| > 1 then [Token("DOT", ".")] else []);
      }
      assert Sources([Token("DOT", ".")]) == ".";
    }
  }

  /** The word before `(`, `:` or `=` becomes its name-part tokens, spelling out the word. */
  lemma {:induction false} DottedNameTokens(source: string)
    ensures Sources(NameTokens(Split(source))) == source
    ensures NoBrackets(NameTokens(Split(source)))
  {
    SplitJoin(source);
    NameTokensSpell(Split(source));
  }

  // -------------------------------------------------------- operator match

  /** Arithmetic operators are recognised inside brackets or when the last token was no exec argument. */
  predicate AllowArithmetic(inBlock: bool, prev: Option<string>)
  {
    inBlock || prev != Some("EXEC_ARG")
  }

  /** The table match_operator uses: all operators when arithmetic is allowed, else the non-arithmetic ones. */
  function ChooseTable(allowArithmetic: bool, nonArithmetic: map<string, string>, all: map<string, string>): map<string, string>
  {
    if allowArithmetic then all else nonArithmetic
  }

  /** A munch result as match_operator answers it: the operator's text at `head` and its token. */
  function AsMatch(data: string, head: nat, m: Option<MaxMunchResult<string>>): Option<(string, string)>
  {
    if m.Some? then Some((PySlice(data, head, head + m.value.length), m.value.token)) else None
  }

  /** What match_operator answers: the longest operator of `table` at `head`, with its text. */
  ghost function MatchSpec(data: string, head: nat, table: map<string, string>): Option<(string, string)>
  {
    AsMatch(data, head, LookupSpec(table, data, head))
  }

  /** The trie match_operator walks: the arithmetic one where arithmetic is allowed. */
  function ChooseTrie(allowArithmetic: bool, tries: OperatorTries): MaxMunchTrie<string>
  {
    if allowArithmetic then tries.all else tries.nonArithmetic
  }

  /** The operator the walk of `trie` finds at `head`, with its text. */
  function MatchIn(data: string, head: nat, trie: MaxMunchTrie<string>): Option<(string, string)>
  {
    AsMatch(data, head, Walk(trie.root, Suffix(data, head)))
  }

  /** On a trie built for a table, the walk finds what the table specifies. */
  lemma {:induction false} MatchInTable(data: string, head: nat, trie: MaxMunchTrie<string>, table: map<string, string>)
    requires Represents(trie.root, table, 0)
    ensures MatchIn(data, head, trie) == MatchSpec(data, head, table)
  {
    WalkLookup(trie.root, table, data, head);
  }

  /** EggLexer.match_operator: the longest operator at the head, from the trie the context allows. */
  method MatchOperator(state: LexerState, tries: OperatorTries) returns (r: Option<(string, string)>)
    requires 0 <= state.head
    ensures r == MatchIn(state.data, state.head, ChooseTrie(AllowArithmetic(state.InBlock(), state.prevTokenType), tries))
  {
    var allow := state.InBlock() || state.GetPrev() != Some("EXEC_ARG");
    var m: Option<MaxMunchResult<string>>;
    if allow {
      m := LargestPrefix(tries.all, state.data, state.head);
    } else {
      m := LargestPrefix(tries.nonArithmetic, state.data, state.head);
    }
    if m.Some? {
      r := Some((PySlice(state.data, state.head, state.head + m.value.length), m.value.token));
    } else {
      r := None;
    }
  }

  /** A match is an operator of the table written at `head`, and no longer operator is. */
  lemma {:induction false} MatchSound(data: string, head: nat, table: map<string, string>)
    requires forall p :: p in table ==> |p| >= 1
    requires MatchSpec(data, head, table).Some?
    ensures var (pattern, operator) := MatchSpec(data, head, table).value;
      && 1 <= |pattern| && head + |pattern| <= |data| && data[head..head + |pattern|] == pattern
      && pattern in table && table[pattern] == operator
      && forall p :: p in table && p <= data[head..] ==> |p| <= |pattern|
  {
    LookupSound(table, data, head);
    var m := LookupSpec(table, data, head).value;
    assert data[head..][..m.length] == data[head..head + m.length];
    forall p | p in table && p <= data[head..]
      ensures |p| <= m.length
    {
      LookupLongest(table, data, head, p);
    }
  }

  /** Two dots always match an operator of a table with the usual dot operators: `..` or `...`. */
  lemma {:induction false} DotDotMatches(data: string, head: nat, table: map<string, string>)
    requires DotShape(table)
    requires head + 1 < |data| && data[head] == '.' && data[head + 1] == '.'
    ensures MatchSpec(data, head, table).Some?
  {
    var rest := Suffix(data, head);
    assert rest[..1] <= ".." && rest[..2] == "..";
    assert PrefixOfSome(table, rest[..1]) && PrefixOfSome(table, rest[..2]);
    assert Walked(table, rest, 0) == Walked(table, rest, 2);
    if 2 < |rest| && PrefixOfSome(table, rest[..3]) {
      var p :| p in table && rest[..3] <= p;
      assert p[0] == '.' && p[1] == '.' && |p| >= 3;
      assert p == "...";
      assert rest[..3] == "...";
      if 3 < |rest| {
        forall q | q in table
          ensures !(rest[..4] <= q)
        {
          assert rest[..4][0] == '.' && rest[..4][1] == '.';
        }
      }
      assert Walked(table, rest, 3) == 3;
      assert Walked(table, rest, 0) == 3;
    } else {
      assert Walked(table, rest, 0) == 2;
    }
  }

  // ------------------------------------------------------- one node step

  /** What one node step yields: the new state, the tokens emitted and the error raised, if any. */
  datatype StepResult = StepResult(snap: Snap, tokens: seq<Token>, err: Option<LexerError>)

  /** A state a node can step from: the head on a character of a sentinel-ended input. */
  predicate At(data: string, s: Snap)
  {
    Sentinel(data) && 0 <= s.head < |data| && 0 <= s.tokenStart
  }

  function Emit(s: Snap, tokens: seq<Token>): StepResult
  {
    StepResult(s, tokens, None)
  }

  /** A LexerError raised at the head; nothing is emitted and the state stays as it was. */
  function Raise(data: string, s: Snap, problem: string): StepResult
    requires 0 <= s.head < |data|
  {
    StepResult(s, [], Some(LexerError(problem, s.head, [data[s.head]], s.node)))
  }

  /** The token text from the token start up to, not including, `end`. */
  function Source(data: string, s: Snap, end: int): string
    requires 0 <= s.tokenStart
  {
    PySlice(data, s.tokenStart, end)
  }

  /** A newline outside parentheses ends a statement. */
  function Semicolon(paren: int): seq<Token>
  {
    if paren == 0 then [Token("SEMICOLON", "")] else []
  }

  predicate InBlockOf(s: Snap)
  {
    s.curly > 0 || s.paren > 0 || s.square > 0
  }

  /** The operator match_operator finds in state `s`. */
  function MatchAt(data: string, s: Snap, tries: OperatorTries): Option<(string, string)>
    requires 0 <= s.head
  {
    MatchIn(data, s.head, ChooseTrie(AllowArithmetic(InBlockOf(s), s.prev), tries))
  }

  /**
   * StartNode.step, given whether the character starts some operator and
   * the operator matched at the head.
   */
  function StartSpec(data: string, s: Snap, firstChar: bool, m: Option<(string, string)>): StepResult
    requires At(data, s)
  {
    var h := s.head;
    var c := data[h];
    if c == '\n' then Emit(s.(prev := None), Semicolon(s.paren))
    else if IsSpace(c) then Emit(s, [])
    else if firstChar && m.Some? then Emit(s.(tokenStart := h, node := Operators(m.value.0, m.value.1), head := h - 1), [])
    else match Entry(data, h)
      case None => Raise(data, s, "Read unimplemented char")
      case Some(e) => Emit(s.(tokenStart := h + e.skip, node := e.node, head := if e.stepBack then h - 1 else h), [])
  }

  /** A node the start node hands over to: the token starts `skip` characters on, and the head may step back. */
  datatype Entered = Entered(node: Node, skip: nat, stepBack: bool)

  /** The node a character that is no operator starts, if any. */
  function Entry(data: string, h: int): Option<Entered>
    requires 0 <= h < |data| && Sentinel(data)
  {
    var c := data[h];
    if IsDigit(c) || (c == '-' && IsDigit(data[h + 1])) then Some(Entered(Number(false, true), 0, true))
    else if IsAlpha(c) || UnquotedSymbol(c) then Some(Entered(UnquotedLiteral, 0, true))
    else if c == '#' then Some(Entered(Comment, 0, false))
    else if c == '@' then Some(Entered(Identifier, 1, false))
    else if c == '"' || c == '\'' then Some(Entered(QuotedLiteral(c, false), 1, false))
    else if c == '`' then Some(Entered(QuotedArgList(false, false, None), 1, false))
    else None
  }

  /** The bracket depths after an operator: an opening bracket deepens its kind by one, a closing one lifts it. */
  function Tracked(s: Snap, op: string): Snap
  {
    if op == "CURLY_OPEN" then s.(curly := s.curly + 1)
    else if op == "CURLY_CLOSE" then s.(curly := s.curly - 1)
    else if op == "PAREN_OPEN" then s.(paren := s.paren + 1)
    else if op == "PAREN_CLOSE" then s.(paren := s.paren - 1)
    else if op == "SQUARE_OPEN" then s.(square := s.square + 1)
    else if op == "SQUARE_CLOSE" then s.(square := s.square - 1)
    else s
  }

  /** OperatorsNode.step: read the rest of the pattern, track brackets, emit the operator. */
  function OperatorsSpec(data: string, s: Snap): StepResult
    requires At(data, s) && s.node.Operators?
  {
    var op := s.node.operator;
    var end := s.head + |s.node.pattern| - 1;
    Emit(Tracked(s, op).(head := end, node := Start, prev := Some(op)), [Token(op, PySlice(data, s.tokenStart, end + 1))])
  }

  /** CommentNode.step: a newline ends the comment; it does not forget the previous token. */
  function CommentSpec(data: string, s: Snap): StepResult
    requires At(data, s)
  {
    if data[s.head] == '\n' then Emit(s.(node := Start), Semicolon(s.paren)) else Emit(s, [])
  }

  /** IdentifierNode.step: an `@name`, ended by a dot or a delimiter, and never empty. */
  function IdentifierSpec(data: string, s: Snap): StepResult
    requires At(data, s)
  {
    var h := s.head;
    var c := data[h];
    if c == '.' && data[h + 1] != '.' then
      if s.tokenStart == h then Raise(data, s, "Identifier is empty")
      else Emit(s.(prev := Some("DOT"), tokenStart := h + 1), [Token("NAME", Source(data, s, h)), Token("DOT", ".")])
    else if IsSpace(c) || IdentifierEnd(c) then
      if s.tokenStart == h then Raise(data, s, "Identifier is empty")
      else Emit(s.(prev := Some("NAME"), node := Start, head := h - 1), [Token("NAME", Source(data, s, h))])
    else if c == '@' then Raise(data, s, "Read unexpected char")
    else Emit(s, [])
  }

  /** QuotedLiteralNode.step: a backslash escapes the next character; the closing quote ends the string. */
  function QuotedLiteralSpec(data: string, s: Snap): StepResult
    requires At(data, s) && s.node.QuotedLiteral?
  {
    var c := data[s.head];
    var QuotedLiteral(quote, escaped) := s.node;
    if escaped || c == '\\' then Emit(s.(node := QuotedLiteral(quote, !escaped)), [])
    else if c == quote then
      var t := if s.prev == Some("EXEC_ARG") then "EXEC_ARG" else "QUOTED_STRING";
      Emit(s.(prev := Some(t), node := Start), [Token(t, Source(data, s, s.head))])
    else Emit(s, [])
  }

  /** The exec argument pending before a delimiter inside backquotes, if one has started. */
  function Pending(data: string, s: Snap): seq<Token>
    requires 0 <= s.tokenStart
  {
    if s.head != s.tokenStart then [Token("EXEC_ARG", Source(data, s, s.head))] else []
  }

  /**
   * QuotedArgListNode.step: inside backquotes, quoted pieces and
   * whitespace-separated words are exec arguments, `|` is a pipe, and the
   * closing backquote returns to the start node.
   */
  function QuotedArgListSpec(data: string, s: Snap): StepResult
    requires At(data, s) && s.node.QuotedArgList?
  {
    var h := s.head;
    var c := data[h];
    var QuotedArgList(escaped, quoted, quote) := s.node;
    var pending := Pending(data, s);
    var prev := if pending == [] then s.prev else Some("EXEC_ARG");
    if escaped || c == '\\' then Emit(s.(node := QuotedArgList(!escaped, quoted, quote)), [])
    else if c == '\'' || c == '"' then
      if !quoted then Emit(s.(node := QuotedArgList(escaped, true, Some(c)), tokenStart := h + 1), [])
      else if Some(c) == quote then
        Emit(s.(node := QuotedArgList(escaped, false, None), tokenStart := h + 1, prev := Some("EXEC_ARG")),
             [Token("EXEC_ARG", Source(data, s, h))])
      else Emit(s, [])
    else if quoted then Emit(s, [])
    else if c == '|' then Emit(s.(tokenStart := h + 1, prev := prev), pending + [Token("PIPE", "|")])
    else if IsSpace(c) then Emit(s.(tokenStart := h + 1, prev := prev), pending)
    else if c == '`' then Emit(s.(node := Start, prev := prev), pending)
    else Emit(s, [])
  }

  /** The character classes UnquotedLiteral.step tests a looked-ahead character against. */
  datatype CharClass = CallOrAssign | WordEnd | AtSign

  /**
   * Python's `c in s` for a string `c` of at most one character and `s` one
   * of "(:=", "<>{}[])|;,\n" and "@": the empty string is in every string.
   */
  predicate PyIn(c: string, cls: CharClass)
  {
    c == [] || (
      match cls
      case CallOrAssign => c[0] == '(' || c[0] == ':' || c[0] == '='
      case WordEnd => WordEndChar(c[0])
      case AtSign => c[0] == '@')
  }

  /** The first non-whitespace character from `from` on, as a string of length one, or "" when none. */
  function NextNonSpace(data: string, from: nat): (r: string)
    ensures r == [] || (from < |data| && |r| == 1 && !IsSpace(r[0]))
    decreases |data| - from
  {
    if from >= |data| then [] else if !IsSpace(data[from]) then [data[from]] else NextNonSpace(data, from + 1)
  }

  lemma {:induction false} NextNonSpaceIs(data: string, from: nat, n: Option<char>)
    requires n.None? <==> forall j :: from <= j < |data| ==> IsSpace(data[j])
    requires n.Some? ==> exists j :: from <= j < |data| && data[j] == n.value && !IsSpace(data[j])
                            && forall k :: from <= k < j ==> IsSpace(data[k])
    ensures NextNonSpace(data, from) == if n.Some? then [n.value] else []
    ensures n.Some? ==> from < |data|
    decreases |data| - from
  {
    if from < |data| && IsSpace(data[from]) {
      if n.Some? {
        var j :| from <= j < |data| && data[j] == n.value && !IsSpace(data[j])
                 && forall k :: from <= k < j ==> IsSpace(data[k]);
        assert j != from;
      }
      NextNonSpaceIs(data, from + 1, n);
    } else if from < |data| && n.Some? {
      var j :| from <= j < |data| && data[j] == n.value && !IsSpace(data[j])
               && forall k :: from <= k < j ==> IsSpace(data[k]);
      assert j == from;
    }
  }

  /** The previous token type after emitting `tokens` through get_token: the last one's, if any. */
  function PrevAfter(prev: Option<string>, tokens: seq<Token>): Option<string>
  {
    if tokens == [] then prev else Some(tokens[|tokens| - 1].tokenType)
  }

  /** The character UnquotedLiteral.step decides on: after whitespace other than a newline, the next non-whitespace one. */
  function Decided(data: string, h: int): (c: string)
    requires 0 <= h < |data|
    ensures |c| <= 1
  {
    if IsSpace(data[h]) && data[h] != '\n' then NextNonSpace(data, h + 1) else [data[h]]
  }

  /** How UnquotedLiteral.step treats the character it decides on. */
  datatype Cut = CutAtDot | CutBeforeCall | CutAtDelimiter | CutUnexpected | NoCut

  /**
   * The branch UnquotedLiteral.step takes on the decided character `c`,
   * with `space` when the head is on whitespace other than a newline and
   * `nextDot` when the character after the head is a dot.
   */
  function CutOf(c: string, space: bool, nextDot: bool, predicted: string): Cut
  {
    if c == "." && !nextDot && (predicted == "NAME" || predicted == "IMPLICIT_LAMBDA_PARAM") then CutAtDot
    else if PyIn(c, CallOrAssign) then CutBeforeCall
    else if space || PyIn(c, WordEnd) || (c == "." && nextDot) then CutAtDelimiter
    else if PyIn(c, AtSign) then CutUnexpected
    else NoCut
  }

  /**
   * The branch UnquotedLiteral.step takes at the head. The dot test reads
   * the character after the head even when the decided character lies
   * further on.
   */
  function UnquotedCut(data: string, s: Snap): Cut
    requires At(data, s)
  {
    var h := s.head;
    CutOf(Decided(data, h), IsSpace(data[h]) && data[h] != '\n', h + 1 < |data| && data[h + 1] == '.',
          UnquotedTokenType(Source(data, s, h), s.prev, InBlockOf(s)))
  }

  /** A name before a dot: the name, if any, then the dot. */
  function DotAfterWord(s: Snap, source: string, predicted: string): StepResult
  {
    Emit(s.(prev := Some("DOT"), node := Start),
         (if source != [] then [Token(predicted, source)] else []) + [Token("DOT", ".")])
  }

  /**
   * A word before a call or assignment: a keyword keeps its token, any
   * other word becomes its dotted name parts. The head steps back.
   */
  function WordBeforeCall(s: Snap, source: string, predicted: string): StepResult
  {
    var tokens := if KeywordToken(source).Some? then [Token(predicted, source)] else NameTokens(Split(source));
    Emit(s.(prev := PrevAfter(s.prev, tokens), node := Start, head := s.head - 1), tokens)
  }

  /** A word at whitespace or a delimiter: one token, and a statement end at a newline. The head steps back. */
  function WordAtDelimiter(s: Snap, source: string, predicted: string, newline: bool): StepResult
  {
    Emit(s.(prev := Some(predicted), node := Start, head := s.head - 1),
         [Token(predicted, source)] + (if newline then Semicolon(s.paren) else []))
  }

  /** UnquotedLiteral.step. */
  function UnquotedSpec(data: string, s: Snap): StepResult
    requires At(data, s)
  {
    var source := Source(data, s, s.head);
    var predicted := UnquotedTokenType(source, s.prev, InBlockOf(s));
    match UnquotedCut(data, s)
    case CutAtDot => DotAfterWord(s, source, predicted)
    case CutBeforeCall => WordBeforeCall(s, source, predicted)
    case CutAtDelimiter => WordAtDelimiter(s, source, predicted, Decided(data, s.head) == "\n")
    case CutUnexpected => Raise(data, s, "Read unexpected char from unquoted esxpression")
    case NoCut => Emit(s, [])
  }

  /** The letters from `pos` on, up to the first non-letter. */
  function AlphaRun(data: string, pos: nat): (run: string)
    ensures run == [] || pos + |run| <= |data|
    decreases |data| - pos
  {
    if pos < |data| && IsAlpha(data[pos]) then [data[pos]] + AlphaRun(data, pos + 1) else []
  }

  function LowerAll(s: string): (r: string)
    ensures |r| == |s|
  {
    if s == [] then [] else [Lower(s[0])] + LowerAll(s[1..])
  }

  lemma {:induction false} LowerAllAppend(s: string, c: char)
    ensures LowerAll(s + [c]) == LowerAll(s) + [Lower(c)]
  {
    if s != [] {
      assert (s + [c])[1..] == s[1..] + [c];
      LowerAllAppend(s[1..], c);
    }
  }

  /** A maximal run of letters from `pos` is AlphaRun. */
  lemma {:induction false} AlphaRunIs(data: string, pos: nat, n: nat)
    requires pos + n <= |data|
    requires forall k :: pos <= k < pos + n ==> IsAlpha(data[k])
    requires pos + n == |data| || !IsAlpha(data[pos + n])
    ensures AlphaRun(data, pos) == data[pos..pos + n]
    decreases n
  {
    if n > 0 {
      AlphaRunIs(data, pos + 1, n - 1);
      assert data[pos..pos + n] == [data[pos]] + data[pos + 1..pos + n];
    }
  }

  /** NumberNode.get_units: the lower-cased letters at the head, which must name a unit. */
  method GetUnits(state: LexerState, c: char) returns (unit: Option<string>, err: Option<LexerError>)
    requires 0 <= state.head < |state.data| && c == state.data[state.head]
    ensures !IsAlpha(c) ==> unit.None? && err.None?
    ensures IsAlpha(c) ==>
      var u := LowerAll(AlphaRun(state.data, state.head));
      if UnitKind(u).Some? then unit == Some(u) && err.None?
      else unit.None? && err == Some(state.MakeError("Number literal has unknown unit: " + u))
  {
    if !IsAlpha(c) {
      return None, None;
    }
    var head := state.head;
    var u := [Lower(c)];
    var i := 0;
    assert state.data[head..head + 1] == [c];
    while i < |state.data| - head - 1 && IsAlpha(state.data[head + 1 + i])
      invariant 0 <= i <= |state.data| - head - 1
      invariant u == LowerAll(state.data[head..head + 1 + i])
      invariant forall k :: head <= k < head + 1 + i ==> IsAlpha(state.data[k])
      decreases |state.data| - head - 1 - i
    {
      var next := state.data[head + 1 + i];
      LowerAllAppend(state.data[head..head + 1 + i], next);
      assert state.data[head..head + 2 + i] == state.data[head..head + 1 + i] + [next];
      u := u + [Lower(next)];
      i := i + 1;
    }
    AlphaRunIs(state.data, head, 1 + i);
    if UnitKind(u).None? {
      return None, Some(state.MakeError("Number literal has unknown unit: " + u));
    }
    return Some(u), None;
  }

  /**
   * NumberNode.step: digits with at most one decimal point. A number ends
   * at `..` or at another non-digit; letters after a number in an
   * expression are read as its unit. The node's first-character flag is
   * cleared after every step that keeps the node.
   */
  function NumberSpec(data: string, s: Snap): StepResult
    requires At(data, s) && s.node.Number?
  {
    var c := data[s.head];
    if c == '.' then NumberAtDot(data, s)
    else if !(IsDigit(c) || (s.node.firstChar && c == '-')) then NumberEnd(data, s)
    else Emit(s.(node := Number(s.node.hasDecimal, false)), [])
  }

  /** A dot in a number: `..` ends it, a second decimal point is an error, else the number has a decimal. */
  function NumberAtDot(data: string, s: Snap): StepResult
    requires At(data, s) && s.node.Number? && data[s.head] == '.'
  {
    var h := s.head;
    var t := NumberTokenType(s.node.hasDecimal, s.prev);
    if data[h + 1] == '.' then Emit(s.(prev := Some(t), node := Start, head := h - 1), [Token(t, Source(data, s, h))])
    else if s.node.hasDecimal then Raise(data, s, "Read unexpected char")
    else Emit(s.(node := Number(true, false)), [])
  }

  /** A number ends at another character: with a unit when letters follow in an expression. */
  function NumberEnd(data: string, s: Snap): StepResult
    requires At(data, s) && s.node.Number?
  {
    var h := s.head;
    var t := NumberTokenType(s.node.hasDecimal, s.prev);
    if t != "EXEC_ARG" && IsAlpha(data[h]) then WithUnit(data, s, t)
    else Emit(s.(prev := Some(t), node := Start, head := h - 1), [Token(t, Source(data, s, h))])
  }

  /** The letters at the head name the number's unit; the token does not become the previous one. */
  function WithUnit(data: string, s: Snap, t: string): StepResult
    requires At(data, s)
  {
    var u := LowerAll(AlphaRun(data, s.head));
    if UnitKind(u).Some? then Emit(s.(node := Start, head := s.head + |u| - 1), [Token("UNIT_" + t, Source(data, s, s.head) + ":" + u)])
    else Raise(data, s, "Number literal has unknown unit: " + u)
  }

  /** The nodes that read a literal: quoted, backquoted, unquoted or a number. */
  predicate ReadsLiteral(node: Node)
  {
    node.QuotedLiteral? || node.QuotedArgList? || node.UnquotedLiteral? || node.Number?
  }

  /** The step of the current node. */
  function NodeSpec(data: string, s: Snap, firstChar: bool, m: Option<(string, string)>): StepResult
    requires At(data, s)
  {
    if ReadsLiteral(s.node) then LiteralSpec(data, s)
    else SymbolSpec(data, s, firstChar, m)
  }

  /** The step of the start, operators, comment and identifier nodes. */
  function SymbolSpec(data: string, s: Snap, firstChar: bool, m: Option<(string, string)>): StepResult
    requires At(data, s) && !ReadsLiteral(s.node)
  {
    match s.node
    case Start => StartSpec(data, s, firstChar, m)
    case Operators(_, _) => OperatorsSpec(data, s)
    case Comment => CommentSpec(data, s)
    case Identifier => IdentifierSpec(data, s)
  }

  /** The step of the nodes that read a literal. */
  function LiteralSpec(data: string, s: Snap): StepResult
    requires At(data, s) && ReadsLiteral(s.node)
  {
    match s.node
    case QuotedLiteral(_, _) => QuotedLiteralSpec(data, s)
    case QuotedArgList(_, _, _) => QuotedArgListSpec(data, s)
    case UnquotedLiteral => UnquotedSpec(data, s)
    case Number(_, _) => NumberSpec(data, s)
  }

  /** EggLexer.step: the node's step, then the head moves on by one unless the node raised. */
  function StepSpec(data: string, s: Snap, firstChar: bool, m: Option<(string, string)>): StepResult
    requires At(data, s)
  {
    Advance(NodeSpec(data, s, firstChar, m))
  }

  /** After a node step that did not raise, the head moves on by one. */
  function Advance(r: StepResult): StepResult
  {
    if r.err.None? then r.(snap := r.snap.(head := r.snap.head + 1)) else r
  }
  // ------------------------------------------------- what every step keeps

  /** Characters the start node hands to UnquotedLiteral without an operator match. */
  predicate UnquotedStart(data: string, pos: int)
  {
    && 0 <= pos < |data|
    && (IsAlpha(data[pos]) || UnquotedSymbol(data[pos]))
    && !(data[pos] == '.' && pos + 1 < |data| && data[pos + 1] == '.')
  }

  /**
   * How many more times a node may step the head back without reading on:
   * a node that steps back hands over to one of smaller budget, so at most
   * two steps in a row stay on the same character.
   */
  function StallBudget(node: Node, data: string, pos: int): nat
  {
    match node
    case Start => 1
    case Operators(_, _) => 0
    case Number(_, first) => if first && 0 <= pos < |data| && (IsDigit(data[pos]) || data[pos] == '-') then 0 else 2
    case UnquotedLiteral => if UnquotedStart(data, pos) then 0 else 2
    case Identifier => 2
    case _ => 0
  }

  /** An operators node at `pos` sits on its pattern, which is where its token starts. */
  predicate Fits(data: string, s: Snap, pos: int)
  {
    s.node.Operators? ==>
      var p := s.node.pattern;
      1 <= |p| && 0 <= pos && pos + |p| <= |data| && data[pos..pos + |p|] == p && s.tokenStart == pos
  }

  /** A well-behaved operator match: it sits on its pattern, and two dots always match. */
  predicate MatchOk(data: string, h: int, firstChar: bool, m: Option<(string, string)>)
  {
    && (m.Some? ==> var p := m.value.0; 1 <= |p| && 0 <= h && h + |p| <= |data| && data[h..h + |p|] == p)
    && (0 <= h && h + 1 < |data| && data[h] == '.' && data[h + 1] == '.' ==> firstChar && m.Some?)
  }

  /** The depths change by the balance of the bracket tokens emitted. */
  predicate Balanced(before: Snap, after: Snap, tokens: seq<Token>)
  {
    && after.curly == before.curly + Balance(tokens, "CURLY_OPEN", "CURLY_CLOSE")
    && after.paren == before.paren + Balance(tokens, "PAREN_OPEN", "PAREN_CLOSE")
    && after.square == before.square + Balance(tokens, "SQUARE_OPEN", "SQUARE_CLOSE")
  }

  /**
   * What a node step keeps: the depths follow the brackets emitted; an
   * error emits nothing and leaves the state as it was; otherwise the head
   * stays on the input, moves back by at most one and then only into a
   * node of smaller budget, and an operators node lands on its pattern.
   */
  predicate NodeSound(data: string, s: Snap, r: StepResult)
  {
    && Balanced(s, r.snap, r.tokens)
    && (r.err.Some? ==> r.snap == s && r.tokens == [])
    && (r.err.None? ==>
         && 0 <= r.snap.tokenStart
         && s.head - 1 <= r.snap.head < |data|
         && (r.snap.head + 1 < |data| ==> Fits(data, r.snap, r.snap.head + 1))
         && (r.snap.head + 1 == s.head ==> StallBudget(r.snap.node, data, s.head) < StallBudget(s.node, data, s.head)))
  }

  lemma {:induction false} KeepsDepths(s: Snap, r: StepResult)
    requires NoBrackets(r.tokens)
    requires r.snap.curly == s.curly && r.snap.paren == s.paren && r.snap.square == s.square
    ensures Balanced(s, r.snap, r.tokens)
  {
    NoBracketsBalance(r.tokens, "CURLY_OPEN", "CURLY_CLOSE");
    NoBracketsBalance(r.tokens, "PAREN_OPEN", "PAREN_CLOSE");
    NoBracketsBalance(r.tokens, "SQUARE_OPEN", "SQUARE_CLOSE");
  }

  /** The start node never steps back onto a character it would step back from again. */
  lemma {:induction false} StartSound(data: string, s: Snap, firstChar: bool, m: Option<(string, string)>)
    requires At(data, s) && s.node.Start? && MatchOk(data, s.head, firstChar, m)
    ensures NodeSound(data, s, StartSpec(data, s, firstChar, m))
  {
    KeepsDepths(s, StartSpec(data, s, firstChar, m));
  }

  /** An operator token is its pattern, and only bracket operators move the depths. */
  lemma {:induction false} OperatorsSound(data: string, s: Snap)
    requires At(data, s) && s.node.Operators? && Fits(data, s, s.head)
    ensures NodeSound(data, s, OperatorsSpec(data, s))
    ensures OperatorsSpec(data, s).tokens == [Token(s.node.operator, s.node.pattern)]
  {
    var r := OperatorsSpec(data, s);
    assert r.tokens[..0] == [];
  }

  lemma {:induction false} CommentSound(data: string, s: Snap)
    requires At(data, s) && s.node.Comment?
    ensures NodeSound(data, s, CommentSpec(data, s))
  {
    KeepsDepths(s, CommentSpec(data, s));
  }

  lemma {:induction false} IdentifierSound(data: string, s: Snap)
    requires At(data, s) && s.node.Identifier?
    ensures NodeSound(data, s, IdentifierSpec(data, s))
  {
    KeepsDepths(s, IdentifierSpec(data, s));
  }

  lemma {:induction false} QuotedLiteralSound(data: string, s: Snap)
    requires At(data, s) && s.node.QuotedLiteral?
    ensures NodeSound(data, s, QuotedLiteralSpec(data, s))
  {
    KeepsDepths(s, QuotedLiteralSpec(data, s));
  }

  lemma {:induction false} QuotedArgListSound(data: string, s: Snap)
    requires At(data, s) && s.node.QuotedArgList?
    ensures NodeSound(data, s, QuotedArgListSpec(data, s))
  {
    KeepsDepths(s, QuotedArgListSpec(data, s));
  }

  /** UnquotedLiteral steps back only from a character the start node would not hand back to it. */
  lemma {:induction false} UnquotedBackOff(data: string, s: Snap)
    requires At(data, s) && (UnquotedCut(data, s).CutBeforeCall? || UnquotedCut(data, s).CutAtDelimiter?)
    ensures !UnquotedStart(data, s.head)
  {
  }

  lemma {:induction false} DotAfterWordSound(s: Snap, source: string, predicted: string)
    requires !IsBracket(predicted)
    ensures var r := DotAfterWord(s, source, predicted);
      NoBrackets(r.tokens) && r.snap == s.(prev := r.snap.prev, node := Start)
  {
    NoBracketsAppend(if source != [] then [Token(predicted, source)] else [], [Token("DOT", ".")]);
  }

  lemma {:induction false} WordBeforeCallSound(s: Snap, source: string, predicted: string)
    requires !IsBracket(predicted)
    ensures var r := WordBeforeCall(s, source, predicted);
      NoBrackets(r.tokens) && r.snap == s.(prev := r.snap.prev, node := Start, head := s.head - 1)
  {
    DottedNameTokens(source);
  }

  lemma {:induction false} WordAtDelimiterSound(s: Snap, source: string, predicted: string, newline: bool)
    requires !IsBracket(predicted)
    ensures var r := WordAtDelimiter(s, source, predicted, newline);
      NoBrackets(r.tokens) && r.snap == s.(prev := r.snap.prev, node := Start, head := s.head - 1)
  {
    NoBracketsAppend([Token(predicted, source)], if newline then Semicolon(s.paren) else []);
  }

  lemma {:induction false} UnquotedSound(data: string, s: Snap)
    requires At(data, s) && s.node.UnquotedLiteral?
    ensures NodeSound(data, s, UnquotedSpec(data, s))
  {
    var source := Source(data, s, s.head);
    var predicted := UnquotedTokenType(source, s.prev, InBlockOf(s));
    UnquotedNotBracket(source, s.prev, InBlockOf(s));
    var r := UnquotedSpec(data, s);
    match UnquotedCut(data, s)
    case CutAtDot =>
      DotAfterWordSound(s, source, predicted);
      KeepsDepths(s, r);
    case CutBeforeCall =>
      WordBeforeCallSound(s, source, predicted);
      UnquotedBackOff(data, s);
      KeepsDepths(s, r);
    case CutAtDelimiter =>
      WordAtDelimiterSound(s, source, predicted, Decided(data, s.head) == "\n");
      UnquotedBackOff(data, s);
      KeepsDepths(s, r);
    case CutUnexpected =>
    case NoCut =>
  }

  lemma {:induction false} NumberSound(data: string, s: Snap)
    requires At(data, s) && s.node.Number?
    ensures NodeSound(data, s, NumberSpec(data, s))
  {
    var c := data[s.head];
    if c == '.' {
      KeepsDepths(s, NumberAtDot(data, s));
    } else if !(IsDigit(c) || (s.node.firstChar && c == '-')) {
      NumberEndSound(data, s);
    } else {
      KeepsDepths(s, NumberSpec(data, s));
    }
  }

  lemma {:induction false} NumberEndSound(data: string, s: Snap)
    requires At(data, s) && s.node.Number? && !(IsDigit(data[s.head]) || (s.node.firstChar && data[s.head] == '-'))
    ensures NodeSound(data, s, NumberEnd(data, s))
  {
    var t := NumberTokenType(s.node.hasDecimal, s.prev);
    if t != "EXEC_ARG" && IsAlpha(data[s.head]) {
      UnitSound(data, s, t);
    } else {
      KeepsDepths(s, NumberEnd(data, s));
    }
  }

  /** A unit moves the head onto its last letter, and its token is no bracket. */
  lemma {:induction false} UnitSound(data: string, s: Snap, t: string)
    requires At(data, s) && IsAlpha(data[s.head])
    ensures NodeSound(data, s, WithUnit(data, s, t))
  {
    assert AlphaRun(data, s.head) == [data[s.head]] + AlphaRun(data, s.head + 1);
    assert ("UNIT_" + t)[0] == 'U';
    KeepsDepths(s, WithUnit(data, s, t));
  }

  /**
   * What one step of the lexer keeps: an error leaves the state as it was;
   * otherwise the head moves on, or stays while the stall budget drops, and
   * the depths follow the bracket tokens. This is what makes lex terminate.
   */
  predicate StepKeeps(data: string, s: Snap, r: StepResult)
  {
    && Balanced(s, r.snap, r.tokens)
    && (r.err.Some? ==> r.snap == s && r.tokens == [])
    && (r.err.None? ==>
          && 0 <= r.snap.tokenStart
          && s.head <= r.snap.head <= |data|
          && (r.snap.head < |data| ==> Fits(data, r.snap, r.snap.head))
          && (r.snap.head == s.head ==> StallBudget(r.snap.node, data, r.snap.head) < StallBudget(s.node, data, s.head)))
  }

  lemma {:induction false} StepSound(data: string, s: Snap, firstChar: bool, m: Option<(string, string)>)
    requires At(data, s) && Fits(data, s, s.head)
    requires s.node.Start? ==> MatchOk(data, s.head, firstChar, m)
    ensures StepKeeps(data, s, StepSpec(data, s, firstChar, m))
  {
    NodeStepSound(data, s, firstChar, m);
  }

  /** A step taken with tries built for the tables keeps what every step keeps. */
  lemma {:induction false} TriesStepSound(data: string, s: Snap, tries: OperatorTries, nonArithmetic: map<string, string>, all: map<string, string>, r: StepResult)
    requires TriesFor(tries, nonArithmetic, all) && At(data, s) && Fits(data, s, s.head)
    requires r == StepSpec(data, s, data[s.head] in tries.all.firstByte, MatchAt(data, s, tries))
    ensures StepKeeps(data, s, r)
  {
    MatchAtOk(data, s, tries, nonArithmetic, all);
    StepSound(data, s, data[s.head] in tries.all.firstByte, MatchAt(data, s, tries));
  }

  // ------------------------------------------------------ the whole run

  /** What lex yields: the tokens, the error a node raised, if any, and the state the loop stops in. */
  datatype Lexed = Lexed(tokens: seq<Token>, err: Option<LexerError>, snap: Snap)

  /** A state the loop of lex can be in: the head within the input, and an operators node on its pattern. */
  predicate Lexable(data: string, s: Snap)
  {
    Sentinel(data) && 0 <= s.tokenStart && 0 <= s.head <= |data| && (s.head < |data| ==> Fits(data, s, s.head))
  }

  /**
   * The loop of lex from state `s`, `done` tokens yielded so far: it stops
   * once the input is read, and otherwise takes a step.
   */
  ghost function LexRun(data: string, s: Snap, done: seq<Token>, tries: OperatorTries, nonArithmetic: map<string, string>, all: map<string, string>): Lexed
    requires TriesFor(tries, nonArithmetic, all) && Lexable(data, s)
    decreases |data| - s.head, StallBudget(s.node, data, s.head), 1
  {
    if s.head >= |data| then Lexed(done, None, s)
    else LexOn(data, s, done, tries, nonArithmetic, all)
  }

  /**
   * One node step of the loop of lex and the rest of the run: a step that
   * raises yields nothing and ends the run in the state it was in; after
   * any other the run goes on from the new state.
   */
  ghost function LexOn(data: string, s: Snap, done: seq<Token>, tries: OperatorTries, nonArithmetic: map<string, string>, all: map<string, string>): Lexed
    requires TriesFor(tries, nonArithmetic, all) && Lexable(data, s) && s.head < |data|
    decreases |data| - s.head, StallBudget(s.node, data, s.head), 0
  {
    var step := StepSpec(data, s, data[s.head] in tries.all.firstByte, MatchAt(data, s, tries));
    TriesStepSound(data, s, tries, nonArithmetic, all, step);
    if step.err.Some? then Lexed(done, step.err, s)
    else LexRun(data, step.snap, done + step.tokens, tries, nonArithmetic, all)
  }

  /**
   * What a run yields: the tokens so far and then more; either the whole
   * input read, or an error on a character at or after the start; depths
   * changed by the balance of the bracket tokens the run added.
   */
  lemma {:induction false} LexRunYields(data: string, s: Snap, done: seq<Token>, tries: OperatorTries, nonArithmetic: map<string, string>, all: map<string, string>)
    requires TriesFor(tries, nonArithmetic, all) && Lexable(data, s)
    ensures done <= LexRun(data, s, done, tries, nonArithmetic, all).tokens
    ensures LexRun(data, s, done, tries, nonArithmetic, all).err.None? ==> LexRun(data, s, done, tries, nonArithmetic, all).snap.head == |data|
    ensures LexRun(data, s, done, tries, nonArithmetic, all).err.Some? ==> s.head <= LexRun(data, s, done, tries, nonArithmetic, all).snap.head < |data|
    ensures Balanced(s, LexRun(data, s, done, tries, nonArithmetic, all).snap, LexRun(data, s, done, tries, nonArithmetic, all).tokens[|done|..])
    decreases |data| - s.head, StallBudget(s.node, data, s.head)
  {
    var r := LexRun(data, s, done, tries, nonArithmetic, all);
    if s.head >= |data| {
      LexRunEnd(data, s, done, tries, nonArithmetic, all);
      assert r.tokens[|done|..] == [];
    } else {
      var step := StepSpec(data, s, data[s.head] in tries.all.firstByte, MatchAt(data, s, tries));
      TriesStepSound(data, s, tries, nonArithmetic, all, step);
      LexRunStep(data, s, done, step, tries, nonArithmetic, all);
      if step.err.Some? {
        assert r.tokens[|done|..] == [];
      } else {
        var more := done + step.tokens;
        LexRunYields(data, step.snap, more, tries, nonArithmetic, all);
        var rest := r.tokens[|more|..];
        AfterDone(r.tokens, done, step.tokens);
        BalanceAppend(step.tokens, rest, "CURLY_OPEN", "CURLY_CLOSE");
        BalanceAppend(step.tokens, rest, "PAREN_OPEN", "PAREN_CLOSE");
        BalanceAppend(step.tokens, rest, "SQUARE_OPEN", "SQUARE_CLOSE");
      }
    }
  }

  /** What a sequence holds after `done`, when it starts with `done` and then `more`. */
  lemma AfterDone(tokens: seq<Token>, done: seq<Token>, more: seq<Token>)
    requires done + more <= tokens
    ensures done <= tokens && tokens[|done|..] == more + tokens[|done + more|..]
  {
    assert tokens[..|done|] == (done + more)[..|done|];
  }

  /** A run from depths 0 with no tokens yet: the depths are the balances of its tokens; it reads the whole input exactly when no step raises. */
  lemma LexRunStart(data: string, s: Snap, tries: OperatorTries, nonArithmetic: map<string, string>, all: map<string, string>)
    requires TriesFor(tries, nonArithmetic, all) && Lexable(data, s) && s.curly == 0 && s.paren == 0 && s.square == 0
    ensures var r := LexRun(data, s, [], tries, nonArithmetic, all);
      && r.snap.curly == Balance(r.tokens, "CURLY_OPEN", "CURLY_CLOSE")
      && r.snap.paren == Balance(r.tokens, "PAREN_OPEN", "PAREN_CLOSE")
      && r.snap.square == Balance(r.tokens, "SQUARE_OPEN", "SQUARE_CLOSE")
      && (r.err.None? <==> r.snap.head == |data|)
  {
    LexRunYields(data, s, [], tries, nonArithmetic, all);
    var r := LexRun(data, s, [], tries, nonArithmetic, all);
    assert r.tokens[0..] == r.tokens;
  }

  /** Lex's loop ends when the input is read: the run has then yielded the tokens so far, with no error. */
  lemma LexRunEnd(data: string, s: Snap, done: seq<Token>, tries: OperatorTries, nonArithmetic: map<string, string>, all: map<string, string>)
    requires TriesFor(tries, nonArithmetic, all) && Lexable(data, s) && s.head >= |data|
    ensures LexRun(data, s, done, tries, nonArithmetic, all) == Lexed(done, None, s)
  {
  }

  /**
   * One step of the run: one that raises yields nothing, keeps the state and
   * ends the run with the tokens so far; any other moves the head on, or
   * keeps it and lowers the stall budget, and the run goes on from the new
   * state with the step's tokens added.
   */
  lemma LexRunStep(data: string, s: Snap, done: seq<Token>, step: StepResult, tries: OperatorTries, nonArithmetic: map<string, string>, all: map<string, string>)
    requires TriesFor(tries, nonArithmetic, all) && Lexable(data, s) && s.head < |data|
    requires step == StepSpec(data, s, data[s.head] in tries.all.firstByte, MatchAt(data, s, tries))
    ensures step.err.Some? ==> step.tokens == [] && step.snap == s && LexRun(data, s, done, tries, nonArithmetic, all) == Lexed(done, step.err, s)
    ensures step.err.None? ==> Lexable(data, step.snap)
    ensures step.err.None? ==> s.head < step.snap.head || (s.head == step.snap.head && StallBudget(step.snap.node, data, s.head) < StallBudget(s.node, data, s.head))
    ensures step.err.None? ==> LexRun(data, s, done, tries, nonArithmetic, all) == LexRun(data, step.snap, done + step.tokens, tries, nonArithmetic, all)
  {
    TriesStepSound(data, s, tries, nonArithmetic, all, step);
    assert LexRun(data, s, done, tries, nonArithmetic, all) == LexOn(data, s, done, tries, nonArithmetic, all);
  }

  /** Every node step is sound. */
  lemma {:induction false} NodeStepSound(data: string, s: Snap, firstChar: bool, m: Option<(string, string)>)
    requires At(data, s) && Fits(data, s, s.head)
    requires s.node.Start? ==> MatchOk(data, s.head, firstChar, m)
    ensures NodeSound(data, s, NodeSpec(data, s, firstChar, m))
  {
    if ReadsLiteral(s.node) {
      LiteralSound(data, s);
    } else {
      SymbolSound(data, s, firstChar, m);
    }
  }

  lemma {:induction false} SymbolSound(data: string, s: Snap, firstChar: bool, m: Option<(string, string)>)
    requires At(data, s) && Fits(data, s, s.head) && !ReadsLiteral(s.node)
    requires s.node.Start? ==> MatchOk(data, s.head, firstChar, m)
    ensures NodeSound(data, s, SymbolSpec(data, s, firstChar, m))
  {
    match s.node
    case Start => StartSound(data, s, firstChar, m);
    case Operators(_, _) => OperatorsSound(data, s);
    case Comment => CommentSound(data, s);
    case Identifier => IdentifierSound(data, s);
  }

  lemma {:induction false} LiteralSound(data: string, s: Snap)
    requires At(data, s) && ReadsLiteral(s.node)
    ensures NodeSound(data, s, LiteralSpec(data, s))
  {
    match s.node
    case QuotedLiteral(_, _) => QuotedLiteralSound(data, s);
    case QuotedArgList(_, _, _) => QuotedArgListSound(data, s);
    case UnquotedLiteral => UnquotedSound(data, s);
    case Number(_, _) => NumberSound(data, s);
  }

  /** The walk of a trie built for a table with the usual dot operators is well behaved. */
  lemma {:induction false} MatchInOk(data: string, h: nat, firstChar: bool, trie: MaxMunchTrie<string>, table: map<string, string>)
    requires Represents(trie.root, table, 0) && (forall p :: p in table ==> |p| >= 1) && DotShape(table)
    requires h + 1 < |data| && data[h] == '.' && data[h + 1] == '.' ==> firstChar
    ensures MatchOk(data, h, firstChar, MatchIn(data, h, trie))
  {
    MatchInTable(data, h, trie, table);
    if MatchSpec(data, h, table).Some? {
      MatchSound(data, h, table);
    }
    if h + 1 < |data| && data[h] == '.' && data[h + 1] == '.' {
      DotDotMatches(data, h, table);
    }
  }

  /** The tries' match is well behaved. */
  lemma {:induction false} MatchAtOk(data: string, s: Snap, tries: OperatorTries, nonArithmetic: map<string, string>, all: map<string, string>)
    requires TriesFor(tries, nonArithmetic, all) && 0 <= s.head < |data|
    ensures MatchOk(data, s.head, data[s.head] in tries.all.firstByte, MatchAt(data, s, tries))
  {
    var h := s.head;
    var allow := AllowArithmetic(InBlockOf(s), s.prev);
    if h + 1 < |data| && data[h] == '.' && data[h + 1] == '.' {
      assert ".." in all && |".."| > 0 && ".."[0] == data[h];
    }
    MatchInOk(data, h, data[h] in tries.all.firstByte, ChooseTrie(allow, tries), ChooseTable(allow, nonArithmetic, all));
  }

  // ------------------------------------------------------------ the nodes

  /** What a step expects of the state: a sentinel-ended input and the head on a character. */
  ghost predicate Ready(s: LexerState)
    reads s
  {
    s.Valid() && 0 <= s.head < |s.data|
  }

  /** StartNode.step. */
  method StartStep(state: LexerState, c: char, tries: OperatorTries)
    returns (tokens: seq<Token>, err: Option<LexerError>)
    requires Ready(state) && state.stateNode.Start? && c == state.data[state.head]
    modifies state
    ensures StepResult(state.Snapshot(), tokens, err)
         == StartSpec(state.data, old(state.Snapshot()), c in tries.all.firstByte, MatchAt(state.data, old(state.Snapshot()), tries))
  {
    tokens := [];
    err := None;
    var h := state.head;
    if c == '\n' {
      if state.parenDepth == 0 {
        tokens := [Token("SEMICOLON", "")];
      }
      state.ClearPrev();
    } else if IsSpace(c) {
    } else {
      var m: Option<(string, string)> := None;
      if c in tries.all.firstByte {
        m := MatchOperator(state, tries);
      }
      if c in tries.all.firstByte && m.Some? {
        state.tokenStart := h;
        state.GotoNode(Operators(m.value.0, m.value.1), true);
      } else {
        match Entry(state.data, h) {
          case None =>
            err := Some(state.MakeError("Read unimplemented char"));
          case Some(e) =>
            state.tokenStart := h + e.skip;
            state.GotoNode(e.node, e.stepBack);
        }
      }
    }
  }

  /** The bracket tracking of OperatorsNode.step. */
  method TrackDepth(state: LexerState, operator: string)
    modifies state
    ensures state.Snapshot() == Tracked(old(state.Snapshot()), operator)
  {
    if operator == "CURLY_OPEN" {
      state.curlyDepth := state.curlyDepth + 1;
    } else if operator == "CURLY_CLOSE" {
      state.curlyDepth := state.curlyDepth - 1;
    } else if operator == "PAREN_OPEN" {
      state.parenDepth := state.parenDepth + 1;
    } else if operator == "PAREN_CLOSE" {
      state.parenDepth := state.parenDepth - 1;
    } else if operator == "SQUARE_OPEN" {
      state.squareDepth := state.squareDepth + 1;
    } else if operator == "SQUARE_CLOSE" {
      state.squareDepth := state.squareDepth - 1;
    }
  }

  /** OperatorsNode.step. */
  method OperatorsStep(state: LexerState) returns (tokens: seq<Token>)
    requires Ready(state) && state.stateNode.Operators?
    modifies state
    ensures StepResult(state.Snapshot(), tokens, None) == OperatorsSpec(state.data, old(state.Snapshot()))
  {
    var pattern, operator := state.stateNode.pattern, state.stateNode.operator;
    state.StepForward(|pattern| - 1);
    TrackDepth(state, operator);
    var t := state.GetToken(operator, None, true, None);
    tokens := [t];
    state.GotoNode(Start, false);
  }

  /** CommentNode.step. */
  method CommentStep(state: LexerState, c: char) returns (tokens: seq<Token>)
    requires Ready(state) && state.stateNode.Comment? && c == state.data[state.head]
    modifies state
    ensures StepResult(state.Snapshot(), tokens, None) == CommentSpec(state.data, old(state.Snapshot()))
  {
    tokens := [];
    if c == '\n' {
      if state.parenDepth == 0 {
        tokens := [Token("SEMICOLON", "")];
      }
      state.GotoNode(Start, false);
    }
  }

  /** IdentifierNode.step. */
  method IdentifierStep(state: LexerState, c: char) returns (tokens: seq<Token>, err: Option<LexerError>)
    requires Ready(state) && state.stateNode.Identifier? && c == state.data[state.head]
    modifies state
    ensures StepResult(state.Snapshot(), tokens, err) == IdentifierSpec(state.data, old(state.Snapshot()))
  {
    tokens := [];
    err := None;
    var h := state.head;
    if c == '.' && state.NextChar() != '.' {
      if state.tokenStart == h {
        err := Some(state.MakeError("Identifier is empty"));
        return;
      }
      var name := state.GetToken("NAME", None, false, None);
      state.tokenStart := h;
      var dot := state.GetToken("DOT", None, true, None);
      assert state.data[h..h + 1] == ".";
      state.tokenStart := h + 1;
      tokens := [name, dot];
    } else if IsSpace(c) || IdentifierEnd(c) {
      if state.tokenStart == h {
        err := Some(state.MakeError("Identifier is empty"));
        return;
      }
      var name := state.GetToken("NAME", None, false, None);
      tokens := [name];
      state.GotoNode(Start, true);
    } else if c == '@' {
      err := Some(state.MakeError("Read unexpected char"));
    }
  }

  /** QuotedLiteralNode.step. */
  method QuotedLiteralStep(state: LexerState, c: char) returns (tokens: seq<Token>)
    requires Ready(state) && state.stateNode.QuotedLiteral? && c == state.data[state.head]
    modifies state
    ensures StepResult(state.Snapshot(), tokens, None) == QuotedLiteralSpec(state.data, old(state.Snapshot()))
  {
    tokens := [];
    var QuotedLiteral(quote, escaped) := state.stateNode;
    if escaped || c == '\\' {
      state.stateNode := QuotedLiteral(quote, !escaped);
    } else if c == quote {
      var t;
      if state.GetPrev() == Some("EXEC_ARG") {
        t := state.GetToken("EXEC_ARG", None, false, None);
      } else {
        t := state.GetToken("QUOTED_STRING", None, false, None);
      }
      tokens := [t];
      state.GotoNode(Start, false);
    }
  }

  twostate predicate DepthsKept(s: LexerState)
    reads s
  {
    s.curlyDepth == old(s.curlyDepth) && s.parenDepth == old(s.parenDepth) && s.squareDepth == old(s.squareDepth)
  }

  /** The exec argument pending before a delimiter, emitted if the token has started. */
  method EmitPending(state: LexerState) returns (tokens: seq<Token>)
    requires 0 <= state.tokenStart
    modifies state
    ensures tokens == Pending(state.data, old(state.Snapshot()))
    ensures state.prevTokenType == if tokens == [] then old(state.prevTokenType) else Some("EXEC_ARG")
    ensures state.head == old(state.head) && state.tokenStart == old(state.tokenStart)
    ensures state.stateNode == old(state.stateNode) && DepthsKept(state)
  {
    tokens := [];
    if state.head != state.tokenStart {
      var t := state.GetToken("EXEC_ARG", None, false, None);
      tokens := [t];
    }
  }

  /** QuotedArgListNode.step. */
  method QuotedArgListStep(state: LexerState, c: char) returns (tokens: seq<Token>)
    requires Ready(state) && state.stateNode.QuotedArgList? && c == state.data[state.head]
    modifies state
    ensures StepResult(state.Snapshot(), tokens, None) == QuotedArgListSpec(state.data, old(state.Snapshot()))
  {
    tokens := [];
    var QuotedArgList(escaped, quoted, quote) := state.stateNode;
    var h := state.head;
    if escaped || c == '\\' {
      state.stateNode := QuotedArgList(!escaped, quoted, quote);
    } else if c == '\'' || c == '"' {
      if !quoted {
        state.stateNode := QuotedArgList(escaped, true, Some(c));
        state.tokenStart := h + 1;
      } else if Some(c) == quote {
        state.stateNode := QuotedArgList(escaped, false, None);
        var t := state.GetToken("EXEC_ARG", None, false, None);
        tokens := [t];
        state.tokenStart := h + 1;
      }
    } else if quoted {
    } else if c == '|' {
      tokens := EmitPending(state);
      tokens := tokens + [Token("PIPE", "|")];
      state.tokenStart := h + 1;
    } else if IsSpace(c) {
      tokens := EmitPending(state);
      state.tokenStart := h + 1;
    } else if c == '`' {
      tokens := EmitPending(state);
      state.GotoNode(Start, false);
    }
  }

  /** One iteration of the loop over the name parts. */
  method EmitPart(state: LexerState, part: string, more: bool) returns (step: seq<Token>)
    requires 0 <= state.tokenStart
    modifies state
    ensures step == PartTokens(part, more)
    ensures state.prevTokenType == PrevAfter(old(state.prevTokenType), step)
    ensures state.head == old(state.head) && state.tokenStart == old(state.tokenStart)
    ensures state.stateNode == old(state.stateNode) && DepthsKept(state)
  {
    step := [];
    if |part| != 0 {
      var t;
      if part == "_" {
        t := state.GetToken("IMPLICIT_LAMBDA_PARAM", None, false, Some(part));
      } else {
        t := state.GetToken("NAME", None, false, Some(part));
      }
      step := [t];
    }
    if more {
      var dot := state.GetToken("DOT", None, false, Some("."));
      step := step + [dot];
    }
  }

  lemma {:induction false} NameTokensFrom(parts: seq<string>, i: nat)
    requires i < |parts|
    ensures NameTokens(parts[i..]) == PartTokens(parts[i], i + 1 < |parts|) + NameTokens(parts[i + 1..])
  {
    assert parts[i..][1..] == parts[i + 1..];
  }

  /** The for loop over `source.split('.')`: the name pieces with the dots between them. */
  method EmitNameParts(state: LexerState, parts: seq<string>) returns (tokens: seq<Token>)
    requires 0 <= state.tokenStart
    modifies state
    ensures tokens == NameTokens(parts)
    ensures state.prevTokenType == PrevAfter(old(state.prevTokenType), tokens)
    ensures state.head == old(state.head) && state.tokenStart == old(state.tokenStart)
    ensures state.stateNode == old(state.stateNode) && DepthsKept(state)
  {
    tokens := [];
    var i := 0;
    assert parts[0..] == parts;
    while i < |parts|
      invariant 0 <= i <= |parts|
      invariant tokens + NameTokens(parts[i..]) == NameTokens(parts)
      invariant state.prevTokenType == PrevAfter(old(state.prevTokenType), tokens)
      invariant state.head == old(state.head) && state.tokenStart == old(state.tokenStart)
      invariant state.stateNode == old(state.stateNode) && DepthsKept(state)
    {
      var step := EmitPart(state, parts[i], i + 1 < |parts|);
      NameTokensFrom(parts, i);
      if step != [] {
        assert (tokens + step)[|tokens + step| - 1] == step[|step| - 1];
      } else {
        assert tokens + step == tokens;
      }
      Assoc(tokens, step, NameTokens(parts[i + 1..]));
      tokens := tokens + step;
      i := i + 1;
    }
    assert parts[i..] == [];
  }

  /** The name before a dot, if any, then the dot. */
  method EmitDotAfterWord(state: LexerState, source: string, predicted: string) returns (tokens: seq<Token>)
    requires 0 <= state.tokenStart
    modifies state
    ensures StepResult(state.Snapshot(), tokens, None) == DotAfterWord(old(state.Snapshot()), source, predicted)
  {
    tokens := [];
    if |source| != 0 {
      var t := state.GetToken(predicted, None, false, Some(source));
      tokens := [t];
    }
    var dot := state.GetToken("DOT", None, false, Some("."));
    tokens := tokens + [dot];
    state.GotoNode(Start, false);
  }

  /** The keyword, or the dotted name parts, before a call or assignment. */
  method EmitWordBeforeCall(state: LexerState, source: string, predicted: string) returns (tokens: seq<Token>)
    requires 0 <= state.tokenStart
    modifies state
    ensures StepResult(state.Snapshot(), tokens, None) == WordBeforeCall(old(state.Snapshot()), source, predicted)
  {
    if KeywordToken(source).Some? {
      var t := state.GetToken(predicted, None, false, Some(source));
      tokens := [t];
    } else {
      tokens := EmitNameParts(state, Split(source));
    }
    state.GotoNode(Start, true);
  }

  /** The word at whitespace or a delimiter, and a statement end at a newline outside parentheses. */
  method EmitWordAtDelimiter(state: LexerState, source: string, predicted: string, newline: bool) returns (tokens: seq<Token>)
    requires 0 <= state.tokenStart
    modifies state
    ensures StepResult(state.Snapshot(), tokens, None) == WordAtDelimiter(old(state.Snapshot()), source, predicted, newline)
  {
    var t := state.GetToken(predicted, None, false, Some(source));
    tokens := [t];
    if newline && state.parenDepth == 0 {
      tokens := tokens + [Token("SEMICOLON", "")];
    }
    state.GotoNode(Start, true);
  }

  /** The character UnquotedLiteral.step decides on, and whether the head is on whitespace other than a newline. */
  method DecidedChar(state: LexerState) returns (c: string, space: bool)
    requires 0 <= state.head < |state.data|
    ensures c == Decided(state.data, state.head)
    ensures space == (IsSpace(state.data[state.head]) && state.data[state.head] != '\n')
  {
    var c0 := state.Read();
    c, space := [c0], false;
    if IsSpace(c0) && c0 != '\n' {
      var n := state.NextNonwhitespace();
      NextNonSpaceIs(state.data, state.head + 1, n);
      c := if n.Some? then [n.value] else [];
      space := true;
    }
  }

  /** UnquotedLiteral.step. */
  method UnquotedStep(state: LexerState) returns (tokens: seq<Token>, err: Option<LexerError>)
    requires Ready(state) && state.stateNode.UnquotedLiteral?
    modifies state
    ensures StepResult(state.Snapshot(), tokens, err) == UnquotedSpec(state.data, old(state.Snapshot()))
  {
    tokens := [];
    err := None;
    var c, space := DecidedChar(state);
    var source := state.GetTokenSource(None, false);
    var predicted := UnquotedTokenType(source, state.GetPrev(), state.InBlock());
    var nextDot := state.head + 1 < |state.data| && state.NextChar() == '.';
    match CutOf(c, space, nextDot, predicted) {
      case CutAtDot =>
        tokens := EmitDotAfterWord(state, source, predicted);
      case CutBeforeCall =>
        tokens := EmitWordBeforeCall(state, source, predicted);
      case CutAtDelimiter =>
        tokens := EmitWordAtDelimiter(state, source, predicted, c == "\n");
      case CutUnexpected =>
        err := Some(state.MakeError("Read unexpected char from unquoted esxpression"));
      case NoCut =>
    }
  }

  /** NumberNode.step. */
  method NumberStep(state: LexerState, c: char) returns (tokens: seq<Token>, err: Option<LexerError>)
    requires Ready(state) && state.stateNode.Number? && c == state.data[state.head]
    modifies state
    ensures StepResult(state.Snapshot(), tokens, err) == NumberSpec(state.data, old(state.Snapshot()))
  {
    if c == '.' {
      tokens, err := NumberDotStep(state);
    } else if !(IsDigit(c) || (state.stateNode.firstChar && c == '-')) {
      tokens, err := NumberEndStep(state, c);
    } else {
      tokens, err := [], None;
      state.stateNode := Number(state.stateNode.hasDecimal, false);
    }
  }

  /** The dot branch of NumberNode.step. */
  method NumberDotStep(state: LexerState) returns (tokens: seq<Token>, err: Option<LexerError>)
    requires Ready(state) && state.stateNode.Number? && state.data[state.head] == '.'
    modifies state
    ensures StepResult(state.Snapshot(), tokens, err) == NumberAtDot(state.data, old(state.Snapshot()))
  {
    tokens, err := [], None;
    var Number(hasDecimal, _) := state.stateNode;
    if state.NextChar() == '.' {
      var t := state.GetToken(NumberTokenType(hasDecimal, state.GetPrev()), None, false, None);
      tokens := [t];
      state.GotoNode(Start, true);
    } else if hasDecimal {
      err := Some(state.MakeError("Read unexpected char"));
    } else {
      state.stateNode := Number(true, false);
    }
  }

  /** The branch of NumberNode.step that ends the number. */
  method NumberEndStep(state: LexerState, c: char) returns (tokens: seq<Token>, err: Option<LexerError>)
    requires Ready(state) && state.stateNode.Number? && c == state.data[state.head]
    modifies state
    ensures StepResult(state.Snapshot(), tokens, err) == NumberEnd(state.data, old(state.Snapshot()))
  {
    tokens := [];
    var tokenType := NumberTokenType(state.stateNode.hasDecimal, state.GetPrev());
    var unit: Option<string> := None;
    err := None;
    if tokenType != "EXEC_ARG" {
      unit, err := GetUnits(state, c);
      if err.Some? {
        return;
      }
    }
    if tokenType != "EXEC_ARG" && unit.Some? {
      var source := state.GetTokenSource(None, false);
      tokens := [Token("UNIT_" + tokenType, source + ":" + unit.value)];
      state.head := state.head + |unit.value|;
    } else {
      var t := state.GetToken(tokenType, None, false, None);
      tokens := [t];
    }
    state.GotoNode(Start, true);
  }

  /** The step of the start, operators, comment and identifier nodes. */
  method SymbolStep(state: LexerState, atom: char, tries: OperatorTries) returns (tokens: seq<Token>, err: Option<LexerError>)
    requires Ready(state) && atom == state.data[state.head]
    requires !ReadsLiteral(state.stateNode)
    modifies state
    ensures StepResult(state.Snapshot(), tokens, err)
         == SymbolSpec(state.data, old(state.Snapshot()), state.data[old(state.head)] in tries.all.firstByte, MatchAt(state.data, old(state.Snapshot()), tries))
  {
    err := None;
    match state.stateNode {
      case Start =>
        tokens, err := StartStep(state, atom, tries);
      case Operators(_, _) =>
        tokens := OperatorsStep(state);
      case Comment =>
        tokens := CommentStep(state, atom);
      case Identifier =>
        tokens, err := IdentifierStep(state, atom);
    }
  }

  /** The step of the nodes that read a literal. */
  method LiteralStep(state: LexerState, atom: char) returns (tokens: seq<Token>, err: Option<LexerError>)
    requires Ready(state) && atom == state.data[state.head]
    requires ReadsLiteral(state.stateNode)
    modifies state
    ensures StepResult(state.Snapshot(), tokens, err) == LiteralSpec(state.data, old(state.Snapshot()))
  {
    err := None;
    match state.stateNode {
      case QuotedLiteral(_, _) =>
        tokens := QuotedLiteralStep(state, atom);
      case QuotedArgList(_, _, _) =>
        tokens := QuotedArgListStep(state, atom);
      case UnquotedLiteral =>
        tokens, err := UnquotedStep(state);
      case Number(_, _) =>
        tokens, err := NumberStep(state, atom);
    }
  }

  // ------------------------------------------------------------- the lexer

  /** The step of EggLexer.step on a state: the node's step, then the head moves on unless the node raised. */
  method StepOn(state: LexerState, tries: OperatorTries) returns (tokens: seq<Token>, err: Option<LexerError>)
    requires Ready(state)
    modifies state
    ensures StepResult(state.Snapshot(), tokens, err)
         == StepSpec(state.data, old(state.Snapshot()), state.data[old(state.head)] in tries.all.firstByte, MatchAt(state.data, old(state.Snapshot()), tries))
  {
    var atom := state.Read();
    if ReadsLiteral(state.stateNode) {
      tokens, err := LiteralStep(state, atom);
    } else {
      tokens, err := SymbolStep(state, atom, tries);
    }
    if err.None? {
      state.head := state.head + 1;
    }
  }

  /** EggLexer(): a lexer on the tries the module builds from its operator tables. */
  method NewEggLexer() returns (lexer: EggLexer)
    ensures fresh(lexer) && lexer.lexerState == null && lexer.Valid()
    ensures lexer.nonArithmetic == NON_ARITHMETIC_OPERATORS && lexer.all == ALL_OPERATORS
  {
    var tries := BuildOperatorTries();
    ConstantTries(tries);
    lexer := new EggLexer(tries, NON_ARITHMETIC_OPERATORS, ALL_OPERATORS);
  }

  class EggLexer {
    const tries: OperatorTries
    ghost const nonArithmetic: map<string, string>
    ghost const all: map<string, string>
    var lexerState: LexerState?

    ghost predicate Valid()
    {
      TriesFor(tries, nonArithmetic, all)
    }

    /** A lexer on operator tries that stand for the tables `nonArithmetic` and `all`. */
    constructor (tries: OperatorTries, ghost nonArithmetic: map<string, string>, ghost all: map<string, string>)
      requires TriesFor(tries, nonArithmetic, all)
      ensures this.tries == tries && this.nonArithmetic == nonArithmetic && this.all == all
      ensures lexerState == null && Valid()
    {
      this.tries := tries;
      this.nonArithmetic := nonArithmetic;
      this.all := all;
      lexerState := null;
    }

    /** EggLexer.step: the current node's step on the character at the head. */
    method Step() returns (tokens: seq<Token>, err: Option<LexerError>)
      requires lexerState != null && Ready(lexerState)
      modifies lexerState
      ensures StepResult(lexerState.Snapshot(), tokens, err)
           == StepSpec(lexerState.data, old(lexerState.Snapshot()), lexerState.data[old(lexerState.head)] in tries.all.firstByte,
                       MatchAt(lexerState.data, old(lexerState.Snapshot()), tries))
    {
      tokens, err := StepOn(lexerState, tries);
    }

    /**
     * EggLexer.lex: lexes `data` with the sentinel " #" appended, collecting
     * the tokens until the input is read or a node raises. Lexing succeeds
     * only if it ends inside the sentinel's comment. The tokens are those
     * of the run LexRun from the start state, and so is the final state;
     * the error is the one a node raised, or else the unexpected-character
     * error when the run does not end in a comment. The bracket depths are
     * always the balance of the bracket tokens emitted.
     */
    method Lex(data: string) returns (tokens: seq<Token>, err: Option<LexerError>)
      requires Valid()
      modifies this
      ensures lexerState != null && fresh(lexerState) && lexerState.data == data + " #"
      ensures err.None? <==> lexerState.stateNode == Comment && lexerState.head == |data| + 2
      ensures lexerState.curlyDepth == Balance(tokens, "CURLY_OPEN", "CURLY_CLOSE")
      ensures lexerState.parenDepth == Balance(tokens, "PAREN_OPEN", "PAREN_CLOSE")
      ensures lexerState.squareDepth == Balance(tokens, "SQUARE_OPEN", "SQUARE_CLOSE")
      ensures Lexable(data + " #", Snap(0, 0, Start, None, 0, 0, 0))
      ensures var run := LexRun(data + " #", Snap(0, 0, Start, None, 0, 0, 0), [], tries, nonArithmetic, all);
        && tokens == run.tokens && lexerState.Snapshot() == run.snap
        && err == if run.err.Some? then run.err
                  else if run.snap.node.Comment? then None
                  else Some(lexerState.MakeError("Read unexpected char"))
    {
      var state := new LexerState(data + " #");
      lexerState := state;
      ghost var start := state.Snapshot();
      assert Lexable(state.data, start);
      LexRunStart(state.data, start, tries, nonArithmetic, all);
      tokens, err := RunSteps(LexRun(state.data, start, [], tries, nonArithmetic, all));
      if err.None? && !state.stateNode.Comment? {
        err := Some(state.MakeError("Read unexpected char"));
      }
    }

    /** The loop of lex: step while there is input, until a step raises; this is the run from the current state. */
    method RunSteps(ghost run: Lexed) returns (tokens: seq<Token>, err: Option<LexerError>)
      requires Valid() && lexerState != null && lexerState.Valid()
      requires Lexable(lexerState.data, lexerState.Snapshot())
      requires LexRun(lexerState.data, lexerState.Snapshot(), [], tries, nonArithmetic, all) == run
      modifies lexerState
      ensures lexerState.data == old(lexerState.data)
      ensures tokens == run.tokens && lexerState.Snapshot() == run.snap && err == run.err
    {
      tokens := [];
      err := None;
      while lexerState.HasData()
        invariant lexerState.data == old(lexerState.data) && lexerState.Valid()
        invariant Lexable(lexerState.data, lexerState.Snapshot())
        invariant LexRun(lexerState.data, lexerState.Snapshot(), tokens, tries, nonArithmetic, all) == run
        decreases |lexerState.data| - lexerState.head, StallBudget(lexerState.stateNode, lexerState.data, lexerState.head)
      {
        ghost var before := lexerState.Snapshot();
        var emitted, e := Step();
        LexRunStep(lexerState.data, before, tokens, StepResult(lexerState.Snapshot(), emitted, e), tries, nonArithmetic, all);
        if e.Some? {
          // a step that raises yields no token
          err := e;
          return;
        }
        tokens := tokens + emitted;
      }
      LexRunEnd(lexerState.data, lexerState.Snapshot(), tokens, tries, nonArithmetic, all);
    }

    /** EggLexer.reset: forget the last input. */
    method Reset()
      modifies this
      ensures lexerState == null
    {
      lexerState := null;
    }
  }
}
