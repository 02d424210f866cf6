/**
 * The lexer's runtime state (src/frontend/lexer_util.py): the input with
 * its read head and token start, the current DFA node, the type of the
 * last token emitted through get_token, and the three bracket depths.
 */
module LexerUtil {
  import opened Wrappers

  datatype Token = Token(tokenType: string, source: string)

  /**
   * The DFA nodes of src/frontend/lexer.py, each with the fields its node
   * object carries. A node object is only ever referenced by the state
   * that holds it, so updating a node's field is modelled by replacing
   * the node value.
   */
  datatype Node =
    | Start
    | Operators(pattern: string, operator: string)
    | Comment
    | Identifier
    | QuotedLiteral(quoteType: char, escaped: bool)
    | QuotedArgList(escaped: bool, quoted: bool, argQuote: Option<char>)
    | UnquotedLiteral
    | Number(hasDecimal: bool, firstChar: bool)

  /** The updatable part of a lexer state, as one value. */
  datatype Snap = Snap(head: int, tokenStart: int, node: Node, prev: Option<string>, curly: int, paren: int, square: int)

  /** LexerError: the problem, the head position, the character there (or "EOF") and the node. */
  datatype LexerError = LexerError(problem: string, position: int, head: string, dfaState: Node)

  /** Python's str.isspace on one character. */
  predicate IsSpace(c: char)
  {
    var n := c as int;
    || (9 <= n <= 13) || (28 <= n <= 32) || n == 0x85 || n == 0xA0 || n == 0x1680
    || (0x2000 <= n <= 0x200A) || n == 0x2028 || n == 0x2029 || n == 0x202F || n == 0x205F || n == 0x3000
  }

  /** str.isdigit, on ASCII digits. */
  predicate IsDigit(c: char)
  {
    '0' <= c <= '9'
  }

  /** str.isalpha, on ASCII letters. */
  predicate IsAlpha(c: char)
  {
    'a' <= c <= 'z' || 'A' <= c <= 'Z'
  }

  // The characters besides letters that start an unquoted word: one of ./*+-%_
  predicate UnquotedSymbol(c: char)
  {
    c == '.' || c == '/' || c == '*' || c == '+' || c == '-' || c == '%' || c == '_'
  }

  /** The characters besides whitespace that end an `@` identifier: one of `:=+-/[]{}()<>.`. */
  predicate IdentifierEnd(c: char)
  {
    || c == ':' || c == '=' || c == '+' || c == '-' || c == '/' || c == '[' || c == ']'
    || c == '{' || c == '}' || c == '(' || c == ')' || c == '<' || c == '>' || c == '.'
  }

  /** The characters that end an unquoted word: one of `<>{}[])|;,` and the newline. */
  predicate WordEndChar(c: char)
  {
    || c == '<' || c == '>' || c == '{' || c == '}' || c == '[' || c == ']'
    || c == ')' || c == '|' || c == ';' || c == ',' || c == '\n'
  }

  /** str.lower, on ASCII letters. */
  function Lower(c: char): (r: char)
    ensures IsAlpha(c) ==> IsAlpha(r) && 'a' <= r <= 'z'
    ensures !('A' <= c <= 'Z') ==> r == c
  {
    if 'A' <= c <= 'Z' then (c as int + 32) as char else c
  }

  /** Python's `s[a:b]` for a non-negative `a`: clamped to the string, empty when `b <= a`. */
  function PySlice(s: string, a: nat, b: int): (r: string)
    ensures a <= b <= |s| ==> r == s[a..b]
    ensures |r| == if b <= a || a >= |s| then 0 else (if b < |s| then b else |s|) - a
  {
    if b <= a || a >= |s| then [] else s[a..if b < |s| then b else |s|]
  }

  /** The input ends in the sentinel " #" that lex appends. */
  predicate Sentinel(data: string)
  {
    |data| >= 2 && data[|data| - 2] == ' ' && data[|data| - 1] == '#'
  }

  class LexerState {
    const data: string
    var tokenStart: int
    var head: int
    var stateNode: Node
    var prevTokenType: Option<string>
    var curlyDepth: int
    var parenDepth: int
    var squareDepth: int

    /** A fresh state at the start node, reading `data` from position 0. */
    constructor (data: string)
      ensures this.data == data
      ensures tokenStart == 0 && head == 0 && stateNode == Start && prevTokenType == None
      ensures curlyDepth == 0 && parenDepth == 0 && squareDepth == 0
    {
      this.data := data;
      tokenStart := 0;
      head := 0;
      stateNode := Start;
      prevTokenType := None;
      curlyDepth := 0;
      parenDepth := 0;
      squareDepth := 0;
    }

    /** The state as a value, for stating what a step does. */
    function Snapshot(): Snap
      reads this
    {
      Snap(head, tokenStart, stateNode, prevTokenType, curlyDepth, parenDepth, squareDepth)
    }

    /**
     * The input ends in the sentinel " #" that lex appends, and token starts
     * are never negative.
     */
    ghost predicate Valid()
      reads this
    {
      Sentinel(data) && 0 <= tokenStart
    }

    predicate HasData()
      reads this
    {
      head < |data|
    }

    function Read(): char
      reads this
      requires 0 <= head < |data|
    {
      data[head]
    }

    /** The characters from the token start to the head, the head included when `inclusive`. */
    function GetTokenSource(end: Option<int>, inclusive: bool): (r: string)
      reads this
      requires 0 <= tokenStart
      ensures var e := (if end.None? then head else end.value) + (if inclusive then 1 else 0);
        tokenStart <= e <= |data| ==> r == data[tokenStart..e]
    {
      var e := (if end.None? then head else end.value) + (if inclusive then 1 else 0);
      PySlice(data, tokenStart, e)
    }

    /** Emits a token of `tokenType`, its text being `source` or else the token source; records the type. */
    method GetToken(tokenType: string, end: Option<int>, inclusive: bool, source: Option<string>) returns (t: Token)
      requires 0 <= tokenStart
      modifies this
      ensures prevTokenType == Some(tokenType)
      ensures t == Token(tokenType, if source.Some? then source.value else old(GetTokenSource(end, inclusive)))
      ensures tokenStart == old(tokenStart) && head == old(head) && stateNode == old(stateNode)
      ensures curlyDepth == old(curlyDepth) && parenDepth == old(parenDepth) && squareDepth == old(squareDepth)
    {
      var text := if source.Some? then source.value else GetTokenSource(end, inclusive);
      prevTokenType := Some(tokenType);
      t := Token(tokenType, text);
    }

    /** Moves to `state`, stepping the head back by one when `stepBack`. */
    method GotoNode(state: Node, stepBack: bool)
      modifies this
      ensures stateNode == state
      ensures head == old(head) - (if stepBack then 1 else 0)
      ensures tokenStart == old(tokenStart) && prevTokenType == old(prevTokenType)
      ensures curlyDepth == old(curlyDepth) && parenDepth == old(parenDepth) && squareDepth == old(squareDepth)
    {
      stateNode := state;
      if stepBack {
        StepBack(1);
      }
    }

    method StepBack(steps: int)
      modifies this
      ensures head == old(head) - steps
      ensures tokenStart == old(tokenStart) && prevTokenType == old(prevTokenType) && stateNode == old(stateNode)
      ensures curlyDepth == old(curlyDepth) && parenDepth == old(parenDepth) && squareDepth == old(squareDepth)
    {
      head := head - steps;
    }

    method StepForward(steps: int)
      modifies this
      ensures head == old(head) + steps
      ensures tokenStart == old(tokenStart) && prevTokenType == old(prevTokenType) && stateNode == old(stateNode)
      ensures curlyDepth == old(curlyDepth) && parenDepth == old(parenDepth) && squareDepth == old(squareDepth)
    {
      head := head + steps;
    }

    /** The character after the head; Python raises IndexError past the end. */
    function NextChar(): char
      reads this
      requires 0 <= head + 1 < |data|
    {
      data[head + 1]
    }

    /**
     * The first non-whitespace character after the head, or None (Python's
     * '') when only whitespace follows.
     */
    method NextNonwhitespace() returns (r: Option<char>)
      requires 0 <= head
      ensures r.None? <==> forall j :: head < j < |data| ==> IsSpace(data[j])
      ensures r.Some? ==> exists j :: head < j < |data| && data[j] == r.value && !IsSpace(data[j])
                            && forall k :: head < k < j ==> IsSpace(data[k])
    {
      var i := 0;
      while i < |data| - head - 1
        invariant 0 <= i
        invariant head + 1 + i <= |data| || i == 0
        invariant forall k :: head < k < head + 1 + i && k < |data| ==> IsSpace(data[k])
        decreases |data| - head - 1 - i
      {
        var c := data[head + 1 + i];
        if !IsSpace(c) {
          return Some(c);
        }
        i := i + 1;
      }
      r := None;
    }

    method ClearPrev()
      modifies this
      ensures prevTokenType == None
      ensures tokenStart == old(tokenStart) && head == old(head) && stateNode == old(stateNode)
      ensures curlyDepth == old(curlyDepth) && parenDepth == old(parenDepth) && squareDepth == old(squareDepth)
    {
      prevTokenType := None;
    }

    function GetPrev(): Option<string>
      reads this
    {
      prevTokenType
    }

    /** Inside some curly, round or square bracket. */
    predicate InBlock()
      reads this
    {
      curlyDepth > 0 || parenDepth > 0 || squareDepth > 0
    }

    /** The LexerError for `problem` at the current position. */
    function MakeError(problem: string): (e: LexerError)
      reads this
      ensures e.position == head && e.dfaState == stateNode
      ensures e.head == if 0 <= head < |data| then [data[head]] else "EOF"
    {
      LexerError(problem, head, if 0 <= head < |data| then [data[head]] else "EOF", stateNode)
    }
  }
}
