/**
 * What single steps of the DFA lexer of src/frontend/lexer.py do, stated
 * on the whole step (the node's step, then the head moving on): statement
 * ends at newlines, bracket tracking, the end of a number at `..`, decimal
 * points, unit suffixes, quoted strings and backquoted argument lists.
 */
module LexerSteps {
  import opened Wrappers
  import opened LexerConstants
  import opened LexerUtil
  import opened Lexer

  // ------------------------------------------------------------ newlines

  /** A newline in the start node ends a statement outside parentheses and forgets the previous token. */
  lemma {:induction false} NewlineInStart(data: string, s: Snap, firstChar: bool, m: Option<(string, string)>)
    requires At(data, s) && s.node.Start? && data[s.head] == '\n'
    ensures var r := StepSpec(data, s, firstChar, m);
      && r.err.None? && r.snap == s.(prev := None, head := s.head + 1)
      && (s.paren == 0 ==> r.tokens == [Token("SEMICOLON", "")])
      && (s.paren != 0 ==> r.tokens == [])
  {
  }

  /** A newline ends a comment, and a statement outside parentheses; the previous token is kept. */
  lemma {:induction false} NewlineInComment(data: string, s: Snap, firstChar: bool, m: Option<(string, string)>)
    requires At(data, s) && s.node.Comment? && data[s.head] == '\n'
    ensures var r := StepSpec(data, s, firstChar, m);
      && r.err.None? && r.snap == s.(node := Start, head := s.head + 1)
      && (s.paren == 0 ==> r.tokens == [Token("SEMICOLON", "")])
      && (s.paren != 0 ==> r.tokens == [])
  {
  }

  // ------------------------------------------------------------ brackets

  /**
   * An operator moves the depths by the balance of its own token: a
   * bracket changes its own kind's depth by one, and nothing else changes.
   */
  lemma {:induction false} TrackedBrackets(s: Snap, op: string, text: string)
    ensures Balanced(s, Tracked(s, op), [Token(op, text)])
    ensures Tracked(s, op).(curly := s.curly, paren := s.paren, square := s.square) == s
    ensures Tracked(s, op) == s <==> !IsBracket(op)
  {
    var one := [Token(op, text)];
    assert one[..0] == [];
  }

  // ------------------------------------------------------------- numbers

  /**
   * Two dots end a number without being read: the number's token is
   * emitted and the next step starts on the first dot.
   */
  lemma {:induction false} NumberAtRange(data: string, s: Snap, firstChar: bool, m: Option<(string, string)>)
    requires At(data, s) && s.node.Number? && data[s.head] == '.' && s.head + 1 < |data| && data[s.head + 1] == '.'
    ensures var r := StepSpec(data, s, firstChar, m);
      var t := NumberTokenType(s.node.hasDecimal, s.prev);
      && r.err.None? && r.tokens == [Token(t, PySlice(data, s.tokenStart, s.head))]
      && r.snap == s.(prev := Some(t), node := Start)
  {
  }

  /** A second decimal point raises; nothing is emitted and the state stays as it was. */
  lemma {:induction false} SecondDecimalPoint(data: string, s: Snap, firstChar: bool, m: Option<(string, string)>)
    requires At(data, s) && s.node.Number? && s.node.hasDecimal
    requires data[s.head] == '.' && s.head + 1 < |data| && data[s.head + 1] != '.'
    ensures var r := StepSpec(data, s, firstChar, m);
      && r.err == Some(LexerError("Read unexpected char", s.head, ".", s.node))
      && r.tokens == [] && r.snap == s
  {
  }

  /** A first decimal point stays in the number. */
  lemma {:induction false} FirstDecimalPoint(data: string, s: Snap, firstChar: bool, m: Option<(string, string)>)
    requires At(data, s) && s.node.Number? && !s.node.hasDecimal
    requires data[s.head] == '.' && s.head + 1 < |data| && data[s.head + 1] != '.'
    ensures var r := StepSpec(data, s, firstChar, m);
      r.err.None? && r.tokens == [] && r.snap == s.(node := Number(true, false), head := s.head + 1)
  {
  }

  /** The letters of a run from `pos`, in order. */
  lemma {:induction false} AlphaRunLetters(data: string, pos: nat)
    ensures forall i :: 0 <= i < |AlphaRun(data, pos)| ==> IsAlpha(AlphaRun(data, pos)[i])
    ensures forall i :: 0 <= i < |AlphaRun(data, pos)| ==> pos + i < |data| && AlphaRun(data, pos)[i] == data[pos + i]
    decreases |data| - pos
  {
    if pos < |data| && IsAlpha(data[pos]) {
      AlphaRunLetters(data, pos + 1);
      var run := AlphaRun(data, pos);
      assert run == [data[pos]] + AlphaRun(data, pos + 1);
      forall i | 0 <= i < |run|
        ensures pos + i < |data| && run[i] == data[pos + i] && IsAlpha(run[i])
      {
        if i > 0 {
          assert run[i] == AlphaRun(data, pos + 1)[i - 1];
        }
      }
    } else {
      assert AlphaRun(data, pos) == [];
    }
  }

  /** Lower-casing letters gives lower-case letters. */
  lemma {:induction false} LowerAllLetters(s: string)
    requires forall i :: 0 <= i < |s| ==> IsAlpha(s[i])
    ensures forall i :: 0 <= i < |LowerAll(s)| ==> 'a' <= LowerAll(s)[i] <= 'z'
  {
    if s != [] {
      LowerAllLetters(s[1..]);
      assert forall i :: 1 <= i < |LowerAll(s)| ==> LowerAll(s)[i] == LowerAll(s[1..])[i - 1];
    }
  }

  /**
   * Letters after a number in an expression are its unit: lower-cased, the
   * token is UNIT_INTEGER or UNIT_FLOAT with text `value:unit` and the next
   * step starts after the unit; a suffix that is no unit raises.
   */
  lemma {:induction false} NumberUnit(data: string, s: Snap, firstChar: bool, m: Option<(string, string)>)
    requires At(data, s) && s.node.Number? && IsAlpha(data[s.head]) && s.prev != Some("EXEC_ARG")
    ensures var r := StepSpec(data, s, firstChar, m);
      var u := LowerAll(AlphaRun(data, s.head));
      var t := if s.node.hasDecimal then "FLOAT" else "INTEGER";
      && 1 <= |u| && s.head + |u| <= |data|
      && (forall i :: 0 <= i < |u| ==> 'a' <= u[i] <= 'z' && u[i] == Lower(data[s.head + i]))
      && (UnitKind(u).Some? ==>
           && r.err.None? && r.tokens == [Token("UNIT_" + t, PySlice(data, s.tokenStart, s.head) + ":" + u)]
           && r.snap == s.(node := Start, head := s.head + |u|))
      && (UnitKind(u).None? ==>
           && r.err == Some(LexerError("Number literal has unknown unit: " + u, s.head, [data[s.head]], s.node))
           && r.tokens == [] && r.snap == s)
  {
    UnitLetters(data, s.head);
    assert NumberSpec(data, s) == NumberEnd(data, s);
  }

  /** The unit read at `pos`: the lower-cased letters there, at least one when a letter is there. */
  lemma {:induction false} UnitLetters(data: string, pos: nat)
    requires pos < |data| && IsAlpha(data[pos])
    ensures var u := LowerAll(AlphaRun(data, pos));
      && 1 <= |u| && pos + |u| <= |data|
      && (forall i :: 0 <= i < |u| ==> 'a' <= u[i] <= 'z' && u[i] == Lower(data[pos + i]))
  {
    var run := AlphaRun(data, pos);
    AlphaRunLetters(data, pos);
    LowerAllLetters(run);
    LowerAllIs(run);
  }

  lemma {:induction false} LowerAllIs(s: string)
    ensures forall i :: 0 <= i < |s| ==> LowerAll(s)[i] == Lower(s[i])
  {
    if s != [] {
      LowerAllIs(s[1..]);
      assert forall i :: 1 <= i < |s| ==> LowerAll(s)[i] == LowerAll(s[1..])[i - 1];
    }
  }

  /** After an exec argument, letters end a number as one more exec argument: there is no unit. */
  lemma {:induction false} NumberInCommand(data: string, s: Snap, firstChar: bool, m: Option<(string, string)>)
    requires At(data, s) && s.node.Number? && IsAlpha(data[s.head]) && s.prev == Some("EXEC_ARG")
    ensures var r := StepSpec(data, s, firstChar, m);
      && r.err.None? && r.tokens == [Token("EXEC_ARG", PySlice(data, s.tokenStart, s.head))]
      && r.snap == s.(node := Start)
  {
    assert NumberSpec(data, s) == NumberEnd(data, s);
  }

  // ------------------------------------------------------ quoted strings

  /** A backslash, or the character after one, toggles the escape flag and emits nothing. */
  lemma {:induction false} QuoteEscapes(data: string, s: Snap, firstChar: bool, m: Option<(string, string)>)
    requires At(data, s) && s.node.QuotedLiteral? && (s.node.escaped || data[s.head] == '\\')
    ensures var r := StepSpec(data, s, firstChar, m);
      && r.err.None? && r.tokens == []
      && r.snap == s.(node := QuotedLiteral(s.node.quoteType, !s.node.escaped), head := s.head + 1)
  {
  }

  /**
   * The matching quote, unescaped, closes the string: its text between the
   * quotes is an exec argument after an exec argument, and a quoted string
   * otherwise.
   */
  lemma {:induction false} QuoteCloses(data: string, s: Snap, firstChar: bool, m: Option<(string, string)>)
    requires At(data, s) && s.node.QuotedLiteral? && !s.node.escaped
    requires data[s.head] == s.node.quoteType != '\\'
    ensures var r := StepSpec(data, s, firstChar, m);
      var t := if s.prev == Some("EXEC_ARG") then "EXEC_ARG" else "QUOTED_STRING";
      && r.err.None? && r.tokens == [Token(t, PySlice(data, s.tokenStart, s.head))]
      && r.snap == s.(prev := Some(t), node := Start, head := s.head + 1)
  {
  }

  /** Any other character is part of the string. */
  lemma {:induction false} QuoteContinues(data: string, s: Snap, firstChar: bool, m: Option<(string, string)>)
    requires At(data, s) && s.node.QuotedLiteral? && !s.node.escaped
    requires data[s.head] != '\\' && data[s.head] != s.node.quoteType
    ensures var r := StepSpec(data, s, firstChar, m);
      r.err.None? && r.tokens == [] && r.snap == s.(head := s.head + 1)
  {
  }

  // ----------------------------------------------- backquoted arguments

  /** Outside quotes, `|` ends the pending argument, if any, and is a pipe. */
  lemma {:induction false} BacktickPipe(data: string, s: Snap, firstChar: bool, m: Option<(string, string)>)
    requires At(data, s) && s.node == QuotedArgList(false, false, None) && data[s.head] == '|'
    ensures var r := StepSpec(data, s, firstChar, m);
      var arg := if s.head != s.tokenStart then [Token("EXEC_ARG", PySlice(data, s.tokenStart, s.head))] else [];
      && r.err.None? && r.tokens == arg + [Token("PIPE", "|")]
      && r.snap == s.(tokenStart := s.head + 1, prev := if arg == [] then s.prev else Some("EXEC_ARG"), head := s.head + 1)
  {
  }

  /** Outside quotes, whitespace splits: it ends the pending argument, if any, and emits nothing else. */
  lemma {:induction false} BacktickSpace(data: string, s: Snap, firstChar: bool, m: Option<(string, string)>)
    requires At(data, s) && s.node == QuotedArgList(false, false, None)
    requires IsSpace(data[s.head]) && data[s.head] != '\\'
    ensures var r := StepSpec(data, s, firstChar, m);
      var arg := if s.head != s.tokenStart then [Token("EXEC_ARG", PySlice(data, s.tokenStart, s.head))] else [];
      && r.err.None? && r.tokens == arg
      && r.snap == s.(tokenStart := s.head + 1, prev := if arg == [] then s.prev else Some("EXEC_ARG"), head := s.head + 1)
  {
  }

  /** A quote opens a quoted segment, whose text starts after the quote. */
  lemma {:induction false} BacktickQuoteOpens(data: string, s: Snap, firstChar: bool, m: Option<(string, string)>)
    requires At(data, s) && s.node == QuotedArgList(false, false, None)
    requires data[s.head] == '"' || data[s.head] == '\''
    ensures var r := StepSpec(data, s, firstChar, m);
      && r.err.None? && r.tokens == []
      && r.snap == s.(node := QuotedArgList(false, true, Some(data[s.head])), tokenStart := s.head + 1, head := s.head + 1)
  {
  }

  /** The same quote closes the segment, which is one exec argument however many spaces it holds. */
  lemma {:induction false} BacktickQuoteCloses(data: string, s: Snap, firstChar: bool, m: Option<(string, string)>)
    requires At(data, s) && s.node == QuotedArgList(false, true, Some(data[s.head]))
    requires data[s.head] == '"' || data[s.head] == '\''
    ensures var r := StepSpec(data, s, firstChar, m);
      && r.err.None? && r.tokens == [Token("EXEC_ARG", PySlice(data, s.tokenStart, s.head))]
      && r.snap == s.(node := QuotedArgList(false, false, None), tokenStart := s.head + 1, prev := Some("EXEC_ARG"), head := s.head + 1)
  {
  }

  /** Inside a quoted segment, whitespace, pipes and the other quote are text. */
  lemma {:induction false} BacktickQuotedText(data: string, s: Snap, firstChar: bool, m: Option<(string, string)>)
    requires At(data, s) && s.node.QuotedArgList? && !s.node.escaped && s.node.quoted
    requires data[s.head] != '\\' && Some(data[s.head]) != s.node.argQuote
    ensures var r := StepSpec(data, s, firstChar, m);
      r.err.None? && r.tokens == [] && r.snap == s.(head := s.head + 1)
  {
  }

  /** The closing backquote ends the pending argument, if any, and returns to the start node. */
  lemma {:induction false} BacktickCloses(data: string, s: Snap, firstChar: bool, m: Option<(string, string)>)
    requires At(data, s) && s.node == QuotedArgList(false, false, None) && data[s.head] == '`'
    ensures var r := StepSpec(data, s, firstChar, m);
      var arg := if s.head != s.tokenStart then [Token("EXEC_ARG", PySlice(data, s.tokenStart, s.head))] else [];
      && r.err.None? && r.tokens == arg
      && r.snap == s.(node := Start, prev := if arg == [] then s.prev else Some("EXEC_ARG"), head := s.head + 1)
  {
  }
}
