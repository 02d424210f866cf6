/**
 * The code blocks the Python back end builds while generating code
 * (src/backend_py/temporary_objects.py): a block is a list of source lines,
 * split at newlines when it is built, that can be indented and joined, wrapped
 * under an `if` or `while` header, turned into a function, and, for an `if`
 * block, extended with `elif` and `else` branches.
 */
module TemporaryObjects {

  /** No line holds a newline. */
  predicate Plain(lines: seq<string>)
  {
    forall k :: 0 <= k < |lines| ==> '\n' !in lines[k]
  }

  /** str.split('\n'): the pieces between newlines, always at least one. */
  function Split(s: string): (parts: seq<string>)
    ensures |parts| >= 1
    ensures Plain(parts)
    decreases |s|
  {
    if s == [] then [""]
    else if s[0] == '\n' then [""] + Split(s[1..])
    else
      var r := Split(s[1..]);
      [[s[0]] + r[0]] + r[1..]
  }

  /** sep.join(xs). */
  function JoinWith(sep: string, xs: seq<string>): string
    decreases |xs|
  {
    if |xs| == 0 then ""
    else if |xs| == 1 then xs[0]
    else xs[0] + sep + JoinWith(sep, xs[1..])
  }

  /** Joining two non-empty lists puts one separator between their joins. */
  lemma {:induction false} JoinAppend(sep: string, a: seq<string>, b: seq<string>)
    requires |a| > 0 && |b| > 0
    ensures JoinWith(sep, a + b) == JoinWith(sep, a) + sep + JoinWith(sep, b)
    decreases |a|
  {
    if |a| > 1 {
      assert (a + b)[1..] == a[1..] + b;
      JoinAppend(sep, a[1..], b);
    }
  }

  /** Splitting and joining back at newlines gives the text back. */
  lemma {:induction false} SplitJoin(s: string)
    ensures JoinWith("\n", Split(s)) == s
    decreases |s|
  {
    if s != [] {
      SplitJoin(s[1..]);
      if s[0] == '\n' {
        JoinAppend("\n", [""], Split(s[1..]));
      } else {
        JoinConsHead(s[0], Split(s[1..]));
      }
    }
  }

  /** A character put in front of the first piece goes in front of the join. */
  lemma {:induction false} JoinConsHead(c: char, r: seq<string>)
    requires |r| >= 1
    ensures JoinWith("\n", [[c] + r[0]] + r[1..]) == [c] + JoinWith("\n", r)
  {
    var r' := [[c] + r[0]] + r[1..];
    if |r| > 1 {
      assert r'[1..] == r[1..];
      var t := JoinWith("\n", r[1..]);
      assert JoinWith("\n", r') == ([c] + r[0]) + "\n" + t;
      assert JoinWith("\n", r) == r[0] + "\n" + t;
      assert ([c] + r[0]) + "\n" + t == [c] + (r[0] + "\n" + t);
    }
  }

  /** A text with no newline splits into itself; one newline after such a text splits there. */
  lemma {:induction false} SplitAt(a: string, b: string)
    requires '\n' !in a
    ensures Split(a) == [a]
    ensures Split(a + "\n" + b) == [a] + Split(b)
    decreases |a|
  {
    if a != [] {
      assert (a + "\n" + b)[1..] == a[1..] + "\n" + b;
      SplitAt(a[1..], b);
      assert [a[0]] + a[1..] == a;
    } else {
      assert a + "\n" + b == "\n" + b;
    }
  }

  /** Lines with no newline in them come back from joining and splitting unchanged. */
  lemma {:induction false} JoinSplit(xs: seq<string>)
    requires |xs| > 0 && Plain(xs)
    ensures Split(JoinWith("\n", xs)) == xs
    decreases |xs|
  {
    SplitAt(xs[0], JoinWith("\n", xs[1..]));
    if |xs| > 1 {
      JoinSplit(xs[1..]);
    }
  }

  /** The lines of a block: every given line split at its newlines, in order. */
  function FixedLines(lines: seq<string>): (fixed: seq<string>)
    ensures |fixed| >= |lines|
    ensures Plain(fixed)
    decreases |lines|
  {
    if lines == [] then [] else FixedLines(lines[..|lines| - 1]) + Split(lines[|lines| - 1])
  }

  /** Splitting the lines keeps the text they make joined with newlines. */
  lemma {:induction false} FixedLinesJoin(lines: seq<string>)
    requires |lines| > 0
    ensures JoinWith("\n", FixedLines(lines)) == JoinWith("\n", lines)
    decreases |lines|
  {
    var init, last := lines[..|lines| - 1], lines[|lines| - 1];
    SplitJoin(last);
    if |init| > 0 {
      FixedLinesJoin(init);
      JoinAppend("\n", FixedLines(init), Split(last));
      JoinAppend("\n", init, [last]);
      assert init + [last] == lines;
    } else {
      assert lines == [last] && init == [];
      assert FixedLines(lines) == FixedLines(init) + Split(last) == Split(last);
      assert JoinWith("\n", lines) == last;
    }
  }

  /** Lines with no newline are already fixed. */
  lemma {:induction false} FixedLinesKeep(lines: seq<string>)
    requires Plain(lines)
    ensures FixedLines(lines) == lines
    decreases |lines|
  {
    if lines != [] {
      FixedLinesKeep(lines[..|lines| - 1]);
      SplitAt(lines[|lines| - 1], "");
    }
  }

  /** The lines a block keeps: the fixed lines, or a lone `pass` when there are none. */
  function BlockLines(lines: seq<string>): seq<string>
  {
    if FixedLines(lines) == [] then ["pass"] else FixedLines(lines)
  }

  /** `k` tabs. */
  function Tabs(k: nat): (t: string)
    ensures |t| == k && forall i :: 0 <= i < k ==> t[i] == '\t'
  {
    seq(k, _ => '\t')
  }

  /** Every line with `prefix` in front. */
  function Prefixed(prefix: string, lines: seq<string>): (r: seq<string>)
    ensures |r| == |lines| && forall k :: 0 <= k < |lines| ==> r[k] == prefix + lines[k]
  {
    seq(|lines|, k requires 0 <= k < |lines| => prefix + lines[k])
  }

  /** Putting the indentation in front of the join and after each separator indents every line. */
  lemma {:induction false} JoinIndents(ind: string, lines: seq<string>)
    requires |lines| > 0
    ensures ind + JoinWith("\n" + ind, lines) == JoinWith("\n", Prefixed(ind, lines))
    decreases |lines|
  {
    if |lines| > 1 {
      JoinIndents(ind, lines[1..]);
      assert Prefixed(ind, lines)[1..] == Prefixed(ind, lines[1..]);
    }
  }

  /** Python's repr of a string: single quotes unless the text has one and no double quote, with escapes for the chosen quote, backslash, and the common control characters. */
  function Repr(s: string): (r: string)
    ensures |r| >= 2 + |s| && '\n' !in r
  {
    var q := if '\'' in s && '"' !in s then '"' else '\'';
    [q] + EscapeFor(s, q) + [q]
  }

  function EscapeFor(s: string, q: char): (r: string)
    requires q != '\n'
    ensures |r| >= |s| && '\n' !in r
    decreases |s|
  {
    if s == [] then ""
    else
      var c := s[0];
      (if c == '\\' then "\\\\"
       else if c == q then ['\\', q]
       else if c == '\n' then "\\n"
       else if c == '\r' then "\\r"
       else if c == '\t' then "\\t"
       else [c]) + EscapeFor(s[1..], q)
  }

  /** The name under which a generated function's body is defined. */
  function BackingName(name: string): (r: string)
    ensures '\n' !in name ==> '\n' !in r
  {
    "___" + name + "_backing_function"
  }

  const MEMORY_INSTANCE: string := "_m"

  /** The lines make_function hands to the new block, before they are split. */
  function FunctionLines(name: string, params: seq<string>, ind: string, body: string): seq<string>
  {
    FunctionHead(name, params, ind) + [body] + FunctionTail(name, ind)
  }

  /** The signature, the push_scope line and a line binding each parameter. */
  function FunctionHead(name: string, params: seq<string>, ind: string): (h: seq<string>)
    ensures |h| == 2 + |params|
    ensures h[1] == ind + "\t_m.push_scope()"
  {
    [Signature(name, params, ind), ind + "\t" + MEMORY_INSTANCE + ".push_scope()"]
    + seq(|params|, k requires 0 <= k < |params| => ParamLine(params[k], ind))
  }

  /** The `def` line of the backing function. */
  function Signature(name: string, params: seq<string>, ind: string): (r: string)
    ensures '\n' !in name && '\n' !in ind && '\n' !in JoinWith(",", params) ==> '\n' !in r
  {
    ind + "def " + BackingName(name) + "(" + JoinWith(",", params) + "):"
  }

  /** The line binding a parameter in the memory under its own name. */
  function ParamLine(param: string, ind: string): (r: string)
    ensures '\n' !in param && '\n' !in ind ==> '\n' !in r
  {
    ind + "\t" + MEMORY_INSTANCE + ".new(" + param + ", name=" + Repr(param) + ")"
  }

  /** The pop_scope line and the line binding the backing function. */
  function FunctionTail(name: string, ind: string): (t: seq<string>)
    ensures |t| == 2 && t[0] == ind + "\t_m.pop_scope()"
    ensures '\n' !in name && '\n' !in ind ==> Plain(t)
  {
    var backing := BackingName(name);
    var bind := ind + MEMORY_INSTANCE + ".new(" + backing + ", name=\"" + backing + "\")";
    assert '\n' !in name && '\n' !in ind ==> '\n' !in bind;
    [ind + "\t" + MEMORY_INSTANCE + ".pop_scope()", bind]
  }

  class Block {
    var lines: seq<string>

    /** A block always has a line. */
    ghost predicate Valid()
      reads this
    {
      |lines| > 0
    }

    /** Block(lines): the lines split at newlines, or `pass` when that leaves none. */
    constructor(given: seq<string>)
      ensures Valid()
      ensures lines == BlockLines(given)
    {
      var fixed := FixMultilines(given);
      lines := if fixed == [] then ["pass"] else fixed;
    }

    /** fix_multilines: each line in turn, extended onto the result split at its newlines. */
    static method FixMultilines(given: seq<string>) returns (fixed: seq<string>)
      ensures fixed == FixedLines(given)
    {
      fixed := [];
      for i := 0 to |given|
        invariant fixed == FixedLines(given[..i])
      {
        assert given[..i + 1][..i] == given[..i];
        fixed := fixed + Split(given[i]);
      }
      assert given[..|given|] == given;
    }

    /** join(k): the indentation, then the lines separated by a newline and the indentation. */
    function Join(indentationLevel: nat): string
      reads this
    {
      var indentation := Tabs(indentationLevel);
      indentation + JoinWith("\n" + indentation, lines)
    }

    /** make_if: a header line, then every line one tab deeper than the header. */
    method MakeIf(condition: string, extraIndentation: nat) returns (b: Block)
      ensures fresh(b) && b.Valid()
      ensures b.lines == BlockLines([Tabs(extraIndentation) + "if " + condition + ":"] + Prefixed(Tabs(extraIndentation) + "\t", lines))
    {
      var extraIndent := Tabs(extraIndentation);
      b := new Block([extraIndent + "if " + condition + ":"] + Prefixed(extraIndent + "\t", lines));
    }

    /** make_while: a header line, then every line one tab deeper than the header. */
    method MakeWhile(condition: string, extraIndentation: nat) returns (b: Block)
      ensures fresh(b) && b.Valid()
      ensures b.lines == BlockLines([Tabs(extraIndentation) + "while " + condition + ":"] + Prefixed(Tabs(extraIndentation) + "\t", lines))
    {
      var extraIndent := Tabs(extraIndentation);
      b := new Block([extraIndent + "while " + condition + ":"] + Prefixed(extraIndent + "\t", lines));
    }

    /**
     * make_function: the `def` line, a push_scope line, one line binding
     * each parameter, the body joined at one tab, a pop_scope line and the
     * line binding the function itself.
     */
    method MakeFunction(name: string, params: seq<string>, extraIndentation: nat) returns (b: Block)
      requires Valid()
      ensures fresh(b) && b.Valid()
      ensures b.lines == BlockLines(FunctionLines(name, params, Tabs(extraIndentation), Join(1)))
    {
      b := new Block(FunctionLines(name, params, Tabs(extraIndentation), Join(1)));
    }

    /** add_elif: an `elif` header and the branch's lines one tab deeper are appended. */
    method AddElif(condition: string, block: Block, extraIndentation: nat)
      requires block != this
      modifies this
      ensures lines == old(lines) + [Tabs(extraIndentation) + "elif " + condition + ":"] + Prefixed(Tabs(extraIndentation) + "\t", block.lines)
    {
      var extraIndent := Tabs(extraIndentation);
      lines := lines + [extraIndent + "elif " + condition + ":"];
      lines := lines + Prefixed(extraIndent + "\t", block.lines);
    }

    /** add_else: an `else` header and the branch's lines one tab deeper are appended. */
    method AddElse(block: Block, extraIndentation: nat)
      requires block != this
      modifies this
      ensures lines == old(lines) + [Tabs(extraIndentation) + "else:"] + Prefixed(Tabs(extraIndentation) + "\t", block.lines)
    {
      var extraIndent := Tabs(extraIndentation);
      lines := lines + [extraIndent + "else:"];
      lines := lines + Prefixed(extraIndent + "\t", block.lines);
    }
  }

  /** Joining a block indents every one of its lines by the level and separates them with newlines. */
  lemma {:induction false} JoinMeaning(lines: seq<string>, k: nat)
    requires |lines| > 0
    ensures Tabs(k) + JoinWith("\n" + Tabs(k), lines) == JoinWith("\n", Prefixed(Tabs(k), lines))
  {
    JoinIndents(Tabs(k), lines);
  }

  /** A block's lines have no newline, are never empty, and join to the text of the given lines. */
  lemma {:induction false} BlockLinesMeaning(given: seq<string>)
    ensures |BlockLines(given)| > 0
    ensures forall k :: 0 <= k < |BlockLines(given)| ==> '\n' !in BlockLines(given)[k]
    ensures given == [] <==> BlockLines(given) == ["pass"] && FixedLines(given) == []
    ensures given != [] ==> JoinWith("\n", BlockLines(given)) == JoinWith("\n", given)
  {
    if given != [] {
      FixedLinesJoin(given);
    }
  }

  /** With a one-line condition, make_if and make_while give the header and then exactly the block's lines, one tab deeper. */
  lemma {:induction false} HeaderLines(header: string, lines: seq<string>, extra: nat)
    requires '\n' !in header && Plain(lines)
    ensures BlockLines([Tabs(extra) + header] + Prefixed(Tabs(extra) + "\t", lines)) == [Tabs(extra) + header] + Prefixed(Tabs(extra) + "\t", lines)
  {
    var all := [Tabs(extra) + header] + Prefixed(Tabs(extra) + "\t", lines);
    forall k | 0 <= k < |all|
      ensures '\n' !in all[k]
    {
      if k > 0 {
        assert all[k] == Tabs(extra) + "\t" + lines[k - 1];
      }
    }
    FixedLinesKeep(all);
  }

  /** Fixing the lines of two lists one after the other fixes each list. */
  lemma {:induction false} FixedLinesAppend(a: seq<string>, b: seq<string>)
    ensures FixedLines(a + b) == FixedLines(a) + FixedLines(b)
    decreases |b|
  {
    if b != [] {
      var init := b[..|b| - 1];
      assert (a + b)[..|a + b| - 1] == a + init;
      FixedLinesAppend(a, init);
    } else {
      assert a + b == a;
    }
  }

  /** Joining texts free of newlines with a separator free of them gives a text free of them. */
  lemma {:induction false} JoinNoNewline(sep: string, xs: seq<string>)
    requires '\n' !in sep && Plain(xs)
    ensures '\n' !in JoinWith(sep, xs)
    decreases |xs|
  {
    if |xs| > 1 {
      JoinNoNewline(sep, xs[1..]);
    }
  }

  /** With a name and parameters free of newlines, the head lines are free of them. */
  lemma {:induction false} HeadPlain(name: string, params: seq<string>, ind: string)
    requires '\n' !in name && '\n' !in ind && Plain(params)
    ensures forall k :: 0 <= k < |FunctionHead(name, params, ind)| ==> '\n' !in FunctionHead(name, params, ind)[k]
  {
    JoinNoNewline(",", params);
  }

  /**
   * With a name and parameters free of newlines, the function block is the
   * `def` line, the push_scope line, a line per parameter, the body lines
   * each one tab deeper, then the pop_scope line and the binding line.
   */
  lemma {:induction false} FunctionBrackets(name: string, params: seq<string>, extra: nat, lines: seq<string>)
    requires |lines| > 0
    requires '\n' !in name && Plain(params)
    requires Plain(lines)
    ensures var ind, b := Tabs(extra), BlockLines(FunctionLines(name, params, Tabs(extra), Tabs(1) + JoinWith("\n" + Tabs(1), lines)));
      && |b| == |params| + |lines| + 4
      && b[1] == ind + "\t_m.push_scope()"
      && b[2 + |params|..2 + |params| + |lines|] == Prefixed("\t", lines)
      && b[|b| - 2] == ind + "\t_m.pop_scope()"
  {
    var ind := Tabs(extra);
    assert '\n' !in ind;
    var body := Tabs(1) + JoinWith("\n" + Tabs(1), lines);
    var head, mid, tail := FunctionHead(name, params, ind), Prefixed("\t", lines), FunctionTail(name, ind);
    BodySplits(lines);
    HeadPlain(name, params, ind);
    FunctionFixed(head, body, tail);
    var b := head + mid + tail;
    assert BlockLines(FunctionLines(name, params, ind, body)) == b;
    assert b[1] == head[1];
    assert b[2 + |params|..2 + |params| + |lines|] == mid;
    assert b[|b| - 2] == tail[0];
  }

  /** The body, joined at one tab, splits back into its lines one tab deeper. */
  lemma {:induction false} BodySplits(lines: seq<string>)
    requires |lines| > 0 && Plain(lines)
    ensures Split(Tabs(1) + JoinWith("\n" + Tabs(1), lines)) == Prefixed("\t", lines)
  {
    assert Tabs(1) == "\t";
    JoinIndents(Tabs(1), lines);
    var indented := Prefixed(Tabs(1), lines);
    forall k | 0 <= k < |indented|
      ensures '\n' !in indented[k]
    {
      assert indented[k] == Tabs(1) + lines[k];
    }
    JoinSplit(indented);
  }

  /** Lines free of newlines around one text: only the text is split. */
  lemma {:induction false} FunctionFixed(head: seq<string>, body: string, tail: seq<string>)
    requires Plain(head)
    requires Plain(tail)
    ensures FixedLines(head + [body] + tail) == head + Split(body) + tail
  {
    var sb, rest := Split(body), [body] + tail;
    assert head + [body] + tail == head + rest;
    assert head + (sb + tail) == head + sb + tail;
    FixedLinesKeep(head);
    FixedLinesKeep(tail);
    FixedLinesAppend([body], tail);
    assert FixedLines([body]) == FixedLines([]) + sb;
    assert FixedLines(rest) == sb + tail;
    FixedLinesAppend(head, rest);
    assert FixedLines(head + rest) == head + (sb + tail);
  }
}
