/**
 * repr_double_quoted (src/yolk/string_utilities.py): wraps a text in
 * double quotes, escaping each double quote inside it with a backslash.
 */
module StringUtilities {
  /** The escape of one character: a double quote gets a backslash, every other character stays. */
  function Escape(c: char): string
  {
    if c == '"' then ['\\', '"'] else [c]
  }

  /** The join over the escaped characters of `text`. */
  function Inner(text: string): string
    decreases |text|
  {
    if text == [] then [] else Escape(text[0]) + Inner(text[1..])
  }

  /** The number of double quotes in `text`. */
  function Quotes(text: string): nat
    decreases |text|
  {
    if text == [] then 0 else (if text[0] == '"' then 1 else 0) + Quotes(text[1..])
  }

  /** repr_double_quoted: the escaped text between two double quotes. */
  function ReprDoubleQuoted(text: string): (r: string)
    ensures |r| >= 2 && r[0] == '"' && r[|r| - 1] == '"'
    ensures |r| == |text| + 2 + Quotes(text)
    ensures r[1..|r| - 1] == Inner(text)
  {
    InnerLength(text);
    var r := "\"" + Inner(text) + "\"";
    assert r[1..|r| - 1] == Inner(text);
    r
  }

  lemma {:induction false} InnerLength(text: string)
    ensures |Inner(text)| == |text| + Quotes(text)
    decreases |text|
  {
    if text != [] {
      InnerLength(text[1..]);
    }
  }

  /**
   * Reading an escaped text back: a backslash directly before a double
   * quote stands for that quote, every other character for itself.
   */
  function Unescape(s: string): string
    decreases |s|
  {
    if s == [] then []
    else if |s| >= 2 && s[0] == '\\' && s[1] == '"' then ['"'] + Unescape(s[2..])
    else [s[0]] + Unescape(s[1..])
  }

  /** An escaped text never starts with a bare double quote. */
  lemma {:induction false} InnerStart(text: string)
    requires Inner(text) != []
    ensures Inner(text)[0] != '"'
  {
  }

  /** The escaping loses nothing: reading the inner text back gives the original text. */
  lemma {:induction false} UnescapeInner(text: string)
    ensures Unescape(Inner(text)) == text
    decreases |text|
  {
    if text != [] {
      var rest := Inner(text[1..]);
      UnescapeInner(text[1..]);
      if text[0] == '"' {
        assert Inner(text) == ['\\', '"'] + rest;
        assert Inner(text)[2..] == rest;
      } else {
        assert Inner(text) == [text[0]] + rest;
        assert Inner(text)[1..] == rest;
        if text[0] == '\\' && rest != [] {
          InnerStart(text[1..]);
        }
      }
      assert [text[0]] + text[1..] == text;
    }
  }

  /** Two texts with the same quoted form are the same text. */
  lemma {:induction false} ReprInjective(a: string, b: string)
    requires ReprDoubleQuoted(a) == ReprDoubleQuoted(b)
    ensures a == b
  {
    UnescapeInner(a);
    UnescapeInner(b);
  }

  /** The cases of the test table of string_utilities_test.py: texts without double quotes stay as they are. */
  lemma {:induction false} ReprTablePlain()
    ensures ReprDoubleQuoted("foo") == "\"foo\""
    ensures ReprDoubleQuoted("h'i") == "\"h'i\""
    ensures ReprDoubleQuoted("'foo'") == "\"'foo'\""
  {
    assert Inner("foo") == "foo";
    assert Inner("h'i") == "h'i";
    assert Inner("'foo'") == "'foo'";
  }

  /** The cases of the test table with double quotes inside. */
  lemma {:induction false} ReprTableQuoted()
    ensures ReprDoubleQuoted("h\"i") == "\"h\\\"i\""
    ensures ReprDoubleQuoted("\"foo\"") == "\"\\\"foo\\\"\""
  {
    assert Inner("\"") == "\\\"";
    assert Inner("i") == "i";
    assert Inner("\"i") == "\\\"i";
    assert Inner("h\"i") == "h\\\"i";
    assert Inner("oo\"") == "oo\\\"";
    assert Inner("foo\"") == "foo\\\"";
    assert Inner("\"foo\"") == "\\\"foo\\\"";
  }
}
