/**
 * A source text of the Go front end (eggo/source/source.go): the offsets
 * where lines start are computed once, and a byte offset is turned into a
 * 1-based line and column by a binary search over them. The text is a
 * sequence of bytes; a newline byte is never part of a multi-byte UTF-8
 * sequence, so scanning runes and scanning bytes find the same newlines.
 */
module Source {
  import opened Wrappers

  datatype Source = Source(filePath: string, data: string, lineStarts: seq<int>, length: int)

  datatype SourceError = OffsetOutOfRange(offset: int, length: int)

  /** The offset just after every newline of `data`, in order. */
  function LineStarts(data: string): (ls: seq<int>)
    ensures forall k :: 0 <= k < |ls| ==> 0 < ls[k] <= |data|
    decreases |data|
  {
    if data == [] then []
    else LineStarts(data[..|data| - 1]) + (if data[|data| - 1] == '\n' then [|data|] else [])
  }

  /** The number of newlines in `s`. */
  function Newlines(s: string): nat
    decreases |s|
  {
    if s == [] then 0 else Newlines(s[..|s| - 1]) + (if s[|s| - 1] == '\n' then 1 else 0)
  }

  /** Where the line holding offset |s| starts: just after the last newline of `s`, or 0. */
  function LastBreak(s: string): (b: nat)
    ensures b <= |s|
    ensures b > 0 ==> s[b - 1] == '\n'
    ensures forall k :: b <= k < |s| ==> s[k] != '\n'
    decreases |s|
  {
    if s == [] then 0 else if s[|s| - 1] == '\n' then |s| else LastBreak(s[..|s| - 1])
  }

  predicate StrictlyIncreasing(xs: seq<int>)
  {
    forall i, j :: 0 <= i < j < |xs| ==> xs[i] < xs[j]
  }

  /** The line starts are strictly increasing. */
  lemma {:induction false} LineStartsIncreasing(data: string)
    ensures StrictlyIncreasing(LineStarts(data))
    decreases |data|
  {
    if data != [] {
      LineStartsIncreasing(data[..|data| - 1]);
    }
  }

  /** The line starts are exactly the offsets after a newline, one per newline. */
  lemma {:induction false} LineStartsSpec(data: string)
    ensures forall k :: 0 <= k < |LineStarts(data)| ==> data[LineStarts(data)[k] - 1] == '\n'
    ensures forall i :: 0 <= i < |data| && data[i] == '\n' ==> i + 1 in LineStarts(data)
    ensures |LineStarts(data)| == Newlines(data)
    decreases |data|
  {
    if data != [] {
      var init := data[..|data| - 1];
      LineStartsSpec(init);
      forall k | 0 <= k < |LineStarts(init)|
        ensures data[LineStarts(init)[k] - 1] == '\n'
      {
        assert data[LineStarts(init)[k] - 1] == init[LineStarts(init)[k] - 1];
      }
      forall i | 0 <= i < |data| && data[i] == '\n'
        ensures i + 1 in LineStarts(data)
      {
        if i < |init| {
          assert init[i] == '\n';
        }
      }
    }
  }

  /** The line starts of a prefix are a prefix of the line starts, and every later one lies beyond it. */
  lemma {:induction false} LineStartsPrefix(data: string, n: nat)
    requires n <= |data|
    ensures var ls, pre := LineStarts(data), LineStarts(data[..n]);
      && |pre| <= |ls| && ls[..|pre|] == pre
      && forall k :: |pre| <= k < |ls| ==> ls[k] > n
    decreases |data|
  {
    if n < |data| {
      var init := data[..|data| - 1];
      assert init[..n] == data[..n];
      LineStartsPrefix(init, n);
    } else {
      assert data[..n] == data;
    }
  }

  /** The last line start of a text is where its last line begins. */
  lemma {:induction false} LastLineStart(s: string)
    ensures LineStarts(s) == [] ==> LastBreak(s) == 0
    ensures LineStarts(s) != [] ==> LastBreak(s) == LineStarts(s)[|LineStarts(s)| - 1]
    decreases |s|
  {
    if s != [] && s[|s| - 1] != '\n' {
      LastLineStart(s[..|s| - 1]);
    }
  }

  /** NewSource: one pass over the text, collecting the offset after each newline. */
  method NewSource(filePath: string, data: string) returns (s: Source)
    ensures s == Source(filePath, data, LineStarts(data), |data|)
  {
    var lineStarts: seq<int> := [];
    for i := 0 to |data|
      invariant lineStarts == LineStarts(data[..i])
    {
      assert data[..i + 1][..i] == data[..i];
      if data[i] == '\n' {
        lineStarts := lineStarts + [i + 1];
      }
    }
    assert data[..|data|] == data;
    return Source(filePath, data, lineStarts, |data|);
  }

  /** A source as NewSource builds it. */
  predicate Valid(s: Source)
  {
    s.lineStarts == LineStarts(s.data) && s.length == |s.data|
  }

  /** The 1-based line of an offset: one more than the newlines before it. */
  function LineOf(data: string, offset: nat): nat
    requires offset <= |data|
  {
    1 + Newlines(data[..offset])
  }

  /** The 1-based column of an offset: its distance from the start of its line, plus one. */
  function ColOf(data: string, offset: nat): nat
    requires offset <= |data|
  {
    offset - LastBreak(data[..offset]) + 1
  }

  /** The binary search of GetLineAndCol: the number of line starts at or before the offset. */
  method SearchLine(ls: seq<int>, offset: int) returns (lo: nat)
    requires StrictlyIncreasing(ls)
    ensures lo <= |ls|
    ensures forall k :: 0 <= k < lo ==> ls[k] <= offset
    ensures forall k :: lo <= k < |ls| ==> ls[k] > offset
  {
    lo := 0;
    var hi := |ls|;
    while lo < hi
      invariant 0 <= lo <= hi <= |ls|
      invariant forall k :: 0 <= k < lo ==> ls[k] <= offset
      invariant forall k :: hi <= k < |ls| ==> ls[k] > offset
    {
      var mid := (lo + hi) / 2;
      if ls[mid] <= offset {
        lo := mid + 1;
      } else {
        hi := mid;
      }
    }
  }

  /**
   * GetLineAndCol: an offset outside the text is an error; otherwise the
   * line is one more than the line starts at or before the offset, and the
   * column counts from the last of them.
   */
  method GetLineAndCol(source: Source, offset: int) returns (r: Result<(int, int), SourceError>)
    requires Valid(source)
    ensures offset < 0 || offset >= |source.data| ==> r == Failure(OffsetOutOfRange(offset, source.length))
    ensures 0 <= offset < |source.data| ==> r == Success((LineOf(source.data, offset), ColOf(source.data, offset)))
  {
    if offset < 0 || offset > source.length - 1 {
      return Failure(OffsetOutOfRange(offset, source.length));
    }
    LineStartsIncreasing(source.data);
    var lo := SearchLine(source.lineStarts, offset);
    var lineNum := lo + 1;
    var lineStart := 0;
    if lo > 0 {
      lineStart := source.lineStarts[lo - 1];
    }
    SearchCounts(source.data, offset, lo);
    return Success((lineNum, offset - lineStart + 1));
  }

  /** Where the binary search stops: the count of newlines before the offset, after the last of which the line starts. */
  lemma {:induction false} SearchCounts(data: string, offset: nat, lo: nat)
    requires offset < |data|
    requires lo <= |LineStarts(data)|
    requires forall k :: 0 <= k < lo ==> LineStarts(data)[k] <= offset
    requires forall k :: lo <= k < |LineStarts(data)| ==> LineStarts(data)[k] > offset
    ensures lo == Newlines(data[..offset])
    ensures (if lo > 0 then LineStarts(data)[lo - 1] else 0) == LastBreak(data[..offset])
  {
    var ls, pre := LineStarts(data), LineStarts(data[..offset]);
    LineStartsPrefix(data, offset);
    LineStartsSpec(data[..offset]);
    LastLineStart(data[..offset]);
    var c := |pre|;
    assert forall k :: 0 <= k < c ==> ls[k] == ls[..c][k] == pre[k];
    assert c < |ls| ==> ls[c] > offset;
    assert lo == c;
  }

  /** The newline itself belongs to the line it ends. */
  lemma {:induction false} NewlineEndsItsLine(data: string, offset: nat)
    requires offset < |data| && data[offset] == '\n'
    ensures LineOf(data, offset) + 1 == LineOf(data, offset + 1) || offset + 1 == |data|
    ensures offset + 1 < |data| ==> ColOf(data, offset + 1) == 1
  {
    assert data[..offset + 1][..offset] == data[..offset];
  }

  lemma {:induction false} NoNewlines(s: string)
    requires forall k :: 0 <= k < |s| ==> s[k] != '\n'
    ensures Newlines(s) == 0 && LastBreak(s) == 0
    decreases |s|
  {
    if s != [] {
      NoNewlines(s[..|s| - 1]);
    }
  }

  const TEST_SOURCE: string := "01234\n67890\n23456\n89012\n45678\n"

  /** Cases of TestGetLineAndCol: offsets 0 and 5 are on line 1, the newline at 5 in column 6, offset 6 starts line 2. */
  lemma {:induction false} LineAndColTable()
    ensures LineOf(TEST_SOURCE, 0) == 1 && ColOf(TEST_SOURCE, 0) == 1
    ensures LineOf(TEST_SOURCE, 5) == 1 && ColOf(TEST_SOURCE, 5) == 6
    ensures LineOf(TEST_SOURCE, 6) == 2 && ColOf(TEST_SOURCE, 6) == 1
    ensures LineOf(TEST_SOURCE, 7) == 2 && ColOf(TEST_SOURCE, 7) == 2
  {
    var d := TEST_SOURCE;
    assert d[..0] == [];
    assert d[..5] == "01234";
    NoNewlines("01234");
    assert d[..6] == "01234\n";
    assert d[..6][..5] == d[..5];
    assert d[..7] == "01234\n6";
    assert d[..7][..6] == d[..6];
  }
}
