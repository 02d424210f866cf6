/**
 * A source file of the Rust front end (crates/egg-source/src/source_file.rs):
 * the text as read, newline-terminated, with the 0-based start of each line
 * (0, then the offset of every newline), a 0-based line and column for an
 * offset, and the text of an inclusive span. The text is taken to be one
 * byte per character.
 */
module SourceFile {
  import opened Wrappers
  import Source

  /** Span: both ends are inclusive offsets. */
  datatype Span = Span(fileId: nat, start: nat, end: nat)

  datatype SourceError = SpanOutOfBounds(span: Span) | OffsetOutOfBounds(offset: nat)

  datatype SourceFile = SourceFile(contents: string, fileId: nat, lineIndexes: seq<nat>, charCount: nat)

  /** The result of slice::binary_search: where the value is, or where it would be inserted. */
  datatype SearchResult = Found(index: nat) | NotFound(insertAt: nat)

  /** read_file after the read: a text that does not end in a newline gets one. */
  function Terminated(buf: string): (r: string)
    ensures |r| > 0 && r[|r| - 1] == '\n'
    ensures |r| == |buf| || |r| == |buf| + 1
    ensures r[..|buf|] == buf
    ensures |buf| > 0 && buf[|buf| - 1] == '\n' ==> r == buf
  {
    if |buf| > 0 && buf[|buf| - 1] == '\n' then buf else buf + "\n"
  }

  /** The offsets of the newlines of `s`, in order. */
  function NewlinePositions(s: string): (ps: seq<nat>)
    ensures forall k :: 0 <= k < |ps| ==> ps[k] < |s| && s[ps[k]] == '\n'
    decreases |s|
  {
    if s == [] then []
    else
      var init := s[..|s| - 1];
      assert forall k :: 0 <= k < |NewlinePositions(init)| ==> s[NewlinePositions(init)[k]] == init[NewlinePositions(init)[k]];
      NewlinePositions(init) + (if s[|s| - 1] == '\n' then [|s| - 1] else [])
  }

  /** SourceFile::from, once the text is read: line 0 starts at 0 and every newline starts a line. */
  function From(fileId: nat, buf: string): (f: SourceFile)
    ensures Valid(f) && f.contents == Terminated(buf)
  {
    var contents := Terminated(buf);
    SourceFile(contents, fileId, [0] + NewlinePositions(contents), |contents|)
  }

  predicate Valid(f: SourceFile)
  {
    f.lineIndexes == [0] + NewlinePositions(f.contents) && f.charCount == |f.contents|
  }

  predicate Sorted(xs: seq<nat>)
  {
    forall i, j :: 0 <= i < j < |xs| ==> xs[i] <= xs[j]
  }

  /** The bisection of slice::binary_search, narrowed to the first element not below `x`. */
  function LowerBound(xs: seq<nat>, x: nat, lo: nat, hi: nat): (r: nat)
    requires lo <= hi <= |xs|
    requires Sorted(xs)
    requires forall k :: 0 <= k < lo ==> xs[k] < x
    requires forall k :: hi <= k < |xs| ==> xs[k] >= x
    ensures lo <= r <= hi
    ensures forall k :: 0 <= k < r ==> xs[k] < x
    ensures forall k :: r <= k < |xs| ==> xs[k] >= x
    decreases hi - lo
  {
    if lo == hi then lo
    else
      var mid := (lo + hi) / 2;
      if xs[mid] < x then LowerBound(xs, x, mid + 1, hi) else LowerBound(xs, x, lo, mid)
  }

  /**
   * slice::binary_search on a sorted sequence. Where the value occurs more than
   * once the library leaves open which index it returns; this one returns the first.
   */
  function BinarySearch(xs: seq<nat>, x: nat): (r: SearchResult)
    requires Sorted(xs)
    ensures r.Found? ==> r.index < |xs| && xs[r.index] == x && forall k :: 0 <= k < r.index ==> xs[k] < x
    ensures r.NotFound? ==> (r.insertAt <= |xs|
      && (forall k :: 0 <= k < r.insertAt ==> xs[k] < x)
      && (forall k :: r.insertAt <= k < |xs| ==> xs[k] > x))
  {
    var i := LowerBound(xs, x, 0, |xs|);
    if i < |xs| && xs[i] == x then Found(i) else NotFound(i)
  }

  /** The newline offsets of a prefix are a prefix of the newline offsets, and every later one lies beyond it. */
  lemma {:induction false} NewlinePrefix(s: string, n: nat)
    requires n <= |s|
    ensures var ps, pre := NewlinePositions(s), NewlinePositions(s[..n]);
      && |pre| <= |ps| && ps[..|pre|] == pre
      && forall k :: |pre| <= k < |ps| ==> ps[k] >= n
    decreases |s|
  {
    if n < |s| {
      var init := s[..|s| - 1];
      assert init[..n] == s[..n];
      NewlinePrefix(init, n);
    } else {
      assert s[..n] == s;
    }
  }

  /** One newline offset per newline, strictly increasing, the last of them just before where the last line starts. */
  lemma {:induction false} NewlineFacts(s: string)
    ensures |NewlinePositions(s)| == Source.Newlines(s)
    ensures forall i, j :: 0 <= i < j < |NewlinePositions(s)| ==> NewlinePositions(s)[i] < NewlinePositions(s)[j]
    ensures NewlinePositions(s) == [] <==> Source.LastBreak(s) == 0
    ensures NewlinePositions(s) != [] ==> NewlinePositions(s)[|NewlinePositions(s)| - 1] == Source.LastBreak(s) - 1
    decreases |s|
  {
    if s != [] {
      NewlineFacts(s[..|s| - 1]);
    }
  }

  /** The line indexes of a valid file are sorted, so they can be searched. */
  lemma {:induction false} LineIndexesSorted(f: SourceFile)
    requires Valid(f)
    ensures Sorted(f.lineIndexes)
  {
    NewlineFacts(f.contents);
  }

  /** The line get_line_and_col reports for an offset: the search result, or the entry before the insertion point. */
  function LineFor(li: seq<nat>, offset: nat): int
    requires Sorted(li)
  {
    match BinarySearch(li, offset)
    case Found(i) => i
    case NotFound(i) => i - 1
  }

  function SearchedLine(f: SourceFile, offset: nat): int
    requires Valid(f)
  {
    LineIndexesSorted(f);
    LineFor(f.lineIndexes, offset)
  }

  /**
   * The search over 0 followed by increasing newline offsets, `p` of them
   * below the offset and `q` at or below it: the line is `q`, or 0 at offset
   * 0, and its entry is the last of them at or below the offset, or 0.
   */
  lemma {:induction false} SearchLands(ps: seq<nat>, offset: nat, p: nat, q: nat)
    requires Sorted([0] + ps)
    requires p <= q <= |ps| && q <= p + 1
    requires forall k :: 0 <= k < p ==> ps[k] < offset
    requires forall k :: p <= k < |ps| ==> ps[k] >= offset
    requires forall k :: q <= k < |ps| ==> ps[k] > offset
    requires q > p ==> ps[p] == offset
    ensures var li, line := [0] + ps, LineFor([0] + ps, offset);
      && line == (if offset > 0 then q else 0)
      && 0 <= line < |li|
      && li[line] == (if line == 0 then 0 else ps[line - 1])
  {
    var li := [0] + ps;
    assert forall k :: 0 < k < |li| ==> li[k] == ps[k - 1];
    var below := if offset > 0 then 1 + p else 0;
    assert forall k :: 0 <= k < below ==> li[k] < offset;
    assert forall k :: below <= k < |li| ==> li[k] >= offset;
    SearchSplits(li, offset, below);
  }

  /** The search stops where the elements below the value end. */
  lemma {:induction false} SearchSplits(xs: seq<nat>, x: nat, i: nat)
    requires Sorted(xs) && i <= |xs|
    requires forall k :: 0 <= k < i ==> xs[k] < x
    requires forall k :: i <= k < |xs| ==> xs[k] >= x
    ensures BinarySearch(xs, x) == if i < |xs| && xs[i] == x then Found(i) else NotFound(i)
  {
  }

  /**
   * Around an offset of the text: the newlines before it come first, the
   * offset itself is the next one exactly when it holds a newline, and the
   * last newline at or before it is just before where its Go line starts.
   */
  lemma {:induction false} NewlinesAround(c: string, offset: nat)
    requires offset < |c|
    ensures var ps, p, q := NewlinePositions(c), |NewlinePositions(c[..offset])|, |NewlinePositions(c[..offset + 1])|;
      && p == Source.Newlines(c[..offset])
      && q == p + (if c[offset] == '\n' then 1 else 0)
      && q <= |ps|
      && (forall k :: 0 <= k < p ==> ps[k] < offset)
      && (forall k :: p <= k < |ps| ==> ps[k] >= offset)
      && (forall k :: q <= k < |ps| ==> ps[k] > offset)
      && (q > p ==> ps[p] == offset)
      && (q == 0 <==> Source.LastBreak(c[..offset + 1]) == 0)
      && (q > 0 ==> ps[q - 1] == Source.LastBreak(c[..offset + 1]) - 1)
  {
    var ps, pre, post := NewlinePositions(c), NewlinePositions(c[..offset]), NewlinePositions(c[..offset + 1]);
    NewlinePrefix(c, offset);
    NewlinePrefix(c, offset + 1);
    NewlineFacts(c[..offset]);
    NewlineFacts(c[..offset + 1]);
    assert c[..offset + 1][..offset] == c[..offset];
    assert post == pre + (if c[offset] == '\n' then [offset] else []);
    assert forall k :: 0 <= k < |pre| ==> ps[k] == ps[..|pre|][k] == pre[k];
    assert forall k :: 0 <= k < |post| ==> ps[k] == ps[..|post|][k] == post[k];
  }

  /**
   * Where the search lands for an offset inside the text: a newline opens
   * the line it precedes, so the line is the number of newlines before the
   * offset, one more when the offset itself holds a newline (but not at
   * offset 0, which line 0 already starts); the line's entry is the last
   * newline at or before the offset, or 0.
   */
  lemma {:induction false} SearchedLineMeaning(f: SourceFile, offset: nat)
    requires Valid(f) && offset < f.charCount
    ensures var line, c := SearchedLine(f, offset), f.contents;
      && 0 <= line < |f.lineIndexes|
      && line == Source.Newlines(c[..offset]) + (if offset > 0 && c[offset] == '\n' then 1 else 0)
      && f.lineIndexes[line] == (if Source.LastBreak(c[..offset + 1]) == 0 then 0 else Source.LastBreak(c[..offset + 1]) - 1)
  {
    var c := f.contents;
    NewlinesAround(c, offset);
    LineIndexesSorted(f);
    SearchLands(NewlinePositions(c), offset, |NewlinePositions(c[..offset])|, |NewlinePositions(c[..offset + 1])|);
  }

  /**
   * SourceFile::get_line_and_col: an offset at or past the end is an error;
   * otherwise the 0-based line whose entry is at or before the offset, and
   * the column counted from that entry, which is never negative.
   */
  function GetLineAndCol(f: SourceFile, offset: nat): (r: Result<(nat, nat), SourceError>)
    requires Valid(f)
    ensures offset >= f.charCount ==> r == Failure(OffsetOutOfBounds(offset))
    ensures offset < f.charCount ==> (r.Success?
      && var (line, col) := r.value;
      && line == Source.Newlines(f.contents[..offset]) + (if offset > 0 && f.contents[offset] == '\n' then 1 else 0)
      && col == (if Source.LastBreak(f.contents[..offset + 1]) == 0 then offset else offset + 1 - Source.LastBreak(f.contents[..offset + 1])))
  {
    if offset < f.charCount then
      SearchedLineMeaning(f, offset);
      var line := SearchedLine(f, offset);
      Success((line, offset - f.lineIndexes[line]))
    else
      Failure(OffsetOutOfBounds(offset))
  }

  /**
   * Away from newlines, the Rust line is the Go line counted from 0; the
   * Rust column counts from the newline that opens the line, so it is the Go
   * column on every line but the first, where it is one less.
   */
  lemma {:induction false} MatchesGo(buf: string, offset: nat)
    requires offset < |From(0, buf).contents| && From(0, buf).contents[offset] != '\n'
    ensures var f, c := From(0, buf), From(0, buf).contents;
      GetLineAndCol(f, offset).Success?
      && GetLineAndCol(f, offset).value.0 == Source.LineOf(c, offset) - 1
      && GetLineAndCol(f, offset).value.1 == Source.ColOf(c, offset) - (if Source.LineOf(c, offset) == 1 then 1 else 0)
  {
    var c := From(0, buf).contents;
    var pre, post := c[..offset], c[..offset + 1];
    assert post[..offset] == pre;
    assert Source.Newlines(post) == Source.Newlines(pre);
    assert Source.LastBreak(post) == Source.LastBreak(pre);
    NewlineFacts(pre);
  }

  /** SourceFile::get_text: a span that ends before it starts is an error; otherwise the characters from start to end inclusive, as far as the text goes. */
  function GetText(f: SourceFile, span: Span): (r: Result<string, SourceError>)
    ensures span.end < span.start <==> r == Failure(SpanOutOfBounds(span))
    ensures r.Success? ==> |r.value| == Min(span.end + 1, |f.contents|) - Min(span.start, |f.contents|)
    ensures r.Success? ==> forall k :: 0 <= k < |r.value| ==> r.value[k] == f.contents[span.start + k]
  {
    if span.end < span.start then Failure(SpanOutOfBounds(span))
    else
      var n := |f.contents|;
      Success(f.contents[Min(span.start, n)..Min(span.end + 1, n)])
  }

  function Min(a: nat, b: nat): nat
  {
    if a <= b then a else b
  }

  /** Two adjacent spans inside the text give the text of the span that covers both. */
  lemma {:induction false} GetTextAdjacent(f: SourceFile, fileId: nat, start: nat, mid: nat, end: nat)
    requires start <= mid < end < |f.contents|
    ensures GetText(f, Span(fileId, start, mid)).Success? && GetText(f, Span(fileId, mid + 1, end)).Success?
    ensures GetText(f, Span(fileId, start, mid)).value + GetText(f, Span(fileId, mid + 1, end)).value
      == GetText(f, Span(fileId, start, end)).value
  {
    var c := f.contents;
    assert c[start..mid + 1] + c[mid + 1..end + 1] == c[start..end + 1];
  }
}
