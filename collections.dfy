/**
 * The collection values of the Python back end's runtime
 * (src/backend_py/runtime/types/collections.py): strings, lists and
 * integer ranges, with concatenation, element selection, range slicing and
 * equality. A value is immutable here. The runtime objects define no
 * `__eq__`, so Python compares list elements by identity; identity is
 * outside a value model and is passed to `Equals` as a relation.
 */
module Collections {
  import opened Wrappers

  /** The runtime objects a collection holds or yields; `Opaque` stands for every other kind. */
  datatype Object =
    | Integer(value: int)
    | Str(text: string)
    | List(items: seq<Object>)
    | Range(start: int, end: int, jump: int)
    | Opaque(id: nat)
  {
    predicate IsCollection()
    {
      Str? || List? || Range?
    }
  }

  datatype CollectionError =
    | NotConcatenable   // ValueError from concatenate
    | ZeroStep          // ValueError from range() with a step of 0
    | ZeroDivision      // ZeroDivisionError from the size of a range with a step of 0
    | IndexOutOfRange(index: int)
    | NotComparable     // AssertionError from equals

  /** Python's range(start, end, jump) for a nonzero step: start, then the range from start + jump. */
  function RangeInts(start: int, end: int, jump: int): (r: seq<int>)
    requires jump != 0
    ensures |r| > 0 ==> r[0] == start && (jump > 0 ==> start < end) && (jump < 0 ==> start > end)
    decreases if jump > 0 then end - start else start - end
  {
    if (jump > 0 && start >= end) || (jump < 0 && start <= end) then []
    else [start] + RangeInts(start + jump, end, jump)
  }

  lemma {:induction false} StepShift(start: int, jump: int, k: int)
    ensures start + jump + (k - 1) * jump == start + k * jump
  {
  }

  /** The range holds every start + k*jump on the near side of end, and the next one would not be. */
  lemma {:induction false} RangeIntsSpec(start: int, end: int, jump: int)
    requires jump != 0
    ensures var r := RangeInts(start, end, jump);
      && (forall k :: 0 <= k < |r| ==> r[k] == start + k * jump)
      && (jump > 0 ==> (forall k :: 0 <= k < |r| ==> r[k] < end) && start + |r| * jump >= end)
      && (jump < 0 ==> (forall k :: 0 <= k < |r| ==> r[k] > end) && start + |r| * jump <= end)
    decreases if jump > 0 then end - start else start - end
  {
    if !((jump > 0 && start >= end) || (jump < 0 && start <= end)) {
      var r, rest := RangeInts(start, end, jump), RangeInts(start + jump, end, jump);
      RangeIntsSpec(start + jump, end, jump);
      forall k | 0 < k < |r|
        ensures r[k] == start + k * jump
      {
        assert r[k] == rest[k - 1];
        StepShift(start, jump, k);
      }
      StepShift(start, jump, |r|);
    }
  }

  /** Range.data: the integers of the range, as objects; a step of 0 raises. */
  function RangeData(start: int, end: int, jump: int): (r: Result<seq<Object>, CollectionError>)
    ensures jump == 0 <==> r == Failure(ZeroStep)
    ensures r.Success? ==> (|r.value| == |RangeInts(start, end, jump)|
      && forall k :: 0 <= k < |r.value| ==> r.value[k] == Integer(start + k * jump))
  {
    if jump == 0 then Failure(ZeroStep)
    else
      var xs := RangeInts(start, end, jump);
      RangeIntsSpec(start, end, jump);
      Success(seq(|xs|, k requires 0 <= k < |xs| => Integer(xs[k])))
  }

  /** The data of a list or a range. */
  function ListData(c: Object): Result<seq<Object>, CollectionError>
    requires c.List? || c.Range?
  {
    if c.List? then Success(c.items) else RangeData(c.start, c.end, c.jump)
  }

  /**
   * Collection.concatenate: two strings join; any mix of lists and ranges
   * gives a list of the elements of both, in order; any other pair is an error.
   */
  function Concatenate(a: Object, b: Object): (r: Result<Object, CollectionError>)
    requires a.IsCollection() && b.IsCollection()
    ensures a.Str? && b.Str? ==> r == Success(Str(a.text + b.text))
    ensures a.Str? != b.Str? ==> r == Failure(NotConcatenable)
    ensures !a.Str? && !b.Str? ==>
      if ListData(a).Success? && ListData(b).Success?
      then r == Success(List(ListData(a).value + ListData(b).value))
      else r == Failure(ZeroStep)
  {
    if a.Str? && b.Str? then Success(Str(a.text + b.text))
    else if !a.Str? && !b.Str? then
      match (ListData(a), ListData(b))
      case (Success(da), Success(db)) => Success(List(da + db))
      case _ => Failure(ZeroStep)
    else Failure(NotConcatenable)
  }

  /** Python's floor division, which rounds toward negative infinity. */
  function FloorDiv(a: int, b: int): (q: int)
    requires b != 0
    ensures q * b <= a < q * b + b || q * b + b < a <= q * b
  {
    if b > 0 then a / b
    else if a % -b == 0 then -(a / -b)
    else -(a / -b) - 1
  }

  /** Range.size as written: end - (start // jump), since // binds tighter than -. */
  function RangeSizeAsWritten(start: int, end: int, jump: int): int
    requires jump != 0
  {
    end - FloorDiv(start, jump)
  }

  /** A range of 0 to 10 by 3 holds four integers, but its size as written is 10. */
  lemma {:induction false} RangeSizeMiscounts()
    ensures RangeSizeAsWritten(0, 10, 3) == 10
    ensures |RangeInts(0, 10, 3)| == 4
  {
    assert RangeInts(9, 10, 3) == [9] + RangeInts(12, 10, 3);
  }

  /** Collection.size, for ranges the number of integers they hold, as for every other collection. */
  function Size(c: Object): (r: Result<nat, CollectionError>)
    requires c.IsCollection()
    ensures c.Str? ==> r == Success(|c.text|)
    ensures c.List? ==> r == Success(|c.items|)
    ensures c.Range? ==> (c.jump == 0 <==> r == Failure(ZeroDivision))
    ensures c.Range? && r.Success? ==> r.value == |RangeData(c.start, c.end, c.jump).value|
  {
    match c
    case Str(text) => Success(|text|)
    case List(items) => Success(|items|)
    case Range(start, end, jump) => if jump == 0 then Failure(ZeroDivision) else Success(|RangeInts(start, end, jump)|)
  }

  /** The position Python's indexing picks: a negative index counts from the end. */
  function PyIndex(length: nat, index: int): (r: Option<nat>)
    ensures r.Some? <==> -(length as int) <= index < length
    ensures r.Some? ==> r.value < length && (r.value == index || r.value == index + length)
  {
    if 0 <= index < length then Some(index)
    else if -(length as int) <= index < 0 then Some(index + length)
    else None
  }

  /**
   * select_element: Python indexing for strings and lists; for a range the
   * integer start + index if it lies below end. The step of the range plays
   * no part in a hit; a miss raises the out-of-range error, whose message
   * takes the size of the range, so a miss on a range with a step of 0 is
   * the division by zero instead.
   */
  function SelectElement(c: Object, index: int): (r: Result<Object, CollectionError>)
    requires c.IsCollection()
    ensures c.Str? ==> (r.Success? <==> -|c.text| <= index < |c.text|)
    ensures c.Str? && r.Success? ==> r.value == Str([c.text[PyIndex(|c.text|, index).value]])
    ensures c.List? ==> (r.Success? <==> -|c.items| <= index < |c.items|)
    ensures c.List? && r.Success? ==> r.value == c.items[PyIndex(|c.items|, index).value]
    ensures c.Range? ==> (r.Success? <==> c.start + index < c.end)
    ensures c.Range? && r.Success? ==> r.value == Integer(c.start + index)
    ensures r.Failure? && c.Range? && c.jump == 0 ==> r.error == ZeroDivision
    ensures r.Failure? && !(c.Range? && c.jump == 0) ==> r.error == IndexOutOfRange(index)
  {
    match c
    case Str(text) =>
      (match PyIndex(|text|, index)
       case Some(i) => Success(Str([text[i]]))
       case None => Failure(IndexOutOfRange(index)))
    case List(items) =>
      (match PyIndex(|items|, index)
       case Some(i) => Success(items[i])
       case None => Failure(IndexOutOfRange(index)))
    case Range(start, end, jump) =>
      var element := start + index;
      if element < end then Success(Integer(element))
      else if jump == 0 then Failure(ZeroDivision)
      else Failure(IndexOutOfRange(index))
  }

  function Min(a: int, b: int): int
  {
    if a <= b then a else b
  }

  function Max(a: int, b: int): int
  {
    if a >= b then a else b
  }

  /**
   * Range.select_slice: a given start is offset by the range's start and
   * clamped into [start, end - 1], a given end is offset and clamped into
   * [start, end], and the steps multiply; a missing bound or step keeps the range's own.
   */
  function RangeSlice(c: Object, start: Option<int>, end: Option<int>, jump: Option<int>): (r: Object)
    requires c.Range?
    ensures r.Range?
    ensures start.None? ==> r.start == c.start
    ensures start.Some? ==> r.start == Min(Max(start.value + c.start, c.start), c.end - 1)
    ensures start.Some? && c.start < c.end ==> c.start <= r.start < c.end
    ensures end.None? ==> r.end == c.end
    ensures end.Some? ==> r.end == Min(Max(end.value + c.start, c.start), c.end)
    ensures end.Some? && c.start <= c.end ==> c.start <= r.end <= c.end
    ensures r.jump == if jump.Some? then jump.value * c.jump else c.jump
  {
    var s := if start.Some? then Min(Max(start.value + c.start, c.start), c.end - 1) else c.start;
    var e := if end.Some? then Min(Max(end.value + c.start, c.start), c.end) else c.end;
    var j := if jump.Some? then jump.value * c.jump else c.jump;
    Range(s, e, j)
  }

  /** A unit-step range from s holds s, s + 1, ..., one below its end. */
  lemma {:induction false} UnitRange(s: int, e: int)
    requires s <= e
    ensures |RangeInts(s, e, 1)| == e - s
  {
    RangeIntsSpec(s, e, 1);
    var r := RangeInts(s, e, 1);
    if |r| > 0 {
      assert r[|r| - 1] < e;
    }
  }

  /** On a unit-step range, a slice with bounds inside it selects the same integers as slicing its data. */
  lemma {:induction false} RangeSliceData(c: Object, a: nat, b: nat)
    requires c.Range? && c.jump == 1 && a < c.end - c.start && a <= b <= c.end - c.start
    ensures |RangeInts(c.start, c.end, 1)| == c.end - c.start
    ensures var r := RangeSlice(c, Some(a), Some(b), None);
      RangeInts(r.start, r.end, r.jump) == RangeInts(c.start, c.end, 1)[a..b]
  {
    var r := RangeSlice(c, Some(a), Some(b), None);
    UnitRange(c.start, c.end);
    UnitRange(r.start, r.end);
    RangeIntsSpec(c.start, c.end, 1);
    RangeIntsSpec(r.start, r.end, 1);
  }

  /** Python's `is` on runtime objects: whether two references name the same object. */
  type Identity = (Object, Object) -> bool

  /** Python's `==` on two lists whose elements define no `__eq__`: the same length and, position by position, the same object. */
  predicate SameObjects(xs: seq<Object>, ys: seq<Object>, identical: Identity)
  {
    |xs| == |ys| && forall i :: 0 <= i < |xs| ==> identical(xs[i], ys[i])
  }

  /**
   * equals: strings equal strings with the same text; two ranges are equal
   * when size, start and step agree; a list equals a list holding the same
   * objects in the same order; a list and a range are equal only when both
   * hold nothing, since a range's data are integers made afresh on every
   * call and identical to no existing object; any other pairing fails its
   * assertion. `identical` is Python's `is` on the objects a list holds.
   */
  function Equals(a: Object, b: Object, identical: Identity): (r: Result<bool, CollectionError>)
    requires a.IsCollection() && b.IsCollection()
    ensures a.Str? != b.Str? ==> r == Failure(NotComparable)
    ensures a.Str? && b.Str? ==> r == Success(a.text == b.text)
    ensures a.Range? && b.Range? && a.jump != 0 && b.jump != 0 ==>
      r == Success(Size(a) == Size(b) && a.start == b.start && a.jump == b.jump)
    ensures a.Range? && b.Range? && (a.jump == 0 || b.jump == 0) ==> r == Failure(ZeroDivision)
    ensures a.List? && b.List? ==>
      r == Success(|a.items| == |b.items| && forall i :: 0 <= i < |a.items| ==> identical(a.items[i], b.items[i]))
    ensures a.List? != b.List? && !a.Str? && !b.Str? ==>
      (r.Success? <==> ListData(a).Success? && ListData(b).Success?)
    ensures a.List? != b.List? && !a.Str? && !b.Str? && r.Success? ==>
      (r.value <==> ListData(a).value == [] && ListData(b).value == [])
  {
    if a.Str? || b.Str? then
      if a.Str? && b.Str? then Success(a.text == b.text) else Failure(NotComparable)
    else if a.Range? && b.Range? then
      match (Size(a), Size(b))
      case (Success(sa), Success(sb)) => Success(sa == sb && a.start == b.start && a.jump == b.jump)
      case _ => Failure(ZeroDivision)
    else if a.List? && b.List? then
      Success(SameObjects(a.items, b.items, identical))
    else
      match (ListData(a), ListData(b))
      case (Success(da), Success(db)) => Success(da == [] && db == [])
      case _ => Failure(ZeroStep)
  }

  /** A list compared with itself is equal, as Python's `is` holds of every object and itself. */
  lemma {:induction false} ListEqualsItself(a: Object, identical: Identity)
    requires a.List? && forall x :: identical(x, x)
    ensures Equals(a, a, identical) == Success(true)
  {
  }

  /** A list holding an integer never equals a range over that integer, whatever the identity: the range's integers are new objects. */
  lemma {:induction false} ListNeverEqualsRange(identical: Identity)
    ensures Equals(List([Integer(1)]), Range(1, 2, 1), identical) == Success(false)
    ensures Equals(Range(1, 2, 1), List([Integer(1)]), identical) == Success(false)
  {
    assert RangeInts(1, 2, 1) == [1] + RangeInts(2, 2, 1);
  }

  /** Two lists of equal but distinct objects differ, as they do in Python. */
  lemma {:induction false} DistinctObjectsDiffer(x: Object, y: Object, identical: Identity)
    requires !identical(x, y)
    ensures Equals(List([x]), List([y]), identical) == Success(false)
  {
    assert List([x]).items[0] == x && List([y]).items[0] == y;
  }

  /** Two ranges that compare equal hold the same integers. */
  lemma {:induction false} RangeEqualsSound(a: Object, b: Object, identical: Identity)
    requires a.Range? && b.Range? && Equals(a, b, identical) == Success(true)
    ensures ListData(a).Success? && ListData(b).Success? && ListData(a).value == ListData(b).value
  {
    RangeIntsSpec(a.start, a.end, a.jump);
    RangeIntsSpec(b.start, b.end, b.jump);
  }

  /** Concatenation with a list holding nothing gives the other collection's data unchanged. */
  lemma {:induction false} ConcatenateEmpty(a: Object)
    requires (a.List? || a.Range?) && ListData(a).Success?
    ensures Concatenate(a, List([])) == Success(List(ListData(a).value))
    ensures Concatenate(List([]), a) == Success(List(ListData(a).value))
  {
    assert ListData(a).value + [] == ListData(a).value;
    assert [] + ListData(a).value == ListData(a).value;
  }

  /** Concatenation of lists and ranges is associative, since it only joins their data. */
  lemma {:induction false} ConcatenateAssociative(a: Object, b: Object, c: Object)
    requires (a.List? || a.Range?) && (b.List? || b.Range?) && (c.List? || c.Range?)
    requires ListData(a).Success? && ListData(b).Success? && ListData(c).Success?
    ensures Concatenate(a, b).Success? && Concatenate(b, c).Success?
    ensures Concatenate(Concatenate(a, b).value, c) == Concatenate(a, Concatenate(b, c).value)
  {
    var da, db, dc := ListData(a).value, ListData(b).value, ListData(c).value;
    assert (da + db) + dc == da + (db + dc);
  }

  /** Cases of test_concat_ranges and test_select_slice_range. */
  lemma {:induction false} CollectionTable()
    ensures Concatenate(Range(0, 2, 1), List([Integer(9)])) == Success(List([Integer(0), Integer(1), Integer(9)]))
    ensures RangeSlice(Range(0, 100, 1), Some(70), Some(30), Some(-1)) == Range(70, 30, -1)
    ensures SelectElement(Range(0, 4, 1), 1) == Success(Integer(1))
    ensures SelectElement(Str("0123"), 0) == Success(Str("0"))
  {
    assert RangeInts(0, 2, 1) == [0] + RangeInts(1, 2, 1);
    assert RangeInts(1, 2, 1) == [1] + RangeInts(2, 2, 1);
    assert RangeData(0, 2, 1).value == [Integer(0), Integer(1)];
    assert [Integer(0), Integer(1)] + [Integer(9)] == [Integer(0), Integer(1), Integer(9)];
    assert SelectElement(Range(0, 4, 1), 1) == Success(Integer(1));
    assert SelectElement(Str("0123"), 0) == Success(Str("0"));
    assert RangeSlice(Range(0, 100, 1), Some(70), Some(30), Some(-1)) == Range(70, 30, -1);
  }
}
