/**
 * The arguments of Yolk instructions (yolk/instruction/instructionArgs.cpp):
 * each reads itself big-endian from a byte buffer, writes itself back in
 * network byte order and displays itself as pseudo-Yolk text. Name and
 * string arguments are 32-bit unsigned reference ids, numbers are 64-bit
 * two's complement integers and Booleans one byte.
 */
module InstructionArgs {
  import opened Wrappers
  import InstructionParser

  newtype uint8 = x: int | 0 <= x < 0x100
  newtype uint32 = x: int | 0 <= x < 0x1_0000_0000
  newtype int64 = x: int | -0x8000_0000_0000_0000 <= x < 0x8000_0000_0000_0000

  /** std::out_of_range, thrown by `vector::at`. */
  datatype ArgError = OutOfRange

  // ---------------------------------------------------------------------
  // Big-endian two's complement
  // ---------------------------------------------------------------------

  function Pow256(n: nat): (p: nat)
    ensures p >= 1
  {
    if n == 0 then 1 else 256 * Pow256(n - 1)
  }

  /** The bytes as one unsigned number, the first byte most significant. */
  function BigEndian(bytes: seq<uint8>): (v: nat)
    ensures v < Pow256(|bytes|)
    decreases |bytes|
  {
    if bytes == [] then 0 else BigEndian(bytes[..|bytes| - 1]) * 256 + bytes[|bytes| - 1] as nat
  }

  /** Half the range of a `width`-byte integer: the bound of the signed type. */
  function Half(width: nat): int
  {
    Pow256(width) / 2
  }

  /** An integer reduced into a C++ integer type of `width` bytes; signed types use two's complement. */
  function Wrap(v: int, width: nat, signed: bool): (w: int)
    ensures signed && width >= 1 ==> -Half(width) <= w < Half(width)
    ensures !signed ==> 0 <= w < Pow256(width)
  {
    var u := v % Pow256(width);
    if signed && u >= Half(width) then u - Pow256(width) else u
  }

  /** The value a buffer slice holds for an integer type as wide as the slice. */
  function Decode(bytes: seq<uint8>, signed: bool): int
  {
    Wrap(BigEndian(bytes), |bytes|, signed)
  }

  /** The `width` bytes of `v` in network byte order, as htonl / htonll and memcpy lay them out. */
  function Encode(v: int, width: nat): (bytes: seq<uint8>)
    ensures |bytes| == width
    decreases width
  {
    if width == 0 then [] else Encode(v / 256, width - 1) + [(v % 256) as uint8]
  }

  lemma {:induction false} MulAtLeast(m: int, k: int)
    requires m > 0 && k >= 1
    ensures m * k >= m
  {
    if k > 1 {
      MulAtLeast(m, k - 1);
      assert m * k == m * (k - 1) + m;
    }
  }

  /** Euclidean division has one quotient and one remainder. */
  lemma {:induction false} DivModUnique(v: int, m: int, a: int, b: int)
    requires m > 0 && v == m * a + b && 0 <= b < m
    ensures v % m == b && v / m == a
  {
    var q, r := v / m, v % m;
    assert m * (a - q) == r - b;
    if a > q {
      MulAtLeast(m, a - q);
    } else if a < q {
      MulAtLeast(m, q - a);
    }
  }

  /** Adding a multiple of the modulus does not change the remainder. */
  lemma {:induction false} ModShift(y: int, c: int, m: int)
    requires m > 0
    ensures (y + c * m) % m == y % m
  {
    DivModUnique(y + c * m, m, y / m + c, y % m);
  }

  /** A wrapped value differs from the original by a multiple of the modulus. */
  lemma {:induction false} WrapCongruent(v: int, width: nat, signed: bool) returns (k: int)
    ensures Wrap(v, width, signed) == v + k * Pow256(width)
  {
    var m := Pow256(width);
    var u := v % m;
    if signed && u >= m / 2 {
      k := -(v / m) - 1;
    } else {
      k := -(v / m);
    }
  }

  /** One step of the read loop: wrapping every step is wrapping once at the end. */
  lemma {:induction false} WrapStep(x: int, b: uint8, width: nat, signed: bool)
    ensures Wrap(Wrap(x, width, signed) * 256 + b as int, width, signed) == Wrap(x * 256 + b as int, width, signed)
  {
    var m := Pow256(width);
    var k := WrapCongruent(x, width, signed);
    assert Wrap(x, width, signed) * 256 + b as int == (x * 256 + b as int) + (k * 256) * m;
    ModShift(x * 256 + b as int, k * 256, m);
  }

  /** The remainder modulo 256 * p splits into the low byte and the remainder of the rest modulo p. */
  lemma {:induction false} ModNest(v: int, p: int)
    requires p > 0
    ensures ((v / 256) % p) * 256 + v % 256 == v % (256 * p)
  {
    var q, r := v / 256, v % 256;
    var a, b := q / p, q % p;
    assert q == p * a + b;
    assert v == 256 * q + r;
    assert 256 * q == (256 * p) * a + 256 * b;
    assert 256 * b + r < 256 * p by {
      MulAtLeast(256, p - b);
      assert 256 * (p - b) == 256 * p - 256 * b;
    }
    DivModUnique(v, 256 * p, a, 256 * b + r);
  }

  /** Encoding keeps the value modulo 256^width. */
  lemma {:induction false} BigEndianEncode(v: int, width: nat)
    ensures BigEndian(Encode(v, width)) == v % Pow256(width)
    decreases width
  {
    if width == 0 {
      DivModUnique(v, 1, v, 0);
    } else {
      var e := Encode(v, width);
      BigEndianEncode(v / 256, width - 1);
      assert e[..|e| - 1] == Encode(v / 256, width - 1);
      ModNest(v, Pow256(width - 1));
    }
  }

  /** The signed bound is half of the whole range. */
  lemma {:induction false} HalfTwice(width: nat)
    requires width >= 1
    ensures Pow256(width) == 2 * Half(width)
  {
    var x := Pow256(width - 1);
    DivModUnique(256 * x, 2, 128 * x, 0);
  }

  /** Big-endian decoding reverses the encoding for every value the integer type holds. */
  lemma {:induction false} DecodeEncode(v: int, width: nat, signed: bool)
    requires width >= 1
    requires signed ==> -Half(width) <= v < Half(width)
    requires !signed ==> 0 <= v < Pow256(width)
    ensures Decode(Encode(v, width), signed) == v
  {
    var m := Pow256(width);
    var u := BigEndian(Encode(v, width));
    BigEndianEncode(v, width);
    HalfTwice(width);
    if v < 0 {
      DivModUnique(v, m, -1, v + m);
      assert u == v + m;
    } else {
      DivModUnique(v, m, 0, v);
      assert u == v;
    }
    DivModUnique(u, m, 0, u);
    assert Decode(Encode(v, width), signed) == Wrap(u, width, signed);
  }

  /** Encoding the decoded value gives the same bytes back. */
  lemma {:induction false} EncodeBigEndian(bytes: seq<uint8>)
    ensures Encode(BigEndian(bytes), |bytes|) == bytes
    decreases |bytes|
  {
    if bytes != [] {
      var init := bytes[..|bytes| - 1];
      var v := BigEndian(bytes);
      EncodeBigEndian(init);
      DivModUnique(v, 256, BigEndian(init), bytes[|bytes| - 1] as int);
      assert bytes == init + [bytes[|bytes| - 1]];
    }
  }

  /** Two slices that decode to the same value are the same bytes. */
  lemma {:induction false} DecodeInjective(a: seq<uint8>, b: seq<uint8>, signed: bool)
    requires |a| == |b| && Decode(a, signed) == Decode(b, signed)
    ensures a == b
  {
    var m := Pow256(|a|);
    DivModUnique(BigEndian(a), m, 0, BigEndian(a));
    DivModUnique(BigEndian(b), m, 0, BigEndian(b));
    EncodeBigEndian(a);
    EncodeBigEndian(b);
  }

  /** One iteration of read_from_generic extends the decoded prefix by one byte. */
  lemma {:induction false} ReadStep(buffer: seq<uint8>, pos: nat, i: nat, width: nat, signed: bool, val: int)
    requires pos + i < |buffer|
    requires i == 0 ==> val == 0
    requires i > 0 ==> val == Wrap(BigEndian(buffer[pos..pos + i]), width, signed)
    ensures Wrap(val * 256 + buffer[pos + i] as int, width, signed) == Wrap(BigEndian(buffer[pos..pos + i + 1]), width, signed)
  {
    var prefix := buffer[pos..pos + i];
    assert buffer[pos..pos + i + 1][..i] == prefix;
    if i == 0 {
      assert val * 256 + buffer[pos + i] as int == BigEndian(buffer[pos..pos + i + 1]);
    } else {
      WrapStep(BigEndian(prefix), buffer[pos + i], width, signed);
    }
  }

  /**
   * read_from_generic: shifts the accumulator left by a byte and adds the
   * next byte, `width` times, in the integer type's own arithmetic; an
   * index past the buffer throws.
   */
  method ReadFromGeneric(buffer: seq<uint8>, pos: uint8, width: nat, signed: bool) returns (r: Result<int, ArgError>)
    requires width >= 1
    ensures pos as int + width <= |buffer| ==> r == Success(Decode(buffer[pos..pos as int + width], signed))
    ensures pos as int + width > |buffer| ==> r == Failure(OutOfRange)
  {
    var val := 0;
    for i := 0 to width
      invariant i == 0 ==> val == 0
      invariant i > 0 ==> pos as int + i <= |buffer| && val == Wrap(BigEndian(buffer[pos..pos as int + i]), width, signed)
    {
      if pos as int + i >= |buffer| {
        return Failure(OutOfRange);
      }
      ReadStep(buffer, pos as nat, i, width, signed, val);
      val := Wrap(val * 256 + buffer[pos as int + i] as int, width, signed);
    }
    return Success(val);
  }

  /** memcpy of `bytes` into the buffer at `pos`. */
  method CopyAt(buffer: array<uint8>, pos: nat, bytes: seq<uint8>)
    requires pos + |bytes| <= buffer.Length
    modifies buffer
    ensures buffer[..] == old(buffer[..pos]) + bytes + old(buffer[pos + |bytes|..])
  {
    for i := 0 to |bytes|
      invariant buffer[..] == old(buffer[..pos]) + bytes[..i] + old(buffer[pos + i..])
    {
      buffer[pos + i] := bytes[i];
      assert bytes[..i + 1] == bytes[..i] + [bytes[i]];
    }
    assert bytes[..|bytes|] == bytes;
  }

  // ---------------------------------------------------------------------
  // Decimal text for display
  // ---------------------------------------------------------------------

  function DigitChar(d: nat): char
    requires d < 10
  {
    (d + '0' as int) as char
  }

  /** std::format of an unsigned value: its decimal digits. */
  function Decimal(n: nat): (s: string)
    ensures |s| >= 1
    ensures forall k :: 0 <= k < |s| ==> InstructionParser.IsDigit(s[k])
    decreases n
  {
    if n < 10 then [DigitChar(n)] else Decimal(n / 10) + [DigitChar(n % 10)]
  }

  /** std::format of a signed value: a minus sign before the digits of a negative one. */
  function SignedDecimal(v: int): string
  {
    if v < 0 then "-" + Decimal(-v) else Decimal(v)
  }

  /** The displayed digits read back as the value. */
  lemma {:induction false} DecimalValue(n: nat)
    ensures InstructionParser.DigitsValue(Decimal(n)) == n
    decreases n
  {
    var s := Decimal(n);
    if n >= 10 {
      DecimalValue(n / 10);
      assert s[..|s| - 1] == Decimal(n / 10);
    }
  }

  // ---------------------------------------------------------------------
  // The arguments
  // ---------------------------------------------------------------------

  /** NameArgument and StringArgument: both hold a reference id and differ only in their class. */
  datatype RefKind = NameArg | StringArg

  /** Everything displayed for a reference id. */
  function RefText(refId: uint32): string
  {
    "<" + Decimal(refId as nat) + ">"
  }

  /** A displayed reference is the id's decimal digits in angle brackets, and those digits read back as the id. */
  lemma {:induction false} RefTextShape(refId: uint32)
    ensures var s := RefText(refId);
      && |s| >= 3 && s[0] == '<' && s[|s| - 1] == '>'
      && (forall k :: 1 <= k < |s| - 1 ==> InstructionParser.IsDigit(s[k]))
      && InstructionParser.DigitsValue(s[1..|s| - 1]) == refId as int
  {
    var s := RefText(refId);
    assert s[1..|s| - 1] == Decimal(refId as nat);
    DecimalValue(refId as nat);
  }

  /** A displayed number is its digits, after a minus sign exactly when it is negative. */
  lemma {:induction false} SignedDecimalShape(v: int)
    ensures var s := SignedDecimal(v);
      && |s| >= 1 && (v < 0 <==> s[0] == '-')
      && (forall k :: (if v < 0 then 1 else 0) <= k < |s| ==> InstructionParser.IsDigit(s[k]))
      && (v < 0 ==> |s| >= 2 && InstructionParser.DigitsValue(s[1..]) == -v)
      && (v >= 0 ==> InstructionParser.DigitsValue(s) == v)
  {
    var s := SignedDecimal(v);
    if v < 0 {
      assert s[1..] == Decimal(-v);
      DecimalValue(-v);
    } else {
      DecimalValue(v);
      assert InstructionParser.IsDigit(s[0]);
    }
  }

  /** display of a Boolean: "false" exactly for zero. */
  function BoolText(val: uint8): (s: string)
    ensures s == "false" <==> val == 0
    ensures s == "true" <==> val != 0
  {
    if val == 0 then "false" else "true"
  }

  class ReferenceArgument {
    const kind: RefKind
    var refId: uint32

    static const WIDTH: nat := 4

    constructor(kind: RefKind, refId: uint32)
      ensures this.kind == kind && this.refId == refId
    {
      this.kind := kind;
      this.refId := refId;
    }

    /** read_from: the four bytes at `pos`, big-endian; the id is kept when the buffer ends too early. */
    method ReadFrom(buffer: seq<uint8>, pos: uint8) returns (r: Result<(), ArgError>)
      modifies this
      ensures pos as int + WIDTH <= |buffer| ==> r.Success? && refId as int == Decode(buffer[pos..pos as int + WIDTH], false)
      ensures pos as int + WIDTH > |buffer| ==> r == Failure(OutOfRange) && refId == old(refId)
    {
      var v := ReadFromGeneric(buffer, pos, WIDTH, false);
      if v.Failure? {
        return Failure(OutOfRange);
      }
      refId := v.value as uint32;
      return Success(());
    }

    /** write_to: the id in network byte order over the four bytes at `pos`; nothing else changes. */
    method WriteTo(buffer: array<uint8>, pos: uint8)
      requires pos as int + WIDTH <= buffer.Length
      modifies buffer
      ensures buffer[..] == old(buffer[..pos]) + Encode(refId as int, WIDTH) + old(buffer[pos as int + WIDTH..])
      ensures Decode(buffer[pos..pos as int + WIDTH], false) == refId as int
    {
      var bytes := Encode(refId as int, WIDTH);
      CopyAt(buffer, pos as nat, bytes);
      assert buffer[pos..pos as int + WIDTH] == bytes;
      DecodeEncode(refId as int, WIDTH, false);
    }

    /** display: the id's decimal digits in angle brackets, as the flag parser's `<n>` reads them. */
    function Display(): (s: string)
      reads this
      ensures |s| >= 3 && s[0] == '<' && s[|s| - 1] == '>'
      ensures forall k :: 1 <= k < |s| - 1 ==> InstructionParser.IsDigit(s[k])
      ensures InstructionParser.DigitsValue(s[1..|s| - 1]) == refId as int
    {
      RefTextShape(refId);
      RefText(refId)
    }
  }

  class NumberArgument {
    var val: int64

    static const WIDTH: nat := 8

    constructor(val: int64)
      ensures this.val == val
    {
      this.val := val;
    }

    /** read_from: the eight bytes at `pos` as a big-endian two's complement number. */
    method ReadFrom(buffer: seq<uint8>, pos: uint8) returns (r: Result<(), ArgError>)
      modifies this
      ensures pos as int + WIDTH <= |buffer| ==> r.Success? && val as int == Decode(buffer[pos..pos as int + WIDTH], true)
      ensures pos as int + WIDTH > |buffer| ==> r == Failure(OutOfRange) && val == old(val)
    {
      var v := ReadFromGeneric(buffer, pos, WIDTH, true);
      if v.Failure? {
        return Failure(OutOfRange);
      }
      val := v.value as int64;
      return Success(());
    }

    /** write_to: the number in network byte order over the eight bytes at `pos`; nothing else changes. */
    method WriteTo(buffer: array<uint8>, pos: uint8)
      requires pos as int + WIDTH <= buffer.Length
      modifies buffer
      ensures buffer[..] == old(buffer[..pos]) + Encode(val as int, WIDTH) + old(buffer[pos as int + WIDTH..])
      ensures Decode(buffer[pos..pos as int + WIDTH], true) == val as int
    {
      var bytes := Encode(val as int, WIDTH);
      CopyAt(buffer, pos as nat, bytes);
      assert buffer[pos..pos as int + WIDTH] == bytes;
      DecodeEncode(val as int, WIDTH, true);
    }

    /** display: the number in decimal, after a minus sign exactly when it is negative. */
    function Display(): (s: string)
      reads this
      ensures |s| >= 1 && (val < 0 <==> s[0] == '-')
      ensures val < 0 ==> |s| >= 2 && forall k :: 1 <= k < |s| ==> InstructionParser.IsDigit(s[k])
      ensures val < 0 ==> |s| >= 2 && InstructionParser.DigitsValue(s[1..]) == -(val as int)
      ensures val >= 0 ==> forall k :: 0 <= k < |s| ==> InstructionParser.IsDigit(s[k])
      ensures val >= 0 ==> InstructionParser.DigitsValue(s) == val as int
    {
      SignedDecimalShape(val as int);
      SignedDecimal(val as int)
    }
  }

  class BooleanArgument {
    var val: uint8

    constructor(val: uint8)
      ensures this.val == val
    {
      this.val := val;
    }

    /** read_from: exactly the byte at `pos`. */
    method ReadFrom(buffer: seq<uint8>, pos: uint8) returns (r: Result<(), ArgError>)
      modifies this
      ensures pos as int < |buffer| ==> r.Success? && val == buffer[pos]
      ensures pos as int >= |buffer| ==> r == Failure(OutOfRange) && val == old(val)
    {
      if pos as int >= |buffer| {
        return Failure(OutOfRange);
      }
      val := buffer[pos];
      return Success(());
    }

    /** write_to: exactly the byte at `pos`. */
    method WriteTo(buffer: array<uint8>, pos: uint8) returns (r: Result<(), ArgError>)
      modifies buffer
      ensures pos as int < buffer.Length ==> r.Success? && buffer[..] == old(buffer[..])[pos as int := val]
      ensures pos as int >= buffer.Length ==> r == Failure(OutOfRange) && buffer[..] == old(buffer[..])
    {
      if pos as int >= buffer.Length {
        return Failure(OutOfRange);
      }
      buffer[pos] := val;
      return Success(());
    }

    /** display: "false" for zero and "true" otherwise. */
    function Display(): (s: string)
      reads this
      ensures s == BoolText(val)
    {
      if val == 0 then "false" else "true"
    }
  }

  // ---------------------------------------------------------------------
  // The buffers of instructionsTest.cpp
  // ---------------------------------------------------------------------

  /** PushNameInstructionTest: the bytes 9, 17, 27, 37 hold the reference id 152116005. */
  lemma {:induction false} PushNameBytes()
    ensures Decode([9, 17, 27, 37], false) == 152116005
    ensures Encode(152116005, 4) == [9, 17, 27, 37]
  {
    var s4: seq<uint8> := [9, 17, 27, 37];
    var s3: seq<uint8> := [9, 17, 27];
    var s2: seq<uint8> := [9, 17];
    var s1: seq<uint8> := [9];
    assert s4[..3] == s3 && s3[..2] == s2 && s2[..1] == s1 && s1[..0] == [];
  }

  /** PushNumInstructionTest and its negative twin: 231997105576741 and its negation in eight bytes. */
  lemma {:induction false} PushNumBytes()
    ensures Encode(231997105576741, 8) == [0, 0, 211, 0, 9, 17, 27, 37]
    ensures Encode(-231997105576741, 8) == [255, 255, 44, 255, 246, 238, 228, 219]
  {
    assert Encode(0, 2) == [0, 0];
    assert Encode(211, 3) == [0, 0, 211];
    assert Encode(54016, 4) == [0, 0, 211, 0];
    assert Encode(13828105, 5) == [0, 0, 211, 0, 9];
    assert Encode(3539994897, 6) == [0, 0, 211, 0, 9, 17];
    assert Encode(906238693659, 7) == [0, 0, 211, 0, 9, 17, 27];
    assert Encode(-1, 2) == [255, 255];
    assert Encode(-212, 3) == [255, 255, 44];
    assert Encode(-54017, 4) == [255, 255, 44, 255];
    assert Encode(-13828106, 5) == [255, 255, 44, 255, 246];
    assert Encode(-3539994898, 6) == [255, 255, 44, 255, 246, 238];
    assert Encode(-906238693660, 7) == [255, 255, 44, 255, 246, 238, 228];
  }
}
