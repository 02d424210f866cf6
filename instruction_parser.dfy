/**
 * The flag collection of Yolk's instruction parser
 * (yolk/parser/instructionParser.h): `--name` opens a flag, the argument
 * after it (when it is not a flag itself) is its value, and the collected
 * flags must cover the required ones and be known and of the right type.
 */
module InstructionParser {
  import opened Wrappers
  import opened Flags

  type FlagMap = map<string, Option<FlagValue>>

  predicate IsFlagArg(arg: string)
  {
    |arg| >= 2 && arg[0] == '-' && arg[1] == '-'
  }

  /** The name a flag argument opens: the text after `--`. */
  function FlagName(arg: string): string
    requires IsFlagArg(arg)
  {
    arg[2..]
  }

  // ---------------------------------------------------------------------
  // std::stoi, base 10
  // ---------------------------------------------------------------------

  /** The characters `isspace` accepts in the C locale. */
  predicate IsSpace(c: char)
  {
    c == ' ' || '\t' <= c <= '\r'
  }

  predicate IsDigit(c: char)
  {
    '0' <= c <= '9'
  }

  /** The number of leading whitespace characters. */
  function SpacePrefix(s: string): (n: nat)
    ensures n <= |s|
    ensures forall k :: 0 <= k < n ==> IsSpace(s[k])
    ensures n < |s| ==> !IsSpace(s[n])
    decreases |s|
  {
    if s != [] && IsSpace(s[0]) then 1 + SpacePrefix(s[1..]) else 0
  }

  /** The number of leading decimal digits. */
  function DigitPrefix(s: string): (n: nat)
    ensures n <= |s|
    ensures forall k :: 0 <= k < n ==> IsDigit(s[k])
    ensures n < |s| ==> !IsDigit(s[n])
    decreases |s|
  {
    if s != [] && IsDigit(s[0]) then 1 + DigitPrefix(s[1..]) else 0
  }

  /** The value of a string of decimal digits, most significant first. */
  function DigitsValue(s: string): nat
    requires forall k :: 0 <= k < |s| ==> IsDigit(s[k])
    decreases |s|
  {
    if s == [] then 0 else DigitsValue(s[..|s| - 1]) * 10 + DigitValue(s[|s| - 1])
  }

  function DigitValue(c: char): nat
    requires IsDigit(c)
  {
    c as int - '0' as int
  }

  const INT_MIN: int := -0x8000_0000
  const INT_MAX: int := 0x7FFF_FFFF

  /**
   * std::stoi: leading whitespace, an optional sign, then the longest run
   * of digits; it throws (None) when there is no digit or the value does
   * not fit an `int`. What follows the digits is ignored.
   */
  function Stoi(s: string): (r: Option<int>)
    ensures r.Some? ==> INT_MIN <= r.value <= INT_MAX
  {
    var t := s[SpacePrefix(s)..];
    var negative := t != [] && t[0] == '-';
    var u := if t != [] && (t[0] == '-' || t[0] == '+') then t[1..] else t;
    var d := DigitPrefix(u);
    if d == 0 then None
    else
      var v: int := if negative then 0 - DigitsValue(u[..d]) else DigitsValue(u[..d]);
      if INT_MIN <= v <= INT_MAX then Some(v) else None
  }

  /** A plain digit string reads as its value. */
  lemma {:induction false} StoiDigits()
    ensures Stoi("7") == Some(7)
    ensures Stoi("13") == Some(13)
  {
    assert SpacePrefix("7") == 0;
    assert DigitPrefix("7") == 1;
    assert DigitPrefix("3") == 1;
    assert DigitPrefix("13") == 2;
    assert "13"[..2] == "13";
    assert DigitsValue("13") == DigitsValue("1") * 10 + 3;
  }

  /** A sign is read, trailing text is ignored, and no digit at all throws. */
  lemma {:induction false} StoiSignAndRest()
    ensures Stoi("-12x") == Some(-12)
    ensures Stoi("x") == None
    ensures Stoi("") == None
  {
    assert SpacePrefix("-12x") == 0;
    assert "-12x"[1..] == "12x";
    assert DigitPrefix("12x") == 2;
    assert "12x"[..2] == "12";
    assert DigitsValue("12") == DigitsValue("1") * 10 + 2;
  }

  // ---------------------------------------------------------------------
  // One value argument
  // ---------------------------------------------------------------------

  /** The value of a non-flag argument: `<n>` a reference, `true`/`false` the literals 1/0, anything else a literal through stoi. */
  function ParseValue(arg: string): (r: Option<FlagValue>)
    ensures |arg| >= 2 && arg[0] == '<' && arg[|arg| - 1] == '>' ==>
      r == (match Stoi(arg[1..|arg| - 1]) case Some(n) => Some(FlagValue(n, true)) case None => None)
    ensures arg == "true" ==> r == Some(FlagValue(1, false))
    ensures arg == "false" ==> r == Some(FlagValue(0, false))
    ensures r.Some? && !r.value.isReference && arg != "true" && arg != "false" ==> Stoi(arg) == Some(r.value.value)
    ensures r.Some? ==> INT_MIN <= r.value.value <= INT_MAX
  {
    if |arg| >= 2 && arg[0] == '<' && arg[|arg| - 1] == '>' then
      match Stoi(arg[1..|arg| - 1])
      case Some(n) => Some(FlagValue(n, true))
      case None => None
    else if arg == "true" then Some(FlagValue(1, false))
    else if arg == "false" then Some(FlagValue(0, false))
    else
      match Stoi(arg)
      case Some(n) => Some(FlagValue(n, false))
      case None => None
  }

  // ---------------------------------------------------------------------
  // collect_flags
  // ---------------------------------------------------------------------

  /** Publishing the pending flag without a value. */
  function Publish(pending: Option<string>, flags: FlagMap): FlagMap
  {
    if pending.Some? then flags[pending.value := None] else flags
  }

  /**
   * The loop of collect_flags from argument `i` on, with the flag still
   * waiting for its value (`flag_name` when `has_unpublished`) and the
   * flags collected so far; None where the source returns the empty
   * optional.
   */
  function Gather(args: seq<string>, i: nat, pending: Option<string>, flags: FlagMap): Option<FlagMap>
    requires i <= |args|
    decreases |args| - i
  {
    if i == |args| then Some(Publish(pending, flags))
    else if IsFlagArg(args[i]) then Gather(args, i + 1, Some(FlagName(args[i])), Publish(pending, flags))
    else if pending.None? then None
    else match ParseValue(args[i])
      case None => None
      case Some(v) => Gather(args, i + 1, None, flags[pending.value := Some(v)])
  }

  /** The first flag of `flags` with this name. */
  function FindFlag(flags: seq<Flag>, name: string): (r: Option<Flag>)
    ensures r.Some? ==> r.value in flags && r.value.name == name
    ensures r.None? <==> forall f :: f in flags ==> f.name != name
    decreases |flags|
  {
    if flags == [] then None
    else if flags[0].name == name then Some(flags[0])
    else FindFlag(flags[1..], name)
  }

  /** validate_flag: the first required flag of that name decides, then the first optional one; an unknown name fails. */
  predicate FlagValid(name: string, value: Option<FlagValue>, required: seq<Flag>, optional: seq<Flag>)
  {
    match FindFlag(required, name)
    case Some(f) => Validate(f, value)
    case None =>
      match FindFlag(optional, name)
      case Some(f) => Validate(f, value)
      case None => false
  }

  /** validate_flags: every required flag is present, and every present flag is known and valid. */
  predicate FlagsValid(flags: FlagMap, required: seq<Flag>, optional: seq<Flag>)
  {
    && (forall f :: f in required ==> f.name in flags)
    && (forall name :: name in flags ==> FlagValid(name, flags[name], required, optional))
  }

  /** collect_flags as a value. */
  function Collect(args: seq<string>, required: seq<Flag>, optional: seq<Flag>): Option<FlagMap>
  {
    match Gather(args, 0, None, map[])
    case None => None
    case Some(flags) => if FlagsValid(flags, required, optional) then Some(flags) else None
  }

  /** validate_flag: a loop over the required flags, then over the optional ones. */
  method ValidateFlag(name: string, value: Option<FlagValue>, required: seq<Flag>, optional: seq<Flag>) returns (r: bool)
    ensures r == FlagValid(name, value, required, optional)
  {
    for i := 0 to |required|
      invariant FindFlag(required, name) == FindFlag(required[i..], name)
    {
      if name == required[i].name {
        return Validate(required[i], value);
      }
      assert required[i..][1..] == required[i + 1..];
    }
    for i := 0 to |optional|
      invariant FindFlag(optional, name) == FindFlag(optional[i..], name)
    {
      if name == optional[i].name {
        return Validate(optional[i], value);
      }
      assert optional[i..][1..] == optional[i + 1..];
    }
    return false;
  }

  /** validate_flags: checks the required names, then every collected flag. */
  method ValidateFlags(flags: FlagMap, required: seq<Flag>, optional: seq<Flag>) returns (r: bool)
    ensures r == FlagsValid(flags, required, optional)
  {
    var hasAllRequired := true;
    for i := 0 to |required|
      invariant hasAllRequired <==> forall j :: 0 <= j < i ==> required[j].name in flags
    {
      if required[i].name !in flags {
        hasAllRequired := false;
      }
    }
    var allAreValid := true;
    var rest := flags.Keys;
    while rest != {}
      invariant rest <= flags.Keys
      invariant allAreValid <==> forall name :: name in flags.Keys - rest ==> FlagValid(name, flags[name], required, optional)
      decreases rest
    {
      var name :| name in rest;
      var ok := ValidateFlag(name, flags[name], required, optional);
      allAreValid := allAreValid && ok;
      rest := rest - {name};
    }
    assert hasAllRequired <==> forall f :: f in required ==> f.name in flags by {
      if hasAllRequired {
        forall f | f in required ensures f.name in flags {
          var j :| 0 <= j < |required| && required[j] == f;
        }
      }
    }
    r := hasAllRequired && allAreValid;
  }

  /** collect_flags: one pass over the arguments, then validate_flags. */
  method CollectFlags(args: seq<string>, required: seq<Flag>, optional: seq<Flag>) returns (r: Option<FlagMap>)
    ensures r == Collect(args, required, optional)
  {
    var flags: FlagMap := map[];
    var flagName := "";
    var hasUnpublished := false;
    for i := 0 to |args|
      invariant Gather(args, i, if hasUnpublished then Some(flagName) else None, flags) == Gather(args, 0, None, map[])
    {
      var arg := args[i];
      if |arg| >= 2 && arg[0] == '-' && arg[1] == '-' {
        if hasUnpublished {
          flags := flags[flagName := None];
        }
        hasUnpublished := true;
        flagName := arg[2..];
      } else if hasUnpublished {
        var val := ParseValue(arg);
        if val.None? {
          return None;
        }
        flags := flags[flagName := val];
        hasUnpublished := false;
      } else {
        return None;
      }
    }
    if hasUnpublished {
      flags := flags[flagName := None];
    }
    var ok := ValidateFlags(flags, required, optional);
    if !ok {
      return None;
    }
    return Some(flags);
  }

  // ---------------------------------------------------------------------
  // What the collected map holds
  // ---------------------------------------------------------------------

  /** The argument at `k` is a proper value: it follows a flag (or the pending one, at `i`) and parses. */
  predicate ProperValue(args: seq<string>, i: nat, pending: Option<string>, k: nat)
    requires i <= k < |args|
  {
    && ((k == i && pending.Some?) || (k > i && IsFlagArg(args[k - 1])))
    && ParseValue(args[k]).Some?
  }

  /** The argument list from `i` on has no stray value: every value follows a flag (or the pending one) and parses. */
  ghost predicate WellFormedFrom(args: seq<string>, i: nat, pending: Option<string>)
  {
    forall k :: i <= k < |args| && !IsFlagArg(args[k]) ==> ProperValue(args, i, pending, k)
  }

  /** The loop fails exactly on a value that follows no flag or does not parse. */
  lemma {:induction false} GatherSucceeds(args: seq<string>, i: nat, pending: Option<string>, flags: FlagMap)
    requires i <= |args|
    ensures Gather(args, i, pending, flags).Some? <==> WellFormedFrom(args, i, pending)
    decreases |args| - i
  {
    if i < |args| {
      if IsFlagArg(args[i]) {
        GatherSucceeds(args, i + 1, Some(FlagName(args[i])), Publish(pending, flags));
      } else if pending.Some? && ParseValue(args[i]).Some? {
        GatherSucceeds(args, i + 1, None, flags[pending.value := ParseValue(args[i])]);
        if WellFormedFrom(args, i + 1, None) {
          forall k | i <= k < |args| && !IsFlagArg(args[k])
            ensures ProperValue(args, i, pending, k)
          {
            if k > i {
              assert ProperValue(args, i + 1, None, k);
            }
          }
        }
      } else {
        assert !IsFlagArg(args[i]) && !ProperValue(args, i, pending, i);
      }
    }
  }

  /** The names opened by the flag arguments from `i` on. */
  ghost function FlagNames(args: seq<string>, i: nat): set<string>
  {
    set k | i <= k < |args| && IsFlagArg(args[k]) :: FlagName(args[k])
  }

  function PendingNames(pending: Option<string>): set<string>
  {
    if pending.Some? then {pending.value} else {}
  }

  /** The collected names are exactly those opened by a flag: a flag without a value still appears. */
  lemma {:induction false} GatherKeys(args: seq<string>, i: nat, pending: Option<string>, flags: FlagMap, f: FlagMap)
    requires i <= |args| && Gather(args, i, pending, flags) == Some(f)
    ensures f.Keys == flags.Keys + PendingNames(pending) + FlagNames(args, i)
    decreases |args| - i
  {
    if i < |args| {
      if IsFlagArg(args[i]) {
        GatherKeys(args, i + 1, Some(FlagName(args[i])), Publish(pending, flags), f);
        assert FlagNames(args, i) == {FlagName(args[i])} + FlagNames(args, i + 1);
      } else {
        GatherKeys(args, i + 1, None, flags[pending.value := ParseValue(args[i])], f);
        assert FlagNames(args, i) == FlagNames(args, i + 1);
      }
    } else {
      assert FlagNames(args, i) == {};
    }
  }

  /** A name not opened again later keeps the value collected for it. */
  lemma {:induction false} GatherKeeps(args: seq<string>, i: nat, pending: Option<string>, flags: FlagMap, f: FlagMap, name: string)
    requires i <= |args| && Gather(args, i, pending, flags) == Some(f)
    requires name in flags && pending != Some(name)
    requires forall j :: i <= j < |args| && IsFlagArg(args[j]) ==> FlagName(args[j]) != name
    ensures name in f && f[name] == flags[name]
    decreases |args| - i
  {
    if i < |args| {
      if IsFlagArg(args[i]) {
        GatherKeeps(args, i + 1, Some(FlagName(args[i])), Publish(pending, flags), f, name);
      } else {
        GatherKeeps(args, i + 1, None, flags[pending.value := ParseValue(args[i])], f, name);
      }
    }
  }

  /** The value that follows the flag argument at `k`, if the next argument is not a flag. */
  function ValueAfter(args: seq<string>, k: nat): Option<FlagValue>
  {
    if k + 1 < |args| && !IsFlagArg(args[k + 1]) then ParseValue(args[k + 1]) else None
  }

  /** The last time a name is opened decides its value: the argument after it, or no value before a flag or the end. */
  lemma {:induction false} GatherLastValue(args: seq<string>, i: nat, pending: Option<string>, flags: FlagMap, f: FlagMap, k: nat)
    requires i <= k < |args| && IsFlagArg(args[k])
    requires Gather(args, i, pending, flags) == Some(f)
    requires forall j :: k < j < |args| && IsFlagArg(args[j]) ==> FlagName(args[j]) != FlagName(args[k])
    ensures FlagName(args[k]) in f && f[FlagName(args[k])] == ValueAfter(args, k)
    decreases k - i
  {
    var name := FlagName(args[k]);
    if i < k {
      if IsFlagArg(args[i]) {
        GatherLastValue(args, i + 1, Some(FlagName(args[i])), Publish(pending, flags), f, k);
      } else {
        GatherLastValue(args, i + 1, None, flags[pending.value := ParseValue(args[i])], f, k);
      }
    } else {
      var next := Publish(pending, flags);
      if k + 1 == |args| {
      } else if IsFlagArg(args[k + 1]) {
        GatherKeeps(args, k + 2, Some(FlagName(args[k + 1])), next[name := None], f, name);
      } else {
        GatherKeeps(args, k + 2, None, next[name := ParseValue(args[k + 1])], f, name);
      }
    }
  }

  /** A successful collection holds every required flag and only flags that some list knows. */
  lemma {:induction false} CollectSound(args: seq<string>, required: seq<Flag>, optional: seq<Flag>, f: FlagMap)
    requires Collect(args, required, optional) == Some(f)
    ensures WellFormedFrom(args, 0, None)
    ensures f.Keys == FlagNames(args, 0)
    ensures forall r :: r in required ==> r.name in FlagNames(args, 0)
    ensures forall name :: name in f ==> FindFlag(required, name).Some? || FindFlag(optional, name).Some?
  {
    GatherSucceeds(args, 0, None, map[]);
    GatherKeys(args, 0, None, map[], f);
  }

  /** The flag argument at `k` is the last one that opens its name. */
  predicate LastOpened(args: seq<string>, k: nat)
    requires k < |args| && IsFlagArg(args[k])
  {
    forall j :: k < j < |args| && IsFlagArg(args[j]) ==> FlagName(args[j]) != FlagName(args[k])
  }

  /** A name some flag argument before `i` opens, and none from `i` on, has a last opening. */
  lemma {:induction false} LastOpening(args: seq<string>, i: nat, name: string) returns (k: nat)
    requires i <= |args|
    requires exists k :: 0 <= k < i && IsFlagArg(args[k]) && FlagName(args[k]) == name
    requires forall j :: i <= j < |args| && IsFlagArg(args[j]) ==> FlagName(args[j]) != name
    ensures k < |args| && IsFlagArg(args[k]) && FlagName(args[k]) == name && LastOpened(args, k)
    decreases i
  {
    if IsFlagArg(args[i - 1]) && FlagName(args[i - 1]) == name {
      k := i - 1;
    } else {
      k := LastOpening(args, i - 1, name);
    }
  }

  /** Every flag argument that is the last to open its name is valid with the value after it. */
  predicate LastValuesValid(args: seq<string>, required: seq<Flag>, optional: seq<Flag>)
  {
    forall k :: 0 <= k < |args| && IsFlagArg(args[k]) && LastOpened(args, k) ==>
      FlagValid(FlagName(args[k]), ValueAfter(args, k), required, optional)
  }

  /** The flags gathered from well-formed arguments are valid when the last values are. */
  lemma {:induction false} GatheredValid(args: seq<string>, required: seq<Flag>, optional: seq<Flag>, f: FlagMap)
    requires Gather(args, 0, None, map[]) == Some(f)
    requires forall r :: r in required ==> r.name in FlagNames(args, 0)
    requires LastValuesValid(args, required, optional)
    ensures FlagsValid(f, required, optional)
  {
    GatherKeys(args, 0, None, map[], f);
    forall name | name in f
      ensures FlagValid(name, f[name], required, optional)
    {
      var k := LastOpening(args, |args|, name);
      GatherLastValue(args, 0, None, map[], f, k);
    }
  }

  /** Valid gathered flags make every last value valid. */
  lemma {:induction false} ValidGathered(args: seq<string>, required: seq<Flag>, optional: seq<Flag>, f: FlagMap)
    requires Gather(args, 0, None, map[]) == Some(f)
    requires FlagsValid(f, required, optional)
    ensures LastValuesValid(args, required, optional)
  {
    forall k | 0 <= k < |args| && IsFlagArg(args[k]) && LastOpened(args, k)
      ensures FlagValid(FlagName(args[k]), ValueAfter(args, k), required, optional)
    {
      GatherLastValue(args, 0, None, map[], f, k);
    }
  }

  /**
   * collect_flags succeeds exactly when every value follows a flag and
   * parses, every required flag is given, and the value each name ends with
   * (the argument after its last opening, or none) is valid for the first
   * flag of that name, required ones first.
   */
  lemma {:induction false} CollectSucceeds(args: seq<string>, required: seq<Flag>, optional: seq<Flag>)
    ensures Collect(args, required, optional).Some? <==>
      && WellFormedFrom(args, 0, None)
      && (forall r :: r in required ==> r.name in FlagNames(args, 0))
      && LastValuesValid(args, required, optional)
  {
    GatherSucceeds(args, 0, None, map[]);
    if WellFormedFrom(args, 0, None) {
      var f := Gather(args, 0, None, map[]).value;
      GatherKeys(args, 0, None, map[], f);
      if FlagsValid(f, required, optional) {
        ValidGathered(args, required, optional, f);
      } else if (forall r :: r in required ==> r.name in FlagNames(args, 0)) && LastValuesValid(args, required, optional) {
        GatheredValid(args, required, optional, f);
      }
    }
  }

  /** A value with no flag before it makes the collection fail. */
  lemma {:induction false} StrayValue(args: seq<string>, k: nat, required: seq<Flag>, optional: seq<Flag>)
    requires k < |args| && !IsFlagArg(args[k]) && (k == 0 || !IsFlagArg(args[k - 1]))
    ensures Collect(args, required, optional) == None
  {
    GatherSucceeds(args, 0, None, map[]);
  }
}
