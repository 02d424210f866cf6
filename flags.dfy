/**
 * The flags of a Yolk instruction (yolk/parser/flags.h): a flag has a
 * name and an argument type, and validates the optional value it was
 * given on the command line.
 */
module Flags {
  import opened Wrappers

  /** arg_type_t: `NoArg` is the source's `None`, a flag that takes no value. */
  datatype ArgType = NoArg | RefID | Num | Bool

  /** FlagValue: a number, which is either a reference `<n>` or a literal. */
  datatype FlagValue = FlagValue(value: int, isReference: bool)

  datatype Flag = Flag(name: string, argType: ArgType)

  /** Flag::validate: whether `value` is what a flag of this type accepts. */
  function Validate(flag: Flag, value: Option<FlagValue>): (r: bool)
    ensures value.None? ==> (r <==> flag.argType == NoArg)
    ensures flag.argType == NoArg ==> (r <==> value.None?)
    ensures flag.argType == RefID ==> (r <==> value.Some? && value.value.isReference)
    ensures (flag.argType == Num || flag.argType == Bool) ==> (r <==> value.Some? && !value.value.isReference)
  {
    if value.None? then flag.argType == NoArg
    else match flag.argType
      case NoArg => false
      case RefID => value.value.isReference
      case Num => !value.value.isReference
      case Bool => !value.value.isReference
  }

  /** A present value is accepted exactly when its kind matches: references for RefID, literals for Num and Bool. */
  lemma {:induction false} ValidateKind(flag: Flag, v: FlagValue)
    ensures Validate(flag, Some(v)) <==>
      (flag.argType != NoArg && v.isReference == (flag.argType == RefID))
  {
  }

  /** The table of flagsTest.cpp, for every type against a reference, a literal and no value. */
  lemma {:induction false} ValidateTable()
    ensures var ref, lit := Some(FlagValue(0, true)), Some(FlagValue(0, false));
      && Validate(Flag("foo", RefID), ref) && !Validate(Flag("foo", RefID), lit) && !Validate(Flag("foo", RefID), None)
      && !Validate(Flag("foo", Num), ref) && Validate(Flag("foo", Num), lit) && !Validate(Flag("foo", Num), None)
      && !Validate(Flag("foo", NoArg), ref) && !Validate(Flag("foo", NoArg), lit) && Validate(Flag("foo", NoArg), None)
      && !Validate(Flag("foo", Bool), ref) && Validate(Flag("foo", Bool), lit) && !Validate(Flag("foo", Bool), None)
  {
  }
}
