/**
 * The lowering pass of the Python front end (src/frontend/lowering.py): a
 * bottom-up rewrite of the parse tree that desugars compound assignment,
 * `loop`, the `...field` shorthand, unit literals and the implicit lambda
 * parameter `_`, and lets an implicit lambda swallow the smallest enclosing
 * expression that is not a program, a pipeline stage or a curry.
 */
module Lowering {
  import opened Wrappers
  import LexerConstants
  import InstructionParser
  import InstructionArgs

  /** A node of a lark tree: an inner node, a lexer token, or a value a rewrite rule put there. */
  datatype Node =
    | Tree(tag: string, children: seq<Node>)
    | Token(kind: string, text: string)
    | Text(s: string)
    | Int(value: int)
    | Float(text: string)
    | Bool(b: bool)

  /** The exceptions a rewrite rule can raise, each with what it was looking at. */
  datatype Error =
    | Unpacking(tag: string, count: nat)
    | NotText(tag: string)
    | SplitCount(literal: string)
    | UnknownUnit(unit: string)
    | NotAnInteger(value: string)
    | PoisonWithoutBody(tag: string)

  const IMPLICIT_LAMBDA := "@@implicit_lambda@@"
  const SHORTHAND_SELECT := "@@shorthand_select@@"
  const POISON_TAG := "poisonous_lambda_func"

  /** Token('NAME', '@@implicit_lambda@@'). */
  const PARAM := Token("NAME", IMPLICIT_LAMBDA)

  /** What `_` lowers to: the identity lambda over the implicit parameter, marked poisoned. */
  const POISON := Tree(POISON_TAG, [PARAM, Tree("identifier", [PARAM])])

  /** A poisoned lambda whose body is `body`. */
  function Wrap(body: Node): Node
  {
    Tree(POISON_TAG, [PARAM, body])
  }

  predicate IsPoisoned(n: Node)
  {
    n.Tree? && n.tag == POISON_TAG
  }

  // ---------------------------------------------------------------------
  // Which rule a tag selects
  // ---------------------------------------------------------------------

  /** The transformer method a tag selects; every other tag goes to `__default__`. */
  datatype Rule =
    | ExecRule
    | UnitRule(isFloat: bool)
    | AssignRule(op: string)
    | SequenceAssignRule(combinator: string)
    | LoopRule
    | ShorthandRule
    | ImplicitRule
    | DefaultRule

  /** The rule of each tag; `x OP= y` tags carry the operator they reassign through. */
  function RuleFor(tag: string): Rule
  {
    match tag
    case "exec" => ExecRule
    case "unit_integer_literal" => UnitRule(false)
    case "unit_float_literal" => UnitRule(true)
    case "plus_assign" => AssignRule("addition")
    case "minus_assign" => AssignRule("subtraction")
    case "times_assign" => AssignRule("multiply")
    case "divide_assign" => AssignRule("divide")
    case "int_div_assign" => AssignRule("int_divide")
    case "mod_assign" => AssignRule("modulus")
    case "power_assign" => AssignRule("raise_power")
    case "pipe_assign" => AssignRule("pipeline")
    case "concat_assign" => AssignRule("concatenate")
    case "seq_and_assign" => SequenceAssignRule("and_sequence")
    case "seq_or_assign" => SequenceAssignRule("or_sequence")
    case "always_loop" => LoopRule
    case "selection_lambda_shorthand" => ShorthandRule
    case "implicit_lambda_param" => ImplicitRule
    case _ => DefaultRule
  }

  // ---------------------------------------------------------------------
  // The rewrite rules
  // ---------------------------------------------------------------------

  /** `str(item)` of an exec argument: a token or string gives its text, an integer its decimal digits. */
  function Stringify(n: Node): (r: Node)
    ensures n.Token? ==> r == Text(n.text)
    ensures !n.Token? && !n.Int? ==> r == n
  {
    match n
    case Token(_, text) => Text(text)
    case Int(v) => Text(InstructionArgs.SignedDecimal(v))
    case _ => n
  }

  /** exec: every argument stringified, in order. */
  function Exec(items: seq<Node>): (r: Node)
    ensures r.Tree? && r.tag == "exec" && |r.children| == |items|
    ensures forall i :: 0 <= i < |items| ==> r.children[i] == Stringify(items[i])
  {
    Tree("exec", seq(|items|, i requires 0 <= i < |items| => Stringify(items[i])))
  }

  /** The text of a token or a string, on which `split` can be called. */
  function TextOf(n: Node): Option<string>
  {
    match n
    case Token(_, text) => Some(text)
    case Text(s) => Some(s)
    case _ => None
  }

  /** `s.split(':')` unpacked into two: the parts before and after the only colon. */
  function SplitColon(s: string): (r: Option<(string, string)>)
    ensures r.Some? ==> s == r.value.0 + ":" + r.value.1 && ':' !in r.value.0 && ':' !in r.value.1
    ensures r.None? ==> forall v, u :: s == v + ":" + u ==> ':' in v || ':' in u
    decreases |s|
  {
    if s == [] then None
    else if s[0] == ':' then (if ':' in s[1..] then None else Some(([], s[1..])))
    else match SplitColon(s[1..])
      case None =>
        assert forall v, u :: s == v + ":" + u ==> ':' in v || ':' in u by {
          forall v, u | s == v + ":" + u
            ensures ':' in v || ':' in u
          {
            if v != [] {
              assert s[1..] == v[1..] + ":" + u;
              if ':' in v[1..] {
                var k :| 0 <= k < |v[1..]| && v[1..][k] == ':';
                assert v[k + 1] == ':';
              }
            }
          }
        }
        None
      case Some((v, u)) => Some(([s[0]] + v, u))
  }

  /** `int(value)` on the digits the lexer emits. */
  function ParseInt(value: string): (r: Option<nat>)
    ensures r.Some? <==> value != [] && forall k :: 0 <= k < |value| ==> InstructionParser.IsDigit(value[k])
  {
    if value != [] && forall k :: 0 <= k < |value| ==> InstructionParser.IsDigit(value[k])
    then Some(InstructionParser.DigitsValue(value))
    else None
  }

  /** unit_integer_literal and unit_float_literal: 'v:u' becomes unit_literal(unit_type(kind), unit(u), v). */
  function UnitLiteral(tag: string, isFloat: bool, items: seq<Node>): Result<Node, Error>
  {
    if |items| != 1 then Failure(Unpacking(tag, |items|))
    else match TextOf(items[0])
      case None => Failure(NotText(tag))
      case Some(literal) =>
        match SplitColon(literal)
        case None => Failure(SplitCount(literal))
        case Some((value, unit)) =>
          if LexerConstants.UnitKind(unit).None? then Failure(UnknownUnit(unit))
          else if isFloat then Success(UnitNode(unit, Float(value)))
          else match ParseInt(value)
            case None => Failure(NotAnInteger(value))
            case Some(v) => Success(UnitNode(unit, Int(v)))
  }

  function UnitNode(unit: string, value: Node): Node
    requires LexerConstants.UnitKind(unit).Some?
  {
    Tree("unit_literal", [Tree("unit_type", [Text(LexerConstants.UnitKind(unit).value)]), Tree("unit", [Text(unit)]), value])
  }

  /** lower_assignment_operator: `a OP= b` becomes reassign(a, OP(a, b)). */
  function CompoundAssign(tag: string, op: string, items: seq<Node>): Result<Node, Error>
  {
    if |items| != 2 then Failure(Unpacking(tag, |items|))
    else Success(Tree("reassign", [items[0], Tree(op, [items[0], items[1]])]))
  }

  /** seq_and_assign and seq_or_assign: reassign(a, logical_sequence(combinator(a, b))). */
  function SequenceAssign(tag: string, combinator: string, items: seq<Node>): Result<Node, Error>
  {
    if |items| != 2 then Failure(Unpacking(tag, |items|))
    else Success(Tree("reassign", [items[0], Tree("logical_sequence", [Tree(combinator, [items[0], items[1]])])]))
  }

  /** selection_lambda_shorthand: `...f` becomes a lambda selecting field f of its parameter. */
  function Shorthand(tag: string, items: seq<Node>): Result<Node, Error>
  {
    if |items| != 1 then Failure(Unpacking(tag, |items|))
    else Success(Tree("lambda_func", [Text(SHORTHAND_SELECT), Tree("select_field", [Tree("identifier", [Text(SHORTHAND_SELECT)]), items[0]])]))
  }

  // ---------------------------------------------------------------------
  // Implicit-lambda poisoning
  // ---------------------------------------------------------------------

  /** The part of a tag before its first underscore, as `split('_')` gives it first. */
  function Stem(s: string): (r: string)
    ensures '_' !in r && (r == s || (|r| < |s| && s[|r|] == '_'))
    ensures r <= s
    decreases |s|
  {
    if s == [] || s[0] == '_' then [] else [s[0]] + Stem(s[1..])
  }

  /** _allows_lambda_poisoning: every tag but start, pipeline and curry, also as the stem of a `__`-prefixed tag. */
  predicate AllowsPoisoning(tag: string)
  {
    var data := if |tag| >= 2 && tag[..2] == "__" then Stem(tag[2..]) else tag;
    data != "start" && data != "pipeline" && data != "curry"
  }

  /** One child as the loop leaves it: a poisoned lambda is replaced by its body. */
  function Unwrap(tag: string, c: Node): Result<Node, Error>
  {
    if !IsPoisoned(c) then Success(c)
    else if |c.children| < 2 then Failure(PoisonWithoutBody(tag))
    else Success(c.children[1])
  }

  /** The children after the loop over them, or the IndexError it stops at. */
  function Unwrapped(tag: string, cs: seq<Node>): (r: Result<seq<Node>, Error>)
    ensures r.Success? <==> forall i :: 0 <= i < |cs| ==> Unwrap(tag, cs[i]).Success?
    ensures r.Success? ==> |r.value| == |cs| && forall i :: 0 <= i < |cs| ==> r.value[i] == Unwrap(tag, cs[i]).value
    ensures r.Failure? ==> r.error == PoisonWithoutBody(tag)
    decreases |cs|
  {
    if cs == [] then Success([])
    else match Unwrapped(tag, cs[..|cs| - 1])
      case Failure(e) => Failure(e)
      case Success(us) =>
        match Unwrap(tag, cs[|cs| - 1])
        case Failure(e) => Failure(e)
        case Success(u) => Success(us + [u])
  }

  predicate AnyPoisoned(cs: seq<Node>)
  {
    exists i :: 0 <= i < |cs| && IsPoisoned(cs[i])
  }

  /** _propagate_implicit_lambda, as a value. */
  function Propagate(tag: string, cs: seq<Node>): Result<Node, Error>
  {
    match Unwrapped(tag, cs)
    case Failure(e) => Failure(e)
    case Success(us) => if AnyPoisoned(cs) then Success(Wrap(Tree(tag, us))) else Success(Tree(tag, cs))
  }

  /** `__default__`: the node rebuilt, with poisoning propagated where the tag allows it. */
  function Default(tag: string, cs: seq<Node>): Result<Node, Error>
  {
    if AllowsPoisoning(tag) then Propagate(tag, cs) else Success(Tree(tag, cs))
  }

  /**
   * _propagate_implicit_lambda on the children list it overwrites: every
   * poisoned child is replaced by its body, and the node is wrapped once
   * under the implicit parameter when any was.
   */
  method PropagateImplicitLambda(tag: string, children: array<Node>) returns (r: Result<Node, Error>)
    modifies children
    ensures r == Propagate(tag, old(children[..]))
    ensures r.Success? ==> children[..] == Unwrapped(tag, old(children[..])).value
  {
    ghost var cs := children[..];
    var poisoned := false;
    for i := 0 to children.Length
      invariant Unwrapped(tag, cs[..i]).Success?
      invariant children[..i] == Unwrapped(tag, cs[..i]).value
      invariant children[i..] == cs[i..]
      invariant poisoned <==> AnyPoisoned(cs[..i])
    {
      var c := children[i];
      assert c == cs[i];
      assert cs[..i + 1] == cs[..i] + [c];
      assert cs[..i + 1][..i] == cs[..i];
      if c.Tree? && c.tag == POISON_TAG {
        if |c.children| < 2 {
          assert !Unwrapped(tag, cs[..i + 1]).Success?;
          UnwrappedFails(tag, cs, i + 1);
          return Failure(PoisonWithoutBody(tag));
        }
        children[i] := c.children[1];
        poisoned := true;
        assert IsPoisoned(cs[..i + 1][i]);
      } else {
        assert !IsPoisoned(cs[..i + 1][i]);
        assert AnyPoisoned(cs[..i + 1]) <==> AnyPoisoned(cs[..i]);
      }
      assert children[i + 1..] == cs[i + 1..];
      assert children[..i + 1] == children[..i] + [children[i]];
    }
    assert cs[..children.Length] == cs;
    assert children[..] == children[..children.Length];
    if poisoned {
      r := Success(Wrap(Tree(tag, children[..])));
    } else {
      r := Success(Tree(tag, children[..]));
      UnwrappedUnpoisoned(tag, cs);
    }
  }

  /** A prefix whose loop raised makes the whole loop raise. */
  lemma {:induction false} UnwrappedFails(tag: string, cs: seq<Node>, k: nat)
    requires k <= |cs| && Unwrapped(tag, cs[..k]).Failure?
    ensures Unwrapped(tag, cs).Failure?
  {
    var i :| 0 <= i < k && Unwrap(tag, cs[..k][i]).Failure?;
    assert cs[..k][i] == cs[i];
  }

  /** Without a poisoned child, the loop leaves the children as they were. */
  lemma {:induction false} UnwrappedUnpoisoned(tag: string, cs: seq<Node>)
    requires !AnyPoisoned(cs)
    ensures Unwrapped(tag, cs) == Success(cs)
  {
    var r := Unwrapped(tag, cs);
    forall i | 0 <= i < |cs|
      ensures Unwrap(tag, cs[i]) == Success(cs[i])
    {
      assert !IsPoisoned(cs[i]);
    }
    assert r.value == cs;
  }

  // ---------------------------------------------------------------------
  // The transformer
  // ---------------------------------------------------------------------

  /** The rule a tag selects, applied to the already-lowered children. */
  function Apply(rule: Rule, tag: string, cs: seq<Node>): Result<Node, Error>
  {
    match rule
    case ExecRule => Success(Exec(cs))
    case UnitRule(isFloat) => UnitLiteral(tag, isFloat, cs)
    case AssignRule(op) => CompoundAssign(tag, op, cs)
    case SequenceAssignRule(combinator) => SequenceAssign(tag, combinator, cs)
    case LoopRule => Success(Tree("while", [Bool(true)] + cs))
    case ShorthandRule => Shorthand(tag, cs)
    case ImplicitRule => Success(POISON)
    case DefaultRule => Default(tag, cs)
  }

  /** The transformer, bottom-up: the children are lowered left to right, then the node's rule runs on them. */
  function Lower(n: Node): Result<Node, Error>
    decreases n
  {
    match n
    case Tree(tag, cs) =>
      (match LowerAll(cs)
       case Failure(e) => Failure(e)
       case Success(ls) => Apply(RuleFor(tag), tag, ls))
    case _ => Success(n)
  }

  /** The children lowered in order; the first that raises stops the rest. */
  function LowerAll(cs: seq<Node>): (r: Result<seq<Node>, Error>)
    ensures r.Success? <==> forall i :: 0 <= i < |cs| ==> Lower(cs[i]).Success?
    ensures r.Success? ==> |r.value| == |cs| && forall i :: 0 <= i < |cs| ==> r.value[i] == Lower(cs[i]).value
    ensures r.Failure? ==> exists i :: 0 <= i < |cs| && Lower(cs[i]) == Failure(r.error)
    decreases cs
  {
    if cs == [] then Success([])
    else match Lower(cs[0])
      case Failure(e) => Failure(e)
      case Success(l) =>
        match LowerAll(cs[1..])
        case Failure(e) =>
          assert forall i :: 1 <= i < |cs| ==> cs[1..][i - 1] == cs[i];
          Failure(e)
        case Success(ls) =>
          assert forall i :: 1 <= i < |cs| ==> cs[1..][i - 1] == cs[i];
          Success([l] + ls)
  }

  // ---------------------------------------------------------------------
  // What each rule does, on any children
  // ---------------------------------------------------------------------

  /** `x OP= y` becomes reassign(x, OP(x, y)) over the lowered operands, for each of the nine operators; other arities raise. */
  lemma {:induction false} LowerCompoundAssign(tag: string, cs: seq<Node>)
    requires RuleFor(tag).AssignRule? && LowerAll(cs).Success?
    ensures |cs| == 2 ==> Lower(Tree(tag, cs)) == Success(Tree("reassign", [Lower(cs[0]).value, Tree(RuleFor(tag).op, [Lower(cs[0]).value, Lower(cs[1]).value])]))
    ensures |cs| != 2 ==> Lower(Tree(tag, cs)) == Failure(Unpacking(tag, |cs|))
  {
  }

  /** `&&=` and `||=` become reassign(x, logical_sequence(and_sequence(x, y))) and the same with or_sequence. */
  lemma {:induction false} LowerSequenceAssign(tag: string, cs: seq<Node>)
    requires tag == "seq_and_assign" || tag == "seq_or_assign"
    requires LowerAll(cs).Success? && |cs| == 2
    ensures var a, b := Lower(cs[0]).value, Lower(cs[1]).value;
      Lower(Tree(tag, cs)) == Success(Tree("reassign", [a, Tree("logical_sequence", [Tree(if tag == "seq_and_assign" then "and_sequence" else "or_sequence", [a, b])])]))
  {
  }

  /** `loop` becomes while(True, ...) over the lowered children, in their order. */
  lemma {:induction false} LowerLoop(cs: seq<Node>)
    requires LowerAll(cs).Success?
    ensures Lower(Tree("always_loop", cs)).Success?
    ensures var w := Lower(Tree("always_loop", cs)).value;
      w.Tree? && w.tag == "while" && |w.children| == |cs| + 1 && w.children[0] == Bool(true)
      && forall i :: 0 <= i < |cs| ==> w.children[i + 1] == Lower(cs[i]).value
  {
    assert RuleFor("always_loop") == LoopRule;
    var ls := LowerAll(cs).value;
    var w := [Bool(true)] + ls;
    assert Lower(Tree("always_loop", cs)) == Success(Tree("while", w));
    assert forall i :: 0 <= i < |cs| ==> w[i + 1] == ls[i];
  }

  /** `_` becomes the poisoned identity lambda, whatever its children. */
  lemma {:induction false} LowerImplicit(cs: seq<Node>)
    requires LowerAll(cs).Success?
    ensures Lower(Tree("implicit_lambda_param", cs)) == Success(POISON)
  {
    assert RuleFor("implicit_lambda_param") == ImplicitRule;
  }

  /** `...f` becomes lambda_func(@@shorthand_select@@, select_field(identifier(@@shorthand_select@@), f)). */
  lemma {:induction false} LowerShorthand(field: Node)
    requires Lower(field).Success?
    ensures Lower(Tree("selection_lambda_shorthand", [field])) == Success(Tree("lambda_func", [Text(SHORTHAND_SELECT), Tree("select_field", [Tree("identifier", [Text(SHORTHAND_SELECT)]), Lower(field).value])]))
  {
    var lf := Lower(field).value;
    LowerSingle(field, lf);
    assert RuleFor("selection_lambda_shorthand") == ShorthandRule;
    LowerTree("selection_lambda_shorthand", [field], [lf]);
  }

  /** exec turns each token argument into its text, in order. */
  lemma {:induction false} LowerExec(cs: seq<Node>)
    requires forall i :: 0 <= i < |cs| ==> cs[i].Token?
    ensures Lower(Tree("exec", cs)).Success?
    ensures var e := Lower(Tree("exec", cs)).value;
      e.Tree? && e.tag == "exec" && |e.children| == |cs| && forall i :: 0 <= i < |cs| ==> e.children[i] == Text(cs[i].text)
  {
    assert forall i :: 0 <= i < |cs| ==> Lower(cs[i]) == Success(cs[i]);
  }

  /** The only way `v:u` splits in two at its colon. */
  lemma {:induction false} SplitColonOf(v: string, u: string)
    requires ':' !in v && ':' !in u
    ensures SplitColon(v + ":" + u) == Some((v, u))
  {
    var s := v + ":" + u;
    var r := SplitColon(s);
    assert s[|v|] == ':';
    if r.None? {
      assert false;
    }
    var (v', u') := r.value;
    assert |v'| == |v|;
    assert v' == s[..|v|] == v;
    assert u' == s[|v| + 1..] == u;
  }

  /** The lexer's 'v:u' for a known unit (none has a colon) lowers to unit_literal(unit_type(UNITS[u]), unit(u), v). */
  lemma {:induction false} LowerUnitInteger(kind: string, v: nat, u: string)
    requires LexerConstants.UnitKind(u).Some? && ':' !in u
    ensures Lower(Tree("unit_integer_literal", [Token(kind, InstructionArgs.Decimal(v) + ":" + u)]))
      == Success(Tree("unit_literal", [Tree("unit_type", [Text(LexerConstants.UnitKind(u).value)]), Tree("unit", [Text(u)]), Int(v)]))
  {
    var d := InstructionArgs.Decimal(v);
    assert forall k :: 0 <= k < |d| ==> d[k] != ':';
    SplitColonOf(d, u);
    InstructionArgs.DecimalValue(v);
    assert ParseInt(d) == Some(v);
    var leaf := Token(kind, d + ":" + u);
    LowerLeaves([leaf]);
  }

  /** A unit literal with an unknown suffix raises KeyError; one without exactly one colon cannot be unpacked. */
  lemma {:induction false} LowerUnitErrors(kind: string, literal: string)
    ensures var r := Lower(Tree("unit_integer_literal", [Token(kind, literal)]));
      && (SplitColon(literal).None? ==> r == Failure(SplitCount(literal)))
      && (SplitColon(literal).Some? && LexerConstants.UnitKind(SplitColon(literal).value.1).None? ==> r == Failure(UnknownUnit(SplitColon(literal).value.1)))
  {
    LowerLeaves([Token(kind, literal)]);
  }

  // ---------------------------------------------------------------------
  // Poisoning
  // ---------------------------------------------------------------------

  /**
   * An eligible node with a poisoned child gets every poisoned child
   * replaced by its body and is wrapped once; one with none keeps its tag
   * and children; it raises exactly when a poisoned child has no body.
   */
  lemma {:induction false} PropagateCases(tag: string, cs: seq<Node>)
    ensures Propagate(tag, cs).Failure? <==> exists i :: 0 <= i < |cs| && IsPoisoned(cs[i]) && |cs[i].children| < 2
    ensures !AnyPoisoned(cs) ==> Propagate(tag, cs) == Success(Tree(tag, cs))
    ensures AnyPoisoned(cs) && Propagate(tag, cs).Success? ==>
      exists body :: Propagate(tag, cs) == Success(Wrap(body)) && body.Tree? && body.tag == tag && |body.children| == |cs|
        && forall i :: 0 <= i < |cs| ==> body.children[i] == (if IsPoisoned(cs[i]) then cs[i].children[1] else cs[i])
  {
    if !AnyPoisoned(cs) {
      UnwrappedUnpoisoned(tag, cs);
    }
    if Propagate(tag, cs).Failure? {
      var i :| 0 <= i < |cs| && Unwrap(tag, cs[i]).Failure?;
    }
    if AnyPoisoned(cs) && Propagate(tag, cs).Success? {
      var us := Unwrapped(tag, cs).value;
      assert Propagate(tag, cs) == Success(Wrap(Tree(tag, us)));
    }
  }

  /** Program roots, pipeline stages and curries are never wrapped. */
  lemma {:induction false} BoundariesKeepTheirChildren(tag: string, cs: seq<Node>)
    requires tag == "start" || tag == "pipeline" || tag == "curry"
    requires LowerAll(cs).Success?
    ensures Lower(Tree(tag, cs)) == Success(Tree(tag, LowerAll(cs).value))
  {
    assert RuleFor(tag) == DefaultRule by {
      if tag == "start" {
        assert RuleFor("start") == DefaultRule;
      } else if tag == "pipeline" {
        assert RuleFor("pipeline") == DefaultRule;
      } else {
        assert RuleFor("curry") == DefaultRule;
      }
    }
    assert tag[0] != '_' && tag[..2][0] == tag[0];
  }

  /** Nor are the helper rules lark names `__start_...`, `__pipeline_...` and `__curry_...`. */
  lemma {:induction false} HelperBoundariesKeepTheirChildren(tag: string, cs: seq<Node>)
    requires |tag| >= 2 && tag[..2] == "__"
    requires var stem := Stem(tag[2..]); stem == "start" || stem == "pipeline" || stem == "curry"
    requires LowerAll(cs).Success?
    ensures Lower(Tree(tag, cs)) == Success(Tree(tag, LowerAll(cs).value))
  {
    UnderscoreTagIsDefault(tag);
    assert tag[..2] == "__";
    var data := if |tag| >= 2 && tag[..2] == "__" then Stem(tag[2..]) else tag;
    assert data == Stem(tag[2..]);
  }

  /** No rule is named with a leading underscore. */
  lemma {:induction false} UnderscoreTagIsDefault(tag: string)
    requires |tag| >= 1 && tag[0] == '_'
    ensures RuleFor(tag) == DefaultRule
  {
  }

  /** Leaves lower to themselves. */
  lemma {:induction false} LowerLeaves(cs: seq<Node>)
    requires forall i :: 0 <= i < |cs| ==> !cs[i].Tree?
    ensures LowerAll(cs) == Success(cs)
  {
    assert forall i :: 0 <= i < |cs| ==> Lower(cs[i]) == Success(cs[i]);
    assert LowerAll(cs).value == cs;
  }

  // ---------------------------------------------------------------------
  // What lowering leaves behind
  // ---------------------------------------------------------------------

  /** No node of `n` has a tag that a rewrite rule other than exec replaces. */
  predicate Desugared(n: Node)
    decreases n
  {
    n.Tree? ==>
      (RuleFor(n.tag) == ExecRule || RuleFor(n.tag) == DefaultRule)
      && forall i :: 0 <= i < |n.children| ==> Desugared(n.children[i])
  }

  /** No node of `n` is tagged as a poisoned lambda, as in any tree the parser builds. */
  predicate Unmarked(n: Node)
    decreases n
  {
    n.Tree? ==> n.tag != POISON_TAG && forall i :: 0 <= i < |n.children| ==> Unmarked(n.children[i])
  }

  /** Every poisoned lambda in `n` binds the implicit parameter over a body that is not itself a poisoned lambda. */
  predicate WellPoisoned(n: Node)
    decreases n
  {
    n.Tree? ==>
      (n.tag == POISON_TAG ==> |n.children| == 2 && n.children[0] == PARAM && !IsPoisoned(n.children[1]))
      && forall i :: 0 <= i < |n.children| ==> WellPoisoned(n.children[i])
  }

  /** The tags the assignment rules build go to `__default__`. */
  lemma {:induction false} AssignTagsAreDefault()
    ensures RuleFor("reassign") == DefaultRule && RuleFor("logical_sequence") == DefaultRule
    ensures RuleFor("and_sequence") == DefaultRule && RuleFor("or_sequence") == DefaultRule
  {
  }

  /** The tags the loop and shorthand rules build go to `__default__`. */
  lemma {:induction false} LambdaTagsAreDefault()
    ensures RuleFor("while") == DefaultRule && RuleFor("lambda_func") == DefaultRule
    ensures RuleFor("select_field") == DefaultRule && RuleFor("identifier") == DefaultRule
  {
  }

  /** The tags the implicit-lambda and unit rules build go to `__default__`. */
  lemma {:induction false} UnitTagsAreDefault()
    ensures RuleFor(POISON_TAG) == DefaultRule && RuleFor("unit_literal") == DefaultRule
    ensures RuleFor("unit_type") == DefaultRule && RuleFor("unit") == DefaultRule
  {
  }

  /** The nine operators go to `__default__` too. */
  lemma {:induction false} OperatorsAreDefault(tag: string)
    requires RuleFor(tag).AssignRule?
    ensures RuleFor(RuleFor(tag).op) == DefaultRule
  {
    AssignOperators(tag);
    ArithmeticTagsAreDefault();
    DivisionTagsAreDefault();
    OtherOperatorTagsAreDefault();
  }

  lemma {:induction false} AssignOperators(tag: string)
    requires RuleFor(tag).AssignRule?
    ensures var op := RuleFor(tag).op;
      op == "addition" || op == "subtraction" || op == "multiply" || op == "divide" || op == "int_divide"
      || op == "modulus" || op == "raise_power" || op == "pipeline" || op == "concatenate"
  {
  }

  lemma {:induction false} ArithmeticTagsAreDefault()
    ensures RuleFor("addition") == DefaultRule && RuleFor("subtraction") == DefaultRule && RuleFor("multiply") == DefaultRule
  {
  }

  lemma {:induction false} DivisionTagsAreDefault()
    ensures RuleFor("divide") == DefaultRule && RuleFor("int_divide") == DefaultRule && RuleFor("modulus") == DefaultRule
  {
  }

  lemma {:induction false} OtherOperatorTagsAreDefault()
    ensures RuleFor("raise_power") == DefaultRule && RuleFor("pipeline") == DefaultRule && RuleFor("concatenate") == DefaultRule
  {
  }

  /** The children all keep both properties. */
  predicate Kept(ls: seq<Node>)
  {
    forall i :: 0 <= i < |ls| ==> Desugared(ls[i]) && WellPoisoned(ls[i])
  }

  /** One rule keeps the children's Desugared and WellPoisoned, and raises no IndexError. */
  lemma {:induction false} ApplyKeeps(tag: string, ls: seq<Node>)
    requires tag != POISON_TAG && Kept(ls)
    ensures var r := Apply(RuleFor(tag), tag, ls);
      && (r.Failure? ==> !r.error.PoisonWithoutBody?)
      && (r.Success? ==> Desugared(r.value) && WellPoisoned(r.value))
  {
    match RuleFor(tag)
    case ExecRule =>
      var e := Exec(ls);
      assert forall i :: 0 <= i < |ls| ==> Desugared(e.children[i]) && WellPoisoned(e.children[i]);
    case UnitRule(isFloat) => UnitKeeps(tag, isFloat, ls);
    case AssignRule(op) => AssignKeeps(tag, ls);
    case SequenceAssignRule(combinator) => SequenceKeeps(tag, combinator, ls);
    case LoopRule => LoopKeeps(ls);
    case ShorthandRule => ShorthandKeeps(tag, ls);
    case ImplicitRule => UnitTagsAreDefault(); LambdaTagsAreDefault();
    case DefaultRule => DefaultKeeps(tag, ls);
  }

  lemma {:induction false} UnitKeeps(tag: string, isFloat: bool, ls: seq<Node>)
    ensures UnitLiteral(tag, isFloat, ls).Failure? ==> !UnitLiteral(tag, isFloat, ls).error.PoisonWithoutBody?
    ensures UnitLiteral(tag, isFloat, ls).Success? ==> Desugared(UnitLiteral(tag, isFloat, ls).value) && WellPoisoned(UnitLiteral(tag, isFloat, ls).value)
  {
    UnitTagsAreDefault();
  }

  lemma {:induction false} AssignKeeps(tag: string, ls: seq<Node>)
    requires RuleFor(tag).AssignRule? && Kept(ls)
    ensures var r := CompoundAssign(tag, RuleFor(tag).op, ls);
      r.Success? ==> Desugared(r.value) && WellPoisoned(r.value)
  {
    OperatorsAreDefault(tag);
    AssignTagsAreDefault();
  }

  lemma {:induction false} SequenceKeeps(tag: string, combinator: string, ls: seq<Node>)
    requires (combinator == "and_sequence" || combinator == "or_sequence") && Kept(ls)
    ensures SequenceAssign(tag, combinator, ls).Success? ==>
      Desugared(SequenceAssign(tag, combinator, ls).value) && WellPoisoned(SequenceAssign(tag, combinator, ls).value)
  {
    AssignTagsAreDefault();
  }

  lemma {:induction false} LoopKeeps(ls: seq<Node>)
    requires Kept(ls)
    ensures Desugared(Tree("while", [Bool(true)] + ls)) && WellPoisoned(Tree("while", [Bool(true)] + ls))
  {
    LambdaTagsAreDefault();
    var w := [Bool(true)] + ls;
    forall i | 0 <= i < |w|
      ensures Desugared(w[i]) && WellPoisoned(w[i])
    {
      if i > 0 {
        assert w[i] == ls[i - 1];
      }
    }
  }

  lemma {:induction false} ShorthandKeeps(tag: string, ls: seq<Node>)
    requires Kept(ls)
    ensures Shorthand(tag, ls).Success? ==> Desugared(Shorthand(tag, ls).value) && WellPoisoned(Shorthand(tag, ls).value)
  {
    LambdaTagsAreDefault();
    if |ls| == 1 {
      var id := Tree("identifier", [Text(SHORTHAND_SELECT)]);
      var select := Tree("select_field", [id, ls[0]]);
      assert Desugared(id) && WellPoisoned(id);
      assert Desugared(ls[0]) && WellPoisoned(ls[0]);
      assert Desugared(select) && WellPoisoned(select);
    }
  }

  lemma {:induction false} DefaultKeeps(tag: string, ls: seq<Node>)
    requires tag != POISON_TAG && RuleFor(tag) == DefaultRule && Kept(ls)
    ensures Default(tag, ls).Success?
    ensures Desugared(Default(tag, ls).value) && WellPoisoned(Default(tag, ls).value)
  {
    UnitTagsAreDefault();
    if AllowsPoisoning(tag) {
      assert Unwrapped(tag, ls).Success? by {
        forall i | 0 <= i < |ls|
          ensures Unwrap(tag, ls[i]).Success?
        {
        }
      }
      var us := Unwrapped(tag, ls).value;
      forall i | 0 <= i < |us|
        ensures Desugared(us[i]) && WellPoisoned(us[i]) && !IsPoisoned(us[i])
      {
        if IsPoisoned(ls[i]) {
          assert us[i] == ls[i].children[1];
        }
      }
    }
  }

  /** Lowering replaces every sugared tag, and leaves every poisoned lambda binding one body. */
  lemma {:induction false} LowerKeeps(n: Node)
    requires Unmarked(n)
    ensures Lower(n).Failure? ==> !Lower(n).error.PoisonWithoutBody?
    ensures Lower(n).Success? ==> Desugared(Lower(n).value) && WellPoisoned(Lower(n).value)
    decreases n
  {
    match n
    case Tree(tag, cs) =>
      forall i | 0 <= i < |cs|
        ensures Lower(cs[i]).Failure? ==> !Lower(cs[i]).error.PoisonWithoutBody?
        ensures Lower(cs[i]).Success? ==> Desugared(Lower(cs[i]).value) && WellPoisoned(Lower(cs[i]).value)
      {
        LowerKeeps(cs[i]);
      }
      if LowerAll(cs).Success? {
        assert Kept(LowerAll(cs).value);
        ApplyKeeps(tag, LowerAll(cs).value);
      }
    case _ =>
  }

  // ---------------------------------------------------------------------
  // The front end's own examples
  // ---------------------------------------------------------------------

  /** `_` as the parser hands it over. */
  const UNDERSCORE := Tree("implicit_lambda_param", [Token("IMPLICIT_LAMBDA_PARAM", "_")])

  /** The body of the identity lambda. */
  const IDENTITY := Tree("identifier", [PARAM])

  function Command(word: string): Node
  {
    Tree("exec", [Token("EXEC_ARG", word)])
  }

  /** A node lowers to its rule applied to its lowered children. */
  lemma {:induction false} LowerTree(tag: string, cs: seq<Node>, ls: seq<Node>)
    requires LowerAll(cs) == Success(ls)
    ensures Lower(Tree(tag, cs)) == Apply(RuleFor(tag), tag, ls)
  {
  }

  lemma {:induction false} LowerSingle(x: Node, lx: Node)
    requires Lower(x) == Success(lx)
    ensures LowerAll([x]) == Success([lx])
  {
    assert [x][0] == x && [x][1..] == [];
    assert LowerAll([]) == Success([]);
    assert [lx] + [] == [lx];
  }

  lemma {:induction false} LowerPair(x: Node, y: Node, lx: Node, ly: Node)
    requires Lower(x) == Success(lx) && Lower(y) == Success(ly)
    ensures LowerAll([x, y]) == Success([lx, ly])
  {
    LowerSingle(y, ly);
    assert [x, y][0] == x && [x, y][1..] == [y];
    assert [lx] + [ly] == [lx, ly];
  }

  /** An eligible node with no poisoned child is only rebuilt. */
  lemma {:induction false} DefaultUnpoisoned(tag: string, ls: seq<Node>)
    requires RuleFor(tag) == DefaultRule && !AnyPoisoned(ls)
    ensures Apply(RuleFor(tag), tag, ls) == Success(Tree(tag, ls))
  {
    PropagateCases(tag, ls);
  }

  /** An eligible node whose second child is a poisoned lambda is wrapped over its first child and that lambda's body. */
  lemma {:induction false} DefaultPoisonedSecond(tag: string, x: Node, body: Node)
    requires RuleFor(tag) == DefaultRule && AllowsPoisoning(tag)
    ensures var u := if IsPoisoned(x) && |x.children| >= 2 then x.children[1] else x;
      !(IsPoisoned(x) && |x.children| < 2) ==> Apply(RuleFor(tag), tag, [x, Wrap(body)]) == Success(Wrap(Tree(tag, [u, body])))
  {
    var cs := [x, Wrap(body)];
    assert IsPoisoned(cs[1]);
    PropagateCases(tag, cs);
    if !(IsPoisoned(x) && |x.children| < 2) {
      var u := if IsPoisoned(x) && |x.children| >= 2 then x.children[1] else x;
      var us := Unwrapped(tag, cs).value;
      assert us == [u, body];
    }
  }

  lemma {:induction false} LowerUnderscore()
    ensures Lower(UNDERSCORE) == Success(POISON)
  {
    var t := Token("IMPLICIT_LAMBDA_PARAM", "_");
    LowerLeaves([t]);
    assert RuleFor("implicit_lambda_param") == ImplicitRule;
    LowerTree("implicit_lambda_param", [t], [t]);
  }

  lemma {:induction false} LowerCommand(word: string)
    ensures Lower(Command(word)) == Success(Tree("exec", [Text(word)]))
  {
    var t := Token("EXEC_ARG", word);
    LowerLeaves([t]);
    assert RuleFor("exec") == ExecRule;
    LowerTree("exec", [t], [t]);
    assert Exec([t]).children == [Text(word)];
  }

  lemma {:induction false} LowerEmptyBlock()
    ensures Lower(Tree("block", [])) == Success(Tree("block", []))
  {
    assert RuleFor("block") == DefaultRule;
    assert LowerAll([]) == Success([]);
    LowerTree("block", [], []);
    DefaultUnpoisoned("block", []);
  }

  lemma {:induction false} LoopIsRule()
    ensures RuleFor("always_loop") == LoopRule
  {
  }

  /** `loop {}` lowers to while(True, block). */
  lemma {:induction false} LoopExample()
    ensures Lower(Tree("always_loop", [Tree("block", [])])) == Success(Tree("while", [Bool(true), Tree("block", [])]))
  {
    var block := Tree("block", []);
    LowerEmptyBlock();
    LowerSingle(block, block);
    LoopIsRule();
    LowerTree("always_loop", [block], [block]);
    assert [Bool(true)] + [block] == [Bool(true), block];
  }

  /** addition is an ordinary node that poisoning may wrap. */
  lemma {:induction false} AdditionIsDefault()
    ensures RuleFor("addition") == DefaultRule && AllowsPoisoning("addition")
  {
    assert "addition"[..2] == "ad";
  }

  /** `_ + _` lowers to one lambda whose body adds the parameter to itself. */
  lemma {:induction false} SumExample()
    ensures Lower(Tree("addition", [UNDERSCORE, UNDERSCORE])) == Success(Wrap(Tree("addition", [IDENTITY, IDENTITY])))
  {
    LowerUnderscore();
    LowerPair(UNDERSCORE, UNDERSCORE, POISON, POISON);
    LowerTree("addition", [UNDERSCORE, UNDERSCORE], [POISON, POISON]);
    AdditionIsDefault();
    DefaultPoisonedSecond("addition", POISON, IDENTITY);
  }

  /** `a | _ | _ + _ | c`: each stage keeps its own lambda, and the pipeline is not wrapped. */
  lemma {:induction false} PipelineExample()
    ensures Lower(Tree("pipeline", [Command("a"), UNDERSCORE, Tree("addition", [UNDERSCORE, UNDERSCORE]), Command("c")]))
      == Success(Tree("pipeline", [Tree("exec", [Text("a")]), POISON, Wrap(Tree("addition", [IDENTITY, IDENTITY])), Tree("exec", [Text("c")])]))
  {
    var cs := [Command("a"), UNDERSCORE, Tree("addition", [UNDERSCORE, UNDERSCORE]), Command("c")];
    var ls := [Tree("exec", [Text("a")]), POISON, Wrap(Tree("addition", [IDENTITY, IDENTITY])), Tree("exec", [Text("c")])];
    LowerCommand("a");
    LowerCommand("c");
    LowerUnderscore();
    SumExample();
    assert LowerAll(cs) == Success(ls) by {
      assert forall i :: 0 <= i < 4 ==> Lower(cs[i]) == Success(ls[i]);
      assert LowerAll(cs).value == ls;
    }
    BoundariesKeepTheirChildren("pipeline", cs);
  }

  /** `a | ...b`: the shorthand becomes a lambda selecting b. */
  lemma {:induction false} ShorthandExample()
    ensures Lower(Tree("pipeline", [Command("a"), Tree("selection_lambda_shorthand", [Token("NAME", "b")])]))
      == Success(Tree("pipeline", [Tree("exec", [Text("a")]),
           Tree("lambda_func", [Text(SHORTHAND_SELECT), Tree("select_field", [Tree("identifier", [Text(SHORTHAND_SELECT)]), Token("NAME", "b")])])]))
  {
    var b := Token("NAME", "b");
    var shorthand := Tree("selection_lambda_shorthand", [b]);
    var lambda := Tree("lambda_func", [Text(SHORTHAND_SELECT), Tree("select_field", [Tree("identifier", [Text(SHORTHAND_SELECT)]), b])]);
    LowerCommand("a");
    LowerShorthand(b);
    LowerPair(Command("a"), shorthand, Tree("exec", [Text("a")]), lambda);
    BoundariesKeepTheirChildren("pipeline", [Command("a"), shorthand]);
  }

  /** 'v:u' of a float literal keeps the value's text. */
  lemma {:induction false} LowerUnitFloat(kind: string, value: string, u: string)
    requires LexerConstants.UnitKind(u).Some? && ':' !in u && ':' !in value
    ensures Lower(Tree("unit_float_literal", [Token(kind, value + ":" + u)]))
      == Success(Tree("unit_literal", [Tree("unit_type", [Text(LexerConstants.UnitKind(u).value)]), Tree("unit", [Text(u)]), Float(value)]))
  {
    var t := Token(kind, value + ":" + u);
    SplitColonOf(value, u);
    LowerLeaves([t]);
    assert RuleFor("unit_float_literal") == UnitRule(true);
    LowerTree("unit_float_literal", [t], [t]);
  }

  const TEN_GB := Tree("unit_literal", [Tree("unit_type", [Text("size")]), Tree("unit", [Text("gb")]), Int(10)])
  const HALF_MB := Tree("unit_literal", [Tree("unit_type", [Text("size")]), Tree("unit", [Text("mb")]), Float("1.5")])

  lemma {:induction false} TenGigabytes()
    ensures Lower(Tree("unit_integer_literal", [Token("UNIT_INTEGER", "10:gb")])) == Success(TEN_GB)
  {
    assert InstructionArgs.Decimal(10) + ":" + "gb" == "10:gb" by {
      assert InstructionArgs.Decimal(10) == "10";
    }
    assert LexerConstants.UnitKind("gb") == Some("size");
    assert ':' !in "gb";
    LowerUnitInteger("UNIT_INTEGER", 10, "gb");
  }

  lemma {:induction false} HalfMegabyte()
    ensures Lower(Tree("unit_float_literal", [Token("UNIT_FLOAT", "1.5:mb")])) == Success(HALF_MB)
  {
    assert "1.5" + ":" + "mb" == "1.5:mb";
    assert LexerConstants.UnitKind("mb") == Some("size");
    assert ':' !in "mb" && ':' !in "1.5";
    LowerUnitFloat("UNIT_FLOAT", "1.5", "mb");
  }

  /** `10gb + 1.5mb`: both literals expand to unit_literal(size, unit, value). */
  lemma {:induction false} UnitExample()
    ensures Lower(Tree("addition", [Tree("unit_integer_literal", [Token("UNIT_INTEGER", "10:gb")]), Tree("unit_float_literal", [Token("UNIT_FLOAT", "1.5:mb")])]))
      == Success(Tree("addition", [TEN_GB, HALF_MB]))
  {
    var ten := Tree("unit_integer_literal", [Token("UNIT_INTEGER", "10:gb")]);
    var half := Tree("unit_float_literal", [Token("UNIT_FLOAT", "1.5:mb")]);
    TenGigabytes();
    HalfMegabyte();
    LowerPair(ten, half, TEN_GB, HALF_MB);
    LowerTree("addition", [ten, half], [TEN_GB, HALF_MB]);
    AdditionIsDefault();
    assert !AnyPoisoned([TEN_GB, HALF_MB]) by {
      assert !IsPoisoned([TEN_GB, HALF_MB][0]) && !IsPoisoned([TEN_GB, HALF_MB][1]);
    }
    DefaultUnpoisoned("addition", [TEN_GB, HALF_MB]);
  }

  lemma {:induction false} ReassignIsDefault()
    ensures RuleFor("reassign") == DefaultRule && AllowsPoisoning("reassign")
  {
    assert "reassign"[..2] == "re";
  }

  lemma {:induction false} PlusAssignIsAddition()
    ensures RuleFor("plus_assign") == AssignRule("addition")
  {
  }

  /**
   * `@a += _` keeps the placeholder's lambda inside the addition: the
   * assignment rules build their nodes without the poisoning step.
   */
  lemma {:induction false} CompoundAssignKeepsLambdaInside(a: Node)
    requires !a.Tree?
    ensures Lower(Tree("plus_assign", [a, UNDERSCORE])) == Success(Tree("reassign", [a, Tree("addition", [a, POISON])]))
  {
    LowerUnderscore();
    assert Lower(a) == Success(a);
    LowerPair(a, UNDERSCORE, a, POISON);
    PlusAssignIsAddition();
    LowerCompoundAssign("plus_assign", [a, UNDERSCORE]);
  }

  /** The same tree spelled out, `@a = @a + _`, is wrapped as a whole. */
  lemma {:induction false} SpelledOutAssignWraps(a: Node)
    requires !a.Tree?
    ensures Lower(Tree("reassign", [a, Tree("addition", [a, UNDERSCORE])])) == Success(Wrap(Tree("reassign", [a, Tree("addition", [a, IDENTITY])])))
  {
    LowerUnderscore();
    assert Lower(a) == Success(a);
    LowerPair(a, UNDERSCORE, a, POISON);
    var sum := Tree("addition", [a, UNDERSCORE]);
    var lambda := Wrap(Tree("addition", [a, IDENTITY]));
    AdditionIsDefault();
    LowerTree("addition", [a, UNDERSCORE], [a, POISON]);
    DefaultPoisonedSecond("addition", a, IDENTITY);
    LowerPair(a, sum, a, lambda);
    ReassignIsDefault();
    LowerTree("reassign", [a, sum], [a, lambda]);
    DefaultPoisonedSecond("reassign", a, Tree("addition", [a, IDENTITY]));
  }
}
