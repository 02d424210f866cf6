/**
 * The PEG-style meta-parser of the Rust front end
 * (crates/egg-parser/src/meta_parse.rs and parser.rs). Each block of a rule
 * is matched against the tokens from a head position; a match gives the new
 * head and a tree whose root is a placeholder, which the enclosing sequence
 * splices into its own tree and the enclosing symbol hangs under itself.
 *
 * The Rust recursion runs forever on a left-recursive grammar, and its Star
 * loop runs forever over a child that matches without consuming a token.
 * The model counts steps with `fuel` and answers OutOfFuel when they run
 * out; FuelBlock and its partners show that more fuel never changes an
 * answer that was found.
 */
module MetaParse {
  import opened Wrappers
  import opened Grammar
  import opened MetaParseRule
  import EggAst
  import SourceFile

  /** crates/egg-source/src/token.rs: a lexeme and the span of source it covers. */
  datatype Token = Token(lexeme: Lexeme, location: SourceFile.Span)

  /** The errors of crates/egg-parser/src/errors.rs that parse and its combinators raise. */
  datatype Error =
    | AstError(error: EggAst.Error)
    | ParserUnexpectedToken(token: Token)
    | ParserCouldNotParseProgram
    | ParserTriedToBuildSymbolWithNoRule(symbol: Symbol)
    | ParserHeadPastLastToken

  /**
   * What a combinator gives: Ok(Some((head, ast))) is Matched, Ok(None) is
   * NoMatch, Err(error) is Failed; OutOfFuel means the step bound ran out.
   */
  datatype Outcome = Matched(head: nat, nodes: seq<EggAst.AstNode>) | NoMatch | Failed(error: Error) | OutOfFuel

  /** What parse gives, or Exhausted when the step bound ran out. */
  datatype Run = Done(result: Result<seq<EggAst.AstNode>, Error>) | Exhausted

  /** The parser: a rule per symbol and the entry symbol. */
  datatype Parser = Parser(rules: map<Symbol, RuleData>, entry: Symbol)

  /** The tree every combinator starts from: a lone placeholder. */
  const PLACEHOLDER := EggAst.Leaf(Placeholder)

  /** The indices `ids` all name blocks of the rule. */
  predicate Inside(rule: RuleData, ids: seq<nat>)
  {
    forall k :: 0 <= k < |ids| ==> ids[k] < |rule.blocks|
  }

  /**
   * The root and every index a block refers to are in the arena: what
   * `blocks.get(..).unwrap()` relies on, and what every builder keeps.
   */
  predicate Fits(rule: RuleData)
  {
    rule.root < |rule.blocks| && forall i :: 0 <= i < |rule.blocks| ==> Inside(rule, Ids(rule.blocks[i]))
  }

  predicate RulesFit(p: Parser)
  {
    forall s :: s in p.rules ==> Fits(p.rules[s])
  }

  /** Every rule the builders produce fits its arena. */
  lemma {:induction false} WellFormedFits(rule: RuleData)
    requires WellFormed(rule)
    ensures Fits(rule)
  {
    var rank :| Ranked(rule.blocks, rank);
    forall i | 0 <= i < |rule.blocks|
      ensures Inside(rule, Ids(rule.blocks[i]))
    {
      assert Below(rule.blocks[i], |rule.blocks|, rank, rank[i]);
      forall k | 0 <= k < |Ids(rule.blocks[i])|
        ensures Ids(rule.blocks[i])[k] < |rule.blocks|
      {
        assert Ids(rule.blocks[i])[k] in Ids(rule.blocks[i]);
      }
    }
  }

  /** recognize_token: the token at `head` exists and has the lexeme. */
  predicate Recognize(lexeme: Lexeme, head: nat, tokens: seq<Token>)
  {
    head < |tokens| && tokens[head].lexeme == lexeme
  }

  /** token_to_node: a Lexeme leaf that points at token `head`. */
  function TokenNode(head: nat): EggAst.AstNode
  {
    EggAst.AstNode(LexemeNode, [], Some(head), EggAst.NEW_ANNOTATIONS)
  }

  /**
   * meta_parse_helper: one step of fuel, then the combinator for the kind of
   * block `id`. No match is an answer only with fuel left, and never that of
   * a Maybe or a Star block.
   */
  function ParseBlock(p: Parser, rule: RuleData, id: nat, head: nat, tokens: seq<Token>, fuel: nat): (r: Outcome)
    requires RulesFit(p) && Fits(rule) && id < |rule.blocks|
    ensures r == NoMatch ==> fuel > 0 && !rule.blocks[id].Maybe? && !rule.blocks[id].Star?
    decreases fuel, 0
  {
    if fuel == 0 then OutOfFuel
    else
      assert Inside(rule, Ids(rule.blocks[id]));
      Dispatch(p, rule, rule.blocks[id], head, tokens, fuel - 1)
  }

  /**
   * The match of meta_parse_helper on the kind of a block whose children are
   * in the rule: a token block matches exactly its token; Maybe and Star
   * never give no match; Plus, here the corrected one, gives no match exactly
   * when its child does at the first attempt; Discard matches exactly when
   * its child does.
   */
  function Dispatch(p: Parser, rule: RuleData, b: Block, head: nat, tokens: seq<Token>, fuel: nat): (r: Outcome)
    requires RulesFit(p) && Fits(rule) && Inside(rule, Ids(b))
    ensures b.Tok? ==> (r.Matched? <==> Recognize(b.lexeme, head, tokens))
    ensures b.Maybe? || b.Star? ==> r != NoMatch
    ensures b.Plus? ==> b.child < |rule.blocks| && (r == NoMatch <==> ParseBlock(p, rule, b.child, head, tokens, fuel) == NoMatch)
    ensures b.Discard? ==> b.child < |rule.blocks| && (r.Matched? <==> ParseBlock(p, rule, b.child, head, tokens, fuel).Matched?)
    decreases fuel, |Ids(b)| + 3
  {
    match b
    case Sym(s) => ParseSymbol(p, s, head, tokens, fuel)
    case Tok(l) => ParseToken(l, head, tokens)
    case Sequence(c) => ParseSequence(p, rule, c, 0, head, PLACEHOLDER, tokens, fuel)
    case Any(c) => ParseAny(p, rule, c, 0, head, tokens, fuel)
    case Maybe(c) => assert Ids(b)[0] == c; ParseMaybe(p, rule, c, head, tokens, fuel)
    case Star(c) => assert Ids(b)[0] == c; ParseStar(p, rule, c, false, head, PLACEHOLDER, tokens, fuel)
    case Plus(c) => assert Ids(b)[0] == c; ParseStar(p, rule, c, true, head, PLACEHOLDER, tokens, fuel)
    case Discard(c) => assert Ids(b)[0] == c; ParseDiscard(p, rule, c, head, tokens, fuel)
  }

  /** meta_parse: match the rule's root block, then name the tree's root after `target`. */
  function ParseRule(p: Parser, target: Symbol, rule: RuleData, head: nat, tokens: seq<Token>, fuel: nat): (r: Outcome)
    requires RulesFit(p) && Fits(rule)
    ensures r.Matched? <==> ParseBlock(p, rule, rule.root, head, tokens, fuel).Matched? && |ParseBlock(p, rule, rule.root, head, tokens, fuel).nodes| > 0
    ensures r.Matched? ==> var o := ParseBlock(p, rule, rule.root, head, tokens, fuel);
      r.head == o.head && r.nodes == o.nodes[0 := o.nodes[0].(symbol := target)]
    decreases fuel, 1
  {
    match ParseBlock(p, rule, rule.root, head, tokens, fuel)
    case Matched(h, t) =>
      if |t| == 0 then Failed(AstError(EggAst.ParserTreeHasNoRootNode))
      else Matched(h, t[0 := t[0].(symbol := target)])
    case o => o
  }

  /**
   * meta_parse_symbol: an error when the symbol has no rule; otherwise the
   * symbol's rule is matched and its tree hung under a placeholder.
   */
  function ParseSymbol(p: Parser, s: Symbol, head: nat, tokens: seq<Token>, fuel: nat): (r: Outcome)
    requires RulesFit(p)
    ensures s !in p.rules ==> r == Failed(ParserTriedToBuildSymbolWithNoRule(s))
    decreases fuel, 2
  {
    if s !in p.rules then Failed(ParserTriedToBuildSymbolWithNoRule(s))
    else
      match ParseRule(p, s, p.rules[s], head, tokens, fuel)
      case Matched(h, child) =>
        (match EggAst.Hang(PLACEHOLDER, child)
         case Success(t) => Matched(h, t)
         case Failure(e) => Failed(AstError(e)))
      case NoMatch => NoMatch
      case Failed(e) => Failed(e)
      case OutOfFuel => OutOfFuel
  }

  /**
   * meta_parse_sequence from child `k` on: each child is matched where the
   * previous one stopped and its tree spliced into `nodes`; the first child
   * that does not match ends the sequence with its answer.
   */
  function ParseSequence(p: Parser, rule: RuleData, c: seq<nat>, k: nat, head: nat, nodes: seq<EggAst.AstNode>, tokens: seq<Token>, fuel: nat): (r: Outcome)
    requires RulesFit(p) && Fits(rule) && Inside(rule, c) && k <= |c| && |nodes| > 0
    ensures k == |c| ==> r == Matched(head, nodes)
    decreases fuel, |c| - k + 1
  {
    if k == |c| then Matched(head, nodes)
    else
      match ParseBlock(p, rule, c[k], head, tokens, fuel)
      case Matched(h, t) =>
        (match EggAst.Splice(nodes, t)
         case Success(spliced) => ParseSequence(p, rule, c, k + 1, h, spliced, tokens, fuel)
         case Failure(e) => Failed(AstError(e)))
      case o => o
  }

  /** meta_parse_any from option `k` on: the first option that does not give NoMatch decides. */
  function ParseAny(p: Parser, rule: RuleData, c: seq<nat>, k: nat, head: nat, tokens: seq<Token>, fuel: nat): (r: Outcome)
    requires RulesFit(p) && Fits(rule) && Inside(rule, c) && k <= |c|
    ensures k == |c| ==> r == NoMatch
    decreases fuel, |c| - k + 1
  {
    if k == |c| then NoMatch
    else
      match ParseBlock(p, rule, c[k], head, tokens, fuel)
      case NoMatch => ParseAny(p, rule, c, k + 1, head, tokens, fuel)
      case o => o
  }

  /** meta_parse_maybe: the child's answer, with NoMatch turned into a placeholder match at `head`. */
  function ParseMaybe(p: Parser, rule: RuleData, c: nat, head: nat, tokens: seq<Token>, fuel: nat): (r: Outcome)
    requires RulesFit(p) && Fits(rule) && c < |rule.blocks|
    ensures r != NoMatch
    ensures ParseBlock(p, rule, c, head, tokens, fuel) == NoMatch <==> r == Matched(head, PLACEHOLDER) && ParseBlock(p, rule, c, head, tokens, fuel) != r
    decreases fuel, 1
  {
    match ParseBlock(p, rule, c, head, tokens, fuel)
    case NoMatch => Matched(head, PLACEHOLDER)
    case o => o
  }

  /**
   * The loop of meta_parse_star: the child is matched again and again from
   * where it last stopped, and each tree spliced into `nodes`, until the
   * child gives NoMatch. With `need`, at least one match is required:
   * an immediate NoMatch is then the answer. meta_parse_star starts without
   * `need`; the corrected meta_parse_plus starts with it.
   */
  function ParseStar(p: Parser, rule: RuleData, c: nat, need: bool, head: nat, nodes: seq<EggAst.AstNode>, tokens: seq<Token>, fuel: nat): (r: Outcome)
    requires RulesFit(p) && Fits(rule) && c < |rule.blocks| && |nodes| > 0
    ensures !need ==> r != NoMatch
    ensures need ==> (r == NoMatch <==> ParseBlock(p, rule, c, head, tokens, fuel) == NoMatch)
    decreases fuel, 1
  {
    if fuel == 0 then OutOfFuel
    else
      match ParseBlock(p, rule, c, head, tokens, fuel)
      case Matched(h, t) =>
        (match EggAst.Splice(nodes, t)
         case Success(spliced) => ParseStar(p, rule, c, false, h, spliced, tokens, fuel - 1)
         case Failure(e) => Failed(AstError(e)))
      case NoMatch => if need then NoMatch else Matched(head, nodes)
      case Failed(e) => Failed(e)
      case OutOfFuel => OutOfFuel
  }

  /**
   * meta_parse_plus as written: Star, then NoMatch unless the tree has more
   * than its placeholder root. A child whose match adds no node (a Discard,
   * a Maybe that matched nothing) is matched and still counted as nothing.
   */
  function PlusAsWritten(p: Parser, rule: RuleData, c: nat, head: nat, tokens: seq<Token>, fuel: nat): (r: Outcome)
    requires RulesFit(p) && Fits(rule) && c < |rule.blocks|
    ensures r.Matched? <==> ParseStar(p, rule, c, false, head, PLACEHOLDER, tokens, fuel).Matched? && |ParseStar(p, rule, c, false, head, PLACEHOLDER, tokens, fuel).nodes| > 1
    ensures r.Matched? ==> r == ParseStar(p, rule, c, false, head, PLACEHOLDER, tokens, fuel)
  {
    var o := ParseStar(p, rule, c, false, head, PLACEHOLDER, tokens, fuel);
    if o.Matched? && |o.nodes| <= 1 then NoMatch else o
  }

  /**
   * The corrected Plus that Dispatch runs answers as meta_parse_plus as
   * written does wherever that one matches; the only other difference is a
   * match whose tree is the lone placeholder root, where the one as written
   * gives no match.
   */
  lemma {:induction false} DispatchPlus(p: Parser, rule: RuleData, c: nat, head: nat, tokens: seq<Token>, fuel: nat)
    requires RulesFit(p) && Fits(rule) && c < |rule.blocks|
    ensures Inside(rule, Ids(Plus(c)))
    ensures PlusAsWritten(p, rule, c, head, tokens, fuel).Matched? ==> Dispatch(p, rule, Plus(c), head, tokens, fuel) == PlusAsWritten(p, rule, c, head, tokens, fuel)
    ensures Dispatch(p, rule, Plus(c), head, tokens, fuel) != PlusAsWritten(p, rule, c, head, tokens, fuel) ==>
      && PlusAsWritten(p, rule, c, head, tokens, fuel) == NoMatch
      && Dispatch(p, rule, Plus(c), head, tokens, fuel).Matched?
      && |Dispatch(p, rule, Plus(c), head, tokens, fuel).nodes| <= 1
  {
    assert Ids(Plus(c)) == [c];
    var o := Dispatch(p, rule, Plus(c), head, tokens, fuel);
    assert o == ParseStar(p, rule, c, true, head, PLACEHOLDER, tokens, fuel);
    var star := ParseStar(p, rule, c, false, head, PLACEHOLDER, tokens, fuel);
    if fuel > 0 {
      match ParseBlock(p, rule, c, head, tokens, fuel)
      case NoMatch =>
        assert star == Matched(head, PLACEHOLDER);
      case Matched(_, _) =>
        assert o == star;
      case Failed(_) =>
      case OutOfFuel =>
    }
  }

  /** meta_parse_discard: the child must match; its tree is dropped for a placeholder. */
  function ParseDiscard(p: Parser, rule: RuleData, c: nat, head: nat, tokens: seq<Token>, fuel: nat): (r: Outcome)
    requires RulesFit(p) && Fits(rule) && c < |rule.blocks|
    ensures r.Matched? <==> ParseBlock(p, rule, c, head, tokens, fuel).Matched?
    ensures r.Matched? ==> r == Matched(ParseBlock(p, rule, c, head, tokens, fuel).head, PLACEHOLDER)
    ensures !r.Matched? ==> r == ParseBlock(p, rule, c, head, tokens, fuel)
    decreases fuel, 1
  {
    match ParseBlock(p, rule, c, head, tokens, fuel)
    case Matched(h, _) => Matched(h, PLACEHOLDER)
    case o => o
  }

  /** meta_parse_token: a match exactly when the token at `head` has the lexeme; it consumes that one token. */
  function ParseToken(lexeme: Lexeme, head: nat, tokens: seq<Token>): (r: Outcome)
    ensures r.Matched? <==> head < |tokens| && tokens[head].lexeme == lexeme
    ensures !r.Matched? ==> r == NoMatch
    ensures r.Matched? ==>
      && r.head == head + 1 && |r.nodes| == 2 && r.nodes[1] == TokenNode(head)
      && r.nodes[0].symbol == Placeholder && r.nodes[0].children == [1]
  {
    if Recognize(lexeme, head, tokens) then Matched(head + 1, EggAst.Attach(PLACEHOLDER, TokenNode(head)).value)
    else NoMatch
  }

  /**
   * parse: the entry rule is matched from token 0, and the program is
   * accepted only when the match ends exactly at the last token.
   */
  function Parse(p: Parser, tokens: seq<Token>, fuel: nat): (r: Run)
    requires RulesFit(p)
    ensures p.entry !in p.rules ==> r == Done(Failure(ParserTriedToBuildSymbolWithNoRule(p.entry)))
    ensures p.entry in p.rules ==> var o := ParseRule(p, p.entry, p.rules[p.entry], 0, tokens, fuel);
      && (r.Done? && r.result.Success? <==> o.Matched? && o.head == |tokens|)
      && (r.Done? && r.result.Success? ==> r.result.value == o.nodes)
      && (o.Matched? && o.head < |tokens| ==> r == Done(Failure(ParserUnexpectedToken(tokens[o.head]))))
      && (o == NoMatch ==> r == Done(Failure(ParserCouldNotParseProgram)))
      && (r == Exhausted <==> o == OutOfFuel)
  {
    if p.entry !in p.rules then Done(Failure(ParserTriedToBuildSymbolWithNoRule(p.entry)))
    else
      match ParseRule(p, p.entry, p.rules[p.entry], 0, tokens, fuel)
      case Matched(h, t) =>
        if h == |tokens| then Done(Success(t))
        else if h < |tokens| then Done(Failure(ParserUnexpectedToken(tokens[h])))
        else Done(Failure(ParserHeadPastLastToken))
      case NoMatch => Done(Failure(ParserCouldNotParseProgram))
      case Failed(e) => Done(Failure(e))
      case OutOfFuel => Exhausted
  }

  // ---------------------------------------------------------------------
  // What every answer looks like.

  /**
   * The only errors the combinators raise: a symbol with no rule, or, when
   * the placeholder symbol itself has a rule, hang_child refusing the tree
   * that rule names after the placeholder.
   */
  ghost predicate Expected(p: Parser, e: Error)
  {
    || (e.ParserTriedToBuildSymbolWithNoRule? && e.symbol !in p.rules)
    || (e == AstError(EggAst.ParserReceivedPlaceholder) && Placeholder in p.rules)
  }

  /**
   * A match moves the head forward, and past a token only while there is
   * one; its tree is a tree whose root has the symbol `root`. A failure is
   * an expected error.
   */
  ghost predicate Sound(p: Parser, o: Outcome, head: nat, n: nat, root: Symbol)
  {
    && (o.Matched? ==> head <= o.head <= Max(head, n) && EggAst.IsTree(o.nodes) && o.nodes[0].symbol == root)
    && (o.Failed? ==> Expected(p, o.error))
  }

  lemma {:induction false} PlaceholderTree()
    ensures EggAst.IsTree(PLACEHOLDER) && PLACEHOLDER[0].symbol == Placeholder && PLACEHOLDER[0].children == []
  {
  }

  /** Renaming the root keeps a tree a tree. */
  lemma {:induction false} RenamedTree(t: seq<EggAst.AstNode>, s: Symbol)
    requires EggAst.IsTree(t)
    ensures EggAst.IsTree(t[0 := t[0].(symbol := s)])
  {
    var u := t[0 := t[0].(symbol := s)];
    assert forall i :: 0 <= i < |u| ==> u[i].children == t[i].children;
  }

  lemma {:induction false} BlockSound(p: Parser, rule: RuleData, id: nat, head: nat, tokens: seq<Token>, fuel: nat)
    requires RulesFit(p) && Fits(rule) && id < |rule.blocks|
    ensures Sound(p, ParseBlock(p, rule, id, head, tokens, fuel), head, |tokens|, Placeholder)
    decreases fuel, 0
  {
    if fuel > 0 {
      assert Inside(rule, Ids(rule.blocks[id]));
      DispatchSound(p, rule, rule.blocks[id], head, tokens, fuel - 1);
    }
  }

  lemma {:induction false} DispatchSound(p: Parser, rule: RuleData, b: Block, head: nat, tokens: seq<Token>, fuel: nat)
    requires RulesFit(p) && Fits(rule) && Inside(rule, Ids(b))
    ensures Sound(p, Dispatch(p, rule, b, head, tokens, fuel), head, |tokens|, Placeholder)
    decreases fuel, |Ids(b)| + 3
  {
    match b
    case Sym(s) => SymbolSound(p, s, head, tokens, fuel);
    case Tok(l) => TokenSound(p, l, head, tokens);
    case Sequence(c) => PlaceholderTree(); SequenceSound(p, rule, c, 0, head, PLACEHOLDER, tokens, fuel);
    case Any(c) => AnySound(p, rule, c, 0, head, tokens, fuel);
    case Maybe(c) => assert Ids(b)[0] == c; MaybeSound(p, rule, c, head, tokens, fuel);
    case Star(c) => assert Ids(b)[0] == c; PlaceholderTree(); StarSound(p, rule, c, false, head, PLACEHOLDER, tokens, fuel);
    case Plus(c) => assert Ids(b)[0] == c; PlaceholderTree(); StarSound(p, rule, c, true, head, PLACEHOLDER, tokens, fuel);
    case Discard(c) => assert Ids(b)[0] == c; DiscardSound(p, rule, c, head, tokens, fuel);
  }

  lemma {:induction false} RuleSound(p: Parser, target: Symbol, rule: RuleData, head: nat, tokens: seq<Token>, fuel: nat)
    requires RulesFit(p) && Fits(rule)
    ensures Sound(p, ParseRule(p, target, rule, head, tokens, fuel), head, |tokens|, target)
    decreases fuel, 1
  {
    BlockSound(p, rule, rule.root, head, tokens, fuel);
    var o := ParseBlock(p, rule, rule.root, head, tokens, fuel);
    if o.Matched? {
      RenamedTree(o.nodes, target);
    }
  }

  lemma {:induction false} SymbolSound(p: Parser, s: Symbol, head: nat, tokens: seq<Token>, fuel: nat)
    requires RulesFit(p)
    ensures Sound(p, ParseSymbol(p, s, head, tokens, fuel), head, |tokens|, Placeholder)
    decreases fuel, 2
  {
    if s in p.rules {
      RuleSound(p, s, p.rules[s], head, tokens, fuel);
      var o := ParseRule(p, s, p.rules[s], head, tokens, fuel);
      if o.Matched? && s != Placeholder {
        PlaceholderTree();
        EggAst.HangKeepsTree(PLACEHOLDER, o.nodes);
      }
    }
  }

  lemma {:induction false} TokenSound(p: Parser, l: Lexeme, head: nat, tokens: seq<Token>)
    ensures Sound(p, ParseToken(l, head, tokens), head, |tokens|, Placeholder)
  {
    if Recognize(l, head, tokens) {
      PlaceholderTree();
      EggAst.AttachKeepsTree(PLACEHOLDER, TokenNode(head));
    }
  }

  lemma {:induction false} SequenceSound(p: Parser, rule: RuleData, c: seq<nat>, k: nat, head: nat, nodes: seq<EggAst.AstNode>, tokens: seq<Token>, fuel: nat)
    requires RulesFit(p) && Fits(rule) && Inside(rule, c) && k <= |c| && EggAst.IsTree(nodes) && nodes[0].symbol == Placeholder
    ensures Sound(p, ParseSequence(p, rule, c, k, head, nodes, tokens, fuel), head, |tokens|, Placeholder)
    decreases fuel, |c| - k + 1
  {
    if k < |c| {
      BlockSound(p, rule, c[k], head, tokens, fuel);
      var o := ParseBlock(p, rule, c[k], head, tokens, fuel);
      if o.Matched? {
        EggAst.SpliceKeepsTree(nodes, o.nodes);
        var spliced := EggAst.Splice(nodes, o.nodes).value;
        SequenceSound(p, rule, c, k + 1, o.head, spliced, tokens, fuel);
      }
    }
  }

  lemma {:induction false} AnySound(p: Parser, rule: RuleData, c: seq<nat>, k: nat, head: nat, tokens: seq<Token>, fuel: nat)
    requires RulesFit(p) && Fits(rule) && Inside(rule, c) && k <= |c|
    ensures Sound(p, ParseAny(p, rule, c, k, head, tokens, fuel), head, |tokens|, Placeholder)
    decreases fuel, |c| - k + 1
  {
    if k < |c| {
      BlockSound(p, rule, c[k], head, tokens, fuel);
      if ParseBlock(p, rule, c[k], head, tokens, fuel) == NoMatch {
        AnySound(p, rule, c, k + 1, head, tokens, fuel);
      }
    }
  }

  lemma {:induction false} MaybeSound(p: Parser, rule: RuleData, c: nat, head: nat, tokens: seq<Token>, fuel: nat)
    requires RulesFit(p) && Fits(rule) && c < |rule.blocks|
    ensures Sound(p, ParseMaybe(p, rule, c, head, tokens, fuel), head, |tokens|, Placeholder)
    decreases fuel, 1
  {
    BlockSound(p, rule, c, head, tokens, fuel);
    PlaceholderTree();
  }

  lemma {:induction false} DiscardSound(p: Parser, rule: RuleData, c: nat, head: nat, tokens: seq<Token>, fuel: nat)
    requires RulesFit(p) && Fits(rule) && c < |rule.blocks|
    ensures Sound(p, ParseDiscard(p, rule, c, head, tokens, fuel), head, |tokens|, Placeholder)
    decreases fuel, 1
  {
    BlockSound(p, rule, c, head, tokens, fuel);
    PlaceholderTree();
  }

  lemma {:induction false} StarSound(p: Parser, rule: RuleData, c: nat, need: bool, head: nat, nodes: seq<EggAst.AstNode>, tokens: seq<Token>, fuel: nat)
    requires RulesFit(p) && Fits(rule) && c < |rule.blocks| && EggAst.IsTree(nodes) && nodes[0].symbol == Placeholder
    ensures Sound(p, ParseStar(p, rule, c, need, head, nodes, tokens, fuel), head, |tokens|, Placeholder)
    decreases fuel, 1
  {
    if fuel > 0 {
      BlockSound(p, rule, c, head, tokens, fuel);
      var o := ParseBlock(p, rule, c, head, tokens, fuel);
      if o.Matched? {
        EggAst.SpliceKeepsTree(nodes, o.nodes);
        var spliced := EggAst.Splice(nodes, o.nodes).value;
        StarSound(p, rule, c, false, o.head, spliced, tokens, fuel - 1);
      }
    }
  }

  // ---------------------------------------------------------------------
  // Fuel is only a bound: an answer found with some fuel is the answer with any more.

  lemma {:induction false} FuelBlock(p: Parser, rule: RuleData, id: nat, head: nat, tokens: seq<Token>, f: nat, g: nat)
    requires RulesFit(p) && Fits(rule) && id < |rule.blocks| && f <= g
    requires ParseBlock(p, rule, id, head, tokens, f) != OutOfFuel
    ensures ParseBlock(p, rule, id, head, tokens, g) == ParseBlock(p, rule, id, head, tokens, f)
    decreases f, 0
  {
    assert Inside(rule, Ids(rule.blocks[id]));
    FuelDispatch(p, rule, rule.blocks[id], head, tokens, f - 1, g - 1);
  }

  lemma {:induction false} FuelDispatch(p: Parser, rule: RuleData, b: Block, head: nat, tokens: seq<Token>, f: nat, g: nat)
    requires RulesFit(p) && Fits(rule) && Inside(rule, Ids(b)) && f <= g
    requires Dispatch(p, rule, b, head, tokens, f) != OutOfFuel
    ensures Dispatch(p, rule, b, head, tokens, g) == Dispatch(p, rule, b, head, tokens, f)
    decreases f, |Ids(b)| + 3
  {
    match b
    case Sym(s) => FuelSymbol(p, s, head, tokens, f, g);
    case Tok(l) =>
    case Sequence(c) => FuelSequence(p, rule, c, 0, head, PLACEHOLDER, tokens, f, g);
    case Any(c) => FuelAny(p, rule, c, 0, head, tokens, f, g);
    case Maybe(c) => assert Ids(b)[0] == c; FuelMaybe(p, rule, c, head, tokens, f, g);
    case Star(c) => assert Ids(b)[0] == c; FuelStar(p, rule, c, false, head, PLACEHOLDER, tokens, f, g);
    case Plus(c) => assert Ids(b)[0] == c; FuelStar(p, rule, c, true, head, PLACEHOLDER, tokens, f, g);
    case Discard(c) => assert Ids(b)[0] == c; FuelDiscard(p, rule, c, head, tokens, f, g);
  }

  lemma {:induction false} FuelRule(p: Parser, target: Symbol, rule: RuleData, head: nat, tokens: seq<Token>, f: nat, g: nat)
    requires RulesFit(p) && Fits(rule) && f <= g
    requires ParseRule(p, target, rule, head, tokens, f) != OutOfFuel
    ensures ParseRule(p, target, rule, head, tokens, g) == ParseRule(p, target, rule, head, tokens, f)
    decreases f, 1
  {
    FuelBlock(p, rule, rule.root, head, tokens, f, g);
  }

  lemma {:induction false} FuelSymbol(p: Parser, s: Symbol, head: nat, tokens: seq<Token>, f: nat, g: nat)
    requires RulesFit(p) && f <= g
    requires ParseSymbol(p, s, head, tokens, f) != OutOfFuel
    ensures ParseSymbol(p, s, head, tokens, g) == ParseSymbol(p, s, head, tokens, f)
    decreases f, 2
  {
    if s in p.rules {
      FuelRule(p, s, p.rules[s], head, tokens, f, g);
    }
  }

  lemma {:induction false} FuelSequence(p: Parser, rule: RuleData, c: seq<nat>, k: nat, head: nat, nodes: seq<EggAst.AstNode>, tokens: seq<Token>, f: nat, g: nat)
    requires RulesFit(p) && Fits(rule) && Inside(rule, c) && k <= |c| && |nodes| > 0 && f <= g
    requires ParseSequence(p, rule, c, k, head, nodes, tokens, f) != OutOfFuel
    ensures ParseSequence(p, rule, c, k, head, nodes, tokens, g) == ParseSequence(p, rule, c, k, head, nodes, tokens, f)
    decreases f, |c| - k + 1
  {
    if k < |c| {
      FuelBlock(p, rule, c[k], head, tokens, f, g);
      var o := ParseBlock(p, rule, c[k], head, tokens, f);
      if o.Matched? && EggAst.Splice(nodes, o.nodes).Success? {
        FuelSequence(p, rule, c, k + 1, o.head, EggAst.Splice(nodes, o.nodes).value, tokens, f, g);
      }
    }
  }

  lemma {:induction false} FuelAny(p: Parser, rule: RuleData, c: seq<nat>, k: nat, head: nat, tokens: seq<Token>, f: nat, g: nat)
    requires RulesFit(p) && Fits(rule) && Inside(rule, c) && k <= |c| && f <= g
    requires ParseAny(p, rule, c, k, head, tokens, f) != OutOfFuel
    ensures ParseAny(p, rule, c, k, head, tokens, g) == ParseAny(p, rule, c, k, head, tokens, f)
    decreases f, |c| - k + 1
  {
    if k < |c| {
      FuelBlock(p, rule, c[k], head, tokens, f, g);
      if ParseBlock(p, rule, c[k], head, tokens, f) == NoMatch {
        FuelAny(p, rule, c, k + 1, head, tokens, f, g);
      }
    }
  }

  lemma {:induction false} FuelMaybe(p: Parser, rule: RuleData, c: nat, head: nat, tokens: seq<Token>, f: nat, g: nat)
    requires RulesFit(p) && Fits(rule) && c < |rule.blocks| && f <= g
    requires ParseMaybe(p, rule, c, head, tokens, f) != OutOfFuel
    ensures ParseMaybe(p, rule, c, head, tokens, g) == ParseMaybe(p, rule, c, head, tokens, f)
    decreases f, 1
  {
    FuelBlock(p, rule, c, head, tokens, f, g);
  }

  lemma {:induction false} FuelDiscard(p: Parser, rule: RuleData, c: nat, head: nat, tokens: seq<Token>, f: nat, g: nat)
    requires RulesFit(p) && Fits(rule) && c < |rule.blocks| && f <= g
    requires ParseDiscard(p, rule, c, head, tokens, f) != OutOfFuel
    ensures ParseDiscard(p, rule, c, head, tokens, g) == ParseDiscard(p, rule, c, head, tokens, f)
    decreases f, 1
  {
    FuelBlock(p, rule, c, head, tokens, f, g);
  }

  lemma {:induction false} FuelStar(p: Parser, rule: RuleData, c: nat, need: bool, head: nat, nodes: seq<EggAst.AstNode>, tokens: seq<Token>, f: nat, g: nat)
    requires RulesFit(p) && Fits(rule) && c < |rule.blocks| && |nodes| > 0 && f <= g
    requires ParseStar(p, rule, c, need, head, nodes, tokens, f) != OutOfFuel
    ensures ParseStar(p, rule, c, need, head, nodes, tokens, g) == ParseStar(p, rule, c, need, head, nodes, tokens, f)
    decreases f, 1
  {
    FuelBlock(p, rule, c, head, tokens, f, g);
    var o := ParseBlock(p, rule, c, head, tokens, f);
    if o.Matched? && EggAst.Splice(nodes, o.nodes).Success? {
      FuelStar(p, rule, c, false, o.head, EggAst.Splice(nodes, o.nodes).value, tokens, f - 1, g - 1);
    }
  }

  // ---------------------------------------------------------------------
  // What the combinators promise.

  /**
   * parse never reports a head past the last token, accepts a tree rooted
   * at the entry symbol, and otherwise fails with a token it stopped at,
   * with "could not parse", or with an expected error.
   */
  lemma {:induction false} ParseOutcomes(p: Parser, tokens: seq<Token>, fuel: nat)
    requires RulesFit(p)
    ensures Parse(p, tokens, fuel) != Done(Failure(ParserHeadPastLastToken))
    ensures var r := Parse(p, tokens, fuel);
      r.Done? && r.result.Success? ==> EggAst.IsTree(r.result.value) && r.result.value[0].symbol == p.entry
    ensures var r := Parse(p, tokens, fuel);
      r.Done? && r.result.Failure? ==>
        || r.result.error == ParserCouldNotParseProgram
        || (r.result.error.ParserUnexpectedToken? && r.result.error.token in tokens)
        || Expected(p, r.result.error)
  {
    if p.entry in p.rules {
      RuleSound(p, p.entry, p.rules[p.entry], 0, tokens, fuel);
    }
  }

  /** Any answers with its first option that does not give NoMatch; the options before it all gave NoMatch. */
  lemma {:induction false} AnyFirst(p: Parser, rule: RuleData, c: seq<nat>, k: nat, head: nat, tokens: seq<Token>, fuel: nat) returns (i: nat)
    requires RulesFit(p) && Fits(rule) && Inside(rule, c) && k <= |c|
    requires ParseAny(p, rule, c, k, head, tokens, fuel) != NoMatch
    ensures k <= i < |c| && ParseAny(p, rule, c, k, head, tokens, fuel) == ParseBlock(p, rule, c[i], head, tokens, fuel)
    ensures forall j :: k <= j < i ==> ParseBlock(p, rule, c[j], head, tokens, fuel) == NoMatch
    decreases |c| - k
  {
    if ParseBlock(p, rule, c[k], head, tokens, fuel) == NoMatch {
      i := AnyFirst(p, rule, c, k + 1, head, tokens, fuel);
    } else {
      i := k;
    }
  }

  /** Any gives NoMatch exactly when every option does. */
  lemma {:induction false} AnyNone(p: Parser, rule: RuleData, c: seq<nat>, k: nat, head: nat, tokens: seq<Token>, fuel: nat)
    requires RulesFit(p) && Fits(rule) && Inside(rule, c) && k <= |c|
    ensures ParseAny(p, rule, c, k, head, tokens, fuel) == NoMatch
      <==> forall j :: k <= j < |c| ==> ParseBlock(p, rule, c[j], head, tokens, fuel) == NoMatch
    decreases |c| - k
  {
    if k < |c| {
      AnyNone(p, rule, c, k + 1, head, tokens, fuel);
    }
  }

  /** The children `c[k..k + |hs| - 1]` matched one after another, each from where the previous one stopped. */
  ghost predicate Chain(p: Parser, rule: RuleData, c: seq<nat>, k: nat, hs: seq<nat>, tokens: seq<Token>, fuel: nat)
    requires RulesFit(p) && Fits(rule) && Inside(rule, c) && k + |hs| <= |c| + 1
  {
    forall i :: 0 <= i < |hs| - 1 ==>
      ParseBlock(p, rule, c[k + i], hs[i], tokens, fuel).Matched? && ParseBlock(p, rule, c[k + i], hs[i], tokens, fuel).head == hs[i + 1]
  }

  /** A child that matched from `head` up to where the chain after it starts extends the chain by one. */
  lemma {:induction false} ChainCons(p: Parser, rule: RuleData, c: seq<nat>, k: nat, head: nat, rest: seq<nat>, tokens: seq<Token>, fuel: nat)
    requires RulesFit(p) && Fits(rule) && Inside(rule, c) && k < |c| && k + 1 + |rest| <= |c| + 1 && rest != []
    requires ParseBlock(p, rule, c[k], head, tokens, fuel).Matched? && ParseBlock(p, rule, c[k], head, tokens, fuel).head == rest[0]
    requires Chain(p, rule, c, k + 1, rest, tokens, fuel)
    ensures Chain(p, rule, c, k, [head] + rest, tokens, fuel)
  {
    var hs := [head] + rest;
    forall i | 0 <= i < |hs| - 1
      ensures ParseBlock(p, rule, c[k + i], hs[i], tokens, fuel).Matched? && ParseBlock(p, rule, c[k + i], hs[i], tokens, fuel).head == hs[i + 1]
    {
      if i > 0 {
        assert hs[i] == rest[i - 1] && hs[i + 1] == rest[i] && c[k + i] == c[(k + 1) + (i - 1)];
      }
    }
  }

  /** A sequence matches only when all its children match in turn; it stops where the last one stopped. */
  lemma {:induction false} SequenceMatched(p: Parser, rule: RuleData, c: seq<nat>, k: nat, head: nat, nodes: seq<EggAst.AstNode>, tokens: seq<Token>, fuel: nat) returns (hs: seq<nat>)
    requires RulesFit(p) && Fits(rule) && Inside(rule, c) && k <= |c| && |nodes| > 0
    requires ParseSequence(p, rule, c, k, head, nodes, tokens, fuel).Matched?
    ensures |hs| == |c| - k + 1 && hs[0] == head && hs[|hs| - 1] == ParseSequence(p, rule, c, k, head, nodes, tokens, fuel).head
    ensures Chain(p, rule, c, k, hs, tokens, fuel)
    decreases |c| - k
  {
    if k == |c| {
      hs := [head];
    } else {
      var o := ParseBlock(p, rule, c[k], head, tokens, fuel);
      var spliced := EggAst.Splice(nodes, o.nodes).value;
      var rest := SequenceMatched(p, rule, c, k + 1, o.head, spliced, tokens, fuel);
      hs := [head] + rest;
      ChainCons(p, rule, c, k, head, rest, tokens, fuel);
    }
  }

  /** A sequence gives NoMatch only when, after its first children matched in turn, the next one gave NoMatch. */
  lemma {:induction false} SequenceNoMatch(p: Parser, rule: RuleData, c: seq<nat>, k: nat, head: nat, nodes: seq<EggAst.AstNode>, tokens: seq<Token>, fuel: nat) returns (hs: seq<nat>)
    requires RulesFit(p) && Fits(rule) && Inside(rule, c) && k <= |c| && |nodes| > 0
    requires ParseSequence(p, rule, c, k, head, nodes, tokens, fuel) == NoMatch
    ensures 1 <= |hs| && k + |hs| <= |c| && hs[0] == head && Chain(p, rule, c, k, hs, tokens, fuel)
    ensures ParseBlock(p, rule, c[k + |hs| - 1], hs[|hs| - 1], tokens, fuel) == NoMatch
    decreases |c| - k
  {
    var o := ParseBlock(p, rule, c[k], head, tokens, fuel);
    if o == NoMatch {
      hs := [head];
    } else {
      var spliced := EggAst.Splice(nodes, o.nodes).value;
      var rest := SequenceNoMatch(p, rule, c, k + 1, o.head, spliced, tokens, fuel);
      hs := [head] + rest;
      assert c[k + |hs| - 1] == c[(k + 1) + |rest| - 1];
      ChainCons(p, rule, c, k, head, rest, tokens, fuel);
    }
  }

  /** Star is greedy: it stops only where its child, given the same fuel, gives NoMatch. */
  lemma {:induction false} StarStops(p: Parser, rule: RuleData, c: nat, need: bool, head: nat, nodes: seq<EggAst.AstNode>, tokens: seq<Token>, fuel: nat)
    requires RulesFit(p) && Fits(rule) && c < |rule.blocks| && |nodes| > 0
    requires ParseStar(p, rule, c, need, head, nodes, tokens, fuel).Matched?
    ensures ParseBlock(p, rule, c, ParseStar(p, rule, c, need, head, nodes, tokens, fuel).head, tokens, fuel) == NoMatch
    decreases fuel
  {
    var o := ParseBlock(p, rule, c, head, tokens, fuel);
    if o.Matched? {
      var spliced := EggAst.Splice(nodes, o.nodes).value;
      var r := ParseStar(p, rule, c, false, o.head, spliced, tokens, fuel - 1);
      StarStops(p, rule, c, false, o.head, spliced, tokens, fuel - 1);
      FuelBlock(p, rule, c, r.head, tokens, fuel - 1, fuel);
    }
  }

  // ---------------------------------------------------------------------
  // The loops of meta_parse_sequence, meta_parse_any and meta_parse_star.

  /** meta_parse_sequence: the for loop over the children, returning at the first child that does not match. */
  method RunSequence(p: Parser, rule: RuleData, c: seq<nat>, head: nat, tokens: seq<Token>, fuel: nat) returns (r: Outcome)
    requires RulesFit(p) && Fits(rule) && Inside(rule, c)
    ensures r == ParseSequence(p, rule, c, 0, head, PLACEHOLDER, tokens, fuel)
  {
    var newHead, ast, k := head, PLACEHOLDER, 0;
    while k < |c|
      invariant k <= |c| && |ast| > 0
      invariant ParseSequence(p, rule, c, k, newHead, ast, tokens, fuel) == ParseSequence(p, rule, c, 0, head, PLACEHOLDER, tokens, fuel)
      decreases |c| - k
    {
      var o := ParseBlock(p, rule, c[k], newHead, tokens, fuel);
      if !o.Matched? {
        return o;
      }
      var spliced := EggAst.Splice(ast, o.nodes);
      if spliced.Failure? {
        return Failed(AstError(spliced.error));
      }
      newHead, ast, k := o.head, spliced.value, k + 1;
    }
    return Matched(newHead, ast);
  }

  /** meta_parse_any: the for loop over the options, returning the first answer that is not NoMatch. */
  method RunAny(p: Parser, rule: RuleData, c: seq<nat>, head: nat, tokens: seq<Token>, fuel: nat) returns (r: Outcome)
    requires RulesFit(p) && Fits(rule) && Inside(rule, c)
    ensures r == ParseAny(p, rule, c, 0, head, tokens, fuel)
  {
    var k := 0;
    while k < |c|
      invariant k <= |c|
      invariant ParseAny(p, rule, c, k, head, tokens, fuel) == ParseAny(p, rule, c, 0, head, tokens, fuel)
      decreases |c| - k
    {
      var o := ParseBlock(p, rule, c[k], head, tokens, fuel);
      if o != NoMatch {
        return o;
      }
      k := k + 1;
    }
    return NoMatch;
  }

  /**
   * meta_parse_star: the while-let loop, splicing each match of the child
   * into the tree until the child gives NoMatch. Each round costs one step
   * of fuel.
   */
  method RunStar(p: Parser, rule: RuleData, c: nat, head: nat, tokens: seq<Token>, fuel: nat) returns (r: Outcome)
    requires RulesFit(p) && Fits(rule) && c < |rule.blocks|
    ensures r == ParseStar(p, rule, c, false, head, PLACEHOLDER, tokens, fuel)
  {
    var newHead, ast, steps := head, PLACEHOLDER, fuel;
    while steps > 0
      invariant |ast| > 0
      invariant ParseStar(p, rule, c, false, newHead, ast, tokens, steps) == ParseStar(p, rule, c, false, head, PLACEHOLDER, tokens, fuel)
      decreases steps
    {
      var o := ParseBlock(p, rule, c, newHead, tokens, steps);
      if o == NoMatch {
        return Matched(newHead, ast);
      }
      if !o.Matched? {
        return o;
      }
      var spliced := EggAst.Splice(ast, o.nodes);
      if spliced.Failure? {
        return Failed(AstError(spliced.error));
      }
      newHead, ast, steps := o.head, spliced.value, steps - 1;
    }
    return OutOfFuel;
  }

  // ---------------------------------------------------------------------
  // meta_parse_plus counts nodes, not matches.

  /** A parser with no rules, for rules that name no symbol. */
  const NO_RULES := Parser(map[], Program)

  /** Rule::from_tok(LineEnd).discard().plus(): one or more line ends, each dropped from the tree. */
  const DISCARD_PLUS := RuleData([Tok(LineEnd), Discard(0), Plus(1)], 2)

  /** A single line-end token. */
  const ONE_LINE_END := [Token(LineEnd, SourceFile.Span(0, 0, 0))]

  /**
   * As written, Plus over a Discard rejects a line end that its Star
   * matched, because the Star's tree still has only its placeholder; the
   * corrected Plus, which asks for one match of the child, accepts it.
   */
  lemma {:induction false} PlusAsWrittenMissesDiscard()
    ensures PlusAsWritten(NO_RULES, DISCARD_PLUS, 1, 0, ONE_LINE_END, 3) == NoMatch
    ensures ParseBlock(NO_RULES, DISCARD_PLUS, 2, 0, ONE_LINE_END, 4) == Matched(1, PLACEHOLDER)
  {
    var p, rule, toks := NO_RULES, DISCARD_PLUS, ONE_LINE_END;
    assert Fits(rule) by {
      assert Ids(rule.blocks[1]) == [0] && Ids(rule.blocks[2]) == [1];
    }
    assert ParseBlock(p, rule, 0, 0, toks, 2).Matched? && ParseBlock(p, rule, 0, 0, toks, 2).head == 1;
    assert ParseBlock(p, rule, 1, 0, toks, 3) == Matched(1, PLACEHOLDER);
    assert EggAst.Splice(PLACEHOLDER, PLACEHOLDER) == Success(PLACEHOLDER) by {
      assert EggAst.Shift([], 0) == [];
      assert PLACEHOLDER[0].children + [] == [];
      assert PLACEHOLDER[1..] == [];
      assert EggAst.Offset([], 0) == [];
      assert EggAst.Adopt(PLACEHOLDER, []) == PLACEHOLDER;
      assert PLACEHOLDER + [] == PLACEHOLDER;
    }
    assert ParseBlock(p, rule, 0, 1, toks, 1) == NoMatch;
    assert ParseBlock(p, rule, 1, 1, toks, 2) == NoMatch;
    assert ParseStar(p, rule, 1, false, 1, PLACEHOLDER, toks, 2) == Matched(1, PLACEHOLDER);
    assert ParseStar(p, rule, 1, false, 0, PLACEHOLDER, toks, 3) == Matched(1, PLACEHOLDER);
    assert ParseStar(p, rule, 1, true, 0, PLACEHOLDER, toks, 3) == Matched(1, PLACEHOLDER);
  }
}
