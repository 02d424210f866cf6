/**
 * The grammar of the shell front end (crates/egg-parser/src/parser.rs):
 * one rule per symbol, each built with the Rule builders, and a parser
 * whose entry symbol is Program.
 */
module ShellParser {
  import opened Wrappers
  import opened Grammar
  import opened MetaParseRule
  import opened MetaParse
  import SourceFile

  /** program := exec_chain* */
  const PROGRAM := RuleData([Sym(ExecChain), Star(0)], 1)

  /** The alternatives after an exec: a pipe, a redirect, or line ends that are matched and dropped. */
  const CONTINUATION := RuleData([Sym(PipeExec), Sym(RedirectExec), Any([0, 1, 5]), Tok(LineEnd), Plus(3), Discard(4)], 2)

  /** exec_chain := exec (pipe_exec | redirect_exec | LineEnd+ dropped) */
  const EXEC_CHAIN := RuleData([Sym(Exec), Sym(PipeExec), Sym(RedirectExec), Any([1, 2, 6]), Tok(LineEnd), Plus(4), Discard(5), Sequence([0, 3])], 7)

  /** exec := LITERAL+ */
  const EXEC := RuleData([Tok(Literal), Plus(0)], 1)

  /** pipe_exec := PIPE exec_chain */
  const PIPE_EXEC := RuleData([Tok(Pipe), Sym(ExecChain), Sequence([0, 1])], 2)

  /** redirect_exec := (REDIRECT | REDIRECT_APPEND) redirect_target */
  const REDIRECT_EXEC := RuleData([Tok(Redirect), Tok(RedirectAppend), Any([0, 1]), Sym(RedirectTarget), Sequence([2, 3])], 4)

  /** redirect_target := LITERAL (pipe_exec | redirect_exec | LineEnd+ dropped) */
  const REDIRECT_TARGET := RuleData([Tok(Literal), Sym(PipeExec), Sym(RedirectExec), Any([1, 2, 6]), Tok(LineEnd), Plus(4), Discard(5), Sequence([0, 3])], 7)

  const RULES := map[
    Program := PROGRAM, ExecChain := EXEC_CHAIN, Exec := EXEC, PipeExec := PIPE_EXEC,
    RedirectExec := REDIRECT_EXEC, RedirectTarget := REDIRECT_TARGET]

  /** program(). */
  method ProgramRule() returns (r: Rule)
    ensures fresh(r) && r.Valid() && r.Data() == PROGRAM
  {
    r := new Rule.From(Sym(ExecChain));
    r.Star();
  }

  /** from_sym(PipeExec).or_sym(RedirectExec). */
  const PIPE_OR_REDIRECT := RuleData([Sym(PipeExec), Sym(RedirectExec), Any([0, 1])], 2)

  /** from_tok(LineEnd).plus().discard(). */
  const LINE_ENDS := RuleData([Tok(LineEnd), Plus(0), Discard(1)], 2)

  lemma {:induction false} PipeOrRedirectIs()
    ensures Extended(AnyOf, Single(Sym(PipeExec)), [Sym(RedirectExec)]) == PIPE_OR_REDIRECT
  {
    assert [Sym(PipeExec)] + [Sym(RedirectExec)] + [Any([0, 1])] == PIPE_OR_REDIRECT.blocks;
  }

  lemma {:induction false} ContinuationIs()
    ensures Joined(AnyOf, PIPE_OR_REDIRECT, LINE_ENDS) == CONTINUATION
  {
    var inc := IncrementAll(LINE_ENDS.blocks, 3);
    assert inc[0] == Tok(LineEnd) && inc[1] == Plus(3) && inc[2] == Discard(4);
    assert inc == [Tok(LineEnd), Plus(3), Discard(4)];
    var blocks := PIPE_OR_REDIRECT.blocks + inc;
    assert blocks == [Sym(PipeExec), Sym(RedirectExec), Any([0, 1]), Tok(LineEnd), Plus(3), Discard(4)];
    assert Ids(blocks[2]) + [5] == [0, 1, 5];
    assert blocks[2 := Any([0, 1, 5])] == CONTINUATION.blocks;
  }

  /** The continuation's blocks moved up by one, as `then` appends them after a single block. */
  const SHIFTED_CONTINUATION := [Sym(PipeExec), Sym(RedirectExec), Any([1, 2, 6]), Tok(LineEnd), Plus(4), Discard(5)]

  lemma {:induction false} ContinuationShifted()
    ensures IncrementAll(CONTINUATION.blocks, 1) == SHIFTED_CONTINUATION
  {
    var inc := IncrementAll(CONTINUATION.blocks, 1);
    assert inc[0] == Sym(PipeExec) && inc[1] == Sym(RedirectExec) && inc[3] == Tok(LineEnd) && inc[4] == Plus(4) && inc[5] == Discard(5);
    assert inc[2] == Any([1, 2, 6]) by {
      assert EggAst.Shift([0, 1, 5], 1) == [1, 2, 6];
    }
  }

  /** from_sym(x).then(CONTINUATION) and from_tok(x).then(CONTINUATION). */
  lemma {:induction false} ThenContinuationIs(b: Block)
    requires IsLeaf(b)
    ensures Joined(SequenceOf, Single(b), CONTINUATION)
      == RuleData([b, Sym(PipeExec), Sym(RedirectExec), Any([1, 2, 6]), Tok(LineEnd), Plus(4), Discard(5), Sequence([0, 3])], 7)
  {
    ContinuationShifted();
    var blocks := [b] + SHIFTED_CONTINUATION;
    assert blocks[0] == b && blocks[3] == Any([1, 2, 6]) && |blocks| == 7;
    assert blocks + [Sequence([0, 3])] == [b, Sym(PipeExec), Sym(RedirectExec), Any([1, 2, 6]), Tok(LineEnd), Plus(4), Discard(5), Sequence([0, 3])];
  }

  /** The argument of `then` in exec_chain() and redirect_target(). */
  method ContinuationRule() returns (r: Rule)
    ensures fresh(r) && r.Valid() && r.Data() == CONTINUATION
  {
    r := new Rule.From(Sym(PipeExec));
    r.OrSym(RedirectExec);
    PipeOrRedirectIs();
    var ends := new Rule.From(Tok(LineEnd));
    ends.Plus();
    ends.Discard();
    assert ends.Data() == LINE_ENDS;
    r.Or(ends);
    ContinuationIs();
  }

  /** exec_chain(). */
  method ExecChainRule() returns (r: Rule)
    ensures fresh(r) && r.Valid() && r.Data() == EXEC_CHAIN
  {
    r := new Rule.From(Sym(Exec));
    var rest := ContinuationRule();
    r.Then(rest);
    ThenContinuationIs(Sym(Exec));
  }

  /** exec(). */
  method ExecRule() returns (r: Rule)
    ensures fresh(r) && r.Valid() && r.Data() == EXEC
  {
    r := new Rule.From(Tok(Literal));
    r.Plus();
  }

  /** pipe_exec(). */
  method PipeExecRule() returns (r: Rule)
    ensures fresh(r) && r.Valid() && r.Data() == PIPE_EXEC
  {
    r := new Rule.From(Tok(Pipe));
    r.ThenSym(ExecChain);
  }

  /** redirect_exec(). */
  method RedirectExecRule() returns (r: Rule)
    ensures fresh(r) && r.Valid() && r.Data() == REDIRECT_EXEC
  {
    r := new Rule.From(Tok(Redirect));
    r.OrTok(RedirectAppend);
    assert r.Data() == RuleData([Tok(Redirect), Tok(RedirectAppend), Any([0, 1])], 2);
    r.ThenSym(RedirectTarget);
  }

  /** redirect_target(). */
  method RedirectTargetRule() returns (r: Rule)
    ensures fresh(r) && r.Valid() && r.Data() == REDIRECT_TARGET
  {
    r := new Rule.From(Tok(Literal));
    var rest := ContinuationRule();
    r.Then(rest);
    ThenContinuationIs(Tok(Literal));
  }

  /** Parser::new: the six rules, with Program as the entry symbol; every rule is well-formed. */
  method NewParser() returns (p: Parser)
    ensures p == SHELL && forall s :: s in p.rules ==> WellFormed(p.rules[s])
  {
    var program := ProgramRule();
    var execChain := ExecChainRule();
    var exec := ExecRule();
    var pipeExec := PipeExecRule();
    var redirectExec := RedirectExecRule();
    var redirectTarget := RedirectTargetRule();
    p := Parser(map[
      Program := program.Data(), ExecChain := execChain.Data(), Exec := exec.Data(), PipeExec := pipeExec.Data(),
      RedirectExec := redirectExec.Data(), RedirectTarget := redirectTarget.Data()], Program);
    program.WellFormedOf();
    execChain.WellFormedOf();
    exec.WellFormedOf();
    pipeExec.WellFormedOf();
    redirectExec.WellFormedOf();
    redirectTarget.WellFormedOf();
  }

  /** The parser Parser::new builds. */
  const SHELL := Parser(RULES, Program)

  /** Every rule of the shell grammar fits its arena, so the combinators may run on it. */
  lemma {:induction false} ShellFits()
    ensures RulesFit(SHELL)
  {
    SmallRulesFit();
    ChainRulesFit();
    forall s | s in RULES
      ensures Fits(RULES[s])
    {
      match s
      case Program => assert RULES[s] == PROGRAM;
      case ExecChain => assert RULES[s] == EXEC_CHAIN;
      case Exec => assert RULES[s] == EXEC;
      case PipeExec => assert RULES[s] == PIPE_EXEC;
      case RedirectExec => assert RULES[s] == REDIRECT_EXEC;
      case RedirectTarget => assert RULES[s] == REDIRECT_TARGET;
    }
  }

  lemma {:induction false} SmallRulesFit()
    ensures Fits(PROGRAM) && Fits(EXEC) && Fits(PIPE_EXEC) && Fits(REDIRECT_EXEC)
  {
    assert Ids(PROGRAM.blocks[1]) == [0];
    assert Ids(EXEC.blocks[1]) == [0];
  }

  lemma {:induction false} ChainRulesFit()
    ensures Fits(EXEC_CHAIN) && Fits(REDIRECT_TARGET)
  {
    assert Ids(EXEC_CHAIN.blocks[5]) == [4] && Ids(EXEC_CHAIN.blocks[6]) == [5];
    assert Ids(REDIRECT_TARGET.blocks[5]) == [4] && Ids(REDIRECT_TARGET.blocks[6]) == [5];
  }
}
