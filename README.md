# eggshell in Dafny

A model of the core of eggshell, the interpreter and toolchain of the egg
scripting language. Egg mixes shell command execution with an expression
language of arithmetic, lists, ranges, lambdas, pipelines and literals with
unit suffixes. The model covers these parts of the repository, one Dafny
module per source file (or per pair of files that depend on each other):

- **Lexing.**
  - The maximal-munch trie of the Go lexer (`MaxMunch`).
  - The tables of the Python lexer (`LexerConstants`). The operator dicts are maps; the keyword and unit dicts, which are only ever looked up, are the lookups `KeywordToken` and `UnitKind` (`dict.get`).
  - The Python lexer's state (`LexerUtil`).
  - The Python lexer's DFA and lex loop (`Lexer`, with `LexerSteps` for what single steps do).
- **Lowering of the Python front end** (`Lowering`): desugaring of compound assignment, `loop`, the `...field` shorthand and unit literals, and the propagation of the implicit lambda `_`.
- **The Rust front end.**
  - Grammar rules as arenas of blocks (`MetaParseRule`), and the trees they print (`RuleTrees`, `RuleExamples`).
  - The PEG-style meta-parser over them (`MetaParse`) and the shell grammar (`ShellParser`).
  - The arena syntax tree (`EggAst`) and its post-order iterator (`Iterators`).
  - Source files with line and column lookup (`SourceFile`).
  - The scoped registry of data types (`ContextManager`, `DataTypes`).
- **The Go front end's sources** (`Source`, `SourceManager`).
- **Yolk** (the bytecode toolchain): the instruction argument codec (`InstructionArgs`), instruction flags (`Flags`) and flag collection (`InstructionParser`).
- **The Python runtime.**
  - Memory, with scopes and reachability-based garbage collection (`Memory`).
  - Comparison chains (`EggLib`) and collections and ranges (`Collections`).
  - The string escaping helpers (`StringUtilities`) and the code generator's temporary objects (`TemporaryObjects`).
- **Shared modules**: `Wrappers` (Option and Result), `Grammar` (token kinds and symbols) and `Sets` (picking an element of a set).

Where the source updates state in place, the model is a class with the same
fields: the lexer state, the memory, the rule builders, the syntax tree, the
iterator and the context manager. Loops are methods proved against a
specification function. Pure code is modelled as functions.

Three behaviours of the code are worth knowing before reading the model:

- The trie lookup (eggo/lexer/max_munch.go:67-77) checks only the node where the walk stops. It does not back off to a shorter terminal seen on the way, and the model keeps that (`MaxMunch.NoBackOff`).
- The garbage collector's traversal (src/runtime/memory.py:99-107) as written keeps only the named ids and their direct dependencies. That version is `Memory.Memory.GetUsedIdsAsWritten`. Garbage collection in the model (`Memory.Memory.GarbageCollect`, `Memory.Memory.PopScope`) uses the corrected traversal, which keeps everything reachable (see Findings).
- `meta_parse_plus` (crates/egg-parser/src/meta_parse.rs:205-223) as written rejects a match of its child that adds no node to the tree. That version is `MetaParse.PlusAsWritten`. The parser in the model (`MetaParse.Dispatch`, `MetaParse.Parse`) uses the corrected Plus, which matches when its child matches at least once (see Findings).

Nothing here is executed. The I/O of the original (reading files, running
processes, the REPL, the command line) is outside the model, and its
inputs are passed as parameters.

## Model

| member | source | states |
|---|---|---|
| `MaxMunch.Sub` | eggo/lexer/max_munch.go:28-33 | the group for character `c` at `depth` holds exactly the patterns longer than `depth` whose character there is `c` |
| `MaxMunch.ResultAddEnd` | eggo/lexer/max_munch.go:22-27 | a pattern of length `depth` makes the node terminal, with its token and length `depth` |
| `MaxMunch.ChildrenAddLonger` | eggo/lexer/max_munch.go:28-34 | a longer pattern joins the group of its next character, the group being created when missing |
| `MaxMunch.GroupOne` | eggo/lexer/max_munch.go:21-35 | one iteration of the first loop keeps the result and the groups in step with the patterns seen so far |
| `MaxMunch.GroupPatterns` | eggo/lexer/max_munch.go:15-35 | after the loop, the result and the child groups are those of all the patterns |
| `MaxMunch.NewMMNode` | eggo/lexer/max_munch.go:14-44 | the node built for `patterns` at `depth` represents them: its children are the non-empty groups, built recursively, and it is terminal exactly when a pattern ends at `depth` |
| `MaxMunch.NewMMTrie` | eggo/lexer/max_munch.go:51-61 | the root represents every pattern, and `FirstByte` holds exactly the first characters of the patterns |
| `MaxMunch.FirstByteIsRootChildren` | eggo/lexer/max_munch.go:52-58 | the first characters are exactly the characters the root has children for |
| `MaxMunch.DescendRepresents` | eggo/lexer/max_munch.go:14-44 | following a string from a built node succeeds exactly when some pattern starts with it, and lands on a node that is terminal exactly when the string is itself a pattern |
| `MaxMunch.WalkStep` | eggo/lexer/max_munch.go:67-72 | the walk has a child for the next character exactly when the longer prefix still starts a pattern |
| `MaxMunch.WalkLookup` | eggo/lexer/max_munch.go:63-78 | on a trie built for `patterns`, the walk gives the result of the stopping node: the pattern equal to the longest prefix of the input that starts some pattern, if that prefix is a pattern |
| `MaxMunch.LargestPrefix` | eggo/lexer/max_munch.go:63-78 | the loop from `start_from` returns what the walk over the input from that position returns |
| `MaxMunch.Walked` | eggo/lexer/max_munch.go:66 | the walk advances at most `len(data) - start_from` characters |
| `MaxMunch.WalkedFacts` | eggo/lexer/max_munch.go:66-73 | the walked prefix starts a pattern and one more character would not |
| `MaxMunch.LookupSound` | eggo/lexer/max_munch.go:63-78 | a match found is a pattern found at the start position, with that pattern's token, and its length is that pattern's length |
| `MaxMunch.LookupLongest` | eggo/lexer/max_munch.go:63-78 | no pattern that is a prefix of the input is longer than the match found |
| `MaxMunch.LookupTestLongest` | eggo/lexer/max_munch_test.go:25 | "aabrah" from 0 gives B with length 3 |
| `MaxMunch.LookupTestOffset` | eggo/lexer/max_munch_test.go:34 | "xxxababrah" from 3 gives C with length 3, ignoring the bytes before the start |
| `MaxMunch.LookupTestShort` | eggo/lexer/max_munch_test.go:27 | "baabrah" from 0 gives D with length 1 |
| `MaxMunch.LookupTestNone` | eggo/lexer/max_munch_test.go:21-28 | "cd" from 0 and "xxx" from 3 find nothing |
| `MaxMunch.NoBackOff` | eggo/lexer/max_munch.go:67-77 | on "aa" the walk stops on the non-terminal node for "aa", so nothing is found even though "a" is a pattern and a prefix of the input |
| `LexerConstants.AllOperatorsKeys` | src/frontend/lexer_constants.py:53-64 | an operator is in the merged table exactly when it is non-arithmetic or arithmetic |
| `LexerConstants.NonArithmeticSubset` | src/frontend/lexer_constants.py:51-64 | the non-arithmetic operators are among all operators with the same token names, and the difference is exactly `** // * / + - %` |
| `LexerConstants.ArithmeticKeys` | src/frontend/lexer_constants.py:56-62 | the seven arithmetic operators are `** // * / + - %` |
| `LexerConstants.ArithmeticDisjoint` | src/frontend/lexer_constants.py:8-64 | no arithmetic operator is also a non-arithmetic one |
| `LexerConstants.NotNonArithmetic` | src/frontend/lexer_constants.py:8-50 | a single `* / + - %`, `**` or `//` is not a non-arithmetic operator |
| `LexerConstants.NonArithmeticSingles` | src/frontend/lexer_constants.py:8-50 | no one-character non-arithmetic operator is one of `* / + - %` |
| `LexerConstants.NonArithmeticDoubles` | src/frontend/lexer_constants.py:8-50 | `**` and `//` are not non-arithmetic operators |
| `LexerConstants.PowerTokens` | src/frontend/lexer_constants.py:56-58 | `**` is POWER and `*` is TIMES among the arithmetic operators, and `**=` is not one of them |
| `LexerConstants.PowerAssignToken` | src/frontend/lexer_constants.py:16 | `**=` is the non-arithmetic POWER_ASSIGN |
| `LexerConstants.PowerOperatorsDistinct` | src/frontend/lexer_constants.py:16-58 | `**=`, `**` and `*` are all operators, with three distinct token names |
| `LexerConstants.UnitKinds` | src/frontend/lexer_constants.py:101-123 | every unit maps to `size` or `time` |
| `LexerConstants.ReturnKeywords` | src/frontend/lexer_constants.py:81-82 | `ret` and `return` both map to RETURN |
| `LexerConstants.OperatorLengths` | src/frontend/lexer_constants.py:8-64 | every operator has one to three characters |
| `LexerConstants.NonArithmeticLengths` | src/frontend/lexer_constants.py:8-50 | every non-arithmetic operator has one to three characters |
| `LexerConstants.ArithmeticShape` | src/frontend/lexer_constants.py:56-62 | every arithmetic operator has one or two characters and does not start with a dot |
| `LexerConstants.DotOperators` | src/frontend/lexer_constants.py:9-64 | `..` and `...` are operators, and no other operator starts with two dots |
| `LexerConstants.NonArithmeticDots` | src/frontend/lexer_constants.py:9-32 | no non-arithmetic operator other than `..` and `...` starts with two dots |
| `LexerConstants.DotsNonArithmetic` | src/frontend/lexer_constants.py:9-32 | `..` and `...` are non-arithmetic operators |
| `LexerConstants.BuildOperatorTries` | src/frontend/lexer_constants.py:51-64 | the two tries stand for the non-arithmetic table and the merged table, and the first characters are those of all operators |
| `LexerConstants.ConstantTries` | src/frontend/lexer_constants.py:51-64 | the built tries give the lexer what it relies on: non-empty operators, the dot operators in both tables, and the first characters of all operators |
| `LexerUtil.Lower` | src/frontend/lexer.py:287 | lower-casing maps an ASCII letter to a lower-case letter and leaves every other non-capital character unchanged |
| `LexerUtil.PySlice` | src/frontend/lexer_util.py:57 | Python's `s[a:b]` for non-negative bounds: the substring when the bounds are in range, and otherwise clamped to the string and empty when `b <= a` |
| `LexerUtil.LexerState.constructor` | src/frontend/lexer_util.py:34-43 | a new state reads `data` from position 0 at the start node, with no previous token and all three depths 0 |
| `LexerUtil.LexerState.GetTokenSource` | src/frontend/lexer_util.py:51-57 | the token source is `data[token_start:head]`, or up to `head + 1` when inclusive, with `end` replacing `head` when given |
| `LexerUtil.LexerState.GetToken` | src/frontend/lexer_util.py:59-69 | the token carries the given source or else the token source, `prev_token_type` becomes the emitted type, and nothing else changes |
| `LexerUtil.LexerState.GotoNode` | src/frontend/lexer_util.py:71-74 | the node becomes `state`; the head goes back by exactly 1 when `step_back` and is otherwise unchanged |
| `LexerUtil.LexerState.StepBack` | src/frontend/lexer_util.py:76-77 | the head goes back by `steps` and nothing else changes |
| `LexerUtil.LexerState.StepForward` | src/frontend/lexer_util.py:79-80 | the head goes forward by `steps` and nothing else changes |
| `LexerUtil.LexerState.NextNonwhitespace` | src/frontend/lexer_util.py:85-90 | the result is the first non-whitespace character after the head, or none (Python's `''`) exactly when only whitespace follows |
| `LexerUtil.LexerState.ClearPrev` | src/frontend/lexer_util.py:92-93 | the previous token type becomes none and nothing else changes |
| `LexerUtil.LexerState.MakeError` | src/frontend/lexer_util.py:18-23 | a LexerError records the head position, the character there or "EOF" past the end, and the current node |
| `Lexer.BalanceAppend` | src/frontend/lexer.py:66-77 | the bracket balance of two token runs is the sum of their balances |
| `Lexer.NoBracketsBalance` | src/frontend/lexer.py:66-77 | tokens with no bracket among them leave every balance at zero |
| `Lexer.KeywordsNotBrackets` | src/frontend/lexer_constants.py:66-99 | no keyword names a bracket token |
| `Lexer.SourcesAppend` | src/frontend/lexer.py:211-220 | the texts of two token runs are the texts of each, in order |
| `Lexer.UnquotedTokenTypeCases` | src/frontend/lexer.py:238-247 | bare-word classification in order: after EXEC_ARG it is EXEC_ARG; a keyword keeps its token; `_` or a word starting `_.` is IMPLICIT_LAMBDA_PARAM exactly when neither earlier case applies; it is NAME exactly when none of those applies and the lexer is in a block or the previous token precedes names |
| `Lexer.UnquotedNotBracket` | src/frontend/lexer.py:238-247 | no predicted word type is a bracket |
| `Lexer.NumberTokenType` | src/frontend/lexer.py:293-296 | a number is EXEC_ARG exactly after an EXEC_ARG, and otherwise FLOAT exactly when it has a decimal point and INTEGER exactly when it has none |
| `Lexer.Split` | src/frontend/lexer.py:211 | `split('.')` always yields at least one piece |
| `Lexer.SplitJoin` | src/frontend/lexer.py:211 | the pieces of `split('.')` hold no dot and joined with dots give the word back |
| `Lexer.NameTokensSpell` | src/frontend/lexer.py:211-220 | the name-part tokens, with a DOT between parts, spell out the dotted word and hold no bracket |
| `Lexer.DottedNameTokens` | src/frontend/lexer.py:207-221 | a word before `(`, `:` or `=` becomes name-part tokens whose texts spell the word |
| `Lexer.MatchOperator` | src/frontend/lexer.py:51-56 | the match comes from the all-operators trie exactly when in a block or the previous token is not EXEC_ARG, and from the non-arithmetic trie otherwise |
| `Lexer.MatchInTable` | src/frontend/lexer.py:51-56 | matching with a trie built for a table gives the longest operator of that table written at the head |
| `Lexer.MatchSound` | src/frontend/lexer.py:54-55 | a match is an operator of the table written at the head, with its token name, and no longer operator of the table is written there |
| `Lexer.DotDotMatches` | src/frontend/lexer.py:22-27 | two dots always match an operator, so the start node never hands `..` to a literal |
| `Lexer.NextNonSpace` | src/frontend/lexer_util.py:85-90 | the lookahead is empty or one non-whitespace character |
| `Lexer.NextNonSpaceIs` | src/frontend/lexer_util.py:85-90 | the scan of `next_nonwhitespace` gives the first non-whitespace character from the position on, or `''` |
| `Lexer.Decided` | src/frontend/lexer.py:190-193 | the character the unquoted literal decides on is at most one character long |
| `Lexer.AlphaRunIs` | src/frontend/lexer.py:284-288 | a maximal run of letters from a position is the run `get_units` reads |
| `Lexer.LowerAllAppend` | src/frontend/lexer.py:283-288 | lower-casing a run extended by one letter extends the lower-cased run by that letter lower-cased |
| `Lexer.GetUnits` | src/frontend/lexer.py:280-291 | a non-letter gives no unit; otherwise the lower-cased letters from the head are the unit when they name one, and otherwise the step raises "Number literal has unknown unit" |
| `Lexer.KeepsDepths` | src/frontend/lexer.py:64-79 | a step that emits no bracket and keeps the depths keeps them balanced |
| `Lexer.StartSound` | src/frontend/lexer.py:14-48 | the start node keeps the depths, raises without changing the state, and steps back only into a node that will read on |
| `Lexer.OperatorsSound` | src/frontend/lexer.py:64-79 | an operator token's text is its pattern, and only bracket operators move the depths, in step with their tokens |
| `Lexer.CommentSound` | src/frontend/lexer.py:82-87 | a comment step keeps every invariant of a step |
| `Lexer.IdentifierSound` | src/frontend/lexer.py:90-105 | an identifier step keeps the invariants, and an empty identifier raises without changing the state |
| `Lexer.QuotedLiteralSound` | src/frontend/lexer.py:113-121 | a quoted-literal step keeps every invariant of a step |
| `Lexer.QuotedArgListSound` | src/frontend/lexer.py:130-157 | a backquoted-list step keeps every invariant of a step |
| `Lexer.UnquotedBackOff` | src/frontend/lexer.py:198-232 | the unquoted literal steps back only from a character the start node would not hand back to it |
| `Lexer.DotAfterWordSound` | src/frontend/lexer.py:198-206 | a name before a dot emits no bracket and only the previous token and the node change |
| `Lexer.WordBeforeCallSound` | src/frontend/lexer.py:207-221 | a word before a call emits no bracket, steps back by one, and changes nothing else but the node and the previous token |
| `Lexer.WordAtDelimiterSound` | src/frontend/lexer.py:222-232 | a word at a delimiter emits no bracket, steps back by one, and changes nothing else but the node and the previous token |
| `Lexer.UnquotedSound` | src/frontend/lexer.py:189-236 | an unquoted-literal step keeps every invariant of a step |
| `Lexer.NumberSound` | src/frontend/lexer.py:255-278 | a number step keeps every invariant of a step |
| `Lexer.NumberEndSound` | src/frontend/lexer.py:265-277 | the end of a number keeps every invariant of a step |
| `Lexer.UnitSound` | src/frontend/lexer.py:267-274 | a unit moves the head onto its last letter and emits no bracket |
| `Lexer.NodeStepSound` | src/frontend/lexer.py:14-296 | every node's step keeps the depths in step with the brackets emitted, raises without changing anything, and never stalls |
| `Lexer.StepSound` | src/frontend/lexer.py:311-316 | a whole step, the head moving on after the node's step unless it raised, keeps the depths balanced and the head moving forward or to a node of smaller budget |
| `Lexer.TriesStepSound` | src/frontend/lexer.py:311-316 | with tries built for the operator tables, every step keeps what the lex loop needs |
| `Lexer.MatchInOk` | src/frontend/lexer.py:22-56 | the match of a trie built for a table sits on its pattern, and two dots always match |
| `Lexer.MatchAtOk` | src/frontend/lexer.py:22-56 | the tries' match at the head is well behaved in both of those ways |
| `Lexer.StartStep` | src/frontend/lexer.py:14-48 | StartNode.step changes the state and emits exactly as the start node's specification says |
| `Lexer.TrackDepth` | src/frontend/lexer.py:66-77 | the depth counters change as the bracket operator says |
| `Lexer.OperatorsStep` | src/frontend/lexer.py:64-79 | OperatorsNode.step reads the rest of the pattern, tracks brackets and emits the operator, as specified |
| `Lexer.CommentStep` | src/frontend/lexer.py:82-87 | CommentNode.step changes the state and emits exactly as specified |
| `Lexer.IdentifierStep` | src/frontend/lexer.py:90-105 | IdentifierNode.step changes the state, emits and raises exactly as specified |
| `Lexer.QuotedLiteralStep` | src/frontend/lexer.py:113-121 | QuotedLiteralNode.step changes the state and emits exactly as specified |
| `Lexer.EmitPending` | src/frontend/lexer.py:146-156 | the pending exec argument is emitted when the token has started, and only the previous token changes |
| `Lexer.QuotedArgListStep` | src/frontend/lexer.py:130-157 | QuotedArgListNode.step changes the state and emits exactly as specified |
| `Lexer.EmitPart` | src/frontend/lexer.py:212-220 | one name part gives its NAME or IMPLICIT_LAMBDA_PARAM token, if not empty, and a DOT when more parts follow |
| `Lexer.NameTokensFrom` | src/frontend/lexer.py:211-220 | the tokens of the parts from `i` on are those of part `i` followed by those of the rest |
| `Lexer.EmitNameParts` | src/frontend/lexer.py:211-220 | the loop over `source.split('.')` emits the name-part tokens, the previous token being the last one emitted |
| `Lexer.EmitDotAfterWord` | src/frontend/lexer.py:203-206 | the name before a dot, if any, then the dot, as specified |
| `Lexer.EmitWordBeforeCall` | src/frontend/lexer.py:208-221 | a keyword keeps its token and any other word becomes its name parts, as specified |
| `Lexer.EmitWordAtDelimiter` | src/frontend/lexer.py:228-232 | the word, then a SEMICOLON at a newline outside parentheses, as specified |
| `Lexer.DecidedChar` | src/frontend/lexer.py:190-193 | the decided character is the next non-whitespace one after whitespace other than a newline, and the head's character otherwise |
| `Lexer.UnquotedStep` | src/frontend/lexer.py:189-236 | UnquotedLiteral.step changes the state, emits and raises exactly as specified |
| `Lexer.NumberStep` | src/frontend/lexer.py:255-278 | NumberNode.step changes the state, emits and raises exactly as specified |
| `Lexer.NumberDotStep` | src/frontend/lexer.py:256-264 | the dot branch of NumberNode.step, as specified |
| `Lexer.NumberEndStep` | src/frontend/lexer.py:265-277 | the ending branch of NumberNode.step, with or without a unit, as specified |
| `Lexer.SymbolStep` | src/frontend/lexer.py:14-105 | the step of the start, operators, comment and identifier nodes, as specified |
| `Lexer.LiteralStep` | src/frontend/lexer.py:108-296 | the step of the literal-reading nodes, as specified |
| `Lexer.StepOn` | src/frontend/lexer.py:311-316 | the node's step on the character at the head, then the head moves on unless the node raised |
| `Lexer.LexRunYields` | src/frontend/lexer.py:305-307 | the loop of lex only adds tokens; it ends with the whole input read or with an error on a character at or after where it started; the depths change by the balance of the bracket tokens it adds |
| `Lexer.LexRunStart` | src/frontend/lexer.py:303-307 | a run from the start state's zero depths ends with each depth the balance of its bracket tokens, and reads the whole input exactly when no step raises |
| `Lexer.LexRunStep` | src/frontend/lexer.py:305-307 | one round of the loop of lex: a step that raises ends the run with the tokens so far, any other step's tokens come next and the run goes on from its new state |
| `Lexer.NewEggLexer` | src/frontend/lexer.py:299-301 | a new lexer has no state and uses tries built from the module's operator tables |
| `Lexer.EggLexer.constructor` | src/frontend/lexer.py:300-301 | a lexer starts with no state |
| `Lexer.EggLexer.Step` | src/frontend/lexer.py:311-316 | EggLexer.step is the specified step on the current state |
| `Lexer.EggLexer.Lex` | src/frontend/lexer.py:303-309 | lex reads `data + ' #'`; the tokens and the final state are those of the run `LexRun` from the start state; the error is the one a step raised, else none exactly when the run ends in the comment node, else "Read unexpected char"; it succeeds exactly when it reads the whole input and ends in the comment node; the three depths are always the balances of the bracket tokens emitted |
| `Lexer.EggLexer.RunSteps` | src/frontend/lexer.py:305-307 | the loop of lex, from any state the run is defined on: it returns exactly the run's tokens, its raised error, and leaves the state where the run ends |
| `Lexer.EggLexer.Reset` | src/frontend/lexer.py:318-319 | reset forgets the state |
| `LexerSteps.NewlineInStart` | src/frontend/lexer.py:16-19 | a newline in the start node emits SEMICOLON with empty text exactly at paren depth 0 and forgets the previous token |
| `LexerSteps.NewlineInComment` | src/frontend/lexer.py:84-87 | a newline ends a comment and emits SEMICOLON with empty text exactly at paren depth 0 |
| `LexerSteps.TrackedBrackets` | src/frontend/lexer.py:66-77 | an operator changes the depths by the balance of its own token: a bracket changes its own kind by one, and nothing else changes |
| `LexerSteps.NumberAtRange` | src/frontend/lexer.py:256-260 | `..` ends a number without reading the dots: the number's token is emitted and the next step starts on the first dot |
| `LexerSteps.SecondDecimalPoint` | src/frontend/lexer.py:261-262 | a second decimal point raises and changes nothing |
| `LexerSteps.FirstDecimalPoint` | src/frontend/lexer.py:263-264 | a first decimal point stays in the number and marks it as having one |
| `LexerSteps.UnitLetters` | src/frontend/lexer.py:283-288 | the unit read is the lower-cased letters from the head: at least one, each a lower-case letter |
| `LexerSteps.NumberUnit` | src/frontend/lexer.py:265-291 | letters after a number in an expression are its unit: lower-cased, the token is UNIT_INTEGER or UNIT_FLOAT with text `value:unit`, and reading goes on after the unit; an unknown unit raises |
| `LexerSteps.NumberInCommand` | src/frontend/lexer.py:265-277 | after an EXEC_ARG, letters end a number as another EXEC_ARG, with no unit |
| `LexerSteps.QuoteEscapes` | src/frontend/lexer.py:114-115 | a backslash, and the character after one, toggle the escape flag and emit nothing |
| `LexerSteps.QuoteCloses` | src/frontend/lexer.py:116-121 | the matching unescaped quote closes the string: EXEC_ARG after an EXEC_ARG, QUOTED_STRING otherwise, with the text between the quotes |
| `LexerSteps.QuoteContinues` | src/frontend/lexer.py:113-121 | any other character is part of the string |
| `LexerSteps.BacktickPipe` | src/frontend/lexer.py:145-149 | outside quotes, `|` ends the pending argument, if any, and emits PIPE |
| `LexerSteps.BacktickSpace` | src/frontend/lexer.py:150-153 | outside quotes, whitespace splits arguments and emits nothing else |
| `LexerSteps.BacktickQuoteOpens` | src/frontend/lexer.py:133-137 | a quote opens a quoted segment whose text starts after it |
| `LexerSteps.BacktickQuoteCloses` | src/frontend/lexer.py:138-142 | the same quote closes the segment, which is one EXEC_ARG whatever it holds |
| `LexerSteps.BacktickQuotedText` | src/frontend/lexer.py:143-144 | inside a quoted segment, whitespace, pipes and the other quote are text |
| `LexerSteps.BacktickCloses` | src/frontend/lexer.py:154-157 | the closing backquote ends the pending argument, if any, and returns to the start node |
| `Flags.Validate` | yolk/parser/flags.h:31-45 | no value is valid exactly for a None-typed flag; a None flag rejects every present value; RefID accepts exactly references; Num and Bool accept exactly non-references |
| `Flags.ValidateKind` | yolk/parser/flags.h:35-43 | a present value is accepted exactly when the flag takes a value and the value is a reference iff the flag is RefID |
| `Flags.ValidateTable` | yolk/parser/flagsTest.cpp:13-42 | each flag type against a reference, a literal and no value gives the accept/reject table of the tests |
| `InstructionParser.Stoi` | yolk/parser/instructionParser.h:66-79 | a successful `std::stoi` yields a value within the `int` range |
| `InstructionParser.StoiDigits` | yolk/parser/instructionParser.h:79 | plain digit strings read as their decimal value |
| `InstructionParser.StoiSignAndRest` | yolk/parser/instructionParser.h:79-83 | a leading sign is read, text after the digits is ignored, and a string with no digits throws |
| `InstructionParser.ParseValue` | yolk/parser/instructionParser.h:62-84 | `<n>` is reference n (failing when n does not parse), `true`/`false` are literals 1/0, any other literal is what `stoi` reads, and every value is within the `int` range |
| `InstructionParser.FindFlag` | yolk/parser/instructionParser.h:102-111 | the result is a flag of the list with that name, and none is found exactly when no flag has the name |
| `InstructionParser.ValidateFlag` | yolk/parser/instructionParser.h:100-113 | the loops decide as the first required flag of that name would, else the first optional one, else reject |
| `InstructionParser.ValidateFlags` | yolk/parser/instructionParser.h:115-132 | true exactly when every required name is present and every collected flag passes validate_flag |
| `InstructionParser.CollectFlags` | yolk/parser/instructionParser.h:48-98 | the loop's result is the collection function: the gathered map when it is well formed and valid, else nothing |
| `InstructionParser.GatherSucceeds` | yolk/parser/instructionParser.h:54-90 | the argument loop fails exactly when some value follows no pending flag or does not parse |
| `InstructionParser.GatherKeys` | yolk/parser/instructionParser.h:55-93 | the collected names are exactly the names opened by `--` arguments, a flag without a value included |
| `InstructionParser.GatherKeeps` | yolk/parser/instructionParser.h:55-85 | a name not opened again keeps the value already collected for it |
| `InstructionParser.GatherLastValue` | yolk/parser/instructionParser.h:55-93 | the last opening of a name decides its value: the argument after it, or no value when a flag or the end follows |
| `InstructionParser.CollectSound` | yolk/parser/instructionParser.h:94-131 | a successful collection is well formed, holds exactly the opened names, every required flag, and only names some flag list knows |
| `InstructionParser.LastOpening` | yolk/parser/instructionParser.h:54-60 | every opened name has a last opening |
| `InstructionParser.GatheredValid` | yolk/parser/instructionParser.h:115-132 | required names present and every last value valid make the gathered map pass validate_flags |
| `InstructionParser.ValidGathered` | yolk/parser/instructionParser.h:115-132 | a gathered map that passes validate_flags has every last value valid |
| `InstructionParser.CollectSucceeds` | yolk/parser/instructionParser.h:48-132 | collection succeeds exactly when every value follows a flag and parses, every required flag is given, and the value each given flag ends with is valid for the known flag of that name |
| `InstructionParser.StrayValue` | yolk/parser/instructionParser.h:87-89 | a value that follows no flag makes the collection fail |
| `InstructionArgs.BigEndian` | yolk/instruction/instructionArgs.cpp:13-21 | the bytes read as one unsigned number, the first byte most significant, is below 256 to the number of bytes |
| `InstructionArgs.Wrap` | yolk/instruction/instructionArgs.cpp:17-18 | arithmetic in a C++ integer type of the given width lands in that type's range, two's complement when signed |
| `InstructionArgs.Encode` | yolk/instruction/instructionArgs.cpp:28-59 | `htonl`/`htonll` followed by `memcpy` lays out exactly `width` bytes |
| `InstructionArgs.WrapCongruent` | yolk/instruction/instructionArgs.cpp:17-18 | a wrapped value differs from the exact one by a multiple of 256 to the width |
| `InstructionArgs.WrapStep` | yolk/instruction/instructionArgs.cpp:16-19 | wrapping after every shift-and-add equals wrapping the exact result once |
| `InstructionArgs.BigEndianEncode` | yolk/instruction/instructionArgs.cpp:28-59 | the written bytes read back big-endian are the value modulo 256 to the width |
| `InstructionArgs.DecodeEncode` | yolk/instruction/instructionArgs.cpp:13-59 | reading back what was written gives the value, for every value the integer type holds, negative ones included |
| `InstructionArgs.EncodeBigEndian` | yolk/instruction/instructionArgs.cpp:13-29 | writing the value read from some bytes gives those bytes back |
| `InstructionArgs.DecodeInjective` | yolk/instruction/instructionArgs.cpp:13-21 | two byte runs of one length that read as the same value are equal |
| `InstructionArgs.ReadStep` | yolk/instruction/instructionArgs.cpp:16-19 | one loop iteration extends the decoded prefix by the next byte |
| `InstructionArgs.ReadFromGeneric` | yolk/instruction/instructionArgs.cpp:13-21 | the loop reads the `width` bytes at `pos` as a big-endian number of the type, and fails with out-of-range when the buffer ends first |
| `InstructionArgs.CopyAt` | yolk/instruction/instructionArgs.cpp:29-59 | `memcpy` replaces exactly the bytes at `pos` and leaves the rest of the buffer alone |
| `InstructionArgs.Decimal` | yolk/instruction/instructionArgs.cpp:33-63 | `std::format` of an unsigned value is a non-empty run of decimal digits |
| `InstructionArgs.DecimalValue` | yolk/instruction/instructionArgs.cpp:33-63 | those digits read back as the value |
| `InstructionArgs.RefTextShape` | yolk/instruction/instructionArgs.cpp:32-49 | a displayed reference is `<`, the id's digits, `>`, and the digits read back as the id, as the flag parser's `<n>` expects |
| `InstructionArgs.SignedDecimalShape` | yolk/instruction/instructionArgs.cpp:62-64 | a displayed number starts with `-` exactly when it is negative, and its digits read back as its magnitude |
| `InstructionArgs.BoolText` | yolk/instruction/instructionArgs.cpp:76-81 | the text is "false" exactly when the value is zero, and "true" exactly otherwise |
| `InstructionArgs.ReferenceArgument.constructor` | yolk/instruction/instructionArgs.cpp:23-49 | a Name or String argument holds its kind and reference id |
| `InstructionArgs.ReferenceArgument.ReadFrom` | yolk/instruction/instructionArgs.cpp:23-40 | the id becomes the four bytes at `pos` read big-endian; a buffer that ends too early fails and the id is kept |
| `InstructionArgs.ReferenceArgument.WriteTo` | yolk/instruction/instructionArgs.cpp:27-45 | the four bytes at `pos` become the id in network order, the rest of the buffer is unchanged, and they read back as the id |
| `InstructionArgs.ReferenceArgument.Display` | yolk/instruction/instructionArgs.cpp:32-49 | `<`, then only decimal digits, then `>`, and the digits read back as the id |
| `InstructionArgs.NumberArgument.constructor` | yolk/instruction/instructionArgs.cpp:53-64 | a Number argument holds its value |
| `InstructionArgs.NumberArgument.ReadFrom` | yolk/instruction/instructionArgs.cpp:53-55 | the value becomes the eight bytes at `pos` read as big-endian two's complement; a short buffer fails and the value is kept |
| `InstructionArgs.NumberArgument.WriteTo` | yolk/instruction/instructionArgs.cpp:57-60 | the eight bytes at `pos` become the value in network order, the rest is unchanged, and they read back as the value |
| `InstructionArgs.NumberArgument.Display` | yolk/instruction/instructionArgs.cpp:62-64 | a leading `-` exactly when the value is negative, then only decimal digits, which read back as the magnitude |
| `InstructionArgs.BooleanArgument.constructor` | yolk/instruction/instructionArgs.cpp:68-81 | a Boolean argument holds its byte |
| `InstructionArgs.BooleanArgument.ReadFrom` | yolk/instruction/instructionArgs.cpp:68-70 | the value becomes exactly the byte at `pos`; past the end it fails and the value is kept |
| `InstructionArgs.BooleanArgument.WriteTo` | yolk/instruction/instructionArgs.cpp:72-74 | exactly the byte at `pos` becomes the value; past the end it fails and the buffer is unchanged |
| `InstructionArgs.BooleanArgument.Display` | yolk/instruction/instructionArgs.cpp:76-81 | "false" for zero, "true" otherwise |
| `InstructionArgs.PushNameBytes` | yolk/instruction/instructionsTest.cpp:84-95 | the bytes 9, 17, 27, 37 are the reference id 152116005, both ways |
| `InstructionArgs.PushNumBytes` | yolk/instruction/instructionsTest.cpp:110-136 | 231997105576741 and its negation are written as the tests' eight bytes |
| `EggLib.DoComparisons` | src/runtime/egg_lib.py:55-80 | the loop over the triples gives the chain's value: the assertion error on a wrong arity or a non-object, otherwise False at the first failing triple and True when none fails |
| `EggLib.ChainFromTrue` | src/runtime/egg_lib.py:58-80 | from an even index with a triple left, the loop answers True exactly when every later adjacent triple has objects around an operator that holds |
| `EggLib.ComparisonsTrue` | src/runtime/egg_lib.py:55-80 | for an odd number of at least three arguments, the result is True exactly when every adjacent triple holds |
| `EggLib.ComparisonsArity` | src/runtime/egg_lib.py:56-57 | fewer than three arguments, or an even number, fail the assertion |
| `EggLib.ChainFromFalse` | src/runtime/egg_lib.py:62-79 | a False answer comes from a first failing triple, every triple before it passing |
| `EggLib.LteGte` | src/runtime/egg_lib.py:71-79 | LTE holds exactly when the comparison is not GREATER, GTE exactly when it is not LESS |
| `EggLib.UnequalChains` | src/runtime/egg_lib_test.py:16-29 | `!=` chains test adjacent pairs only: 1≠2≠3 is true, 1≠2≠2 and 2≠2≠1 are false |
| `Collections.RangeIntsSpec` | src/backend_py/runtime/types/collections.py:130-133 | Python's `range(start, end, jump)` holds every `start + k*jump` on the near side of `end`, and the next one would not be |
| `Collections.RangeData` | src/backend_py/runtime/types/collections.py:130-133 | a Range's data is exactly its integers, as Integer objects, in order; a step of zero raises |
| `Collections.Concatenate` | src/backend_py/runtime/types/collections.py:13-24 | String with String joins the texts; any mix of List and Range gives a List of both data in order; a string with a non-string raises |
| `Collections.FloorDiv` | src/backend_py/runtime/types/collections.py:136 | Python's `//` rounds toward negative infinity |
| `Collections.RangeSizeMiscounts` | src/backend_py/runtime/types/collections.py:135-136 | the size as written of the range 0 to 10 by 3 is 10, while its data holds four integers |
| `Collections.Size` | src/backend_py/runtime/types/collections.py:130-136 | a collection's size is the length of its data, for ranges the number of integers they hold; a zero step raises |
| `Collections.PyIndex` | src/backend_py/runtime/types/collections.py:71-100 | Python indexing succeeds exactly for indices from minus the length to below it, and a negative index counts from the end |
| `Collections.SelectElement` | src/backend_py/runtime/types/collections.py:70-144 | strings and lists index as Python does, an index out of range raising the out-of-range error; a range gives `start + index` exactly when that is below `end`, whatever its step; a miss raises the out-of-range error, or the division by zero when the step is 0, since the message takes the range's size |
| `Collections.RangeSlice` | src/backend_py/runtime/types/collections.py:146-171 | a given start is offset by the range's start and clamped into [start, end-1], a given end offset and clamped into [start, end] (stated as the value and as bounds), the steps multiply, and a missing one keeps the range's own |
| `Collections.UnitRange` | src/backend_py/runtime/types/collections.py:130-133 | a unit-step range holds `end - start` integers |
| `Collections.RangeSliceData` | src/backend_py/runtime/types/collections.py:146-171 | on a unit-step range, a slice with bounds inside it holds the integers that slicing its data would |
| `Collections.Equals` | src/backend_py/runtime/types/collections.py:76-181 | strings compare their texts; two ranges are equal exactly when size, start and step agree, and a zero step fails; two lists are equal exactly when they hold the same objects, by identity, in the same order; a list and a range are equal exactly when both hold nothing, since a range's integers are new objects; strings against non-strings fail the assertion |
| `Collections.ListEqualsItself` | src/backend_py/runtime/types/collections.py:107-109 | a list compared with itself is equal, as every object is identical to itself |
| `Collections.ListNeverEqualsRange` | src/backend_py/runtime/types/collections.py:131-133 | `[1]` against the range 1..2, in either order, is unequal whatever the identity, because `data()` makes new integers |
| `Collections.DistinctObjectsDiffer` | src/backend_py/runtime/types/collections.py:107-109 | two one-element lists whose elements are distinct objects are unequal, even when the objects hold the same value |
| `Collections.RangeEqualsSound` | src/backend_py/runtime/types/collections.py:173-181 | two ranges that compare equal hold the same integers |
| `Collections.ConcatenateEmpty` | src/backend_py/runtime/types/collections.py:16-21 | an empty list on either side leaves the other's data unchanged |
| `Collections.ConcatenateAssociative` | src/backend_py/runtime/types/collections.py:16-21 | concatenation of lists and ranges is associative |
| `Collections.CollectionTable` | src/runtime/runtime_test.py:52-82 | the tests' range concatenation, range slice `(0..100)[70:30 by -1]` and element selections |
| `Memory.LookupInnermost` | src/runtime/memory.py:82-86 | a name is unbound exactly when no scope binds it; otherwise its id comes from the innermost scope that binds it |
| `Memory.ReachableInClosed` | src/runtime/memory.py:99-107 | a set closed under dependencies that holds the named ids holds everything they reach, so reachability is the least such set |
| `Memory.ReachesStep` | src/runtime/memory.py:105-106 | a dependency of a reached instance is reached |
| `Memory.AsWrittenMissesChain` | src/runtime/memory.py:103-106 | with "a" naming 0, 0 depending on 1 and 1 on 2, id 2 is reachable but the as-written used ids leave it out, so they are not closed under dependencies |
| `Memory.Memory.constructor` | src/runtime/memory.py:33-36 | a memory starts with no instances, one empty scope and the counter at 0 |
| `Memory.Memory.NextRefId` | src/runtime/memory.py:109-112 | the id handed out is the counter before its increment, and nothing else changes |
| `Memory.Memory.Store` | src/runtime/memory.py:22-64 | the name is bound to the id in the innermost scope only |
| `Memory.Memory.New` | src/runtime/memory.py:38-50 | the instance is stored under the next id, which no live instance has; ids are handed out 0, 1, 2, … and never reused; a given name is bound to it in the innermost scope |
| `Memory.Memory.UpdateVar` | src/runtime/memory.py:52-58 | an unbound name or a constant binding fails and changes nothing; otherwise a new instance under the next id is bound to the name in the innermost scope and the old instance is left as it was |
| `Memory.Memory.CurrentScope` | src/runtime/memory.py:60-61 | the innermost scope |
| `Memory.Memory.PushScope` | src/runtime/memory.py:66-67 | one new empty innermost scope, instances untouched |
| `Memory.Memory.PopScope` | src/runtime/memory.py:69-72 | only the innermost scope is removed; with collection the survivors are exactly the instances the remaining names reach, unchanged; without it no instance changes |
| `Memory.Memory.GetObjectByName` | src/runtime/memory.py:77-80 | the data of the instance the name is bound to, an unbound name failing |
| `Memory.Memory.GetId` | src/runtime/memory.py:82-86 | the loop searches the scopes innermost first and returns the lookup's value, none for an unbound name |
| `Memory.Memory.Free` | src/runtime/memory.py:88-89 | exactly that instance is removed; an id that is no instance is the KeyError, with nothing changed |
| `Memory.Memory.AddDependency` | src/runtime/memory.py:91-92 | the id joins the owner's dependencies and no other instance changes; an owner that is no instance is the KeyError, with nothing changed |
| `Memory.Memory.GetObject` | src/runtime/memory.py:74-75 | the data stored under a live id; any other id is the KeyError |
| `Memory.Memory.GarbageCollect` | src/runtime/memory.py:94-97 | the instances left are exactly those a named id reaches over dependencies, each unchanged; scopes and counter are untouched |
| `Memory.Memory.FreeAll` | src/runtime/memory.py:96-97 | the loop frees exactly the given ids |
| `Memory.Memory.GetUsedIds` | src/runtime/memory.py:99-107 | the used ids hold the named ids, are closed under dependencies, and are exactly the ids a named id reaches |
| `Memory.Memory.GetUsedIdsAsWritten` | src/runtime/memory.py:99-107 | as written, the used ids are the ids the as-written traversal computes |
| `Memory.Traverse` | src/runtime/memory.py:101-107 | with the frontier extended before `discovered` grows, the loop returns exactly the ids the roots reach |
| `Memory.VisitKeeps` | src/runtime/memory.py:103-106 | one visit keeps every discovered id reachable, and every reachable id discovered or still to be found from the frontier |
| `Memory.TraverseAsWritten` | src/runtime/memory.py:101-107 | as written, the loop returns the roots and their direct dependencies only |
| `Memory.AsWrittenStep` | src/runtime/memory.py:104-106 | as written, a visit adds the popped id's dependencies to `discovered` first, so no id ever joins the frontier |
| `Memory.OneBinding` | src/runtime/memory.py:100 | a single scope binding one name names exactly that id |
| `Memory.NoScopesNoRoots` | src/runtime/memory_test.py:47-50 | once the last scope is popped nothing is reached, so a collection frees every instance |
| `Memory.DependsKeepsInner` | src/runtime/memory_test.py:102-141 | "a" depending on "b" keeps "b" alive after the scope of "b" is popped |
| `Memory.DependentsFreed` | src/runtime/memory_test.py:53-99 | "b" and "c" depending on "a" do not keep themselves alive once their scope is popped |
| `Memory.ScopesPopped` | src/runtime/memory_test.py:11-50 | popping the scope of "b" frees "b" and keeps "a"; popping the last scope frees "a" too |
| `Memory.CycleCollected` | src/runtime/memory_test.py:144-185 | a dependency cycle lives while one of it is named and is collected after the last pop |
| `Source.LineStarts` | eggo/source/source.go:19-24 | every line start lies after the first byte and within the text |
| `Source.LastBreak` | eggo/source/source.go:50-53 | the start of the line holding the end of a text is just after its last newline, and no newline follows it |
| `Source.LineStartsIncreasing` | eggo/source/source.go:19-24 | the line starts are strictly increasing, as the binary search needs |
| `Source.LineStartsSpec` | eggo/source/source.go:19-24 | the line starts are exactly the offsets after a newline, one per newline |
| `Source.LineStartsPrefix` | eggo/source/source.go:19-24 | the line starts of a prefix are a prefix of the line starts, and every later one lies beyond it |
| `Source.LastLineStart` | eggo/source/source.go:49-53 | the last line start of a text is where its last line begins, or 0 when it has none |
| `Source.NewSource` | eggo/source/source.go:18-31 | the loop collects exactly the offsets after each newline and records the text's length |
| `Source.SearchLine` | eggo/source/source.go:38-48 | the binary search stops at the number of line starts at or before the offset: all before it are at or below, all from it on above |
| `Source.GetLineAndCol` | eggo/source/source.go:34-55 | an offset below 0 or at or past the end is an error; otherwise the 1-based line is one more than the newlines before the offset, and the 1-based column counts from just after the last of them |
| `Source.SearchCounts` | eggo/source/source.go:49-53 | where the search stops is the number of newlines before the offset, and the line start it picks is just after the last of them |
| `Source.NewlineEndsItsLine` | eggo/source/source.go:43-54 | a newline belongs to the line it ends, and the next offset is column 1 of the next line |
| `Source.LineAndColTable` | eggo/source/source_test.go:12-35 | offsets 0, 5, 6 and 7 of the test text are at (1,1), (1,6), (2,1) and (2,2) |
| `SourceManager.DistinctCard` | eggo/source/source_manager.go:19-21 | a sequence with no repeated path has as many elements as its set of paths |
| `SourceManager.NegativeLengthPassesGuard` | eggo/source/source_manager.go:30-33 | as written, offset 5 and length -3 in a 20-byte text pass the guard although the slice then ends before it starts |
| `SourceManager.SliceGuardInRange` | eggo/source/source_manager.go:30-33 | the corrected guard admits exactly the slices with `0 <= offset <= offset + length <= length of text`, each of which the as-written guard admits too |
| `SourceManager.SourceManager.constructor` | eggo/source/source_manager.go:10-15 | a manager starts with no paths and no sources |
| `SourceManager.SourceManager.SourceCount` | eggo/source/source_manager.go:17-25 | there are exactly as many sources as registered paths |
| `SourceManager.SourceManager.UpsertSource` | eggo/source/source_manager.go:17-25 | a new path gets the next id and its source is appended; a known path keeps its id and its source is replaced; every other source is untouched |
| `SourceManager.SourceManager.GetCodeSliceForLocation` | eggo/source/source_manager.go:27-36 | an unknown path is an error; otherwise the bytes of the location when the corrected guard `SliceGuard` admits it, else an out-of-range error |
| `SourceFile.Terminated` | crates/egg-source/src/source_file.rs:34-44 | the text read ends in a newline: unchanged when it already does, otherwise with one appended |
| `SourceFile.NewlinePositions` | crates/egg-source/src/source_file.rs:20 | each position is an offset of the text holding a newline |
| `SourceFile.From` | crates/egg-source/src/source_file.rs:17-31 | the file's line indexes are 0 followed by every newline offset, and its count is the length of the newline-terminated text |
| `SourceFile.LowerBound` | crates/egg-source/src/source_file.rs:50 | the bisection stops at the first element not below the value |
| `SourceFile.BinarySearch` | crates/egg-source/src/source_file.rs:50-51 | a found index holds the value; otherwise the insertion point has every element before it below the value and every one from it above |
| `SourceFile.NewlinePrefix` | crates/egg-source/src/source_file.rs:20 | the newline offsets of a prefix are a prefix of the newline offsets, and every later one lies beyond it |
| `SourceFile.NewlineFacts` | crates/egg-source/src/source_file.rs:20 | one offset per newline, strictly increasing, the last just before where the last line starts |
| `SourceFile.LineIndexesSorted` | crates/egg-source/src/source_file.rs:20-21 | the line indexes are sorted, so they can be searched |
| `SourceFile.SearchLands` | crates/egg-source/src/source_file.rs:48-52 | on 0 followed by the newline offsets, the search picks the last entry at or below the offset |
| `SourceFile.SearchSplits` | crates/egg-source/src/source_file.rs:50-51 | the search returns the split point between the elements below the value and the rest, found exactly when the value is there |
| `SourceFile.NewlinesAround` | crates/egg-source/src/source_file.rs:20-52 | the newlines before an offset come first among the offsets, and the offset itself is the next one exactly when it holds a newline |
| `SourceFile.SearchedLineMeaning` | crates/egg-source/src/source_file.rs:48-52 | the searched line is the number of newlines before the offset, one more when the offset itself holds a newline (except at 0), and its entry is the last newline at or before the offset, or 0 |
| `SourceFile.GetLineAndCol` | crates/egg-source/src/source_file.rs:46-57 | an offset at or past the end is an error; otherwise the 0-based line of the search and the column counted from that line's entry |
| `SourceFile.MatchesGo` | crates/egg-source/src/source_file.rs:46-57 | away from newlines the Rust line is the Go line minus one, and the Rust column equals the Go column except on the first line, where it is one less |
| `SourceFile.GetText` | crates/egg-source/src/source_file.rs:60-71 | a span whose end is before its start is an error; otherwise the characters from start to end inclusive, as far as the text goes |
| `SourceFile.GetTextAdjacent` | crates/egg-source/src/source_file.rs:60-71 | the texts of two adjacent spans inside the file join to the text of the span covering both |
| `ContextManager.ResolveAppend` | crates/egg-context/src/context_manager.rs:48-63 | contexts pushed later do not change what the earlier ones resolve |
| `ContextManager.ResolveOtherContext` | crates/egg-context/src/context_manager.rs:35-63 | a name registered in one context leaves the lookups from every earlier context unchanged |
| `ContextManager.ResolveOtherName` | crates/egg-context/src/context_manager.rs:35-63 | binding one name leaves the lookup of every other name unchanged, from every context |
| `ContextManager.ContextManager.constructor` | crates/egg-context/src/context_manager.rs:17-29 | String is type 0, registered under its name in the root context, which is the only context and active |
| `ContextManager.ContextManager.AddDataType` | crates/egg-context/src/context_manager.rs:35-40 | the composite is stored under the next id and its name bound to that id in the active context only |
| `ContextManager.ContextManager.GetDataType` | crates/egg-context/src/context_manager.rs:42-46 | the type stored under the id, or the invalid-id error for an id past the end |
| `ContextManager.ContextManager.GetDataTypeId` | crates/egg-context/src/context_manager.rs:48-63 | the loop walks from the active context through its parents and returns the first binding of the name, none when no context on the way binds it |
| `ContextManager.ContextManager.GetRequiredDataTypeId` | crates/egg-context/src/context_manager.rs:65-68 | an unbound name is the missing-required error; a bound one gives its id |
| `ContextManager.ContextManager.PushContext` | crates/egg-context/src/context_manager.rs:70-76 | a new empty context whose parent is the active one is appended and becomes active |
| `ContextManager.NewFindsString` | crates/egg-context/src/context_manager.rs:17-29 | a new manager resolves "String" to type 0, whose name is "String" (the primitive of crates/egg-context/src/data_types.rs:28-31) |
| `ContextManager.PushedInherits` | crates/egg-context/src/context_manager.rs:70-76 | a pushed context resolves every name as the context it was pushed from |
| `ContextManager.AddedIsScoped` | crates/egg-context/src/context_manager.rs:35-63 | after a registration the active context resolves the new name to the new id, other names resolve as before everywhere, and earlier contexts do not see the new name |
| `DataTypes.GetName` | crates/egg-context/src/data_types.rs:20-25 | a composite's name is its own; the primitive String prints as "String" |
| `DataTypes.TypeAt` | crates/egg-context/src/context_manager.rs:42-46 | the lookup succeeds exactly for an id below the number of types, with the type stored there, and fails with that id otherwise |
| `DataTypes.OwnFields` | crates/egg-context/src/data_types.rs:63 | the declared fields collected into a map hold exactly the declared names |
| `DataTypes.OwnFieldsLastWins` | crates/egg-context/src/data_types.rs:63 | a name declared twice keeps the type of its last declaration |
| `DataTypes.FieldsMergeIff` | crates/egg-context/src/data_types.rs:57-86 | the field computation succeeds exactly when every base is a stored composite whose fields agree with the declared ones and with the earlier bases' |
| `DataTypes.MergedFields` | crates/egg-context/src/data_types.rs:63-85 | the merged map holds the declared fields and every base's fields with their own types, and nothing else |
| `DataTypes.AbsorbFields` | crates/egg-context/src/data_types.rs:67-77 | the inner loop adds a base's fields when they agree with those computed so far, and otherwise fails with a conflict naming a field present in both with different types |
| `DataTypes.RestrictStep` | crates/egg-context/src/data_types.rs:68-69 | inserting one more agreeing field of the base extends the computed map by exactly that field |
| `DataTypes.ComputeFields` | crates/egg-context/src/data_types.rs:57-86 | the loops return the merged fields, or the first error in base order: an invalid id, a primitive base, or a conflicting field |
| `DataTypes.ParentsMeaning` | crates/egg-context/src/data_types.rs:88-104 | the ancestor computation succeeds exactly when every base is a stored composite, and then holds the bases and each base's own ancestors, nothing else |
| `DataTypes.ParentsClosed` | crates/egg-context/src/data_types.rs:93-95 | one level of extension is enough: when every stored composite's ancestors are closed, so are the computed ones |
| `DataTypes.ComputeParents` | crates/egg-context/src/data_types.rs:88-104 | the loop's result is the ancestor computation |
| `DataTypes.NewComposite` | crates/egg-context/src/data_types.rs:44-55 | the definition is built exactly when both the fields and the ancestors compute, from those two results |
| `StringUtilities.ReprDoubleQuoted` | src/yolk/string_utilities.py:3-5 | the result is the escaped text between two double quotes, one character longer per double quote inside |
| `StringUtilities.InnerStart` | src/yolk/string_utilities.py:4 | an escaped text never starts with a bare double quote |
| `StringUtilities.UnescapeInner` | src/yolk/string_utilities.py:4 | reading the escaped text back, taking a backslash before a double quote as one double quote, gives the original text |
| `StringUtilities.ReprInjective` | src/yolk/string_utilities.py:3-5 | two texts with the same quoted form are the same text |
| `StringUtilities.ReprTablePlain` | src/yolk/string_utilities_test.py:6-9 | texts without double quotes are only wrapped |
| `StringUtilities.ReprTableQuoted` | src/yolk/string_utilities_test.py:10-11 | double quotes inside get a backslash |
| `TemporaryObjects.Split` | src/backend_py/temporary_objects.py:20 | `str.split('\n')` gives at least one piece, none holding a newline |
| `TemporaryObjects.JoinAppend` | src/backend_py/temporary_objects.py:25 | joining two non-empty lists puts one separator between their joins |
| `TemporaryObjects.SplitJoin` | src/backend_py/temporary_objects.py:20 | splitting at newlines and joining back with newlines gives the text back |
| `TemporaryObjects.SplitAt` | src/backend_py/temporary_objects.py:20 | a text with no newline splits into itself, and a newline after it splits there |
| `TemporaryObjects.JoinSplit` | src/backend_py/temporary_objects.py:20-25 | lines with no newline come back unchanged from joining and splitting |
| `TemporaryObjects.FixedLines` | src/backend_py/temporary_objects.py:17-21 | the fixed lines hold no newline and are at least as many as the given ones |
| `TemporaryObjects.FixedLinesJoin` | src/backend_py/temporary_objects.py:17-21 | fixing the lines keeps the text they make when joined with newlines |
| `TemporaryObjects.FixedLinesKeep` | src/backend_py/temporary_objects.py:17-21 | lines with no newline are already fixed |
| `TemporaryObjects.FixedLinesAppend` | src/backend_py/temporary_objects.py:19-20 | fixing the lines of two lists one after the other fixes each list |
| `TemporaryObjects.Tabs` | src/backend_py/temporary_objects.py:24-48 | `'\t' * k` is `k` tabs |
| `TemporaryObjects.Prefixed` | src/backend_py/temporary_objects.py:32-80 | the comprehension puts the prefix in front of every line, in order |
| `TemporaryObjects.JoinIndents` | src/backend_py/temporary_objects.py:23-25 | the indentation in front of the join and after each separator indents every line |
| `TemporaryObjects.Repr` | src/backend_py/temporary_objects.py:54 | Python's `repr` of a parameter name is quoted and has no newline |
| `TemporaryObjects.FunctionHead` | src/backend_py/temporary_objects.py:50-56 | the signature, the push_scope line and one line per parameter |
| `TemporaryObjects.FunctionTail` | src/backend_py/temporary_objects.py:52-58 | the pop_scope line and the line binding the backing function, free of newlines for a plain name |
| `TemporaryObjects.Block.constructor` | src/backend_py/temporary_objects.py:13-14 | a block's lines are the given lines split at their newlines, or `pass` when that leaves none |
| `TemporaryObjects.Block.FixMultilines` | src/backend_py/temporary_objects.py:16-21 | the loop extends the result by each line split at its newlines, in order |
| `TemporaryObjects.Block.MakeIf` | src/backend_py/temporary_objects.py:27-33 | a new block of the `if` header followed by every line one tab deeper than the header |
| `TemporaryObjects.Block.MakeWhile` | src/backend_py/temporary_objects.py:35-43 | a new block of the `while` header followed by every line one tab deeper than the header |
| `TemporaryObjects.Block.MakeFunction` | src/backend_py/temporary_objects.py:45-61 | a new block of the signature, push_scope, a line per parameter, the body joined at one tab, pop_scope and the backing binding |
| `TemporaryObjects.Block.AddElif` | src/backend_py/temporary_objects.py:68-74 | the `elif` header and the branch's lines one tab deeper are appended, the existing lines kept |
| `TemporaryObjects.Block.AddElse` | src/backend_py/temporary_objects.py:76-80 | the `else` header and the branch's lines one tab deeper are appended, the existing lines kept |
| `TemporaryObjects.JoinMeaning` | src/backend_py/temporary_objects.py:23-25 | joining a block indents each of its lines by the level and separates them with newlines |
| `TemporaryObjects.BlockLinesMeaning` | src/backend_py/temporary_objects.py:13-14 | a block's lines hold no newline, are never empty, are `pass` exactly when nothing was given, and otherwise join to the text of the given lines |
| `TemporaryObjects.HeaderLines` | src/backend_py/temporary_objects.py:27-43 | with a one-line condition, the `if` and `while` blocks are exactly the header and the block's lines one tab deeper |
| `TemporaryObjects.JoinNoNewline` | src/backend_py/temporary_objects.py:25-50 | joining newline-free texts with a newline-free separator gives a newline-free text |
| `TemporaryObjects.HeadPlain` | src/backend_py/temporary_objects.py:50-56 | with a plain name and parameters the head lines hold no newline |
| `TemporaryObjects.FunctionBrackets` | src/backend_py/temporary_objects.py:45-61 | with a plain name and parameters, the function block is the signature, push_scope, one line per parameter, every body line one tab deeper, pop_scope and the binding line |
| `TemporaryObjects.BodySplits` | src/backend_py/temporary_objects.py:14-57 | the body joined at one tab splits back into its lines, each one tab deeper |
| `MetaParseRule.Increment` | crates/egg-parser/src/meta_parse_rule.rs:92-109 | every index a block refers to moves up by the offset, its kind is unchanged, and Symbol and Token blocks stay as they are |
| `MetaParseRule.Range` | crates/egg-parser/src/meta_parse_rule.rs:137-138 | `then_one_of` collects exactly the indices from the old length up to the new one, in order |
| `MetaParseRule.InShift` | crates/egg-parser/src/meta_parse_rule.rs:93-95 | the members of a shifted index list are exactly the shifted members |
| `MetaParseRule.PushRanked` | crates/egg-parser/src/meta_parse_rule.rs:113-157 | pushing a block that refers only to lower-ranked blocks keeps the arena acyclic and in bounds |
| `MetaParseRule.ReplaceRanked` | crates/egg-parser/src/meta_parse_rule.rs:77-82 | replacing an unreferenced block by one referring only to lower-ranked blocks keeps the arena acyclic and in bounds (and `or`, lines 213-218) |
| `MetaParseRule.AppendRanked` | crates/egg-parser/src/meta_parse_rule.rs:71-73 | our blocks followed by the other rule's shifted blocks stay acyclic and in bounds (and in `or`, lines 207-209) |
| `MetaParseRule.AppendUnreferenced` | crates/egg-parser/src/meta_parse_rule.rs:71-75 | after the append, our unreferenced index and the other rule's shifted root are still referred to by no block (and in `or`, lines 207-211) |
| `MetaParseRule.FromWellFormed` | crates/egg-parser/src/meta_parse_rule.rs:45-60 | `from`, `from_sym` and `from_tok` give a well-formed rule: root in range, referred to by no block, blocks acyclic |
| `MetaParseRule.JoinWellFormed` | crates/egg-parser/src/meta_parse_rule.rs:68-89 | `then` and `or` keep the root and every child index below the number of blocks, the root unreferenced and the blocks acyclic (`or`, lines 204-224, is the same with Any) |
| `MetaParseRule.ExtendWellFormed` | crates/egg-parser/src/meta_parse_rule.rs:112-201 | the `then_*` and `or_*` builders keep rules well-formed (`or_block`, lines 227-237, is the same with Any) |
| `MetaParseRule.WrapWellFormed` | crates/egg-parser/src/meta_parse_rule.rs:250-275 | `maybe`, `star`, `plus` and `discard` keep rules well-formed |
| `MetaParseRule.GroupWithRank` | crates/egg-parser/src/meta_parse_rule.rs:77-87 | each of the three grouping cases keeps the arena acyclic and leaves an unreferenced root (the same in `then_block` and `or`) |
| `MetaParseRule.LeafSelfContained` | crates/egg-parser/src/meta_parse_rule.rs:112-113 | `then_block` and `or_block` push one leaf (`or_block` pushes it at lines 227-228) |
| `MetaParseRule.WrappedSelfContained` | crates/egg-parser/src/meta_parse_rule.rs:153-191 | `then_maybe`, `then_star` and `then_plus` push a leaf and a wrapper whose child is that leaf |
| `MetaParseRule.OneOfSelfContained` | crates/egg-parser/src/meta_parse_rule.rs:135-140 | `then_one_of` pushes leaves and an Any over exactly them |
| `MetaParseRule.TreeMoved` | crates/egg-parser/src/meta_parse_rule.rs:71-75 | the tree a block roots is the same after the arena is shifted and appended behind other blocks (and in `or`, lines 207-211) |
| `MetaParseRule.TreeOfIs` | crates/egg-parser/src/meta_parse_rule.rs:278-318 | the tree a rule denotes does not depend on the ranking that witnesses acyclicity |
| `MetaParseRule.WrapTree` | crates/egg-parser/src/meta_parse_rule.rs:250-275 | after `maybe`, `star`, `plus` or `discard` the rule's tree is the wrapper's node over the old tree |
| `MetaParseRule.Rule.From` | crates/egg-parser/src/meta_parse_rule.rs:44-60 | a valid one-block rule whose root is that block |
| `MetaParseRule.Rule.GetRoot` | crates/egg-parser/src/meta_parse_rule.rs:62-65 | the block at the root |
| `MetaParseRule.Rule.IncrementBlocks` | crates/egg-parser/src/meta_parse_rule.rs:91-109 | the loop shifts every index of every block by the offset, nothing else changes |
| `MetaParseRule.Rule.Join` | crates/egg-parser/src/meta_parse_rule.rs:67-89 | the other rule's blocks are shifted and moved over, emptying it, and then the root group gains the other root last, or the other root group gains our root first, or a new group of both becomes the root (`or`, lines 203-224, is the same with Any) |
| `MetaParseRule.Rule.Then` | crates/egg-parser/src/meta_parse_rule.rs:67-89 | `then` is the join with Sequence groups and keeps the rule well-formed |
| `MetaParseRule.Rule.Or` | crates/egg-parser/src/meta_parse_rule.rs:203-224 | `or` is the join with Any groups and keeps the rule well-formed |
| `MetaParseRule.Rule.Extend` | crates/egg-parser/src/meta_parse_rule.rs:112-201 | the pushed blocks' last one joins a root group as last child, or a new group of the root and it becomes the root (`or_block`, lines 227-237, is the same with Any) |
| `MetaParseRule.Rule.ThenBlock` | crates/egg-parser/src/meta_parse_rule.rs:111-122 | the block is pushed and joins a root Sequence, or a new Sequence of the root and it becomes the root |
| `MetaParseRule.Rule.ThenSym` | crates/egg-parser/src/meta_parse_rule.rs:124-127 | `then_block` with a symbol block |
| `MetaParseRule.Rule.ThenTok` | crates/egg-parser/src/meta_parse_rule.rs:129-132 | `then_block` with a token block |
| `MetaParseRule.Rule.ThenOneOf` | crates/egg-parser/src/meta_parse_rule.rs:134-150 | the leaves and an Any over them are pushed, and the Any joins the Sequence |
| `MetaParseRule.Rule.ThenWrapped` | crates/egg-parser/src/meta_parse_rule.rs:152-201 | a leaf and a wrapper around it are pushed, and the wrapper joins the Sequence |
| `MetaParseRule.Rule.ThenMaybe` | crates/egg-parser/src/meta_parse_rule.rs:152-167 | the wrapper is a Maybe of the pushed block |
| `MetaParseRule.Rule.ThenStar` | crates/egg-parser/src/meta_parse_rule.rs:169-184 | the wrapper is a Star of the pushed block |
| `MetaParseRule.Rule.ThenPlus` | crates/egg-parser/src/meta_parse_rule.rs:186-201 | the wrapper is a Plus of the pushed block |
| `MetaParseRule.Rule.OrBlock` | crates/egg-parser/src/meta_parse_rule.rs:226-237 | the block is pushed and joins a root Any, or a new Any of the root and it becomes the root |
| `MetaParseRule.Rule.OrSym` | crates/egg-parser/src/meta_parse_rule.rs:239-242 | `or_block` with a symbol block |
| `MetaParseRule.Rule.OrTok` | crates/egg-parser/src/meta_parse_rule.rs:244-247 | `or_block` with a token block |
| `MetaParseRule.Rule.Wrap` | crates/egg-parser/src/meta_parse_rule.rs:249-275 | a wrapper of the old root is pushed and becomes the root |
| `MetaParseRule.Rule.Maybe` | crates/egg-parser/src/meta_parse_rule.rs:250-254 | the wrapper is a Maybe |
| `MetaParseRule.Rule.Star` | crates/egg-parser/src/meta_parse_rule.rs:257-261 | the wrapper is a Star |
| `MetaParseRule.Rule.Plus` | crates/egg-parser/src/meta_parse_rule.rs:264-268 | the wrapper is a Plus |
| `MetaParseRule.Rule.Discard` | crates/egg-parser/src/meta_parse_rule.rs:271-275 | the wrapper is a Discard |
| `MetaParseRule.Rule.WellFormedOf` | crates/egg-parser/src/meta_parse_rule.rs:38-41 | a rule object in its valid state is, as a value, a well-formed rule |
| `MetaParseRule.Rule.ToString` | crates/egg-parser/src/meta_parse_rule.rs:277-318 | the text is `---` and one line per block of the rule's tree in pre-order, two spaces of indentation per level |
| `MetaParseRule.Rule.PrintNext` | crates/egg-parser/src/meta_parse_rule.rs:281-316 | one round appends exactly the front block's line at its depth, and the new stack is that block's children, in order, one level deeper, followed by the rest; what is left to print shortens and the whole listing is kept |
| `MetaParseRule.Rule.PushChildren` | crates/egg-parser/src/meta_parse_rule.rs:313-315 | pushing the children in reverse on the front of the queue lists their trees in order before the rest |
| `MetaParseRule.PrintRound` | crates/egg-parser/src/meta_parse_rule.rs:282-315 | the popped block's line followed by what the new stack lists is what the old stack listed, and what is left to list shortens |
| `RuleTrees.IntoRootTree` | crates/egg-parser/src/meta_parse_rule.rs:77-78 | when the root is a group of the kind, the other tree becomes its last subtree (and in `or`, lines 213-214) |
| `RuleTrees.IntoOtherTree` | crates/egg-parser/src/meta_parse_rule.rs:79-82 | when only the other root is a group of the kind, our tree becomes its first subtree (and in `or`, lines 215-218) |
| `RuleTrees.PrependedKids` | crates/egg-parser/src/meta_parse_rule.rs:79-82 | putting our root in front of the other group's members puts our tree in front of its subtrees (and in `or`, line 217) |
| `RuleTrees.PushedGroupTree` | crates/egg-parser/src/meta_parse_rule.rs:83-87 | otherwise the new group's tree holds the two trees in order (and in `or`, lines 220-221) |
| `RuleTrees.GroupWithTree` | crates/egg-parser/src/meta_parse_rule.rs:77-120 | the grouping on trees, in each of its cases |
| `RuleTrees.SingleTree` | crates/egg-parser/src/meta_parse_rule.rs:45-60 | a one-block rule is a single leaf |
| `RuleTrees.PrefixTree` | crates/egg-parser/src/meta_parse_rule.rs:113-157 | blocks pushed after an arena do not change the trees in it |
| `RuleTrees.SuffixTree` | crates/egg-parser/src/meta_parse_rule.rs:71-75 | the other rule's trees sit unchanged, shifted past ours |
| `RuleTrees.JoinTree` | crates/egg-parser/src/meta_parse_rule.rs:67-89 | `then` and `or` on trees: the other tree joins our root group last, or ours joins the other root group first, or a new group holds both (`or`, lines 203-224, is the same with Any) |
| `RuleTrees.ExtendTree` | crates/egg-parser/src/meta_parse_rule.rs:112-201 | the `then_*` and `or_*` builders on trees: the pushed tree joins our root group last, or a new group holds both |
| `RuleTrees.ExtendLeafTree` | crates/egg-parser/src/meta_parse_rule.rs:111-132 | `then_block`, `then_sym`, `then_tok`, `or_block`, `or_sym`, `or_tok` add a leaf tree (`or_block`, `or_sym` and `or_tok`, lines 226-247, the same with Any) |
| `RuleTrees.ExtendWrappedTree` | crates/egg-parser/src/meta_parse_rule.rs:152-201 | `then_maybe`, `then_star` and `then_plus` add the wrapper's node over the leaf |
| `RuleTrees.ExtendOneOfTree` | crates/egg-parser/src/meta_parse_rule.rs:134-150 | `then_one_of` adds an Any node over the options, in order |
| `RuleExamples.LeafPairTree` | crates/egg-parser/src/meta_parse_rule.rs:112-120 | a leaf followed by `then_block` or `or_block` of a leaf is a new group of the two in blocks 0, 1, 2 (`or_block`, lines 227-235, the same with Any) |
| `RuleExamples.ThenSymListing` | crates/egg-parser/tests/meta_parse_test.rs:48-57 | `from_sym(Program).then_sym(ExecChain)` lists a Sequence over both symbols |
| `RuleExamples.OrSymListing` | crates/egg-parser/tests/meta_parse_test.rs:58-67 | `from_sym(Program).or_sym(ExecChain)` lists an Any over both symbols |
| `RuleExamples.ThenOneOfListing` | crates/egg-parser/tests/meta_parse_test.rs:68-87 | the options of `then_one_of` join the Sequence as one Any |
| `RuleExamples.ThenIntoSequenceListing` | crates/egg-parser/tests/meta_parse_test.rs:160-176 | `then` puts Pipe first in the other rule's Sequence |
| `RuleExamples.ThenMaybeRuleListing` | crates/egg-parser/tests/meta_parse_test.rs:177-193 | `then` of a Maybe makes a new Sequence with the Maybe as one child |
| `MetaParse.WellFormedFits` | crates/egg-parser/src/meta_parse.rs:41-58 | every rule the builders produce has its root and every child index inside its arena, so the `unwrap` on `blocks.get` cannot fail |
| `MetaParse.ParseRule` | crates/egg-parser/src/meta_parse.rs:32-49 | `meta_parse` matches exactly when the rule's root block does, at the same head, with the tree's root renamed to the target symbol |
| `MetaParse.ParseSymbol` | crates/egg-parser/src/meta_parse.rs:74-99 | a symbol without a rule is the error `ParserTriedToBuildSymbolWithNoRule` |
| `MetaParse.ParseSequence` | crates/egg-parser/src/meta_parse.rs:102-131 | with no children left the sequence matches at the current head with the tree built so far |
| `MetaParse.ParseAny` | crates/egg-parser/src/meta_parse.rs:134-147 | with no options left Any gives no match |
| `MetaParse.ParseMaybe` | crates/egg-parser/src/meta_parse.rs:150-172 | Maybe always answers something other than no match, and gives a placeholder at `head` exactly when its child gives no match |
| `MetaParse.ParseStar` | crates/egg-parser/src/meta_parse.rs:175-202 | Star never gives no match; the corrected Plus gives no match exactly when the child's first attempt does |
| `MetaParse.PlusAsWritten` | crates/egg-parser/src/meta_parse.rs:205-223 | `meta_parse_plus` as written: Star's answer when its tree has more than one node, no match otherwise |
| `MetaParse.ParseDiscard` | crates/egg-parser/src/meta_parse.rs:226-250 | Discard matches exactly when its child does, stops where the child stopped and drops the tree for a placeholder; otherwise it passes the child's answer on |
| `MetaParse.ParseToken` | crates/egg-parser/src/meta_parse.rs:253-294 | a match exactly when the token at `head` exists and has the lexeme; it consumes one token and hangs a Lexeme leaf pointing at it under a placeholder |
| `MetaParse.Parse` | crates/egg-parser/src/meta_parse.rs:16-30 | no entry rule is the error `ParserTriedToBuildSymbolWithNoRule`; success exactly when the entry rule matches up to the last token, with its tree; a match ending early is `ParserUnexpectedToken` of the next token; no match is `ParserCouldNotParseProgram` |
| `MetaParse.RenamedTree` | crates/egg-parser/src/meta_parse.rs:43 | renaming the root of a tree keeps it a tree |
| `MetaParse.BlockSound` | crates/egg-parser/src/meta_parse.rs:51-71 | a match never moves the head back or past the last token and gives a tree with a placeholder root; a failure is either the missing-rule error for a symbol that has no rule, or the tree error for a placeholder, which needs a rule for the placeholder symbol |
| `MetaParse.ParseBlock` | crates/egg-parser/src/meta_parse.rs:51-71 | a block gives no match only with fuel left, and never a Maybe or a Star block |
| `MetaParse.Dispatch` | crates/egg-parser/src/meta_parse.rs:59-70 | a token block matches exactly its token; Maybe and Star never give no match; the corrected Plus gives no match exactly when its child's first attempt does; Discard matches exactly when its child does |
| `MetaParse.DispatchPlus` | crates/egg-parser/src/meta_parse.rs:205-223 | the corrected Plus answers as `meta_parse_plus` as written wherever that one matches; where they differ, the one as written gives no match and the corrected one a match whose tree is the lone placeholder |
| `MetaParse.DispatchSound` | crates/egg-parser/src/meta_parse.rs:59-70 | the same for each kind of block |
| `MetaParse.RuleSound` | crates/egg-parser/src/meta_parse.rs:32-49 | the same for `meta_parse`, whose root is the target symbol |
| `MetaParse.SymbolSound` | crates/egg-parser/src/meta_parse.rs:74-99 | the same for `meta_parse_symbol` |
| `MetaParse.TokenSound` | crates/egg-parser/src/meta_parse.rs:253-276 | the same for `meta_parse_token` |
| `MetaParse.SequenceSound` | crates/egg-parser/src/meta_parse.rs:102-131 | the same for `meta_parse_sequence` |
| `MetaParse.AnySound` | crates/egg-parser/src/meta_parse.rs:134-147 | the same for `meta_parse_any` |
| `MetaParse.MaybeSound` | crates/egg-parser/src/meta_parse.rs:150-172 | the same for `meta_parse_maybe` |
| `MetaParse.DiscardSound` | crates/egg-parser/src/meta_parse.rs:226-250 | the same for `meta_parse_discard` |
| `MetaParse.StarSound` | crates/egg-parser/src/meta_parse.rs:175-223 | the same for `meta_parse_star` and the corrected Plus |
| `MetaParse.FuelBlock` | crates/egg-parser/src/meta_parse.rs:51-71 | an answer found with some fuel is the answer with any more fuel |
| `MetaParse.FuelDispatch` | crates/egg-parser/src/meta_parse.rs:59-70 | the same for each kind of block |
| `MetaParse.FuelRule` | crates/egg-parser/src/meta_parse.rs:32-49 | the same for `meta_parse` |
| `MetaParse.FuelSymbol` | crates/egg-parser/src/meta_parse.rs:74-99 | the same for `meta_parse_symbol` |
| `MetaParse.FuelSequence` | crates/egg-parser/src/meta_parse.rs:102-131 | the same for `meta_parse_sequence` |
| `MetaParse.FuelAny` | crates/egg-parser/src/meta_parse.rs:134-147 | the same for `meta_parse_any` |
| `MetaParse.FuelMaybe` | crates/egg-parser/src/meta_parse.rs:150-172 | the same for `meta_parse_maybe` |
| `MetaParse.FuelDiscard` | crates/egg-parser/src/meta_parse.rs:226-250 | the same for `meta_parse_discard` |
| `MetaParse.FuelStar` | crates/egg-parser/src/meta_parse.rs:175-202 | the same for `meta_parse_star` |
| `MetaParse.ParseOutcomes` | crates/egg-parser/src/meta_parse.rs:16-30 | `ParserHeadPastLastToken` never happens; a success is a tree rooted at the entry symbol; a failure after the entry rule is found is "could not parse", an unexpected token from the input, or another error the combinators raise |
| `MetaParse.AnyFirst` | crates/egg-parser/src/meta_parse.rs:141-146 | Any answers with the first option that does not give no match, and every option before it gave no match |
| `MetaParse.AnyNone` | crates/egg-parser/src/meta_parse.rs:141-146 | Any gives no match exactly when every option does |
| `MetaParse.SequenceMatched` | crates/egg-parser/src/meta_parse.rs:118-130 | a sequence matches only when each child matches from where the previous one stopped; it stops where the last one stopped |
| `MetaParse.SequenceNoMatch` | crates/egg-parser/src/meta_parse.rs:118-128 | a sequence gives no match only when, after its first children matched in turn, the next one gave no match |
| `MetaParse.StarStops` | crates/egg-parser/src/meta_parse.rs:192-199 | Star is greedy: where it stops, its child gives no match |
| `MetaParse.RunSequence` | crates/egg-parser/src/meta_parse.rs:102-131 | the `for` loop over the children computes the sequence's answer |
| `MetaParse.RunAny` | crates/egg-parser/src/meta_parse.rs:134-147 | the `for` loop over the options computes Any's answer |
| `MetaParse.RunStar` | crates/egg-parser/src/meta_parse.rs:175-202 | the `while let` loop computes Star's answer |
| `MetaParse.PlusAsWrittenMissesDiscard` | crates/egg-parser/src/meta_parse.rs:205-223 | on one line end, Plus over a Discard of it gives no match as written, although its Star consumed the token; the corrected Plus matches it |
| `ShellParser.ProgramRule` | crates/egg-parser/src/parser.rs:7-11 | `program()` builds the rule exec_chain*: a Star over the ExecChain symbol |
| `ShellParser.PipeOrRedirectIs` | crates/egg-parser/src/parser.rs:17-18 | `from_sym(PipeExec).or_sym(RedirectExec)` is an Any over the two symbols |
| `ShellParser.ContinuationIs` | crates/egg-parser/src/parser.rs:17-49 | `or` with `from_tok(LineEnd).plus().discard()` puts the dropped line ends last in that Any |
| `ShellParser.ContinuationShifted` | crates/egg-parser/src/parser.rs:16-19 | the continuation's blocks shifted past one leaf, as `then` places them |
| `ShellParser.ThenContinuationIs` | crates/egg-parser/src/parser.rs:16-50 | a leaf followed by `then` of the continuation is a Sequence of the leaf and that Any |
| `ShellParser.ContinuationRule` | crates/egg-parser/src/parser.rs:17-49 | the builder chain gives the continuation |
| `ShellParser.ExecChainRule` | crates/egg-parser/src/parser.rs:13-21 | `exec_chain()` builds exec followed by a pipe, a redirect or dropped line ends |
| `ShellParser.ExecRule` | crates/egg-parser/src/parser.rs:23-27 | `exec()` builds LITERAL+ |
| `ShellParser.PipeExecRule` | crates/egg-parser/src/parser.rs:29-33 | `pipe_exec()` builds PIPE then exec_chain |
| `ShellParser.RedirectExecRule` | crates/egg-parser/src/parser.rs:35-41 | `redirect_exec()` builds (REDIRECT or REDIRECT_APPEND) then redirect_target |
| `ShellParser.RedirectTargetRule` | crates/egg-parser/src/parser.rs:43-51 | `redirect_target()` builds LITERAL followed by a pipe, a redirect or dropped line ends |
| `ShellParser.NewParser` | crates/egg-parser/src/parser.rs:58-72 | `Parser::new` maps the six symbols to their rules, with Program as entry, and every rule is well-formed |
| `ShellParser.ShellFits` | crates/egg-parser/src/parser.rs:60-72 | every rule of the shell grammar keeps its indices inside its arena, so the combinators may run on it |
| `ShellParser.SmallRulesFit` | crates/egg-parser/src/parser.rs:9-41 | the same for program, exec, pipe_exec and redirect_exec |
| `ShellParser.ChainRulesFit` | crates/egg-parser/src/parser.rs:15-51 | the same for exec_chain and redirect_target |
| `EggAst.Hang` | crates/egg-ast/src/ast.rs:51-60 | `hang_child` fails exactly for an empty child, a placeholder child (with `ParserReceivedPlaceholder`) or an empty tree, and otherwise holds both trees' nodes |
| `EggAst.Splice` | crates/egg-ast/src/ast.rs:64-76 | `hang_from_placeholder` fails exactly for an empty child or a child whose root is not a placeholder (with `ParserExpectedPlaceholder`), and otherwise holds both trees' nodes less the dropped root |
| `EggAst.Attach` | crates/egg-ast/src/ast.rs:79-84 | `add_child` fails exactly on an empty tree, and otherwise appends the node last |
| `EggAst.Ast.constructor` | crates/egg-ast/src/ast.rs:13-16 | a tree holding the given nodes |
| `EggAst.Ast.GetRoot` | crates/egg-ast/src/ast.rs:27-35 | node 0 when the tree has one, `ParserTreeHasNoRootNode` otherwise |
| `EggAst.Ast.GetNode` | crates/egg-ast/src/ast.rs:37-47 | node `i` exactly when it exists, `ParserTreeNodeOutOfBounds` otherwise |
| `EggAst.Ast.OffsetIds` | crates/egg-ast/src/ast.rs:86-91 | the loop moves every child index of every node up by the offset |
| `EggAst.Ast.HangChild` | crates/egg-ast/src/ast.rs:49-60 | the new tree is that of `Hang`, and the child tree is emptied; on an error nothing of ours changes |
| `EggAst.Ast.HangFromPlaceholder` | crates/egg-ast/src/ast.rs:62-76 | the new tree is that of `Splice`, and the child tree is emptied; on an error nothing of ours changes |
| `EggAst.Ast.AddChild` | crates/egg-ast/src/ast.rs:78-84 | the new tree is that of `Attach`; on an empty tree the error and no change |
| `EggAst.HangKeepsTree` | crates/egg-ast/src/ast.rs:49-60 | hanging a tree whose root is not a placeholder under a tree succeeds and gives a tree: same root symbol, whose last child is the hung root at index `len` |
| `EggAst.HangEntry` | crates/egg-ast/src/ast.rs:56-58 | each child index of the result comes from ours unchanged, or the child's moved up by our size, or is the new link to the hung root |
| `EggAst.HangParentsCase` | crates/egg-ast/src/ast.rs:56-58 | in the result no index is listed as a child twice |
| `EggAst.AttachKeepsTree` | crates/egg-ast/src/ast.rs:79-84 | adding a leaf to a tree succeeds and gives a tree whose root's last child is the leaf |
| `EggAst.SpliceEntry` | crates/egg-ast/src/ast.rs:68-73 | each child index of the result comes from ours unchanged, or from the child's nodes moved up by our size less one, or from the dropped root's children |
| `EggAst.SpliceParentsCase` | crates/egg-ast/src/ast.rs:68-73 | in the result no index is listed as a child twice |
| `EggAst.SpliceKeepsTree` | crates/egg-ast/src/ast.rs:64-76 | splicing a placeholder-rooted tree into a tree succeeds and gives a tree whose root keeps its children and adopts the placeholder's, shifted |
| `Iterators.PostOrderAbove` | crates/egg-ast/src/iterators.rs:37-92 | the traversal of a subtree lists only its root and nodes after it in the arena |
| `Iterators.InPostChildren` | crates/egg-ast/src/iterators.rs:37-92 | a node is listed for the children of a node exactly when it lies in the subtree of one of them |
| `Iterators.PostOrderReachable` | crates/egg-ast/src/iterators.rs:37-92 | the post-order of a subtree lists exactly the nodes reachable from its root |
| `Iterators.PostOrderChildrenFirst` | crates/egg-ast/src/iterators.rs:37-92 | in the post-order every node comes after all of its children, and the subtree's root comes last |
| `Iterators.ParentInSubtree` | crates/egg-ast/src/iterators.rs:37-92 | in a tree the parent of a non-root node of a subtree is in that subtree |
| `Iterators.SharedNested` | crates/egg-ast/src/iterators.rs:37-92 | in a tree, two subtrees sharing a node are nested |
| `Iterators.PostOrderDistinct` | crates/egg-ast/src/iterators.rs:37-92 | in a tree, a subtree's post-order lists no node twice |
| `Iterators.SiblingsDisjoint` | crates/egg-ast/src/iterators.rs:37-92 | in a tree, the subtrees of two different children of one node share no node |
| `Iterators.TraversalStarts` | crates/egg-ast/src/iterators.rs:24-31 | the state `new` sets up, an empty stack with node 0 next, is a traversal state with the whole post-order still due |
| `Iterators.TraversalEnds` | crates/egg-ast/src/iterators.rs:88-90 | with the stack empty and nothing next, the whole post-order has been emitted |
| `Iterators.PendingPush` | crates/egg-ast/src/iterators.rs:40 | pushing a frame puts its node first among what is due |
| `Iterators.DueDescend` | crates/egg-ast/src/iterators.rs:39-52 | descending into the first child, or pushing a leaf, leaves what is due unchanged |
| `Iterators.DescendStep` | crates/egg-ast/src/iterators.rs:39-52 | the descending branch keeps the traversal state |
| `Iterators.PopStep` | crates/egg-ast/src/iterators.rs:54-74 | popping the top frame emits its node, and what is due continues after its index among its siblings |
| `Iterators.ResumeAfterLast` | crates/egg-ast/src/iterators.rs:58-71 | after a parent's last child nothing more of that parent's children is due |
| `Iterators.ResumeNext` | crates/egg-ast/src/iterators.rs:77-87 | before a parent's last child, the next sibling is next, with its index |
| `Iterators.DueResume` | crates/egg-ast/src/iterators.rs:77-87 | what is due after child `c` is the next child's subtree and then what follows it |
| `Iterators.PostOrderAstIterator.constructor` | crates/egg-ast/src/iterators.rs:24-34 | `new` computes the post-order of the whole tree from node 0 |
| `Iterators.PostOrderAstIterator.Next` | crates/egg-ast/src/iterators.rs:16-21 | `next` hands out the front of the computed order, and nothing once it is exhausted |
| `Iterators.PostOrderAstIterator.ComputePostOrder` | crates/egg-ast/src/iterators.rs:36-92 | the loop ends with the post-order of the tree, an empty stack and no node next |
| `Iterators.Unwind` | crates/egg-ast/src/iterators.rs:53-87 | the popping branch keeps the traversal state and emits at least one node |
| `Iterators.PopFinished` | crates/egg-ast/src/iterators.rs:58-75 | the inner loop pops and emits frames while the one just emitted was its parent's last child, keeping what is still due |
| `Iterators.PostOrderCorrect` | crates/egg-ast/src/iterators.rs:36-106 | the order handed out lists every node after all its children, each node reachable from the root exactly once, and the root last |
| `Lowering.Stringify` | src/frontend/lowering.py:15 | `str(item)` of a token is its text; values other than integers are kept |
| `Lowering.Exec` | src/frontend/lowering.py:13-15 | `exec` keeps its tag and stringifies every argument, in order |
| `Lowering.SplitColon` | src/frontend/lowering.py:22-38 | unpacking `split(':')` into two succeeds exactly when the text has one colon, and gives the parts on either side of it |
| `Lowering.ParseInt` | src/frontend/lowering.py:29 | `int(value)` succeeds exactly on a non-empty run of digits |
| `Lowering.Stem` | src/frontend/lowering.py:212-213 | `split('_')[2]` of a `__` tag: the longest prefix of the rest without an underscore |
| `Lowering.Unwrapped` | src/frontend/lowering.py:185-191 | the loop over the children replaces each poisoned child by its body; it raises exactly when a poisoned child has no body |
| `Lowering.PropagateImplicitLambda` | src/frontend/lowering.py:179-200 | the children list is overwritten in place with the unwrapped children, and the node is wrapped once in a poisoned lambda when any child was one |
| `Lowering.UnwrappedFails` | src/frontend/lowering.py:185-191 | once a prefix of the loop raised, the whole loop raises |
| `Lowering.UnwrappedUnpoisoned` | src/frontend/lowering.py:185-191 | without a poisoned child the loop leaves the children as they were |
| `Lowering.LowerAll` | src/frontend/lowering.py:10-12 | the transformer lowers every child before its parent; the first child that raises is the error |
| `Lowering.LowerCompoundAssign` | src/frontend/lowering.py:49-137 | each of the nine `x OP= y` tags becomes `reassign(x, OP(x, y))`; any other number of operands raises |
| `Lowering.LowerSequenceAssign` | src/frontend/lowering.py:111-129 | `&&=` and `\|\|=` become `reassign(x, logical_sequence(and_sequence(x, y)))` and the same with `or_sequence` |
| `Lowering.LowerLoop` | src/frontend/lowering.py:139-143 | `loop` becomes `while(True, ...)` over the lowered children, in order |
| `Lowering.LowerImplicit` | src/frontend/lowering.py:158-164 | `_` becomes the poisoned identity lambda |
| `Lowering.LowerShorthand` | src/frontend/lowering.py:145-156 | `...f` becomes `lambda_func(@@shorthand_select@@, select_field(identifier(@@shorthand_select@@), f))` |
| `Lowering.LowerExec` | src/frontend/lowering.py:13-15 | `exec` turns each token argument into its text, in order |
| `Lowering.SplitColonOf` | src/frontend/lowering.py:22-38 | `v:u` with no other colon unpacks to `v` and `u` |
| `Lowering.LowerUnitInteger` | src/frontend/lowering.py:17-31 | `v:u` for a known unit becomes `unit_literal(unit_type(UNITS[u]), unit(u), int(v))` |
| `Lowering.LowerUnitErrors` | src/frontend/lowering.py:17-31 | a literal that does not split in two raises the unpacking error; an unknown unit raises the KeyError |
| `Lowering.PropagateCases` | src/frontend/lowering.py:179-200 | raises exactly when a poisoned child has no body; no poisoned child keeps tag and children; otherwise one lambda wraps the node with each poisoned child replaced by its body |
| `Lowering.BoundariesKeepTheirChildren` | src/frontend/lowering.py:166-214 | `start`, `pipeline` and `curry` nodes are rebuilt over their lowered children and never wrapped |
| `Lowering.HelperBoundariesKeepTheirChildren` | src/frontend/lowering.py:206-214 | the same for the helper tags `__start_...`, `__pipeline_...` and `__curry_...` |
| `Lowering.UnderscoreTagIsDefault` | src/frontend/lowering.py:166-177 | no named rule starts with an underscore, so helper tags go to `__default__` |
| `Lowering.LowerLeaves` | src/frontend/lowering.py:10-12 | leaves lower to themselves |
| `Lowering.AssignTagsAreDefault` | src/frontend/lowering.py:111-137 | the tags the assignment rules build are not rewritten again |
| `Lowering.LambdaTagsAreDefault` | src/frontend/lowering.py:139-156 | the tags the loop and shorthand rules build are not rewritten again |
| `Lowering.UnitTagsAreDefault` | src/frontend/lowering.py:17-47 | the tags the unit and implicit-lambda rules build are not rewritten again (and by `implicit_lambda_param`, lines 158-164) |
| `Lowering.OperatorsAreDefault` | src/frontend/lowering.py:49-109 | the nine operators are ordinary tags |
| `Lowering.AssignOperators` | src/frontend/lowering.py:49-109 | the compound assignments name exactly the nine operators |
| `Lowering.LowerKeeps` | src/frontend/lowering.py:10-214 | lowering leaves no sugared tag in its result, every poisoned lambda has a body, and the missing-body error cannot arise |
| `Lowering.ApplyKeeps` | src/frontend/lowering.py:13-177 | the same for one rule applied to lowered children |
| `Lowering.UnitKeeps` | src/frontend/lowering.py:17-47 | the same for the unit rules |
| `Lowering.AssignKeeps` | src/frontend/lowering.py:131-137 | the same for the compound assignments |
| `Lowering.SequenceKeeps` | src/frontend/lowering.py:111-129 | the same for `&&=` and `\|\|=` |
| `Lowering.LoopKeeps` | src/frontend/lowering.py:139-143 | the same for `loop` |
| `Lowering.ShorthandKeeps` | src/frontend/lowering.py:145-156 | the same for `...f` |
| `Lowering.DefaultKeeps` | src/frontend/lowering.py:166-200 | the same for `__default__`, which never raises on lowered children |
| `Lowering.LowerTree` | src/frontend/lowering.py:10-12 | a node lowers to its tag's rule applied to its lowered children |
| `Lowering.DefaultUnpoisoned` | src/frontend/lowering.py:166-200 | a default node with no poisoned child is only rebuilt |
| `Lowering.DefaultPoisonedSecond` | src/frontend/lowering.py:179-200 | a node whose second child is a poisoned lambda is wrapped over its first child and that lambda's body |
| `Lowering.LoopExample` | src/frontend/lowering_test.py:32-39 | `loop {}` lowers to `while(True, block)` |
| `Lowering.SumExample` | src/frontend/lowering_test.py:69-84 | `_ + _` lowers to one lambda whose body adds the parameter to itself |
| `Lowering.PipelineExample` | src/frontend/lowering_test.py:69-84 | `a \| _ \| _ + _ \| c`: each stage keeps its own lambda and the pipeline is not wrapped |
| `Lowering.ShorthandExample` | src/frontend/lowering_test.py:42-53 | `a \| ...b` becomes a pipeline whose second stage is the lambda selecting `b` |
| `Lowering.LowerUnitFloat` | src/frontend/lowering.py:33-47 | `v:u` of a float literal for a known unit becomes `unit_literal` with the value's text |
| `Lowering.UnitExample` | src/frontend/lowering_test.py:87-100 | `10gb + 1.5mb` lowers to an addition of two unit literals of type size |
| `Lowering.CompoundAssignKeepsLambdaInside` | src/frontend/lowering.py:49-137 | `@a += _` keeps the placeholder's lambda inside the addition, because the assignment rule builds its nodes without the poisoning step |
| `Lowering.SpelledOutAssignWraps` | src/frontend/lowering.py:166-200 | `@a = @a + _` spelled out is wrapped as a whole |
| `Lowering.LowerUnderscore` | src/frontend/lowering_test.py:56-66 | a lone `_` lowers to the poisoned identity lambda |
| `Lowering.LowerCommand` | src/frontend/lowering_test.py:169-174 | the command `foo` lowers to `exec` over its text |
| `Lowering.LowerEmptyBlock` | src/frontend/lowering.py:166-177 | an empty block is rebuilt unchanged |
| `Lowering.PlusAssignIsAddition` | src/frontend/lowering.py:49-53 | `+=` reassigns through `addition` |
| `Lowering.TenGigabytes` | src/frontend/lowering_test.py:87-100 | `10:gb` lowers to a size literal of 10 gb |
| `Lowering.HalfMegabyte` | src/frontend/lowering_test.py:87-100 | `1.5:mb` lowers to a size literal of 1.5 mb, its value kept as text |

## Left out

- `_make_max_munch_safe` (src/frontend/lexer_constants.py:4-5) only reorders a dictionary; the model's tables are maps, which have no order, so it is the identity here.
- src/frontend/mm_trie.py is not part of this model; the lexer's tries are the trie of eggo/lexer/max_munch.go, which the repository's Go lexer uses for the same tables.
- `EggLexerLark` (src/frontend/lexer.py:322-330) only adapts tokens to lark, a library this model does not include.
- The lexer's generators are modelled as steps that return the list of tokens each one yields; `lex` returns the tokens yielded before an error together with that error, where Python would raise after yielding them.
- Character classes are those of ASCII for letters and digits (`isalpha`, `isdigit`, `lower`); `isspace` follows Python's full whitespace table.
- `InstructionArgs.ReferenceArgument.WriteTo` and `InstructionArgs.NumberArgument.WriteTo` require the whole argument to fit the buffer: `buffer.at(pos)` checks only the first byte, and a `memcpy` past the end is undefined behaviour, which this model does not give a meaning.
- The instruction classes that own these arguments (`serialize`, `deserialize`, `to_psuedoyolk`) and the instruction-specific parsers are not part of this model; only the argument codec and the flag parser are.
- `InstructionParser.parse` and `parse_flags` (yolk/parser/instructionParser.h:27-38) are left out: `parse_flags` is implemented per instruction outside the modelled files, and `parse` only forwards the result of `collect_flags`.
- `pos` is a `uint8_t` in the source, and the model keeps that type, so an argument can only start in the first 256 bytes.
- `EggLib.DoComparisons` takes the objects' `equals` and `compare` as function parameters; the runtime types' own implementations (numeric promotion between Integer and Float, string ordering) are not part of this model.
- `Collection.select_slice` for strings and lists (Python's extended slice on their data, src/backend_py/runtime/types/collections.py:33-44) is not modelled; only the Range override is.
- `Collection.wrap`, `__str__`, `__repr__`, `List.append` and `compare` on lists and ranges (which raise `NotImplementedError`) are left out: they format or forward and hold no logic the model's properties depend on.
- `Collections.Size` is the corrected size; `Collections.Equals` on two ranges uses it, where the source compares the as-written sizes (see Findings).
- `LexerUtil.PySlice`: a negative end gives the empty string, where Python would count it from the end of the string; no call passes a negative end, since the lexer's head never falls below zero.
- `TemporaryObjects.Repr`: escapes only the chosen quote, backslash, `\n`, `\r` and `\t`; Python's `repr` also writes other non-printable characters as `\xhh`, `\uXXXX` or `\UXXXXXXXX`. The contract (quoted and newline-free) holds of both.
- `Memory.Traverse` keeps an id that is no instance (a dependency added on an id that was never allocated or was freed) without traversing it; Python would raise `KeyError` when it indexes `instances` with it.
- `Memory.Memory.PopScope` and `Memory.Memory.Store` require a scope to exist: Python raises `IndexError` on popping or indexing an empty scope list, and the model gives that error no value.
- `Memory.Memory.GetUsedIdsAsWritten` is the source's traversal; garbage collection in the model uses the corrected one (see Findings).
- `Scope.has_name` and `Scope.get_id` are dictionary lookups the model reads directly from the scope maps.
- `SourceManager.SourceManager.GetCodeSliceForLocation`: slices under the corrected guard `SourceManager.SliceGuard`, which also rejects a negative length, and returns `OffsetOutOfRange` where Go's guard (eggo/source/source_manager.go:30) lets the location through and the slice at line 33 panics (see Findings).
- `Source.NewSource` keeps the file path as given: `filepath.Clean` is path normalisation that the model leaves out.
- Go's `range` over a string yields runes at byte offsets; the model's text is a sequence of bytes, and since a newline byte never occurs inside a multi-byte UTF-8 sequence the line starts are the same.
- `SourceFile.From` starts from the text already read: opening and reading the file (and its two I/O errors) is I/O this model leaves out.
- `SourceFile.GetText` counts characters as the offsets do, one byte per character; Rust's `chars()` counts Unicode scalar values; and the span's length `end - start + 1` is unbounded in the model, where Rust computes it in `usize`, so a span from 0 to `usize::MAX` overflows (a panic in a debug build, `take(0)` and an empty text in a release build) while the model returns the whole text; no span the parser builds comes near that bound.
- `SourceFile.BinarySearch` returns the first index of a repeated value; Rust leaves open which index it returns, and a repeated line index only arises when the text starts with a newline.
- `ContextManager.ContextManager.GetDataTypeId` returns the lookup without the Result around it: its invalid-context error cannot arise while every context's parent precedes it, which the class invariant keeps.
- The bases of a composite are a `HashSet` in the source, iterated in an order the language leaves open; the model takes them as a sequence in iteration order, and which conflict is reported first depends on that order.
- `get_context` is the `unwrap` of the active context, which the class invariant keeps in range.
- `IfBlock` is a subclass in the source; the model has one `Block` class carrying `AddElif` and `AddElse`, and `MakeIf` returns a `Block`.
- `TemporaryObjects.Block.AddElif` and `TemporaryObjects.Block.AddElse` require a branch other than the block itself: extending a Python list with a generator over that same list never ends.
- `Name` and `PygenIntermediary` (its class-level header list, `finalize`) belong to the code generator and are not part of this model.
- MetaParse.Dispatch: a Plus block is matched with the corrected Plus, not with `meta_parse_plus` as written (crates/egg-parser/src/meta_parse.rs:205-223), so `MetaParse.Parse` succeeds where the Rust parser reports `ParserCouldNotParseProgram`, for instance on an entry rule that is a Plus of a Discard of a line end, over one line end. The function as written is `MetaParse.PlusAsWritten`, and `MetaParse.DispatchPlus` states where the two differ (see Findings).
- Iterators.PostOrderAstIterator.constructor: requires a non-empty tree whose children lie after their parents. On an empty tree `new` panics at the `expect` (crates/egg-ast/src/iterators.rs:45-46), which the model does not represent. The order is what every tree the parser builds has, and it makes the traversal terminate.
- MetaParseRule.Rule.From: requires a leaf block; `from` is public in Rust and would accept a composite block whose indices refer to blocks the new rule does not hold. MetaParseRule.Rule.ThenBlock, MetaParseRule.Rule.OrBlock, MetaParseRule.Rule.ThenOneOf, MetaParseRule.Rule.ThenMaybe, MetaParseRule.Rule.ThenStar and MetaParseRule.Rule.ThenPlus require leaf blocks for the same reason; every caller in the repository passes symbols and tokens.
- The arena's acyclicity is witnessed by a ghost rank per block kept beside the blocks; the Rust struct has no such field. Because of it, `to_string`'s out-of-bounds error cannot arise in a valid rule and is not modelled.
- `then` and `or` take the other rule by value in Rust; the model passes a second `Rule` object whose blocks are moved out, as `Vec::append` empties it.
- The combinators carry a step bound `fuel` and answer OutOfFuel when it runs out: the Rust recursion does not terminate on a left-recursive grammar, nor its Star loop on a child that matches without consuming a token. MetaParse.FuelBlock and its partners show that more fuel never changes an answer that was found.
- The `unwrap` on `blocks.get` in `meta_parse_helper` becomes the requirement `Fits` on the rule, which MetaParse.WellFormedFits proves of every rule the builders make.
- `add_child`'s missing-root error in `meta_parse_token` cannot arise, since its tree is the placeholder leaf; the model does not carry it.
- A token's location is carried but never read by the parser.
- `Ast::to_string` (crates/egg-ast/src/ast.rs:93-138) is not modelled: it prints token contents read through the source manager, and the rule listing of `Rule::to_string` shows the same traversal.
- `hang_from_placeholder` on an empty tree with a placeholder child computes `0 - 1` on `usize` and panics; EggAst.Splice and EggAst.Ast.HangFromPlaceholder require that this case does not arise.
- The mutable and shared accessors (`get_root_mut`, `get_node_mut`) share one model each, since Dafny has no borrows.
- Lowering.LowerUnitFloat: `float(value)` is not evaluated; the value keeps its text, since the model has no floating point.
- Lowering.ParseInt: accepts only ASCII digits; Python's `int` also takes signs, surrounding spaces, underscores and other Unicode digits, which the lexer's unit literals never contain.
- Lowering.Stringify: `str()` of a tree, a float or a boolean argument to `exec` is not rendered; such values are kept as they are.
- Lowering.LowerUnitInteger and Lowering.LowerUnitFloat: require a unit without a colon, which holds for every entry of `UNITS`.
- lark's `Meta` (source positions) that `__default__` copies is not modelled, and lark's dispatch is modelled by `RuleFor`: tags of lark's helper rules reach `__default__`.
- Tokens: lark's `Token` is a `str` subclass; the model keeps a token's type and text apart, so `Lowering.Stringify` returns the text.
- The command line, the REPL, the lark parser glue, the lexer's regex-based alternative, the code generators and the bytecode interpreter are not part of this model; neither are stubs with no behaviour.
- Floating-point arithmetic is not modelled; float literals keep their text.
- Copies of modules that later files supersede (egg-py/, the older parsing/ and frontend/ copies) are not modelled; the model follows the files it cites.

## Findings

| source | as written | input that shows it | evidently intended | confidence | as-written member | corrected member |
|---|---|---|---|---|---|---|
| eggo/source/source_manager.go:30-33 | the guard checks `offset < 0` and `offset + length > source.length` but not `length < 0` | offset 5, length -3 in a 20-byte text passes the guard, and the slice `[5:2]` then panics | a slice is returned only when `0 <= offset <= offset + length <= length of text` | not executed; high | `SourceManager.SliceGuardAsWritten`, `SourceManager.NegativeLengthPassesGuard` | `SourceManager.SliceGuard`, `SourceManager.SliceGuardInRange`, `SourceManager.SourceManager.GetCodeSliceForLocation` |
| src/backend_py/runtime/types/collections.py:135-136 | `size` computes `end - start // jump`, so the division binds first | the range from 0 to 10 by 3 has size 10 as written, while its data holds four integers | the number of integers the range holds, as `data` lists them | not executed; high | `Collections.RangeSizeAsWritten`, `Collections.RangeSizeMiscounts` | `Collections.Size` |
| src/runtime/memory.py:101-107 | `discovered` is updated with the dependencies before the frontier is extended with the dependencies not yet discovered, so nothing is ever added to the frontier | "a" names 0, 0 depends on 1 and 1 on 2: id 2 is reachable but not in the used ids, and collection frees it | the used ids are every id reachable from a named id | not executed; high | `Memory.TraverseAsWritten`, `Memory.AsWrittenMissesChain`, `Memory.Memory.GetUsedIdsAsWritten` | `Memory.Traverse`, `Memory.Memory.GetUsedIds` |
| crates/egg-parser/src/meta_parse.rs:205-223 | Plus accepts Star's match only when its tree has more than the placeholder root | Plus over a Discard of a line end, on one line end: the Star matches the token, but its tree is the lone placeholder, so Plus gives no match | Plus matches when its child matches at least once | not executed; medium | `MetaParse.PlusAsWritten`, `MetaParse.PlusAsWrittenMissesDiscard` | `MetaParse.ParseStar`, `MetaParse.Dispatch` |
