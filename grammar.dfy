/** The token kinds and grammar symbols of the Rust front end (crates/egg-grammar/src/lib.rs). */
module Grammar {
  datatype Lexeme = Literal | Pipe | Redirect | RedirectAppend | LineEnd

  /**
   * The symbols of the shell grammar. `LexemeNode` is the symbol of a tree
   * leaf that holds a token; `Placeholder` marks a tree whose root is
   * dropped when it is hung into another tree.
   */
  datatype Symbol = Program | ExecChain | Exec | PipeExec | RedirectExec | RedirectTarget | LexemeNode | Placeholder

  /** The Debug spelling of a lexeme. */
  function LexemeName(l: Lexeme): string
  {
    match l
    case Literal => "Literal"
    case Pipe => "Pipe"
    case Redirect => "Redirect"
    case RedirectAppend => "RedirectAppend"
    case LineEnd => "LineEnd"
  }

  /** The Debug spelling of a symbol. */
  function SymbolName(s: Symbol): string
  {
    match s
    case Program => "Program"
    case ExecChain => "ExecChain"
    case Exec => "Exec"
    case PipeExec => "PipeExec"
    case RedirectExec => "RedirectExec"
    case RedirectTarget => "RedirectTarget"
    case LexemeNode => "Lexeme"
    case Placeholder => "_Placeholder"
  }
}
