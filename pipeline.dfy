// The public functions of services/javaInterpreter.ts: `validateJavaSyntax` and
// `interpretJavaCode`, which run the older copies of the lexer, the parser and the
// interpreter. The promise, the timer and the console messages are left out:
// `interpretJavaCode` is its settled outcome.

module Service {
  import opened Common
  import Text
  import opened Dialects
  import Lexer
  import Ast
  import Parsing
  import Interpreter

  /** A syntax problem as the editor shows it. */
  datatype Diagnostic = Diagnostic(line: int, message: string)

  /** The text of an error: its message, or the name of the host's error or of what
      the model leaves out. */
  function Message(e: Error): string
  {
    match e
    case ParseError(m, _) => m
    case RuntimeError(m) => m
    case HostError(kind) => kind
    case Unmodelled(what) => what
    case OutOfFuel => "out of fuel"
  }

  /** The diagnostic for a failed tokenize-and-parse: a ParseError keeps its line,
      any other error is put on line 1. */
  function DiagnosticOf(e: Error): (g: Diagnostic)
    ensures g.message == Message(e)
    ensures e.ParseError? ==> g.line == e.line
    ensures !e.ParseError? ==> g.line == 1
  {
    if e.ParseError? then Diagnostic(e.line, e.message) else Diagnostic(1, Message(e))
  }

  /** Tokenize and parse with the older copies. */
  function Compile(code: string): Result<Ast.Program>
  {
    var tokens :- Lexer.Lex(Legacy, code);
    Parsing.Parse(Legacy, tokens)
  }

  /** `validateJavaSyntax`: nothing for blank code or code that parses, else the
      failure's diagnostic. */
  function ValidateJavaSyntax(code: string): (r: Option<Diagnostic>)
  {
    if Text.JsTrim(code) == [] then None
    else
      var p := Compile(code);
      if p.Ok? then None else Some(DiagnosticOf(p.error))
  }

  /** The message `interpretJavaCode` rejects an empty trace with. */
  const EmptyTraceMessage: string := "Interpretation failed. The code may contain unsupported syntax or logic errors."

  /** `interpretJavaCode`: tokenize, parse and run; an empty trace of code that is not
      blank is a failure. */
  function InterpretJavaCode(code: string, fuel: nat): (r: Result<seq<Interpreter.Step>>)
  {
    var program :- Compile(code);
    var trace :- Interpreter.Run(Legacy, program, fuel);
    if |trace| == 0 && Text.JsTrim(code) != [] then Err(RuntimeError(EmptyTraceMessage))
    else Ok(trace)
  }

  // ---------------------------------------------------------------------------
  // Properties

  /** Validation reports nothing exactly when the code is blank or tokenizes and
      parses; otherwise it reports the failure with its line. */
  lemma ValidationMatchesCompile(code: string)
    ensures ValidateJavaSyntax(code).None? <==> Text.IsBlank(code) || Compile(code).Ok?
    ensures !Text.IsBlank(code) && Compile(code).Err? ==>
              ValidateJavaSyntax(code) == Some(DiagnosticOf(Compile(code).error))
  {
    Text.TrimEmptyIffBlank(code);
  }

  /** A parse error is reported on its own line with its own message. */
  lemma ParseErrorKeepsLine(code: string, m: string, l: int)
    requires !Text.IsBlank(code) && Compile(code) == Err(ParseError(m, l))
    ensures ValidateJavaSyntax(code) == Some(Diagnostic(l, m))
  {
    Text.TrimEmptyIffBlank(code);
  }

  /** A successful interpretation of code that is not blank has at least one step,
      and is the interpreter's trace. */
  lemma InterpretationHasSteps(code: string, fuel: nat)
    requires !Text.IsBlank(code) && InterpretJavaCode(code, fuel).Ok?
    ensures |InterpretJavaCode(code, fuel).value| > 0
    ensures Compile(code).Ok? && InterpretJavaCode(code, fuel) == Interpreter.Run(Legacy, Compile(code).value, fuel)
  {
    Text.TrimEmptyIffBlank(code);
  }

  /** Code that fails to compile fails to interpret with the same error, and it is the
      error validation reports. */
  lemma CompileErrorsAgree(code: string, fuel: nat)
    requires !Text.IsBlank(code) && Compile(code).Err?
    ensures InterpretJavaCode(code, fuel) == Err(Compile(code).error)
    ensures ValidateJavaSyntax(code) == Some(DiagnosticOf(Compile(code).error))
  {
    Text.TrimEmptyIffBlank(code);
  }

  /** A run that records no step is rejected for code that is not blank. */
  lemma EmptyTraceRejected(code: string, fuel: nat)
    requires !Text.IsBlank(code) && Compile(code).Ok?
    requires Interpreter.Run(Legacy, Compile(code).value, fuel) == Ok([])
    ensures InterpretJavaCode(code, fuel) == Err(RuntimeError(EmptyTraceMessage))
  {
    Text.TrimEmptyIffBlank(code);
  }
}
