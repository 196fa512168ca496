// The tokenizer of the Java-subset pipeline (src/lib/lexer.ts), together with the
// older copy in services/javaInterpreter.ts, which differs only in its tables: the
// `Dialect` parameter selects between them.

module Dialects {
  /** Modern is src/lib (lexer.ts, parser.ts, interpreter.ts); Legacy is the single-file
      copy services/javaInterpreter.ts. */
  datatype Dialect = Modern | Legacy
}

module Lexer {
  import opened Common
  import opened Text
  import opened Dialects

  datatype TokenType =
    | Class | Void | Int | Static | Public | For | If | Else | New | System | Boolean
    | Double | String | True | False | Return | While | Do | Break | Continue
    | Identifier | IntegerLiteral | DoubleLiteral | StringLiteral
    | Equals | Plus | Minus | Percent | Star | Slash | OpenParen | CloseParen | OpenBrace | CloseBrace
    | OpenBracket | CloseBracket | Semicolon | Comma | Dot | GreaterThan | LessThan | Bang
    | EqualsEquals | NotEquals | GreaterEquals | LessEquals
    | PlusPlus | MinusMinus | PlusEquals | MinusEquals | StarEquals | SlashEquals | AndAnd | OrOr
    | PercentEquals | QuestionMark | Colon
    | Char | Long | This | Final | Instanceof
    | Switch | Case | Default
    | Try | Catch | Finally | Throw
    | CharLiteral | LongLiteral
    | EOF
    | Inherited  // the Object.prototype member a word such as `toString` finds in the keyword table

  datatype Token = Token(kind: TokenType, value: string, line: nat)

  /** Token types that carry a name or a literal's text rather than a fixed spelling. */
  predicate IsTextKind(t: TokenType)
  {
    t in {TokenType.Identifier, TokenType.IntegerLiteral, TokenType.DoubleLiteral, TokenType.StringLiteral,
          TokenType.CharLiteral, TokenType.LongLiteral, TokenType.EOF, TokenType.Inherited}
  }

  /** The keyword table: the twenty keywords of both copies, and the twelve more
      (char, long, this, final, instanceof, switch, case, default, try, catch,
      finally, throw) that only the modern tokenizer knows. */
  function KeywordType(d: Dialect, w: string): (t: Option<TokenType>)
    ensures t.Some? ==> !IsTextKind(t.value)
  {
    match w
    case "class" => Some(TokenType.Class)
    case "void" => Some(TokenType.Void)
    case "int" => Some(TokenType.Int)
    case "static" => Some(TokenType.Static)
    case "public" => Some(TokenType.Public)
    case "for" => Some(TokenType.For)
    case "if" => Some(TokenType.If)
    case "else" => Some(TokenType.Else)
    case "new" => Some(TokenType.New)
    case "System" => Some(TokenType.System)
    case "boolean" => Some(TokenType.Boolean)
    case "double" => Some(TokenType.Double)
    case "true" => Some(TokenType.True)
    case "false" => Some(TokenType.False)
    case "return" => Some(TokenType.Return)
    case "while" => Some(TokenType.While)
    case "do" => Some(TokenType.Do)
    case "break" => Some(TokenType.Break)
    case "continue" => Some(TokenType.Continue)
    case "String" => Some(TokenType.String)
    case "char" => if d == Modern then Some(TokenType.Char) else None
    case "long" => if d == Modern then Some(TokenType.Long) else None
    case "this" => if d == Modern then Some(TokenType.This) else None
    case "final" => if d == Modern then Some(TokenType.Final) else None
    case "instanceof" => if d == Modern then Some(TokenType.Instanceof) else None
    case "switch" => if d == Modern then Some(TokenType.Switch) else None
    case "case" => if d == Modern then Some(TokenType.Case) else None
    case "default" => if d == Modern then Some(TokenType.Default) else None
    case "try" => if d == Modern then Some(TokenType.Try) else None
    case "catch" => if d == Modern then Some(TokenType.Catch) else None
    case "finally" => if d == Modern then Some(TokenType.Finally) else None
    case "throw" => if d == Modern then Some(TokenType.Throw) else None
    case _ => None
  }

  /** The two-character operator table: `== != >= <= ++ -- += -= *= /= && ||`, and `%=`
      in the modern copy only. */
  function TwoCharOp(d: Dialect, a: char, b: char): (t: Option<TokenType>)
    ensures t.Some? ==> !IsTextKind(t.value)
  {
    if b == '=' then
      match a
      case '=' => Some(TokenType.EqualsEquals)
      case '!' => Some(TokenType.NotEquals)
      case '>' => Some(TokenType.GreaterEquals)
      case '<' => Some(TokenType.LessEquals)
      case '+' => Some(TokenType.PlusEquals)
      case '-' => Some(TokenType.MinusEquals)
      case '*' => Some(TokenType.StarEquals)
      case '/' => Some(TokenType.SlashEquals)
      case '%' => if d == Modern then Some(TokenType.PercentEquals) else None
      case _ => None
    else if a == b then
      match a
      case '+' => Some(TokenType.PlusPlus)
      case '-' => Some(TokenType.MinusMinus)
      case '&' => Some(TokenType.AndAnd)
      case '|' => Some(TokenType.OrOr)
      case _ => None
    else None
  }

  /** The one-character operator table; `%`, `?` and `:` are in the modern copy only. */
  function OneCharOp(d: Dialect, c: char): (t: Option<TokenType>)
    ensures t.Some? ==> !IsTextKind(t.value)
  {
    match c
    case '=' => Some(TokenType.Equals)
    case '+' => Some(TokenType.Plus)
    case '-' => Some(TokenType.Minus)
    case '*' => Some(TokenType.Star)
    case '/' => Some(TokenType.Slash)
    case '(' => Some(TokenType.OpenParen)
    case ')' => Some(TokenType.CloseParen)
    case '{' => Some(TokenType.OpenBrace)
    case '}' => Some(TokenType.CloseBrace)
    case '[' => Some(TokenType.OpenBracket)
    case ']' => Some(TokenType.CloseBracket)
    case ';' => Some(TokenType.Semicolon)
    case ',' => Some(TokenType.Comma)
    case '.' => Some(TokenType.Dot)
    case '>' => Some(TokenType.GreaterThan)
    case '<' => Some(TokenType.LessThan)
    case '!' => Some(TokenType.Bang)
    case '%' => if d == Modern then Some(TokenType.Percent) else None
    case '?' => if d == Modern then Some(TokenType.QuestionMark) else None
    case ':' => if d == Modern then Some(TokenType.Colon) else None
    case _ => None
  }

  predicate IsIdentStart(c: char) { ('a' <= c <= 'z') || ('A' <= c <= 'Z') || c == '_' }
  predicate IsDigit(c: char) { '0' <= c <= '9' }
  predicate IsWordChar(c: char) { IsIdentStart(c) || IsDigit(c) }

  /** Property names every JavaScript object literal inherits from Object.prototype.
      A lookup `KEYWORDS[word]` with one of them finds the inherited member. */
  const InheritedNames: set<string> := {
    "constructor", "toString", "toLocaleString", "valueOf", "hasOwnProperty",
    "isPrototypeOf", "propertyIsEnumerable", "__proto__", "__defineGetter__",
    "__defineSetter__", "__lookupGetter__", "__lookupSetter__"}

  /** The token type of a scanned word as the table lookup is written: its keyword if
      the table has it; for a name of an inherited Object.prototype member, that member,
      which is no token type of the table (`Inherited`); otherwise Identifier. */
  function WordTypeAsWritten(d: Dialect, w: string): (t: TokenType)
    ensures KeywordType(d, w).Some? ==> t == KeywordType(d, w).value
    ensures t == TokenType.Inherited <==> KeywordType(d, w).None? && w in InheritedNames
    ensures t == TokenType.Identifier <==> KeywordType(d, w).None? && w !in InheritedNames
  {
    if KeywordType(d, w).Some? then KeywordType(d, w).value
    else if w in InheritedNames then TokenType.Inherited
    else TokenType.Identifier
  }

  /** The token type a scanned word was evidently meant to get: its keyword if the
      table has it, otherwise Identifier. */
  function WordType(d: Dialect, w: string): (t: TokenType)
    ensures t == TokenType.Identifier <==> KeywordType(d, w).None?
    ensures t == TokenType.Identifier || !IsTextKind(t)
  {
    if KeywordType(d, w).Some? then KeywordType(d, w).value else TokenType.Identifier
  }

  /** The character a char literal `'\c'` stands for. */
  function CharEscape(c: char): char
  {
    match c
    case 'n' => '\n'
    case 't' => '\t'
    case 'r' => '\r'
    case _ => c
  }

  /** End of the run of word characters starting at i. */
  function WordEnd(src: string, i: nat): (e: nat)
    requires i <= |src|
    ensures i <= e <= |src|
    ensures forall k :: i <= k < e ==> IsWordChar(src[k])
    ensures e == |src| || !IsWordChar(src[e])
    decreases |src| - i
  {
    if i < |src| && IsWordChar(src[i]) then WordEnd(src, i + 1) else i
  }

  /** Index of the first `stop` character at or after i, or the end of the source: where
      the comment loop (`stop` a line feed) and the string loop (`stop` a double quote)
      come to rest. */
  function NextOf(src: string, i: nat, stop: char): (e: nat)
    requires i <= |src|
    ensures i <= e <= |src|
    ensures forall k :: i <= k < e ==> src[k] != stop
    ensures e == |src| || src[e] == stop
    decreases |src| - i
  {
    if i < |src| && src[i] != stop then NextOf(src, i + 1, stop) else i
  }

  /** End of a number's run from i: digits and, while `dot` is false, one dot. Also says
      whether a dot was taken. */
  function NumberEnd(src: string, i: nat, dot: bool): (r: (nat, bool))
    requires i <= |src|
    ensures i <= r.0 <= |src|
    ensures forall k :: i <= k < r.0 ==> IsDigit(src[k]) || src[k] == '.'
    ensures r.1 <==> dot || '.' in src[i..r.0]
    ensures dot ==> '.' !in src[i..r.0]
    ensures !dot ==> forall k, m :: i <= k < m < r.0 && src[k] == '.' ==> src[m] != '.'
    ensures r.0 == |src| || !(IsDigit(src[r.0]) || (src[r.0] == '.' && !r.1))
    decreases |src| - i
  {
    if i < |src| && (IsDigit(src[i]) || (src[i] == '.' && !dot)) then
      var r := NumberEnd(src, i + 1, dot || src[i] == '.');
      assert src[i..r.0] == [src[i]] + src[i + 1..r.0];
      r
    else
      (i, dot)
  }

  /** What one turn of the tokenizer's loop produces: at most one token, the next
      cursor position and the line counter after it. */
  datatype Scanned = Scanned(token: Option<Token>, next: nat, line: nat)

  predicate IsCharLiteral(s: Scanned)
  {
    s.token.Some? && s.token.value.kind == TokenType.CharLiteral
  }

  function ScanNumber(d: Dialect, src: string, cur: nat, line: nat): (r: Scanned)
    requires cur < |src| && IsDigit(src[cur])
    ensures cur < r.next <= |src|
  {
    var (e, dbl) := NumberEnd(src, cur, false);
    var v := src[cur..e];
    if d == Modern && e < |src| && (src[e] == 'L' || src[e] == 'l') then
      Scanned(Some(Token(TokenType.LongLiteral, v, line)), e + 1, line)
    else
      Scanned(Some(Token(if dbl then TokenType.DoubleLiteral else TokenType.IntegerLiteral, v, line)), e, line)
  }

  function ScanString(src: string, cur: nat, line: nat): (r: Result<Scanned>)
    requires cur < |src| && src[cur] == '"'
    ensures r.Ok? ==> cur < r.value.next <= |src|
  {
    var close := NextOf(src, cur + 1, '"');
    if close >= |src| then Err(ParseError("Unclosed string literal.", line))
    else
      var v := src[cur + 1..close];
      Ok(Scanned(Some(Token(TokenType.StringLiteral, v, line)), close + 1, line + Count(v, '\n')))
  }

  function ScanChar(src: string, cur: nat, line: nat): (r: Result<Scanned>)
    requires cur < |src| && src[cur] == '\''
    ensures r.Ok? ==> cur < r.value.next <= |src|
  {
    var p := cur + 1;
    if p < |src| && src[p] == '\\' then
      if p + 2 >= |src| || src[p + 2] != '\'' then Err(ParseError("Unclosed char literal.", line))
      else Ok(Scanned(Some(Token(TokenType.CharLiteral, [CharEscape(src[p + 1])], line)), p + 3, line))
    else
      if p + 1 >= |src| || src[p + 1] != '\'' then Err(ParseError("Unclosed char literal.", line))
      else Ok(Scanned(Some(Token(TokenType.CharLiteral, [src[p]], line)), p + 2, line))
  }

  /** One turn of the tokenizer's loop at position `cur` with line counter `line`. The
      branches are tried in the source's order: white space, `//` comment, two-character
      operator, one-character operator, word, number, string, char literal (modern
      only), and otherwise an error. */
  function ScanAt(d: Dialect, src: string, cur: nat, line: nat): (r: Result<Scanned>)
    requires cur < |src|
    ensures r.Ok? ==> cur < r.value.next <= |src|
    ensures r.Ok? ==> line <= r.value.line
    ensures r.Ok? && r.value.token.Some? ==>
              r.value.token.value.line == line && r.value.token.value.kind != TokenType.EOF
    ensures r.Err? ==> r.error.ParseError? && r.error.line == line
  {
    var c := src[cur];
    if IsJsSpace(c) then
      Ok(Scanned(None, cur + 1, if c == '\n' then line + 1 else line))
    else if c == '/' && cur + 1 < |src| && src[cur + 1] == '/' then
      Ok(Scanned(None, NextOf(src, cur, '\n'), line))
    else if cur + 1 < |src| && TwoCharOp(d, c, src[cur + 1]).Some? then
      Ok(Scanned(Some(Token(TwoCharOp(d, c, src[cur + 1]).value, [c, src[cur + 1]], line)), cur + 2, line))
    else if OneCharOp(d, c).Some? then
      Ok(Scanned(Some(Token(OneCharOp(d, c).value, [c], line)), cur + 1, line))
    else if IsIdentStart(c) then
      var e := WordEnd(src, cur);
      var w := src[cur..e];
      Ok(Scanned(Some(Token(WordTypeAsWritten(d, w), w, line)), e, line))
    else if IsDigit(c) then
      Ok(ScanNumber(d, src, cur, line))
    else if c == '"' then
      ScanString(src, cur, line)
    else if d == Modern && c == '\'' then
      ScanChar(src, cur, line)
    else
      Err(ParseError("Unexpected character '" + [c] + "'", line))
  }

  /** The tokenizer's loop from position `cur`, with the tokens `acc` produced so far. */
  function LexFrom(d: Dialect, src: string, cur: nat, line: nat, acc: seq<Token>): Result<seq<Token>>
    requires cur <= |src|
    decreases |src| - cur
  {
    if cur == |src| then Ok(acc + [Token(TokenType.EOF, "EOF", line)])
    else
      match ScanAt(d, src, cur, line)
      case Err(e) => Err(e)
      case Ok(s) =>
        LexFrom(d, src, s.next, s.line, if s.token.Some? then acc + [s.token.value] else acc)
  }

  /** The token stream of a whole source text (`tokenize`). */
  function Lex(d: Dialect, src: string): Result<seq<Token>>
  {
    LexFrom(d, src, 0, 1, [])
  }

  lemma LexStepOk(d: Dialect, src: string, cur: nat, line: nat, acc: seq<Token>, s: Scanned)
    requires cur < |src| && ScanAt(d, src, cur, line) == Ok(s)
    ensures LexFrom(d, src, cur, line, acc)
         == LexFrom(d, src, s.next, s.line, if s.token.Some? then acc + [s.token.value] else acc)
  {
  }

  lemma LexStepErr(d: Dialect, src: string, cur: nat, line: nat, acc: seq<Token>, e: Error)
    requires cur < |src| && ScanAt(d, src, cur, line) == Err(e)
    ensures LexFrom(d, src, cur, line, acc) == Err(e)
  {
  }

  /** The comment loop: skips to the next line feed, which is left for the white-space
      branch. */
  method SkipComment(source: string, start: nat) returns (cursor: nat)
    requires start <= |source|
    ensures cursor == NextOf(source, start, '\n')
  {
    cursor := start;
    while cursor < |source| && source[cursor] != '\n'
      invariant start <= cursor <= |source|
      invariant NextOf(source, cursor, '\n') == NextOf(source, start, '\n')
      decreases |source| - cursor
    {
      cursor := cursor + 1;
    }
  }

  /** The word loop: collects the longest run of word characters. */
  method ReadWord(source: string, start: nat) returns (value: string, cursor: nat)
    requires start <= |source|
    ensures cursor == WordEnd(source, start) && value == source[start..cursor]
  {
    value, cursor := "", start;
    while cursor < |source| && IsWordChar(source[cursor])
      invariant start <= cursor <= |source|
      invariant value == source[start..cursor]
      invariant WordEnd(source, cursor) == WordEnd(source, start)
      decreases |source| - cursor
    {
      value := value + [source[cursor]];
      cursor := cursor + 1;
    }
  }

  /** The number loop and the long-suffix check. */
  method ReadNumber(d: Dialect, source: string, start: nat, line: nat) returns (tok: Token, cursor: nat)
    requires start < |source| && IsDigit(source[start])
    ensures ScanNumber(d, source, start, line) == Scanned(Some(tok), cursor, line)
  {
    var value := "";
    var isDouble := false;
    cursor := start;
    while cursor < |source| && (IsDigit(source[cursor]) || (source[cursor] == '.' && !isDouble))
      invariant start <= cursor <= |source|
      invariant value == source[start..cursor]
      invariant NumberEnd(source, cursor, isDouble) == NumberEnd(source, start, false)
      decreases |source| - cursor
    {
      if source[cursor] == '.' { isDouble := true; }
      value := value + [source[cursor]];
      cursor := cursor + 1;
    }
    var isLong := false;
    if d == Modern && cursor < |source| && (source[cursor] == 'L' || source[cursor] == 'l') {
      isLong := true;
      cursor := cursor + 1;
    }
    var kind := if isLong then TokenType.LongLiteral
                else if isDouble then TokenType.DoubleLiteral
                else TokenType.IntegerLiteral;
    tok := Token(kind, value, line);
  }

  /** The string loop: collects up to the closing quote, counting line feeds. */
  method ReadString(source: string, start: nat, startLine: nat) returns (r: Result<Scanned>)
    requires start < |source| && source[start] == '"'
    ensures r == ScanString(source, start, startLine)
  {
    var value := "";
    var line := startLine;
    var cursor := start + 1;
    while cursor < |source| && source[cursor] != '"'
      invariant start < cursor <= |source|
      invariant value == source[start + 1..cursor]
      invariant line == startLine + Count(value, '\n')
      invariant NextOf(source, cursor, '"') == NextOf(source, start + 1, '"')
      decreases |source| - cursor
    {
      if source[cursor] == '\n' { line := line + 1; }
      CountAppend(value, [source[cursor]], '\n');
      value := value + [source[cursor]];
      cursor := cursor + 1;
    }
    if cursor >= |source| {
      return Err(ParseError("Unclosed string literal.", startLine));
    }
    cursor := cursor + 1;
    r := Ok(Scanned(Some(Token(TokenType.StringLiteral, value, startLine)), cursor, line));
  }

  /** The char-literal branch: an optional backslash escape, one character, and the
      closing quote. The line counter is not advanced here. */
  method ReadChar(source: string, start: nat, line: nat) returns (r: Result<Scanned>)
    requires start < |source| && source[start] == '\''
    ensures r == ScanChar(source, start, line)
  {
    var value := "";
    var cursor := start + 1;
    if cursor < |source| && source[cursor] == '\\' {
      cursor := cursor + 1;
      if cursor < |source| { value := [CharEscape(source[cursor])]; }
      cursor := cursor + 1;
    } else {
      if cursor < |source| { value := [source[cursor]]; }
      cursor := cursor + 1;
    }
    if cursor >= |source| || source[cursor] != '\'' {
      return Err(ParseError("Unclosed char literal.", line));
    }
    cursor := cursor + 1;
    r := Ok(Scanned(Some(Token(TokenType.CharLiteral, value, line)), cursor, line));
  }

  /** One turn of the tokenizer's loop: the branch for the character at `cursor`. */
  method ScanOne(d: Dialect, source: string, cursor: nat, line: nat) returns (step: Result<Scanned>)
    requires cursor < |source|
    ensures step == ScanAt(d, source, cursor, line)
  {
    var c := source[cursor];
    if IsJsSpace(c) {
      step := Ok(Scanned(None, cursor + 1, if c == '\n' then line + 1 else line));
    } else if c == '/' && cursor + 1 < |source| && source[cursor + 1] == '/' {
      var next := SkipComment(source, cursor);
      step := Ok(Scanned(None, next, line));
    } else if cursor + 1 < |source| && TwoCharOp(d, c, source[cursor + 1]).Some? {
      var op := source[cursor..cursor + 2];
      assert op == [c, source[cursor + 1]];
      step := Ok(Scanned(Some(Token(TwoCharOp(d, c, source[cursor + 1]).value, op, line)), cursor + 2, line));
    } else if OneCharOp(d, c).Some? {
      step := Ok(Scanned(Some(Token(OneCharOp(d, c).value, [c], line)), cursor + 1, line));
    } else if IsIdentStart(c) {
      var value, next := ReadWord(source, cursor);
      step := Ok(Scanned(Some(Token(WordTypeAsWritten(d, value), value, line)), next, line));
    } else if IsDigit(c) {
      var tok, next := ReadNumber(d, source, cursor, line);
      step := Ok(Scanned(Some(tok), next, line));
    } else if c == '"' {
      step := ReadString(source, cursor, line);
    } else if d == Modern && c == '\'' {
      step := ReadChar(source, cursor, line);
    } else {
      step := Err(ParseError("Unexpected character '" + [c] + "'", line));
    }
  }

  /** `tokenize`, written as the source's cursor loop; it produces exactly `Lex`. */
  method Tokenize(d: Dialect, source: string) returns (r: Result<seq<Token>>)
    ensures r == Lex(d, source)
  {
    var tokens: seq<Token> := [];
    var line: nat := 1;
    var cursor: nat := 0;
    while cursor < |source|
      invariant cursor <= |source|
      invariant LexFrom(d, source, cursor, line, tokens) == Lex(d, source)
      decreases |source| - cursor
    {
      var step := ScanOne(d, source, cursor, line);
      match step {
        case Err(e) =>
          LexStepErr(d, source, cursor, line, tokens, e);
          return Err(e);
        case Ok(s) =>
          LexStepOk(d, source, cursor, line, tokens, s);
          if s.token.Some? { tokens := tokens + [s.token.value]; }
          cursor, line := s.next, s.line;
      }
    }
    r := Ok(tokens + [Token(TokenType.EOF, "EOF", line)]);
  }
}
