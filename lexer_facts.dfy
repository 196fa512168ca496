// What the tokenizer guarantees about the stream it produces and about each kind of
// token it scans.

module LexerFacts {
  import opened Common
  import opened Text
  import opened Dialects
  import opened Lexer

  /** A token stream as the parser expects it: one EOF token, last, carrying the text
      "EOF"; line numbers start at 1 and never decrease along the stream. */
  predicate WellFormedStream(ts: seq<Token>)
  {
    |ts| >= 1
    && ts[|ts| - 1].kind == TokenType.EOF && ts[|ts| - 1].value == "EOF"
    && (forall i :: 0 <= i < |ts| - 1 ==> ts[i].kind != TokenType.EOF)
    && (forall i :: 0 <= i < |ts| ==> ts[i].line >= 1)
    && (forall i, j :: 0 <= i <= j < |ts| ==> ts[i].line <= ts[j].line)
  }

  lemma {:induction false} CountAbsent(s: string, c: char)
    requires forall k :: 0 <= k < |s| ==> s[k] != c
    ensures Count(s, c) == 0
  {
    if s != [] {
      CountAbsent(s[1..], c);
    }
  }

  lemma CountRangeAbsent(src: string, i: nat, e: nat)
    requires i <= e <= |src|
    requires forall k :: i <= k < e ==> src[k] != '\n'
    ensures Count(src[i..e], '\n') == 0
  {
    CountAbsent(src[i..e], '\n');
  }

  /** The line counter after a turn of the loop has grown by the number of line feeds
      the turn consumed, except after a char literal, whose line feed is not counted. */
  predicate LinesCounted(src: string, cur: nat, line: nat, r: Result<Scanned>)
  {
    r.Ok? && cur <= r.value.next <= |src| ==>
      r.value.line == line + (if IsCharLiteral(r.value) then 0 else Count(src[cur..r.value.next], '\n'))
  }

  lemma StringLines(src: string, cur: nat, line: nat)
    requires cur < |src| && src[cur] == '"'
    ensures LinesCounted(src, cur, line, ScanString(src, cur, line))
  {
    var close := NextOf(src, cur + 1, '"');
    if close < |src| {
      var v := src[cur + 1..close];
      assert src[cur..close + 1] == [src[cur]] + v + ['"'];
      CountAppend([src[cur]] + v, ['"'], '\n');
      CountAppend([src[cur]], v, '\n');
    }
  }

  lemma NumberLines(d: Dialect, src: string, cur: nat, line: nat)
    requires cur < |src| && IsDigit(src[cur])
    ensures LinesCounted(src, cur, line, Ok(ScanNumber(d, src, cur, line)))
  {
    var (e, _) := NumberEnd(src, cur, false);
    var r := ScanNumber(d, src, cur, line);
    assert r.line == line && !IsCharLiteral(r);
    if d == Modern && e < |src| && (src[e] == 'L' || src[e] == 'l') {
      assert r.next == e + 1;
      CountRangeAbsent(src, cur, e + 1);
    } else {
      assert r.next == e;
      CountRangeAbsent(src, cur, e);
    }
  }

  lemma ScanAtLines(d: Dialect, src: string, cur: nat, line: nat)
    requires cur < |src|
    ensures LinesCounted(src, cur, line, ScanAt(d, src, cur, line))
  {
    var c := src[cur];
    if IsJsSpace(c) {
      assert src[cur..cur + 1] == [c];
    } else if c == '/' && cur + 1 < |src| && src[cur + 1] == '/' {
      CountRangeAbsent(src, cur, NextOf(src, cur, '\n'));
    } else if cur + 1 < |src| && TwoCharOp(d, c, src[cur + 1]).Some? {
      CountRangeAbsent(src, cur, cur + 2);
    } else if OneCharOp(d, c).Some? {
      CountRangeAbsent(src, cur, cur + 1);
    } else if IsIdentStart(c) {
      CountRangeAbsent(src, cur, WordEnd(src, cur));
    } else if IsDigit(c) {
      NumberLines(d, src, cur, line);
    } else if c == '"' {
      StringLines(src, cur, line);
    }
  }

  /** What the loop from `cur` with tokens `acc` so far returns on success: a well-formed
      stream extending `acc` whose last line counts at most the line feeds still ahead. */
  predicate StreamExtends(src: string, cur: nat, line: nat, acc: seq<Token>, r: Result<seq<Token>>)
    requires cur <= |src|
  {
    r.Ok? ==>
      WellFormedStream(r.value) && |acc| < |r.value| && r.value[..|acc|] == acc
      && r.value[|r.value| - 1].line <= line + Count(src[cur..], '\n')
  }

  /** The tokens gathered so far: none is EOF, each is on a line from 1 to `line`, and
      their lines never decrease. */
  predicate Gathered(acc: seq<Token>, line: nat)
  {
    (forall i :: 0 <= i < |acc| ==> acc[i].kind != TokenType.EOF && 1 <= acc[i].line <= line)
    && (forall i, j :: 0 <= i <= j < |acc| ==> acc[i].line <= acc[j].line)
  }

  lemma GatheredEof(acc: seq<Token>, line: nat)
    requires line >= 1 && Gathered(acc, line)
    ensures WellFormedStream(acc + [Token(TokenType.EOF, "EOF", line)])
  {
  }

  lemma GatheredStep(acc: seq<Token>, line: nat, s: Scanned)
    requires Gathered(acc, line) && line <= s.line
    requires s.token.Some? ==> s.token.value.line == line && s.token.value.kind != TokenType.EOF
    requires line >= 1
    ensures Gathered(if s.token.Some? then acc + [s.token.value] else acc, s.line)
  {
  }

  lemma StreamStep(src: string, cur: nat, line: nat, acc: seq<Token>, s: Scanned, res: Result<seq<Token>>)
    requires cur <= s.next <= |src|
    requires s.line <= line + Count(src[cur..s.next], '\n')
    requires StreamExtends(src, s.next, s.line, if s.token.Some? then acc + [s.token.value] else acc, res)
    ensures StreamExtends(src, cur, line, acc, res)
  {
    var acc' := if s.token.Some? then acc + [s.token.value] else acc;
    assert src[cur..] == src[cur..s.next] + src[s.next..];
    CountAppend(src[cur..s.next], src[s.next..], '\n');
    if res.Ok? {
      assert res.value[..|acc'|] == acc';
      assert res.value[..|acc|] == acc'[..|acc|];
    }
  }

  lemma {:induction false} LexFromShape(d: Dialect, src: string, cur: nat, line: nat, acc: seq<Token>)
    requires cur <= |src| && line >= 1 && Gathered(acc, line)
    ensures StreamExtends(src, cur, line, acc, LexFrom(d, src, cur, line, acc))
    decreases |src| - cur
  {
    if cur == |src| {
      GatheredEof(acc, line);
      assert (acc + [Token(TokenType.EOF, "EOF", line)])[..|acc|] == acc;
    } else {
      var r := ScanAt(d, src, cur, line);
      if r.Ok? {
        var s := r.value;
        var acc' := if s.token.Some? then acc + [s.token.value] else acc;
        LexStepOk(d, src, cur, line, acc, s);
        GatheredStep(acc, line, s);
        ScanAtLines(d, src, cur, line);
        LexFromShape(d, src, s.next, s.line, acc');
        StreamStep(src, cur, line, acc, s, LexFrom(d, src, s.next, s.line, acc'));
      } else {
        LexStepErr(d, src, cur, line, acc, r.error);
      }
    }
  }

  /** The stream `tokenize` returns ends in exactly one EOF token, its line numbers never
      decrease, and the last line is at most one more than the number of line feeds. */
  lemma TokenStreamShape(d: Dialect, src: string)
    ensures Lex(d, src).Ok? ==>
              WellFormedStream(Lex(d, src).value)
              && Lex(d, src).value[|Lex(d, src).value| - 1].line <= 1 + Count(src, '\n')
  {
    LexFromShape(d, src, 0, 1, []);
    assert src[0..] == src;
  }

  /** Every error the tokenizer reports is a ParseError. */
  lemma {:induction false} LexErrorsAreParseErrors(d: Dialect, src: string, cur: nat, line: nat, acc: seq<Token>)
    requires cur <= |src|
    ensures LexFrom(d, src, cur, line, acc).Err? ==> LexFrom(d, src, cur, line, acc).error.ParseError?
    decreases |src| - cur
  {
    if cur < |src| && ScanAt(d, src, cur, line).Ok? {
      var s := ScanAt(d, src, cur, line).value;
      LexErrorsAreParseErrors(d, src, s.next, s.line, if s.token.Some? then acc + [s.token.value] else acc);
    }
  }

  /** A word is scanned whole: the token holds the longest run of letters, digits and
      underscores starting at the cursor. Its type is the keyword's when the word is one,
      `Inherited` when the word names an Object.prototype member, and Identifier
      otherwise. */
  lemma ScanWordMaximal(d: Dialect, src: string, cur: nat, line: nat)
    requires cur < |src| && IsIdentStart(src[cur])
    ensures var e := WordEnd(src, cur); var w := src[cur..e];
            && ScanAt(d, src, cur, line) == Ok(Scanned(Some(Token(WordTypeAsWritten(d, w), w, line)), e, line))
            && |w| >= 1 && (forall k :: 0 <= k < |w| ==> IsWordChar(w[k]))
            && (e == |src| || !IsWordChar(src[e]))
            && (KeywordType(d, w).Some? ==> WordTypeAsWritten(d, w) == KeywordType(d, w).value)
            && (WordTypeAsWritten(d, w) == TokenType.Identifier <==> KeywordType(d, w).None? && w !in InheritedNames)
            && (WordTypeAsWritten(d, w) == TokenType.Inherited <==> w in InheritedNames)
  {
    WordScanned(d, src, cur, line);
    WordRun(src, cur);
    var w := src[cur..WordEnd(src, cur)];
    if w in InheritedNames {
      InheritedNamesAreNotIdentifiers(d, w);
    }
  }

  /** The run a word takes: at least one character, all of them word characters, and
      no word character right after it. */
  lemma WordRun(src: string, cur: nat)
    requires cur < |src| && IsIdentStart(src[cur])
    ensures var e := WordEnd(src, cur); var w := src[cur..e];
            && |w| >= 1 && (forall k :: 0 <= k < |w| ==> IsWordChar(w[k]))
            && (e == |src| || !IsWordChar(src[e]))
  {
    var e := WordEnd(src, cur);
    var w := src[cur..e];
    assert IsWordChar(src[cur]) && e > cur;
    forall k | 0 <= k < |w| ensures IsWordChar(w[k]) {
      assert w[k] == src[cur + k];
    }
  }

  /** A letter or `_` starts the word branch. */
  lemma WordScanned(d: Dialect, src: string, cur: nat, line: nat)
    requires cur < |src| && IsIdentStart(src[cur])
    ensures var e := WordEnd(src, cur);
            ScanAt(d, src, cur, line) == Ok(Scanned(Some(Token(WordTypeAsWritten(d, src[cur..e]), src[cur..e], line)), e, line))
  {
    assert !IsJsSpace(src[cur]) && src[cur] != '/' && OneCharOp(d, src[cur]).None?;
    assert cur + 1 < |src| ==> TwoCharOp(d, src[cur], src[cur + 1]).None?;
  }

  /** A two-character operator wins over its one-character prefix. */
  lemma ScanTwoCharOperator(d: Dialect, src: string, cur: nat, line: nat)
    requires cur + 1 < |src| && TwoCharOp(d, src[cur], src[cur + 1]).Some?
    ensures ScanAt(d, src, cur, line)
         == Ok(Scanned(Some(Token(TwoCharOp(d, src[cur], src[cur + 1]).value, src[cur..cur + 2], line)), cur + 2, line))
  {
    assert src[cur..cur + 2] == [src[cur], src[cur + 1]];
  }

  /** A `//` comment yields no token and stops at the next line feed, which is left for
      the white-space branch to count. */
  lemma ScanCommentSkipsLine(d: Dialect, src: string, cur: nat, line: nat)
    requires cur + 1 < |src| && src[cur] == '/' && src[cur + 1] == '/'
    ensures var r := ScanAt(d, src, cur, line);
            r.Ok? && r.value.token.None? && r.value.line == line
            && (r.value.next == |src| || src[r.value.next] == '\n')
            && (forall k :: cur <= k < r.value.next ==> src[k] != '\n')
  {
  }

  /** A number token holds digits with at most one dot; it is a DoubleLiteral exactly when
      it has a dot, unless an `L`/`l` suffix (modern copy only) makes it a LongLiteral, in
      which case the suffix is consumed but not kept. */
  lemma ScanNumberShape(d: Dialect, src: string, cur: nat, line: nat)
    requires cur < |src| && IsDigit(src[cur])
    ensures var r := ScanAt(d, src, cur, line);
            r.Ok? && r.value.token.Some? && r.value.line == line
            && var t := r.value.token.value;
            |t.value| >= 1 && t.value == src[cur..cur + |t.value|] && IsDigit(t.value[0])
            && (forall k :: 0 <= k < |t.value| ==> IsDigit(t.value[k]) || t.value[k] == '.')
            && (forall k, m :: 0 <= k < m < |t.value| && t.value[k] == '.' ==> t.value[m] != '.')
            && (t.kind == TokenType.LongLiteral <==>
                  d == Modern && cur + |t.value| < |src| && src[cur + |t.value|] in {'L', 'l'})
            && (t.kind == TokenType.LongLiteral ==> r.value.next == cur + |t.value| + 1)
            && (t.kind != TokenType.LongLiteral ==>
                  r.value.next == cur + |t.value|
                  && (t.kind == TokenType.DoubleLiteral <==> '.' in t.value)
                  && (t.kind == TokenType.IntegerLiteral <==> '.' !in t.value))
  {
    var (e, dbl) := NumberEnd(src, cur, false);
    assert src[cur..e][0] == src[cur];
  }

  /** What a string literal scans to: it runs to the next double quote, keeps its text
      unescaped, takes the line it starts on, and advances the line counter by the line
      feeds inside it; with no closing quote the tokenizer fails at the starting line. */
  predicate StringScanned(src: string, cur: nat, line: nat, r: Result<Scanned>)
    requires cur < |src|
  {
    (r.Ok? <==> exists k :: cur < k < |src| && src[k] == '"')
    && (r.Err? ==> r.error == ParseError("Unclosed string literal.", line))
    && (r.Ok? ==>
          (r.value.token.Some? && cur + 2 <= r.value.next <= |src|
           && var v := r.value.token.value.value;
           r.value.token.value == Token(TokenType.StringLiteral, v, line)
           && src[cur + 1..r.value.next - 1] == v && src[r.value.next - 1] == '"'
           && '"' !in v && r.value.line == line + Count(v, '\n')))
  }

  lemma ScanStringShape(d: Dialect, src: string, cur: nat, line: nat)
    requires cur < |src| && src[cur] == '"'
    ensures ScanAt(d, src, cur, line) == ScanString(src, cur, line)
    ensures StringScanned(src, cur, line, ScanString(src, cur, line))
  {
    StringIsScanString(d, src, cur, line);
    StringBranchScanned(src, cur, line);
  }

  lemma StringBranchScanned(src: string, cur: nat, line: nat)
    requires cur < |src| && src[cur] == '"'
    ensures StringScanned(src, cur, line, ScanString(src, cur, line))
  {
    var close := NextOf(src, cur + 1, '"');
    if close < |src| {
      var v := src[cur + 1..close];
      assert forall k :: 0 <= k < |v| ==> v[k] == src[cur + 1 + k];
    }
  }

  lemma StringIsScanString(d: Dialect, src: string, cur: nat, line: nat)
    requires cur < |src| && src[cur] == '"'
    ensures ScanAt(d, src, cur, line) == ScanString(src, cur, line)
  {
  }

  lemma CharIsScanChar(src: string, cur: nat, line: nat)
    requires cur < |src| && src[cur] == '\''
    ensures ScanAt(Modern, src, cur, line) == ScanChar(src, cur, line)
  {
  }

  lemma LexAtEnd(d: Dialect, src: string, line: nat, acc: seq<Token>, t: Token)
    requires t == Token(TokenType.EOF, "EOF", line)
    ensures LexFrom(d, src, |src|, line, acc) == Ok(acc + [t])
  {
  }

  /** In the modern copy, `'a'` is a CharLiteral holding `a`; the legacy copy has no char
      literals and stops at the quote. */
  lemma CharLiteralExample()
    ensures Lex(Modern, "'a'") == Ok([Token(TokenType.CharLiteral, "a", 1), Token(TokenType.EOF, "EOF", 1)])
    ensures Lex(Legacy, "'a'") == Err(ParseError("Unexpected character '''", 1))
  {
    var src := "'a'";
    var a := Token(TokenType.CharLiteral, "a", 1);
    var e := Token(TokenType.EOF, "EOF", 1);
    CharIsScanChar(src, 0, 1);
    assert ScanChar(src, 0, 1) == Ok(Scanned(Some(a), 3, 1));
    LexStepOk(Modern, src, 0, 1, [], Scanned(Some(a), 3, 1));
    assert [] + [a] == [a];
    LexAtEnd(Modern, src, 1, [a], e);
    assert [a] + [e] == [a, e];
    LegacyRejectsModernCharacters(src, 0, 1);
    LexStepErr(Legacy, src, 0, 1, [], ParseError("Unexpected character '''", 1));
  }

  /** `'\n'` is the line-feed character, and an unknown escape such as `'\q'` is `q`. */
  lemma CharEscapeExample()
    ensures Lex(Modern, "'\\n'") == Ok([Token(TokenType.CharLiteral, "\n", 1), Token(TokenType.EOF, "EOF", 1)])
    ensures Lex(Modern, "'\\q'") == Ok([Token(TokenType.CharLiteral, "q", 1), Token(TokenType.EOF, "EOF", 1)])
  {
    var e := Token(TokenType.EOF, "EOF", 1);
    var n := Token(TokenType.CharLiteral, "\n", 1);
    CharIsScanChar("'\\n'", 0, 1);
    assert ScanChar("'\\n'", 0, 1) == Ok(Scanned(Some(n), 4, 1));
    LexStepOk(Modern, "'\\n'", 0, 1, [], Scanned(Some(n), 4, 1));
    assert [] + [n] == [n];
    LexAtEnd(Modern, "'\\n'", 1, [n], e);
    assert [n] + [e] == [n, e];
    var q := Token(TokenType.CharLiteral, "q", 1);
    CharIsScanChar("'\\q'", 0, 1);
    assert ScanChar("'\\q'", 0, 1) == Ok(Scanned(Some(q), 4, 1));
    LexStepOk(Modern, "'\\q'", 0, 1, [], Scanned(Some(q), 4, 1));
    assert [] + [q] == [q];
    LexAtEnd(Modern, "'\\q'", 1, [q], e);
    assert [q] + [e] == [q, e];
  }

  /** `i++` is an identifier followed by one `++` token, not two `+` tokens. */
  lemma IncrementExample()
    ensures Lex(Modern, "i++") == Ok([Token(TokenType.Identifier, "i", 1), Token(TokenType.PlusPlus, "++", 1),
                                      Token(TokenType.EOF, "EOF", 1)])
  {
    var src := "i++";
    var i := Token(TokenType.Identifier, "i", 1);
    var pp := Token(TokenType.PlusPlus, "++", 1);
    var e := Token(TokenType.EOF, "EOF", 1);
    assert WordEnd(src, 1) == 1;
    assert src[0..1] == "i";
    assert WordTypeAsWritten(Modern, "i") == TokenType.Identifier by {
      assert KeywordType(Modern, "i").None? && "i" !in InheritedNames;
    }
    assert ScanAt(Modern, src, 0, 1) == Ok(Scanned(Some(i), 1, 1));
    LexStepOk(Modern, src, 0, 1, [], Scanned(Some(i), 1, 1));
    assert [] + [i] == [i];
    ScanTwoCharOperator(Modern, src, 1, 1);
    assert src[1..3] == "++";
    LexStepOk(Modern, src, 1, 1, [i], Scanned(Some(pp), 3, 1));
    LexAtEnd(Modern, src, 1, [i, pp], e);
    assert [i] + [pp] == [i, pp];
    assert [i, pp] + [e] == [i, pp, e];
  }

  /** The characters `%`, `?`, `:` and `'` are tokens only in the modern copy; the legacy
      tokenizer stops on them with "Unexpected character". */
  lemma LegacyRejectsModernCharacters(src: string, cur: nat, line: nat)
    requires cur < |src| && src[cur] in {'%', '?', ':', '\''}
    ensures ScanAt(Legacy, src, cur, line) == Err(ParseError("Unexpected character '" + [src[cur]] + "'", line))
    ensures src[cur] != '\'' ==> ScanAt(Modern, src, cur, line).Ok?
  {
  }

  /** The token kinds only the modern tokenizer knows. */
  predicate ModernOnly(k: TokenType)
  {
    k.LongLiteral? || k.CharLiteral? || k.Char? || k.Long? || k.This? || k.Final? ||
    k.Instanceof? || k.Switch? || k.Case? || k.Default? || k.Try? || k.Catch? ||
    k.Finally? || k.Throw? || k.Percent? || k.PercentEquals? || k.QuestionMark? || k.Colon?
  }

  /** The legacy tokenizer never produces a LongLiteral or CharLiteral, and it knows only
      the twenty base keywords. */
  lemma LegacyTokenKinds(src: string, cur: nat, line: nat)
    requires cur < |src|
    ensures ScanAt(Legacy, src, cur, line).Ok? && ScanAt(Legacy, src, cur, line).value.token.Some? ==>
              !ModernOnly(ScanAt(Legacy, src, cur, line).value.token.value.kind)
  {
    var c := src[cur];
    if cur + 1 < |src| {
      LegacyOperators(c, src[cur + 1]);
    } else {
      LegacyOperators(c, c);
    }
    if IsIdentStart(c) {
      LegacyKeywords(src[cur..WordEnd(src, cur)]);
    }
  }

  lemma LegacyOperators(a: char, b: char)
    ensures TwoCharOp(Legacy, a, b).Some? ==> !ModernOnly(TwoCharOp(Legacy, a, b).value)
    ensures OneCharOp(Legacy, a).Some? ==> !ModernOnly(OneCharOp(Legacy, a).value)
  {
  }

  lemma LegacyKeywords(w: string)
    ensures !ModernOnly(WordTypeAsWritten(Legacy, w))
  {
  }

  /** The keyword lookup as written returns, for a word that names an inherited
      Object.prototype member (`toString`, `valueOf`, `constructor`, ...), that member
      instead of a token type; the intended lookup makes such a word an Identifier. */
  lemma InheritedNamesAreNotIdentifiers(d: Dialect, w: string)
    requires w in InheritedNames
    ensures WordTypeAsWritten(d, w) == TokenType.Inherited
    ensures WordType(d, w) == TokenType.Identifier
  {
  }
}
