// The light syntax check of src/lib/validate.ts: brace and parenthesis counters updated
// character by character, checked at the end of each line, with a final balance check.

module Validation {
  import opened Common
  import Text

  /** `{ line, message }`, the shape both validators report. */
  datatype Diagnostic = Diagnostic(line: int, message: string)

  /** Openings minus closings in a text. */
  function Net(s: string, open: char, close: char): int
  {
    Text.Count(s, open) - Text.Count(s, close)
  }

  /** The net count over the first `n` lines, read as the text they form. */
  function LinesNet(lines: seq<string>, n: nat, open: char, close: char): int
    requires n <= |lines|
  {
    Net(Text.Join(lines[..n], '\n'), open, close)
  }

  function FinalCheck(brace: int, paren: int, lineCount: nat): (r: Option<Diagnostic>)
    ensures r.None? <==> brace == 0 && paren == 0
    ensures r.Some? ==> r.value.line == lineCount
  {
    if brace != 0 then Some(Diagnostic(lineCount, "Unmatched braces"))
    else if paren != 0 then Some(Diagnostic(lineCount, "Unmatched parentheses"))
    else None
  }

  /** The loop over lines from line `i` on, with the counters so far: it stops at the
      first empty line, reports the first line after which a counter is negative
      (braces before parentheses), and otherwise ends with the final check. */
  function ScanLines(lines: seq<string>, i: nat, brace: int, paren: int): (r: Option<Diagnostic>)
    requires i <= |lines|
    decreases |lines| - i
  {
    if i == |lines| || lines[i] == [] then FinalCheck(brace, paren, |lines|)
    else
      var b := brace + Net(lines[i], '{', '}');
      var p := paren + Net(lines[i], '(', ')');
      if b < 0 then Some(Diagnostic(i + 1, "Unmatched closing brace }"))
      else if p < 0 then Some(Diagnostic(i + 1, "Unmatched closing parenthesis )"))
      else ScanLines(lines, i + 1, b, p)
  }

  /** `validateJavaSyntax` of src/lib/validate.ts. */
  function ValidateBalance(code: string): Option<Diagnostic>
  {
    if Text.JsTrim(code) == [] then None
    else ScanLines(Text.Split(code, '\n'), 0, 0, 0)
  }

  /** The counting loops of src/lib/validate.ts. */
  method CheckBalance(code: string) returns (r: Option<Diagnostic>)
    ensures r == ValidateBalance(code)
  {
    if Text.JsTrim(code) == [] {
      return None;
    }
    var lines := Text.Split(code, '\n');
    var braceCount := 0;
    var parenCount := 0;
    var i := 0;
    while i < |lines|
      invariant i <= |lines|
      invariant ScanLines(lines, i, braceCount, parenCount) == ScanLines(lines, 0, 0, 0)
    {
      var line := lines[i];
      if line == [] {
        break;
      }
      var db, dp := CountLine(line);
      braceCount, parenCount := braceCount + db, parenCount + dp;
      if braceCount < 0 {
        return Some(Diagnostic(i + 1, "Unmatched closing brace }"));
      }
      if parenCount < 0 {
        return Some(Diagnostic(i + 1, "Unmatched closing parenthesis )"));
      }
      i := i + 1;
    }
    if braceCount != 0 {
      return Some(Diagnostic(|lines|, "Unmatched braces"));
    }
    if parenCount != 0 {
      return Some(Diagnostic(|lines|, "Unmatched parentheses"));
    }
    return None;
  }

  /** The inner loop: how much one line moves each counter. */
  method CountLine(line: string) returns (brace: int, paren: int)
    ensures brace == Net(line, '{', '}') && paren == Net(line, '(', ')')
  {
    brace, paren := 0, 0;
    var j := 0;
    while j < |line|
      invariant j <= |line|
      invariant brace == Net(line[..j], '{', '}')
      invariant paren == Net(line[..j], '(', ')')
    {
      var ch := line[j];
      if ch == '{' { brace := brace + 1; }
      if ch == '}' { brace := brace - 1; }
      if ch == '(' { paren := paren + 1; }
      if ch == ')' { paren := paren - 1; }
      assert line[..j + 1] == line[..j] + [ch];
      Text.CountAppend(line[..j], [ch], '{');
      Text.CountAppend(line[..j], [ch], '}');
      Text.CountAppend(line[..j], [ch], '(');
      Text.CountAppend(line[..j], [ch], ')');
      j := j + 1;
    }
    assert line[..j] == line;
  }

  // ---------------------------------------------------------------------------
  // Properties

  /** Blank or whitespace-only code is accepted. */
  lemma BlankIsAccepted(code: string)
    requires Text.IsBlank(code)
    ensures ValidateBalance(code) == None
  {
    Text.TrimEmptyIffBlank(code);
  }

  /** A reported line is a line of the code. */
  lemma {:induction false} ReportedLineExists(lines: seq<string>, i: nat, brace: int, paren: int)
    requires i <= |lines|
    ensures ScanLines(lines, i, brace, paren).Some? ==> 1 <= ScanLines(lines, i, brace, paren).value.line <= |lines| || |lines| == 0
    decreases |lines| - i
  {
    if i < |lines| && lines[i] != [] {
      ReportedLineExists(lines, i + 1, brace + Net(lines[i], '{', '}'), paren + Net(lines[i], '(', ')'));
    }
  }

  /** Lines after the first empty line are never read; only their number matters. */
  lemma {:induction false} IgnoresLinesAfterEmpty(lines: seq<string>, other: seq<string>, k: nat, i: nat, brace: int, paren: int)
    requires k < |lines| == |other| && lines[k] == [] && other[k] == []
    requires lines[..k] == other[..k] && i <= k
    ensures ScanLines(lines, i, brace, paren) == ScanLines(other, i, brace, paren)
    decreases k - i
  {
    if i < k {
      assert lines[i] == lines[..k][i] == other[..k][i] == other[i];
      if lines[i] != [] {
        IgnoresLinesAfterEmpty(lines, other, k, i + 1, brace + Net(lines[i], '{', '}'), paren + Net(lines[i], '(', ')'));
      }
    }
  }

  /** Joining one more line adds its count, as long as the counted characters are not
      the newline separator. */
  lemma LinesNetStep(lines: seq<string>, n: nat, open: char, close: char)
    requires n < |lines| && open != '\n' && close != '\n'
    ensures LinesNet(lines, n + 1, open, close) == LinesNet(lines, n, open, close) + Net(lines[n], open, close)
  {
    assert lines[..n + 1] == lines[..n] + [lines[n]];
    JoinAppend(lines[..n], lines[n], '\n');
    var j := Text.Join(lines[..n], '\n');
    if n == 0 {
      assert Text.Join(lines[..1], '\n') == lines[0];
      assert j == [];
    } else {
      Text.CountAppend(j + ['\n'], lines[n], open);
      Text.CountAppend(j + ['\n'], lines[n], close);
      Text.CountAppend(j, ['\n'], open);
      Text.CountAppend(j, ['\n'], close);
    }
  }

  lemma {:induction false} JoinAppend(parts: seq<string>, x: string, sep: char)
    ensures Text.Join(parts + [x], sep) == if parts == [] then x else Text.Join(parts, sep) + [sep] + x
    decreases |parts|
  {
    if |parts| == 1 {
      assert parts + [x] == [parts[0], x];
      assert [parts[0], x][1..] == [x];
    } else if |parts| > 1 {
      assert (parts + [x])[1..] == parts[1..] + [x];
      JoinAppend(parts[1..], x, sep);
    }
  }

  /** While no line is empty, the scan's counters are the net counts of the lines read,
      and it accepts exactly when no prefix of lines closes more than it opened and
      both totals balance. */
  lemma {:induction false} ScanAcceptsBalanced(lines: seq<string>, i: nat)
    requires i <= |lines|
    requires forall k :: 0 <= k < |lines| ==> lines[k] != []
    ensures ScanLines(lines, i, LinesNet(lines, i, '{', '}'), LinesNet(lines, i, '(', ')')).None? <==>
              (forall n :: i < n <= |lines| ==> LinesNet(lines, n, '{', '}') >= 0 && LinesNet(lines, n, '(', ')') >= 0)
              && LinesNet(lines, |lines|, '{', '}') == 0 && LinesNet(lines, |lines|, '(', ')') == 0
    decreases |lines| - i
  {
    if i < |lines| {
      LinesNetStep(lines, i, '{', '}');
      LinesNetStep(lines, i, '(', ')');
      ScanAcceptsBalanced(lines, i + 1);
    }
  }

  /** The same in terms of the whole code: code without empty lines is accepted exactly
      when it is blank, or when every run of leading lines is free of surplus closings
      and the code has as many `{` as `}` and as many `(` as `)`. */
  lemma ValidateAcceptsBalanced(code: string)
    requires forall k :: 0 <= k < |Text.Split(code, '\n')| ==> Text.Split(code, '\n')[k] != []
    ensures var lines := Text.Split(code, '\n');
      ValidateBalance(code).None? <==>
        Text.IsBlank(code) ||
        ((forall n :: 0 < n <= |lines| ==> LinesNet(lines, n, '{', '}') >= 0 && LinesNet(lines, n, '(', ')') >= 0)
         && Text.Count(code, '{') == Text.Count(code, '}') && Text.Count(code, '(') == Text.Count(code, ')'))
  {
    var lines := Text.Split(code, '\n');
    Text.TrimEmptyIffBlank(code);
    ScanAcceptsBalanced(lines, 0);
    assert LinesNet(lines, 0, '{', '}') == 0 && LinesNet(lines, 0, '(', ')') == 0 by {
      assert lines[..0] == [];
    }
    assert LinesNet(lines, |lines|, '{', '}') == Net(code, '{', '}') && LinesNet(lines, |lines|, '(', ')') == Net(code, '(', ')') by {
      assert lines[..|lines|] == lines;
      Text.JoinSplit(code, '\n');
    }
  }
}
