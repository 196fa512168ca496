// `CodeRunner.instrumentCode` and `getIndentation`: the rewriting that inserts calls to
// the state recorder into the user's `main` method before it is compiled.

module Instrument {
  import opened Common
  import Text
  import opened CodeRunner

  // getIndentation

  /** The width `getIndentation` counts: one per leading space and four per leading tab,
      up to the first other character. */
  function IndentWidth(line: string): nat
  {
    if line == [] then 0
    else if line[0] == ' ' then 1 + IndentWidth(line[1..])
    else if line[0] == '\t' then 4 + IndentWidth(line[1..])
    else 0
  }

  /** `" ".repeat(n)`. */
  function Spaces(n: nat): (r: string)
    ensures |r| == n && forall k :: 0 <= k < n ==> r[k] == ' '
  {
    seq(n, _ => ' ')
  }

  /** `getIndentation`, with its loop over the characters of the line. */
  method GetIndentation(line: string) returns (indent: string)
    ensures indent == Spaces(IndentWidth(line))
  {
    var count := 0;
    var i := 0;
    while i < |line|
      invariant i <= |line|
      invariant count + IndentWidth(line[i..]) == IndentWidth(line)
    {
      var c := line[i];
      assert line[i..][1..] == line[i + 1..];
      if c == ' ' {
        count := count + 1;
      } else if c == '\t' {
        count := count + 4;
      } else {
        break;
      }
      i := i + 1;
    }
    indent := Spaces(count);
  }

  /** The length of the run of spaces and tabs that starts the line. */
  function LeadingBlanks(line: string): (n: nat)
    ensures n <= |line|
  {
    if line != [] && (line[0] == ' ' || line[0] == '\t') then 1 + LeadingBlanks(line[1..]) else 0
  }

  /** The width counts the spaces of the leading run once and its tabs four times. */
  lemma {:induction false} IndentWidthCountsBlanks(line: string)
    ensures var lead := line[..LeadingBlanks(line)];
      IndentWidth(line) == Text.Count(lead, ' ') + 4 * Text.Count(lead, '\t')
  {
    if line != [] && (line[0] == ' ' || line[0] == '\t') {
      IndentWidthCountsBlanks(line[1..]);
      var lead := line[..LeadingBlanks(line)];
      assert lead[0] == line[0] && lead[1..] == line[1..][..LeadingBlanks(line[1..])];
    }
  }

  /** Spaces put in front of a text add their number to its width. */
  lemma {:induction false} IndentOfSpaces(n: nat, rest: string)
    ensures IndentWidth(Spaces(n) + rest) == n + IndentWidth(rest)
  {
    if n > 0 {
      assert (Spaces(n) + rest)[0] == ' ';
      assert (Spaces(n) + rest)[1..] == Spaces(n - 1) + rest;
      IndentOfSpaces(n - 1, rest);
    } else {
      assert Spaces(n) + rest == rest;
    }
  }

  /** Indenting with the computed indentation reproduces its width, so a line the
      instrumentation adds sits at the width of the line it follows. */
  lemma IndentationKeepsWidth(line: string, text: string)
    requires text == [] || (text[0] != ' ' && text[0] != '\t')
    ensures IndentWidth(Spaces(IndentWidth(line)) + text) == IndentWidth(line)
  {
    IndentOfSpaces(IndentWidth(line), text);
  }

  // Brace counting

  /** The net change in brace depth over a text: each `{` opens, each `}` closes. */
  function BraceDelta(t: string): int
  {
    Text.Count(t, '{') - Text.Count(t, '}')
  }

  /** The depth change of two texts in a row is the sum of theirs. */
  lemma BraceDeltaAppend(a: string, b: string)
    ensures BraceDelta(a + b) == BraceDelta(a) + BraceDelta(b)
  {
    Text.CountAppend(a, b, '{');
    Text.CountAppend(a, b, '}');
  }

  /** The `for (char c : trimmed.toCharArray())` loop of both passes. */
  method CountBraces(t: string, depth: int) returns (d: int)
    ensures d == depth + BraceDelta(t)
  {
    d := depth;
    var i := 0;
    while i < |t|
      invariant i <= |t|
      invariant d == depth + BraceDelta(t[..i])
    {
      var c := t[i];
      BraceDeltaAppend(t[..i], [c]);
      assert t[..i + 1] == t[..i] + [c];
      if c == '{' {
        d := d + 1;
      }
      if c == '}' {
        d := d - 1;
      }
      i := i + 1;
    }
    assert t[..i] == t;
  }

  // Both passes scan the lines the same way

  /** What a pass knows after a line: whether `main` has been seen, and the brace depth. */
  datatype Scan = Scan(inMain: bool, depth: int)

  /** The test for the start of `main` on a trimmed line. */
  predicate MentionsMain(t: string)
  {
    Contains(t, "static void main") || Contains(t, "public static void main")
  }

  /** The second half of the test adds nothing: a line that contains
      `public static void main` contains `static void main`. */
  lemma PublicMainIsMain(t: string)
    ensures MentionsMain(t) <==> Contains(t, "static void main")
  {
    var p := "public static void main";
    if Contains(t, p) {
      var i: nat :| i <= |t| && MatchAt(t, p, i);
      assert t[i + 7..i + 23] == t[i..i + 23][7..];
      assert p[7..] == "static void main";
      assert MatchAt(t, "static void main", i + 7);
    }
  }

  /** One line of a pass, given its trimmed text. */
  function ScanLine(st: Scan, trimmed: string): Scan
  {
    Scan(st.inMain || MentionsMain(trimmed), st.depth + BraceDelta(trimmed))
  }

  /** The state of a pass after its first `n` lines. */
  function ScanUpTo(lines: seq<string>, n: nat): Scan
    requires n <= |lines|
  {
    if n == 0 then Scan(false, 0) else ScanLine(ScanUpTo(lines, n - 1), Text.JavaTrim(lines[n - 1]))
  }

  /** Once a line has mentioned `main`, every later state is inside it. */
  lemma {:induction false} InMainStays(lines: seq<string>, m: nat, n: nat)
    requires m <= n <= |lines|
    requires ScanUpTo(lines, m).inMain
    ensures ScanUpTo(lines, n).inMain
    decreases n - m
  {
    if m < n {
      InMainStays(lines, m, n - 1);
    }
  }

  /** The depth after `n` lines is the brace balance of their trimmed texts. */
  lemma {:induction false} DepthIsBalance(lines: seq<string>, n: nat)
    requires n <= |lines|
    ensures ScanUpTo(lines, n).depth == BraceDelta(TrimmedConcat(lines, n))
  {
    if n > 0 {
      DepthIsBalance(lines, n - 1);
      BraceDeltaAppend(TrimmedConcat(lines, n - 1), Text.JavaTrim(lines[n - 1]));
    }
  }

  /** The trimmed texts of the first `n` lines, one after another. */
  function TrimmedConcat(lines: seq<string>, n: nat): string
    requires n <= |lines|
  {
    if n == 0 then [] else TrimmedConcat(lines, n - 1) + Text.JavaTrim(lines[n - 1])
  }

  // First pass: where `main` closes

  /** The first pass stops at line `i` when `main` has been seen, the depth is back to
      zero and the trimmed line is a lone `}`. */
  predicate ClosesMain(lines: seq<string>, i: nat)
    requires i < |lines|
  {
    var st := ScanUpTo(lines, i + 1);
    st.inMain && st.depth == 0 && Text.JavaTrim(lines[i]) == "}"
  }

  /** `mainClosingLineIndex` when the pass starts at `i`: the first line from `i` on
      that closes, or -1. */
  function MainClosingFrom(lines: seq<string>, i: nat): (r: int)
    requires i <= |lines|
    ensures r == -1 || (i <= r < |lines| && ClosesMain(lines, r))
    ensures forall k :: i <= k < |lines| && (r == -1 || k < r) ==> !ClosesMain(lines, k)
    decreases |lines| - i
  {
    if i == |lines| then -1
    else if ClosesMain(lines, i) then i
    else MainClosingFrom(lines, i + 1)
  }

  /** The first pass of `instrumentCode`, which breaks out of its loop at the line it
      finds. */
  method FindMainClosing(lines: seq<string>) returns (closing: int)
    ensures closing == MainClosingFrom(lines, 0)
  {
    var st := Scan(false, 0);
    var i := 0;
    while i < |lines|
      invariant i <= |lines|
      invariant st == ScanUpTo(lines, i)
      invariant MainClosingFrom(lines, 0) == MainClosingFrom(lines, i)
    {
      var trimmed := Text.JavaTrim(lines[i]);
      var inMain := st.inMain || MentionsMain(trimmed);
      var depth := CountBraces(trimmed, st.depth);
      st := Scan(inMain, depth);
      if st.inMain && st.depth == 0 && trimmed == "}" {
        return i;
      }
      i := i + 1;
    }
    closing := -1;
  }

  /** No line names `main`. */
  predicate NeverMentionsMain(lines: seq<string>)
  {
    forall k :: 0 <= k < |lines| ==> !MentionsMain(Text.JavaTrim(lines[k]))
  }

  /** Code that never mentions `main` has no closing line. */
  lemma NoMainNoClosing(lines: seq<string>)
    requires NeverMentionsMain(lines)
    ensures MainClosingFrom(lines, 0) == -1
  {
    forall n | 0 <= n <= |lines|
      ensures !ScanUpTo(lines, n).inMain
    {
      OutsideMain(lines, n);
    }
  }

  lemma {:induction false} OutsideMain(lines: seq<string>, n: nat)
    requires n <= |lines|
    requires forall k :: 0 <= k < n ==> !MentionsMain(Text.JavaTrim(lines[k]))
    ensures !ScanUpTo(lines, n).inMain
  {
    if n > 0 {
      OutsideMain(lines, n - 1);
    }
  }

  // Second pass: what each line becomes

  /** A line of the output: one of the user's lines, or one the instrumentation adds. */
  datatype Emitted = Original(text: string) | Injected(text: string)

  /** The import the output starts with, followed by an empty line. */
  const Header: string := "import com.javavis.StateCapture;\n\n"

  /** The primitive type names the array branch refuses as a name. */
  const PrimitiveTypes: seq<string> := ["int", "long", "double", "float", "boolean"]

  function SetVariableCall(indent: string, name: string): string
  {
    indent + "StateCapture.setVariable(\"" + name + "\", " + name + ");"
  }

  function CaptureCall(indent: string, lineNum: nat): string
  {
    indent + "StateCapture.captureState(" + Text.NatToString(lineNum) + ");"
  }

  function TraceCall(indent: string): string
  {
    indent + "StateCapture.getTraceJSON();"
  }

  /** A line inside `main` that is not empty, a lone brace or a comment. */
  predicate Instrumentable(st: Scan, trimmed: string)
  {
    st.inMain && st.depth > 0 && trimmed != [] && trimmed != "{" && trimmed != "}"
    && !StartsWith(trimmed, "//") && !StartsWith(trimmed, "*")
  }

  /** The test for an assignment to an array element. */
  predicate IsArrayAssignment(t: string)
  {
    '[' in t && ']' in t && '=' in t && !Contains(t, "==")
  }

  /** The test for any other assignment. */
  predicate IsAssignment(t: string)
  {
    '=' in t && !Contains(t, "==") && !Contains(t, "!=")
  }

  /** The `setVariable` call for the variable a line assigns, if it names one. */
  function AssignmentCaptures(indent: string, trimmed: string): seq<Emitted>
  {
    if IsArrayAssignment(trimmed) then
      match ExtractArrayName(trimmed)
      case Some(name) => if name in PrimitiveTypes then [] else [Injected(SetVariableCall(indent, name))]
      case None => []
    else if IsAssignment(trimmed) then
      match ExtractVariableName(trimmed)
      case Some(name) => [Injected(SetVariableCall(indent, name))]
      case None => []
    else []
  }

  /** One `setVariable` call per name, in order. */
  function Captures(indent: string, names: seq<string>): (r: seq<Emitted>)
    ensures |r| == |names|
  {
    if names == [] then []
    else Captures(indent, names[..|names| - 1]) + [Injected(SetVariableCall(indent, names[|names| - 1]))]
  }

  /** The calls for the variables a `for` header declares; `extractForVariables` can throw. */
  function ForCaptures(indent: string, trimmed: string): Result<seq<Emitted>>
  {
    if StartsWith(trimmed, "for") then
      var names :- ForVariables(trimmed);
      Ok(Captures(indent, names))
    else Ok([])
  }

  /** The `getTraceJSON` call the second pass puts before the line that precedes the
      one that closes `main`. */
  function TraceBefore(line: string, st: Scan, traceBefore: bool): seq<Emitted>
  {
    if traceBefore && st.inMain && st.depth > 0 then [Injected(TraceCall(Spaces(IndentWidth(line))))] else []
  }

  /** The calls the second pass puts after a line: for an instrumented line, the
      `setVariable` calls and `captureState` with its number `lineNum`. */
  function After(line: string, lineNum: nat, st: Scan): Result<seq<Emitted>>
  {
    var trimmed := Text.JavaTrim(line);
    var indent := Spaces(IndentWidth(line));
    if Instrumentable(st, trimmed) then
      var fors :- ForCaptures(indent, trimmed);
      Ok(AssignmentCaptures(indent, trimmed) + fors + [Injected(CaptureCall(indent, lineNum))])
    else Ok([])
  }

  /** What the second pass writes for one line: `lineNum` counts from 1, `st` is the
      state after the line and `traceBefore` says whether the line comes just before
      the one that closes `main`. */
  function LineChunks(line: string, lineNum: nat, st: Scan, traceBefore: bool): Result<seq<Emitted>>
  {
    var after :- After(line, lineNum, st);
    Ok(TraceBefore(line, st, traceBefore) + [Original(line)] + after)
  }

  /** Line `i` (from 0) of the user's code, in the second pass. */
  function EmitLine(lines: seq<string>, closing: int, i: nat): Result<seq<Emitted>>
    requires i < |lines|
  {
    LineChunks(lines[i], i + 1, ScanUpTo(lines, i + 1), i == closing - 1)
  }

  /** The output of every line, in order. */
  function Emissions(lines: seq<string>, closing: int): (es: seq<Result<seq<Emitted>>>)
    ensures |es| == |lines|
  {
    seq(|lines|, i requires 0 <= i < |lines| => EmitLine(lines, closing, i))
  }

  /** The outputs of the first `n` lines one after another, or the first failure. */
  function Concat(es: seq<Result<seq<Emitted>>>, n: nat): Result<seq<Emitted>>
    requires n <= |es|
  {
    if n == 0 then Ok([])
    else
      var prev :- Concat(es, n - 1);
      var cur :- es[n - 1];
      Ok(prev + cur)
  }

  /** The output lines for the first `n` lines, or the first failure. */
  function ChunksUpTo(lines: seq<string>, closing: int, n: nat): Result<seq<Emitted>>
    requires n <= |lines|
  {
    Concat(Emissions(lines, closing), n)
  }

  /** The output lines for the user's code, split at every `\n` with trailing empty
      lines kept (`split("\n", -1)`). */
  function Chunks(userCode: string): Result<seq<Emitted>>
  {
    var lines := Text.Split(userCode, '\n');
    ChunksUpTo(lines, MainClosingFrom(lines, 0), |lines|)
  }

  /** Every output line followed by `\n`. */
  function Render(chunks: seq<Emitted>): string
  {
    if chunks == [] then [] else Render(chunks[..|chunks| - 1]) + chunks[|chunks| - 1].text + "\n"
  }

  /** The result of `instrumentCode`. */
  function Instrumented(userCode: string): Result<string>
  {
    Output(Chunks(userCode))
  }

  /** The header and the rendered lines, or the failure that prevented them. */
  function Output(r: Result<seq<Emitted>>): Result<string>
  {
    match r
    case Ok(chunks) => Ok(Header + Render(chunks))
    case Err(e) => Err(e)
  }

  /** A rendering, or the failure that prevented it. */
  function Rendered(r: Result<seq<Emitted>>): Result<string>
  {
    match r
    case Ok(chunks) => Ok(Render(chunks))
    case Err(e) => Err(e)
  }

  /** The user's lines among the output lines, in order. */
  function Originals(chunks: seq<Emitted>): seq<string>
  {
    if chunks == [] then []
    else
      var last := chunks[|chunks| - 1];
      Originals(chunks[..|chunks| - 1]) + (if last.Original? then [last.text] else [])
  }

  lemma RenderSnoc(chunks: seq<Emitted>, c: Emitted)
    ensures Render(chunks + [c]) == Render(chunks) + c.text + "\n"
  {
    assert (chunks + [c])[..|chunks|] == chunks;
  }

  /** Rendering distributes over concatenation. */
  lemma {:induction false} RenderAppend(a: seq<Emitted>, b: seq<Emitted>)
    ensures Render(a + b) == Render(a) + Render(b)
    decreases |b|
  {
    if b == [] {
      assert a + b == a;
    } else {
      var c := b[|b| - 1];
      var b' := b[..|b| - 1];
      assert a + b == (a + b') + [c];
      RenderAppend(a, b');
      RenderSnoc(a + b', c);
      RenderSnoc(b', c);
    }
  }

  /** Collecting the user's lines distributes over concatenation. */
  lemma {:induction false} OriginalsAppend(a: seq<Emitted>, b: seq<Emitted>)
    ensures Originals(a + b) == Originals(a) + Originals(b)
    decreases |b|
  {
    if b == [] {
      assert a + b == a;
    } else {
      var b' := b[..|b| - 1];
      assert (a + b)[..|a + b| - 1] == a + b';
      OriginalsAppend(a, b');
    }
  }

  /** The array and assignment branches of the second pass. */
  method AssignmentLines(indent: string, trimmed: string) returns (out: string)
    ensures out == Render(AssignmentCaptures(indent, trimmed))
  {
    out := "";
    ghost var captures: seq<Emitted> := [];
    if IsArrayAssignment(trimmed) {
      var arrayName := ExtractArrayName(trimmed);
      if arrayName.Some? && arrayName.value !in PrimitiveTypes {
        out := SetVariableCall(indent, arrayName.value) + "\n";
        captures := [Injected(SetVariableCall(indent, arrayName.value))];
      }
    } else if IsAssignment(trimmed) {
      var varName := ExtractVariableName(trimmed);
      if varName.Some? {
        out := SetVariableCall(indent, varName.value) + "\n";
        captures := [Injected(SetVariableCall(indent, varName.value))];
      }
    }
    assert captures == AssignmentCaptures(indent, trimmed);
    RenderSingle(captures);
  }

  lemma RenderSingle(captures: seq<Emitted>)
    requires |captures| <= 1
    ensures Render(captures) == if captures == [] then "" else captures[0].text + "\n"
  {
    if captures != [] {
      RenderSnoc([], captures[0]);
      assert [] + [captures[0]] == captures;
    }
  }

  /** The `for (String var : forVars)` loop of the second pass. */
  method CaptureLines(indent: string, names: seq<string>) returns (out: string)
    ensures out == Render(Captures(indent, names))
  {
    out := "";
    var k := 0;
    while k < |names|
      invariant k <= |names|
      invariant out == Render(Captures(indent, names[..k]))
    {
      assert names[..k + 1][..k] == names[..k];
      var call := SetVariableCall(indent, names[k]);
      RenderSnoc(Captures(indent, names[..k]), Injected(call));
      out := out + call + "\n";
      k := k + 1;
    }
    assert names[..k] == names;
  }

  /** How the rendering of one instrumented line falls apart into its pieces. */
  lemma RenderLine(before: seq<Emitted>, line: string, assigns: seq<Emitted>, fors: seq<Emitted>, capture: string)
    ensures Render(before + [Original(line)] + (assigns + fors + [Injected(capture)]))
         == Render(before) + line + "\n" + Render(assigns) + Render(fors) + capture + "\n"
  {
    assert before + [Original(line)] + (assigns + fors + [Injected(capture)])
        == before + [Original(line)] + assigns + fors + [Injected(capture)];
    RenderSnoc(before, Original(line));
    RenderAppend(before + [Original(line)], assigns);
    RenderAppend(before + [Original(line)] + assigns, fors);
    RenderSnoc(before + [Original(line)] + assigns + fors, Injected(capture));
  }

  /** The second pass for one line, appending to a buffer as the loop body does. */
  method InstrumentLine(line: string, lineNum: nat, st: Scan, traceBefore: bool) returns (r: Result<string>)
    ensures r == Rendered(LineChunks(line, lineNum, st, traceBefore))
  {
    var trimmed := Text.JavaTrim(line);
    var out := "";
    if traceBefore && st.inMain && st.depth > 0 {
      var indent := GetIndentation(line);
      out := TraceCall(indent) + "\n";
    }
    ghost var before := TraceBefore(line, st, traceBefore);
    assert out == Render(before) by {
      RenderSingle(before);
    }
    RenderSnoc(before, Original(line));
    out := out + line + "\n";
    if !Instrumentable(st, trimmed) {
      assert After(line, lineNum, st) == Ok([]);
      LineRendered(line, lineNum, st, traceBefore, [], out);
      return Ok(out);
    }
    var indent := GetIndentation(line);
    var assigns := AssignmentLines(indent, trimmed);
    out := out + assigns;
    var fors := "";
    ghost var forChunks: seq<Emitted> := [];
    if StartsWith(trimmed, "for") {
      var forVars :- ExtractForVariables(trimmed);
      fors := CaptureLines(indent, forVars);
      forChunks := Captures(indent, forVars);
    }
    out := out + fors;
    out := out + CaptureCall(indent, lineNum) + "\n";
    ghost var after := AssignmentCaptures(indent, trimmed) + forChunks + [Injected(CaptureCall(indent, lineNum))];
    assert After(line, lineNum, st) == Ok(after) by {
      assert ForCaptures(indent, trimmed) == Ok(forChunks);
    }
    assert out == Render(before + [Original(line)] + after) by {
      RenderLine(before, line, AssignmentCaptures(indent, trimmed), forChunks, CaptureCall(indent, lineNum));
    }
    LineRendered(line, lineNum, st, traceBefore, after, out);
    r := Ok(out);
  }

  /** The rendering of a line's output from its parts. */
  lemma LineRendered(line: string, lineNum: nat, st: Scan, traceBefore: bool, after: seq<Emitted>, out: string)
    requires After(line, lineNum, st) == Ok(after)
    requires out == Render(TraceBefore(line, st, traceBefore) + [Original(line)] + after)
    ensures Ok(out) == Rendered(LineChunks(line, lineNum, st, traceBefore))
  {
  }

  /** Once a line fails, the whole second pass fails with its error. */
  lemma {:induction false} ErrSticks(es: seq<Result<seq<Emitted>>>, n: nat, m: nat)
    requires n <= m <= |es|
    requires Concat(es, n).Err?
    ensures Concat(es, m) == Err(Concat(es, n).error)
    decreases m - n
  {
    if n < m {
      ErrSticks(es, n, m - 1);
    }
  }

  /** One turn of the second pass extends the output by the line's rendering, or fails
      with its error, and then so does the whole pass. */
  lemma SecondPassStep(lines: seq<string>, closing: int, i: nat, st: Scan, emitted: Result<string>, result: string)
    requires i < |lines| && ChunksUpTo(lines, closing, i).Ok?
    requires st == ScanUpTo(lines, i + 1)
    requires emitted == Rendered(LineChunks(lines[i], i + 1, st, i == closing - 1))
    requires result == Render(ChunksUpTo(lines, closing, i).value)
    ensures emitted.Err? ==> Err(emitted.error) == Rendered(ChunksUpTo(lines, closing, |lines|))
    ensures emitted.Ok? ==>
      ChunksUpTo(lines, closing, i + 1).Ok? &&
      Render(ChunksUpTo(lines, closing, i + 1).value) == result + emitted.value
  {
    var es := Emissions(lines, closing);
    assert es[i] == EmitLine(lines, closing, i);
    ConcatStep(es, i, result, emitted);
  }

  /** Appending the next output to a fold that has not failed. */
  lemma ConcatStep(es: seq<Result<seq<Emitted>>>, i: nat, result: string, emitted: Result<string>)
    requires i < |es| && Concat(es, i).Ok?
    requires result == Render(Concat(es, i).value) && emitted == Rendered(es[i])
    ensures emitted.Err? ==> Err(emitted.error) == Rendered(Concat(es, |es|))
    ensures emitted.Ok? ==>
      Concat(es, i + 1).Ok? && Render(Concat(es, i + 1).value) == result + emitted.value
  {
    if emitted.Ok? {
      RenderAppend(Concat(es, i).value, es[i].value);
    } else {
      ErrSticks(es, i + 1, |es|);
    }
  }

  /** One turn of the second pass: the scan of line `i`, and the buffer with what the
      line writes appended, or the failure that ends the pass. */
  method SecondPassLine(lines: seq<string>, closing: int, i: nat, st: Scan, result: string)
    returns (next: Scan, r: Result<string>)
    requires i < |lines| && st == ScanUpTo(lines, i) && ChunksUpTo(lines, closing, i).Ok?
    requires result == Render(ChunksUpTo(lines, closing, i).value)
    ensures next == ScanUpTo(lines, i + 1)
    ensures r.Err? ==> r == Rendered(ChunksUpTo(lines, closing, |lines|))
    ensures r.Ok? ==> ChunksUpTo(lines, closing, i + 1).Ok? && r.value == Render(ChunksUpTo(lines, closing, i + 1).value)
  {
    var line := lines[i];
    var trimmed := Text.JavaTrim(line);
    var inMain := st.inMain || MentionsMain(trimmed);
    var depth := CountBraces(trimmed, st.depth);
    next := Scan(inMain, depth);
    var emitted := InstrumentLine(line, i + 1, next, i == closing - 1);
    SecondPassStep(lines, closing, i, next, emitted, result);
    if emitted.Err? {
      return next, Err(emitted.error);
    }
    r := Ok(result + emitted.value);
  }

  /** The second pass of `instrumentCode`: the text it appends after the header. */
  method SecondPass(lines: seq<string>, closing: int) returns (r: Result<string>)
    ensures r == Rendered(ChunksUpTo(lines, closing, |lines|))
  {
    var result := "";
    var st := Scan(false, 0);
    var i := 0;
    while i < |lines|
      invariant i <= |lines|
      invariant st == ScanUpTo(lines, i)
      invariant ChunksUpTo(lines, closing, i).Ok?
      invariant result == Render(ChunksUpTo(lines, closing, i).value)
    {
      var out;
      st, out := SecondPassLine(lines, closing, i, st, result);
      if out.Err? {
        return out;
      }
      result := out.value;
      i := i + 1;
    }
    r := Ok(result);
  }

  /** `instrumentCode`: the header, then each line of the user's code with the calls the
      second pass adds around it. */
  method InstrumentCode(userCode: string) returns (r: Result<string>)
    ensures r == Instrumented(userCode)
  {
    var lines := Text.Split(userCode, '\n');
    var closing := FindMainClosing(lines);
    var body :- SecondPass(lines, closing);
    r := Ok(Header + body);
  }

  // What the instrumentation keeps and adds

  /** A line's output fails only on a `for` header that `extractForVariables` throws on. */
  lemma LineFails(line: string, lineNum: nat, st: Scan, traceBefore: bool)
    ensures var trimmed := Text.JavaTrim(line);
      (LineChunks(line, lineNum, st, traceBefore).Err? <==>
        Instrumentable(st, trimmed) && StartsWith(trimmed, "for") && ForVariables(trimmed).Err?)
  {
  }

  /** The calls after a line are all added ones; there are some exactly when the line is
      instrumented, and then the last is `captureState` with the line's number. */
  lemma AfterShape(line: string, lineNum: nat, st: Scan)
    requires After(line, lineNum, st).Ok?
    ensures var after := After(line, lineNum, st).value;
      && (forall k :: 0 <= k < |after| ==> after[k].Injected?)
      && (after != [] <==> Instrumentable(st, Text.JavaTrim(line)))
      && (after != [] ==> after[|after| - 1] == Injected(CaptureCall(Spaces(IndentWidth(line)), lineNum)))
  {
    var trimmed := Text.JavaTrim(line);
    var indent := Spaces(IndentWidth(line));
    if Instrumentable(st, trimmed) {
      AssignmentsInjected(indent, trimmed);
      ForCapturesInjected(indent, trimmed);
    }
  }

  /** A line's output holds the line itself and no other of the user's lines. */
  lemma LineKept(line: string, lineNum: nat, st: Scan, traceBefore: bool)
    requires LineChunks(line, lineNum, st, traceBefore).Ok?
    ensures Originals(LineChunks(line, lineNum, st, traceBefore).value) == [line]
  {
    AfterShape(line, lineNum, st);
    OneOriginal(TraceBefore(line, st, traceBefore), line, After(line, lineNum, st).value);
  }

  /** `getTraceJSON` comes first exactly when the line precedes the closing one inside
      `main`; an instrumented line's output ends with `captureState` of its number, and
      any other line's with the line itself. */
  lemma LineBounds(line: string, lineNum: nat, st: Scan, traceBefore: bool)
    requires LineChunks(line, lineNum, st, traceBefore).Ok?
    ensures var r := LineChunks(line, lineNum, st, traceBefore).value;
      var trimmed := Text.JavaTrim(line);
      var indent := Spaces(IndentWidth(line));
      && (r[0] == Injected(TraceCall(indent)) <==> traceBefore && st.inMain && st.depth > 0)
      && (r[0].Injected? ==> r[0] == Injected(TraceCall(indent)))
      && (Instrumentable(st, trimmed) ==> r[|r| - 1] == Injected(CaptureCall(indent, lineNum)))
      && (!Instrumentable(st, trimmed) ==> r[|r| - 1] == Original(line))
  {
    AfterShape(line, lineNum, st);
  }

  /** Added lines around one of the user's lines leave just that line among the user's. */
  lemma OneOriginal(before: seq<Emitted>, line: string, after: seq<Emitted>)
    requires forall k :: 0 <= k < |before| ==> before[k].Injected?
    requires forall k :: 0 <= k < |after| ==> after[k].Injected?
    ensures Originals(before + [Original(line)] + after) == [line]
  {
    NoOriginalsIn(before);
    NoOriginalsIn(after);
    OriginalsAppend(before, [Original(line)]);
    OriginalsAppend(before + [Original(line)], after);
    assert Originals([Original(line)]) == [line] by {
      assert [Original(line)][..0] == [];
    }
  }

  lemma AssignmentsInjected(indent: string, trimmed: string)
    ensures forall k :: 0 <= k < |AssignmentCaptures(indent, trimmed)| ==> AssignmentCaptures(indent, trimmed)[k].Injected?
  {
  }

  lemma ForCapturesInjected(indent: string, trimmed: string)
    requires ForCaptures(indent, trimmed).Ok?
    ensures forall k :: 0 <= k < |ForCaptures(indent, trimmed).value| ==> ForCaptures(indent, trimmed).value[k].Injected?
  {
    if StartsWith(trimmed, "for") {
      CapturesAreInjected(indent, ForVariables(trimmed).value, ForCaptures(indent, trimmed).value);
    }
  }

  /** Output lines that are all added ones hold none of the user's lines. */
  lemma {:induction false} NoOriginalsIn(chunks: seq<Emitted>)
    requires forall k :: 0 <= k < |chunks| ==> chunks[k].Injected?
    ensures Originals(chunks) == []
    decreases |chunks|
  {
    if chunks != [] {
      NoOriginalsIn(chunks[..|chunks| - 1]);
    }
  }

  lemma {:induction false} CapturesAreInjected(indent: string, names: seq<string>, chunks: seq<Emitted>)
    requires chunks == Captures(indent, names)
    ensures forall k :: 0 <= k < |chunks| ==> chunks[k].Injected?
  {
    if names != [] {
      CapturesAreInjected(indent, names[..|names| - 1], Captures(indent, names[..|names| - 1]));
    }
  }

  /** Concatenated outputs that each hold one given line hold those lines, in order. */
  lemma {:induction false} ConcatOriginals(es: seq<Result<seq<Emitted>>>, ls: seq<string>, n: nat)
    requires n <= |es| == |ls| && Concat(es, n).Ok?
    requires forall i :: 0 <= i < n && es[i].Ok? ==> Originals(es[i].value) == [ls[i]]
    ensures Originals(Concat(es, n).value) == ls[..n]
  {
    if n > 0 {
      ConcatOriginals(es, ls, n - 1);
      OriginalsAppend(Concat(es, n - 1).value, es[n - 1].value);
      assert ls[..n] == ls[..n - 1] + [ls[n - 1]];
    }
  }

  /** The second pass keeps every line of the user's code, in order. */
  lemma OriginalsUpTo(lines: seq<string>, closing: int)
    requires ChunksUpTo(lines, closing, |lines|).Ok?
    ensures Originals(ChunksUpTo(lines, closing, |lines|).value) == lines
  {
    EachLineKept(lines, closing);
    ConcatOriginals(Emissions(lines, closing), lines, |lines|);
    assert lines[..|lines|] == lines;
  }

  lemma EachLineKept(lines: seq<string>, closing: int)
    ensures forall i :: 0 <= i < |lines| && Emissions(lines, closing)[i].Ok? ==>
      Originals(Emissions(lines, closing)[i].value) == [lines[i]]
  {
    forall i | 0 <= i < |lines| && Emissions(lines, closing)[i].Ok?
      ensures Originals(Emissions(lines, closing)[i].value) == [lines[i]]
    {
      LineKept(lines[i], i + 1, ScanUpTo(lines, i + 1), i == closing - 1);
    }
  }

  /** Dropping the lines the instrumentation adds and joining the rest at `\n` gives
      back the user's code. */
  lemma CodeIsKept(userCode: string)
    requires Chunks(userCode).Ok?
    ensures Text.Join(Originals(Chunks(userCode).value), '\n') == userCode
  {
    var lines := Text.Split(userCode, '\n');
    OriginalsUpTo(lines, MainClosingFrom(lines, 0));
    Text.JoinSplit(userCode, '\n');
  }

  /** Concatenated outputs fail only where one of them does. */
  lemma {:induction false} ConcatFails(es: seq<Result<seq<Emitted>>>, n: nat)
    requires n <= |es| && Concat(es, n).Err?
    ensures exists i :: 0 <= i < n && es[i].Err?
  {
    if Concat(es, n - 1).Err? {
      ConcatFails(es, n - 1);
    }
  }

  /** Line `i` is an instrumented `for` header that `extractForVariables` throws on. */
  predicate ThrowingForHeader(lines: seq<string>, i: nat)
    requires i < |lines|
  {
    var trimmed := Text.JavaTrim(lines[i]);
    Instrumentable(ScanUpTo(lines, i + 1), trimmed) && StartsWith(trimmed, "for") && ForVariables(trimmed).Err?
  }

  /** The second pass fails only on a `for` header that `extractForVariables` throws on. */
  lemma FailsOnlyOnForHeaders(userCode: string)
    requires Chunks(userCode).Err?
    ensures exists i :: 0 <= i < |Text.Split(userCode, '\n')| && ThrowingForHeader(Text.Split(userCode, '\n'), i)
  {
    var lines := Text.Split(userCode, '\n');
    var i := FailingLine(lines, MainClosingFrom(lines, 0));
  }

  /** A failing second pass has a line that throws. */
  lemma FailingLine(lines: seq<string>, closing: int) returns (i: nat)
    requires ChunksUpTo(lines, closing, |lines|).Err?
    ensures i < |lines| && ThrowingForHeader(lines, i)
  {
    var es := Emissions(lines, closing);
    ConcatFails(es, |lines|);
    i :| 0 <= i < |lines| && es[i].Err?;
    LineFails(lines[i], i + 1, ScanUpTo(lines, i + 1), i == closing - 1);
  }

  /** Conversely, a line that throws makes the whole second pass fail. */
  lemma ForHeaderFails(userCode: string, i: nat)
    requires i < |Text.Split(userCode, '\n')| && ThrowingForHeader(Text.Split(userCode, '\n'), i)
    ensures Chunks(userCode).Err?
  {
    var lines := Text.Split(userCode, '\n');
    var closing := MainClosingFrom(lines, 0);
    LineFails(lines[i], i + 1, ScanUpTo(lines, i + 1), i == closing - 1);
    assert Emissions(lines, closing)[i].Err?;
    ConcatErrAt(Emissions(lines, closing), i, |lines|);
  }

  /** A failing output makes every concatenation that includes it fail. */
  lemma {:induction false} ConcatErrAt(es: seq<Result<seq<Emitted>>>, i: nat, n: nat)
    requires i < n <= |es| && es[i].Err?
    ensures Concat(es, n).Err?
  {
    if n - 1 > i {
      ConcatErrAt(es, i, n - 1);
    }
  }

  /** The concatenation of the first `n` outputs starts with that of the first `m`. */
  lemma {:induction false} ConcatGrows(es: seq<Result<seq<Emitted>>>, m: nat, n: nat)
    requires m <= n <= |es| && Concat(es, n).Ok?
    ensures Concat(es, m).Ok? && |Concat(es, m).value| <= |Concat(es, n).value|
    ensures Concat(es, n).value[..|Concat(es, m).value|] == Concat(es, m).value
    decreases n - m
  {
    if m < n {
      ConcatGrows(es, m, n - 1);
      assert Concat(es, n).value == Concat(es, n - 1).value + es[n - 1].value;
    }
  }

  /** The last output line of the `m`-th line is in the output of the first `n`. */
  lemma LastEmittedIn(es: seq<Result<seq<Emitted>>>, m: nat, n: nat)
    requires 0 < m <= n <= |es| && Concat(es, n).Ok?
    ensures es[m - 1].Ok? && es[m - 1].value != [] ==>
              es[m - 1].value[|es[m - 1].value| - 1] in Concat(es, n).value
  {
    ConcatGrows(es, m, n);
    if es[m - 1].Ok? && es[m - 1].value != [] {
      var upTo := Concat(es, m).value;
      var cur := es[m - 1].value;
      assert upTo == Concat(es, m - 1).value + cur;
      assert Concat(es, n).value[|upTo| - 1] == upTo[|upTo| - 1] == cur[|cur| - 1];
    }
  }

  /** Every line inside `main` that is instrumented is followed in the output by
      `captureState` with its own line number. */
  lemma CaptureFollowsLine(userCode: string, i: nat)
    requires var lines := Text.Split(userCode, '\n');
      i < |lines| && Instrumentable(ScanUpTo(lines, i + 1), Text.JavaTrim(lines[i]))
    requires Chunks(userCode).Ok?
    ensures Injected(CaptureCall(Spaces(IndentWidth(Text.Split(userCode, '\n')[i])), i + 1)) in Chunks(userCode).value
  {
    var lines := Text.Split(userCode, '\n');
    var es := Emissions(lines, MainClosingFrom(lines, 0));
    ConcatGrows(es, i + 1, |lines|);
    assert es[i] == LineChunks(lines[i], i + 1, ScanUpTo(lines, i + 1), i == MainClosingFrom(lines, 0) - 1);
    assert Concat(es, i + 1).Ok? ==> es[i].Ok?;
    LineBounds(lines[i], i + 1, ScanUpTo(lines, i + 1), i == MainClosingFrom(lines, 0) - 1);
    LastEmittedIn(es, i + 1, |lines|);
  }

  /** Code that never mentions `main` comes out as the header followed by the code
      itself and a final line break. */
  lemma NoMainUnchanged(userCode: string)
    requires NeverMentionsMain(Text.Split(userCode, '\n'))
    ensures Instrumented(userCode) == Ok(Header + userCode + "\n")
  {
    var lines := Text.Split(userCode, '\n');
    NoMainCopies(lines);
    RenderOriginals(lines, |lines|);
    assert lines[..|lines|] == lines;
    Text.JoinSplit(userCode, '\n');
    HeaderThen(AllOriginal(lines), userCode);
  }

  /** Lines that never mention `main` are each copied alone. */
  lemma NoMainCopies(lines: seq<string>)
    requires NeverMentionsMain(lines)
    ensures ChunksUpTo(lines, MainClosingFrom(lines, 0), |lines|) == Ok(AllOriginal(lines))
  {
    NoMainNoClosing(lines);
    NoMainEmissions(lines);
    PassThrough(Emissions(lines, -1), lines, |lines|);
    assert lines[..|lines|] == lines;
  }

  lemma NoMainEmissions(lines: seq<string>)
    requires NeverMentionsMain(lines)
    ensures forall i :: 0 <= i < |lines| ==> Emissions(lines, -1)[i] == Ok([Original(lines[i])])
  {
    forall i | 0 <= i < |lines|
      ensures Emissions(lines, -1)[i] == Ok([Original(lines[i])])
    {
      NoMainLine(lines, i);
    }
  }

  /** The output of lines that render as `text` and a final line break. */
  lemma HeaderThen(chunks: seq<Emitted>, text: string)
    requires Render(chunks) == text + "\n"
    ensures Output(Ok(chunks)) == Ok(Header + text + "\n")
  {
    Associative(Header, text, "\n");
  }

  lemma Associative(a: string, b: string, c: string)
    ensures a + (b + c) == a + b + c
  {
  }

  /** Outside `main` a line is copied and nothing is added around it. */
  lemma NoMainLine(lines: seq<string>, i: nat)
    requires i < |lines| && NeverMentionsMain(lines)
    ensures Emissions(lines, -1)[i] == Ok([Original(lines[i])])
  {
    OutsideMain(lines, i + 1);
    LineCopied(lines[i], i + 1, ScanUpTo(lines, i + 1), i == -2);
  }

  /** A line scanned outside `main` is copied alone. */
  lemma LineCopied(line: string, lineNum: nat, st: Scan, traceBefore: bool)
    requires !st.inMain
    ensures LineChunks(line, lineNum, st, traceBefore) == Ok([Original(line)])
  {
    assert After(line, lineNum, st) == Ok([]);
    assert [] + [Original(line)] + [] == [Original(line)];
  }

  /** Outputs that each copy their line concatenate to the lines copied. */
  lemma {:induction false} PassThrough(es: seq<Result<seq<Emitted>>>, ls: seq<string>, n: nat)
    requires n <= |es| == |ls|
    requires forall i :: 0 <= i < n ==> es[i] == Ok([Original(ls[i])])
    ensures Concat(es, n) == Ok(AllOriginal(ls[..n]))
  {
    if n > 0 {
      PassThrough(es, ls, n - 1);
      assert ls[..n] == ls[..n - 1] + [ls[n - 1]];
      assert AllOriginal(ls[..n]) == AllOriginal(ls[..n - 1]) + [Original(ls[n - 1])];
    }
  }

  /** The user's lines, each copied as it is. */
  function AllOriginal(lines: seq<string>): (r: seq<Emitted>)
    ensures |r| == |lines|
  {
    seq(|lines|, k requires 0 <= k < |lines| => Original(lines[k]))
  }

  /** Copied lines render as the lines joined at `\n`, plus a final `\n`. */
  lemma {:induction false} RenderOriginals(lines: seq<string>, n: nat)
    requires 1 <= n <= |lines|
    ensures Render(AllOriginal(lines[..n])) == Text.Join(lines[..n], '\n') + "\n"
  {
    if n == 1 {
      assert AllOriginal(lines[..1]) == [] + [Original(lines[0])];
      RenderSnoc([], Original(lines[0]));
    } else {
      RenderOriginals(lines, n - 1);
      assert AllOriginal(lines[..n]) == AllOriginal(lines[..n - 1]) + [Original(lines[n - 1])];
      RenderSnoc(AllOriginal(lines[..n - 1]), Original(lines[n - 1]));
      assert lines[..n] == lines[..n - 1] + [lines[n - 1]];
      JoinSnoc(lines[..n - 1], lines[n - 1]);
    }
  }

  /** Joining one more part adds the separator and the part. */
  lemma {:induction false} JoinSnoc(parts: seq<string>, last: string)
    requires parts != []
    ensures Text.Join(parts + [last], '\n') == Text.Join(parts, '\n') + "\n" + last
  {
    if |parts| == 1 {
      assert parts + [last] == [parts[0], last];
    } else {
      assert (parts + [last])[1..] == parts[1..] + [last];
      JoinSnoc(parts[1..], last);
    }
  }
}
