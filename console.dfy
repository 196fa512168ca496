// Console formatting: the escape translation of src/lib/utils.ts (and its older copy in
// services/javaInterpreter.ts), `systemOut` of src/lib/system.ts, and the inline copy of
// the same formatting that src/lib/interpreter.ts and services/javaInterpreter.ts apply
// to a `System.out` call.

module Console {
  import opened Common
  import Text
  import opened Dialects
  import opened Values

  /** One global `replace` of the two characters backslash-`c` by `rep`. */
  function Unescape(s: string, c: char, rep: char): string
  {
    Text.ReplacePair(s, '\\', c, rep)
  }

  /** `interpretEscapes`: a chain of global replacements, each turning a backslash pair
      into one character. The modern copy handles n r t " \ ' in that order; the
      older copy handles n t r b f ' " \ in that order. */
  function InterpretEscapes(d: Dialect, s: string): (r: string)
  {
    match d
    case Modern =>
      Unescape(Unescape(Unescape(Unescape(Unescape(Unescape(s, 'n', '\n'), 'r', '\r'), 't', '\t'), '"', '"'), '\\', '\\'), '\'', '\'')
    case Legacy =>
      Unescape(Unescape(Unescape(Unescape(Unescape(Unescape(Unescape(Unescape(s,
        'n', '\n'), 't', '\t'), 'r', '\r'), 'b', '\U{0008}'), 'f', '\U{000C}'), '\'', '\''), '"', '"'), '\\', '\\')
  }

  /** The character a single escape stands for, in each copy's table. */
  function EscapeTable(d: Dialect, c: char): Option<char>
  {
    if c == 'n' then Some('\n')
    else if c == 'r' then Some('\r')
    else if c == 't' then Some('\t')
    else if c == '"' then Some('"')
    else if c == '\\' then Some('\\')
    else if c == '\'' then Some('\'')
    else if d == Legacy && c == 'b' then Some('\U{0008}')
    else if d == Legacy && c == 'f' then Some('\U{000C}')
    else None
  }

  /** A text without a backslash passes through unchanged. */
  lemma NoBackslashUnchanged(d: Dialect, s: string)
    requires '\\' !in s
    ensures InterpretEscapes(d, s) == s
  {
  }

  /** Every replacement turns two characters into one, so the text never grows. */
  lemma EscapesNeverLengthen(d: Dialect, s: string)
    ensures |InterpretEscapes(d, s)| <= |s|
  {
  }

  /** A lone escape from the table becomes the character it stands for, and a
      backslash before any other character is left alone. */
  lemma {:induction false} SingleEscape(d: Dialect, c: char)
    ensures EscapeTable(d, c).Some? ==> InterpretEscapes(d, ['\\', c]) == [EscapeTable(d, c).value]
    ensures EscapeTable(d, c).None? ==> InterpretEscapes(d, ['\\', c]) == ['\\', c]
  {
    var s := ['\\', c];
    ReplacePairOfPair(c);
  }

  lemma ReplacePairOfPair(c: char)
    ensures forall x: char, rep: char :: Text.ReplacePair(['\\', c], '\\', x, rep) == if x == c then [rep] else ['\\', c]
    ensures forall x: char, rep: char :: rep != '\\' ==> Text.ReplacePair([rep], '\\', x, rep) == [rep]
  {
    forall x: char, rep: char
      ensures Text.ReplacePair(['\\', c], '\\', x, rep) == if x == c then [rep] else ['\\', c]
    {
      var s := ['\\', c];
      if x != c {
        assert s[1..] == [c];
        assert Text.ReplacePair(s[1..], '\\', x, rep) == [c];
      } else {
        assert s[2..] == [];
      }
    }
  }

  /** Because `\n` is replaced before `\\`, the three characters backslash, backslash,
      `n` end as a backslash followed by a newline, in both copies. */
  lemma DoubledBackslashBeforeN(d: Dialect)
    ensures InterpretEscapes(d, "\\\\n") == "\\\n"
  {
    var s := "\\\\n";
    assert s[1..] == "\\n" && s[1..][2..] == "";
    assert Text.ReplacePair(s, '\\', 'n', '\n') == "\\\n";
    var t := "\\\n";
    assert t[1..] == "\n";
    assert Text.ReplacePair(t[1..], '\\', 'r', '\r') == "\n";
  }

  // ---------------------------------------------------------------------------
  // printf

  /** `format.replace(/%[...]/g, ...)` with the replacement drawing the next argument:
      each `%` followed by one of `convs` becomes `String(args[i])` while `i` is below
      the argument count (and `i` advances), and the empty string afterwards. The
      scan continues after each match, so matches never overlap. */
  function Format(fmt: string, convs: string, args: seq<Value>, i: nat): (r: Result<string>)
    decreases |fmt|
  {
    if |fmt| < 2 then Ok(fmt)
    else if fmt[0] == '%' && fmt[1] in convs then
      if i < |args| then
        var a :- ToJsString(args[i]);
        var rest :- Format(fmt[2..], convs, args, i + 1);
        Ok(a + rest)
      else Format(fmt[2..], convs, args, i)
    else
      var rest :- Format(fmt[1..], convs, args, i);
      Ok([fmt[0]] + rest)
  }

  /** A format without `%` is copied. */
  lemma {:induction false} FormatPlain(fmt: string, convs: string, args: seq<Value>, i: nat)
    requires '%' !in fmt
    ensures Format(fmt, convs, args, i) == Ok(fmt)
    decreases |fmt|
  {
    if |fmt| >= 2 {
      assert fmt[1..][0] == fmt[1];
      assert '%' !in fmt[1..];
      FormatPlain(fmt[1..], convs, args, i);
      assert [fmt[0]] + fmt[1..] == fmt;
    }
  }

  /** Placeholders are filled left to right: text before the first placeholder is
      copied, the placeholder takes argument `i`, and the rest of the format continues
      with argument `i + 1`. */
  lemma {:induction false} FormatNext(pre: string, c: char, post: string, convs: string, args: seq<Value>, i: nat)
    requires '%' !in pre && c in convs && i < |args| && ToJsString(args[i]).Ok?
    ensures Format(pre + ['%', c] + post, convs, args, i)
         == (var rest :- Format(post, convs, args, i + 1); Ok(pre + ToJsString(args[i]).value + rest))
    decreases |pre|
  {
    var fmt := pre + ['%', c] + post;
    if pre == [] {
      assert fmt == ['%', c] + post;
      assert fmt[0] == '%' && fmt[1] == c && fmt[2..] == post;
      var a := ToJsString(args[i]).value;
      assert ToJsString(args[i]) == Ok(a);
      var rest := Format(post, convs, args, i + 1);
      assert Format(fmt, convs, args, i) == if rest.Ok? then Ok(a + rest.value) else Err(rest.error);
      assert pre + a == a;
    } else {
      assert fmt[0] == pre[0] && fmt[0] != '%';
      assert fmt[1..] == pre[1..] + ['%', c] + post;
      FormatNext(pre[1..], c, post, convs, args, i);
      assert [pre[0]] + pre[1..] == pre;
      var rest := Format(post, convs, args, i + 1);
      if rest.Ok? {
        assert [pre[0]] + (pre[1..] + ToJsString(args[i]).value + rest.value) == pre + ToJsString(args[i]).value + rest.value;
      }
    }
  }

  /** Once the arguments have run out, a placeholder becomes the empty string. */
  lemma {:induction false} FormatExhausted(pre: string, c: char, post: string, convs: string, args: seq<Value>, i: nat)
    requires '%' !in pre && c in convs && i >= |args|
    ensures Format(pre + ['%', c] + post, convs, args, i)
         == (var rest :- Format(post, convs, args, i); Ok(pre + rest))
    decreases |pre|
  {
    var fmt := pre + ['%', c] + post;
    if pre == [] {
      assert fmt == ['%', c] + post;
      assert fmt[0] == '%' && fmt[1] == c && fmt[2..] == post;
      var rest := Format(post, convs, args, i);
      assert Format(fmt, convs, args, i) == rest;
      assert rest.Ok? ==> pre + rest.value == rest.value;
    } else {
      assert fmt[0] == pre[0] && fmt[0] != '%';
      assert fmt[1..] == pre[1..] + ['%', c] + post;
      FormatExhausted(pre[1..], c, post, convs, args, i);
      assert [pre[0]] + pre[1..] == pre;
      var rest := Format(post, convs, args, i);
      if rest.Ok? {
        assert [pre[0]] + (pre[1..] + rest.value) == pre + rest.value;
      }
    }
  }

  /** A `%` followed by a character outside `convs` is copied, so `%f` survives the
      two-placeholder `printf` of src/lib/system.ts. */
  lemma FormatKeepsOtherPercent(post: string, args: seq<Value>, i: nat)
    requires |post| > 0 && post[0] != '%'
    ensures Format(['%', 'f'] + post, "sd", args, i)
         == (var rest :- Format(post, "sd", args, i); Ok(['%', 'f'] + rest))
  {
    var fmt := ['%', 'f'] + post;
    assert fmt[1..] == ['f'] + post;
    assert fmt[1..][1..] == post;
    assert fmt[1..][0] == 'f' && 'f' != '%';
    var rest := Format(post, "sd", args, i);
    if rest.Ok? {
      assert [fmt[0]] + ([fmt[1..][0]] + rest.value) == ['%', 'f'] + rest.value;
    }
  }

  // ---------------------------------------------------------------------------
  // System.out

  /** `systemOut(method, args)` of src/lib/system.ts: the text a call prints, or None
      for `null`. Only the first argument of println and print is used. */
  function SystemOut(methodName: string, args: seq<Value>): (r: Result<Option<string>>)
    ensures methodName == "println" && args == [] ==> r == Ok(Some("\n"))
    ensures methodName == "print" && args == [] ==> r == Ok(Some(""))
    ensures methodName == "printf" && args == [] ==> r == Ok(None)
    ensures methodName != "println" && methodName != "print" && methodName != "printf" ==> r == Ok(None)
    ensures (methodName == "println" || methodName == "print") && args != [] && ToJsString(args[0]).Ok? ==>
              r.Ok? && r.value.Some? && |r.value.value| <= |ToJsString(args[0]).value| + 1
  {
    if methodName == "println" then
      if args == [] then Ok(Some("\n"))
      else
        var s :- ToJsString(args[0]);
        EscapesNeverLengthen(Modern, s);
        Ok(Some(InterpretEscapes(Modern, s) + "\n"))
    else if methodName == "print" then
      if args == [] then Ok(Some(""))
      else
        var s :- ToJsString(args[0]);
        EscapesNeverLengthen(Modern, s);
        Ok(Some(InterpretEscapes(Modern, s)))
    else if methodName == "printf" then
      if args == [] then Ok(None)
      else
        var fmt :- ToJsString(args[0]);
        var out :- Format(InterpretEscapes(Modern, fmt), "sd", args, 1);
        Ok(Some(out))
    else Ok(None)
  }

  /** The output the interpreter computes for `System.out.<method>(args)`. Unlike
      `systemOut`, `print` without arguments gives None (and the call then falls
      through to an ordinary method call), and printf also fills `%f`. */
  function InterpreterOutput(d: Dialect, methodName: string, args: seq<Value>): (r: Result<Option<string>>)
    ensures methodName == "println" && args == [] ==> r == Ok(Some("\n"))
    ensures (methodName == "print" || methodName == "printf") && args == [] ==> r == Ok(None)
    ensures methodName != "println" && methodName != "print" && methodName != "printf" ==> r == Ok(None)
    ensures r.Ok? && r.value.Some? && methodName == "println" ==> |r.value.value| > 0 && r.value.value[|r.value.value| - 1] == '\n'
  {
    if methodName == "println" then
      if args == [] then Ok(Some("\n"))
      else
        var s :- ToJsString(args[0]);
        Ok(Some(InterpretEscapes(d, s) + "\n"))
    else if methodName == "print" then
      if args == [] then Ok(None)
      else
        var s :- ToJsString(args[0]);
        Ok(Some(InterpretEscapes(d, s)))
    else if methodName == "printf" then
      if args == [] then Ok(None)
      else
        var fmt :- ToJsString(args[0]);
        var out :- Format(InterpretEscapes(d, fmt), "dfs", args, 1);
        Ok(Some(out))
    else Ok(None)
  }
}
