// java-runner/src/main/java/com/javavis/CodeRunner.java: the pass that rewrites the
// user's program before the JVM compiles it, inserting calls to StateCapture after the
// lines of `main`, and the string helpers it relies on. Compiling and running the
// rewritten program is not part of this model.

module CodeRunner {
  import opened Common
  import Text

  // ---------------------------------------------------------------------------
  // java.lang.String, as far as the runner uses it

  predicate StartsWith(s: string, p: string)
  {
    |p| <= |s| && s[..|p|] == p
  }

  /** `t` occurs in `s` at index `i`. */
  predicate MatchAt(s: string, t: string, i: nat)
  {
    i + |t| <= |s| && s[i..i + |t|] == t
  }

  /** `s.contains(t)`. */
  predicate Contains(s: string, t: string)
  {
    exists i: nat :: i <= |s| && MatchAt(s, t, i)
  }

  /** `s.indexOf(c, i)`: the first index from `i` on that holds `c`, or -1. */
  function IndexFrom(s: string, c: char, i: nat): (r: int)
    requires i <= |s|
    ensures r == -1 || i <= r < |s|
    ensures r == -1 ==> forall k :: i <= k < |s| ==> s[k] != c
    ensures r >= 0 ==> s[r] == c && forall k :: i <= k < r ==> s[k] != c
    decreases |s| - i
  {
    if i == |s| then -1 else if s[i] == c then i else IndexFrom(s, c, i + 1)
  }

  function IndexOf(s: string, c: char): int
  {
    IndexFrom(s, c, 0)
  }

  /** `s.lastIndexOf(c)` among the first `n` characters. */
  function LastIndexBelow(s: string, c: char, n: nat): (r: int)
    requires n <= |s|
    ensures -1 <= r < n
    ensures r == -1 ==> forall k :: 0 <= k < n ==> s[k] != c
    ensures r >= 0 ==> s[r] == c && forall k :: r < k < n ==> s[k] != c
  {
    if n == 0 then -1 else if s[n - 1] == c then n - 1 else LastIndexBelow(s, c, n - 1)
  }

  function LastIndexOf(s: string, c: char): int
  {
    LastIndexBelow(s, c, |s|)
  }

  lemma IndexOfIs(s: string, c: char, p: nat)
    requires p < |s| && s[p] == c && forall k :: 0 <= k < p ==> s[k] != c
    ensures IndexOf(s, c) == p
  {
  }

  /** A text with a first and last character above U+0020 is left alone by `trim()`. */
  lemma TrimmedIsFixed(s: string)
    requires s == [] || (s[0] > ' ' && s[|s| - 1] > ' ')
    ensures Text.JavaTrim(s) == s
  {
  }

  /** Trimming a text that ends in one space after a character above U+0020, and that
      starts with such a character, drops exactly that space. */
  lemma TrimDropsSpace(s: string)
    requires s != [] && s[0] > ' ' && s[|s| - 1] > ' '
    ensures Text.JavaTrim(s + " ") == s
  {
    var t := s + " ";
    assert t[0] == s[0] && t[|t| - 1] == ' ' && t[..|t| - 1] == s;
  }

  /** `trim()` never brings in a character that was not there. */
  lemma {:induction false} TrimKeepsOut(s: string, c: char)
    requires c !in s
    ensures c !in Text.JavaTrim(s)
    decreases |s|
  {
    if s != [] && s[0] <= ' ' {
      TrimKeepsOut(s[1..], c);
    } else if s != [] && s[|s| - 1] <= ' ' {
      TrimKeepsOut(s[..|s| - 1], c);
    }
  }

  // ---------------------------------------------------------------------------
  // Identifiers and the regular-expression classes the helpers use

  predicate IsIdentStart(c: char)
  {
    'a' <= c <= 'z' || 'A' <= c <= 'Z' || c == '_'
  }

  /** `[a-zA-Z0-9_]`, the word characters of `\b`. */
  predicate IsWordChar(c: char)
  {
    IsIdentStart(c) || '0' <= c <= '9'
  }

  /** `s.matches("[a-zA-Z_][a-zA-Z0-9_]*")`. */
  predicate IsIdentifier(s: string)
  {
    s != [] && IsIdentStart(s[0]) && forall k :: 1 <= k < |s| ==> IsWordChar(s[k])
  }

  /** `\s`: space, tab, line feed, vertical tab, form feed, carriage return. */
  predicate IsRegexSpace(c: char)
  {
    ('\t' <= c <= '\r') || c == ' '
  }

  /** The line terminators `.` does not match. */
  predicate IsLineTerminator(c: char)
  {
    c == '\n' || c == '\r' || c == '\U{0085}' || c == '\U{2028}' || c == '\U{2029}'
  }

  // ---------------------------------------------------------------------------
  // extractVariableName

  /** `!=`, `==`, `<=` and `>=` put one of these just before their `=`. */
  predicate IsComparisonLead(c: char)
  {
    c == '!' || c == '=' || c == '<' || c == '>'
  }

  predicate IsArithmeticOp(c: char)
  {
    c == '+' || c == '-' || c == '*' || c == '/'
  }

  /** The text after the last white-space character. For a trimmed text this is the
      last piece of `split("\\s+")`: a trimmed text has no white space at either end,
      so the pieces are exactly the runs between white space, and the empty text gives
      the one piece `""`. */
  function LastWord(s: string): string
  {
    if s == [] || IsRegexSpace(s[|s| - 1]) then [] else LastWord(s[..|s| - 1]) + [s[|s| - 1]]
  }

  lemma {:induction false} LastWordAfterBreak(a: string, w: string)
    requires a == [] || IsRegexSpace(a[|a| - 1])
    requires forall k :: 0 <= k < |w| ==> !IsRegexSpace(w[k])
    ensures LastWord(a + w) == w
    decreases |w|
  {
    if w == [] {
      assert a + w == a;
    } else {
      var s := a + w;
      assert s[..|s| - 1] == a + w[..|w| - 1];
      LastWordAfterBreak(a, w[..|w| - 1]);
      assert w[..|w| - 1] + [w[|w| - 1]] == w;
    }
  }

  /** The text before `=` with a compound operator's `+`, `-`, `*` or `/` removed. */
  function DropCompoundOperator(before: string): string
  {
    if before != [] && IsArithmeticOp(before[|before| - 1]) then Text.JavaTrim(before[..|before| - 1])
    else before
  }

  /** `extractVariableName`: the last word before the first `=`, when that `=` is not
      part of a comparison and the word is an identifier. */
  function ExtractVariableName(line: string): Option<string>
  {
    var eq := IndexOf(line, '=');
    if eq == -1 then None
    else if eq > 0 && IsComparisonLead(line[eq - 1]) then None
    else
      var name := LastWord(DropCompoundOperator(Text.JavaTrim(line[..eq])));
      if IsIdentifier(name) then Some(name) else None
  }

  /** No `=` means no name, and neither does a first `=` that ends `==`, `!=`, `<=` or
      `>=`; a name found is an identifier. */
  lemma VariableNameFacts(line: string)
    ensures var r := ExtractVariableName(line);
      && ('=' !in line ==> r == None)
      && (var eq := IndexOf(line, '='); 0 < eq && IsComparisonLead(line[eq - 1]) ==> r == None)
      && (r.Some? ==> IsIdentifier(r.value))
  {
  }

  lemma IdentifierHasNoSpace(name: string)
    requires IsIdentifier(name)
    ensures forall k :: 0 <= k < |name| ==> IsWordChar(name[k]) && !IsRegexSpace(name[k]) && name[k] > ' '
    ensures '=' !in name && '[' !in name && '(' !in name && ')' !in name
  {
    assert forall k :: 0 <= k < |name| ==> IsWordChar(name[k]);
  }

  /** When the first `=` of a line comes right after `left`, and ends no comparison,
      the name is the last word of `left` once trimmed and stripped of a compound
      operator. */
  lemma NameFromLeftSide(line: string, left: string)
    requires |left| < |line| && line[..|left|] == left && line[|left|] == '='
    requires '=' !in left && left != [] && !IsComparisonLead(left[|left| - 1])
    ensures ExtractVariableName(line) ==
      var name := LastWord(DropCompoundOperator(Text.JavaTrim(left)));
      if IsIdentifier(name) then Some(name) else None
  {
    forall k | 0 <= k < |left|
      ensures line[k] != '='
    {
      assert line[k] == left[k];
    }
    IndexOfIs(line, '=', |left|);
  }

  /** An identifier is its own last word. */
  lemma IdentifierIsLastWord(name: string)
    requires IsIdentifier(name)
    ensures DropCompoundOperator(name) == name && LastWord(name) == name
  {
    IdentifierHasNoSpace(name);
    assert !IsArithmeticOp(name[|name| - 1]) by {
      assert IsWordChar(name[|name| - 1]);
    }
    LastWordAfterBreak([], name);
    assert [] + name == name;
  }

  /** A declaration `T name = …` names its variable. */
  lemma DeclarationNamesVariable(ty: string, name: string, rest: string)
    requires IsIdentifier(ty) && IsIdentifier(name)
    ensures ExtractVariableName(ty + " " + name + " = " + rest) == Some(name)
  {
    IdentifierHasNoSpace(ty);
    IdentifierHasNoSpace(name);
    var line := ty + " " + name + " = " + rest;
    var decl := ty + " " + name;
    var left := decl + " ";
    assert line[..|left|] == left && line[|left|] == '=';
    NameFromLeftSide(line, left);
    assert Text.JavaTrim(left) == decl by {
      TrimDropsSpace(decl);
    }
    assert DropCompoundOperator(decl) == decl;
    assert LastWord(decl) == name by {
      LastWordAfterBreak(ty + " ", name);
    }
  }

  /** A plain assignment `name = …` names its variable. */
  lemma AssignmentNamesVariable(name: string, rest: string)
    requires IsIdentifier(name)
    ensures ExtractVariableName(name + " = " + rest) == Some(name)
  {
    IdentifierHasNoSpace(name);
    var line := name + " = " + rest;
    var left := name + " ";
    assert line[..|left|] == left && line[|left|] == '=';
    NameFromLeftSide(line, left);
    assert Text.JavaTrim(left) == name by {
      TrimDropsSpace(name);
    }
    IdentifierIsLastWord(name);
  }

  /** A compound assignment `name op= …` names its variable. */
  lemma CompoundAssignmentNamesVariable(name: string, op: char, rest: string)
    requires IsIdentifier(name) && IsArithmeticOp(op)
    ensures ExtractVariableName(name + " " + [op] + "= " + rest) == Some(name)
  {
    IdentifierHasNoSpace(name);
    var line := name + " " + [op] + "= " + rest;
    var left := name + " " + [op];
    assert line[..|left|] == left && line[|left|] == '=';
    NameFromLeftSide(line, left);
    assert DropCompoundOperator(Text.JavaTrim(left)) == name by {
      TrimmedIsFixed(left);
      assert left[..|left| - 1] == name + " ";
      TrimDropsSpace(name);
    }
    IdentifierIsLastWord(name);
  }

  lemma DeclarationExample()
    ensures ExtractVariableName("int x = 5") == Some("x")
  {
    assert IsIdentifier("int") && IsIdentifier("x");
    assert "int" + " " + "x" + " = " + "5" == "int x = 5";
    DeclarationNamesVariable("int", "x", "5");
  }

  // ---------------------------------------------------------------------------
  // extractArrayName

  predicate IsCompoundLead(c: char)
  {
    c == '+' || c == '-' || c == '*' || c == '/' || c == '%'
  }

  // The `replaceAll("[+\\-*/%]=$", "")` step: an operator `+= -= *= /= %=` at the end of
  // the text is removed. The text is trimmed at this point, so `$` can only match at
  // its very end.
  function DropTrailingCompound(s: string): string
  {
    if |s| >= 2 && s[|s| - 1] == '=' && IsCompoundLead(s[|s| - 2]) then s[..|s| - 2] else s
  }

  /** The index just past the `]` that ends the lazy `.*?\]` begun at `i`, or -1 when a
      line terminator or the end of the text comes first. */
  function CloseBracketFrom(s: string, i: nat): (r: int)
    requires i <= |s|
    ensures r == -1 || i < r <= |s|
    decreases |s| - i
  {
    if i == |s| || IsLineTerminator(s[i]) then -1
    else if s[i] == ']' then i + 1
    else CloseBracketFrom(s, i + 1)
  }

  /** `replaceAll(word + "\\[.*?\\]", "")`: every `word[…]`, scanning from the left,
      removed. */
  function RemoveBracketed(s: string, word: string): (r: string)
    ensures '[' !in s ==> r == s
    decreases |s|
  {
    if s == [] then []
    else if StartsWith(s, word + "[") && CloseBracketFrom(s, |word| + 1) != -1 then
      assert s[|word|] == (word + "[")[|word|] == '[';
      RemoveBracketed(s[CloseBracketFrom(s, |word| + 1)..], word)
    else
      assert s == [s[0]] + s[1..];
      [s[0]] + RemoveBracketed(s[1..], word)
  }

  /** The array types whose `type[…]` the helper removes, in its order. */
  const ArrayTypes: seq<string> := ["int", "long", "double", "float", "boolean", "String"]

  /** The six `replaceAll(type + "\\[.*?\\]", "").trim()` steps. */
  function RemoveArrayTypes(s: string, types: seq<string>): string
    decreases |types|
  {
    if types == [] then s else RemoveArrayTypes(Text.JavaTrim(RemoveBracketed(s, types[0])), types[1..])
  }

  /** The words `\\b(int|long|double|float|boolean|String|char)\\b` removes. */
  const TypeWords: seq<string> := ["int", "long", "double", "float", "boolean", "String", "char"]

  /** The length of the first of `words` found at `i` and followed by a word boundary,
      or 0 when none is. */
  function WordFrom(s: string, i: nat, words: seq<string>): (n: nat)
    ensures n == 0 || i + n <= |s|
  {
    if words == [] then 0
    else
      var w := words[0];
      if MatchAt(s, w, i) && w != [] && (i + |w| == |s| || !IsWordChar(s[i + |w|])) then |w|
      else WordFrom(s, i, words[1..])
  }

  /** The length of the type word that `\\b(…)\\b` matches at `i`, or 0. The boundary
      before it holds when no word character precedes `i`, since every type word
      starts with a letter. */
  function TypeWordAt(s: string, i: nat): (n: nat)
    requires i <= |s|
    ensures n == 0 || i + n <= |s|
  {
    if i > 0 && IsWordChar(s[i - 1]) then 0 else WordFrom(s, i, TypeWords)
  }

  /** `replaceAll("\\b(int|…|char)\\b", "")` applied to `s[i..]`; the boundaries are
      judged on the whole of `s`. */
  function RemoveTypeWordsFrom(s: string, i: nat): string
    requires i <= |s|
    decreases |s| - i
  {
    if i == |s| then []
    else
      var n := TypeWordAt(s, i);
      if n > 0 then RemoveTypeWordsFrom(s, i + n) else [s[i]] + RemoveTypeWordsFrom(s, i + 1)
  }

  /** `extractArrayName`: the text before the first `[`, cut at its first `=`, and
      cleaned as `CleanArrayName` says. */
  function ExtractArrayName(line: string): Option<string>
  {
    var bracket := IndexOf(line, '[');
    if bracket <= 0 then None
    else
      var before := Text.JavaTrim(line[..bracket]);
      CleanArrayName(if '=' in before then Text.JavaTrim(before[..IndexOf(before, '=')]) else before)
  }

  /** The rest of `extractArrayName`: the operator, array-type and type-word removals,
      each followed by `trim()`, and the identifier check. */
  function CleanArrayName(before: string): Option<string>
  {
    var before := Text.JavaTrim(DropTrailingCompound(before));
    var before := RemoveArrayTypes(before, ArrayTypes);
    var before := Text.JavaTrim(RemoveTypeWordsFrom(before, 0));
    if IsIdentifier(before) then Some(before) else None
  }

  /** No `[`, or one at the very start, means no name; a name found is an identifier. */
  lemma ArrayNameFacts(line: string)
    ensures var r := ExtractArrayName(line);
      && (IndexOf(line, '[') <= 0 ==> r == None)
      && (r.Some? ==> IsIdentifier(r.value))
  {
  }

  /** Once the text holds no `[`, the array-type removals change nothing. */
  lemma {:induction false} ArrayTypesNeedBracket(s: string, types: seq<string>)
    requires '[' !in s && Text.JavaTrim(s) == s
    ensures RemoveArrayTypes(s, types) == s
    decreases |types|
  {
    if types != [] {
      ArrayTypesNeedBracket(s, types[1..]);
    }
  }

  /** Where no type word matches from `i` on, the removal keeps the text. */
  lemma {:induction false} NoTypeWordKeeps(s: string, i: nat)
    requires i <= |s|
    requires forall j :: i <= j < |s| ==> TypeWordAt(s, j) == 0
    ensures RemoveTypeWordsFrom(s, i) == s[i..]
    decreases |s| - i
  {
    if i < |s| {
      NoTypeWordKeeps(s, i + 1);
      assert s[i..] == [s[i]] + s[i + 1..];
    }
  }

  /** Every type word is made of word characters. */
  lemma TypeWordsAreIdentifiers()
    ensures forall k :: 0 <= k < |TypeWords| ==> IsIdentifier(TypeWords[k])
  {
    assert IsIdentifier("int") && IsIdentifier("long") && IsIdentifier("double");
    assert IsIdentifier("float") && IsIdentifier("boolean") && IsIdentifier("String");
    assert IsIdentifier("char");
  }

  /** A text with a character other than a word character after its first is no
      identifier. */
  lemma NotIdentifier(s: string, k: nat)
    requires 0 < k < |s| && !IsWordChar(s[k])
    ensures !IsIdentifier(s)
  {
  }

  /** Where `w` occurs at `j`, its characters are those of `s` from `j` on; and `s`
      cut after it is `w`. */
  lemma MatchedChar(s: string, w: string, j: nat, m: nat)
    ensures MatchAt(s, w, j) && m < |w| ==> j + m < |s| && s[j + m] == w[m]
    ensures MatchAt(s, w, 0) ==> s[..|w|] == w
  {
    if MatchAt(s, w, j) && m < |w| {
      assert s[j..j + |w|][m] == s[j + m];
    }
  }

  /** No word of `words` starts at a character that is not a word character. */
  lemma {:induction false} NoWordAtNonWordChar(s: string, j: nat, words: seq<string>)
    requires j < |s| && !IsWordChar(s[j])
    requires forall k :: 0 <= k < |words| ==> IsIdentifier(words[k])
    ensures WordFrom(s, j, words) == 0
  {
    if words != [] {
      MatchedChar(s, words[0], j, 0);
      NoWordAtNonWordChar(s, j, words[1..]);
    }
  }

  /** When `s` starts with a run of `n` word characters that is not one of `words`,
      followed by a non-word character or the end, no word of `words` matches at its
      start. */
  lemma {:induction false} WholeWordOnly(s: string, n: nat, words: seq<string>)
    requires n <= |s| && s[..n] !in words
    requires forall k :: 0 <= k < n ==> IsWordChar(s[k])
    requires n == |s| || !IsWordChar(s[n])
    requires forall k :: 0 <= k < |words| ==> IsIdentifier(words[k])
    ensures WordFrom(s, 0, words) == 0
  {
    if words != [] {
      MatchedChar(s, words[0], 0, n);
      WholeWordOnly(s, n, words[1..]);
    }
  }

  /** A text that starts with an identifier other than a type word, followed by
      characters that are neither word characters nor after one, holds no type word. */
  lemma NoTypeWordAfterName(s: string, n: nat)
    requires 0 < n <= |s| && IsIdentifier(s[..n]) && s[..n] !in TypeWords
    requires forall k :: n <= k < |s| ==> !IsWordChar(s[k])
    ensures forall j :: 0 <= j < |s| ==> TypeWordAt(s, j) == 0
  {
    TypeWordsAreIdentifiers();
    forall j | 0 <= j < |s|
      ensures TypeWordAt(s, j) == 0
    {
      if j == 0 {
        forall k | 0 <= k < n
          ensures IsWordChar(s[k])
        {
          assert s[k] == s[..n][k];
        }
        WholeWordOnly(s, n, TypeWords);
      } else if j < n {
        assert s[j - 1] == s[..n][j - 1];
      } else {
        NoWordAtNonWordChar(s, j, TypeWords);
      }
    }
  }

  /** An element assignment `name[…` names its array, unless the name is a type word. */
  lemma ElementAssignmentNamesArray(name: string, rest: string)
    requires IsIdentifier(name) && name !in TypeWords
    ensures ExtractArrayName(name + "[" + rest) == Some(name)
  {
    IdentifierHasNoSpace(name);
    var line := name + "[" + rest;
    assert ExtractArrayName(line) == CleanArrayName(name) by {
      forall k | 0 <= k < |name|
        ensures line[k] != '['
      {
        assert line[k] == name[k];
      }
      IndexOfIs(line, '[', |name|);
      assert line[..|name|] == name;
      TrimmedIsFixed(name);
    }
    TrimmedIsFixed(name);
    assert DropTrailingCompound(name) == name;
    ArrayTypesNeedBracket(name, ArrayTypes);
    assert name[..|name|] == name;
    NoTypeWordAfterName(name, |name|);
    NoTypeWordKeeps(name, 0);
  }

  /** A compound assignment that reads an element, `target op= arr[…`, names no array:
      the text is cut at its `=`, which leaves `target op`, and nothing strips the
      operator once the `=` is gone. */
  lemma CompoundReadNamesNoArray(target: string, op: char, arr: string, rest: string)
    requires IsIdentifier(target) && target !in TypeWords && IsIdentifier(arr)
    requires IsCompoundLead(op)
    ensures ExtractArrayName(target + " " + [op] + "= " + arr + "[" + rest) == None
  {
    IdentifierHasNoSpace(target);
    IdentifierHasNoSpace(arr);
    var m := target + " " + [op];
    assert ExtractArrayName(target + " " + [op] + "= " + arr + "[" + rest) == CleanArrayName(m) by {
      CutAtEquals(target, op, arr, rest);
    }
    LeftOfCompoundIsNoName(target, op);
  }

  /** `target op`, what is left of a compound assignment cut at its `=`, is no name. */
  lemma LeftOfCompoundIsNoName(target: string, op: char)
    requires IsIdentifier(target) && target !in TypeWords && IsCompoundLead(op)
    ensures CleanArrayName(target + " " + [op]) == None
  {
    var m := target + " " + [op];
    CompoundLeftShape(target, op);
    TrimmedIsFixed(m);
    assert DropTrailingCompound(m) == m;
    ArrayTypesNeedBracket(m, ArrayTypes);
    NoTypeWordAfterName(m, |target|);
    NoTypeWordKeeps(m, 0);
    assert m[0..] == m;
    NotIdentifier(m, |target|);
  }

  lemma CompoundLeftShape(target: string, op: char)
    requires IsIdentifier(target) && IsCompoundLead(op)
    ensures var m := target + " " + [op];
      && m[..|target|] == target && |m| == |target| + 2 && m[0] > ' ' && m[|m| - 1] > ' '
      && m[|m| - 1] != '=' && '[' !in m
      && forall k :: |target| <= k < |m| ==> !IsWordChar(m[k])
  {
    IdentifierHasNoSpace(target);
    var m := target + " " + [op];
    assert m[..|target|] == target;
    assert m[|target|] == ' ' && m[|target| + 1] == op;
  }

  /** In `target op= arr[…`, the text before the `[` is cut at its `=` to `target op`. */
  lemma CutAtEquals(target: string, op: char, arr: string, rest: string)
    requires IsIdentifier(target) && IsIdentifier(arr) && IsCompoundLead(op)
    ensures ExtractArrayName(target + " " + [op] + "= " + arr + "[" + rest) == CleanArrayName(target + " " + [op])
  {
    IdentifierHasNoSpace(target);
    IdentifierHasNoSpace(arr);
    var line := target + " " + [op] + "= " + arr + "[" + rest;
    var m := target + " " + [op];
    var left := m + "= " + arr;
    assert IndexOf(line, '[') == |left| && line[..|left|] == left by {
      assert line == left + "[" + rest;
      assert line[..|left|] == left;
      forall k | 0 <= k < |left|
        ensures line[k] != '['
      {
        assert line[k] == left[k];
        if k >= |m| + 2 {
          assert left[k] == arr[k - |m| - 2];
        }
      }
      IndexOfIs(line, '[', |left|);
    }
    TrimmedIsFixed(left);
    assert IndexOf(left, '=') == |m| && left[..|m|] == m by {
      assert left[..|m|] == m;
      forall k | 0 <= k < |m|
        ensures left[k] != '='
      {
        assert left[k] == m[k];
      }
      IndexOfIs(left, '=', |m|);
    }
    TrimmedIsFixed(m);
  }

  /** `"suma += numeros[i]"` gives no name, although the helper's own comment gives
      `numeros` for it. */
  lemma CompoundReadExample()
    ensures ExtractArrayName("suma += numeros[i]") == None
  {
    assert IsIdentifier("suma") && "suma" !in TypeWords && IsIdentifier("numeros");
    assert "suma" + " " + ['+'] + "= " + "numeros" + "[" + "i]" == "suma += numeros[i]";
    CompoundReadNamesNoArray("suma", '+', "numeros", "i]");
  }

  lemma ElementAssignmentExample()
    ensures ExtractArrayName("numeros[0] = 10") == Some("numeros")
  {
    assert IsIdentifier("numeros") && "numeros" !in TypeWords;
    assert "numeros" + "[" + "0] = 10" == "numeros[0] = 10";
    ElementAssignmentNamesArray("numeros", "0] = 10");
  }

  // ---------------------------------------------------------------------------
  // extractForVariables

  /** The first index from `j` on that is not white space. */
  function SkipSpaces(s: string, j: nat): (m: nat)
    requires j <= |s|
    ensures j <= m <= |s| && (m == |s| || !IsRegexSpace(s[m]))
    decreases |s| - j
  {
    if j < |s| && IsRegexSpace(s[j]) then SkipSpaces(s, j + 1) else j
  }

  /** The end of the run of word characters that starts at `m`. */
  function WordEnd(s: string, m: nat): (e: nat)
    requires m <= |s|
    ensures m <= e <= |s| && (e == |s| || !IsWordChar(s[e]))
    ensures forall k :: m <= k < e ==> IsWordChar(s[k])
    decreases |s| - m
  {
    if m < |s| && IsWordChar(s[m]) then WordEnd(s, m + 1) else m
  }

  /** Where `\\b(?:int|…|char)\\s+([a-zA-Z_][a-zA-Z0-9_]*)` matches at `i` with the
      first of `words` that lets it: the bounds of the captured name. */
  function DeclarationWith(s: string, i: nat, words: seq<string>): (r: Option<(nat, nat)>)
    requires i <= |s|
    ensures r.Some? ==> i < r.value.0 < r.value.1 <= |s| && IsIdentifier(s[r.value.0..r.value.1])
  {
    if words == [] then None
    else
      var w := words[0];
      var j := i + |w|;
      if MatchAt(s, w, i) && j < |s| && IsRegexSpace(s[j]) && SkipSpaces(s, j) < |s| && IsIdentStart(s[SkipSpaces(s, j)]) then
        var m := SkipSpaces(s, j);
        var e := WordEnd(s, m + 1);
        assert IsIdentifier(s[m..e]) by {
          forall k | 1 <= k < e - m
            ensures IsWordChar(s[m..e][k])
          {
            assert s[m..e][k] == s[m + k];
          }
        }
        Some((m, e))
      else DeclarationWith(s, i, words[1..])
  }

  /** The declaration that matches at `i`, if one does; the boundary before it holds
      when no word character precedes `i`, since every type word starts with a
      letter. */
  function DeclarationAt(s: string, i: nat): (r: Option<(nat, nat)>)
    requires i <= |s|
    ensures r.Some? ==> i < r.value.0 < r.value.1 <= |s| && IsIdentifier(s[r.value.0..r.value.1])
  {
    if i > 0 && IsWordChar(s[i - 1]) then None else DeclarationWith(s, i, TypeWords)
  }

  /** `matcher.find()` from index `i`: the first declaration that starts at `i` or
      later. */
  function FindDeclaration(s: string, i: nat): (r: Option<(nat, nat)>)
    requires i <= |s|
    ensures r.Some? ==> i < r.value.0 < r.value.1 <= |s| && IsIdentifier(s[r.value.0..r.value.1])
    decreases |s| - i
  {
    if i == |s| then None
    else if DeclarationAt(s, i).Some? then DeclarationAt(s, i)
    else FindDeclaration(s, i + 1)
  }

  /** The names every `find()` from `i` on captures, in order. */
  function DeclaredNames(s: string, i: nat): (names: seq<string>)
    requires i <= |s|
    ensures forall k :: 0 <= k < |names| ==> IsIdentifier(names[k])
    decreases |s| - i
  {
    match FindDeclaration(s, i)
    case None => []
    case Some(b) => [s[b.0..b.1]] + DeclaredNames(s, b.1)
  }

  /** `extractForVariables`: no names when either parenthesis is missing; otherwise the
      names declared between the first `(` and the last `)`, where `substring` throws
      when that `)` comes before the `(`. */
  function ForVariables(line: string): Result<seq<string>>
  {
    var open := IndexOf(line, '(');
    var close := LastIndexOf(line, ')');
    if open == -1 || close == -1 then Ok([])
    else if open + 1 > close then Err(HostError("StringIndexOutOfBoundsException"))
    else Ok(DeclaredNames(line[open + 1..close], 0))
  }

  /** Every name a `for` header yields is an identifier. */
  lemma ForVariablesAreIdentifiers(line: string)
    requires ForVariables(line).Ok?
    ensures forall k :: 0 <= k < |ForVariables(line).value| ==> IsIdentifier(ForVariables(line).value[k])
  {
  }

  /** `extractForVariables` with its `while (matcher.find())` loop. */
  method ExtractForVariables(line: string) returns (r: Result<seq<string>>)
    ensures r == ForVariables(line)
  {
    var open := IndexOf(line, '(');
    var close := LastIndexOf(line, ')');
    if open == -1 || close == -1 {
      return Ok([]);
    }
    if open + 1 > close {
      return Err(HostError("StringIndexOutOfBoundsException"));
    }
    var forContent := line[open + 1..close];
    var vars: seq<string> := [];
    var from := 0;
    while true
      invariant from <= |forContent|
      invariant vars + DeclaredNames(forContent, from) == DeclaredNames(forContent, 0)
      decreases |forContent| - from
    {
      var found := FindDeclaration(forContent, from);
      if found.None? {
        break;
      }
      var name := forContent[found.value.0..found.value.1];
      assert DeclaredNames(forContent, from) == [name] + DeclaredNames(forContent, found.value.1);
      vars := vars + [name];
      from := found.value.1;
    }
    assert DeclaredNames(forContent, from) == [];
    assert vars + [] == vars;
    assert ForVariables(line) == Ok(DeclaredNames(forContent, 0));
    r := Ok(vars);
  }

  /** For a header `head(content)` whose head holds no parenthesis, the names are those
      declared in `content`. */
  lemma HeaderNames(head: string, content: string)
    requires '(' !in head && ')' !in head
    ensures ForVariables(head + "(" + content + ")") == Ok(DeclaredNames(content, 0))
  {
    var line := head + "(" + content + ")";
    forall k | 0 <= k < |head|
      ensures line[k] != '('
    {
      assert line[k] == head[k];
    }
    IndexOfIs(line, '(', |head|);
    assert line[|line| - 1] == ')';
    assert line[|head| + 1..|line| - 1] == content;
  }

  /** Past a declaration, a text in which no two word characters are adjacent holds
      no other. */
  lemma {:induction false} NoDeclarationWithoutWords(s: string, i: nat)
    requires i <= |s|
    requires forall j :: i <= j < |s| - 1 ==> !IsWordChar(s[j]) || !IsWordChar(s[j + 1])
    ensures FindDeclaration(s, i) == None
    decreases |s| - i
  {
    if i < |s| {
      NoDeclarationWithoutWords(s, i + 1);
      TypeWordsAreIdentifiers();
      if !IsWordChar(s[i]) {
        NoDeclarationAtNonWordChar(s, i, TypeWords);
      } else {
        ShortWordDeclaresNothing(s, i, TypeWords);
      }
    }
  }

  lemma {:induction false} NoDeclarationAtNonWordChar(s: string, i: nat, words: seq<string>)
    requires i < |s| && !IsWordChar(s[i])
    requires forall k :: 0 <= k < |words| ==> IsIdentifier(words[k])
    ensures DeclarationWith(s, i, words) == None
  {
    if words != [] {
      MatchedChar(s, words[0], i, 0);
      NoDeclarationAtNonWordChar(s, i, words[1..]);
    }
  }

  lemma {:induction false} ShortWordDeclaresNothing(s: string, i: nat, words: seq<string>)
    requires i < |s| && (i == |s| - 1 || !IsWordChar(s[i + 1]))
    requires forall k :: 0 <= k < |words| ==> IsIdentifier(words[k]) && |words[k]| >= 2
    ensures DeclarationWith(s, i, words) == None
  {
    if words != [] {
      MatchedChar(s, words[0], i, 1);
      assert IsWordChar(words[0][1]);
      ShortWordDeclaresNothing(s, i, words[1..]);
    }
  }

  /** A header `for (int name…)` whose remainder has no two adjacent word characters
      declares `name` and nothing else. */
  lemma CounterDeclared(name: string, tail: string)
    requires IsIdentifier(name)
    requires tail == [] || !IsWordChar(tail[0])
    requires forall j :: 0 <= j < |tail| - 1 ==> !IsWordChar(tail[j]) || !IsWordChar(tail[j + 1])
    ensures ForVariables("for (" + ("int " + name + tail) + ")") == Ok([name])
  {
    var c := "int " + name + tail;
    HeaderNames("for ", c);
    assert "for (" + c + ")" == "for " + "(" + c + ")";
    CounterNames(name, tail);
  }

  /** The declarations in `int name…` when the remainder has no two adjacent word
      characters. */
  lemma CounterNames(name: string, tail: string)
    requires IsIdentifier(name)
    requires tail == [] || !IsWordChar(tail[0])
    requires forall j :: 0 <= j < |tail| - 1 ==> !IsWordChar(tail[j]) || !IsWordChar(tail[j + 1])
    ensures DeclaredNames("int " + name + tail, 0) == [name]
  {
    var c := "int " + name + tail;
    var e: nat := 4 + |name|;
    IntDeclarationAt(name, tail);
    assert c[4..e] == name;
    forall j | e <= j < |c| - 1
      ensures !IsWordChar(c[j]) || !IsWordChar(c[j + 1])
    {
      assert c[j] == tail[j - e] && c[j + 1] == tail[j + 1 - e];
    }
    NoDeclarationWithoutWords(c, e);
    assert FindDeclaration(c, 0) == Some((4, e));
    assert DeclaredNames(c, e) == [];
  }

  /** `int name` followed by a non-word character matches at the start, capturing
      `name`. */
  lemma IntDeclarationAt(name: string, tail: string)
    requires IsIdentifier(name)
    requires tail == [] || !IsWordChar(tail[0])
    ensures var d := DeclarationAt("int " + name + tail, 0); d.Some? && d.value.0 == 4 && d.value.1 == 4 + |name|
  {
    var c := "int " + name + tail;
    var e: nat := 4 + |name|;
    assert MatchAt(c, "int", 0) by {
      assert c[..3] == "int";
    }
    assert c[3] == ' ' && c[4] == name[0];
    IdentifierHasNoSpace(name);
    assert SkipSpaces(c, 3) == 4 by {
      assert SkipSpaces(c, 4) == 4;
    }
    assert WordEnd(c, 5) == e by {
      forall k | 4 <= k < e
        ensures IsWordChar(c[k])
      {
        assert c[k] == name[k - 4];
      }
      WordRunEnds(c, 4, e);
    }
    assert TypeWords[0] == "int";
  }

  lemma {:induction false} WordRunEnds(s: string, m: nat, e: nat)
    requires m < e <= |s| && (e == |s| || !IsWordChar(s[e]))
    requires forall k :: m <= k < e ==> IsWordChar(s[k])
    ensures WordEnd(s, m + 1) == e
    decreases e - m
  {
    if m + 1 < e {
      WordRunEnds(s, m + 1, e);
    }
  }

  /** When a `)` comes before the first `(` and no `)` follows it, `substring` is asked
      for a range that ends before it starts, and throws. */
  lemma ClosingBeforeOpening(head: string, mid: string, tail: string)
    requires '(' !in head && '(' !in mid && ')' !in mid && ')' !in tail
    ensures ForVariables(head + ")" + mid + "(" + tail) == Err(HostError("StringIndexOutOfBoundsException"))
  {
    var line := head + ")" + mid + "(" + tail;
    var p := |head| + 1 + |mid|;
    forall k | 0 <= k < p
      ensures line[k] != '('
    {
      if k < |head| {
        assert line[k] == head[k];
      } else if k > |head| {
        assert line[k] == mid[k - |head| - 1];
      }
    }
    assert line[p] == '(';
    IndexOfIs(line, '(', p);
    assert line[|head|] == ')';
    forall k | |head| < k < |line|
      ensures line[k] != ')'
    {
      if k < p {
        assert line[k] == mid[k - |head| - 1];
      } else if k > p {
        assert line[k] == tail[k - p - 1];
      }
    }
    assert LastIndexOf(line, ')') == |head|;
  }
}
