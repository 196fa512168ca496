// src/hooks/useFileManager.ts: the editor's list of files, the active file, the code
// they combine into for a run, and the map from a line of that code back to its file.
// The React state becomes the fields of class FileManager; `Date.now()` is a parameter.

module FileManager {
  import opened Common
  import Text

  datatype JavaFile = JavaFile(id: string, name: string, content: string, isMain: bool)

  /** The lines `startLine..endLine` (inclusive, counted from 0) of the combined code
      come from `file`. */
  datatype LineRange = LineRange(file: JavaFile, startLine: int, endLine: int)

  datatype Combined = Combined(code: string, lineMap: seq<LineRange>)

  /** Where a line of the combined code comes from: a file and a line counted from 1. */
  datatype Location = Location(file: JavaFile, localLine: int)

  // ---------------------------------------------------------------------------
  // Text

  predicate EndsWith(s: string, suffix: string)
  {
    |suffix| <= |s| && s[|s| - |suffix|..] == suffix
  }

  /** `lines.join("\n\n")`. */
  function JoinSegments(segs: seq<string>): string
  {
    if segs == [] then []
    else if |segs| == 1 then segs[0]
    else segs[0] + "\n\n" + JoinSegments(segs[1..])
  }

  /** Splitting the joined code gives the segments' lines with a blank line between
      each two segments. */
  lemma {:induction false} SplitJoined(segs: seq<string>)
    requires segs != []
    ensures SplitEach(segs) != [] && Text.Split(JoinSegments(segs), '\n') == FlatLines(SplitEach(segs))
  {
    assert SplitEach(segs)[1..] == SplitEach(segs[1..]);
    if |segs| > 1 {
      var rest := JoinSegments(segs[1..]);
      assert segs[0] + "\n\n" + rest == segs[0] + ['\n'] + (['\n'] + rest);
      Text.SplitAppend(segs[0], ['\n'] + rest, '\n');
      assert (['\n'] + rest)[1..] == rest;
      SplitJoined(segs[1..]);
    }
  }

  // ---------------------------------------------------------------------------
  // The combined code

  /** `files.find(f => f.isMain)`. */
  function FirstMain(files: seq<JavaFile>): (r: Option<JavaFile>)
    ensures r.Some? ==> r.value in files && r.value.isMain
    ensures r.None? ==> forall k :: 0 <= k < |files| ==> !files[k].isMain
  {
    if files == [] then None
    else if files[0].isMain then Some(files[0])
    else FirstMain(files[1..])
  }

  /** `files.filter(f => !f.isMain)`. */
  function NonMain(files: seq<JavaFile>): (r: seq<JavaFile>)
    ensures forall k :: 0 <= k < |r| ==> !r[k].isMain && r[k] in files
  {
    if files == [] then []
    else if files[0].isMain then NonMain(files[1..])
    else [files[0]] + NonMain(files[1..])
  }

  /** The main file first, then the others in order; every other file marked main is
      dropped. */
  function Ordered(files: seq<JavaFile>): seq<JavaFile>
  {
    var m := FirstMain(files);
    if m.Some? then [m.value] + NonMain(files) else files
  }

  /** A file with its content trimmed and that text's lines: what the file puts into
      the combined code. */
  datatype Part = Part(file: JavaFile, text: string, lines: seq<string>)

  /** Each file with its content, trimmed and split into lines. */
  function Parts(files: seq<JavaFile>): (r: seq<Part>)
    ensures |r| == |files|
    ensures forall k :: 0 <= k < |r| ==> r[k].file == files[k]
  {
    if files == [] then []
    else
      var text := Text.JsTrim(files[0].content);
      [Part(files[0], text, Text.Split(text, '\n'))] + Parts(files[1..])
  }

  /** Every part's lines are its text's lines. */
  predicate LinesSplit(parts: seq<Part>)
  {
    forall k :: 0 <= k < |parts| ==> parts[k].lines == Text.Split(parts[k].text, '\n')
  }

  /** Every part's text is its file's content trimmed, and its lines are that text's
      lines. */
  predicate Trimmed(parts: seq<Part>)
  {
    && LinesSplit(parts)
    && forall k :: 0 <= k < |parts| ==> parts[k].text == Text.JsTrim(parts[k].file.content)
  }

  lemma {:induction false} PartsTrimmed(files: seq<JavaFile>)
    ensures Trimmed(Parts(files))
  {
    if files != [] {
      PartsTrimmed(files[1..]);
      var r := Parts(files);
      forall k | 1 <= k < |r|
        ensures r[k] == Parts(files[1..])[k - 1]
      {
      }
    }
  }

  lemma {:induction false} PartAt(files: seq<JavaFile>, i: nat)
    requires i < |files|
    ensures Parts(files)[i] == Part(files[i], Text.JsTrim(files[i].content), Text.Split(Text.JsTrim(files[i].content), '\n'))
  {
    if i > 0 {
      PartAt(files[1..], i - 1);
      assert Parts(files)[i] == Parts(files[1..])[i - 1];
    }
  }

  /** The texts of the parts that are not blank, in order: `codeSegments`. */
  function Texts(parts: seq<Part>): seq<string>
  {
    if parts == [] then []
    else if parts[0].text == [] then Texts(parts[1..])
    else [parts[0].text] + Texts(parts[1..])
  }

  /** The lines of the parts that are not blank, in order. */
  function Blocks(parts: seq<Part>): seq<seq<string>>
  {
    if parts == [] then []
    else if parts[0].text == [] then Blocks(parts[1..])
    else [parts[0].lines] + Blocks(parts[1..])
  }

  /** Each text split into lines. */
  function SplitEach(texts: seq<string>): (r: seq<seq<string>>)
    ensures |r| == |texts|
  {
    if texts == [] then [] else [Text.Split(texts[0], '\n')] + SplitEach(texts[1..])
  }

  lemma {:induction false} BlocksAreSplitTexts(parts: seq<Part>)
    requires LinesSplit(parts)
    ensures Blocks(parts) == SplitEach(Texts(parts))
  {
    if parts != [] {
      assert LinesSplit(parts[1..]) by {
        forall k | 0 <= k < |parts| - 1
          ensures parts[1..][k] == parts[k + 1]
        {
        }
      }
      BlocksAreSplitTexts(parts[1..]);
      if parts[0].text != [] {
        var t := [parts[0].text] + Texts(parts[1..]);
        assert t[0] == parts[0].text && t[1..] == Texts(parts[1..]);
      }
    }
  }

  /** Blocks of lines joined with an empty line between each two. */
  function FlatLines(blocks: seq<seq<string>>): seq<string>
    requires blocks != []
  {
    if |blocks| == 1 then blocks[0] else blocks[0] + [""] + FlatLines(blocks[1..])
  }

  /** Entries in increasing order, each ending before the next starts. */
  predicate Disjoint(m: seq<LineRange>)
  {
    forall i, j :: 0 <= i < j < |m| ==> m[i].endLine < m[j].startLine
  }

  /** The lines `getCombinedCodeWithMap` adds after a file's last line (`endLine + 1`)
      before the next file starts. */
  const SourceGap: nat := 2

  /** The lines `"\n\n"` actually puts there: one blank line. */
  const SeparatorGap: nat := 1

  /** The map entries of `parts` from global line `g` on: a blank part is skipped, the
      others take as many lines as they hold, and `gap` lines separate them. */
  function Layout(parts: seq<Part>, g: int, gap: nat): (m: seq<LineRange>)
    decreases |parts|
  {
    if parts == [] then []
    else if parts[0].text == [] then Layout(parts[1..], g, gap)
    else
      var n := |parts[0].lines|;
      [LineRange(parts[0].file, g, g + n - 1)] + Layout(parts[1..], g + n + gap, gap)
  }

  lemma {:induction false} LayoutLength(parts: seq<Part>, g: int, gap: nat)
    ensures |Texts(parts)| == |Layout(parts, g, gap)| == |Blocks(parts)|
    decreases |parts|
  {
    if parts != [] {
      LayoutLength(parts[1..], if parts[0].text == [] then g else g + |parts[0].lines| + gap, gap);
    }
  }

  /** Entry `k` of a layout belongs to the `k`-th part that is not blank: it starts at
      `g` or later, covers exactly that part's lines, and names that part's file. */
  lemma {:induction false} LayoutEntry(parts: seq<Part>, g: int, gap: nat, k: nat)
    requires k < |Layout(parts, g, gap)|
    ensures var m := Layout(parts, g, gap); var t := Texts(parts); var b := Blocks(parts);
      && |t| == |m| == |b| && t[k] != [] && g <= m[k].startLine
      && m[k].endLine == m[k].startLine + |b[k]| - 1
      && Part(m[k].file, t[k], b[k]) in parts
    decreases |parts|
  {
    LayoutLength(parts, g, gap);
    if parts[0].text == [] {
      LayoutEntry(parts[1..], g, gap, k);
    } else if k > 0 {
      LayoutEntry(parts[1..], g + |parts[0].lines| + gap, gap, k - 1);
    }
  }

  /** The entries of a layout come in increasing order without overlapping. */
  lemma {:induction false} LayoutOrdered(parts: seq<Part>, g: int, gap: nat, i: nat, j: nat)
    requires i < j < |Layout(parts, g, gap)|
    ensures Layout(parts, g, gap)[i].endLine < Layout(parts, g, gap)[j].startLine
    decreases |parts|
  {
    if parts[0].text == [] {
      LayoutOrdered(parts[1..], g, gap, i, j);
    } else if i > 0 {
      LayoutOrdered(parts[1..], g + |parts[0].lines| + gap, gap, i - 1, j - 1);
    } else {
      LayoutEntry(parts[1..], g + |parts[0].lines| + gap, gap, j - 1);
    }
  }

  lemma LayoutDisjoint(parts: seq<Part>, g: int, gap: nat)
    ensures Disjoint(Layout(parts, g, gap))
  {
    forall i, j | 0 <= i < j < |Layout(parts, g, gap)|
      ensures Layout(parts, g, gap)[i].endLine < Layout(parts, g, gap)[j].startLine
    {
      LayoutOrdered(parts, g, gap, i, j);
    }
  }

  /** The code and the map with `gap` lines between two files' ranges. */
  function CombinedWithGap(files: seq<JavaFile>, gap: nat): Combined
  {
    var parts := Parts(Ordered(files));
    Combined(JoinSegments(Texts(parts)), Layout(parts, 0, gap))
  }

  /** `getCombinedCodeWithMap` as written: two lines after each file's last line. */
  function CombinedCodeAsWritten(files: seq<JavaFile>): Combined
  {
    CombinedWithGap(files, SourceGap)
  }

  /** The gap changes only the map: the code is the same under either. */
  lemma SameCode(files: seq<JavaFile>)
    ensures CombinedCodeAsWritten(files).code == CombinedCodeWithMap(files).code
  {
  }

  /** `getCombinedCodeWithMap` with the map counting the one blank line `"\n\n"`
      puts between two files. */
  function CombinedCodeWithMap(files: seq<JavaFile>): Combined
  {
    CombinedWithGap(files, SeparatorGap)
  }

  /** The loop of `resolveLineToFile`: the first entry that holds the line, else the
      fallback file with the line counted from 1. */
  function ResolveIn(lineMap: seq<LineRange>, globalLine: int, fallback: JavaFile): (r: Location)
  {
    if lineMap == [] then Location(fallback, globalLine + 1)
    else if lineMap[0].startLine <= globalLine <= lineMap[0].endLine then
      Location(lineMap[0].file, globalLine - lineMap[0].startLine + 1)
    else ResolveIn(lineMap[1..], globalLine, fallback)
  }

  /** The first lines of joined blocks are the first block's lines. */
  lemma FlatFirst(first: seq<string>, rest: seq<seq<string>>, i: nat)
    requires i < |first|
    ensures i < |FlatLines([first] + rest)| && FlatLines([first] + rest)[i] == first[i]
  {
    if rest != [] {
      assert ([first] + rest)[1..] == rest;
    }
  }

  /** After the first block's lines and the blank line come the lines of the rest. */
  lemma FlatAfterFirst(first: seq<string>, rest: seq<seq<string>>, i: nat)
    requires rest != [] && |first| < i && i - |first| - 1 < |FlatLines(rest)|
    ensures i < |FlatLines([first] + rest)| && FlatLines([first] + rest)[i] == FlatLines(rest)[i - |first| - 1]
  {
    assert ([first] + rest)[1..] == rest;
  }

  /** With the separator's gap, line `line - g` of the joined blocks laid out from `g`
      is the matching line of the block whose range holds it. */
  lemma {:induction false} LayoutLines(parts: seq<Part>, g: int, k: nat, line: int)
    requires var m := Layout(parts, g, SeparatorGap); k < |m| && m[k].startLine <= line <= m[k].endLine
    ensures var m := Layout(parts, g, SeparatorGap); var b := Blocks(parts);
      && g <= m[k].startLine && |b| == |m| && line - g < |FlatLines(b)| && line - m[k].startLine < |b[k]|
      && FlatLines(b)[line - g] == b[k][line - m[k].startLine]
    decreases |parts|
  {
    LayoutEntry(parts, g, SeparatorGap, k);
    var b := Blocks(parts);
    var m := Layout(parts, g, SeparatorGap);
    if parts[0].text == [] {
      assert b == Blocks(parts[1..]) && m == Layout(parts[1..], g, SeparatorGap);
      LayoutLines(parts[1..], g, k, line);
    } else {
      var n := |parts[0].lines|;
      var m' := Layout(parts[1..], g + n + SeparatorGap, SeparatorGap);
      var r := Blocks(parts[1..]);
      assert m == [LineRange(parts[0].file, g, g + n - 1)] + m';
      assert b == [parts[0].lines] + r;
      if k > 0 {
        LayoutLines(parts[1..], g + n + SeparatorGap, k - 1, line);
        assert m[k] == m'[k - 1] && b[k] == r[k - 1];
        FlatAfterFirst(parts[0].lines, r, line - g);
      } else {
        FlatFirst(parts[0].lines, r, line - g);
      }
    }
  }

  lemma {:induction false} ResolveFindsEntry(lineMap: seq<LineRange>, k: nat, line: int, fallback: JavaFile)
    requires k < |lineMap| && lineMap[k].startLine <= line <= lineMap[k].endLine
    requires Disjoint(lineMap)
    ensures ResolveIn(lineMap, line, fallback) == Location(lineMap[k].file, line - lineMap[k].startLine + 1)
  {
    if k > 0 {
      assert lineMap[0].endLine < lineMap[k].startLine;
      assert Disjoint(lineMap[1..]) by {
        forall i, j | 0 <= i < j < |lineMap| - 1
          ensures lineMap[1..][i].endLine < lineMap[1..][j].startLine
        {
          assert lineMap[1..][i] == lineMap[i + 1] && lineMap[1..][j] == lineMap[j + 1];
        }
      }
      ResolveFindsEntry(lineMap[1..], k - 1, line, fallback);
    }
  }

  /** Line `line` of the joined texts of `parts`, when it lies in the `k`-th range of
      their layout, is that line of the range's part, and the resolving loop finds the
      part's file and that line counted from 1. */
  lemma LayoutIsFaithful(parts: seq<Part>, fallback: JavaFile, k: nat, line: int)
    requires LinesSplit(parts)
    requires var m := Layout(parts, 0, SeparatorGap); k < |m| && m[k].startLine <= line <= m[k].endLine
    ensures var m := Layout(parts, 0, SeparatorGap);
      var e := m[k];
      var b := Blocks(parts);
      var lines := Text.Split(JoinSegments(Texts(parts)), '\n');
      && ResolveIn(m, line, fallback) == Location(e.file, line - e.startLine + 1)
      && |b| == |m| == |Texts(parts)| && Part(e.file, Texts(parts)[k], b[k]) in parts
      && 0 <= line < |lines| && line - e.startLine < |b[k]|
      && lines[line] == b[k][line - e.startLine]
  {
    LayoutEntry(parts, 0, SeparatorGap, k);
    LayoutDisjoint(parts, 0, SeparatorGap);
    LayoutLines(parts, 0, k, line);
    BlocksAreSplitTexts(parts);
    SplitJoined(Texts(parts));
    ResolveFindsEntry(Layout(parts, 0, SeparatorGap), k, line, fallback);
  }

  /** Every line the map assigns to a file holds, in the combined code, that line of
      the file's trimmed content; and `resolveLineToFile` finds that file and that
      line counted from 1. */
  lemma LineMapIsFaithful(files: seq<JavaFile>, fallback: JavaFile, k: nat, line: int)
    requires var c := CombinedCodeWithMap(files);
      k < |c.lineMap| && c.lineMap[k].startLine <= line <= c.lineMap[k].endLine
    ensures var c := CombinedCodeWithMap(files);
      var e := c.lineMap[k];
      var lines := Text.Split(Text.JsTrim(e.file.content), '\n');
      && ResolveIn(c.lineMap, line, fallback) == Location(e.file, line - e.startLine + 1)
      && 0 <= line < |Text.Split(c.code, '\n')| && line - e.startLine < |lines|
      && Text.Split(c.code, '\n')[line] == lines[line - e.startLine]
  {
    var parts := Parts(Ordered(files));
    var c := CombinedCodeWithMap(files);
    assert c.code == JoinSegments(Texts(parts)) && c.lineMap == Layout(parts, 0, SeparatorGap);
    PartsTrimmed(Ordered(files));
    LayoutIsFaithful(parts, fallback, k, line);
    var e := c.lineMap[k];
    var p := Part(e.file, Texts(parts)[k], Blocks(parts)[k]);
    var j :| 0 <= j < |parts| && parts[j] == p;
    assert p.lines == Text.Split(Text.JsTrim(e.file.content), '\n');
  }

  /** As written, the second of two one-line files sits on line 2 of the combined code
      but is mapped to line 3, so line 2 falls back to the first file. */
  lemma AsWrittenMapsSecondFileLate()
    ensures var a := JavaFile("a", "A.java", "A", true);
      var b := JavaFile("b", "B.java", "B", false);
      var c := CombinedCodeAsWritten([a, b]);
      && Text.Split(c.code, '\n') == ["A", "", "B"]
      && c.lineMap == [LineRange(a, 0, 0), LineRange(b, 3, 3)]
      && ResolveIn(c.lineMap, 2, a) == Location(a, 3)
  {
    var a := JavaFile("a", "A.java", "A", true);
    var b := JavaFile("b", "B.java", "B", false);
    assert Ordered([a, b]) == [a, b] by {
      assert [a, b][1..] == [b];
      assert NonMain([b]) == [b] + NonMain([]);
    }
    assert !Text.IsJsSpace('A') && !Text.IsJsSpace('B');
    assert Text.TrimStart("A") == "A" && Text.TrimEnd("A") == "A";
    assert Text.TrimStart("B") == "B" && Text.TrimEnd("B") == "B";
    assert Text.Split("A", '\n') == ["A"] by {
      assert "A"[1..] == [] && ['A'] + [] == "A";
    }
    assert Text.Split("B", '\n') == ["B"] by {
      assert "B"[1..] == [] && ['B'] + [] == "B";
    }
    var parts := Parts([a, b]);
    assert parts == [Part(a, "A", ["A"]), Part(b, "B", ["B"])] by {
      assert [a, b][1..] == [b];
      assert Parts([b]) == [Part(b, "B", ["B"])] + Parts([]);
    }
    assert parts[1..] == [Part(b, "B", ["B"])];
    assert Layout(parts, 0, SourceGap) == [LineRange(a, 0, 0), LineRange(b, 3, 3)] by {
      assert Layout(parts[1..], 3, SourceGap) == [LineRange(b, 3, 3)] + Layout([], 6, SourceGap);
    }
    assert Texts(parts) == ["A", "B"] by {
      assert Texts(parts[1..]) == ["B"] + Texts([]);
    }
    assert JoinSegments(["A", "B"]) == "A\n\nB" by {
      assert ["A", "B"][1..] == ["B"];
    }
    SplitJoined(["A", "B"]);
    assert SplitEach(["A", "B"]) == [["A"], ["B"]] by {
      assert ["A", "B"][1..] == ["B"];
      assert SplitEach(["B"]) == [["B"]] + SplitEach([]);
    }
    assert FlatLines([["A"], ["B"]]) == ["A", "", "B"] by {
      assert [["A"], ["B"]][1..] == [["B"]];
    }
  }

  /** The main file's text comes first in the combined code when it is not blank. */
  lemma MainFileFirst(files: seq<JavaFile>, m: JavaFile)
    requires FirstMain(files) == Some(m) && Text.JsTrim(m.content) != []
    ensures var c := CombinedCodeWithMap(files);
      |c.lineMap| > 0 && c.lineMap[0] == LineRange(m, 0, |Text.Split(Text.JsTrim(m.content), '\n')| - 1)
  {
    var text := Text.JsTrim(m.content);
    assert Parts(Ordered(files))[0] == Part(m, text, Text.Split(text, '\n'));
  }

  /** A step of `getCombinedCodeWithMap`'s loop over a blank file adds nothing. */
  lemma SkipStep(parts: seq<Part>, i: nat, g: int, gap: nat)
    requires i < |parts| && parts[i].text == []
    ensures Layout(parts[i..], g, gap) == Layout(parts[i + 1..], g, gap)
    ensures Texts(parts[i..]) == Texts(parts[i + 1..])
  {
    assert parts[i..][0] == parts[i] && parts[i..][1..] == parts[i + 1..];
  }

  /** A step over a file that is not blank adds its range and its text. */
  lemma AddStep(parts: seq<Part>, i: nat, g: int, gap: nat, m: seq<LineRange>, segs: seq<string>, e: LineRange)
    requires i < |parts| && parts[i].text != []
    requires e == LineRange(parts[i].file, g, g + |parts[i].lines| - 1)
    ensures m + Layout(parts[i..], g, gap) == (m + [e]) + Layout(parts[i + 1..], g + |parts[i].lines| + gap, gap)
    ensures segs + Texts(parts[i..]) == (segs + [parts[i].text]) + Texts(parts[i + 1..])
  {
    assert parts[i..][0] == parts[i] && parts[i..][1..] == parts[i + 1..];
  }

  /** A line outside every range falls back to the given file. */
  lemma {:induction false} UnmappedLineFallsBack(lineMap: seq<LineRange>, line: int, fallback: JavaFile)
    requires forall k :: 0 <= k < |lineMap| ==> !(lineMap[k].startLine <= line <= lineMap[k].endLine)
    ensures ResolveIn(lineMap, line, fallback) == Location(fallback, line + 1)
  {
    if lineMap != [] {
      UnmappedLineFallsBack(lineMap[1..], line, fallback);
    }
  }

  // ---------------------------------------------------------------------------
  // List updates

  /** `files.find(f => f.id === id)`. */
  function FindById(files: seq<JavaFile>, id: string): (r: Option<JavaFile>)
    ensures r.Some? ==> r.value in files && r.value.id == id
    ensures r.None? ==> forall k :: 0 <= k < |files| ==> files[k].id != id
  {
    if files == [] then None
    else if files[0].id == id then Some(files[0])
    else FindById(files[1..], id)
  }

  /** The file `addFile(name)` appends at time `now`: a `.java` suffix unless the
      trimmed name already ends with it, and an empty class named after the name as
      given. */
  function NewFile(name: string, now: nat): (f: JavaFile)
  {
    JavaFile("file-" + Text.NatToString(now),
             if EndsWith(Text.JsTrim(name), ".java") then name else name + ".java",
             "class " + name + " {\n  \n}",
             false)
  }

  /** `prev.filter(f => f.id !== id)`. */
  function WithoutId(files: seq<JavaFile>, id: string): (r: seq<JavaFile>)
    ensures forall k :: 0 <= k < |r| ==> r[k].id != id && r[k] in files
    ensures forall k :: 0 <= k < |files| && files[k].id != id ==> files[k] in r
  {
    if files == [] then []
    else if files[0].id == id then WithoutId(files[1..], id)
    else [files[0]] + WithoutId(files[1..], id)
  }

  /** `removeFile(id)` on the list and the active id. */
  function Removed(files: seq<JavaFile>, active: string, id: string): (seq<JavaFile>, string)
  {
    var filtered := WithoutId(files, id);
    if filtered == [] then (files, active)
    else (filtered, if id == active then filtered[0].id else active)
  }

  /** `updateFileContent(id, content)`. */
  function WithContent(files: seq<JavaFile>, id: string, content: string): (r: seq<JavaFile>)
  {
    seq(|files|, k requires 0 <= k < |files| => if files[k].id == id then files[k].(content := content) else files[k])
  }

  /** The name `renameFile` gives: `.java` is added unless the name ends with it. */
  function JavaName(newName: string): string
  {
    if EndsWith(newName, ".java") then newName else newName + ".java"
  }

  /** `renameFile(id, newName)`. */
  function Renamed(files: seq<JavaFile>, id: string, newName: string): (r: seq<JavaFile>)
  {
    seq(|files|, k requires 0 <= k < |files| => if files[k].id == id then files[k].(name := JavaName(newName)) else files[k])
  }

  /** `setMainFile(id)`. */
  function WithMain(files: seq<JavaFile>, id: string): (r: seq<JavaFile>)
  {
    seq(|files|, k requires 0 <= k < |files| => files[k].(isMain := files[k].id == id))
  }

  /** Removal never empties the list; it removes every file with the id unless they
      are all the files there are; and the active id still names a file afterwards
      when it named one before. */
  lemma RemoveKeepsAFile(files: seq<JavaFile>, active: string, id: string)
    requires files != []
    ensures var (after, a) := Removed(files, active, id);
      && after != []
      && (WithoutId(files, id) != [] ==> forall k :: 0 <= k < |after| ==> after[k].id != id)
      && (FindById(files, active).Some? ==> FindById(after, a).Some?)
  {
    var filtered := WithoutId(files, id);
    if filtered != [] && FindById(files, active).Some? {
      var a := if id == active then filtered[0].id else active;
      if id != active {
        var f := FindById(files, active).value;
        var k :| 0 <= k < |files| && files[k] == f;
        assert f in filtered;
        var j :| 0 <= j < |filtered| && filtered[j] == f;
        assert filtered[j].id == a;
      } else {
        assert filtered[0].id == a;
      }
    }
  }

  /** Updating or renaming changes only the file with the id, and only its content or
      its name; a renamed file's name ends in `.java` without a doubled suffix. */
  lemma UpdatesTouchOnlyTarget(files: seq<JavaFile>, id: string, content: string, newName: string, k: nat)
    requires k < |files|
    ensures var u := WithContent(files, id, content);
      |u| == |files| && u[k] == (if files[k].id == id then files[k].(content := content) else files[k])
    ensures var r := Renamed(files, id, newName);
      |r| == |files| && r[k] == (if files[k].id == id then files[k].(name := JavaName(newName)) else files[k])
    ensures EndsWith(JavaName(newName), ".java")
    ensures EndsWith(newName, ".java") ==> JavaName(newName) == newName
    ensures !EndsWith(newName, ".java") ==> JavaName(newName) == newName + ".java"
  {
  }

  /** After `setMainFile(id)` exactly the files with that id are marked main. */
  lemma SetMainMarksOnlyTarget(files: seq<JavaFile>, id: string, k: nat)
    requires k < |files|
    ensures var m := WithMain(files, id);
      |m| == |files| && (m[k].isMain <==> m[k].id == id) && m[k].(isMain := files[k].isMain) == files[k]
  {
  }

  /** An added file with a fresh id becomes the active file. */
  lemma AddedFileBecomesActive(files: seq<JavaFile>, name: string, now: nat)
    requires FindById(files, NewFile(name, now).id).None?
    ensures FindById(files + [NewFile(name, now)], NewFile(name, now).id) == Some(NewFile(name, now))
    ensures EndsWith(NewFile(name, now).name, ".java") || EndsWith(Text.JsTrim(name), ".java")
    decreases |files|
  {
    var f := NewFile(name, now);
    FindAfterAppend(files, f);
  }

  lemma {:induction false} FindAfterAppend(files: seq<JavaFile>, f: JavaFile)
    requires FindById(files, f.id).None?
    ensures FindById(files + [f], f.id) == Some(f)
    decreases |files|
  {
    if files != [] {
      assert (files + [f])[0] == files[0];
      assert (files + [f])[1..] == files[1..] + [f];
      FindAfterAppend(files[1..], f);
    } else {
      assert files + [f] == [f];
    }
  }

  // ---------------------------------------------------------------------------
  // The hook's state

  class Manager {
    var files: seq<JavaFile>
    var activeFileId: string

    /** The hook never lets the list become empty. */
    predicate Valid()
      reads this
    {
      files != []
    }

    /** `useFileManager(initialFile)`. */
    constructor(initialFile: JavaFile)
      ensures Valid() && files == [initialFile] && activeFileId == initialFile.id
    {
      files := [initialFile];
      activeFileId := initialFile.id;
    }

    /** `activeFile`: the file with the active id, else the first file. */
    function ActiveFile(): (f: JavaFile)
      reads this
      requires Valid()
      ensures f in files
      ensures FindById(files, activeFileId).Some? ==> f.id == activeFileId
    {
      var found := FindById(files, activeFileId);
      if found.Some? then found.value else files[0]
    }

    method AddFile(name: string, now: nat)
      requires Valid()
      modifies this
      ensures Valid()
      ensures files == old(files) + [NewFile(name, now)] && activeFileId == NewFile(name, now).id
    {
      var f := NewFile(name, now);
      files := files + [f];
      activeFileId := f.id;
    }

    method RemoveFile(id: string)
      requires Valid()
      modifies this
      ensures Valid()
      ensures (files, activeFileId) == Removed(old(files), old(activeFileId), id)
    {
      var filtered := WithoutId(files, id);
      if filtered == [] {
        return;
      }
      if id == activeFileId {
        activeFileId := filtered[0].id;
      }
      files := filtered;
    }

    method UpdateFileContent(id: string, content: string)
      requires Valid()
      modifies this
      ensures Valid() && files == WithContent(old(files), id, content) && activeFileId == old(activeFileId)
    {
      files := WithContent(files, id, content);
    }

    method RenameFile(id: string, newName: string)
      requires Valid()
      modifies this
      ensures Valid() && files == Renamed(old(files), id, newName) && activeFileId == old(activeFileId)
    {
      files := Renamed(files, id, newName);
    }

    method SetMainFile(id: string)
      requires Valid()
      modifies this
      ensures Valid() && files == WithMain(old(files), id) && activeFileId == old(activeFileId)
    {
      files := WithMain(files, id);
    }

    /** `getCombinedCodeWithMap`, file by file, as the hook runs it: the next file starts
        two lines after the previous one's last line. */
    method GetCombinedCodeWithMap() returns (c: Combined)
      ensures c == CombinedCodeAsWritten(files)
      ensures c.code == CombinedCodeWithMap(files).code
    {
      var ordered := Ordered(files);
      ghost var parts := Parts(ordered);
      var globalLine := 0;
      var lineMap: seq<LineRange> := [];
      var codeSegments: seq<string> := [];
      var i := 0;
      assert parts[0..] == parts;
      while i < |ordered|
        invariant 0 <= i <= |ordered|
        invariant Layout(parts, 0, SourceGap) == lineMap + Layout(parts[i..], globalLine, SourceGap)
        invariant Texts(parts) == codeSegments + Texts(parts[i..])
      {
        var content := Text.JsTrim(ordered[i].content);
        var lines := Text.Split(content, '\n');
        PartAt(ordered, i);
        if content != [] {
          var startLine := globalLine;
          var endLine := globalLine + |lines| - 1;
          AddStep(parts, i, globalLine, SourceGap, lineMap, codeSegments, LineRange(ordered[i], startLine, endLine));
          lineMap := lineMap + [LineRange(ordered[i], startLine, endLine)];
          codeSegments := codeSegments + [content];
          globalLine := endLine + 1;
          globalLine := globalLine + 2;
        } else {
          SkipStep(parts, i, globalLine, SourceGap);
        }
        i := i + 1;
      }
      assert lineMap + [] == lineMap && codeSegments + [] == codeSegments;
      c := Combined(JoinSegments(codeSegments), lineMap);
      SameCode(files);
    }

    /** `setActiveFileId`: the list is not touched. */
    method SetActiveFileId(id: string)
      requires Valid()
      modifies this
      ensures Valid() && files == old(files) && activeFileId == id
    {
      activeFileId := id;
    }

    /** `getCombinedCode`: the code half of the combination, the same under either gap. */
    method GetCombinedCode() returns (code: string)
      ensures code == CombinedCodeAsWritten(files).code == CombinedCodeWithMap(files).code
    {
      var c := GetCombinedCodeWithMap();
      code := c.code;
    }

    /** `resolveLineToFile`, entry by entry, on the map the hook computes. */
    method ResolveLineToFile(globalLine: int) returns (loc: Location)
      requires Valid()
      ensures loc == ResolveIn(CombinedCodeAsWritten(files).lineMap, globalLine, files[0])
    {
      var combined := GetCombinedCodeWithMap();
      var lineMap := combined.lineMap;
      var i := 0;
      while i < |lineMap|
        invariant 0 <= i <= |lineMap|
        invariant ResolveIn(lineMap, globalLine, files[0]) == ResolveIn(lineMap[i..], globalLine, files[0])
      {
        assert lineMap[i..][0] == lineMap[i] && lineMap[i..][1..] == lineMap[i + 1..];
        var entry := lineMap[i];
        if globalLine >= entry.startLine && globalLine <= entry.endLine {
          return Location(entry.file, globalLine - entry.startLine + 1);
        }
        i := i + 1;
      }
      assert lineMap[i..] == [];
      loc := Location(files[0], globalLine + 1);
    }
  }
}
