/** How a trace is cut into lines, and which lines are what, in terms of their characters. */
module TraceLines {
  import opened Basics
  import opened IncludeForest
  import opened IncludeTrace

  // ------------------------------------------------------------------- characters

  /** The characters that end a line for `str.splitlines`. */
  const LINE_ENDS: set<int> := {0x0A, 0x0B, 0x0C, 0x0D, 0x1C, 0x1D, 0x1E, 0x85, 0x2028, 0x2029}

  /** The characters that `\s` matches. */
  const SPACES: set<int> := {0x09, 0x0A, 0x0B, 0x0C, 0x0D, 0x1C, 0x1D, 0x1E, 0x1F, 0x20, 0x85, 0xA0, 0x1680, 0x2000,
                             0x2001, 0x2002, 0x2003, 0x2004, 0x2005, 0x2006, 0x2007, 0x2008, 0x2009, 0x200A, 0x2028,
                             0x2029, 0x202F, 0x205F, 0x3000}

  lemma CharacterClasses(c: char)
    ensures IsBreak(c) <==> c as int in LINE_ENDS
    ensures IsSpace(c) <==> c as int in SPACES
  {
  }

  // ------------------------------------------------------------------------ lines

  /** A line end in front of `rest`; a carriage return takes a newline behind it along. */
  ghost predicate IsLineEnd(end: string, rest: string) {
    || end == "\r\n"
    || (|end| == 1 && end[0] as int in LINE_ENDS && !(end == "\r" && rest != "" && rest[0] == '\n'))
  }

  /** `text` is the lines with their ends; only the last line may lack one, and then it is not empty. */
  ghost predicate IsSplit(text: string, lines: seq<string>, ends: seq<string>)
    decreases |lines|
  {
    if lines == [] then text == "" && ends == []
    else
      && |ends| == |lines| && |lines[0]| + |ends[0]| <= |text|
      && (forall c | c in lines[0] :: c as int !in LINE_ENDS)
      && text[..|lines[0]|] == lines[0] && text[|lines[0]|..|lines[0]| + |ends[0]|] == ends[0]
      && var rest := text[|lines[0]| + |ends[0]|..];
         (if ends[0] == "" then lines[0] != "" && rest == "" else IsLineEnd(ends[0], rest))
         && IsSplit(rest, lines[1..], ends[1..])
  }

  ghost predicate IsFirst(text: string, line: string, end: string) {
    && |line| + |end| <= |text| && (forall c | c in line :: c as int !in LINE_ENDS)
    && text[..|line|] == line && text[|line|..|line| + |end|] == end
    && var rest := text[|line| + |end|..];
       if end == "" then line != "" && rest == "" else IsLineEnd(end, rest)
  }

  lemma {:induction false} SplitMeans(text: string) returns (ends: seq<string>)
    ensures IsSplit(text, SplitLines(text), ends)
    decreases |text|
  {
    hide SplitLines, IsSplit, IsFirst;
    if text == "" {
      ends := [];
      NothingSplits();
    } else {
      var n := LineEnd(text);
      var k := SplitUnfolds(text);
      NothingSplits();
      if k == |text| {
        ends := [text[n..k]];
        assert text[|text[..n]| + |text[n..k]|..] == "";
        FirstSplits(text, text[..n], text[n..k], [], []);
        assert [text[..n]] + [] == SplitLines(text) && [text[n..k]] + [] == ends;
      } else {
        var later := SplitMeans(text[k..]);
        ends := [text[n..k]] + later;
        FirstSplits(text, text[..n], text[n..k], SplitLines(text[k..]), later);
      }
    }
  }

  lemma NothingSplits()
    ensures SplitLines("") == [] && IsSplit("", [], [])
  {
  }

  /** The first line and its end, and the lines behind it. */
  lemma FirstSplits(text: string, line: string, end: string, lines: seq<string>, ends: seq<string>)
    requires IsFirst(text, line, end) && IsSplit(text[|line| + |end|..], lines, ends)
    ensures IsSplit(text, [line] + lines, [end] + ends)
  {
    hide IsLineEnd;
    assert ([line] + lines)[1..] == lines && ([end] + ends)[1..] == ends;
    assert lines == [] ==> ends == [];
    SameLength(text[|line| + |end|..], lines, ends);
  }

  lemma SameLength(text: string, lines: seq<string>, ends: seq<string>)
    requires IsSplit(text, lines, ends)
    ensures |lines| == |ends|
  {
  }

  /** Where the first line and its end lie, and that the other lines come from the rest. */
  lemma SplitUnfolds(text: string) returns (k: nat)
    requires text != ""
    ensures LineEnd(text) <= k <= |text| && k > 0 && IsFirst(text, text[..LineEnd(text)], text[LineEnd(text)..k])
    ensures SplitLines(text) == [text[..LineEnd(text)]] + if k == |text| then [] else SplitLines(text[k..])
  {
    var n := LineEnd(text);
    k := if n == |text| then n else n + BreakLength(text, n);
    UnbrokenMeans(text[..n]);
    if n < |text| {
      CharacterClasses(text[n]);
      EndMeans(text, n);
      if k == |text| {
        NothingSplits();
        assert text[k..] == "";
      }
    }
    hide LineEnd, BreakLength, IsLineEnd;
  }

  lemma UnbrokenMeans(line: string)
    ensures Unbroken(line) <==> forall c | c in line :: c as int !in LINE_ENDS
  {
    forall c | c in line
      ensures IsBreak(c) <==> c as int in LINE_ENDS
    {
      CharacterClasses(c);
    }
    hide IsBreak;
  }

  lemma EndMeans(text: string, n: nat)
    requires n < |text| && text[n] as int in LINE_ENDS
    ensures var k := n + BreakLength(text, n);
      n < k <= |text| && IsLineEnd(text[n..k], text[k..])
  {
    var k := n + BreakLength(text, n);
    if k == n + 2 {
      assert text[n..k] == "\r\n";
    } else {
      assert text[n..k] == [text[n]];
    }
  }

  /** There is only one way to cut a text into lines. */
  lemma {:induction false} SplitIsUnique(text: string, a: seq<string>, x: seq<string>, b: seq<string>, y: seq<string>)
    requires IsSplit(text, a, x) && IsSplit(text, b, y)
    ensures a == b
    decreases |a|
  {
    if a != [] && b != [] {
      FirstLineIsUnique(text, a[0], x[0], b[0], y[0]);
      SplitIsUnique(text[|a[0]| + |x[0]|..], a[1..], x[1..], b[1..], y[1..]);
      assert a == [a[0]] + a[1..] && b == [b[0]] + b[1..];
    }
  }

  lemma FirstLineIsUnique(text: string, a: string, x: string, b: string, y: string)
    requires IsFirst(text, a, x) && IsFirst(text, b, y)
    ensures a == b && x == y
  {
    FirstLineEnds(text, a, x);
    FirstLineEnds(text, b, y);
    hide IsFirst;
  }

  /** Where the first line ends, and what its end is. */
  lemma FirstLineEnds(text: string, line: string, end: string)
    requires IsFirst(text, line, end)
    ensures |line| <= |text| && line == text[..|line|]
    ensures forall i | 0 <= i < |line| :: text[i] as int !in LINE_ENDS
    ensures |line| < |text| ==> text[|line|] as int in LINE_ENDS
    ensures end == (if |line| == |text| then ""
                    else if text[|line|] == '\r' && |line| + 1 < |text| && text[|line| + 1] == '\n' then "\r\n"
                    else [text[|line|]])
  {
    assert forall i | 0 <= i < |line| :: text[i] == line[i] && line[i] in line;
    if end != "" {
      assert end[0] == text[|line|];
    }
    if |end| == 2 {
      assert end[1] == text[|line| + 1];
    }
  }

  // ------------------------------------------------------------- what a line is

  predicate IsEntry(e: Entry) {
    e.depth > 0 && e.path != "" && e.path[0] as int !in SPACES && '\n' !in e.path
  }

  /** An entry is some dots, one blank, and a path that starts with no white space and holds no newline. */
  lemma EntryMeans(line: string, e: Entry)
    ensures Recognize(line) == Some(e) <==> IsEntry(e) && line == SpellEntry(e)
  {
    if IsEntry(e) && line == SpellEntry(e) {
      SpelledIsRecognized(e);
    }
    if Recognize(line) == Some(e) {
      RecognizedIsSpelled(line);
    }
  }

  lemma SpelledIsRecognized(e: Entry)
    requires IsEntry(e)
    ensures Recognize(SpellEntry(e)) == Some(e)
  {
    CharacterClasses(e.path[0]);
    hide IsSpace;
    var line := SpellEntry(e);
    assert line[e.depth] == ' ' && line[e.depth + 1..] == e.path;
    DotsCounted(line, e.depth);
  }

  lemma RecognizedIsSpelled(line: string)
    requires Recognize(line).Some?
    ensures IsEntry(Recognize(line).value) && line == SpellEntry(Recognize(line).value)
  {
    var n := Dots(line);
    CharacterClasses(line[n + 1]);
    hide IsSpace, Dots;
    assert line[..n] == seq(n, i => '.');
    assert line == line[..n] + " " + line[n + 1..];
  }

  /** A pseudo file has its name in angle brackets. */
  lemma PseudoMeans(path: string)
    ensures IsPseudo(path) <==> exists inner :: path == "<" + inner + ">"
  {
    if IsPseudo(path) {
      assert path == "<" + path[1..|path| - 1] + ">";
    }
  }

  ghost predicate AllReturns(text: string) {
    forall c | c in text :: c == '\r'
  }

  /** Only carriage returns are stripped, and all of them at the end. */
  lemma {:induction false} StripMeans(line: string)
    ensures |Strip(line)| <= |line| && line[..|Strip(line)|] == Strip(line) && AllReturns(line[|Strip(line)|..])
    ensures Strip(line) != "" ==> Strip(line)[|Strip(line)| - 1] != '\r'
  {
    if line != [] && line[|line| - 1] == '\r' {
      StripMeans(line[..|line| - 1]);
      var n := |Strip(line)|;
      assert line[n..] == line[..|line| - 1][n..] + "\r";
    }
  }

  /** The list of include guards begins with its header. */
  lemma TrailerMeans(lines: seq<string>)
    ensures InTrailer(lines)
      <==> exists k :: 0 <= k < |lines| && Strip(lines[k]) == "Multiple include guards may be useful for:"
  {
  }

  /** The bounds on depth and on the number of entries. */
  lemma BoundsMean(lines: seq<string>, source: Path, resolve: Resolver)
    ensures Outcome(lines, source, resolve).Some?
      <==> CountOf(lines) <= 200000
           && exists f :: Preorder(f, 1) == EntriesOf(lines) && Known(f, resolve) && Height(f) <= 4096
  {
    hide CountOf, EntriesOf, Outcome, Known, Height, Preorder;
    ParseMeans(lines, source, resolve);
    if Outcome(lines, source, resolve).Some? {
      var f :| Explains(lines, f, resolve);
      assert Preorder(f, 1) == EntriesOf(lines) && Known(f, resolve) && Height(f) <= 4096;
    }
    if f :| Preorder(f, 1) == EntriesOf(lines) && Known(f, resolve) && Height(f) <= 4096 {
      assert Explains(lines, f, resolve);
    }
  }
}
