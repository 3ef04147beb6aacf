/**
 * `handle_whitespace` (odpdown.py:119-149): cut a block of text into the
 * units an ODF paragraph needs so that significant whitespace survives:
 * literal text, an "n spaces" marker (`text:s`), a tab marker
 * (`text:tab`) and a line break (`text:line-break`) between lines.
 *
 * The source first splits the text on '\n' (`str.split`), then splits
 * each line with the regular expression `( {2,}|\t)` (`re.split` with a
 * capturing group, so the separators are kept), then classifies every
 * part by its first character. Classifying by the first character alone
 * turns a text part such as " x" into a two-space marker and loses the
 * "x"; `ClassifyAsWritten` keeps that behaviour, `Classify` is the
 * corrected rule the rest of the model uses.
 */
module Whitespace {
  import opened Odf

  /** One output unit: a literal string or one of the three markers. */
  datatype Piece = Lit(text: string) | SpaceRun(n: nat) | TabStop | Break

  /** The element a marker piece stands for in the document. */
  function MarkerElement(p: Piece): (e: Element)
    requires !p.Lit?
    ensures Content(e) == PieceText(p)
  {
    match p
    case SpaceRun(n) => Leaf(Spaces(n))
    case TabStop => Leaf(Tab)
    case Break => Leaf(LineBreak)
  }

  /** The characters a piece stands for. */
  function PieceText(p: Piece): string
  {
    match p
    case Lit(t) => t
    case SpaceRun(n) => RepeatSpace(n)
    case TabStop => "\t"
    case Break => "\n"
  }

  function Render(ps: seq<Piece>): string
  {
    if ps == [] then "" else PieceText(ps[0]) + Render(ps[1..])
  }

  function BreakCount(ps: seq<Piece>): nat
  {
    if ps == [] then 0 else (if ps[0].Break? then 1 else 0) + BreakCount(ps[1..])
  }

  function NewlineCount(s: string): nat
  {
    if s == [] then 0 else (if s[0] == '\n' then 1 else 0) + NewlineCount(s[1..])
  }

  function ConcatStrings(parts: seq<string>): string
  {
    if parts == [] then "" else parts[0] + ConcatStrings(parts[1..])
  }

  predicate AllSpaces(s: string) { forall i :: 0 <= i < |s| ==> s[i] == ' ' }

  predicate NoDoubleSpace(s: string) { forall i :: 0 <= i < |s| - 1 ==> !(s[i] == ' ' && s[i + 1] == ' ') }

  /** What a literal may hold: no tab and no two adjacent spaces. */
  predicate PlainRun(s: string) { '\t' !in s && NoDoubleSpace(s) }

  /** What `re.split(u'( {2,}|\t)', line)` can return as a part. */
  predicate SplitPart(p: string)
  {
    p == "\t" || (|p| >= 2 && AllSpaces(p)) || PlainRun(p)
  }

  /** A separator the regular expression matches: a tab or two or more spaces. */
  predicate IsSeparator(p: string) { p == "\t" || (|p| >= 2 && AllSpaces(p)) }

  predicate StartsWithSpace(s: string) { |s| > 0 && s[0] == ' ' }

  predicate EndsWithSpace(s: string) { |s| > 0 && s[|s| - 1] == ' ' }

  /**
   * The shape of a `re.split` with one capturing group: text parts and
   * separators alternate, starting and ending with text. A run of spaces
   * is matched leftmost (the text before it does not end in a space) and
   * greedily (what follows it does not start with a space).
   */
  predicate RegexSplit(parts: seq<string>)
    decreases |parts|
  {
    && |parts| >= 1
    && PlainRun(parts[0])
    && (|parts| == 1 || (
        && |parts| >= 3
        && IsSeparator(parts[1])
        && (parts[1] != "\t" ==> !EndsWithSpace(parts[0]) && !StartsWithSpace(ConcatStrings(parts[2..])))
        && RegexSplit(parts[2..])))
  }

  // ---------------------------------------------------------------------------
  // str.split('\n') and its inverse

  /** `s.split('\n')`: never empty, and `"".split('\n') == [""]`. */
  function SplitLines(s: string): (lines: seq<string>)
    ensures |lines| >= 1
    ensures forall i :: 0 <= i < |lines| ==> '\n' !in lines[i]
  {
    if s == [] then [""]
    else
      var rest := SplitLines(s[1..]);
      if s[0] == '\n' then [""] + rest
      else [[s[0]] + rest[0]] + rest[1..]
  }

  /** `'\n'.join(lines)`. */
  function JoinLines(lines: seq<string>): string
    requires |lines| >= 1
  {
    if |lines| == 1 then lines[0] else lines[0] + "\n" + JoinLines(lines[1..])
  }

  lemma {:induction false} JoinSnoc(lines: seq<string>)
    requires |lines| >= 2
    ensures JoinLines(lines) == JoinLines(lines[..|lines| - 1]) + "\n" + lines[|lines| - 1]
  {
    if |lines| > 2 {
      JoinSnoc(lines[1..]);
      assert lines[1..][..|lines| - 2] == lines[..|lines| - 1][1..];
    }
  }

  /** Joining the lines back with '\n' gives the text again. */
  lemma {:induction false} SplitLinesJoin(s: string)
    ensures JoinLines(SplitLines(s)) == s
  {
    if s != [] {
      var rest := SplitLines(s[1..]);
      SplitLinesJoin(s[1..]);
      if s[0] == '\n' {
        var l := [""] + rest;
        assert l[1..] == rest;
        assert s == "\n" + s[1..];
      } else {
        var l := [[s[0]] + rest[0]] + rest[1..];
        assert s == [s[0]] + s[1..];
        if |rest| > 1 {
          assert l[1..] == rest[1..];
          assert JoinLines(rest) == rest[0] + "\n" + JoinLines(rest[1..]);
        }
      }
    }
  }

  lemma {:induction false} NewlineCountAppend(a: string, b: string)
    ensures NewlineCount(a + b) == NewlineCount(a) + NewlineCount(b)
  {
    if a == [] {
      assert a + b == b;
    } else {
      assert (a + b)[0] == a[0];
      assert (a + b)[1..] == a[1..] + b;
      NewlineCountAppend(a[1..], b);
    }
  }

  lemma {:induction false} NewlineCountNone(s: string)
    requires '\n' !in s
    ensures NewlineCount(s) == 0
  {
    if s != [] {
      assert s[0] != '\n';
      assert '\n' !in s[1..] by {
        forall i | 0 <= i < |s[1..]| ensures s[1..][i] != '\n' {
          assert s[1..][i] == s[i + 1];
        }
      }
      NewlineCountNone(s[1..]);
    }
  }

  lemma {:induction false} JoinLinesNewlines(lines: seq<string>)
    requires |lines| >= 1
    requires forall i :: 0 <= i < |lines| ==> '\n' !in lines[i]
    ensures NewlineCount(JoinLines(lines)) == |lines| - 1
  {
    NewlineCountNone(lines[0]);
    if |lines| > 1 {
      JoinLinesNewlines(lines[1..]);
      NewlineCountAppend(lines[0] + "\n", JoinLines(lines[1..]));
      NewlineCountAppend(lines[0], "\n");
    }
  }

  // ---------------------------------------------------------------------------
  // re.split(u'( {2,}|\t)', line)

  /** The length of the run of spaces that starts `s`. */
  function SpaceRunLength(s: string): (k: nat)
    ensures k <= |s|
    ensures forall i :: 0 <= i < k ==> s[i] == ' '
    ensures k < |s| ==> s[k] != ' '
  {
    if s == [] || s[0] != ' ' then 0 else 1 + SpaceRunLength(s[1..])
  }

  /**
   * The regular-expression split, scanning left to right: at each
   * position a run of two or more spaces (taken greedily) or a tab is a
   * separator and is kept as its own part; any other character joins the
   * text part `acc` being collected.
   */
  function SplitFrom(s: string, acc: string): (parts: seq<string>)
    ensures |parts| >= 1
    decreases |s|
  {
    if s == [] then [acc]
    else if s[0] == '\t' then [acc, "\t"] + SplitFrom(s[1..], "")
    else if |s| >= 2 && s[0] == ' ' && s[1] == ' ' then
      var k := SpaceRunLength(s);
      [acc, s[..k]] + SplitFrom(s[k..], "")
    else SplitFrom(s[1..], acc + [s[0]])
  }

  function SplitRuns(line: string): seq<string> { SplitFrom(line, "") }

  lemma {:induction false} ConcatStringsAppend(a: seq<string>, b: seq<string>)
    ensures ConcatStrings(a + b) == ConcatStrings(a) + ConcatStrings(b)
  {
    if a == [] {
      assert a + b == b;
    } else {
      assert (a + b)[0] == a[0];
      assert (a + b)[1..] == a[1..] + b;
      ConcatStringsAppend(a[1..], b);
    }
  }

  /** The split loses nothing: its parts concatenate to the input. */
  lemma {:induction false} SplitFromConcat(s: string, acc: string)
    ensures ConcatStrings(SplitFrom(s, acc)) == acc + s
    decreases |s|
  {
    var parts := SplitFrom(s, acc);
    if s == [] {
      assert parts == [acc];
    } else if s[0] == '\t' {
      var rest := SplitFrom(s[1..], "");
      SplitFromConcat(s[1..], "");
      assert parts == [acc, "\t"] + rest;
      ConcatStringsAppend([acc, "\t"], rest);
      assert s == "\t" + s[1..];
    } else if |s| >= 2 && s[0] == ' ' && s[1] == ' ' {
      var k := SpaceRunLength(s);
      var rest := SplitFrom(s[k..], "");
      SplitFromConcat(s[k..], "");
      assert parts == [acc, s[..k]] + rest;
      ConcatStringsAppend([acc, s[..k]], rest);
      assert s == s[..k] + s[k..];
    } else {
      SplitFromConcat(s[1..], acc + [s[0]]);
      assert (acc + [s[0]]) + s[1..] == acc + s;
    }
  }

  /**
   * Every part of the split is a tab, a run of two or more spaces, or plain
   * text, and the parts have the alternating, leftmost-greedy shape of the
   * regular-expression split.
   */
  lemma {:induction false} SplitFromShape(s: string, acc: string)
    requires PlainRun(acc)
    requires |acc| > 0 && acc[|acc| - 1] == ' ' ==> s == [] || s[0] != ' '
    ensures forall i :: 0 <= i < |SplitFrom(s, acc)| ==> SplitPart(SplitFrom(s, acc)[i])
    ensures RegexSplit(SplitFrom(s, acc))
    decreases |s|
  {
    var parts := SplitFrom(s, acc);
    if s == [] {
      assert parts == [acc];
    } else if s[0] == '\t' {
      var rest := SplitFrom(s[1..], "");
      SplitFromShape(s[1..], "");
      assert parts == [acc, "\t"] + rest;
      ShapeCons(acc, "\t", rest);
    } else if |s| >= 2 && s[0] == ' ' && s[1] == ' ' {
      var k := SpaceRunLength(s);
      var rest := SplitFrom(s[k..], "");
      SplitFromShape(s[k..], "");
      SplitFromConcat(s[k..], "");
      assert ConcatStrings(rest) == s[k..];
      assert parts == [acc, s[..k]] + rest;
      SpaceSeparator(s[..k]);
      ShapeCons(acc, s[..k], rest);
    } else {
      var acc' := acc + [s[0]];
      assert '\t' !in acc';
      assert NoDoubleSpace(acc') by {
        forall i | 0 <= i < |acc'| - 1 ensures !(acc'[i] == ' ' && acc'[i + 1] == ' ') {
          if i < |acc| - 1 {
            assert acc'[i] == acc[i] && acc'[i + 1] == acc[i + 1];
          }
        }
      }
      SplitFromShape(s[1..], acc');
    }
  }

  /** A run of two or more spaces is a separator other than the tab. */
  lemma SpaceSeparator(p: string)
    requires |p| >= 2 && AllSpaces(p)
    ensures SplitPart(p) && IsSeparator(p) && p != "\t"
  {
    assert p[0] == ' ';
  }

  /** Text, then a separator, then a split of the same shape, has that shape. */
  lemma ShapeCons(acc: string, sep: string, rest: seq<string>)
    requires PlainRun(acc) && SplitPart(sep) && IsSeparator(sep)
    requires sep != "\t" ==> !EndsWithSpace(acc) && !StartsWithSpace(ConcatStrings(rest))
    requires forall i :: 0 <= i < |rest| ==> SplitPart(rest[i])
    requires RegexSplit(rest)
    ensures forall i :: 0 <= i < |[acc, sep] + rest| ==> SplitPart(([acc, sep] + rest)[i])
    ensures RegexSplit([acc, sep] + rest)
  {
    var parts := [acc, sep] + rest;
    assert parts[2..] == rest;
  }

  lemma ConcatStringsThree(parts: seq<string>)
    requires |parts| >= 3
    ensures ConcatStrings(parts) == parts[0] + (parts[1] + ConcatStrings(parts[2..]))
  {
    assert parts[1..][0] == parts[1];
    assert parts[1..][1..] == parts[2..];
  }

  lemma ConcatStringsOne(parts: seq<string>)
    requires |parts| == 1
    ensures ConcatStrings(parts) == parts[0]
  {
    assert parts[0] + "" == parts[0];
  }

  /**
   * The split is the only sequence of that shape that reads as the line:
   * any alternation of text and separators, matched leftmost and greedily,
   * that concatenates to the line is the split of the line.
   */
  lemma SplitRunsUnique(line: string, parts: seq<string>)
    requires RegexSplit(parts) && ConcatStrings(parts) == line
    ensures parts == SplitRuns(line)
  {
    SplitFromUnique(line, "", parts);
  }

  lemma {:induction false} SplitFromUnique(s: string, acc: string, parts: seq<string>)
    requires RegexSplit(parts)
    requires |parts[0]| >= |acc| && parts[0][..|acc|] == acc
    requires ConcatStrings(parts) == acc + s
    ensures parts == SplitFrom(s, acc)
    decreases |s|
  {
    var p0 := parts[0];
    if |parts| == 1 {
      ConcatStringsOne(parts);
      SingleTextPart(s, acc, p0);
    } else {
      ConcatStringsThree(parts);
      var c2 := ConcatStrings(parts[2..]);
      if |p0| > |acc| {
        TextPartExtends(s, acc, parts, c2);
      } else {
        assert p0 == acc;
        DropCommonPrefix(acc, s, parts[1] + c2);
        SeparatorPart(s, acc, parts, c2);
      }
    }
  }

  lemma DropCommonPrefix(a: string, x: string, y: string)
    requires a + x == a + y
    ensures x == y
  {
    assert x == (a + x)[|a|..];
    assert y == (a + y)[|a|..];
  }

  /** Character `i` of two equal concatenations, read on each side. */
  lemma CharOfBoth(a: string, x: string, b: string, y: string, i: nat)
    requires a + x == b + y && |a| <= i < |b|
    ensures i - |a| < |x| && x[i - |a|] == b[i]
  {
    assert (a + x)[i] == x[i - |a|];
    assert (b + y)[i] == b[i];
  }

  /** Character `i` of two equal concatenations, read in both second halves. */
  lemma CharAfter(a: string, x: string, b: string, y: string, i: nat)
    requires a + x == b + y && |a| <= i && |b| <= i < |a| + |x|
    ensures x[i - |a|] == y[i - |b|]
  {
    assert (a + x)[i] == x[i - |a|];
    assert (b + y)[i] == y[i - |b|];
  }

  /** A lone text part is the whole remaining line, which holds no separator. */
  lemma {:induction false} SingleTextPart(s: string, acc: string, p0: string)
    requires PlainRun(p0) && p0 == acc + s
    ensures [p0] == SplitFrom(s, acc)
    decreases |s|
  {
    if s == [] {
      assert p0 == acc;
    } else {
      CharOfBoth(acc, s, p0, [], |acc|);
      assert s[0] != '\t';
      if |s| >= 2 {
        CharOfBoth(acc, s, p0, [], |acc| + 1);
        assert !(p0[|acc|] == ' ' && p0[|acc| + 1] == ' ');
      }
      var acc' := acc + [s[0]];
      assert p0 == acc' + s[1..];
      SingleTextPart(s[1..], acc', p0);
    }
  }

  /** The first part reaches past `acc`: the next character is plain text, so the split goes on collecting. */
  lemma {:induction false} TextPartExtends(s: string, acc: string, parts: seq<string>, c2: string)
    requires RegexSplit(parts) && |parts| >= 3 && c2 == ConcatStrings(parts[2..])
    requires |parts[0]| > |acc| && parts[0][..|acc|] == acc
    requires acc + s == parts[0] + (parts[1] + c2)
    ensures parts == SplitFrom(s, acc)
    decreases |s|, 0
  {
    var p0 := parts[0];
    assert |s| > 0 by {
      assert |acc + s| == |p0| + |parts[1]| + |c2|;
    }
    CharOfBoth(acc, s, p0, parts[1] + c2, |acc|);
    assert s[0] != '\t';
    if |s| >= 2 {
      if |p0| > |acc| + 1 {
        CharOfBoth(acc, s, p0, parts[1] + c2, |acc| + 1);
        assert !(p0[|acc|] == ' ' && p0[|acc| + 1] == ' ');
      } else {
        CharAfter(acc, s, p0, parts[1] + c2, |acc| + 1);
        assert parts[1][0] == ' ' ==> parts[1] != "\t";
      }
    }
    assert !(|s| >= 2 && s[0] == ' ' && s[1] == ' ');
    {
      var acc' := acc + [s[0]];
      assert p0[..|acc'|] == acc';
      assert acc' + s[1..] == acc + s;
      ConcatStringsThree(parts);
      SplitFromUnique(s[1..], acc', parts);
    }
  }

  /** The first part is exactly `acc`: the separator after it starts the rest of the line. */
  lemma {:induction false} SeparatorPart(s: string, acc: string, parts: seq<string>, c2: string)
    requires RegexSplit(parts) && |parts| >= 3 && c2 == ConcatStrings(parts[2..])
    requires parts[0] == acc
    requires s == parts[1] + c2
    ensures parts == SplitFrom(s, acc)
    decreases |s|, 0
  {
    var sep := parts[1];
    var rest := parts[2..];
    assert parts == [acc, sep] + rest;
    assert rest[0][..0] == "";
    if sep == "\t" {
      assert s[0] == '\t' && s[1..] == c2;
      SplitFromUnique(s[1..], "", rest);
    } else {
      assert s[0] == ' ' && s[1] == ' ';
      var k := SpaceRunLength(s);
      var m := |sep|;
      assert s[..m] == sep && s[m..] == c2;
      assert k == m;
      SplitFromUnique(s[k..], "", rest);
    }
  }

  // ---------------------------------------------------------------------------
  // Classifying the parts

  /** odpdown.py:133-143 as written: the first character alone decides. */
  function ClassifyAsWritten(part: string): Piece
  {
    if |part| > 0 && part[0] == ' ' then SpaceRun(|part|)
    else if |part| > 0 && part[0] == '\t' then TabStop
    else Lit(part)
  }

  /**
   * The corrected rule: a part made only of spaces becomes a marker of its
   * length (a lone " " still gives a one-space marker, which the code-block
   * test at test.py:202-204 relies on); a part that merely starts with a
   * space stays literal text.
   */
  function Classify(part: string): (p: Piece)
    ensures SplitPart(part) ==> PieceText(p) == part
    ensures !p.Break? && (p.Lit? ==> p.text == part) && (p.SpaceRun? ==> p.n == |part| >= 1)
  {
    if |part| > 0 && part[0] == ' ' && AllSpaces(part) then SpaceRun(|part|)
    else if |part| > 0 && part[0] == '\t' then TabStop
    else Lit(part)
  }

  function ClassifyAll(parts: seq<string>, cl: string -> Piece): (ps: seq<Piece>)
    ensures |ps| == |parts|
  {
    seq(|parts|, i requires 0 <= i < |parts| => cl(parts[i]))
  }

  /** The pieces of several lines, a `Break` between consecutive lines. */
  function LinesPieces(lines: seq<string>, cl: string -> Piece): seq<Piece>
    requires |lines| >= 1
  {
    var last := ClassifyAll(SplitRuns(lines[|lines| - 1]), cl);
    if |lines| == 1 then last
    else LinesPieces(lines[..|lines| - 1], cl) + [Break] + last
  }

  /** The pieces `handle_whitespace` returns, with the corrected classification. */
  function WhitespacePieces(text: string): seq<Piece>
  {
    LinesPieces(SplitLines(text), Classify)
  }

  /** The pieces `handle_whitespace` returns, exactly as written. */
  function WhitespacePiecesAsWritten(text: string): seq<Piece>
  {
    LinesPieces(SplitLines(text), ClassifyAsWritten)
  }

  /**
   * odpdown.py:123-149: for every line, classify every part of the
   * regular-expression split, and add a line break after every line but
   * the last.
   */
  method HandleWhitespace(text: string) returns (result: seq<Piece>)
    ensures result == WhitespacePieces(text)
  {
    result := [];
    var lines := SplitLines(text);
    var index := 0;
    while index < |lines|
      invariant 0 <= index <= |lines|
      invariant result == LinesPrefix(lines, index)
    {
      var parts := SplitRuns(lines[index]);
      var j := 0;
      while j < |parts|
        invariant 0 <= j <= |parts|
        invariant result == LinesPrefix(lines, index) + ClassifyAll(parts[..j], Classify)
      {
        var part := parts[j];
        if |part| > 0 && part[0] == ' ' && AllSpaces(part) {
          result := result + [SpaceRun(|part|)];
        } else if |part| > 0 && part[0] == '\t' {
          result := result + [TabStop];
        } else {
          result := result + [Lit(part)];
        }
        assert ClassifyAll(parts[..j + 1], Classify) == ClassifyAll(parts[..j], Classify) + [Classify(parts[j])];
        j := j + 1;
      }
      assert parts[..j] == parts;
      LinesPrefixStep(lines, index);
      if index < |lines| - 1 {
        result := result + [Break];
      }
      index := index + 1;
    }
    assert lines[..index] == lines;
  }

  /** What the loop of `HandleWhitespace` has produced after `index` lines. */
  function LinesPrefix(lines: seq<string>, index: nat): seq<Piece>
    requires index <= |lines|
  {
    if index == 0 then []
    else if index == |lines| then LinesPieces(lines, Classify)
    else LinesPieces(lines[..index], Classify) + [Break]
  }

  lemma LinesPrefixStep(lines: seq<string>, index: nat)
    requires index < |lines|
    ensures LinesPrefix(lines, index) + ClassifyAll(SplitRuns(lines[index]), Classify)
            + (if index < |lines| - 1 then [Break] else [])
            == LinesPrefix(lines, index + 1)
  {
    var pre := lines[..index + 1];
    assert pre[..index] == lines[..index];
    assert pre[index] == lines[index];
    if index + 1 == |lines| {
      assert pre == lines;
    }
  }

  // ---------------------------------------------------------------------------
  // Properties

  lemma {:induction false} RenderAppend(a: seq<Piece>, b: seq<Piece>)
    ensures Render(a + b) == Render(a) + Render(b)
  {
    if a == [] {
      assert a + b == b;
    } else {
      assert (a + b)[0] == a[0];
      assert (a + b)[1..] == a[1..] + b;
      RenderAppend(a[1..], b);
    }
  }

  lemma {:induction false} BreakCountAppend(a: seq<Piece>, b: seq<Piece>)
    ensures BreakCount(a + b) == BreakCount(a) + BreakCount(b)
  {
    if a == [] {
      assert a + b == b;
    } else {
      assert (a + b)[0] == a[0];
      assert (a + b)[1..] == a[1..] + b;
      BreakCountAppend(a[1..], b);
    }
  }

  /** Classifying split parts and rendering them back gives the parts' text. */
  lemma {:induction false} RenderClassified(parts: seq<string>)
    requires forall i :: 0 <= i < |parts| ==> SplitPart(parts[i])
    ensures Render(ClassifyAll(parts, Classify)) == ConcatStrings(parts)
  {
    if parts != [] {
      assert ClassifyAll(parts, Classify)[1..] == ClassifyAll(parts[1..], Classify);
      RenderClassified(parts[1..]);
    }
  }

  lemma {:induction false} ClassifiedHasNoBreak(parts: seq<string>)
    ensures BreakCount(ClassifyAll(parts, Classify)) == 0
  {
    if parts != [] {
      assert ClassifyAll(parts, Classify)[1..] == ClassifyAll(parts[1..], Classify);
      ClassifiedHasNoBreak(parts[1..]);
    }
  }

  lemma LinePiecesRender(line: string)
    ensures Render(ClassifyAll(SplitRuns(line), Classify)) == line
  {
    SplitFromConcat(line, "");
    SplitFromShape(line, "");
    RenderClassified(SplitRuns(line));
  }

  lemma {:induction false} LinesPiecesRender(lines: seq<string>)
    requires |lines| >= 1
    ensures Render(LinesPieces(lines, Classify)) == JoinLines(lines)
  {
    var n := |lines|;
    var last := ClassifyAll(SplitRuns(lines[n - 1]), Classify);
    LinePiecesRender(lines[n - 1]);
    if n > 1 {
      var init := LinesPieces(lines[..n - 1], Classify);
      assert LinesPieces(lines, Classify) == init + [Break] + last;
      LinesPiecesRender(lines[..n - 1]);
      JoinSnoc(lines);
      RenderAppend(init + [Break], last);
      RenderAppend(init, [Break]);
      assert Render([Break]) == "\n";
    }
  }

  /** Rendering the pieces back (markers as the whitespace they stand for) gives the input exactly. */
  lemma WhitespaceRoundTrip(text: string)
    ensures Render(WhitespacePieces(text)) == text
  {
    LinesPiecesRender(SplitLines(text));
    SplitLinesJoin(text);
  }

  lemma LastClassifiedNotBreak(parts: seq<string>)
    requires |parts| >= 1
    ensures !ClassifyAll(parts, Classify)[|parts| - 1].Break?
  {
    assert ClassifyAll(parts, Classify)[|parts| - 1] == Classify(parts[|parts| - 1]);
  }

  lemma {:induction false} LinesPiecesBreaks(lines: seq<string>)
    requires |lines| >= 1
    ensures BreakCount(LinesPieces(lines, Classify)) == |lines| - 1
    ensures |LinesPieces(lines, Classify)| >= 1
    ensures !LinesPieces(lines, Classify)[|LinesPieces(lines, Classify)| - 1].Break?
  {
    var n := |lines|;
    var last := ClassifyAll(SplitRuns(lines[n - 1]), Classify);
    ClassifiedHasNoBreak(SplitRuns(lines[n - 1]));
    LastClassifiedNotBreak(SplitRuns(lines[n - 1]));
    if n > 1 {
      var init := LinesPieces(lines[..n - 1], Classify);
      LinesPiecesBreaks(lines[..n - 1]);
      assert LinesPieces(lines, Classify) == init + [Break] + last;
      BreakCountAppend(init + [Break], last);
      BreakCountAppend(init, [Break]);
      assert BreakCount([Break]) == 1;
    }
  }

  /**
   * There is exactly one line break per '\n' of the input, and none after
   * the last line: the output never ends in a line break.
   */
  lemma WhitespaceLineBreaks(text: string)
    ensures BreakCount(WhitespacePieces(text)) == NewlineCount(text)
    ensures |WhitespacePieces(text)| >= 1
    ensures !WhitespacePieces(text)[|WhitespacePieces(text)| - 1].Break?
  {
    var lines := SplitLines(text);
    var ps := LinesPieces(lines, Classify);
    assert WhitespacePieces(text) == ps;
    LinesPiecesBreaks(lines);
    SplitLinesJoin(text);
    JoinLinesNewlines(lines);
    assert NewlineCount(text) == |lines| - 1;
  }

  /** The shape facts `WhitespacePieceShape` states, for one piece. */
  predicate WellShaped(p: Piece)
  {
    (p.Lit? ==> PlainRun(p.text)) && (p.SpaceRun? ==> p.n >= 1)
  }

  lemma ClassifiedShape(parts: seq<string>)
    requires forall i :: 0 <= i < |parts| ==> SplitPart(parts[i])
    ensures forall i :: 0 <= i < |parts| ==> WellShaped(ClassifyAll(parts, Classify)[i])
  {
    forall i | 0 <= i < |parts| ensures WellShaped(ClassifyAll(parts, Classify)[i]) {
      assert SplitPart(parts[i]);
      assert ClassifyAll(parts, Classify)[i] == Classify(parts[i]);
    }
  }

  lemma {:induction false} LinesPiecesShape(lines: seq<string>)
    requires |lines| >= 1
    ensures forall i :: 0 <= i < |LinesPieces(lines, Classify)| ==> WellShaped(LinesPieces(lines, Classify)[i])
  {
    var n := |lines|;
    var last := ClassifyAll(SplitRuns(lines[n - 1]), Classify);
    SplitFromShape(lines[n - 1], "");
    ClassifiedShape(SplitRuns(lines[n - 1]));
    if n > 1 {
      var init := LinesPieces(lines[..n - 1], Classify);
      LinesPiecesShape(lines[..n - 1]);
      var all := init + [Break] + last;
      assert LinesPieces(lines, Classify) == all;
      forall i | 0 <= i < |all| ensures WellShaped(all[i]) {
        if i < |init| {
          assert all[i] == init[i];
        } else if i > |init| {
          assert all[i] == last[i - |init| - 1];
        }
      }
    }
  }

  /**
   * No literal holds a tab or two adjacent spaces, and every space marker
   * stands for at least one space.
   */
  lemma WhitespacePieceShape(text: string)
    ensures forall i :: 0 <= i < |WhitespacePieces(text)| ==>
      var p := WhitespacePieces(text)[i];
      (p.Lit? ==> '\t' !in p.text && NoDoubleSpace(p.text)) && (p.SpaceRun? ==> p.n >= 1)
  {
    LinesPiecesShape(SplitLines(text));
  }

  /** Empty input gives one empty literal, not an empty list (`''.split('\n') == ['']`). */
  lemma WhitespaceEmpty()
    ensures WhitespacePieces("") == [Lit("")]
  {
    assert SplitRuns("") == [""];
    assert ClassifyAll([""], Classify) == [Classify("")];
  }

  /** As written, " x" comes out as a two-space marker: the "x" is lost. */
  lemma AsWrittenLosesText()
    ensures WhitespacePiecesAsWritten(" x") == [SpaceRun(2)]
    ensures Render(WhitespacePiecesAsWritten(" x")) != " x"
    ensures WhitespacePieces(" x") == [Lit(" x")]
  {
    var s := " x";
    assert s[1..] == "x" && s[1..][1..] == "";
    assert SplitLines(s[1..][1..]) == [""];
    assert ['x'] + "" == "x";
    assert SplitLines(s[1..]) == ["x"];
    assert [' '] + "x" == " x";
    assert SplitLines(s) == [" x"];
    assert SplitFrom(s[1..][1..], " x") == [" x"];
    assert " " + ['x'] == " x";
    assert SplitFrom(s[1..], " ") == [" x"];
    assert "" + [' '] == " ";
    assert SplitRuns(s) == [" x"];
    assert ClassifyAll([" x"], ClassifyAsWritten) == [SpaceRun(2)];
    assert !AllSpaces(s) by {
      assert s[1] != ' ';
    }
    assert ClassifyAll([" x"], Classify) == [Lit(" x")];
    assert Render([SpaceRun(2)]) == "  ";
  }
}
