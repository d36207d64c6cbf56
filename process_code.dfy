/**
  The licence-header rewriter and indentation normaliser of
  `tools/process_code.rb`, as a transformation of one file's text, and the
  path filter that picks the files it is applied to.

  A line is what Ruby's `File#each` yields: the text up to and including a
  newline, or the unterminated rest of the file. Ruby's `\s` is the six
  characters space, tab, newline, carriage return, form feed and vertical
  tab.
*/
module ProcessCode {

  /** The first line of `FileHeader`, which opens the comment. */
  const HEADER_OPEN: string := "/*-" + LINE_END

  /** The second line of `FileHeader`; two literals, which keeps the proof that it holds no newline small. */
  const HEADER_TITLE: string := "Minimalistic and Modular " + "OpenGL C++ Framework" + LINE_END

  /** The third line of `FileHeader`, split the same way. */
  const HEADER_LICENSE: string := "GLFK LICENSE (BSD-based) " + "- please see LICENSE.md" + LINE_END

  /** The last line of `FileHeader`, which closes the comment and has no line end. */
  const HEADER_CLOSE: string := "-*/"

  /** `FileHeader`: the header the script writes, without its final line end. */
  const FILE_HEADER: string := HEADER_OPEN + HEADER_TITLE + HEADER_LICENSE + HEADER_CLOSE

  /** `LineEnd` */
  const LINE_END: string := "\n"

  /** What the script emits before the first kept line: `FileHeader + LineEnd`. */
  const HEADER_TEXT: string := FILE_HEADER + LINE_END

  /** `HEADER_TEXT` line by line. */
  const HEADER_LINES: seq<string> := [HEADER_OPEN, HEADER_TITLE, HEADER_LICENSE, HEADER_CLOSE + LINE_END]

  // ---------------------------------------------------------------- lines

  /** The strings joined in order. */
  function Concat(ls: seq<string>): string
  {
    if ls == [] then "" else Concat(ls[..|ls| - 1]) + ls[|ls| - 1]
  }

  lemma {:induction false} ConcatAppend(a: seq<string>, b: seq<string>)
    ensures Concat(a + b) == Concat(a) + Concat(b)
    decreases |b|
  {
    if b == [] {
      assert a + b == a;
    } else {
      var b', x := b[..|b| - 1], b[|b| - 1];
      assert b == b' + [x];
      assert a + b == (a + b') + [x];
      ConcatSnoc(a + b', x);
      ConcatSnoc(b', x);
      ConcatAppend(a, b');
      AppendAssoc(Concat(a), Concat(b'), x);
    }
  }

  /** A line as `File#each` yields it: not empty, and no newline before its last character. */
  predicate IsLine(l: string)
  {
    |l| > 0 && '\n' !in l[..|l| - 1]
  }

  /** A line with its line end. */
  predicate FullLine(l: string)
  {
    IsLine(l) && l[|l| - 1] == '\n'
  }

  /** The end of the line that starts at `i`: just past the next newline, or the end of the text. */
  function LineEnd(text: string, i: nat): (r: nat)
    requires i <= |text|
    ensures i <= r <= |text|
    ensures i < |text| ==> i < r
    ensures forall k :: i <= k < r - 1 ==> text[k] != '\n'
    ensures r == |text| || text[r - 1] == '\n'
    decreases |text| - i
  {
    if i == |text| then i else if text[i] == '\n' then i + 1 else LineEnd(text, i + 1)
  }

  /** The lines `File#each` yields for `text`. */
  function SplitLines(text: string): seq<string>
    decreases |text|
  {
    if text == [] then [] else [text[..LineEnd(text, 0)]] + SplitLines(text[LineEnd(text, 0)..])
  }

  /** Every line yielded is a line, and every one but the last ends with a newline. */
  lemma {:induction false} SplitLinesShape(text: string)
    ensures forall i :: 0 <= i < |SplitLines(text)| ==> IsLine(SplitLines(text)[i])
    ensures forall i :: 0 <= i < |SplitLines(text)| - 1 ==> FullLine(SplitLines(text)[i])
    decreases |text|
  {
    if text != [] {
      var n := LineEnd(text, 0);
      assert text[..n][..n - 1] == text[..n - 1];
      SplitLinesShape(text[n..]);
    }
  }

  /** Splitting loses nothing: the lines join back to the text. */
  lemma {:induction false} SplitLinesConcat(text: string)
    ensures Concat(SplitLines(text)) == text
    decreases |text|
  {
    if text != [] {
      var n := LineEnd(text, 0);
      SplitLinesConcat(text[n..]);
      ConcatAppend([text[..n]], SplitLines(text[n..]));
      assert Concat([text[..n]]) == text[..n] by {
        assert [text[..n]][..0] == [];
      }
      assert text[..n] + text[n..] == text;
    }
  }

  /** Joining full lines and splitting again gives the same lines. */
  lemma {:induction false} ConcatSplitLines(ls: seq<string>)
    requires forall i :: 0 <= i < |ls| ==> FullLine(ls[i])
    ensures SplitLines(Concat(ls)) == ls
    decreases |ls|
  {
    if ls != [] {
      var l, rest := ls[0], ls[1..];
      assert ls == [l] + rest;
      ConcatAppend([l], rest);
      assert Concat([l]) == l by {
        assert [l][..0] == [];
      }
      var text := Concat(ls);
      assert text == l + Concat(rest);
      FullLineEnd(l, Concat(rest));
      assert text[..|l|] == l && text[|l|..] == Concat(rest);
      ConcatSplitLines(rest);
    }
  }

  /** A full line at the front of a text is exactly the first line of the text. */
  lemma FullLineEnd(l: string, rest: string)
    requires FullLine(l)
    ensures LineEnd(l + rest, 0) == |l|
  {
    var t := l + rest;
    assert t[|l| - 1] == '\n';
    assert forall k :: 0 <= k < |l| - 1 ==> t[k] == l[..|l| - 1][k];
  }

  // ---------------------------------------------------------- indentation

  /** The leading white space of a line's text. */
  function Indent(c: string): string
  {
    c[..LeadingSpace(c)]
  }

  /** The text after the leading white space. */
  function Code(c: string): string
  {
    c[LeadingSpace(c)..]
  }

  /** The text has no non-space character. */
  predicate Blank(c: string)
  {
    LeadingSpace(c) == |c|
  }

  /** Ruby's `\s`. */
  predicate IsSpace(c: char)
  {
    c == ' ' || c == '\t' || c == '\n' || c == '\r' || c == '\U{000C}' || c == '\U{000B}'
  }

  /** The line without its line end, as `.*` and `$` see it. */
  function Content(l: string): (c: string)
    ensures |l| - 1 <= |c| <= |l|
  {
    if |l| > 0 && l[|l| - 1] == '\n' then l[..|l| - 1] else l
  }

  /** The text of a line is a prefix of it, and holds no newline. */
  lemma ContentOfLine(l: string)
    ensures Content(l) == l[..|Content(l)|]
    ensures IsLine(l) ==> '\n' !in Content(l)
  {
  }

  /** The end of the leading run of `\s` characters of `c` that starts at `i`. */
  function SpaceRunEnd(c: string, i: nat): (r: nat)
    requires i <= |c|
    ensures i <= r <= |c|
    decreases |c| - i
  {
    if i < |c| && IsSpace(c[i]) then SpaceRunEnd(c, i + 1) else i
  }

  /** The run from `i` is white space, and stops at the end or at a character that is not. */
  lemma {:induction false} SpaceRun(c: string, i: nat)
    requires i <= |c|
    ensures forall k :: i <= k < SpaceRunEnd(c, i) ==> IsSpace(c[k])
    ensures SpaceRunEnd(c, i) == |c| || !IsSpace(c[SpaceRunEnd(c, i)])
    decreases |c| - i
  {
    if i < |c| && IsSpace(c[i]) {
      SpaceRun(c, i + 1);
    }
  }

  /** A run of white space from `i` that stops at `j` ends at `j`. */
  lemma {:induction false} SpaceRunEndAt(c: string, i: nat, j: nat)
    requires i <= j <= |c|
    requires forall k :: i <= k < j ==> IsSpace(c[k])
    requires j == |c| || !IsSpace(c[j])
    ensures SpaceRunEnd(c, i) == j
    decreases j - i
  {
    if i < j {
      SpaceRunEndAt(c, i + 1, j);
    }
  }

  /** The length of the leading run of `\s` characters of `c`: what `^(\s*)` captures. */
  function LeadingSpace(c: string): (r: nat)
    ensures r <= |c|
  {
    SpaceRunEnd(c, 0)
  }

  /** The leading run is white space and is followed by the end or by a character that is not. */
  lemma LeadingSpaceRun(c: string)
    ensures forall k :: 0 <= k < LeadingSpace(c) ==> IsSpace(c[k])
    ensures LeadingSpace(c) == |c| || !IsSpace(c[LeadingSpace(c)])
  {
    SpaceRun(c, 0);
  }

  /** The width of a run of white space: 4 per tab, 1 per other character. */
  function Width(ws: string): nat
  {
    if ws == [] then 0 else Width(ws[..|ws| - 1]) + (if ws[|ws| - 1] == '\t' then 4 else 1)
  }

  /** How many whole fours `n` holds, counted without division. */
  function Quarters(n: nat): nat
  {
    if n < 4 then 0 else 1 + Quarters(n - 4)
  }

  /** `Quarters` is the quotient of `n` by 4. */
  lemma {:induction false} QuartersBounds(n: nat)
    ensures 4 * Quarters(n) <= n < 4 * Quarters(n) + 4
  {
    if n >= 4 {
      QuartersBounds(n - 4);
    }
  }

  /** `((w / 4.0).round * 4).to_i` on a non-negative integer. */
  function Round4(w: nat): nat
  {
    4 * Quarters(w + 2)
  }

  /** `Round4` gives the multiple of 4 nearest to `w`, rounding halves up. */
  lemma Round4Nearest(w: nat)
    ensures Round4(w) % 4 == 0
    ensures Round4(w) - 2 <= w < Round4(w) + 2
    ensures Round4(1) == 0 && Round4(2) == 4 && Round4(6) == 8
  {
    QuartersBounds(w + 2);
  }

  /** `" " * n` */
  function Spaces(n: nat): (s: string)
    ensures |s| == n
  {
    seq(n, i => ' ')
  }

  /** A width rounded to a multiple of 4 stays as it is. */
  lemma Round4Exact(w: nat)
    requires w % 4 == 0
    ensures Round4(w) == w
  {
    Round4Nearest(w);
  }

  /** The width of `n` spaces is `n`. */
  lemma {:induction false} SpacesWidth(n: nat)
    ensures Width(Spaces(n)) == n
  {
    if n > 0 {
      assert Spaces(n)[..n - 1] == Spaces(n - 1);
      SpacesWidth(n - 1);
    }
  }

  /**
    One line re-indented: a line with a non-space character gets its
    leading white space replaced by spaces of the rounded width and keeps
    the rest verbatim; a blank line keeps its text. Either way the line
    ends with a newline.
  */
  function FixLine(l: string): string
  {
    var c := Content(l);
    var k := LeadingSpace(c);
    if k < |c| then Spaces(Round4(Width(c[..k]))) + c[k..] + "\n" else c + "\n"
  }

  /**
    What `FixLine` keeps and what it changes: the result is a full line;
    after its leading white space comes the original text after the
    original leading white space; that white space is spaces of the
    rounded width; and a blank line keeps its characters.
  */
  lemma FixLineShape(l: string)
    requires IsLine(l)
    ensures FullLine(FixLine(l))
    ensures Code(Content(FixLine(l))) == Code(Content(l))
    ensures !Blank(Content(l)) ==> Indent(Content(FixLine(l))) == Spaces(Round4(Width(Indent(Content(l)))))
    ensures Blank(Content(l)) ==> FixLine(l) == Content(l) + "\n"
  {
    var c := Content(l);
    var k := LeadingSpace(c);
    var r := FixLine(l);
    LeadingSpaceRun(c);
    ContentOfLine(l);
    if k < |c| {
      var w := Round4(Width(c[..k]));
      var body := Spaces(w) + c[k..];
      assert r == body + "\n";
      assert Content(r) == body;
      assert '\n' !in body;
      assert r[..|r| - 1] == body;
      LeadingSpaceOfIndented(w, c[k..]);
    } else {
      assert r[..|r| - 1] == c;
    }
  }

  /** Spaces followed by text that starts with a non-space: the leading run is the spaces. */
  lemma LeadingSpaceOfIndented(w: nat, code: string)
    requires |code| > 0 && !IsSpace(code[0])
    ensures LeadingSpace(Spaces(w) + code) == w
  {
    var s := Spaces(w) + code;
    assert s[w] == code[0];
    assert forall k :: 0 <= k < w ==> s[k] == Spaces(w)[k] == ' ';
    SpaceRunEndAt(s, 0, w);
  }

  /** Re-indenting a re-indented line changes nothing. */
  lemma FixLineIdempotent(l: string)
    requires IsLine(l)
    ensures FixLine(FixLine(l)) == FixLine(l)
  {
    var c := Content(l);
    var k := LeadingSpace(c);
    var r := FixLine(l);
    FixLineShape(l);
    var c' := Content(r);
    LeadingSpaceRun(c);
    if k < |c| {
      var w := Round4(Width(c[..k]));
      assert c' == Spaces(w) + c[k..];
      LeadingSpaceOfIndented(w, c[k..]);
      assert c'[..w] == Spaces(w);
      SpacesWidth(w);
      Round4Nearest(Width(c[..k]));
      Round4Exact(w);
      assert c'[w..] == c[k..];
    } else {
      assert c' == c;
    }
  }

  // --------------------------------------------------------------- header

  /** `l =~ /^\/\*\-/`: the line starts with slash, star, dash. */
  predicate Opens(l: string)
  {
    |l| >= 3 && l[0] == '/' && l[1] == '*' && l[2] == '-'
  }

  /** `l =~ /\*\/$/`: the line ends with star, slash before its line end. */
  predicate Closes(l: string)
  {
    var c := Content(l);
    |c| >= 2 && c[|c| - 2] == '*' && c[|c| - 1] == '/'
  }

  /** Just past the first line from `j` on that closes the header, or the number of lines. */
  function CloseIndex(lines: seq<string>, j: nat): (r: nat)
    requires j <= |lines|
    ensures j <= r <= |lines|
    ensures j < |lines| ==> j < r
    decreases |lines| - j
  {
    if j == |lines| then j else if Closes(lines[j]) then j + 1 else CloseIndex(lines, j + 1)
  }

  /** No line from `j` before the one `CloseIndex` stops after closes the header; that one does, unless none is left. */
  lemma {:induction false} CloseIndexScan(lines: seq<string>, j: nat)
    requires j <= |lines|
    ensures forall k :: j <= k < CloseIndex(lines, j) - 1 ==> !Closes(lines[k])
    ensures CloseIndex(lines, j) == |lines| || Closes(lines[CloseIndex(lines, j) - 1])
    decreases |lines| - j
  {
    if j < |lines| && !Closes(lines[j]) {
      CloseIndexScan(lines, j + 1);
    }
  }

  /**
    The number of leading lines that make up the old header: none unless
    the first line opens a comment with slash, star, dash; otherwise every
    line up to and including the first that closes it with star, slash, or
    all of them if none does.
  */
  function HeaderLength(lines: seq<string>): (h: nat)
    ensures h <= |lines|
  {
    if |lines| > 0 && Opens(lines[0]) then CloseIndex(lines, 0) else 0
  }

  /** The old header is there exactly when the first line opens it, and it runs to the first line that closes it. */
  lemma HeaderLengthShape(lines: seq<string>)
    ensures HeaderLength(lines) > 0 <==> |lines| > 0 && Opens(lines[0])
    ensures forall k :: 0 <= k < HeaderLength(lines) - 1 ==> !Closes(lines[k])
    ensures HeaderLength(lines) > 0 ==> HeaderLength(lines) == |lines| || Closes(lines[HeaderLength(lines) - 1])
  {
    if |lines| > 0 && Opens(lines[0]) {
      CloseIndexScan(lines, 0);
    }
  }

  /** Every line re-indented. */
  function FixAll(ls: seq<string>): seq<string>
  {
    MapLines(FixLine, ls)
  }

  /** `f` applied to each line. */
  function MapLines(f: string -> string, ls: seq<string>): seq<string>
  {
    if ls == [] then [] else MapLines(f, ls[..|ls| - 1]) + [f(ls[|ls| - 1])]
  }

  /** `MapLines` maps each line in place: the same number of lines, line `i` from line `i`. */
  lemma {:induction false} MapLinesAt(f: string -> string, ls: seq<string>)
    ensures |MapLines(f, ls)| == |ls|
    ensures forall i :: 0 <= i < |ls| ==> MapLines(f, ls)[i] == f(ls[i])
  {
    if ls != [] {
      MapLinesAt(f, ls[..|ls| - 1]);
    }
  }

  /**
    The lines of a file rewritten: the old header dropped, nothing at all if
    no line is left, and otherwise `header` followed by every remaining line
    re-indented.
  */
  function Rewritten(lines: seq<string>, header: string): string
  {
    var body := lines[HeaderLength(lines)..];
    if body == [] then "" else header + Concat(FixAll(body))
  }

  /** `processFile` on the text of a file: its lines rewritten under `FileHeader + LineEnd`. */
  function Processed(text: string): string
  {
    Rewritten(SplitLines(text), HEADER_TEXT)
  }

  // ------------------------------------------------------------ the script

  /** The `spaceChars.each_char` loop and the rounding, then the rebuilt line. */
  method FixIndent(l: string) returns (r: string)
    ensures r == FixLine(l)
  {
    var c := Content(l);
    var k := LeadingSpace(c);
    if k < |c| {
      var spaceChars := c[..k];
      var code := c[k..];
      var spaceWidth := 0;
      var j := 0;
      while j < |spaceChars|
        invariant 0 <= j <= |spaceChars|
        invariant spaceWidth == Width(spaceChars[..j])
      {
        assert spaceChars[..j + 1][..j] == spaceChars[..j];
        if spaceChars[j] == '\t' {
          spaceWidth := spaceWidth + 4;
        } else {
          spaceWidth := spaceWidth + 1;
        }
        j := j + 1;
      }
      assert spaceChars[..j] == spaceChars;
      spaceWidth := Round4(spaceWidth);
      r := Spaces(spaceWidth) + code + "\n";
    } else {
      r := c + "\n";
    }
  }

  /** Mapping one more line adds its image at the end. */
  lemma MapLinesSnoc(f: string -> string, ls: seq<string>, x: string)
    ensures MapLines(f, ls + [x]) == MapLines(f, ls) + [f(x)]
  {
    assert (ls + [x])[..|ls|] == ls;
  }

  /**
    The lines from `h` up to `i` mapped by `f` and joined: those up to
    `i - 1`, then line `i - 1` mapped; there are none when `i` is `h`.
  */
  lemma MapStep(f: string -> string, lines: seq<string>, h: nat, i: nat)
    requires h < i <= |lines|
    ensures Concat(MapLines(f, lines[h..i])) == Concat(MapLines(f, lines[h..i - 1])) + f(lines[i - 1])
    ensures i - 1 == h ==> Concat(MapLines(f, lines[h..i - 1])) == ""
  {
    assert lines[h..i] == lines[h..i - 1] + [lines[i - 1]];
    MapLinesSnoc(f, lines[h..i - 1], lines[i - 1]);
    ConcatSnoc(MapLines(f, lines[h..i - 1]), f(lines[i - 1]));
  }

  /**
    What the loop has written after reading the first `i` lines, with `f`
    for the re-indentation of one line and `h` lines of old header: nothing
    for a header line, the header and the line re-indented for the first
    line after it, and the line re-indented for every later one.
  */
  function Emitted(f: string -> string, lines: seq<string>, h: nat, header: string, i: nat): string
    requires i <= |lines|
    decreases i
  {
    if i == 0 then ""
    else
      var prev := Emitted(f, lines, h, header, i - 1);
      if i - 1 < h then prev
      else if i - 1 == h then prev + header + f(lines[i - 1])
      else prev + f(lines[i - 1])
  }

  /** The first line after the old header, line `i - 1`, writes the header and that line re-indented. */
  lemma EmittedFirst(f: string -> string, lines: seq<string>, h: nat, header: string, i: nat)
    requires i == h + 1 && i <= |lines|
    requires Emitted(f, lines, h, header, i - 1) == ""
    ensures Emitted(f, lines, h, header, i) == header + Concat(MapLines(f, lines[h..i]))
  {
    MapStep(f, lines, h, i);
    EmitStep(Emitted(f, lines, h, header, i - 1), header, "", f(lines[i - 1]), true);
  }

  /** Every later line, line `i - 1`, writes that line re-indented after what was written before. */
  lemma EmittedLater(f: string -> string, lines: seq<string>, h: nat, header: string, i: nat)
    requires h + 1 < i <= |lines|
    requires Emitted(f, lines, h, header, i - 1) == header + Concat(MapLines(f, lines[h..i - 1]))
    ensures Emitted(f, lines, h, header, i) == header + Concat(MapLines(f, lines[h..i]))
  {
    MapStep(f, lines, h, i);
    EmitStep(Emitted(f, lines, h, header, i - 1), header, Concat(MapLines(f, lines[h..i - 1])), f(lines[i - 1]), false);
  }

  /** Reading line `i` writes nothing in the old header, and otherwise what `Emitted` adds for it. */
  lemma EmitNext(f: string -> string, lines: seq<string>, h: nat, header: string, i: nat)
    requires i < |lines|
    ensures i < h ==> Emitted(f, lines, h, header, i + 1) == Emitted(f, lines, h, header, i)
    ensures i == h ==> Emitted(f, lines, h, header, i + 1) == Emitted(f, lines, h, header, i) + header + f(lines[i])
    ensures i > h ==> Emitted(f, lines, h, header, i + 1) == Emitted(f, lines, h, header, i) + f(lines[i])
  {
  }

  /**
    The output after `i` lines is empty while they are all header lines,
    and afterwards the header followed by the re-indented lines read since.
  */
  lemma EmittedSoFar(f: string -> string, lines: seq<string>, h: nat, header: string, i: nat)
    requires h <= |lines| && i <= |lines|
    ensures i <= h ==> Emitted(f, lines, h, header, i) == ""
    ensures i > h ==> Emitted(f, lines, h, header, i) == header + Concat(MapLines(f, lines[h..i]))
  {
    if i <= h {
      EmittedInHeader(f, lines, h, header, i);
    } else {
      EmittedAfterHeader(f, lines, h, header, i);
    }
  }

  /** Nothing is written while the lines read are all header lines. */
  lemma {:induction false} EmittedInHeader(f: string -> string, lines: seq<string>, h: nat, header: string, i: nat)
    requires i <= h && i <= |lines|
    ensures Emitted(f, lines, h, header, i) == ""
    decreases i
  {
    if i > 0 {
      EmittedInHeader(f, lines, h, header, i - 1);
    }
  }

  /** After the old header: the header, then each line read since re-indented. */
  lemma {:induction false} EmittedAfterHeader(f: string -> string, lines: seq<string>, h: nat, header: string, i: nat)
    requires h < i <= |lines|
    ensures Emitted(f, lines, h, header, i) == header + Concat(MapLines(f, lines[h..i]))
    decreases i
  {
    if i == h + 1 {
      EmittedInHeader(f, lines, h, header, i - 1);
      EmittedFirst(f, lines, h, header, i);
    } else {
      EmittedAfterHeader(f, lines, h, header, i - 1);
      EmittedLater(f, lines, h, header, i);
    }
  }

  /** Once every line is read: nothing if no line follows the old header, else the header and every later line mapped. */
  lemma EmittedAllWith(f: string -> string, lines: seq<string>, h: nat, header: string)
    requires h <= |lines|
    ensures Emitted(f, lines, h, header, |lines|) == if lines[h..] == [] then "" else header + Concat(MapLines(f, lines[h..]))
  {
    EmittedSoFar(f, lines, h, header, |lines|);
    assert lines[h..|lines|] == lines[h..];
  }

  /** Once every line is read: what the loop has written is the rewritten file. */
  lemma EmittedAll(lines: seq<string>, header: string)
    ensures Emitted(FixLine, lines, HeaderLength(lines), header, |lines|) == Rewritten(lines, header)
  {
    EmittedAllWith(FixLine, lines, HeaderLength(lines), header);
  }

  /** One more re-indented line written, after the header and the lines before it. */
  lemma EmitStep(e: string, header: string, c: string, x: string, first: bool)
    requires first ==> e == "" && c == ""
    requires !first ==> e == header + c
    ensures (if first then e + header + x else e + x) == header + (c + x)
  {
    if first {
      assert e + header == header && c + x == x;
    } else {
      AppendAssoc(header, c, x);
    }
  }

  lemma AppendAssoc(a: string, b: string, c: string)
    ensures a + b + c == a + (b + c)
  {
  }

  lemma ConcatSnoc(f: seq<string>, x: string)
    ensures Concat(f + [x]) == Concat(f) + x
  {
    assert (f + [x])[..|f|] == f;
  }

  /**
    The `inHeader` flag after the first `i` lines, as the loop sets it: the
    first line may raise it, and a line that closes the comment lowers it.
  */
  ghost predicate InHeaderAfter(lines: seq<string>, i: nat)
    requires i <= |lines|
    decreases i
  {
    i > 0 && ((i == 1 && Opens(lines[0])) || InHeaderAfter(lines, i - 1)) && !Closes(lines[i - 1])
  }

  /** The flag is up after `i` lines exactly when they are inside an unclosed old header. */
  lemma {:induction false} InHeaderAfterIff(lines: seq<string>, i: nat)
    requires i <= |lines|
    ensures InHeaderAfter(lines, i) <==> 0 < i <= HeaderLength(lines) && !Closes(lines[i - 1])
    decreases i
  {
    HeaderLengthShape(lines);
    if i > 1 {
      InHeaderAfterIff(lines, i - 1);
    }
  }

  /** Line `i` belongs to the old header exactly when the flag is up as the loop reads it. */
  lemma HeaderStep(lines: seq<string>, i: nat)
    requires i < |lines|
    ensures (i == 0 && Opens(lines[0])) || InHeaderAfter(lines, i) <==> i < HeaderLength(lines)
    ensures InHeaderAfter(lines, i + 1) == (((i == 0 && Opens(lines[0])) || InHeaderAfter(lines, i)) && !Closes(lines[i]))
  {
    HeaderLengthShape(lines);
    InHeaderAfterIff(lines, i);
  }

  /**
    The `File.open(path).each` loop of `processFile` over the lines of a
    file, with the flags `inHeader`, `firstLine` and `headerOutputted`;
    `header` is the text written in place of the old header.
  */
  method ProcessLines(lines: seq<string>, header: string) returns (out: string)
    ensures out == Rewritten(lines, header)
  {
    ghost var h := HeaderLength(lines);
    out := "";
    var inHeader := false;
    var firstLine := true;
    var headerOutputted := false;
    var i := 0;
    while i < |lines|
      invariant 0 <= i <= |lines|
      invariant firstLine <==> i == 0
      invariant inHeader == InHeaderAfter(lines, i)
      invariant headerOutputted <==> i > h
      invariant out == Emitted(FixLine, lines, h, header, i)
    {
      var l := lines[i];
      HeaderStep(lines, i);
      EmitNext(FixLine, lines, h, header, i);
      if firstLine && Opens(l) {
        inHeader := true;
      }
      firstLine := false;
      if inHeader && Closes(l) {
        inHeader := false;
        i := i + 1;
        continue;
      }
      if inHeader {
        i := i + 1;
        continue;
      }
      if !headerOutputted {
        out := out + header;
      }
      headerOutputted := true;
      var fixed := FixIndent(l);
      out := out + fixed;
      i := i + 1;
    }
    EmittedAll(lines, header);
  }

  /**
    `processFile(path)` with the file's text as `text` and the text it
    writes back as `out`.
  */
  method ProcessFile(text: string) returns (out: string)
    ensures out == Processed(text)
  {
    var lines := SplitLines(text);
    out := ProcessLines(lines, FILE_HEADER + LINE_END);
  }

  // ------------------------------------------------------------ properties

  /** The joined lines of four strings. */
  lemma ConcatFour(a: string, b: string, c: string, d: string)
    ensures Concat([a, b, c, d]) == a + b + c + d
  {
    assert [a, b, c, d] == [a, b, c] + [d] && [a, b, c] == [a, b] + [c] && [a, b] == [a] + [b] && [a] == [] + [a];
    ConcatSnoc([], a);
    ConcatSnoc([a], b);
    ConcatSnoc([a, b], c);
    ConcatSnoc([a, b, c], d);
  }

  /** Text without a newline, then a newline, is a full line whose text is the first part. */
  lemma FullLineOf(s: string)
    requires '\n' !in s
    ensures FullLine(s + LINE_END)
    ensures Content(s + LINE_END) == s
  {
    assert (s + LINE_END)[..|s|] == s;
  }

  /** The header text is its four lines joined. */
  lemma HeaderTextJoined()
    ensures HEADER_TEXT == Concat(HEADER_LINES)
  {
    ConcatFour(HEADER_OPEN, HEADER_TITLE, HEADER_LICENSE, HEADER_CLOSE + LINE_END);
    AppendAssoc(HEADER_OPEN + HEADER_TITLE + HEADER_LICENSE, HEADER_CLOSE, LINE_END);
  }

  /** Each line of the header text is a full line, and its text is the constant's text without the line end. */
  lemma HeaderLinesFull()
    ensures forall i :: 0 <= i < |HEADER_LINES| ==> FullLine(HEADER_LINES[i])
    ensures Content(HEADER_LINES[0]) == "/*-" && Content(HEADER_LINES[3]) == HEADER_CLOSE
    ensures Content(HEADER_LINES[1]) == "Minimalistic and Modular " + "OpenGL C++ Framework"
    ensures Content(HEADER_LINES[2]) == "GLFK LICENSE (BSD-based) " + "- please see LICENSE.md"
  {
    FullLineOf("/*-");
    TitleLineFull();
    LicenseLineFull();
    FullLineOf(HEADER_CLOSE);
  }

  /** The title line of the header is a full line. */
  lemma TitleLineFull()
    ensures FullLine(HEADER_TITLE)
    ensures Content(HEADER_TITLE) == "Minimalistic and Modular " + "OpenGL C++ Framework"
  {
    FullLineOf("Minimalistic and Modular " + "OpenGL C++ Framework");
  }

  /** The licence line of the header is a full line. */
  lemma LicenseLineFull()
    ensures FullLine(HEADER_LICENSE)
    ensures Content(HEADER_LICENSE) == "GLFK LICENSE (BSD-based) " + "- please see LICENSE.md"
  {
    FullLineOf("GLFK LICENSE (BSD-based) " + "- please see LICENSE.md");
  }

  /**
    The header text is four full lines: the first opens a comment the way
    `/^\/\*\-/` sees it, and only the last closes it the way `/\*\/$/` does.
  */
  lemma HeaderLinesText()
    ensures HEADER_TEXT == Concat(HEADER_LINES)
    ensures forall i :: 0 <= i < |HEADER_LINES| ==> FullLine(HEADER_LINES[i])
    ensures Opens(HEADER_LINES[0])
    ensures forall k :: 0 <= k < |HEADER_LINES| - 1 ==> !Closes(HEADER_LINES[k])
    ensures Closes(HEADER_LINES[|HEADER_LINES| - 1])
  {
    HeaderTextJoined();
    HeaderLinesFull();
    var t1, t2 := "Minimalistic and Modular " + "OpenGL C++ Framework", "GLFK LICENSE (BSD-based) " + "- please see LICENSE.md";
    assert t1[|t1| - 1] == 'k';
    assert t2[|t2| - 1] == 'd';
    assert !Closes(HEADER_LINES[0]) && !Closes(HEADER_LINES[1]) && !Closes(HEADER_LINES[2]);
  }

  /** Re-indented lines are full lines, one for each line. */
  lemma FixAllFull(body: seq<string>)
    requires forall i :: 0 <= i < |body| ==> IsLine(body[i])
    ensures |FixAll(body)| == |body|
    ensures forall i :: 0 <= i < |body| ==> FullLine(FixAll(body)[i])
  {
    MapLinesAt(FixLine, body);
    forall i | 0 <= i < |body|
      ensures FullLine(FixAll(body)[i])
    {
      FixLineShape(body[i]);
    }
  }

  /** Re-indenting lines that were re-indented changes none of them. */
  lemma FixAllIdempotent(body: seq<string>)
    requires forall i :: 0 <= i < |body| ==> IsLine(body[i])
    ensures FixAll(FixAll(body)) == FixAll(body)
  {
    var f := FixAll(body);
    MapLinesAt(FixLine, body);
    MapLinesAt(FixLine, f);
    forall i | 0 <= i < |f|
      ensures FixAll(f)[i] == f[i]
    {
      FixLineIdempotent(body[i]);
    }
  }

  /** Full header lines followed by re-indented lines split back into the same lines. */
  lemma RewrittenLines(hl: seq<string>, body: seq<string>)
    requires forall i :: 0 <= i < |hl| ==> FullLine(hl[i])
    requires forall i :: 0 <= i < |body| ==> IsLine(body[i])
    ensures SplitLines(Concat(hl) + Concat(FixAll(body))) == hl + FixAll(body)
  {
    var f := FixAll(body);
    FixAllFull(body);
    var all := hl + f;
    FullLinesAppend(hl, f);
    ConcatAppend(hl, f);
    ConcatSplitLines(all);
  }

  /** A scan for the closing line from `j` stops just after the first line that closes. */
  lemma {:induction false} CloseIndexAt(lines: seq<string>, j: nat, e: nat)
    requires j < e <= |lines|
    requires forall k :: j <= k < e - 1 ==> !Closes(lines[k])
    requires Closes(lines[e - 1])
    ensures CloseIndex(lines, j) == e
    decreases e - j
  {
    if j < e - 1 {
      CloseIndexAt(lines, j + 1, e);
    }
  }

  /** The lines from `h` on of lines that are lines are lines. */
  lemma SuffixLines(lines: seq<string>, h: nat)
    requires h <= |lines|
    requires forall i :: 0 <= i < |lines| ==> IsLine(lines[i])
    ensures forall i :: 0 <= i < |lines[h..]| ==> IsLine(lines[h..][i])
  {
    forall i | 0 <= i < |lines[h..]|
      ensures IsLine(lines[h..][i])
    {
      assert lines[h..][i] == lines[h + i];
    }
  }

  /** Full lines followed by full lines are full lines. */
  lemma FullLinesAppend(a: seq<string>, b: seq<string>)
    requires forall i :: 0 <= i < |a| ==> FullLine(a[i])
    requires forall i :: 0 <= i < |b| ==> FullLine(b[i])
    ensures forall i :: 0 <= i < |a + b| ==> FullLine((a + b)[i])
  {
    forall i | 0 <= i < |a + b|
      ensures FullLine((a + b)[i])
    {
      if i < |a| {
        assert (a + b)[i] == a[i];
      } else {
        assert (a + b)[i] == b[i - |a|];
      }
    }
  }

  /**
    The output as lines: nothing when the old header covers the whole file,
    and otherwise the four lines of the new header, once, followed by one
    re-indented line for each line after the old header.
  */
  lemma ProcessedLines(text: string)
    ensures var lines := SplitLines(text);
            var body := lines[HeaderLength(lines)..];
            (Processed(text) == "" <==> body == []) &&
            (body != [] ==> SplitLines(Processed(text)) == HEADER_LINES + FixAll(body))
    ensures forall i :: 0 <= i < |SplitLines(Processed(text))| ==> FullLine(SplitLines(Processed(text))[i])
  {
    var lines := SplitLines(text);
    var body := lines[HeaderLength(lines)..];
    if body != [] {
      SplitLinesShape(text);
      SuffixLines(lines, HeaderLength(lines));
      HeaderLinesText();
      RewrittenLines(HEADER_LINES, body);
      FixAllFull(body);
      FullLinesAppend(HEADER_LINES, FixAll(body));
      assert |Processed(text)| >= |HEADER_TEXT| > 0;
    }
  }

  /**
    Lines that open the old header on the first and close it on the last
    and only there, followed by more lines: the old header is those lines.
  */
  lemma HeaderLengthOf(hl: seq<string>, rest: seq<string>)
    requires |hl| > 0 && Opens(hl[0]) && Closes(hl[|hl| - 1])
    requires forall k :: 0 <= k < |hl| - 1 ==> !Closes(hl[k])
    ensures HeaderLength(hl + rest) == |hl|
    ensures (hl + rest)[|hl|..] == rest
  {
    var all := hl + rest;
    assert all[0] == hl[0] && all[|hl| - 1] == hl[|hl| - 1];
    assert forall k :: 0 <= k < |hl| - 1 ==> all[k] == hl[k];
    CloseIndexAt(all, 0, |hl|);
  }

  /** Rewriting the output of a rewrite under a header of that shape gives the output back. */
  lemma RewrittenAgain(hl: seq<string>, body: seq<string>)
    requires |hl| > 0 && Opens(hl[0]) && Closes(hl[|hl| - 1])
    requires forall k :: 0 <= k < |hl| - 1 ==> !Closes(hl[k])
    requires forall i :: 0 <= i < |hl| ==> FullLine(hl[i])
    requires body != [] && forall i :: 0 <= i < |body| ==> IsLine(body[i])
    ensures var u := Concat(hl) + Concat(FixAll(body));
            Rewritten(SplitLines(u), Concat(hl)) == u
  {
    var f := FixAll(body);
    RewrittenLines(hl, body);
    HeaderLengthOf(hl, f);
    FixAllFull(body);
    FixAllIdempotent(body);
  }

  /** Processing text that has been processed gives it back unchanged. */
  lemma ProcessedIdempotent(text: string)
    ensures Processed(Processed(text)) == Processed(text)
  {
    var lines := SplitLines(text);
    var body := lines[HeaderLength(lines)..];
    if body != [] {
      HeaderLinesText();
      SplitLinesShape(text);
      SuffixLines(lines, HeaderLength(lines));
      RewrittenAgain(HEADER_LINES, body);
    }
  }

  // ------------------------------------------------------------ the filter

  /** `s` ends with `.`, then `c` or `h`, then any number of `p`. */
  ghost predicate HasSourceExtension(s: string)
  {
    exists m :: 0 <= m < |s| - 1 && s[m] == '.' && (s[m + 1] == 'c' || s[m + 1] == 'h') && AllP(s[m + 2..])
  }

  /** `p*`: every character is `p`. */
  predicate AllP(s: string)
  {
    forall k :: 0 <= k < |s| ==> s[k] == 'p'
  }

  /**
    `path =~ /.*\.(cp*|hp*)$/`: some line end of the path (`$`, the end of
    the string or a newline) is preceded by such an extension.
  */
  ghost predicate IsSourcePath(path: string)
  {
    exists j :: 0 <= j <= |path| && (j == |path| || path[j] == '\n') && HasSourceExtension(path[..j])
  }

  /** `s` without its trailing run of `p`. */
  function DropTrailingP(s: string): (r: string)
    ensures |r| <= |s| && r == s[..|r|]
    ensures r == [] || r[|r| - 1] != 'p'
    ensures forall k :: |r| <= k < |s| ==> s[k] == 'p'
  {
    if s != [] && s[|s| - 1] == 'p' then DropTrailingP(s[..|s| - 1]) else s
  }

  /** The extension test, computed by dropping the trailing `p`s. */
  function EndsWithSourceExtension(s: string): bool
  {
    var t := DropTrailingP(s);
    |t| >= 2 && t[|t| - 2] == '.' && (t[|t| - 1] == 'c' || t[|t| - 1] == 'h')
  }

  lemma EndsWithSourceExtensionIff(s: string)
    ensures EndsWithSourceExtension(s) <==> HasSourceExtension(s)
  {
    var t := DropTrailingP(s);
    if EndsWithSourceExtension(s) {
      var m := |t| - 2;
      assert s[m] == '.' && (s[m + 1] == 'c' || s[m + 1] == 'h');
      assert AllP(s[m + 2..]);
    }
    if HasSourceExtension(s) {
      var m :| 0 <= m < |s| - 1 && s[m] == '.' && (s[m + 1] == 'c' || s[m + 1] == 'h') && AllP(s[m + 2..]);
      assert forall k :: m + 2 <= k < |s| ==> s[k] == s[m + 2..][k - m - 2] == 'p';
      assert |t| == m + 2;
      assert t[|t| - 2] == s[m];
    }
  }

  /** The path filter, computed. */
  function MatchesSourcePattern(path: string): bool
  {
    exists j :: 0 <= j <= |path| && (j == |path| || path[j] == '\n') && EndsWithSourceExtension(path[..j])
  }

  /** The computed filter is the regular expression's match, in both directions. */
  lemma MatchesSourcePatternIff(path: string)
    ensures MatchesSourcePattern(path) <==> IsSourcePath(path)
  {
    if MatchesSourcePattern(path) {
      var j :| 0 <= j <= |path| && (j == |path| || path[j] == '\n') && EndsWithSourceExtension(path[..j]);
      EndsWithSourceExtensionIff(path[..j]);
    }
    if IsSourcePath(path) {
      var j :| 0 <= j <= |path| && (j == |path| || path[j] == '\n') && HasSourceExtension(path[..j]);
      EndsWithSourceExtensionIff(path[..j]);
    }
  }

  /** The paths of `paths` the script processes, in order. */
  function SourcePaths(paths: seq<string>): seq<string>
  {
    if paths == [] then []
    else
      var rest := SourcePaths(paths[..|paths| - 1]);
      var p := paths[|paths| - 1];
      if MatchesSourcePattern(p) then rest + [p] else rest
  }

  /** The paths kept are exactly the listed paths that match, and there are no more of them than paths. */
  lemma {:induction false} SourcePathsMembers(paths: seq<string>)
    ensures forall p :: p in SourcePaths(paths) <==> p in paths && MatchesSourcePattern(p)
    ensures |SourcePaths(paths)| <= |paths|
  {
    if paths != [] {
      var init, p := paths[..|paths| - 1], paths[|paths| - 1];
      SourcePathsMembers(init);
      assert paths == init + [p];
    }
  }

  /** Four paths filtered: each kept exactly when it matches, in order. */
  lemma SourcePathsFour(a: string, b: string, c: string, d: string)
    ensures SourcePaths([a, b, c, d]) == (if MatchesSourcePattern(a) then [a] else []) + (if MatchesSourcePattern(b) then [b] else [])
                                         + (if MatchesSourcePattern(c) then [c] else []) + (if MatchesSourcePattern(d) then [d] else [])
  {
    SourcePathsSnoc([], a);
    SourcePathsSnoc([a], b);
    SourcePathsSnoc([a, b], c);
    SourcePathsSnoc([a, b, c], d);
    assert [] + [a] == [a] && [a] + [b] == [a, b] && [a, b] + [c] == [a, b, c] && [a, b, c] + [d] == [a, b, c, d];
  }

  /** One more path is kept, at the end, exactly when it matches. */
  lemma SourcePathsSnoc(paths: seq<string>, p: string)
    ensures SourcePaths(paths + [p]) == SourcePaths(paths) + (if MatchesSourcePattern(p) then [p] else [])
  {
    assert (paths + [p])[..|paths|] == paths;
  }

  /** Which of four sample paths match: `.cpp` and `.h` do, `.cc` and `.md` do not. */
  lemma PatternExamples()
    ensures MatchesSourcePattern("a.cpp") && !MatchesSourcePattern("x.cc")
    ensures MatchesSourcePattern("b.h") && !MatchesSourcePattern("c.md")
  {
    SingleLinePattern("a.cpp");
    SingleLinePattern("x.cc");
    SingleLinePattern("b.h");
    SingleLinePattern("c.md");
  }

  /** The `Dir[...].each` loop's filter: `next if path !~ ...`, keeping the paths that match. */
  method SelectSourcePaths(paths: seq<string>) returns (selected: seq<string>)
    ensures selected == SourcePaths(paths)
  {
    selected := [];
    var i := 0;
    while i < |paths|
      invariant 0 <= i <= |paths|
      invariant selected == SourcePaths(paths[..i])
    {
      assert paths[..i + 1][..i] == paths[..i];
      if MatchesSourcePattern(paths[i]) {
        selected := selected + [paths[i]];
      }
      i := i + 1;
    }
    assert paths[..i] == paths;
  }

  /** On a path without a newline, the only line end `$` can match is the end of the path. */
  lemma SingleLinePattern(path: string)
    requires '\n' !in path
    ensures MatchesSourcePattern(path) == EndsWithSourceExtension(path)
  {
    if MatchesSourcePattern(path) {
      var j :| 0 <= j <= |path| && (j == |path| || path[j] == '\n') && EndsWithSourceExtension(path[..j]);
      assert j == |path| && path[..j] == path;
    } else {
      assert path[..|path|] == path;
    }
  }

  /** A `.cpp` and a `.h` file are processed; a `.cc` and a `.md` file are not. */
  method FilterExamples() returns (kept: seq<string>)
    ensures kept == ["a.cpp", "b.h"]
  {
    var paths := ["a.cpp", "x.cc", "b.h", "c.md"];
    PatternExamples();
    SourcePathsFour("a.cpp", "x.cc", "b.h", "c.md");
    kept := SelectSourcePaths(paths);
  }
}
