/**
  `tools/extract_gl_enums.rb`, which turns the `#define GL_...` lines of
  `glad.h` into the C++ function `GLEnumToString`, and that generated
  function itself.

  The script prints a fixed prologue, then one map assignment per accepted
  line, then a fixed epilogue. A line is accepted when the regular
  expression `#define\s+(GL_[_A-Z0-9]+)\s+([0-9a-fA-Fx]+)` finds a match in
  it and the captured value text, read by Ruby's `to_i(16)`, is at least
  256. The generated function fills a `std::map` once, guarded by a static
  `inited` flag, and answers a value with the name stored for it or with
  `"0x"` and the `%X` digits of the value.
*/
module GLEnums {
  import opened GL
  import ProcessCode
  import Utils

  /** What `print <<-eos` writes before the entries. */
  const PROLOGUE: string :=
    "// Generated using /tools/extract_gl_enums.rb\n" +
    "\n" +
    "#include \"debug/glad.h\"\n" +
    "#include <map>\n" +
    "#include <string.h>\n" +
    "\n" +
    "const char* GLEnumToString(unsigned e) \n" +
    "{\n" +
    "    static bool inited = false;\n" +
    "    typedef std::map<GLenum, const char*> EnumStrMap;\n" +
    "    static EnumStrMap m;\n" +
    "\n" +
    "    if (!inited) { \n" +
    "        inited = true;\n" +
    "\n"

  /** What the final `puts <<-eos` writes after the entries (the text already ends with a newline). */
  const EPILOGUE: string :=
    "    \n" +
    "        // ensure true and false\n" +
    "        // m[0] = \"GL_FALSE\";\n" +
    "        // m[1] = \"GL_TRUE\";\n" +
    "    }\n" +
    "\n" +
    "    const char* str = m[e];\n" +
    "    if (!str) {\n" +
    "        static char buff[32];\n" +
    "        sprintf(buff, \"0x%X\", e);\n" +
    "        return buff;\n" +
    "    }\n" +
    "\n" +
    "    return str;\n" +
    "}\n"

  /** `w` occurs in `l` at `i`. */
  predicate HasAt(l: string, i: nat, w: string)
  {
    i + |w| <= |l| && l[i..i + |w|] == w
  }

  const DEFINE: string := "#define"
  const GL_PREFIX: string := "GL_"

  // ------------------------------------------------------------ the pattern

  /** `[_A-Z0-9]` */
  predicate IsNameChar(c: char)
  {
    c == '_' || 'A' <= c <= 'Z' || '0' <= c <= '9'
  }

  /** `[0-9a-fA-Fx]` */
  predicate IsValueChar(c: char)
  {
    '0' <= c <= '9' || 'a' <= c <= 'f' || 'A' <= c <= 'F' || c == 'x'
  }

  /** A hexadecimal digit, either case. */
  predicate IsHexDigit(c: char)
  {
    '0' <= c <= '9' || 'a' <= c <= 'f' || 'A' <= c <= 'F'
  }

  /** Every character of `l[i..j]` satisfies `p`. */
  predicate All(l: string, i: nat, j: nat, p: char -> bool)
    requires i <= j <= |l|
    decreases j - i
  {
    i == j || (p(l[i]) && All(l, i + 1, j, p))
  }

  /** `All` is the character-by-character statement. */
  lemma {:induction false} AllIff(l: string, i: nat, j: nat, p: char -> bool)
    requires i <= j <= |l|
    ensures All(l, i, j, p) <==> forall k :: i <= k < j ==> p(l[k])
    decreases j - i
  {
    if i < j {
      AllIff(l, i + 1, j, p);
    }
  }

  /** A run of `p` characters stays one inside a slice that holds it. */
  lemma {:induction false} AllSub(l: string, a: nat, b: nat, i: nat, j: nat, p: char -> bool)
    requires a <= i <= j <= b <= |l|
    requires All(l, i, j, p)
    ensures All(l[a..b], i - a, j - a, p)
    decreases j - i
  {
    if i < j {
      assert l[a..b][i - a] == l[i];
      AllSub(l, a, b, i + 1, j, p);
    }
  }

  /** The end of the longest run of characters satisfying `p` that starts at `i`. */
  function RunEnd(l: string, i: nat, p: char -> bool): (r: nat)
    requires i <= |l|
    ensures i <= r <= |l|
    ensures All(l, i, r, p)
    ensures r == |l| || !p(l[r])
    decreases |l| - i
  {
    if i < |l| && p(l[i]) then RunEnd(l, i + 1, p) else i
  }

  /** A run of `p` characters from `i` that stops at `j` ends at `j`. */
  lemma {:induction false} RunEndAt(l: string, i: nat, j: nat, p: char -> bool)
    requires i <= j <= |l|
    requires All(l, i, j, p)
    requires j == |l| || !p(l[j])
    ensures RunEnd(l, i, p) == j
    decreases j - i
  {
    if i < j {
      RunEndAt(l, i + 1, j, p);
    }
  }

  /**
    Where one match of the pattern lies: it starts at `start`, group 1 (the
    name, `GL_` included) is `nameStart..nameEnd`, and group 2 (the value
    text) is `valueStart..valueEnd`.
  */
  datatype Define = Define(start: nat, nameStart: nat, nameEnd: nat, valueStart: nat, valueEnd: nat)

  /**
    `d` is a match of the pattern in `l`, groups as the regular expression
    captures them: `#define`, white space, `GL_` and name characters, white
    space, and the longest run of value characters that follows.
  */
  ghost predicate Captures(l: string, d: Define)
  {
    d.start + |DEFINE| < d.nameStart && d.nameStart + |GL_PREFIX| < d.nameEnd < d.valueStart < d.valueEnd <= |l| &&
    HasAt(l, d.start, DEFINE) &&
    All(l, d.start + |DEFINE|, d.nameStart, ProcessCode.IsSpace) &&
    HasAt(l, d.nameStart, GL_PREFIX) &&
    All(l, d.nameStart + |GL_PREFIX|, d.nameEnd, IsNameChar) &&
    All(l, d.nameEnd, d.valueStart, ProcessCode.IsSpace) &&
    All(l, d.valueStart, d.valueEnd, IsValueChar) &&
    (d.valueEnd == |l| || !IsValueChar(l[d.valueEnd]))
  }

  /** The positions of `d` are in order and within `l`. */
  predicate InBounds(l: string, d: Define)
  {
    d.start <= d.nameStart <= d.nameEnd <= d.valueStart <= d.valueEnd <= |l|
  }

  /** The match of the pattern that starts at `i`, if there is one. */
  function MatchAt(l: string, i: nat): (r: Option<Define>)
    requires i <= |l|
    ensures r.Some? ==> r.value.start == i && InBounds(l, r.value)
  {
    var k := i + |DEFINE|;
    if HasAt(l, i, DEFINE) then
      var n0 := RunEnd(l, k, ProcessCode.IsSpace);
      if k < n0 && HasAt(l, n0, GL_PREFIX) then
        var n1 := RunEnd(l, n0 + |GL_PREFIX|, IsNameChar);
        var v0 := RunEnd(l, n1, ProcessCode.IsSpace);
        var v1 := RunEnd(l, v0, IsValueChar);
        if n0 + |GL_PREFIX| < n1 && n1 < v0 && v0 < v1 then Some(Define(i, n0, n1, v0, v1)) else None
      else None
    else None
  }

  /** What `MatchAt` finds is a match of the pattern, starting where it looked. */
  lemma MatchAtSound(l: string, i: nat)
    requires i <= |l|
    ensures MatchAt(l, i).Some? ==> MatchAt(l, i).value.start == i && Captures(l, MatchAt(l, i).value)
  {
  }

  /**
    The pattern has no choice to make once its start is fixed: every match
    starting at `d.start` is the one `MatchAt` finds.
  */
  lemma MatchAtComplete(l: string, d: Define)
    requires Captures(l, d)
    ensures MatchAt(l, d.start) == Some(d)
  {
    assert !ProcessCode.IsSpace(l[d.nameStart]) by {
      assert l[d.nameStart..d.nameStart + |GL_PREFIX|][0] == 'G';
    }
    RunEndAt(l, d.start + |DEFINE|, d.nameStart, ProcessCode.IsSpace);
    RunEndAt(l, d.nameStart + |GL_PREFIX|, d.nameEnd, IsNameChar);
    assert All(l, d.nameEnd, d.valueStart, ProcessCode.IsSpace);
    RunEndAt(l, d.nameEnd, d.valueStart, ProcessCode.IsSpace);
    RunEndAt(l, d.valueStart, d.valueEnd, IsValueChar);
  }

  /** The leftmost match at or after `i`. */
  function FirstMatch(l: string, i: nat): (r: Option<Define>)
    requires i <= |l|
    ensures r.Some? ==> i <= r.value.start && InBounds(l, r.value) && MatchAt(l, r.value.start) == r
    ensures r.Some? ==> forall j :: i <= j < r.value.start ==> MatchAt(l, j).None?
    ensures r.None? ==> forall j :: i <= j <= |l| ==> MatchAt(l, j).None?
    decreases |l| - i
  {
    if i == |l| then None
    else if MatchAt(l, i).Some? then MatchAt(l, i)
    else FirstMatch(l, i + 1)
  }

  /** `l =~ /#define\s+(GL_[_A-Z0-9]+)\s+([0-9a-fA-Fx]+)/`: the leftmost match. */
  function Match(l: string): Option<Define>
  {
    FirstMatch(l, 0)
  }

  /** What `=~` finds is a match of the pattern. */
  lemma MatchSound(l: string)
    ensures Match(l).Some? ==> Captures(l, Match(l).value)
  {
    if Match(l).Some? {
      MatchAtSound(l, Match(l).value.start);
    }
  }

  /** `=~` finds a match exactly when there is one, and none of the others lies further left. */
  lemma MatchIsLeftmost(l: string, d: Define)
    requires Captures(l, d)
    ensures Match(l).Some?
    ensures Match(l).value.start <= d.start
    ensures Match(l).value.start == d.start ==> Match(l) == Some(d)
  {
    MatchAtComplete(l, d);
  }

  // ------------------------------------------------------- the value filter

  /**
    `String#to_i(16)` on a text the value group can capture (no sign, white
    space or underscore): a leading `0x` is skipped, then the longest run
    of hexadecimal digits is read; an empty run reads as 0.
  */
  function RubyHex(v: string): nat
  {
    var t := if |v| >= 2 && v[0] == '0' && v[1] == 'x' then v[2..] else v;
    Utils.ParseDigits(t[..RunEnd(t, 0, IsHexDigit)], 16)
  }

  /** The `%X` digits of a number read back as it, with or without `0x` before them. */
  lemma RubyHexDigits(n: nat)
    ensures RubyHex("0x" + Utils.HexDigits(n)) == n
    ensures RubyHex(Utils.HexDigits(n)) == n
  {
    var h := Utils.HexDigits(n);
    assert forall k :: 0 <= k < |h| ==> IsHexDigit(h[k]);
    AllIff(h, 0, |h|, IsHexDigit);
    RunEndAt(h, 0, |h|, IsHexDigit);
    assert ("0x" + h)[2..] == h;
    assert h[..|h|] == h;
    Utils.ParseHexDigits(n);
  }

  /** A text without the `0x` prefix reads as its leading run of `n` digits. */
  lemma RubyHexUnprefixed(v: string, n: nat)
    requires !(|v| >= 2 && v[0] == '0' && v[1] == 'x')
    requires n <= |v| && RunEnd(v, 0, IsHexDigit) == n
    ensures RubyHex(v) == Utils.ParseDigits(v[..n], 16)
  {
  }

  /** The run from the start of `a + c` is `a` when `a` is one and `c` does not continue it. */
  lemma {:induction false} RunEndPrefix(a: string, c: string, p: char -> bool)
    requires All(a, 0, |a|, p)
    requires c == [] || !p(c[0])
    ensures RunEnd(a + c, 0, p) == |a|
  {
    var v := a + c;
    assert |a| < |v| ==> v[|a|] == c[0];
    AllPrefix(a, c, 0, p);
    RunEndAt(v, 0, |a|, p);
  }

  /** A run of `a` is one of `a + c` too. */
  lemma {:induction false} AllPrefix(a: string, c: string, i: nat, p: char -> bool)
    requires i <= |a|
    requires All(a, i, |a|, p)
    ensures All(a + c, i, |a|, p)
    decreases |a| - i
  {
    if i < |a| {
      assert (a + c)[i] == a[i];
      AllPrefix(a, c, i + 1, p);
    }
  }

  /** Digits other than a lone `0`, then an `x`: no `0x` prefix. */
  lemma NoHexPrefix(a: string, c: string)
    requires forall k :: 0 <= k < |a| ==> IsHexDigit(a[k])
    requires a != "0"
    requires |c| > 0 && c[0] == 'x'
    ensures var v := a + c; !(|v| >= 2 && v[0] == '0' && v[1] == 'x')
  {
    var v := a + c;
    if |a| >= 2 {
      assert v[1] == a[1];
    } else if |a| == 1 {
      assert v[0] == a[0];
      assert a == [a[0]];
    } else {
      assert v[0] == c[0];
    }
  }

  /**
    Reading stops at the first `x` after the digits: what follows it does
    not count (`"12x34"` reads as `0x12`).
  */
  lemma RubyHexStopsAtX(a: string, b: string)
    requires forall k :: 0 <= k < |a| ==> IsHexDigit(a[k])
    requires a != "0"
    ensures RubyHex(a + "x" + b) == Utils.ParseDigits(a, 16)
  {
    var v := a + ("x" + b);
    assert a + "x" + b == v;
    NoHexPrefix(a, "x" + b);
    AllIff(a, 0, |a|, IsHexDigit);
    RunEndPrefix(a, "x" + b, IsHexDigit);
    RubyHexUnprefixed(v, |a|);
    assert v[..|a|] == a;
  }

  // ---------------------------------------------------------------- entries

  /** One accepted line: the captured name and the captured value text. */
  datatype Entry = Entry(name: string, value: string)

  /** The entry one line of the header yields, if it is accepted. */
  function LineEntry(l: string): Option<Entry>
  {
    match Match(l)
    case None => None
    case Some(d) =>
      var value := l[d.valueStart..d.valueEnd];
      if RubyHex(value) >= 256 then Some(Entry(l[d.nameStart..d.nameEnd], value)) else None
  }

  /**
    A line is accepted exactly when the pattern matches and the value text
    reads as at least 256; the entry's name is `GL_` and name characters,
    its value a non-empty run of value characters.
  */
  lemma LineEntryShape(l: string)
    ensures LineEntry(l).Some? <==> Match(l).Some? && RubyHex(l[Match(l).value.valueStart..Match(l).value.valueEnd]) >= 256
    ensures LineEntry(l).Some? ==> var e := LineEntry(l).value;
              |e.name| > |GL_PREFIX| && e.name[..|GL_PREFIX|] == GL_PREFIX &&
              All(e.name, |GL_PREFIX|, |e.name|, IsNameChar) &&
              |e.value| > 0 && All(e.value, 0, |e.value|, IsValueChar)
  {
    if Match(l).Some? {
      var d := Match(l).value;
      MatchAtSound(l, d.start);
      AllSub(l, d.nameStart, d.nameEnd, d.nameStart + |GL_PREFIX|, d.nameEnd, IsNameChar);
      AllSub(l, d.valueStart, d.valueEnd, d.valueStart, d.valueEnd, IsValueChar);
      assert l[d.nameStart..d.nameEnd][..|GL_PREFIX|] == l[d.nameStart..d.nameStart + |GL_PREFIX|];
    }
  }

  /** The accepted lines' entries, in input order. */
  function Entries(lines: seq<string>): seq<Entry>
  {
    if lines == [] then []
    else
      var e := LineEntry(lines[|lines| - 1]);
      Entries(lines[..|lines| - 1]) + (if e.Some? then [e.value] else [])
  }

  /** Entries keep the order of the lines: those of a file are those of its parts, one after the other. */
  lemma {:induction false} EntriesAppend(a: seq<string>, b: seq<string>)
    ensures Entries(a + b) == Entries(a) + Entries(b)
    decreases |b|
  {
    if b == [] {
      assert a + b == a;
    } else {
      var b', x := b[..|b| - 1], b[|b| - 1];
      assert (a + b)[..|a + b| - 1] == a + b';
      assert (a + b)[|a + b| - 1] == x;
      EntriesAppend(a, b');
    }
  }

  /** An entry comes from some line. */
  lemma {:induction false} EntriesFromLines(lines: seq<string>)
    ensures forall e :: e in Entries(lines) ==> exists i :: 0 <= i < |lines| && LineEntry(lines[i]) == Some(e)
    ensures |Entries(lines)| <= |lines|
    decreases |lines|
  {
    if lines != [] {
      var init, last := lines[..|lines| - 1], lines[|lines| - 1];
      EntriesFromLines(init);
      forall e | e in Entries(lines)
        ensures exists i :: 0 <= i < |lines| && LineEntry(lines[i]) == Some(e)
      {
        if e in Entries(init) {
          var i :| 0 <= i < |init| && LineEntry(init[i]) == Some(e);
          assert lines[i] == init[i];
        } else {
          assert LineEntry(lines[|lines| - 1]) == Some(e);
        }
      }
    }
  }

  /** Every accepted line gives its entry. */
  lemma {:induction false} LinesToEntries(lines: seq<string>, i: nat)
    requires i < |lines|
    requires LineEntry(lines[i]).Some?
    ensures LineEntry(lines[i]).value in Entries(lines)
    decreases |lines|
  {
    if i < |lines| - 1 {
      var init := lines[..|lines| - 1];
      assert init[i] == lines[i];
      LinesToEntries(init, i);
    }
  }

  /** `puts "        m[#{$2}] = \"#{$1}\";"`: the value text verbatim as key, the name as a string literal. */
  function EntryLine(e: Entry): string
  {
    "        m[" + e.value + "] = \"" + e.name + "\";" + ProcessCode.LINE_END
  }

  /** The text an entry line starts with, before the value. */
  const ENTRY_OPEN: string := "        m["

  /** Not a `]`. */
  predicate NotBracket(c: char)
  {
    c != ']'
  }

  /** In an entry line the value text runs up to the first `]`. */
  lemma EntryValueEnd(e: Entry)
    requires All(e.value, 0, |e.value|, IsValueChar)
    ensures RunEnd(EntryLine(e), |ENTRY_OPEN|, NotBracket) == |ENTRY_OPEN| + |e.value|
  {
    var s, o := EntryLine(e), |ENTRY_OPEN|;
    assert s == ENTRY_OPEN + e.value + "] = \"" + e.name + "\";\n";
    AllIff(e.value, 0, |e.value|, IsValueChar);
    assert forall k :: o <= k < o + |e.value| ==> s[k] == e.value[k - o];
    AllIff(s, o, o + |e.value|, NotBracket);
    RunEndAt(s, o, o + |e.value|, NotBracket);
  }

  /**
    Distinct entries give distinct lines: the value text holds no `]`, so
    the first `]` of the line ends it, and the name is what remains.
  */
  lemma EntryLineInjective(e1: Entry, e2: Entry)
    requires All(e1.value, 0, |e1.value|, IsValueChar)
    requires All(e2.value, 0, |e2.value|, IsValueChar)
    requires EntryLine(e1) == EntryLine(e2)
    ensures e1 == e2
  {
    var s, o := EntryLine(e1), |ENTRY_OPEN|;
    EntryValueEnd(e1);
    EntryValueEnd(e2);
    assert s == ENTRY_OPEN + e1.value + "] = \"" + e1.name + "\";\n";
    assert s == ENTRY_OPEN + e2.value + "] = \"" + e2.name + "\";\n";
    assert e1.value == s[o..o + |e1.value|] == e2.value;
    var n := o + |e1.value| + 5;
    assert e1.name == s[n..n + |e1.name|] == e2.name;
  }

  /** The entry lines, one per entry, in order. */
  function EntryLines(es: seq<Entry>): seq<string>
    ensures |EntryLines(es)| == |es|
  {
    if es == [] then [] else EntryLines(es[..|es| - 1]) + [EntryLine(es[|es| - 1])]
  }

  /** The whole output of the script for the lines of `glad.h`. */
  function Generated(lines: seq<string>): string
  {
    PROLOGUE + ProcessCode.Concat(EntryLines(Entries(lines))) + EPILOGUE
  }

  /** The entry lines printed for the first `i` lines of the header. */
  lemma EntryStep(lines: seq<string>, i: nat)
    requires i < |lines|
    ensures ProcessCode.Concat(EntryLines(Entries(lines[..i + 1]))) ==
              ProcessCode.Concat(EntryLines(Entries(lines[..i])))
              + (if LineEntry(lines[i]).Some? then EntryLine(LineEntry(lines[i]).value) else "")
  {
    var es := Entries(lines[..i]);
    assert lines[..i + 1][..i] == lines[..i];
    assert lines[..i + 1][i] == lines[i];
    var e := LineEntry(lines[i]);
    if e.Some? {
      assert Entries(lines[..i + 1]) == es + [e.value];
      assert (es + [e.value])[..|es|] == es;
      ProcessCode.ConcatSnoc(EntryLines(es), EntryLine(e.value));
    } else {
      assert Entries(lines[..i + 1]) == es + [];
      assert es + [] == es;
    }
  }

  /**
    The script: the prologue, then for each line of `glad.h`, in order, the
    entry line of an accepted one, then the epilogue.
  */
  method ExtractEnums(lines: seq<string>) returns (out: string)
    ensures out == Generated(lines)
  {
    out := PROLOGUE;
    var i := 0;
    while i < |lines|
      invariant 0 <= i <= |lines|
      invariant out == PROLOGUE + ProcessCode.Concat(EntryLines(Entries(lines[..i])))
    {
      var l := lines[i];
      EntryStep(lines, i);
      var e := LineEntry(l);
      if e.Some? {
        out := out + EntryLine(e.value);
      }
      ProcessCode.AppendAssoc(PROLOGUE, ProcessCode.Concat(EntryLines(Entries(lines[..i]))),
                              if LineEntry(l).Some? then EntryLine(LineEntry(l).value) else "");
      i := i + 1;
    }
    assert lines[..|lines|] == lines;
    out := out + EPILOGUE;
  }

  // -------------------------------------------------- the generated function

  /** A C++ octal digit. */
  predicate IsOctalDigit(c: char)
  {
    '0' <= c <= '7'
  }

  /** A C++ decimal digit. */
  predicate IsDecimalDigit(c: char)
  {
    '0' <= c <= '9'
  }

  /**
    The value of the C++ integer literal a value text spells (section
    [lex.icon] of the C++ standard): `0x` and hexadecimal digits, `0` and
    octal digits, or a non-zero decimal digit and decimal digits. Other
    texts (a floating literal such as `1e5`, say) are not modelled.
  */
  function CppLiteral(v: string): (r: Option<nat>)
    ensures |v| > 0 && !IsDecimalDigit(v[0]) ==> r.None?
  {
    if |v| > 2 && v[0] == '0' && v[1] == 'x' && (forall k :: 2 <= k < |v| ==> IsHexDigit(v[k])) then
      Some(Utils.ParseDigits(v[2..], 16))
    else if |v| > 0 && v[0] == '0' && (forall k :: 0 <= k < |v| ==> IsOctalDigit(v[k])) then
      Some(Utils.ParseDigits(v, 8))
    else if |v| > 0 && '1' <= v[0] <= '9' && (forall k :: 0 <= k < |v| ==> IsDecimalDigit(v[k])) then
      Some(Utils.ParseDigits(v, 10))
    else None
  }

  /**
    The (key, name) pairs the generated assignments store, in order: the
    key is the literal's value converted to `GLenum`, that is modulo 2^32.
  */
  function Table(es: seq<Entry>): (t: seq<(uint32, string)>)
    ensures |t| <= |es|
  {
    if es == [] then []
    else
      var e := es[|es| - 1];
      var lit := CppLiteral(e.value);
      Table(es[..|es| - 1]) + (if lit.Some? then [(Wrap(lit.value), e.name)] else [])
  }

  /** `m[e]` read through `std::map::operator[]`: a missing key reads as a null pointer (`None`). */
  function Get(m: map<uint32, Option<string>>, k: uint32): Option<string>
  {
    if k in m then m[k] else None
  }

  /** The map after the assignments of `t`, one after the other, from `m`. */
  function Fill(m: map<uint32, Option<string>>, t: seq<(uint32, string)>): map<uint32, Option<string>>
  {
    if t == [] then m else Fill(m, t[..|t| - 1])[t[|t| - 1].0 := Some(t[|t| - 1].1)]
  }

  /** When two assignments share a key, the later one wins: the name stored is that of the last one. */
  lemma {:induction false} FillLaterWins(m: map<uint32, Option<string>>, t: seq<(uint32, string)>, i: nat)
    requires i < |t|
    requires forall j :: i < j < |t| ==> t[j].0 != t[i].0
    ensures Get(Fill(m, t), t[i].0) == Some(t[i].1)
    decreases |t|
  {
    if i < |t| - 1 {
      var init := t[..|t| - 1];
      assert forall j :: i < j < |init| ==> init[j] == t[j];
      FillLaterWins(m, init, i);
    }
  }

  /** A key no assignment names keeps what it had (a null pointer for the empty map). */
  lemma {:induction false} FillElsewhere(m: map<uint32, Option<string>>, t: seq<(uint32, string)>, k: uint32)
    requires forall j :: 0 <= j < |t| ==> t[j].0 != k
    ensures Get(Fill(m, t), k) == Get(m, k)
    decreases |t|
  {
    if t != [] {
      var init := t[..|t| - 1];
      assert forall j :: 0 <= j < |init| ==> init[j] == t[j];
      FillElsewhere(m, init, k);
    }
  }

  /** The answer of `GLEnumToString` for value `e` once the map reads `found` for it. */
  function Answer(found: Option<string>, e: uint32): string
  {
    if found.Some? then found.value else "0x" + Utils.HexDigits(e)
  }

  /** The statics of the generated `GLEnumToString`, for the table its assignments spell. */
  class EnumNames {
    /** the (key, name) pairs of the generated assignments */
    const table: seq<(uint32, string)>
    /** `static bool inited` */
    var inited: bool
    /** `static EnumStrMap m` */
    var m: map<uint32, Option<string>>

    /** Before the first call: not filled, map empty. */
    ghost predicate Valid()
      reads this
    {
      (!inited ==> m == map[]) &&
      (inited ==> forall k :: Get(m, k) == Get(Fill(map[], table), k))
    }

    /** Program start: `inited` is false and the map is empty. */
    constructor (table: seq<(uint32, string)>)
      ensures this.table == table
      ensures !inited && m == map[]
      ensures Valid()
    {
      this.table := table;
      inited := false;
      m := map[];
    }

    /** The assignments of the `if (!inited)` block, one after the other. */
    method Populate()
      modifies this`m
      ensures m == Fill(old(m), table)
    {
      var i := 0;
      while i < |table|
        invariant 0 <= i <= |table|
        invariant m == Fill(old(m), table[..i])
      {
        assert table[..i + 1][..i] == table[..i];
        m := m[table[i].0 := Some(table[i].1)];
        i := i + 1;
      }
      assert table[..|table|] == table;
    }

    /**
      `GLEnumToString(e)`: fills the map on the first call only, then reads
      `m[e]` (which inserts a null entry for a missing key) and answers the
      stored name or the `0x%X` fallback.
    */
    method ToString(e: uint32) returns (s: string)
      requires Valid()
      modifies this`inited, this`m
      ensures inited && Valid()
      ensures s == Answer(Get(Fill(map[], table), e), e)
      ensures var filled := if old(inited) then old(m) else Fill(old(m), table);
              m == filled[e := Get(filled, e)]
    {
      if !inited {
        inited := true;
        Populate();
      }
      var str := Get(m, e);
      m := m[e := str];
      if str.None? {
        s := "0x" + Utils.HexDigits(e);
      } else {
        s := str.value;
      }
    }
  }

  /** `0x0100` spells 256 as a C++ literal. */
  lemma HexLiteral256()
    ensures CppLiteral("0x0100") == Some(256)
  {
    var v := "0x0100";
    assert v[2..] == "0100";
    assert "0100"[..3] == "010" && "010"[..2] == "01" && "01"[..1] == "0";
    assert Utils.ParseDigits("01", 16) == 1;
  }

  /** Two entries with the same value text make two assignments to one key. */
  lemma SharedValueTable()
    ensures Table([Entry("GL_FIRST", "0x0100"), Entry("GL_LATER", "0x0100")]) == [(256, "GL_FIRST"), (256, "GL_LATER")]
  {
    var es := [Entry("GL_FIRST", "0x0100"), Entry("GL_LATER", "0x0100")];
    HexLiteral256();
    assert es[..1] == [Entry("GL_FIRST", "0x0100")];
    assert es[..1][..0] == [];
  }

  /**
    Two lines with the same value text: the later name wins, and a value
    no line names falls back to its hexadecimal digits.
  */
  method LaterNameWins() returns (shared: string, other: string, again: string)
    ensures shared == "GL_LATER"
    ensures other == "0x5"
    ensures again == "GL_LATER"
  {
    var t := Table([Entry("GL_FIRST", "0x0100"), Entry("GL_LATER", "0x0100")]);
    SharedValueTable();
    var names := new EnumNames(t);
    FillLaterWins(map[], t, 1);
    FillElsewhere(map[], t, 5);
    shared := names.ToString(256);
    other := names.ToString(5);
    again := names.ToString(256);
  }

  /** The text `100`: `to_i(16)` reads 256, the C++ literal is 100. */
  lemma HundredReadings()
    ensures RubyHex("100") == 256
    ensures CppLiteral("100") == Some(100)
  {
    var v := "100";
    assert All(v, 2, 3, IsHexDigit) && All(v, 1, 3, IsHexDigit) && All(v, 0, 3, IsHexDigit);
    RunEndAt(v, 0, 3, IsHexDigit);
    assert v[..3] == v && v[..2] == "10" && "10"[..1] == "1";
    assert Utils.ParseDigits("10", 16) == 16;
    assert Utils.ParseDigits("10", 10) == 10;
  }

  /** The positions of the one match in `#define GL_X 100`. */
  lemma HundredLineCaptures()
    ensures Captures("#define GL_X 100\n", Define(0, 8, 12, 13, 16))
  {
    var l := "#define GL_X 100\n";
    assert l[0..7] == DEFINE;
    assert l[8..11] == GL_PREFIX;
    assert All(l, 15, 16, IsValueChar) && All(l, 14, 16, IsValueChar);
  }

  /**
    The filter and the key read the value text differently: `100` passes
    the filter as hexadecimal 0x100, but the generated key is decimal 100.
  */
  lemma DecimalTextKey()
    ensures LineEntry("#define GL_X 100\n") == Some(Entry("GL_X", "100"))
    ensures CppLiteral("100") == Some(100)
  {
    var l := "#define GL_X 100\n";
    HundredLineCaptures();
    MatchIsLeftmost(l, Define(0, 8, 12, 13, 16));
    assert l[13..16] == "100" && l[8..12] == "GL_X";
    HundredReadings();
  }
}
