/**
 * The string primitives the paragraph extractor relies on, written out as
 * Python defines them: `str.isspace`, `str.strip()`, `len(s.split())`,
 * `' '.join(...)`, and the four-step clean-up of a page's raw text
 * (strip, drop non-ASCII, collapse newline runs, collapse whitespace runs).
 */
module Text {

  /** Python's `str.isspace()` (and the regex class `\s` on `str` patterns):
      the ASCII controls \t \n \v \f \r, the separators \x1c-\x1f, the space,
      and the Unicode spaces Python also treats as whitespace. */
  predicate IsSpace(c: char) {
    var n := c as int;
    (9 <= n <= 13) || (28 <= n <= 32) || n == 0x85 || n == 0xA0 || n == 0x1680
    || (0x2000 <= n <= 0x200A) || n == 0x2028 || n == 0x2029 || n == 0x202F
    || n == 0x205F || n == 0x3000
  }

  predicate IsNewline(c: char) { c == '\n' }

  predicate IsAscii(s: string) {
    forall i :: 0 <= i < |s| ==> s[i] as int < 128
  }

  /** No two neighbouring characters are both whitespace. */
  predicate NoDoubleSpace(s: string) {
    forall i :: 0 < i < |s| ==> !(IsSpace(s[i - 1]) && IsSpace(s[i]))
  }

  predicate AllSpace(s: string) {
    forall i :: 0 <= i < |s| ==> IsSpace(s[i])
  }

  // ---------------------------------------------------------------------
  // str.strip()

  /** `s.lstrip()`. */
  function StripLeft(s: string): (r: string)
    ensures |r| <= |s|
  {
    if s != [] && IsSpace(s[0]) then StripLeft(s[1..]) else s
  }

  /** `s.rstrip()`. */
  function StripRight(s: string): (r: string)
    ensures |r| <= |s|
  {
    if s != [] && IsSpace(s[|s| - 1]) then StripRight(s[..|s| - 1]) else s
  }

  /** `s.strip()`. */
  function Strip(s: string): string {
    StripRight(StripLeft(s))
  }

  /** `lstrip` keeps a suffix that does not start with whitespace and cuts off
      only whitespace. */
  lemma {:induction false} StripLeftShape(s: string)
    ensures var r := StripLeft(s);
      r == s[|s| - |r|..] && AllSpace(s[..|s| - |r|]) && (r == [] || !IsSpace(r[0]))
  {
    if s != [] && IsSpace(s[0]) {
      StripLeftShape(s[1..]);
    }
  }

  /** `rstrip` keeps a prefix that does not end with whitespace and cuts off
      only whitespace. */
  lemma {:induction false} StripRightShape(s: string)
    ensures var r := StripRight(s);
      r == s[..|r|] && AllSpace(s[|r|..]) && (r == [] || !IsSpace(r[|r| - 1]))
  {
    if s != [] && IsSpace(s[|s| - 1]) {
      StripRightShape(s[..|s| - 1]);
    }
  }

  /** `strip` keeps the middle part `s[a..b]` of `s`, which neither starts nor
      ends with whitespace, and everything it cuts off on either side is
      whitespace. */
  lemma StripShape(s: string)
    ensures exists a, b ::
              && 0 <= a <= b <= |s| && Strip(s) == s[a..b]
              && AllSpace(s[..a]) && AllSpace(s[b..])
    ensures Strip(s) == [] || (!IsSpace(Strip(s)[0]) && !IsSpace(Strip(s)[|Strip(s)| - 1]))
  {
    var l := StripLeft(s);
    var r := StripRight(l);
    StripLeftShape(s);
    StripRightShape(l);
    var a := |s| - |l|;
    var b := a + |r|;
    assert Strip(s) == r;
    assert r == s[a..b] by {
      assert l == s[a..];
      assert r == l[..|r|];
    }
    assert AllSpace(s[b..]) by {
      assert s[b..] == l[|r|..];
    }
  }

  /** Stripping twice is stripping once. */
  lemma StripIdempotent(s: string)
    ensures Strip(Strip(s)) == Strip(s)
  {
    var t := Strip(s);
    StripShape(s);
    assert StripLeft(t) == t;
    assert StripRight(t) == t;
  }

  // ---------------------------------------------------------------------
  // len(s.split())

  /** Number of whitespace-delimited words of `s`, where `afterSpace` says
      whether the character before `s` was whitespace (or `s` starts the text). */
  function CountWords(s: string, afterSpace: bool): nat {
    if s == [] then 0
    else (if afterSpace && !IsSpace(s[0]) then 1 else 0) + CountWords(s[1..], IsSpace(s[0]))
  }

  /** `len(s.split())`. */
  function WordCount(s: string): nat {
    CountWords(s, true)
  }

  lemma {:induction false} CountWordsAppend(a: string, b: string, afterSpace: bool)
    ensures CountWords(a + b, afterSpace)
         == CountWords(a, afterSpace) + CountWords(b, if a == [] then afterSpace else IsSpace(a[|a| - 1]))
  {
    if a != [] {
      assert (a + b)[1..] == a[1..] + b;
      CountWordsAppend(a[1..], b, IsSpace(a[0]));
    } else {
      assert a + b == b;
    }
  }

  lemma {:induction false} CountWordsOfSpaces(s: string, afterSpace: bool)
    requires AllSpace(s)
    ensures CountWords(s, afterSpace) == 0
  {
    if s != [] {
      CountWordsOfSpaces(s[1..], IsSpace(s[0]));
    }
  }

  /** Whitespace in front of a word does not change the count when the word
      is already preceded by whitespace. */
  lemma SpacesThenText(sp: string, t: string)
    requires AllSpace(sp)
    ensures CountWords(sp + t, true) == CountWords(t, true)
  {
    CountWordsAppend(sp, t, true);
    CountWordsOfSpaces(sp, true);
  }

  /** Two texts joined by one space have the words of both. */
  lemma JoinTwoWordCount(a: string, b: string)
    ensures WordCount(a + " " + b) == WordCount(a) + WordCount(b)
  {
    assert a + " " + b == a + (" " + b);
    CountWordsAppend(a, " " + b, true);
    assert (" " + b)[1..] == b;
    CountWordsAppend(" ", b, if a == [] then true else IsSpace(a[|a| - 1]));
  }

  lemma {:induction false} StripLeftWordCount(s: string)
    ensures WordCount(StripLeft(s)) == WordCount(s)
  {
    if s != [] && IsSpace(s[0]) {
      StripLeftWordCount(s[1..]);
    }
  }

  lemma {:induction false} StripRightWordCount(s: string)
    ensures WordCount(StripRight(s)) == WordCount(s)
  {
    if s != [] && IsSpace(s[|s| - 1]) {
      var init := s[..|s| - 1];
      StripRightWordCount(init);
      assert s == init + [s[|s| - 1]];
      CountWordsAppend(init, [s[|s| - 1]], true);
    }
  }

  /** Stripping never changes how many words a text has. */
  lemma StripWordCount(s: string)
    ensures WordCount(Strip(s)) == WordCount(s)
  {
    StripLeftWordCount(s);
    StripRightWordCount(StripLeft(s));
  }

  // ---------------------------------------------------------------------
  // ' '.join(lines)

  function Join(lines: seq<string>): string {
    if lines == [] then ""
    else if |lines| == 1 then lines[0]
    else lines[0] + " " + Join(lines[1..])
  }

  function SumWords(lines: seq<string>): nat {
    if lines == [] then 0 else WordCount(lines[0]) + SumWords(lines[1..])
  }

  function SumLengths(lines: seq<string>): nat {
    if lines == [] then 0 else |lines[0]| + SumLengths(lines[1..])
  }

  /** The words of a joined text are the words of its parts. */
  lemma {:induction false} JoinWordCount(lines: seq<string>)
    ensures WordCount(Join(lines)) == SumWords(lines)
  {
    if |lines| == 1 {
      assert lines[1..] == [];
    } else if |lines| > 1 {
      JoinTwoWordCount(lines[0], Join(lines[1..]));
      JoinWordCount(lines[1..]);
    }
  }

  /** A joined text is its parts plus one separator between each pair. */
  lemma {:induction false} JoinLength(lines: seq<string>)
    ensures lines == [] ==> |Join(lines)| == 0
    ensures lines != [] ==> |Join(lines)| == SumLengths(lines) + |lines| - 1
  {
    if |lines| == 1 {
      assert lines[1..] == [];
    } else if |lines| > 1 {
      JoinLength(lines[1..]);
    }
  }

  lemma {:induction false} SumWordsAppend(a: seq<string>, b: seq<string>)
    ensures SumWords(a + b) == SumWords(a) + SumWords(b)
    ensures SumLengths(a + b) == SumLengths(a) + SumLengths(b)
  {
    if a != [] {
      assert (a + b)[1..] == a[1..] + b;
      SumWordsAppend(a[1..], b);
    } else {
      assert a + b == b;
    }
  }

  // ---------------------------------------------------------------------
  // The page clean-up: re.sub over character classes

  /** `re.sub(r'[^\x00-\x7F]+', '', s)`: every character above 127 removed. */
  function DropNonAscii(s: string): (r: string)
    ensures |r| <= |s|
    ensures IsAscii(r)
  {
    if s == [] then []
    else if s[0] as int < 128 then [s[0]] + DropNonAscii(s[1..])
    else DropNonAscii(s[1..])
  }

  /** The rest of `s` after its leading run of `p`-characters. */
  function SkipRun(s: string, p: char -> bool): (r: string)
    ensures |r| <= |s| && r == s[|s| - |r|..]
    ensures forall i :: 0 <= i < |s| - |r| ==> p(s[i])
    ensures r == [] || !p(r[0])
  {
    if s != [] && p(s[0]) then SkipRun(s[1..], p) else s
  }

  /** `re.sub('[…]+', ' ', s)` for the character class `p`: each maximal run
      of `p`-characters becomes one space. */
  function ReplaceRuns(s: string, p: char -> bool): string
    decreases |s|
  {
    if s == [] then []
    else if p(s[0]) then " " + ReplaceRuns(SkipRun(s[1..], p), p)
    else [s[0]] + ReplaceRuns(s[1..], p)
  }

  /** The page clean-up, in order: strip, drop non-ASCII, collapse newline
      runs, collapse whitespace runs. */
  function Normalize(raw: string): string {
    ReplaceRuns(ReplaceRuns(DropNonAscii(Strip(raw)), IsNewline), IsSpace)
  }

  /** Every character of a run-replaced text is the inserted space or a
      character of the input that is not in the class. */
  lemma {:induction false} ReplaceRunsChars(s: string, p: char -> bool)
    ensures forall i :: 0 <= i < |ReplaceRuns(s, p)| ==>
      ReplaceRuns(s, p)[i] == ' ' || (ReplaceRuns(s, p)[i] in s && !p(ReplaceRuns(s, p)[i]))
    decreases |s|
  {
    if s != [] {
      if p(s[0]) {
        var t := SkipRun(s[1..], p);
        ReplaceRunsChars(t, p);
        assert forall c :: c in t ==> c in s;
      } else {
        ReplaceRunsChars(s[1..], p);
      }
    }
  }

  /** A text that does not start with a class character keeps its first
      character in front after run replacement. */
  lemma ReplaceRunsHead(s: string, p: char -> bool)
    requires s != [] && !p(s[0])
    ensures ReplaceRuns(s, p) != [] && ReplaceRuns(s, p)[0] == s[0]
  {
  }

  /** After replacing every whitespace run, no two whitespace characters meet. */
  lemma {:induction false} CollapsedHasNoDoubleSpace(s: string)
    ensures NoDoubleSpace(ReplaceRuns(s, IsSpace))
    decreases |s|
  {
    var r := ReplaceRuns(s, IsSpace);
    if s != [] {
      if IsSpace(s[0]) {
        var t := SkipRun(s[1..], IsSpace);
        CollapsedHasNoDoubleSpace(t);
        if t != [] {
          ReplaceRunsHead(t, IsSpace);
        }
        assert r == " " + ReplaceRuns(t, IsSpace);
      } else {
        CollapsedHasNoDoubleSpace(s[1..]);
        assert r == [s[0]] + ReplaceRuns(s[1..], IsSpace);
      }
    }
  }

  lemma {:induction false} SkipRunWordCount(s: string, p: char -> bool)
    requires forall c :: p(c) ==> IsSpace(c)
    ensures CountWords(SkipRun(s, p), true) == CountWords(s, true)
  {
    if s != [] && p(s[0]) {
      SkipRunWordCount(s[1..], p);
    }
  }

  /** Replacing runs of whitespace characters by one space keeps the words. */
  lemma {:induction false} ReplaceRunsWordCount(s: string, p: char -> bool, afterSpace: bool)
    requires forall c :: p(c) ==> IsSpace(c)
    ensures CountWords(ReplaceRuns(s, p), afterSpace) == CountWords(s, afterSpace)
    decreases |s|
  {
    if s != [] {
      var r := ReplaceRuns(s, p);
      if p(s[0]) {
        var t := SkipRun(s[1..], p);
        SkipRunWordCount(s[1..], p);
        ReplaceRunsWordCount(t, p, true);
        assert r == " " + ReplaceRuns(t, p);
        assert r[1..] == ReplaceRuns(t, p);
      } else {
        ReplaceRunsWordCount(s[1..], p, IsSpace(s[0]));
        assert r == [s[0]] + ReplaceRuns(s[1..], p);
        assert r[1..] == ReplaceRuns(s[1..], p);
      }
    }
  }

  /** The normalised page text has no character above 127, no two adjacent
      whitespace characters, no whitespace other than the plain space, and the
      same number of words as the page's ASCII characters. */
  lemma NormalizeShape(raw: string)
    ensures IsAscii(Normalize(raw))
    ensures NoDoubleSpace(Normalize(raw))
    ensures forall i :: 0 <= i < |Normalize(raw)| && IsSpace(Normalize(raw)[i]) ==> Normalize(raw)[i] == ' '
    ensures WordCount(Normalize(raw)) == WordCount(DropNonAscii(raw))
  {
    var a := DropNonAscii(Strip(raw));
    var b := ReplaceRuns(a, IsNewline);
    var r := ReplaceRuns(b, IsSpace);
    ReplaceRunsChars(a, IsNewline);
    ReplaceRunsChars(b, IsSpace);
    forall i | 0 <= i < |r| ensures r[i] as int < 128 {
      if r[i] != ' ' {
        assert r[i] in b;
        var j :| 0 <= j < |b| && b[j] == r[i];
        if b[j] != ' ' {
          assert b[j] in a;
        }
      }
    }
    CollapsedHasNoDoubleSpace(b);
    ReplaceRunsWordCount(a, IsNewline, true);
    ReplaceRunsWordCount(b, IsSpace, true);
    DropStripWordCount(raw);
  }

  /** Stripping before dropping non-ASCII characters does not change the
      number of words that remain. */
  lemma DropStripWordCount(raw: string)
    ensures WordCount(DropNonAscii(Strip(raw))) == WordCount(DropNonAscii(raw))
  {
    var l := StripLeft(raw);
    var m := StripRight(l);
    StripLeftShape(raw);
    StripRightShape(l);
    assert raw == raw[..|raw| - |l|] + l;
    assert l == m + l[|m|..];
    DropAppend(raw[..|raw| - |l|], l);
    DropAppend(m, l[|m|..]);
    DropKeepsSpaces(raw[..|raw| - |l|]);
    DropKeepsSpaces(l[|m|..]);
    var lead := DropNonAscii(raw[..|raw| - |l|]);
    var trail := DropNonAscii(l[|m|..]);
    SpacesThenText(lead, DropNonAscii(l));
    CountWordsAppend(DropNonAscii(m), trail, true);
    CountWordsOfSpaces(trail, if DropNonAscii(m) == [] then true else IsSpace(DropNonAscii(m)[|DropNonAscii(m)| - 1]));
  }

  lemma {:induction false} DropAppend(a: string, b: string)
    ensures DropNonAscii(a + b) == DropNonAscii(a) + DropNonAscii(b)
  {
    if a != [] {
      assert (a + b)[1..] == a[1..] + b;
      DropAppend(a[1..], b);
    } else {
      assert a + b == b;
    }
  }

  lemma {:induction false} DropKeepsSpaces(s: string)
    requires AllSpace(s)
    ensures AllSpace(DropNonAscii(s))
  {
    if s != [] {
      DropKeepsSpaces(s[1..]);
    }
  }
}
