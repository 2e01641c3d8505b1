/**
 * The two path helpers of the utilities class: `get_path`, which removes a
 * path's base name from it, and `change_extension`, which swaps a file's
 * extension for another. Both are single `str.replace` calls, so both act
 * on every occurrence of the replaced text anywhere in the path, not only
 * on its end; that is what the lemmas below pin down.
 *
 * `basename` and `splitext` follow the POSIX flavour of the Python path
 * library (separator '/', extension separator '.').
 */
module PathUtils {

  /** The index of the last `c` in `s`, or -1 when there is none (`str.rfind`). */
  function LastIndex(s: string, c: char): (r: int)
    ensures -1 <= r < |s|
    ensures r >= 0 ==> s[r] == c
    ensures forall i :: r < i < |s| ==> s[i] != c
    decreases |s|
  {
    if s == [] then -1
    else if s[|s| - 1] == c then |s| - 1
    else LastIndex(s[..|s| - 1], c)
  }

  /** The contract of `LastIndex` pins it down. */
  lemma LastIndexIs(s: string, c: char, k: int)
    requires k == -1 || (0 <= k < |s| && s[k] == c)
    requires forall i :: k < i < |s| ==> s[i] != c
    ensures LastIndex(s, c) == k
  {
  }

  /** `os.path.basename`: the text after the last '/', or all of `p`. */
  function Basename(p: string): string {
    p[LastIndex(p, '/') + 1..]
  }

  /** `os.path.splitext(p)[1]`: from the last '.' on, provided that dot comes
      after the last '/' and some character other than '.' lies between the
      two (so ".bashrc" and "..x" have no extension); otherwise empty. */
  function Extension(p: string): string {
    var sep := LastIndex(p, '/');
    var dot := LastIndex(p, '.');
    if dot > sep && exists i :: sep < i < dot && p[i] != '.' then p[dot..] else []
  }

  /** Python's `s.replace(needle, repl)`: every occurrence of `needle`, scanned from
      the left without overlaps, is replaced by `repl`; an empty `needle` puts
      `repl` before every character and once more at the end. */
  function Replace(s: string, needle: string, repl: string): string
    decreases |s|
  {
    if needle == [] then
      if s == [] then repl else repl + [s[0]] + Replace(s[1..], needle, repl)
    else if |s| < |needle| then s
    else if s[..|needle|] == needle then repl + Replace(s[|needle|..], needle, repl)
    else [s[0]] + Replace(s[1..], needle, repl)
  }

  /** `WattleUtils.get_path` (and the same expression in `make_dir`): the
      path with every occurrence of its base name removed. */
  function GetPath(p: string): string {
    Replace(p, Basename(p), [])
  }

  /** `WattleUtils.change_extension`: every occurrence of the path's
      extension replaced by `ext`. */
  function ChangeExtension(p: string, ext: string): string {
    Replace(p, Extension(Basename(p)), ext)
  }

  // ---------------------------------------------------------------------
  // What the path pieces are

  /** The base name is the suffix of the path after its last '/': it holds
      no '/', and it is either the whole path or preceded by a '/'. */
  lemma BasenameShape(p: string)
    ensures var b := Basename(p);
      && b == p[|p| - |b|..]
      && '/' !in b
      && (|b| == |p| || p[|p| - |b| - 1] == '/')
  {
    var b := Basename(p);
    forall i | 0 <= i < |b| ensures b[i] != '/' {
      assert b[i] == p[LastIndex(p, '/') + 1 + i];
    }
  }

  /** A non-empty extension starts at a '.' of the path and holds no other
      '.' and no '/'; a character other than '.' lies between it and the
      last '/' (or the start). */
  lemma ExtensionShape(p: string)
    ensures var e := Extension(p);
      e != [] ==>
        && e == p[|p| - |e|..]
        && e[0] == '.'
        && (forall i :: 1 <= i < |e| ==> e[i] != '.' && e[i] != '/')
        && (exists i :: LastIndex(p, '/') < i < |p| - |e| && p[i] != '.')
  {
    var e := Extension(p);
    if e != [] {
      var dot := LastIndex(p, '.');
      var sep := LastIndex(p, '/');
      forall i | 1 <= i < |e| ensures e[i] != '.' && e[i] != '/' {
        assert e[i] == p[dot + i];
      }
    }
  }

  /** There is no extension exactly when the path has no '.' after its last
      '/', or only dots lie between that '/' (or the start) and the last '.'. */
  lemma NoExtension(p: string)
    ensures Extension(p) == [] <==>
      var sep := LastIndex(p, '/');
      var dot := LastIndex(p, '.');
      dot <= sep || forall i :: sep < i < dot ==> p[i] == '.'
  {
  }

  // ---------------------------------------------------------------------
  // str.replace

  /** Replacing a text by itself changes nothing. */
  lemma {:induction false} ReplaceSelf(s: string, needle: string)
    ensures Replace(s, needle, needle) == s
    decreases |s|
  {
    if needle == [] {
      if s != [] {
        ReplaceSelf(s[1..], needle);
      }
    } else if |s| < |needle| {
    } else if s[..|needle|] == needle {
      ReplaceSelf(s[|needle|..], needle);
      assert s == s[..|needle|] + s[|needle|..];
    } else {
      ReplaceSelf(s[1..], needle);
      assert s == [s[0]] + s[1..];
    }
  }

  /** An empty needle puts `repl` into each of the `|s| + 1` gaps. */
  lemma {:induction false} ReplaceEmptyLength(s: string, repl: string)
    ensures |Replace(s, [], repl)| == |s| + (|s| + 1) * |repl|
    decreases |s|
  {
    if s != [] {
      ReplaceEmptyLength(s[1..], repl);
      calc {
        |Replace(s, [], repl)|;
      ==
        |repl| + 1 + |Replace(s[1..], [], repl)|;
      ==
        |repl| + 1 + (|s| - 1) + |s| * |repl|;
      ==
        |s| + (|s| + 1) * |repl|;
      }
    }
  }

  /** Removing occurrences never makes a text longer. */
  lemma {:induction false} ReplaceByNothingShrinks(s: string, needle: string)
    ensures |Replace(s, needle, [])| <= |s|
    decreases |s|
  {
    if needle == [] {
      if s != [] {
        ReplaceByNothingShrinks(s[1..], needle);
      }
    } else if |s| < |needle| {
    } else if s[..|needle|] == needle {
      ReplaceByNothingShrinks(s[|needle|..], needle);
    } else {
      ReplaceByNothingShrinks(s[1..], needle);
    }
  }

  /** `needle` occurs in `s` at index `i`. */
  predicate OccursAt(s: string, needle: string, i: int) {
    0 <= i && i + |needle| <= |s| && s[i..i + |needle|] == needle
  }

  /** No occurrence of `needle` in `x + y` starts inside `x` and ends inside `y`. */
  predicate NoStraddle(x: string, y: string, needle: string) {
    forall i :: 0 <= i < |x| < i + |needle| ==> !OccursAt(x + y, needle, i)
  }

  lemma NoStraddleShift(x: string, y: string, needle: string, k: nat)
    requires k <= |x| && NoStraddle(x, y, needle)
    ensures NoStraddle(x[k..], y, needle)
  {
    forall i | 0 <= i < |x[k..]| < i + |needle|
      ensures !OccursAt(x[k..] + y, needle, i)
    {
      if i + |needle| <= |x[k..] + y| {
        assert (x[k..] + y)[i..i + |needle|] == (x + y)[k + i..k + i + |needle|];
        assert !OccursAt(x + y, needle, k + i);
      }
    }
  }

  /** When no occurrence straddles the boundary, replacing in `x + y` is
      replacing in `x` and in `y` separately. */
  lemma {:induction false} ReplaceConcat(x: string, y: string, needle: string, repl: string)
    requires needle != [] && NoStraddle(x, y, needle)
    ensures Replace(x + y, needle, repl) == Replace(x, needle, repl) + Replace(y, needle, repl)
    decreases |x|, 1
  {
    var s := x + y;
    if x == [] {
      assert s == y;
    } else if |s| < |needle| {
    } else if s[..|needle|] == needle {
      ReplaceConcatAtMatch(x, y, needle, repl);
    } else {
      ReplaceConcatPastChar(x, y, needle, repl);
    }
  }

  /** `ReplaceConcat` when the scan finds `needle` at the start of `x + y`:
      the occurrence lies inside `x`. */
  lemma {:induction false} ReplaceConcatAtMatch(x: string, y: string, needle: string, repl: string)
    requires needle != [] && NoStraddle(x, y, needle) && x != []
    requires |x + y| >= |needle| && (x + y)[..|needle|] == needle
    ensures Replace(x + y, needle, repl) == Replace(x, needle, repl) + Replace(y, needle, repl)
    decreases |x|, 0
  {
    var s := x + y;
    assert OccursAt(s, needle, 0);
    assert |needle| <= |x|;
    var rest := x[|needle|..];
    assert s[|needle|..] == rest + y;
    NoStraddleShift(x, y, needle, |needle|);
    calc {
      Replace(s, needle, repl);
    ==
      repl + Replace(rest + y, needle, repl);
    == { ReplaceConcat(rest, y, needle, repl); }
      repl + (Replace(rest, needle, repl) + Replace(y, needle, repl));
    ==
      (repl + Replace(rest, needle, repl)) + Replace(y, needle, repl);
    == { assert x[..|needle|] == s[..|needle|]; }
      Replace(x, needle, repl) + Replace(y, needle, repl);
    }
  }

  /** `ReplaceConcat` when the scan moves past the first character of `x`. */
  lemma {:induction false} ReplaceConcatPastChar(x: string, y: string, needle: string, repl: string)
    requires needle != [] && NoStraddle(x, y, needle) && x != []
    requires |x + y| >= |needle| && (x + y)[..|needle|] != needle
    ensures Replace(x + y, needle, repl) == Replace(x, needle, repl) + Replace(y, needle, repl)
    decreases |x|, 0
  {
    var s := x + y;
    assert |x| < |needle| || x[..|needle|] != needle by {
      if |x| >= |needle| {
        assert x[..|needle|] == s[..|needle|];
      }
    }
    ReplacePastChar(x, needle, repl);
    calc {
      Replace(s, needle, repl);
    == { assert s[1..] == x[1..] + y; }
      [x[0]] + Replace(x[1..] + y, needle, repl);
    == { NoStraddleShift(x, y, needle, 1); ReplaceConcat(x[1..], y, needle, repl); }
      [x[0]] + (Replace(x[1..], needle, repl) + Replace(y, needle, repl));
    ==
      ([x[0]] + Replace(x[1..], needle, repl)) + Replace(y, needle, repl);
    }
  }

  /** Where `needle` starts a text, the scan replaces it and goes on after it. */
  lemma ReplaceAtMatch(x: string, needle: string, repl: string)
    requires needle != [] && |x| >= |needle| && x[..|needle|] == needle
    ensures Replace(x, needle, repl) == repl + Replace(x[|needle|..], needle, repl)
  {
  }

  /** Where `needle` does not start a text, the scan keeps its first
      character and goes on with the rest. */
  lemma ReplacePastChar(x: string, needle: string, repl: string)
    requires needle != [] && x != []
    requires |x| < |needle| || x[..|needle|] != needle
    ensures Replace(x, needle, repl) == [x[0]] + Replace(x[1..], needle, repl)
  {
    if |x| < |needle| {
      assert x == [x[0]] + x[1..];
    }
  }

  /** Text without `c` cannot overlap a text that ends in `c` and then go on:
      a needle without '/' never straddles a '/'-terminated prefix. */
  lemma NoStraddleAfter(x: string, y: string, needle: string, c: char)
    requires x != [] && x[|x| - 1] == c && c !in needle
    ensures NoStraddle(x, y, needle)
  {
    forall i | 0 <= i < |x| < i + |needle|
      ensures !OccursAt(x + y, needle, i)
    {
      if i + |needle| <= |x + y| {
        assert (x + y)[i..i + |needle|][|x| - 1 - i] == c;
      }
    }
  }

  /** A needle whose first character occurs nowhere else in it does not
      straddle the boundary before an occurrence of itself. */
  lemma NoStraddleBefore(x: string, needle: string)
    requires needle != [] && forall i :: 1 <= i < |needle| ==> needle[i] != needle[0]
    ensures NoStraddle(x, needle, needle)
  {
    forall i | 0 <= i < |x| < i + |needle|
      ensures !OccursAt(x + needle, needle, i)
    {
      if i + |needle| <= |x + needle| {
        assert (x + needle)[i..i + |needle|][|x| - i] == needle[0];
      }
    }
  }

  // ---------------------------------------------------------------------
  // get_path

  /** A path without '/' is all base name, and nothing is left of it. */
  lemma GetPathNoSlash(p: string)
    requires '/' !in p
    ensures GetPath(p) == []
  {
    assert LastIndex(p, '/') == -1;
    assert Basename(p) == p[0..];
    assert p[0..] == p;
    if p != [] {
      assert p[..|p|] == p;
      assert Replace(p, p, []) == [] + Replace(p[|p|..], p, []);
    }
  }

  /** A path ending in '/' has an empty base name, and `get_path` returns it
      unchanged. */
  lemma GetPathOfDirectory(p: string)
    requires p != [] && p[|p| - 1] == '/'
    ensures Basename(p) == [] && GetPath(p) == p
  {
    ReplaceSelf(p, []);
  }

  /** For a path `d + b` whose base name `b` follows a '/', `get_path` removes
      the final `b` and every occurrence of `b` in the directory part `d`,
      leaving the final '/'. */
  lemma GetPathSplit(p: string)
    requires '/' in p && p[|p| - 1] != '/'
    ensures var b := Basename(p);
      var d := p[..|p| - |b|];
      && b != [] && d != [] && d[|d| - 1] == '/'
      && GetPath(p) == Replace(d, b, [])
  {
    var b := Basename(p);
    BasenameShape(p);
    var d := p[..|p| - |b|];
    var k := LastIndex(p, '/');
    assert p[k] == '/';
    assert b != [];
    assert |b| != |p|;
    assert p == d + b;
    NoStraddleAfter(d, b, b, '/');
    ReplaceConcat(d, b, b, []);
    ReplaceSelf(b, b);
    assert Replace(b, b, []) == [] + Replace(b[|b|..], b, []);
  }

  /** `get_path` never lengthens a path. */
  lemma GetPathShorter(p: string)
    ensures |GetPath(p)| <= |p|
  {
    ReplaceByNothingShrinks(p, Basename(p));
  }

  /** An occurrence of the base name in the directory part is removed too. */
  lemma GetPathRepeatedName()
    ensures GetPath("a/b/b") == "a//"
  {
    var p := "a/b/b";
    GetPathSplit(p);
    LastIndexIs(p, '/', 3);
    assert Basename(p) == "b";
    assert p[..4] == "a/b/";
    ReplacePastChar("a/b/", "b", []);
    ReplacePastChar("/b/", "b", []);
    ReplaceAtMatch("b/", "b", []);
  }

  // ---------------------------------------------------------------------
  // change_extension

  /** Changing a path's extension to the one it has changes nothing. */
  lemma ChangeToSameExtension(p: string)
    ensures ChangeExtension(p, Extension(Basename(p))) == p
  {
    ReplaceSelf(p, Extension(Basename(p)));
  }

  /** A file without extension gets `ext` inserted into every gap of its
      path. */
  lemma ChangeExtensionWithoutOne(p: string, ext: string)
    requires Extension(Basename(p)) == []
    ensures |ChangeExtension(p, ext)| == |p| + (|p| + 1) * |ext|
  {
    ReplaceEmptyLength(p, ext);
  }

  /** A file that has an extension ends in the new one afterwards. */
  lemma ChangeExtensionEnd(p: string, ext: string)
    requires Extension(Basename(p)) != []
    ensures var r := ChangeExtension(p, ext); |ext| <= |r| && r[|r| - |ext|..] == ext
  {
    var b := Basename(p);
    var e := Extension(b);
    var q := p[..|p| - |e|];
    assert p == q + e && e != [] && forall i :: 1 <= i < |e| ==> e[i] != e[0] by {
      BasenameShape(p);
      ExtensionShape(b);
      SuffixOfSuffix(p, b, e);
    }
    ReplaceAtEnd(q, e, ext);
  }

  /** Replacing a needle whose first character occurs only once in it, in a
      text that ends with the needle, ends the result with the replacement. */
  lemma ReplaceAtEnd(q: string, needle: string, repl: string)
    requires needle != [] && forall i :: 1 <= i < |needle| ==> needle[i] != needle[0]
    ensures Replace(q + needle, needle, repl) == Replace(q, needle, repl) + repl
  {
    NoStraddleBefore(q, needle);
    ReplaceConcat(q, needle, needle, repl);
    ReplaceAtMatch(needle, needle, repl);
    assert needle[|needle|..] == [];
  }

  /** A suffix of a suffix of `p` splits `p` in two. */
  lemma SuffixOfSuffix(p: string, b: string, e: string)
    requires |b| <= |p| && b == p[|p| - |b|..]
    requires |e| <= |b| && e == b[|b| - |e|..]
    ensures p == p[..|p| - |e|] + e
  {
    assert e == p[|p| - |e|..];
  }

  /** The extension is replaced in the directory part as well. */
  lemma ChangeExtensionEverywhere()
    ensures ChangeExtension("a.b/c.b", ".x") == "a.x/c.x"
  {
    var p := "a.b/c.b";
    assert Basename(p) == "c.b" by {
      LastIndexIs(p, '/', 3);
    }
    assert Extension("c.b") == ".b" by {
      LastIndexIs("c.b", '/', -1);
      LastIndexIs("c.b", '.', 1);
      assert "c.b"[0] != '.';
    }
    ReplaceInExample();
  }

  lemma ReplaceInExample()
    ensures Replace("a.b/c.b", ".b", ".x") == "a.x/c.x"
  {
    var p := "a.b/c.b";
    assert p[..2][0] != '.';
    ReplacePastChar(p, ".b", ".x");
    assert p[1..] == ".b" + "/c.b";
    ReplaceAtMatch(p[1..], ".b", ".x");
    assert "/c.b" == "/c" + ".b";
    ReplaceAtEnd("/c", ".b", ".x");
    assert "/c"[..2][0] != '.';
    ReplacePastChar("/c", ".b", ".x");
    ReplacePastChar("c", ".b", ".x");
  }
}
