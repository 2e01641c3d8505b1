/**
 * The PDF paper extractor's paragraph packer: each page's text is cleaned,
 * pages with too few words are skipped, and the page's sentences are packed
 * greedily into rows `{text, pg, paragraph, wc, chars}` while the running word
 * and character totals stay below two ceilings.
 *
 * The loop is specified by `Feed`/`FeedAll` (one step of the loop, and the
 * loop over a prefix of the sentences), and `GroupsClosedForm` proves what
 * the packing amounts to: the sentences that fit go into the first row, and
 * once one sentence does not fit every later one is written alone, because
 * the running totals are never reset.
 */
module PdfPapers {
  import opened Text
  import opened Sequences

  /** One output row: the joined text, the page number shown (`pg`), the
      extractor's counter (`paragraph`), the word count and the length. */
  datatype Paragraph = Paragraph(text: string, pg: int, paragraph: int, wc: nat, chars: nat)

  /** The row written when the buffered `lines` are flushed. Its word count is
      the sum of the lines' word counts and its length counts one separator
      between neighbouring lines; an empty buffer gives an empty row. */
  function MakeParagraph(lines: seq<string>, pg: int, counter: int): (p: Paragraph)
    ensures p.wc == SumWords(lines)
    ensures p.chars == if lines == [] then 0 else SumLengths(lines) + |lines| - 1
    ensures lines == [] ==> p.text == ""
  {
    JoinWordCount(lines);
    JoinLength(lines);
    var text := Join(lines);
    Paragraph(text, pg, counter, WordCount(text), |text|)
  }

  function Records(groups: seq<seq<string>>, pg: int, counter: int): seq<Paragraph> {
    seq(|groups|, i requires 0 <= i < |groups| => MakeParagraph(groups[i], pg, counter))
  }

  // ---------------------------------------------------------------------
  // The packing loop as a function of the sentences

  /** The loop's state: running totals, the sentence buffer, and the buffers
      flushed so far. */
  datatype Packing = Packing(words: int, length: int, lines: seq<string>, flushed: seq<seq<string>>)

  /** One iteration of the sentence loop. A sentence that keeps both totals
      below their ceilings is buffered stripped; otherwise the buffer is
      flushed, the sentence starts the new buffer unstripped, and its counts
      are added to the totals a second time. */
  function Feed(st: Packing, s: string, maxWords: int, maxLength: int): Packing {
    var words := st.words + WordCount(s);
    var length := st.length + |s|;
    if words < maxWords && length < maxLength then
      Packing(words, length, st.lines + [Strip(s)], st.flushed)
    else
      Packing(words + WordCount(s), length + |s|, [s], st.flushed + [st.lines])
  }

  /** The loop state after the sentences `ss`, fed in order from the empty
      state. */
  function FeedAll(ss: seq<string>, maxWords: int, maxLength: int): Packing
    decreases |ss|
  {
    if ss == [] then Packing(0, 0, [], [])
    else Feed(FeedAll(ss[..|ss| - 1], maxWords, maxLength), ss[|ss| - 1], maxWords, maxLength)
  }

  /** The buffers that become rows: those flushed in the loop, then the final
      buffer if it holds anything. */
  function Groups(ss: seq<string>, maxWords: int, maxLength: int): seq<seq<string>> {
    var st := FeedAll(ss, maxWords, maxLength);
    if |st.lines| > 0 then st.flushed + [st.lines] else st.flushed
  }

  // ---------------------------------------------------------------------
  // What the loop amounts to

  /** The sentences `prefix` fit together under both ceilings. */
  predicate Fits(prefix: seq<string>, maxWords: int, maxLength: int) {
    SumWords(prefix) < maxWords && SumLengths(prefix) < maxLength
  }

  lemma FitsPrefix(ss: seq<string>, j: nat, maxWords: int, maxLength: int)
    requires j <= |ss| && Fits(ss, maxWords, maxLength)
    ensures Fits(ss[..j], maxWords, maxLength)
  {
    assert ss == ss[..j] + ss[j..];
    SumWordsAppend(ss[..j], ss[j..]);
  }

  /** How many leading sentences are buffered in budget: every prefix up to
      that many fits, and one sentence more does not. */
  function FitCount(ss: seq<string>, maxWords: int, maxLength: int): (k: nat)
    ensures k <= |ss|
    ensures forall j :: 1 <= j <= k ==> Fits(ss[..j], maxWords, maxLength)
    ensures k < |ss| ==> !Fits(ss[..k + 1], maxWords, maxLength)
    decreases |ss|
  {
    if ss == [] then 0
    else if Fits(ss, maxWords, maxLength) then
      (forall j | 1 <= j <= |ss| ensures Fits(ss[..j], maxWords, maxLength) {
         FitsPrefix(ss, j, maxWords, maxLength);
       }
       assert ss[..|ss|] == ss;
       |ss|)
    else
      var k := FitCount(ss[..|ss| - 1], maxWords, maxLength);
      assert forall j :: 0 <= j <= |ss| - 1 ==> ss[..|ss| - 1][..j] == ss[..j];
      assert ss[..|ss|] == ss;
      k
  }

  function StripAll(ss: seq<string>): (r: seq<string>)
    ensures |r| == |ss|
  {
    seq(|ss|, i requires 0 <= i < |ss| => Strip(ss[i]))
  }

  function Singles(ss: seq<string>): (r: seq<seq<string>>)
    ensures |r| == |ss|
  {
    seq(|ss|, i requires 0 <= i < |ss| => [ss[i]])
  }

  function Flatten(groups: seq<seq<string>>): seq<string> {
    if groups == [] then [] else groups[0] + Flatten(groups[1..])
  }

  /** The loop state after the sentences `ss` of which the first `k` fit:
      while everything fits, the totals are the plain sums and the buffer
      holds every sentence stripped; after the first misfit, the first group
      was flushed, every later sentence but the last was flushed alone, the
      buffer holds the last sentence alone, and the totals stay at or above a
      ceiling. */
  ghost predicate Shaped(ss: seq<string>, k: nat, st: Packing, maxWords: int, maxLength: int) {
    if k == |ss| then st == Packing(SumWords(ss), SumLengths(ss), StripAll(ss), [])
    else
      && k < |ss|
      && st.flushed == [StripAll(ss[..k])] + Singles(ss[k..|ss| - 1])
      && st.lines == [ss[|ss| - 1]]
      && (st.words >= maxWords || st.length >= maxLength)
  }

  lemma FeedAllStep(ss: seq<string>, s: string, maxWords: int, maxLength: int)
    ensures FeedAll(ss + [s], maxWords, maxLength) == Feed(FeedAll(ss, maxWords, maxLength), s, maxWords, maxLength)
  {
    assert (ss + [s])[..|ss|] == ss;
  }

  lemma FeedAllAt(ss: seq<string>, i: nat, maxWords: int, maxLength: int)
    requires i < |ss|
    ensures FeedAll(ss[..i + 1], maxWords, maxLength) == Feed(FeedAll(ss[..i], maxWords, maxLength), ss[i], maxWords, maxLength)
  {
    assert ss[..i + 1] == ss[..i] + [ss[i]];
    FeedAllStep(ss[..i], ss[i], maxWords, maxLength);
  }

  lemma FitCountStep(ss: seq<string>, s: string, maxWords: int, maxLength: int)
    ensures FitCount(ss + [s], maxWords, maxLength)
         == if Fits(ss + [s], maxWords, maxLength) then |ss| + 1 else FitCount(ss, maxWords, maxLength)
  {
    assert (ss + [s])[..|ss|] == ss;
  }

  lemma SumsStep(ss: seq<string>, s: string)
    ensures SumWords(ss + [s]) == SumWords(ss) + WordCount(s)
    ensures SumLengths(ss + [s]) == SumLengths(ss) + |s|
  {
    SumWordsAppend(ss, [s]);
    assert SumWords([s]) == WordCount(s) + SumWords([]);
    assert SumLengths([s]) == |s| + SumLengths([]);
  }

  /** The step while every sentence so far fitted and the new one fits too. */
  lemma ShapedStillFits(ss: seq<string>, s: string, st: Packing, maxWords: int, maxLength: int)
    requires Shaped(ss, |ss|, st, maxWords, maxLength)
    requires Fits(ss + [s], maxWords, maxLength)
    ensures Shaped(ss + [s], |ss| + 1, Feed(st, s, maxWords, maxLength), maxWords, maxLength)
  {
    SumsStep(ss, s);
    assert StripAll(ss + [s]) == StripAll(ss) + [Strip(s)];
  }

  /** The step where the first sentence that does not fit arrives. */
  lemma ShapedFirstMisfit(ss: seq<string>, s: string, st: Packing, maxWords: int, maxLength: int)
    requires Shaped(ss, |ss|, st, maxWords, maxLength)
    requires !Fits(ss + [s], maxWords, maxLength)
    ensures Shaped(ss + [s], |ss|, Feed(st, s, maxWords, maxLength), maxWords, maxLength)
  {
    SumsStep(ss, s);
    var ss' := ss + [s];
    assert ss'[..|ss|] == ss;
    assert ss'[|ss|..|ss'| - 1] == [];
  }

  /** A step after a misfit: the totals stay over a ceiling, so the new
      sentence does not fit either and the previous one is flushed alone. */
  lemma ShapedAfterMisfit(ss: seq<string>, k: nat, s: string, st: Packing, maxWords: int, maxLength: int)
    requires k < |ss| && Shaped(ss, k, st, maxWords, maxLength)
    ensures Shaped(ss + [s], k, Feed(st, s, maxWords, maxLength), maxWords, maxLength)
  {
    var ss' := ss + [s];
    assert ss'[..k] == ss[..k];
    assert ss'[k..|ss'| - 1] == ss[k..];
    assert ss[k..] == ss[k..|ss| - 1] + [ss[|ss| - 1]];
    assert Singles(ss[k..]) == Singles(ss[k..|ss| - 1]) + [[ss[|ss| - 1]]];
  }

  lemma {:induction false} FeedAllShape(ss: seq<string>, maxWords: int, maxLength: int)
    ensures Shaped(ss, FitCount(ss, maxWords, maxLength), FeedAll(ss, maxWords, maxLength), maxWords, maxLength)
    decreases |ss|
  {
    if ss == [] {
      assert StripAll(ss) == [];
    } else {
      var init := ss[..|ss| - 1];
      var s := ss[|ss| - 1];
      assert ss == init + [s];
      FeedAllShape(init, maxWords, maxLength);
      FeedAllStep(init, s, maxWords, maxLength);
      FitCountStep(init, s, maxWords, maxLength);
      var k0 := FitCount(init, maxWords, maxLength);
      var st0 := FeedAll(init, maxWords, maxLength);
      if k0 == |init| {
        if Fits(ss, maxWords, maxLength) {
          ShapedStillFits(init, s, st0, maxWords, maxLength);
        } else {
          ShapedFirstMisfit(init, s, st0, maxWords, maxLength);
        }
      } else {
        assert init[..k0 + 1] == ss[..k0 + 1];
        assert !Fits(ss, maxWords, maxLength);
        ShapedAfterMisfit(init, k0, s, st0, maxWords, maxLength);
      }
    }
  }

  /** The rows of a page, in closed form: no rows without sentences; one row
      of all sentences, stripped, when they all fit; otherwise a first row of
      the `k` sentences that fit, stripped (empty when `k` is 0), followed by
      one row per remaining sentence, unstripped. */
  lemma GroupsClosedForm(ss: seq<string>, maxWords: int, maxLength: int)
    ensures var k := FitCount(ss, maxWords, maxLength);
      Groups(ss, maxWords, maxLength)
        == if ss == [] then []
           else if k == |ss| then [StripAll(ss)]
           else [StripAll(ss[..k])] + Singles(ss[k..])
  {
    var k := FitCount(ss, maxWords, maxLength);
    var st := FeedAll(ss, maxWords, maxLength);
    FeedAllShape(ss, maxWords, maxLength);
    if ss == [] {
    } else if k == |ss| {
      assert |StripAll(ss)| > 0;
    } else {
      SinglesSnoc(ss, k);
      assert st.flushed + [st.lines] == [StripAll(ss[..k])] + Singles(ss[k..]);
    }
  }

  lemma SinglesSnoc(ss: seq<string>, k: nat)
    requires k < |ss|
    ensures Singles(ss[k..]) == Singles(ss[k..|ss| - 1]) + [[ss[|ss| - 1]]]
  {
  }

  lemma {:induction false} FlattenAppend(a: seq<seq<string>>, b: seq<seq<string>>)
    ensures Flatten(a + b) == Flatten(a) + Flatten(b)
  {
    if a == [] {
      assert a + b == b;
    } else {
      assert (a + b)[1..] == a[1..] + b;
      FlattenAppend(a[1..], b);
    }
  }

  lemma {:induction false} FlattenSingles(ss: seq<string>)
    ensures Flatten(Singles(ss)) == ss
  {
    if ss != [] {
      assert Singles(ss)[1..] == Singles(ss[1..]);
      FlattenSingles(ss[1..]);
    }
  }

  /** Packing loses, duplicates and reorders nothing: reading the rows' buffers
      in order gives back the sentences, each whole, stripped exactly when it
      was buffered in budget (the first `FitCount` of them). */
  lemma PackIsLossless(ss: seq<string>, maxWords: int, maxLength: int)
    ensures var k := FitCount(ss, maxWords, maxLength);
      Flatten(Groups(ss, maxWords, maxLength)) == StripAll(ss[..k]) + ss[k..]
  {
    var k := FitCount(ss, maxWords, maxLength);
    GroupsClosedForm(ss, maxWords, maxLength);
    if ss == [] {
    } else if k == |ss| {
      assert Flatten([StripAll(ss)]) == StripAll(ss) + Flatten([]);
    } else {
      FlattenAppend([StripAll(ss[..k])], Singles(ss[k..]));
      FlattenSingles(ss[k..]);
      assert Flatten([StripAll(ss[..k])]) == StripAll(ss[..k]) + Flatten([]);
    }
  }

  /** Up to stripping, the rows hold exactly the page's sentences in order. */
  lemma PackKeepsSentences(ss: seq<string>, maxWords: int, maxLength: int)
    ensures StripAll(Flatten(Groups(ss, maxWords, maxLength))) == StripAll(ss)
  {
    PackIsLossless(ss, maxWords, maxLength);
    RestripPrefix(ss, FitCount(ss, maxWords, maxLength));
  }

  /** Stripping a sequence whose first `k` elements are already stripped
      gives what stripping the original does. */
  lemma RestripPrefix(ss: seq<string>, k: nat)
    requires k <= |ss|
    ensures StripAll(StripAll(ss[..k]) + ss[k..]) == StripAll(ss)
  {
    var flat := StripAll(ss[..k]) + ss[k..];
    forall i | 0 <= i < |ss| ensures Strip(flat[i]) == Strip(ss[i]) {
      if i < k {
        StripIdempotent(ss[i]);
      }
    }
  }

  /** A page with no sentences has no rows; otherwise it has at most one row
      more than it has sentences. */
  lemma GroupCount(ss: seq<string>, maxWords: int, maxLength: int)
    ensures |Groups(ss, maxWords, maxLength)| <= |ss| + 1
    ensures Groups(ss, maxWords, maxLength) == [] <==> ss == []
  {
    GroupsClosedForm(ss, maxWords, maxLength);
  }

  /** The first row is empty exactly when the page's first sentence alone
      reaches a ceiling. */
  lemma EmptyFirstGroup(ss: seq<string>, maxWords: int, maxLength: int)
    requires ss != []
    ensures Groups(ss, maxWords, maxLength) != []
    ensures Groups(ss, maxWords, maxLength)[0] == []
        <==> (WordCount(ss[0]) >= maxWords || |ss[0]| >= maxLength)
  {
    var k := FitCount(ss, maxWords, maxLength);
    GroupsClosedForm(ss, maxWords, maxLength);
    assert ss[..1] == [ss[0]];
    assert SumWords([ss[0]]) == WordCount(ss[0]) && SumLengths([ss[0]]) == |ss[0]|;
    assert k >= 1 <==> Fits(ss[..1], maxWords, maxLength);
  }

  /** Once a sentence has not fitted, the totals are never reset, so every row
      after the first holds a single sentence. */
  lemma LaterGroupsAreSingle(ss: seq<string>, maxWords: int, maxLength: int)
    ensures forall g :: 1 <= g < |Groups(ss, maxWords, maxLength)| ==>
      |Groups(ss, maxWords, maxLength)[g]| == 1
  {
    GroupsClosedForm(ss, maxWords, maxLength);
  }

  function SumWc(ps: seq<Paragraph>): nat {
    if ps == [] then 0 else ps[0].wc + SumWc(ps[1..])
  }

  lemma {:induction false} RecordsWords(groups: seq<seq<string>>, pg: int, counter: int)
    ensures SumWc(Records(groups, pg, counter)) == SumWords(Flatten(groups))
  {
    if groups != [] {
      assert Records(groups, pg, counter)[1..] == Records(groups[1..], pg, counter);
      RecordsWords(groups[1..], pg, counter);
      SumWordsAppend(groups[0], Flatten(groups[1..]));
    }
  }

  /** Sequences whose corresponding elements have equally many words have
      equally many words in total. */
  lemma {:induction false} SumWordsPointwise(a: seq<string>, b: seq<string>)
    requires |a| == |b|
    requires forall i :: 0 <= i < |a| ==> WordCount(a[i]) == WordCount(b[i])
    ensures SumWords(a) == SumWords(b)
  {
    if a != [] {
      SumWordsPointwise(a[1..], b[1..]);
    }
  }

  lemma StripAllWords(ss: seq<string>)
    ensures SumWords(StripAll(ss)) == SumWords(ss)
  {
    forall i | 0 <= i < |ss| ensures WordCount(StripAll(ss)[i]) == WordCount(ss[i]) {
      StripWordCount(ss[i]);
    }
    SumWordsPointwise(StripAll(ss), ss);
  }

  /** The rows of a page carry, between them, exactly the words of its
      sentences. */
  lemma PackKeepsWordCount(ss: seq<string>, pg: int, counter: int, maxWords: int, maxLength: int)
    ensures SumWc(Records(Groups(ss, maxWords, maxLength), pg, counter)) == SumWords(ss)
  {
    var k := FitCount(ss, maxWords, maxLength);
    var groups := Groups(ss, maxWords, maxLength);
    calc {
      SumWc(Records(groups, pg, counter));
    == { RecordsWords(groups, pg, counter); }
      SumWords(Flatten(groups));
    == { PackIsLossless(ss, maxWords, maxLength); }
      SumWords(StripAll(ss[..k]) + ss[k..]);
    == { SumWordsAppend(StripAll(ss[..k]), ss[k..]); StripAllWords(ss[..k]); }
      SumWords(ss[..k]) + SumWords(ss[k..]);
    == { SumWordsAppend(ss[..k], ss[k..]); assert ss[..k] + ss[k..] == ss; }
      SumWords(ss);
    }
  }

  // ---------------------------------------------------------------------
  // Worked cases

  /** `FitCount` is pinned down by its contract: the prefix of `k` sentences
      fits (or `k` is 0) and one sentence more does not. */
  lemma FitCountIs(ss: seq<string>, k: nat, maxWords: int, maxLength: int)
    requires k <= |ss|
    requires k == 0 || Fits(ss[..k], maxWords, maxLength)
    requires k < |ss| ==> !Fits(ss[..k + 1], maxWords, maxLength)
    ensures FitCount(ss, maxWords, maxLength) == k
  {
    var f := FitCount(ss, maxWords, maxLength);
    if f < k {
      assert ss[..k][..f + 1] == ss[..f + 1];
      FitsPrefix(ss[..k], f + 1, maxWords, maxLength);
    }
  }

  /** Two sentences of 4 words fit under a ceiling of 10 words; a third
      sentence of 4 words reaches it. */
  lemma FirstTwoFit(ss: seq<string>, maxLength: int)
    requires 3 <= |ss| && WordCount(ss[0]) == 4 && WordCount(ss[1]) == 4 && WordCount(ss[2]) == 4
    requires |ss[0]| + |ss[1]| + |ss[2]| < maxLength
    ensures FitCount(ss, 10, maxLength) == 2
  {
    assert ss[..0] == [];
    SumsStep(ss[..0], ss[0]);
    SumsStep(ss[..1], ss[1]);
    SumsStep(ss[..2], ss[2]);
    assert ss[..1] == ss[..0] + [ss[0]];
    assert ss[..2] == ss[..1] + [ss[1]];
    assert ss[..3] == ss[..2] + [ss[2]];
    FitCountIs(ss, 2, 10, maxLength);
  }

  /** Sentences of 4, 4 and 4 words with a ceiling of 10 words: the first two
      share a row and the third is alone. */
  lemma ThreeFourWordSentences(ss: seq<string>, maxLength: int)
    requires |ss| == 3 && WordCount(ss[0]) == 4 && WordCount(ss[1]) == 4 && WordCount(ss[2]) == 4
    requires |ss[0]| + |ss[1]| + |ss[2]| < maxLength
    ensures Groups(ss, 10, maxLength) == [[Strip(ss[0]), Strip(ss[1])], [ss[2]]]
  {
    FirstTwoFit(ss, maxLength);
    GroupsClosedForm(ss, 10, maxLength);
    var tail := Singles(ss[2..]);
    assert tail == [[ss[2]]];
    var head := StripAll(ss[..2]);
    assert head == [Strip(ss[0]), Strip(ss[1])];
    assert Groups(ss, 10, maxLength) == [head] + tail;
  }

  /** Sentences of 4, 4, 4 and any number of words with a ceiling of 10
      words: the totals are not reset after the third sentence, so the fourth
      is alone too. */
  lemma FourFourWordSentences(ss: seq<string>, maxLength: int)
    requires |ss| == 4 && WordCount(ss[0]) == 4 && WordCount(ss[1]) == 4 && WordCount(ss[2]) == 4
    requires |ss[0]| + |ss[1]| + |ss[2]| < maxLength
    ensures Groups(ss, 10, maxLength) == [[Strip(ss[0]), Strip(ss[1])], [ss[2]], [ss[3]]]
  {
    FirstTwoFit(ss, maxLength);
    GroupsClosedForm(ss, 10, maxLength);
    var tail := Singles(ss[2..]);
    assert tail == [[ss[2]], [ss[3]]];
    var head := StripAll(ss[..2]);
    assert head == [Strip(ss[0]), Strip(ss[1])];
    assert Groups(ss, 10, maxLength) == [head] + tail;
  }

  /** A sentence that alone reaches the word ceiling is written whole, after
      an empty row. */
  lemma LongFirstSentence(s: string, maxWords: int, maxLength: int, pg: int, counter: int)
    requires WordCount(s) >= maxWords
    ensures Groups([s], maxWords, maxLength) == [[], [s]]
    ensures var rows := Records(Groups([s], maxWords, maxLength), pg, counter);
      |rows| == 2 && rows[0].text == "" && rows[0].wc == 0 && rows[0].chars == 0
      && rows[1].text == s && rows[1].wc == WordCount(s)
  {
    GroupsClosedForm([s], maxWords, maxLength);
    assert [s][..1] == [s];
    assert SumWords([s]) == WordCount(s);
    assert FitCount([s], maxWords, maxLength) == 0;
    assert [s][0..] == [s];
    assert [s][..0] == [];
  }

  // ---------------------------------------------------------------------
  // The extractor

  /** The rows one call produces for a page whose cleaned text is `norm`:
      none when it has fewer than `minCount` words, else one per group, all
      carrying the page index plus one and the counter. */
  function PageRows(norm: string, pg: int, counter: int, split: string -> seq<string>,
                    minCount: int, maxWords: int, maxLength: int): (rows: seq<Paragraph>)
    ensures minCount > WordCount(norm) ==> rows == []
    ensures forall i :: 0 <= i < |rows| ==> rows[i].pg == pg + 1 && rows[i].paragraph == counter
  {
    if minCount > WordCount(norm) then []
    else Records(Groups(split(norm), maxWords, maxLength), pg + 1, counter)
  }

  /** The buffer a page call leaves behind: empty for a skipped page, else the
      packing loop's last buffer. */
  function PageBuffer(text: string, split: string -> seq<string>,
                      minCount: int, maxWords: int, maxLength: int): seq<string>
  {
    var norm := Normalize(text);
    if minCount > WordCount(norm) then [] else FeedAll(split(norm), maxWords, maxLength).lines
  }

  /** The buffer after a file's pages: that of its last page, or `before`
      when it has none. */
  function FileBuffer(pages: seq<string>, before: seq<string>, split: string -> seq<string>,
                      minCount: int, maxWords: int, maxLength: int): seq<string>
  {
    if pages == [] then before else PageBuffer(pages[|pages| - 1], split, minCount, maxWords, maxLength)
  }

  /** A page's rows as a function of its raw text, its index and the counter. */
  function PageFn(split: string -> seq<string>, minCount: int, maxWords: int, maxLength: int)
    : (string, int, int) -> seq<Paragraph>
  {
    (text, pg, counter) => PageRows(Normalize(text), pg, counter, split, minCount, maxWords, maxLength)
  }

  /** The rows of a file's pages, page `i` giving `rows(pages[i], i, counter0 + i + 1)`. */
  function FileRows(pages: seq<string>, counter0: int, rows: (string, int, int) -> seq<Paragraph>): seq<Paragraph>
    decreases |pages|
  {
    if pages == [] then []
    else
      var n := |pages|;
      FileRows(pages[..n - 1], counter0, rows) + rows(pages[n - 1], n - 1, counter0 + n)
  }

  /** The rows of a file whose pages have the raw texts `pages`. */
  function FileRecords(pages: seq<string>, counter0: int, split: string -> seq<string>,
                       minCount: int, maxWords: int, maxLength: int): seq<Paragraph>
  {
    FileRows(pages, counter0, PageFn(split, minCount, maxWords, maxLength))
  }

  /** `str.endswith`: case-sensitive, and a name no longer than the suffix
      ends with it only when it is the suffix. */
  predicate EndsWith(s: string, suffix: string) {
    |suffix| <= |s| && s[|s| - |suffix|..] == suffix
  }

  lemma EndsWithExamples()
    ensures EndsWith("paper.pdf", ".pdf") && EndsWith(".pdf", ".pdf")
    ensures !EndsWith("paper.PDF", ".pdf") && !EndsWith("pdf", ".pdf") && !EndsWith("paper.pdf.txt", ".pdf")
  {
  }

  datatype PdfFile = PdfFile(name: string, pages: seq<string>)

  /** The counter after the directory listing `files`: each PDF file adds one
      per page and one more when the file is done. */
  function DocCounter(files: seq<PdfFile>, counter0: int): (r: int)
    ensures r >= counter0
    decreases |files|
  {
    if files == [] then counter0
    else
      var n := |files|;
      var before := DocCounter(files[..n - 1], counter0);
      if EndsWith(files[n - 1].name, ".pdf") then before + |files[n - 1].pages| + 1 else before
  }

  /** The rows of the directory listing `files`: those of its PDF files, in
      order; files with another extension add nothing. */
  function DocRecords(files: seq<PdfFile>, counter0: int, split: string -> seq<string>,
                      minCount: int, maxWords: int, maxLength: int): (r: seq<Paragraph>)
    decreases |files|
  {
    if files == [] then []
    else
      var n := |files|;
      var before := DocRecords(files[..n - 1], counter0, split, minCount, maxWords, maxLength);
      if EndsWith(files[n - 1].name, ".pdf") then
        before + FileRecords(files[n - 1].pages, DocCounter(files[..n - 1], counter0), split,
                             minCount, maxWords, maxLength)
      else before
  }

  /** The buffer after the directory listing `files`: that left by its last
      PDF file that has pages, or `before`. */
  function DocBuffer(files: seq<PdfFile>, before: seq<string>, split: string -> seq<string>,
                     minCount: int, maxWords: int, maxLength: int): seq<string>
    decreases |files|
  {
    if files == [] then before
    else
      var n := |files|;
      var b := DocBuffer(files[..n - 1], before, split, minCount, maxWords, maxLength);
      if EndsWith(files[n - 1].name, ".pdf") then FileBuffer(files[n - 1].pages, b, split, minCount, maxWords, maxLength)
      else b
  }

  /** A listing without PDF files leaves the counter, the rows and the buffer
      as they were. */
  lemma {:induction false} NoPdfChangesNothing(files: seq<PdfFile>, counter0: int, before: seq<string>,
                                               split: string -> seq<string>, minCount: int, maxWords: int, maxLength: int)
    requires forall i :: 0 <= i < |files| ==> !EndsWith(files[i].name, ".pdf")
    ensures DocCounter(files, counter0) == counter0
    ensures DocRecords(files, counter0, split, minCount, maxWords, maxLength) == []
    ensures DocBuffer(files, before, split, minCount, maxWords, maxLength) == before
    decreases |files|
  {
    if files != [] {
      var n := |files|;
      assert forall i :: 0 <= i < n - 1 ==> files[..n - 1][i] == files[i];
      NoPdfChangesNothing(files[..n - 1], counter0, before, split, minCount, maxWords, maxLength);
      assert !EndsWith(files[n - 1].name, ".pdf");
    }
  }

  /** Every row's counter is between 1 and `counter`, and the counters never
      go down along the rows. */
  ghost predicate Numbered(ps: seq<Paragraph>, counter: int) {
    && (forall i :: 0 <= i < |ps| ==> 1 <= ps[i].paragraph <= counter)
    && (forall i, j :: 0 <= i < j < |ps| ==> ps[i].paragraph <= ps[j].paragraph)
  }

  lemma NumberedAppend(ps: seq<Paragraph>, counter: int, qs: seq<Paragraph>)
    requires Numbered(ps, counter) && 0 <= counter
    requires forall i :: 0 <= i < |qs| ==> qs[i].paragraph == counter + 1
    ensures Numbered(ps + qs, counter + 1)
  {
  }

  lemma NumberedRaise(ps: seq<Paragraph>, counter: int)
    requires Numbered(ps, counter)
    ensures Numbered(ps, counter + 1)
  {
  }

  lemma RowsAppend(rows: seq<Paragraph>, groups: seq<seq<string>>, g: seq<string>, pg: int, counter: int)
    ensures rows + Records(groups + [g], pg, counter) == rows + Records(groups, pg, counter) + [MakeParagraph(g, pg, counter)]
  {
    RecordsAppend(groups, g, pg, counter);
  }

  lemma RecordsNumbered(groups: seq<seq<string>>, pg: int, counter: int)
    ensures forall i :: 0 <= i < |Records(groups, pg, counter)| ==> Records(groups, pg, counter)[i].paragraph == counter
  {
  }

  lemma RecordsAppend(groups: seq<seq<string>>, g: seq<string>, pg: int, counter: int)
    ensures Records(groups + [g], pg, counter) == Records(groups, pg, counter) + [MakeParagraph(g, pg, counter)]
  {
  }

  lemma FileRowsStep(pages: seq<string>, n: nat, counter: int, counter0: int,
                     rows: (string, int, int) -> seq<Paragraph>)
    requires n < |pages| && counter == counter0 + n + 1
    ensures FileRows(pages[..n + 1], counter0, rows) == FileRows(pages[..n], counter0, rows) + rows(pages[n], n, counter)
  {
    assert pages[..n + 1][..n] == pages[..n];
  }

  /** One more PDF file in the listing: its pages' counter bumps plus one,
      its rows, and its buffer. */
  lemma DocStepPdf(files: seq<PdfFile>, i: nat, counter0: int, before: seq<string>, split: string -> seq<string>,
                   minCount: int, maxWords: int, maxLength: int)
    requires i < |files| && EndsWith(files[i].name, ".pdf")
    ensures DocCounter(files[..i + 1], counter0) == DocCounter(files[..i], counter0) + |files[i].pages| + 1
    ensures DocRecords(files[..i + 1], counter0, split, minCount, maxWords, maxLength)
         == DocRecords(files[..i], counter0, split, minCount, maxWords, maxLength)
              + FileRecords(files[i].pages, DocCounter(files[..i], counter0), split, minCount, maxWords, maxLength)
    ensures DocBuffer(files[..i + 1], before, split, minCount, maxWords, maxLength)
         == FileBuffer(files[i].pages, DocBuffer(files[..i], before, split, minCount, maxWords, maxLength),
                       split, minCount, maxWords, maxLength)
  {
    assert files[..i + 1][..i] == files[..i];
  }

  /** One more file of another kind in the listing changes nothing. */
  lemma DocStepOther(files: seq<PdfFile>, i: nat, counter0: int, before: seq<string>, split: string -> seq<string>,
                     minCount: int, maxWords: int, maxLength: int)
    requires i < |files| && !EndsWith(files[i].name, ".pdf")
    ensures DocCounter(files[..i + 1], counter0) == DocCounter(files[..i], counter0)
    ensures DocRecords(files[..i + 1], counter0, split, minCount, maxWords, maxLength)
         == DocRecords(files[..i], counter0, split, minCount, maxWords, maxLength)
    ensures DocBuffer(files[..i + 1], before, split, minCount, maxWords, maxLength)
         == DocBuffer(files[..i], before, split, minCount, maxWords, maxLength)
  {
    assert files[..i + 1][..i] == files[..i];
  }

  class PaperExtractor {
    const minCount: int
    const maxWords: int
    const maxLength: int
    var counter: int
    var lines: seq<string>
    var paragraphs: seq<Paragraph>

    ghost predicate Valid()
      reads this
    {
      0 <= counter && Numbered(paragraphs, counter)
    }

    constructor (minCount: int, maxWords: int, maxLength: int)
      ensures Valid()
      ensures this.minCount == minCount && this.maxWords == maxWords && this.maxLength == maxLength
      ensures counter == 0 && lines == [] && paragraphs == []
    {
      this.minCount := minCount;
      this.maxWords := maxWords;
      this.maxLength := maxLength;
      counter := 0;
      lines := [];
      paragraphs := [];
    }

    /** One page: the counter goes up by one whether or not the page is
        kept, the rows of the page are appended after the existing ones, and
        the buffer is left holding the page's last group. */
    method ExtractParagraphs(text: string, pg: int, split: string -> seq<string>)
      requires Valid()
      modifies this
      ensures Valid()
      ensures counter == old(counter) + 1
      ensures paragraphs
        == old(paragraphs) + PageRows(Normalize(text), pg, counter, split, minCount, maxWords, maxLength)
      ensures lines == PageBuffer(text, split, minCount, maxWords, maxLength)
    {
      counter := counter + 1;
      lines := [];
      var t := Strip(text);
      t := DropNonAscii(t);
      t := ReplaceRuns(t, IsNewline);
      t := ReplaceRuns(t, IsSpace);
      var wc := WordCount(t);
      if minCount > wc {
        NumberedRaise(paragraphs, old(counter));
        return;
      }
      var sentences := split(t);
      PackSentences(sentences, pg + 1);
      RecordsNumbered(Groups(sentences, maxWords, maxLength), pg + 1, counter);
      NumberedAppend(old(paragraphs), old(counter), Records(Groups(sentences, maxWords, maxLength), pg + 1, counter));
    }

    /** The sentence loop of a kept page: each sentence is buffered or starts
        a new buffer after the old one is written out as a row, and the last
        buffer is written out at the end if it holds anything. */
    method PackSentences(sentences: seq<string>, page: int)
      modifies this
      ensures counter == old(counter)
      ensures paragraphs == old(paragraphs) + Records(Groups(sentences, maxWords, maxLength), page, counter)
      ensures lines == FeedAll(sentences, maxWords, maxLength).lines
    {
      lines := [];
      var words, length := 0, 0;
      ghost var flushed: seq<seq<string>> := [];
      ghost var st := Packing(0, 0, [], []);
      for i := 0 to |sentences|
        invariant counter == old(counter)
        invariant st == FeedAll(sentences[..i], maxWords, maxLength)
        invariant st == Packing(words, length, lines, flushed)
        invariant paragraphs == old(paragraphs) + Records(flushed, page, counter)
      {
        var s := sentences[i];
        FeedAllAt(sentences, i, maxWords, maxLength);
        st := Feed(st, s, maxWords, maxLength);
        words := words + WordCount(s);
        length := length + |s|;
        if words < maxWords && length < maxLength {
          lines := lines + [Strip(s)];
        } else {
          var line := MakeParagraph(lines, page, counter);
          RowsAppend(old(paragraphs), flushed, lines, page, counter);
          flushed := flushed + [lines];
          lines := [];
          paragraphs := paragraphs + [line];
          lines := lines + [s];
          words := words + WordCount(s);
          length := length + |s|;
        }
      }
      assert sentences[..|sentences|] == sentences;
      if |lines| > 0 {
        var line := MakeParagraph(lines, page, counter);
        RowsAppend(old(paragraphs), flushed, lines, page, counter);
        paragraphs := paragraphs + [line];
      }
    }

    /** A PDF file's pages, in order, each with its index as page number. A
        name that does not end in ".pdf" is refused and changes nothing. */
    method ProcessFile(filename: string, pages: seq<string>, split: string -> seq<string>)
      returns (ok: bool)
      requires Valid()
      modifies this
      ensures Valid()
      ensures ok == EndsWith(filename, ".pdf")
      ensures !ok ==> counter == old(counter) && paragraphs == old(paragraphs) && lines == old(lines)
      ensures ok ==> counter == old(counter) + |pages|
      ensures ok ==>
        paragraphs == old(paragraphs) + FileRecords(pages, old(counter), split, minCount, maxWords, maxLength)
      ensures ok ==> lines == FileBuffer(pages, old(lines), split, minCount, maxWords, maxLength)
    {
      if !EndsWith(filename, ".pdf") {
        return false;
      }
      for pageNum := 0 to |pages|
        invariant Valid()
        invariant counter == old(counter) + pageNum
        invariant paragraphs
          == old(paragraphs) + FileRecords(pages[..pageNum], old(counter), split, minCount, maxWords, maxLength)
        invariant lines == FileBuffer(pages[..pageNum], old(lines), split, minCount, maxWords, maxLength)
      {
        ExtractParagraphs(pages[pageNum], pageNum, split);
        FileRowsStep(pages, pageNum, counter, old(counter), PageFn(split, minCount, maxWords, maxLength));
        AppendAssoc(old(paragraphs), FileRecords(pages[..pageNum], old(counter), split, minCount, maxWords, maxLength),
                    PageRows(Normalize(pages[pageNum]), pageNum, counter, split, minCount, maxWords, maxLength));
      }
      assert pages[..|pages|] == pages;
      return true;
    }

    /** One entry of the directory listing: a PDF file is
        processed and the counter raised once more after it; a file of any
        other kind is passed over. `counter0`, `lines0` and `rows0` are the
        state before the listing. */
    method VisitEntry(files: seq<PdfFile>, i: nat, split: string -> seq<string>,
                      ghost counter0: int, ghost lines0: seq<string>, ghost rows0: seq<Paragraph>)
      returns (isPdf: bool)
      requires Valid() && i < |files|
      requires counter == DocCounter(files[..i], counter0)
      requires paragraphs == rows0 + DocRecords(files[..i], counter0, split, minCount, maxWords, maxLength)
      requires lines == DocBuffer(files[..i], lines0, split, minCount, maxWords, maxLength)
      modifies this
      ensures Valid()
      ensures isPdf == EndsWith(files[i].name, ".pdf")
      ensures counter == DocCounter(files[..i + 1], counter0)
      ensures paragraphs == rows0 + DocRecords(files[..i + 1], counter0, split, minCount, maxWords, maxLength)
      ensures lines == DocBuffer(files[..i + 1], lines0, split, minCount, maxWords, maxLength)
    {
      isPdf := EndsWith(files[i].name, ".pdf");
      if isPdf {
        DocStepPdf(files, i, counter0, lines0, split, minCount, maxWords, maxLength);
        ghost var before := lines;
        var ok := ProcessFile(files[i].name, files[i].pages, split);
        assert lines == FileBuffer(files[i].pages, before, split, minCount, maxWords, maxLength);
        AppendAssoc(rows0, DocRecords(files[..i], counter0, split, minCount, maxWords, maxLength),
                    FileRecords(files[i].pages, DocCounter(files[..i], counter0), split, minCount, maxWords, maxLength));
        NumberedRaise(paragraphs, counter);
        counter := counter + 1;
      } else {
        DocStepOther(files, i, counter0, lines0, split, minCount, maxWords, maxLength);
      }
    }

    /** The directory listing: every PDF file is processed in listing order and
        the counter is raised once more after each; the result says whether
        any PDF file was found (the source raises when none was). */
    method Extract(files: seq<PdfFile>, split: string -> seq<string>) returns (found: bool)
      requires Valid()
      modifies this
      ensures Valid()
      ensures found <==> exists i :: 0 <= i < |files| && EndsWith(files[i].name, ".pdf")
      ensures counter == DocCounter(files, old(counter))
      ensures paragraphs
        == old(paragraphs) + DocRecords(files, old(counter), split, minCount, maxWords, maxLength)
      ensures lines == DocBuffer(files, old(lines), split, minCount, maxWords, maxLength)
    {
      found := false;
      for i := 0 to |files|
        invariant Valid()
        invariant found <==> exists j :: 0 <= j < i && EndsWith(files[j].name, ".pdf")
        invariant counter == DocCounter(files[..i], old(counter))
        invariant paragraphs
          == old(paragraphs) + DocRecords(files[..i], old(counter), split, minCount, maxWords, maxLength)
        invariant lines == DocBuffer(files[..i], old(lines), split, minCount, maxWords, maxLength)
      {
        var isPdf := VisitEntry(files, i, split, old(counter), old(lines), old(paragraphs));
        found := found || isPdf;
      }
      assert files[..|files|] == files;
    }
  }
}
