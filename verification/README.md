# wattleflow ETL: paragraph extraction, path helpers and SQL script generation

This project is a Dafny model of three parts of the wattleflow ETL
commands.

* **The PDF paper extractor** (`PDFPapers`). It reads the pages of every
  `.pdf` file in a directory and cleans each page's text. A page with too few
  words is skipped. Otherwise the page's sentences are packed into paragraph
  rows `{text, pg, paragraph, wc, chars}`. A row is flushed when the running
  word total or character total reaches its ceiling. The extractor's
  `counter` is the `paragraph` field of every row. It goes up once per page,
  including skipped pages, and once more after each file.
* **The path helpers** of `WattleUtils`. `get_path` (and the same expression
  in `make_dir`) removes a path's base name from it. `change_extension` swaps
  a file's extension. Both are one `str.replace`, so they act on every
  occurrence of the replaced text.
* **The PostgreSQL script generator** (`AutoPostgreSql`). It turns a
  configuration of staging tables (CSV inputs) and star tables into six lists
  of SQL statements: staging drops, staging creates, staging copies, star
  drops, star creates and star inserts.

Files:

* `text.dfy` (module `Text`) holds Python's `isspace`, `strip`,
  `len(s.split())`, `' '.join` and the four-step page clean-up.
* `packer.dfy` (module `PdfPapers`) holds the packing loop. It is specified
  by the function `FeedAll` and its closed form `GroupsClosedForm`. It also
  holds the class `PaperExtractor`, whose fields `counter`, `lines` and
  `paragraphs` its methods update in place.
* `paths.dfy` (module `PathUtils`) holds `basename`, `splitext`,
  `str.replace` and the two helpers.
* `autopostgres.dfy` (module `AutoPostgres`) holds the `fieldtype` table,
  the statement texts, and the class `ScriptGenerator`, whose six list
  fields its methods append to.
* `sequences.dfy` (module `Sequences`) holds two regrouping lemmas for
  concatenation, used by the proofs.

Where the extractor's written behaviour differs from a plain reading of its
purpose, the model follows the code:

* The word and character totals are never reset after a flush. The
  overflowing sentence's counts are also added twice. So after the first
  sentence that does not fit, every later sentence gets a row of its own.
* A first sentence that alone reaches a ceiling flushes the empty buffer.
  That gives a row with empty text before the sentence's own row.
* Sentences buffered within budget are stored stripped. A sentence that
  overflows starts the new buffer unstripped.
* The page text is stripped before the non-ASCII characters are dropped,
  and not again afterwards.
* The `pg` of a row is the caller's zero-based page index plus one.

## Model

| member | source | states |
|---|---|---|
| Text.Strip | commands/extract/pdf_papers.py:89 | `str.strip()` as the left strip followed by the right strip; what it keeps and cuts is stated by StripShape |
| Text.WordCount | commands/extract/pdf_papers.py:93 | `len(s.split())`: the number of maximal runs of non-whitespace characters; its behaviour under strip, join and run collapsing is stated by the word-count lemmas below |
| Text.Join | commands/extract/pdf_papers.py:107 | `' '.join(lines)`: the lines with one space between neighbours; its words and length are stated by JoinWordCount and JoinLength |
| Text.Normalize | commands/extract/pdf_papers.py:89-92 | the page clean-up in the source's order: strip, drop non-ASCII, each newline run to one space, each whitespace run to one space; its result is characterised by NormalizeShape |
| Text.StripShape | commands/extract/pdf_papers.py:89 | `strip` keeps a middle slice `s[a..b]` that neither starts nor ends with whitespace, and everything cut off on both sides is whitespace |
| Text.StripLeftShape | commands/extract/pdf_papers.py:89 | the left strip keeps a suffix not starting with whitespace and removes only whitespace |
| Text.StripRightShape | commands/extract/pdf_papers.py:89 | the right strip keeps a prefix not ending with whitespace and removes only whitespace |
| Text.StripIdempotent | commands/extract/pdf_papers.py:105 | stripping an already stripped sentence changes nothing |
| Text.StripWordCount | commands/extract/pdf_papers.py:105 | stripping never changes a text's word count |
| Text.IsSpace | commands/extract/pdf_papers.py:89-93 | the whitespace of `str.strip`, the regex class `\s` and `str.split`: the ASCII controls 9-13, the separators 28-31, the space, and Python's Unicode spaces (0x85, 0xA0, 0x1680, 0x2000-0x200A, 0x2028, 0x2029, 0x202F, 0x205F, 0x3000) |
| Text.DropNonAscii | commands/extract/pdf_papers.py:90 | removing the characters above 127 yields an ASCII text no longer than the input |
| Text.DropAppend | commands/extract/pdf_papers.py:90 | dropping non-ASCII characters distributes over concatenation |
| Text.DropStripWordCount | commands/extract/pdf_papers.py:89-90 | stripping before the non-ASCII drop does not change the word count of the result |
| Text.ReplaceRuns | commands/extract/pdf_papers.py:91-92 | `re.sub('[…]+', ' ', s)` for a character class: each maximal run of class characters becomes one space and the rest is kept in order; characterised by ReplaceRunsChars, ReplaceRunsHead, CollapsedHasNoDoubleSpace and ReplaceRunsWordCount |
| Text.SkipRun | commands/extract/pdf_papers.py:91-92 | a leading run of class characters is removed whole, and nothing more |
| Text.ReplaceRunsChars | commands/extract/pdf_papers.py:91-92 | after run replacement every character is the inserted space or a character outside the class |
| Text.ReplaceRunsHead | commands/extract/pdf_papers.py:91-92 | a text not starting with a class character keeps its first character |
| Text.CollapsedHasNoDoubleSpace | commands/extract/pdf_papers.py:92 | after collapsing whitespace runs, no two whitespace characters are adjacent |
| Text.ReplaceRunsWordCount | commands/extract/pdf_papers.py:91-92 | replacing runs of whitespace characters by one space keeps the word count |
| Text.NormalizeShape | commands/extract/pdf_papers.py:89-93 | the cleaned page is ASCII, has no two adjacent whitespace characters, its only whitespace is the plain space, and it has as many words as the raw text with non-ASCII removed |
| Text.JoinWordCount | commands/extract/pdf_papers.py:107-108 | the words of the space-joined buffer are the sum of the words of its lines |
| Text.JoinLength | commands/extract/pdf_papers.py:107-108 | the joined buffer's length is the lines' lengths plus one separator between neighbours (0 when empty) |
| Text.JoinTwoWordCount | commands/extract/pdf_papers.py:107 | two texts joined by one space have the words of both |
| Text.SumWordsAppend | commands/extract/pdf_papers.py:102-103 | word and length totals over a concatenation are the sums of the parts' totals |
| PdfPapers.Feed | commands/extract/pdf_papers.py:101-112 | one iteration of the sentence loop: both totals grow by the sentence first; within both ceilings the stripped sentence is buffered, otherwise the buffer is flushed, the raw sentence starts the new one and its counts are added again |
| PdfPapers.FeedAll | commands/extract/pdf_papers.py:99-112 | the loop state after feeding the sentences in order from zero totals and an empty buffer; characterised by FeedAllShape |
| PdfPapers.Groups | commands/extract/pdf_papers.py:101-117 | the buffers that become rows: those flushed in the loop, then the final buffer when it is not empty; characterised by GroupsClosedForm |
| PdfPapers.Records | commands/extract/pdf_papers.py:107-117 | one row per buffer, in order, each built by MakeParagraph with the page's `pg` and counter; RecordsNumbered and RecordsWords state its numbering and word totals |
| PdfPapers.MakeParagraph | commands/extract/pdf_papers.py:107-108 | a flushed row's `wc` is the sum of its lines' word counts, its `chars` is their lengths plus separators, and an empty buffer gives an empty text |
| PdfPapers.FitCount | commands/extract/pdf_papers.py:101-105 | the number of leading sentences buffered in budget: every prefix up to it stays under both ceilings, one more sentence does not |
| PdfPapers.FitCountIs | commands/extract/pdf_papers.py:104 | any `k` meeting the in-budget conditions is the fit count |
| PdfPapers.FeedAllShape | commands/extract/pdf_papers.py:101-112 | the loop state after any sentences: plain totals and all sentences stripped while they fit; after the first misfit, the first group flushed, later sentences flushed one by one, the last one buffered raw, totals at or above a ceiling |
| PdfPapers.GroupsClosedForm | commands/extract/pdf_papers.py:101-117 | the rows of a page are: none without sentences; one row of all sentences stripped when they all fit; else the stripped fitting prefix (possibly empty) followed by one row per remaining raw sentence |
| PdfPapers.PackIsLossless | commands/extract/pdf_papers.py:101-117 | the rows' buffers read in order give back every sentence exactly once, stripped exactly when it was buffered in budget |
| PdfPapers.PackKeepsSentences | commands/extract/pdf_papers.py:101-117 | up to stripping, the flattened rows are the page's sentences |
| PdfPapers.PackKeepsWordCount | commands/extract/pdf_papers.py:101-117 | the `wc` fields of a page's rows add up to the words of its sentences |
| PdfPapers.RecordsWords | commands/extract/pdf_papers.py:107-117 | the rows' word counts add up to the words of all buffered lines |
| PdfPapers.GroupCount | commands/extract/pdf_papers.py:101-117 | a page yields at most one row more than it has sentences, and none exactly when it has no sentences |
| PdfPapers.EmptyFirstGroup | commands/extract/pdf_papers.py:104-110 | the first row is empty exactly when the first sentence alone reaches a ceiling |
| PdfPapers.LaterGroupsAreSingle | commands/extract/pdf_papers.py:106-112 | because the totals are never reset, every row after the first holds one sentence |
| PdfPapers.FirstTwoFit | commands/extract/pdf_papers.py:102-104 | with a 10-word ceiling, two 4-word sentences fit and a third does not |
| PdfPapers.ThreeFourWordSentences | commands/extract/pdf_papers.py:101-117 | three 4-word sentences with a 10-word ceiling give rows `[s0 s1 stripped]`, `[s2]` |
| PdfPapers.FourFourWordSentences | commands/extract/pdf_papers.py:101-117 | a fourth sentence after that is alone too, whatever its size |
| PdfPapers.LongFirstSentence | commands/extract/pdf_papers.py:104-112 | a lone sentence that reaches the word ceiling gives an empty row (text "", wc 0, chars 0) and then the sentence's own row |
| PdfPapers.RecordsNumbered | commands/extract/pdf_papers.py:107-117 | every row of a page carries the extractor's counter as `paragraph` |
| PdfPapers.PageRows | commands/extract/pdf_papers.py:93-117 | a page with fewer than `minCount` words yields no row; every row of a page carries the page index plus one as `pg` and the call's counter as `paragraph` |
| PdfPapers.PageBuffer | commands/extract/pdf_papers.py:88-117 | the buffer a page call leaves: empty for a skipped page (line 88 clears it), else the loop's last buffer |
| PdfPapers.FileRows | commands/extract/pdf_papers.py:131-133 | the rows of a file's pages in page order, page `i` (from 0) producing its rows with counter `counter0 + i + 1`; FileRowsStep states the one-page step that ProcessFile's loop invariant uses |
| PdfPapers.FileRecords | commands/extract/pdf_papers.py:131-133 | FileRows with each page cleaned by Normalize and packed by PageRows; ProcessFile ensures its rows are these |
| PdfPapers.EndsWith | commands/extract/pdf_papers.py:122 | `str.endswith`: the name's last characters equal the suffix, case-sensitively; EndsWithExamples pins down the cases |
| PdfPapers.EndsWithExamples | commands/extract/pdf_papers.py:122 | "paper.pdf" and ".pdf" end with ".pdf"; "paper.PDF", "pdf" and "paper.pdf.txt" do not |
| PdfPapers.FileBuffer | commands/extract/pdf_papers.py:131-133 | the buffer after a file: that of its last page, or the buffer from before when the file has no pages |
| PdfPapers.DocCounter | commands/extract/pdf_papers.py:158-165 | the counter after a listing never falls below the starting counter; each PDF file adds its page count plus one |
| PdfPapers.DocRecords | commands/extract/pdf_papers.py:158-165 | the rows of a listing are those of its PDF files in listing order, each file numbered from the counter reached before it |
| PdfPapers.DocBuffer | commands/extract/pdf_papers.py:158-165 | the buffer after a listing: that of the last PDF file with pages, or the buffer from before |
| PdfPapers.NoPdfChangesNothing | commands/extract/pdf_papers.py:158-165 | a listing without PDF files leaves the counter, the rows and the buffer as they were |
| PdfPapers.PaperExtractor.constructor | commands/extract/pdf_papers.py:62-82 | a new extractor holds the three thresholds, a zero counter, an empty buffer and no rows, before the directory scan (see Left out) |
| PdfPapers.PaperExtractor.PackSentences | commands/extract/pdf_papers.py:99-117 | the sentence loop appends one row per group of the page, each with the given page number and the counter, and leaves the buffer as the loop function's final buffer |
| PdfPapers.PaperExtractor.ExtractParagraphs | commands/extract/pdf_papers.py:85-117 | the counter goes up by one even for a skipped page; a page with fewer than `minCount` words adds no row and leaves the buffer empty; otherwise its rows are appended with page index plus one; the rows stay numbered |
| PdfPapers.PaperExtractor.ProcessFile | commands/extract/pdf_papers.py:119-133 | a name not ending in ".pdf" is refused with nothing changed; otherwise each page is processed in order, the counter rises by the page count, the file's rows are appended, and the buffer is the one the last page left (unchanged when there are no pages) |
| PdfPapers.PaperExtractor.VisitEntry | commands/extract/pdf_papers.py:159-165 | one listing entry: a PDF file moves counter, rows and buffer from their values after the earlier entries to those after this one; any other file changes nothing |
| PdfPapers.PaperExtractor.Extract | commands/extract/pdf_papers.py:151-171 | only ".pdf" files are processed, in listing order, with one extra counter bump after each; the rows appended are the documents' rows and the buffer is the one the last processed page left; the result says whether any PDF was found |
| PathUtils.Basename | utils/base.py:16-17 | `os.path.basename`: the text after the last '/'; its shape is stated by BasenameShape |
| PathUtils.Extension | utils/base.py:44-46 | `os.path.splitext(...)[1]`: from the last '.' on, when that dot follows the last '/' and a non-dot character lies between; characterised by ExtensionShape and NoExtension |
| PathUtils.Replace | utils/base.py:17 | `str.replace`: every occurrence, scanned from the left without overlap, replaced; an empty needle puts the replacement before each character and at the end; its laws are the Replace lemmas below |
| PathUtils.GetPath | utils/base.py:16-17 | `get_path`: every occurrence of the base name removed from the path; characterised by GetPathSplit, GetPathNoSlash and GetPathOfDirectory |
| PathUtils.ChangeExtension | utils/base.py:44-46 | `change_extension`: every occurrence of the base name's extension replaced by the new one; its laws are the ChangeExtension lemmas below |
| PathUtils.LastIndex | utils/base.py:16-17 | the last index of a character, or -1: it holds the character and none follows it |
| PathUtils.LastIndexIs | utils/base.py:16-17 | that contract determines the last index |
| PathUtils.BasenameShape | utils/base.py:16-17 | the base name is a suffix without '/', and it is either the whole path or preceded by '/' |
| PathUtils.ExtensionShape | utils/base.py:44-46 | a non-empty extension is a suffix starting with '.', holding no further '.' or '/', with a non-dot character between it and the last '/' |
| PathUtils.NoExtension | utils/base.py:44-46 | there is no extension exactly when no '.' follows the last '/' or only dots precede the last '.' |
| PathUtils.ReplaceSelf | utils/base.py:46 | replacing a text by itself changes nothing |
| PathUtils.ReplaceEmptyLength | utils/base.py:46 | replacing the empty text gives a result of length `|s| + (|s| + 1) * |repl|`: the input plus one replacement per gap |
| PathUtils.ReplaceByNothingShrinks | utils/base.py:17 | removing occurrences never lengthens a text |
| PathUtils.ReplaceConcat | utils/base.py:44-46 | when no occurrence straddles the boundary, replacing in `x + y` replaces in each part |
| PathUtils.GetPathNoSlash | utils/base.py:16-17 | a path without '/' yields the empty text |
| PathUtils.GetPathOfDirectory | utils/base.py:16-17 | a path ending in '/' has an empty base name and is returned unchanged |
| PathUtils.GetPathSplit | utils/base.py:16-17 | for a path with '/', the result is the directory part (ending in '/') with every occurrence of the base name removed from it |
| PathUtils.GetPathShorter | utils/base.py:39 | the directory part `get_path` and `make_dir` compute is never longer than the path |
| PathUtils.GetPathRepeatedName | utils/base.py:16-17 | an occurrence of the base name inside the directory part is removed too: "a/b/b" gives "a//" |
| PathUtils.ChangeToSameExtension | utils/base.py:44-46 | changing to the file's own extension changes nothing |
| PathUtils.ChangeExtensionWithoutOne | utils/base.py:44-46 | for a file without extension the result has length `|p| + (|p| + 1) * |ext|`, the length of the path with the new extension in each of its `|p| + 1` gaps |
| PathUtils.ChangeExtensionEnd | utils/base.py:44-46 | a file with an extension ends in the new extension afterwards |
| PathUtils.ChangeExtensionEverywhere | utils/base.py:44-46 | the extension is replaced in the directory part as well: "a.b/c.b" with ".x" gives "a.x/c.x" |
| AutoPostgres.FieldTypes | commands/extract/autopostgresql.py:8-15 | the `fieldtype` table: six dtype names and their SQL column types; TypeExamples checks entries of it |
| AutoPostgres.SqlType | commands/extract/autopostgresql.py:57 | a dtype gets "UNKNOWN" exactly when the `fieldtype` table does not list it, and the table's entry otherwise |
| AutoPostgres.DropStagingSql | commands/extract/autopostgresql.py:46 | the staging DROP statement; its partner is DropStagingRoundTrip |
| AutoPostgres.CopyStagingSql | commands/extract/autopostgresql.py:69-70 | the COPY statement loading the staging table from its CSV input with a header row |
| AutoPostgres.DropStarSql | commands/extract/autopostgresql.py:77 | the star DROP statement; its partner is DropStarRoundTrip |
| AutoPostgres.CreateHeader | commands/extract/autopostgresql.py:55 | the CREATE statement's first line, `CREATE TABLE IF NOT EXISTS staging_<name> (` and a newline |
| AutoPostgres.ColumnDef | commands/extract/autopostgresql.py:58 | one column line without its terminator: five spaces, the double-quoted column name, a space and SqlType of the dtype |
| AutoPostgres.CreateStagingSql | commands/extract/autopostgresql.py:55-60 | the CREATE statement in join form: the header, the column definitions separated by ",\n", then "\n);"; with no columns the header's "(\n" is cut; BuildCreateSql proves the source's loop equal to it |
| AutoPostgres.TypeExamples | commands/extract/autopostgresql.py:8-15 | "float64" is DOUBLE PRECISION, "object" is VARCHAR(255), an unlisted dtype is UNKNOWN |
| AutoPostgres.DropStarRoundTrip | commands/extract/autopostgresql.py:77 | the table a star DROP names is the star table |
| AutoPostgres.DropStagingRoundTrip | commands/extract/autopostgresql.py:46 | the table a staging DROP names is the table with "staging_" in front |
| AutoPostgres.DropStagingInjective | commands/extract/autopostgresql.py:46 | two staging tables with the same DROP statement are the same table |
| AutoPostgres.TerminatedJoin | commands/extract/autopostgresql.py:56-59 | writing every column line with a trailing separator is the joined lines plus one separator |
| AutoPostgres.CreateWithColumns | commands/extract/autopostgresql.py:55-60 | with columns, the statement is the header, the column lines each ending in ",\n" except the last, which loses its comma, and ");" |
| AutoPostgres.CreateOneColumn | commands/extract/autopostgresql.py:55-60 | one column gives the header, that column's line, and ");" |
| AutoPostgres.CreateFinish | commands/extract/autopostgresql.py:59-60 | cutting two characters and closing the statement turns the loop's text into the CREATE statement, also with no columns (then the header's " (\n" loses "(\n") |
| AutoPostgres.BuildCreateSql | commands/extract/autopostgresql.py:55-60 | the string-building loop produces the CREATE statement of the table |
| AutoPostgres.MapSeq | commands/extract/autopostgresql.py:56-58 | one entry per element, in order: the column definitions of a table and each per-table statement list |
| AutoPostgres.MapSeqAt | commands/extract/autopostgresql.py:56-58 | a mapped list has one entry per element, the `i`th made from the `i`th element (column or table) |
| AutoPostgres.ScriptGenerator.constructor | commands/extract/autopostgresql.py:18-37 | the generator holds its configuration and six empty lists |
| AutoPostgres.ScriptGenerator.StagingDrop | commands/extract/autopostgresql.py:43-48 | one DROP of the staging table is appended to its list; nothing else changes |
| AutoPostgres.ScriptGenerator.StagingCreate | commands/extract/autopostgresql.py:50-63 | one CREATE of the staging table is appended to its list; nothing else changes |
| AutoPostgres.ScriptGenerator.StagingCopy | commands/extract/autopostgresql.py:65-73 | one COPY from the table's input file is appended to its list; nothing else changes |
| AutoPostgres.ScriptGenerator.StarDrop | commands/extract/autopostgresql.py:75-79 | one DROP of the star table is appended to its list; nothing else changes |
| AutoPostgres.ScriptGenerator.StarCreate | commands/extract/autopostgresql.py:81-85 | the configured statement is appended unchanged; nothing else changes |
| AutoPostgres.ScriptGenerator.StarInserts | commands/extract/autopostgresql.py:87-90 | every configured INSERT is appended in order; nothing else changes |
| AutoPostgres.ScriptGenerator.GenerateScripts | commands/extract/autopostgresql.py:97-107 | each staging list grows by one statement per staging table and each star list by one per star table, in configuration order, then the inserts are appended |
| AutoPostgres.ScriptsPerTable | commands/extract/autopostgresql.py:97-107 | the `i`th statement of each list is the `i`th table's DROP, CREATE or COPY, and each list has exactly one per table |

## Left out

- PdfPapers.PaperExtractor.constructor: the source constructor ends by running the whole directory scan (pdf_papers.py:83); the model splits that step out into the method `Extract`, so a new extractor has no rows until `Extract` runs.
- Sentence splitting by the spaCy model (pdf_papers.py:100) is a parameter `split` of the extractor's methods. Nothing is assumed about it.
- PDF parsing (pdfplumber) and the page texts are inputs. A file is modelled as a name with its pages' texts.
- The `pages` option (pdf_papers.py:129) is not modelled. Every page of a file is processed, in order.
- The CSV output (pdf_papers.py:140-142) is not modelled, nor the exception wrapping and `gc.collect` around it (144-149). The rows are kept in the `paragraphs` field.
- `_process_file` raising for a non-PDF name (122-125) is modelled as the result `ok == false` with no state change.
- `extract` raising when no PDF was found (168-171) is modelled as the result `found == false`. Its check that the directory exists (153-156) is not modelled.
- The directory listing order is the order of the `files` input. Joining the directory with the name (line 160) is not modelled.
- `time.sleep`, the tqdm progress bar, logging and the `_filelist` bookkeeping are not modelled.
- The threshold defaults (`EXTRACTOR_MIN_COUNT` and the rest) come from a constants module that is not part of this model. The thresholds are constructor parameters.
- The spaCy model, and the way it is loaded, are not part of this model.
- `inc` comes from a module that is not part of this model. It is taken to add one.
- Whitespace is Python's `str.isspace` set. Other Unicode handling (normalisation, case) plays no part in the code modelled.
- `WattleUtils.make_dir` and `path_exists`: only the path expression at base.py:39 is modelled, as `GetPath`. The file-system calls are left out.
- `os.path.basename` and `splitext` are modelled in their POSIX form: separator '/', and no drive or alternative separator.
- `EMPTY` comes from a constants module that is not part of this model. It is taken to be the empty string.
- In `AutoPostgreSql`, the column names and dtypes that `pd.read_csv` infers (lines 52-53, 56) are an input of each staging table. The dtype names are modelled as strings.
- The per-table methods take the configuration entry, not a name they look up (lines 52, 67, 83). Tables are given as a sequence in the dictionary's order.
- `_next`, `_save_to_file`, `_save_scripts` and `extract` of `AutoPostgreSql` (lines 39-41, 92-95, 109-134) are file-system and counter plumbing, and are not modelled.
