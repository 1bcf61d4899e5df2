# Docling ingest: page-wise export with headings

This project models the core of a small document-ingest tool. The tool hands
each input file (PDF, DOCX, PPTX, HTML) to the Docling document converter and
walks the converted document's items in order. In one pass it collects:

- the text of every page;
- the set of heading tags on every page, such as `"H2: 1. Scope"`;
- a list of sections, each a heading with the text under it.

It then builds one page record per page that has text, in ascending page
order. The command-line driver keeps the files with a supported extension and
converts each one. It writes one combined report made of a header, one
twelve-line block per page, an `# End` line and, when some file failed, an
error count. It also writes an error log.

The model is written in Dafny. The Docling engine is an input value,
`EngineOutcome`: either the error message the converter raised, or the
exported markdown and the list of items the document yielded. Each item is a
plain record holding:

- its provenance page numbers;
- its labels and its `label`;
- its `dl_meta`/`meta` heading lists;
- its text;
- the table markdown export, if any.

The report and the log are returned as strings instead of being written.

Modules:

- `Text`: Python's `strip`, `upper`, `lower`, `isdigit`, `split` and `join` on ASCII.
- `Order`: string order, `sorted(set)` and `sorted(dict.keys())`.
- `Decimal`: `str(int)`.
- `Paths`: `Path.name` and `Path.suffix`.
- `DocModels`: the three records.
- `DoclingConvert`: the adapter and its aggregation pass. Its lemmas are in `AggregationLemmas`.
- `HeadingLevelLemmas`: the heading-level heuristic.
- `MainIngest`: the driver. Its lemmas are in `IngestLemmas`.

How the pass is modelled:

- The pass is the left fold `Run` of `Step` over the items. Its state,
  `PassState`, holds `current_page`, `current_heading`, `buf`, the flushed
  sections, `page_text` and `page_headings`.
- Each page's heading set is kept as a strictly sorted sequence, which is what
  `sorted(list(...))` later produces.
- Sections are kept as drafts (heading, page, pieces). They are rendered to
  `SectionItem` at the end. Rendering is pure, so this is the same as
  rendering at flush time.
- The lemmas compare the pass with a reference trace, `Events`. The trace is
  the sequence of "heading seen on page p" and "piece added on page p" events
  the items produce.

Two details of the code are easy to miss:

- An item with no provenance goes to page 1, not to the previous item's page.
  Only a page number of 0 keeps the current page. See
  `AggregationLemmas.ItemWithoutProvenanceIsOnPageOne` and
  `AggregationLemmas.PageZeroKeepsCurrentPage`.
- A table whose markdown export is non-empty but only white space adds the
  empty string to the buffer and to its page's text, because the export is
  tested before it is stripped. `flush_section` tests the buffer list, not its
  text, so such a buffer still becomes a section. See
  `AggregationLemmas.BlankTableExportAddsEmptyPiece`.

## Model

| member | source | states |
|---|---|---|
| DoclingConvert.HeadingText | docling_convert.py:87-100 | A heading text exists exactly for a heading item whose own text, or else whose first metadata heading, is not blank; it is then that text with only white space removed from its ends, the item's own text taking precedence; it is never blank and has no white space at its ends |
| DoclingConvert.Piece | docling_convert.py:107-122 | A table contributes exactly when its markdown export is non-empty, and then that export with only white space removed from its ends; any other item contributes exactly when its text is not blank, and then that text with its end white space removed, never empty |
| DoclingConvert.HeadingLevelGuess | docling_convert.py:31-42 | The guessed level is always one of "H1", "H2", "H3" |
| DoclingConvert.PagesFor | docling_convert.py:128-136 | One page record per page key, in the keys' order, each the record of its own page |
| DoclingConvert.BuildPages | docling_convert.py:126-136 | Page records come in strictly ascending page order, their page numbers are exactly the pages that received text, and each is the record of its page |
| DoclingConvert.Render | docling_convert.py:127-138 | The result keeps the exported markdown, and every page and section record names the document |
| DoclingConvert.ConvertToMarkdownAndSections | docling_convert.py:44-138 | An error is returned exactly when the converter failed; then the result is empty and the error is "<file name>: <message>"; otherwise the markdown is the export (or "" when the export failed) and every record carries the file name |
| AggregationLemmas.ItemWithoutProvenanceIsOnPageOne | docling_convert.py:6-14 | An item without provenance moves the pass to page 1, not to the previous item's page |
| AggregationLemmas.PageZeroKeepsCurrentPage | docling_convert.py:79-81 | Only a page number of 0 leaves the current page unchanged; any other page number becomes current |
| AggregationLemmas.HeadingFlushesBeforeItsText | docling_convert.py:100-122 | A heading with text becomes the current heading, closes the previous buffer as a section (if it held anything) under the previous heading, and starts the new buffer with its own piece |
| AggregationLemmas.PlainItemExtendsSection | docling_convert.py:107-122 | An item without heading text keeps the heading, the sections and the heading sets, and only appends its piece to the buffer |
| AggregationLemmas.TablePieceIgnoresText | docling_convert.py:108-117 | A table's piece does not depend on its text field; it exists exactly when the export is non-empty, and is then the stripped export |
| AggregationLemmas.BlankTableExportAddsEmptyPiece | docling_convert.py:115-116 | A table whose export is only white space appends an empty piece to the buffer |
| AggregationLemmas.FlushConserves | docling_convert.py:64-68 | Flushing empties the buffer, loses and adds no piece, keeps every earlier section, and creates no section without pieces |
| AggregationLemmas.AdvancePageText | docling_convert.py:117-122 | One loop body moves to the item's page, and appends the item's piece to that page's text and to no other page's |
| AggregationLemmas.AdvanceHeadingTags | docling_convert.py:100-102 | One loop body adds its heading's "<level>: <text>" tag to the current page's set and to no other page's |
| AggregationLemmas.AdvanceKeepsHeadingsSorted | docling_convert.py:102 | The per-page heading sequences stay strictly sorted, that is, stay sets |
| AggregationLemmas.AdvanceConserves | docling_convert.py:104-122 | One loop body adds exactly its own piece to the pieces held in sections and buffer, in order |
| AggregationLemmas.AdvanceAppendsSections | docling_convert.py:64-105 | Sections are only ever appended, never with an empty buffer, and an item without heading text changes neither the sections nor the heading |
| AggregationLemmas.RunIsReplay | docling_convert.py:79-122 | The loop over the items equals the replay of their page, heading text and piece, computed item by item from the running page |
| AggregationLemmas.ReplayPageText | docling_convert.py:117-122 | Over any run of items, each page's text grows by exactly the pieces produced on that page, in order, and only pages that received a piece get a bucket |
| AggregationLemmas.ReplayHeadingTags | docling_convert.py:100-102 | Over any run of items, each page's heading set grows by exactly the tags of the headings seen on that page |
| AggregationLemmas.ReplayHeadingsSorted | docling_convert.py:102 | Over any run of items, the per-page heading sequences stay strictly sorted |
| AggregationLemmas.ReplayConserves | docling_convert.py:64-122 | Over any run of items, sections and buffer together gain exactly the pieces produced, in order |
| AggregationLemmas.ReplayAppendsSections | docling_convert.py:64-68 | Over any run of items, earlier sections are kept and no section without pieces is created |
| AggregationLemmas.ReplayWithoutHeadings | docling_convert.py:100-105 | A run of items with no heading text creates no section and keeps the current heading |
| AggregationLemmas.AggregateConservesPieces | docling_convert.py:59-124 | After the final flush, the sections hold every piece of the document exactly once, in document order, and none is empty |
| AggregationLemmas.AggregateWithoutHeadings | docling_convert.py:59-124 | A document with no heading text has one "Untitled" section holding all its pieces when it has any text, and none otherwise |
| AggregationLemmas.AdvanceFirstSection | docling_convert.py:100-122 | From a state with no sections, a loop body that closes a section closes it under the heading the first section must carry: the current one when the buffer held text, else the one in force at the first piece |
| AggregationLemmas.ReplayFirstSection | docling_convert.py:60-124 | Over any run of items from a state with no sections, the first section is headed by the current heading when the buffer already held text, and otherwise by the heading in force when the first piece arrives |
| AggregationLemmas.AggregateFirstSection | docling_convert.py:60-124 | The first section is headed by the heading in force when the first piece is added: "Untitled" when text comes before every heading, and otherwise the last heading seen before the first text. A heading that adds no piece of its own, such as one whose text comes from its metadata, is overtaken by any later heading that comes before the first text |
| AggregationLemmas.TextBeforeHeadingsIsUntitled | docling_convert.py:60-68 | When the first thing the items produce is text, there is a first section and it is "Untitled" |
| AggregationLemmas.RunSnoc | docling_convert.py:79-122 | The loop over a run of items and one more item is the loop over the run followed by one loop body on the last item |
| AggregationLemmas.FinalSectionOnLastItemsPage | docling_convert.py:124 | When the buffer holds text at the end, the final flush closes a last section on the page the last item moved the pass to, under the heading then in force, with the buffered text |
| AggregationLemmas.AggregatePageText | docling_convert.py:76-122 | After the pass, each page's text is exactly the pieces produced on that page, in order, and a page has an entry exactly when it received text |
| AggregationLemmas.AggregateHeadings | docling_convert.py:77-102 | After the pass, each page's heading sequence holds exactly the tags of the headings seen on that page, strictly sorted |
| AggregationLemmas.BuildPagesText | docling_convert.py:128-133 | Page records exist exactly for the pages with text, and each record's text is its pieces joined by newlines and stripped |
| AggregationLemmas.BuildPagesHeadings | docling_convert.py:134 | Each page record's headings are the page's tags, strictly sorted |
| AggregationLemmas.PagesAreTheTextPages | docling_convert.py:126-136 | The converted document's pages come in strictly ascending order and are exactly the pages on which some item produced text; pages with no text are absent |
| AggregationLemmas.PageTextIsItsPieces | docling_convert.py:133 | Each converted page's text is the pieces produced on that page, joined by newlines and stripped |
| AggregationLemmas.PageHeadingsAreSortedTags | docling_convert.py:134 | Each converted page's headings are exactly the tags of the headings seen on it, without repeats and in ascending string order |
| AggregationLemmas.PageHeadingsAreThePythonSort | docling_convert.py:134 | Any strictly sorted listing of a page's tag set equals that page's headings, so the headings are `sorted(list(set))`, whatever order the headings arrived in |
| AggregationLemmas.ConvertedSectionsWithoutHeadings | docling_convert.py:59-124 | A converted document with no heading text has at most one section: "Untitled", on the last current page, with all its text, present exactly when there is text |
| HeadingLevelLemmas.UpperFixedIff | docling_convert.py:36 | `t.upper() == t` holds exactly when `t` has no lower-case letter |
| HeadingLevelLemmas.LevelH1Iff | docling_convert.py:33-37 | "H1" is returned exactly for stripped text of at most 40 characters with a letter and no lower-case letter |
| HeadingLevelLemmas.BlankIsH2 | docling_convert.py:33-35 | Blank or white-space-only text is "H2" |
| HeadingLevelLemmas.NumericPrefixStartsWithDigit | docling_convert.py:38 | A numeric first token needs the stripped text to start with a digit |
| HeadingLevelLemmas.NonDigitStart | docling_convert.py:36-42 | Text not starting with a digit is "H1" when short all-caps and "H2" otherwise, never "H3" |
| HeadingLevelLemmas.LevelH3Iff | docling_convert.py:36-41 | "H3" is returned exactly for text that starts with a digit but is neither short all-caps nor numbered in its first three characters |
| HeadingLevelLemmas.LevelOfStripped | docling_convert.py:33 | Stripping the heading first does not change its level |
| HeadingLevelLemmas.LevelLooksAtThreeCharacters | docling_convert.py:38-42 | Past the all-caps test, two texts whose stripped forms share their first three characters get the same level |
| HeadingLevelLemmas.CapsAndBlankExamples | docling_convert.py:34-37 | "1. SCOPE" is "H1" and "" is "H2" |
| HeadingLevelLemmas.NumberedExample | docling_convert.py:38-39 | "1. Scope" is "H2" through its numeric first token |
| HeadingLevelLemmas.BareNumberExample | docling_convert.py:36-39 | "10." has no letter, so it is not all-caps, and it is "H2" as a number |
| HeadingLevelLemmas.SubsectionExample | docling_convert.py:38-41 | "1.2 Scope" is "H3": its first three characters "1.2" are no number |
| HeadingLevelLemmas.GluedDigitExample | docling_convert.py:38-41 | "2Test" is "H3": it starts with a digit but "2Te" is no number |
| HeadingLevelLemmas.PlainExample | docling_convert.py:42 | Title-case text such as "Introduction" is "H2" |
| Order.InsertSorted | docling_convert.py:102 | `set.add` on the sorted form: the elements become the old ones plus the new tag, sortedness is kept, and adding a present tag changes nothing |
| Order.SortedByElements | docling_convert.py:134 | Two strictly sorted sequences with the same elements are equal |
| Order.SortedKeys | docling_convert.py:128 | `sorted(keys)` is strictly increasing and holds exactly the keys |
| Text.Strip | docling_convert.py:33 | `strip()` gives text with no white space at either end and no longer than the input |
| Text.StripInfix | docling_convert.py:33 | `strip()` removes white space and only white space: the input is the result with white space on both sides |
| Text.StripEmptyIff | docling_convert.py:90 | `t.strip()` is empty exactly when `t` is blank |
| Text.StripIdempotent | docling_convert.py:33 | Stripping twice is stripping once |
| Text.StripRightChar | docling_convert.py:38 | `rstrip(".")` keeps a prefix of the input, everything it drops is a dot, and what is left does not end with a dot |
| Text.TakeUntil | docling_convert.py:38 | `split(" ")[0]` is a prefix of the input that holds no space and, when shorter than the input, stops right before a space |
| Text.SplitJoin | main_ingest.py:14-27 | Splitting at a character undoes joining with it, when no piece contains it |
| Decimal.NatToString | main_ingest.py:19 | The decimal form of a non-negative number is all digits, with no leading zero unless it is the single digit "0" |
| Decimal.ParseNatToString | main_ingest.py:19 | Reading the digits of `str(n)` back gives `n` for every non-negative `n` |
| Decimal.IntToString | main_ingest.py:19 | `str(n)` is non-empty, has no newline, and is all digits exactly when `n` is not negative; the digits carry no leading zero, and a negative number is a '-' followed by digits that do not start with '0' |
| Decimal.IntToStringRoundTrip | main_ingest.py:19 | `int(str(n)) == n` |
| Paths.LastIndexOf | main_ingest.py:43 | The position of the last occurrence of a character, or -1: that position holds the character and no later one does |
| Paths.FileNameIsLastComponent | docling_convert.py:51 | `Path.name` is the tail of the path after its last '/', and holds no '/' |
| Paths.SuffixIsLastDotPart | main_ingest.py:43 | `Path.suffix` is the name from its last dot on when that dot is neither the first nor the last character, and empty exactly when no dot strictly inside the name is the last one; a non-empty suffix is a proper tail starting with its only dot |
| MainIngest.BlockLines | main_ingest.py:14-27 | A page block has twelve lines and its last line is empty |
| MainIngest.PageBlockLines | main_ingest.py:12-27 | The twelve lines of the block of one page record: "Doc: " and the name, "Page: " and `str(page)`, "Headings: " and the headings joined by ", " (or "None" when there are none), the stripped text, and an empty last line |
| MainIngest.PageBlocks | main_ingest.py:69-70 | As many blocks as page records |
| MainIngest.Contribution | main_ingest.py:58-70 | A file fails exactly when the converter returned a non-empty error, and then contributes that error; otherwise it contributes one block, or one per page record when there are any |
| MainIngest.ProcessFile | main_ingest.py:58-61 | A file fails exactly when the engine failed on it, with "<file name>: <message>" as its error |
| MainIngest.Ingest | main_ingest.py:43-48 | With no supported file, the report is "No content." and the log "No supported files given." |
| IngestLemmas.CandidatesAppend | main_ingest.py:43 | Filtering a concatenation is concatenating the filtered parts, so order is kept |
| IngestLemmas.CandidatesMembers | main_ingest.py:43 | A path is a candidate exactly when it was given and is supported |
| IngestLemmas.IsSupportedIff | main_ingest.py:10-43 | A path is supported exactly when its file name ends, in any case, with one of ".pdf", ".docx", ".pptx", ".html" and is longer than that extension |
| IngestLemmas.PickedByExtension | main_ingest.py:43 | A name with a non-empty stem and a dotted extension is picked exactly when the lower-cased extension is supported |
| IngestLemmas.UpperCaseExtensionPicked | main_ingest.py:43 | "<stem>.PDF" is picked: the comparison ignores case |
| IngestLemmas.DotFileSkipped | main_ingest.py:43 | A hidden file such as ".pdf" has no suffix and is skipped |
| IngestLemmas.OtherExtensionSkipped | main_ingest.py:10-43 | "<stem>.txt" is skipped |
| IngestLemmas.PageBlockSplits | main_ingest.py:12-27 | When the fields hold no newline, splitting a block at newlines gives back its twelve lines |
| IngestLemmas.PageBlockLayout | main_ingest.py:14-27 | Whatever the text holds, a block is its ten fixed header lines joined by newlines, a newline, the stripped text and a closing newline |
| IngestLemmas.PageBlockFields | main_ingest.py:18-25 | The block's Doc line names the document, its Page line reads back as the page number, and its text line is the stripped text |
| IngestLemmas.HeadingsLineNone | main_ingest.py:13 | The headings line reads "None" exactly when there are no headings or the only heading is "None"; any non-empty list is rendered as its headings joined by ", " |
| IngestLemmas.PageBlockEndsWithNewline | main_ingest.py:26 | Every block ends with a newline |
| IngestLemmas.NoTextFallsBackToMarkdown | main_ingest.py:63-67 | A converted file without text on any page contributes one page-1 block of its stripped markdown, with no headings |
| IngestLemmas.TextGivesOneBlockPerPage | main_ingest.py:69-70 | A converted file with text has page records and contributes one block per record, in order: block k is the page block of record k under the file name |
| IngestLemmas.AbsorbAppends | main_ingest.py:59-70 | One file appends its error to the errors or its blocks to the lines, and nothing else |
| IngestLemmas.LoopCollects | main_ingest.py:57-70 | After the loop, the lines are all blocks file by file and the errors are all errors file by file, each appended to what was there |
| IngestLemmas.ErrorsAreFailures | main_ingest.py:58-61 | The collected errors are exactly the engine failures, in file order |
| IngestLemmas.NoFailuresIff | main_ingest.py:73-77 | There are no errors exactly when the engine converted every candidate |
| IngestLemmas.NoCandidatesIff | main_ingest.py:44-48 | The "No content." report is produced exactly when no file is supported |
| IngestLemmas.ReportLayout | main_ingest.py:50-77 | The report is the header with the file count, every block, "# End" and the error count when there are errors, joined by newlines; the log lists the errors or says "No errors." |

## Left out

- The Docling engine is not modelled. `DocumentConverter().convert`, `export_to_markdown`, `iterate_items` and the table export are inputs carried by `EngineOutcome` and `Item`.
- A failing markdown export is an absent markdown, which becomes "". A failing table export is an absent export. A failure while obtaining the iterator (the `try` around `iterate_items`) is the same as an empty item list.
- An exception raised while the items are being iterated is not modelled. Neither the adapter nor `main` catches it, so the whole run stops before either file is written.
- The `_lvl` depth from `iterate_items` is not modelled; the code ignores it too.
- `fs_utils` (`ensure_dir`, `write_text`) is not part of this model. The report and the log are returned as strings.
- Argument parsing, the `--cpu-only` switch to `CUDA_VISIBLE_DEVICES`, the progress bar and the final console message are left out: they are I/O only.
- Other scripts of the repository (the Qdrant test and the selected-run helper) are not part of this model.
- Text is ASCII. Python's Unicode rules for `strip`, `upper`, `lower`, `isdigit` and `isalpha` are not modelled.
- Paths are POSIX strings split at '/'. pathlib's normalisation is not modelled: a trailing '/' is dropped by pathlib, but here it gives an empty name.
- Python truthiness of objects is left out. Metadata present means truthy. The fields are typed, so labels are strings and headings are a list of strings or absent. `str()` on non-string labels and headings, and a `headings` value that is not a list, are not modelled.
- `int(p.page_no)` is taken as an already integer page number. A conversion that fails, falls to the `except` and returns 1, is not modelled.
- The sections are computed and returned but `main` never reads them. They are modelled all the same.
- MainIngest.PageBlocks: its own contract gives only the number of blocks. That block k is the page block of record k is stated in `IngestLemmas.TextGivesOneBlockPerPage`.
- MainIngest.Filter: its own contract only bounds the length. Membership and order are stated in `IngestLemmas.CandidatesMembers` and `IngestLemmas.CandidatesAppend`.
- MainIngest.Ingest: its own contract covers only the no-candidates branch. The full layout of the report and the log is in `IngestLemmas.ReportLayout`.
