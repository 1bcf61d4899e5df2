/** The conversion adapter: how the engine's items are classified, and the one
    forward pass that buckets their text by page and cuts it into
    heading-delimited sections. The engine itself is an input: an item is the
    data the adapter can read off it, with every attribute that may be missing
    (or whose access may raise) as an `Option`. */
module DoclingConvert {
  import opened Wrappers
  import opened Text
  import opened Order
  import opened Paths
  import opened DocModels

  /** One provenance record; `pageNo` is None when `page_no` is missing or None. */
  datatype Prov = Prov(pageNo: Option<int>)

  /** Item metadata; `headings` is None unless the attribute is a list. */
  datatype Meta = Meta(headings: Option<seq<string>>)

  /** An engine item. `labels` is empty when the attribute is missing or empty;
      `tableMarkdown` is None when the table export raised or gave None. */
  datatype Item = Item(
    prov: seq<Prov>,
    labels: seq<string>,
    itemLabel: Option<string>,
    text: Option<string>,
    dlMeta: Option<Meta>,
    meta: Option<Meta>,
    tableMarkdown: Option<string>)

  /** What the engine produced for one file: a failure message, or a document
      with its markdown export (None when the export raised) and its items in
      reading order (empty when iteration raised). */
  datatype EngineOutcome =
    | EngineError(message: string)
    | EngineDocument(markdown: Option<string>, items: seq<Item>)

  // ---------------------------------------------------------------------------
  // Item classification

  /** The page an item claims: the first provenance record's page number, else 1. */
  function PageFromItem(it: Item): int {
    if |it.prov| > 0 && it.prov[0].pageNo.Some? then it.prov[0].pageNo.value else 1
  }

  /** `pg or current_page`: only page 0 falls back to the current page. */
  function NextPage(current: int, it: Item): int {
    var pg := PageFromItem(it);
    if pg == 0 then current else pg
  }

  /** `dl_meta`, or `meta` when there is no `dl_meta`. */
  function ResolvedMeta(it: Item): Option<Meta> {
    if it.dlMeta.Some? then it.dlMeta else it.meta
  }

  /** The metadata's heading list, empty when there is none. */
  function MetaHeadings(it: Item): seq<string> {
    match ResolvedMeta(it)
    case Some(Meta(Some(hs))) => hs
    case _ => []
  }

  predicate HasHeadingLabel(labels: seq<string>) {
    exists i :: 0 <= i < |labels| && Lower(labels[i]) == "heading"
  }

  /** A heading is an item labelled "heading" (in any case) or one whose
      metadata carries a non-empty heading list. */
  predicate IsHeading(it: Item) {
    HasHeadingLabel(it.labels) || |MetaHeadings(it)| > 0
  }

  /** What `strip()` does to each text field of an item: it removes only
      white space, and leaves nothing exactly when the field is blank. */
  lemma FieldStrips(it: Item)
    ensures it.text.Some? ==>
      (Strip(it.text.value) == [] <==> AllSpace(it.text.value)) && Padded(it.text.value, Strip(it.text.value))
    ensures |MetaHeadings(it)| > 0 ==>
      (Strip(MetaHeadings(it)[0]) == [] <==> AllSpace(MetaHeadings(it)[0])) && Padded(MetaHeadings(it)[0], Strip(MetaHeadings(it)[0]))
    ensures it.tableMarkdown.Some? ==> Padded(it.tableMarkdown.value, Strip(it.tableMarkdown.value))
  {
    if it.text.Some? {
      StripEmptyIff(it.text.value);
      StripInfix(it.text.value);
    }
    if |MetaHeadings(it)| > 0 {
      StripEmptyIff(MetaHeadings(it)[0]);
      StripInfix(MetaHeadings(it)[0]);
    }
    if it.tableMarkdown.Some? {
      StripInfix(it.tableMarkdown.value);
    }
  }

  /** The text a heading item opens a section with: its own text, stripped,
      when that text is not blank; else its first metadata heading, stripped,
      when that is not blank. None when the item is no heading or both are
      blank. */
  function HeadingText(it: Item): (h: Option<string>)
    ensures h.Some? ==> h.value != [] && Stripped(h.value)
    ensures h.Some? <==>
      && IsHeading(it)
      && ((it.text.Some? && !AllSpace(it.text.value)) || (|MetaHeadings(it)| > 0 && !AllSpace(MetaHeadings(it)[0])))
    ensures h.Some? && it.text.Some? && !AllSpace(it.text.value) ==> Padded(it.text.value, h.value)
    ensures h.Some? && !(it.text.Some? && !AllSpace(it.text.value)) ==>
      |MetaHeadings(it)| > 0 && Padded(MetaHeadings(it)[0], h.value)
  {
    FieldStrips(it);
    if !IsHeading(it) then None
    else if it.text.Some? && Strip(it.text.value) != [] then Some(Strip(it.text.value))
    else if |MetaHeadings(it)| > 0 && Strip(MetaHeadings(it)[0]) != [] then Some(Strip(MetaHeadings(it)[0]))
    else None
  }

  /** `str(label).lower() == "table"` for a truthy label. */
  predicate IsTable(it: Item) {
    it.itemLabel.Some? && it.itemLabel.value != [] && Lower(it.itemLabel.value) == "table"
  }

  /** The text an item adds to its section and page: a table's markdown
      export, stripped, when the export is non-empty; any other item's text,
      stripped, when it is not blank. */
  function Piece(it: Item): (p: Option<string>)
    ensures p.Some? ==> Stripped(p.value)
    ensures IsTable(it) ==> (p.Some? <==> it.tableMarkdown.Some? && it.tableMarkdown.value != [])
    ensures IsTable(it) && p.Some? ==> Padded(it.tableMarkdown.value, p.value)
    ensures !IsTable(it) ==> (p.Some? <==> it.text.Some? && !AllSpace(it.text.value))
    ensures !IsTable(it) && p.Some? ==> p.value != [] && Padded(it.text.value, p.value)
  {
    FieldStrips(it);
    if IsTable(it) then
      if it.tableMarkdown.Some? && it.tableMarkdown.value != [] then Some(Strip(it.tableMarkdown.value)) else None
    else if it.text.Some? && Strip(it.text.value) != [] then Some(Strip(it.text.value))
    else None
  }

  // ---------------------------------------------------------------------------
  // Heading level heuristic

  /** At most 40 characters, unchanged by `upper()`, and holding a letter. */
  predicate ShortAllCaps(t: string) {
    |t| <= 40 && Upper(t) == t && exists i :: 0 <= i < |t| && IsAlpha(t[i])
  }

  /** Whether the text opens with a number: take at most its first three
      characters, strip them, keep the part before the first space, drop
      trailing dots, and ask whether what is left is a non-empty run of digits
      (`t[:3].strip().split(" ")[0].rstrip(".").isdigit()`). */
  predicate NumericPrefix(t: string) {
    var window := t[..if |t| < 3 then |t| else 3];
    IsDigits(StripRightChar(TakeUntil(Strip(window), ' '), '.'))
  }

  /** The display level of a heading: "H1" for short all-caps text, "H2" for a
      numbered heading or anything else, "H3" for text that starts with a
      digit but has no numeric first token; blank text is "H2". */
  function HeadingLevelGuess(text: string): (level: string)
    ensures level == "H1" || level == "H2" || level == "H3"
  {
    var t := Strip(text);
    if t == [] then "H2"
    else if ShortAllCaps(t) then "H1"
    else if NumericPrefix(t) then "H2"
    else if IsDigit(t[0]) then "H3"
    else "H2"
  }

  /** The entry `f"{level}: {heading_text}"` a heading leaves in its page's set. */
  function Tag(h: string): string {
    HeadingLevelGuess(h) + ": " + h
  }

  // ---------------------------------------------------------------------------
  // The aggregation pass

  /** A section in the making: its heading, the page current when it was
      flushed, and the pieces of its buffer. */
  datatype SectionDraft = SectionDraft(heading: string, page: int, pieces: seq<string>)

  /** The loop's state: `current_page`, `current_heading`, `buf`, the flushed
      sections, `page_text`, and `page_headings` (each set held as the sorted
      sequence `sorted(list(...))` will produce). */
  datatype PassState = PassState(
    page: int,
    heading: string,
    buf: seq<string>,
    sections: seq<SectionDraft>,
    pageText: map<int, seq<string>>,
    pageHeadings: map<int, seq<string>>)

  const Initial: PassState := PassState(1, "Untitled", [], [], map[], map[])

  /** The pieces recorded for page `p`, or none when the page has no entry yet. */
  function Bucket(m: map<int, seq<string>>, p: int): seq<string> {
    if p in m then m[p] else []
  }

  /** `flush_section`: close the buffer as a section if it holds anything. */
  function Flush(st: PassState): PassState {
    if st.buf == [] then st
    else st.(sections := st.sections + [SectionDraft(st.heading, st.page, st.buf)], buf := [])
  }

  /** A heading with non-blank text: add its tag to the current page's set,
      flush, and make it the current heading. */
  function OpenSection(st: PassState, h: string): PassState {
    var tags := InsertSorted(Bucket(st.pageHeadings, st.page), Tag(h));
    Flush(st.(pageHeadings := st.pageHeadings[st.page := tags])).(heading := h)
  }

  /** Append a piece to the section buffer and to the current page's bucket. */
  function AddPiece(st: PassState, x: string): PassState {
    st.(buf := st.buf + [x], pageText := st.pageText[st.page := Bucket(st.pageText, st.page) + [x]])
  }

  /** The loop body once the item's page, heading text and piece are known:
      move to page `p`, open a section for a heading, then add the piece. */
  function Advance(st: PassState, p: int, h: Option<string>, x: Option<string>): PassState {
    var s1 := st.(page := p);
    var s2 := match h
      case Some(t) => OpenSection(s1, t)
      case None => s1;
    match x
    case Some(y) => AddPiece(s2, y)
    case None => s2
  }

  /** One iteration of the loop over the engine's items. */
  function Step(st: PassState, it: Item): PassState {
    Advance(st, NextPage(st.page, it), HeadingText(it), Piece(it))
  }

  /** The loop itself, from state `st`. */
  function Run(st: PassState, items: seq<Item>): PassState
    decreases |items|
  {
    if items == [] then st else Run(Step(st, items[0]), items[1..])
  }

  /** The whole pass: the loop from the initial state, then the final flush. */
  function Aggregate(items: seq<Item>): PassState {
    Flush(Run(Initial, items))
  }

  /** The record of page `p`: its pieces joined by newlines and stripped,
      and its heading tags. */
  function PageRecord(docName: string, p: int, pageText: map<int, seq<string>>, pageHeadings: map<int, seq<string>>): PageItem
    requires p in pageText
  {
    PageItem(docName, p, Strip(Join(pageText[p], "\n")), Bucket(pageHeadings, p))
  }

  /** The records of the pages `keys`, in that order. */
  function PagesFor(docName: string, keys: seq<int>, pageText: map<int, seq<string>>, pageHeadings: map<int, seq<string>>): (pages: seq<PageItem>)
    requires forall i :: 0 <= i < |keys| ==> keys[i] in pageText
    ensures |pages| == |keys|
    ensures forall k :: 0 <= k < |pages| ==> pages[k].page == keys[k]
    ensures forall k :: 0 <= k < |pages| ==> pages[k] == PageRecord(docName, keys[k], pageText, pageHeadings)
    decreases |keys|
  {
    if keys == [] then []
    else
      var rest := PagesFor(docName, keys[1..], pageText, pageHeadings);
      var pages := [PageRecord(docName, keys[0], pageText, pageHeadings)] + rest;
      assert forall k :: 1 <= k < |pages| ==> pages[k] == rest[k - 1] && keys[1..][k - 1] == keys[k];
      pages
  }

  /** The page numbers the records carry. */
  function PageNumbers(pages: seq<PageItem>): set<int> {
    set k | 0 <= k < |pages| :: pages[k].page
  }

  /** `sorted(page_text.keys())` turned into page records: one per key, in
      ascending page order. */
  function BuildPages(docName: string, pageText: map<int, seq<string>>, pageHeadings: map<int, seq<string>>): (pages: seq<PageItem>)
    ensures forall i, j :: 0 <= i < j < |pages| ==> pages[i].page < pages[j].page
    ensures PageNumbers(pages) == pageText.Keys
    ensures forall k :: 0 <= k < |pages| ==>
      (pages[k].page in pageText && pages[k] == PageRecord(docName, pages[k].page, pageText, pageHeadings))
  {
    var keys := SortedKeys(pageText.Keys);
    var pages := PagesFor(docName, keys, pageText, pageHeadings);
    assert StrictlyIncreasing(keys);
    assert forall k :: 0 <= k < |pages| ==> pages[k].page == keys[k];
    PageNumbersOfKeys(pages, keys, pageText.Keys);
    pages
  }

  lemma PageNumbersOfKeys(pages: seq<PageItem>, keys: seq<int>, s: set<int>)
    requires |pages| == |keys|
    requires forall k :: 0 <= k < |pages| ==> pages[k].page == keys[k]
    requires forall x :: x in keys <==> x in s
    ensures PageNumbers(pages) == s
  {
    forall p | p in s ensures p in PageNumbers(pages) {
      var k :| 0 <= k < |keys| && keys[k] == p;
      assert pages[k].page == p;
    }
  }

  /** `flush_section`'s rendering of a closed section. */
  function ToSectionItem(docName: string, d: SectionDraft): SectionItem {
    SectionItem(docName, d.heading, d.page, Strip(Join(d.pieces, "\n")))
  }

  /** The result the adapter builds from the markdown and a finished pass:
      each section rendered, and the page records. */
  function Render(name: string, md: string, agg: PassState): (res: IngestResult)
    ensures res.markdown == md
    ensures forall k :: 0 <= k < |res.pages| ==> res.pages[k].docName == name
    ensures forall k :: 0 <= k < |res.sections| ==> res.sections[k].docName == name
  {
    var sections := seq(|agg.sections|, i requires 0 <= i < |agg.sections| => ToSectionItem(name, agg.sections[i]));
    IngestResult(md, sections, BuildPages(name, agg.pageText, agg.pageHeadings))
  }

  /** `convert_to_markdown_and_sections`: an empty result and "<name>: <message>"
      when the engine failed, else the markdown, the sections and the pages of
      the pass, and no error. */
  function ConvertToMarkdownAndSections(path: string, outcome: EngineOutcome): (r: (IngestResult, Option<string>))
    ensures outcome.EngineError? <==> r.1.Some?
    ensures outcome.EngineError? ==>
      r.0 == IngestResult("", [], []) && r.1.value == FileName(path) + ": " + outcome.message
    ensures outcome.EngineDocument? ==> r.0.markdown == outcome.markdown.GetOr("")
    ensures forall k :: 0 <= k < |r.0.pages| ==> r.0.pages[k].docName == FileName(path)
    ensures forall k :: 0 <= k < |r.0.sections| ==> r.0.sections[k].docName == FileName(path)
  {
    var name := FileName(path);
    match outcome
    case EngineError(msg) => (IngestResult("", [], []), Some(name + ": " + msg))
    case EngineDocument(md, items) => (Render(name, md.GetOr(""), Aggregate(items)), None)
  }
}
