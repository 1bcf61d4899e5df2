/** The command-line driver: pick the supported files, convert each one, and
    assemble the combined page-wise report and the error log. The converter's
    engine is a parameter (`engine` maps a path to what the engine produced for
    it); the two files are returned as strings instead of being written. */
module MainIngest {
  import opened Wrappers
  import opened Text
  import opened Decimal
  import opened Paths
  import opened DocModels
  import opened DoclingConvert

  const SupportedExt: seq<string> := [".pdf", ".docx", ".pptx", ".html"]

  /** Whether a path is picked for conversion: the suffix of its file name,
      lower-cased, is one of the four supported extensions. */
  predicate IsSupported(path: string) {
    Lower(Suffix(FileName(path))) in SupportedExt
  }

  /** The paths `keep` accepts, in the order given. */
  function Filter(files: seq<string>, keep: string -> bool): (cs: seq<string>)
    ensures |cs| <= |files|
    decreases |files|
  {
    if files == [] then []
    else (if keep(files[0]) then [files[0]] else []) + Filter(files[1..], keep)
  }

  /** The supported paths, in the order given. */
  function Candidates(files: seq<string>): seq<string> {
    Filter(files, IsSupported)
  }

  /** The headings joined by ", ", or "None" when there are none. */
  function HeadingsLine(headings: seq<string>): string {
    if headings == [] then "None" else Join(headings, ", ")
  }

  /** The twelve lines of a page block around its four rendered fields; the
      last one is empty, so the block ends with a newline. */
  function BlockLines(doc: string, page: string, headings: string, text: string): (lines: seq<string>)
    ensures |lines| == 12 && lines[11] == []
  {
    [ "---------",
      "meta data",
      "---------",
      "Doc: " + doc,
      "Page: " + page,
      "Headings: " + headings,
      "",
      "---------",
      "respective text",
      "---------",
      text,
      "" ]
  }

  /** The lines of the block for one page record. */
  function PageBlockLines(docName: string, page: int, headings: seq<string>, text: string): (lines: seq<string>)
    ensures |lines| == 12 && lines[11] == []
    ensures lines[3] == "Doc: " + docName
    ensures lines[4] == "Page: " + IntToString(page)
    ensures lines[5] == "Headings: " + (if headings == [] then "None" else Join(headings, ", "))
    ensures lines[10] == Strip(text)
  {
    BlockLines(docName, IntToString(page), HeadingsLine(headings), Strip(text))
  }

  /** `page_block`: the lines above joined by newlines. */
  function PageBlock(docName: string, page: int, headings: seq<string>, text: string): string {
    Join(PageBlockLines(docName, page, headings, text), "\n")
  }

  /** What one candidate adds to the report: an error, or its page blocks. */
  datatype FileContribution = Failed(error: string) | Blocks(blocks: seq<string>)

  /** One block per page record, in the records' order. */
  function PageBlocks(pages: seq<PageItem>): (blocks: seq<string>)
    ensures |blocks| == |pages|
  {
    seq(|pages|, k requires 0 <= k < |pages| => PageBlock(pages[k].docName, pages[k].page, pages[k].headings, pages[k].text))
  }

  /** One iteration of the driver's loop, given what the converter returned for
      `path`: a truthy error is recorded; a result without page records gives
      one page-1 block with the stripped markdown; otherwise one block per
      page record. */
  function Contribution(path: string, res: IngestResult, err: Option<string>): (c: FileContribution)
    ensures c.Failed? <==> err.Some? && err.value != []
    ensures c.Failed? ==> c.error == err.value
    ensures c.Blocks? ==> |c.blocks| == (if res.pages == [] then 1 else |res.pages|)
  {
    if err.Some? && err.value != [] then Failed(err.value)
    else if res.pages == [] then Blocks([PageBlock(FileName(path), 1, [], Strip(res.markdown))])
    else Blocks(PageBlocks(res.pages))
  }

  /** What one file contributes when converted with the real adapter: its error
      exactly when the engine failed on it. */
  function ProcessFile(path: string, outcome: EngineOutcome): (c: FileContribution)
    ensures c.Failed? <==> outcome.EngineError?
    ensures c.Failed? ==> c.error == FileName(path) + ": " + outcome.message
  {
    var r := ConvertToMarkdownAndSections(path, outcome);
    Contribution(path, r.0, r.1)
  }

  /** Converting each path with the real adapter on top of `engine`. */
  function ContributionsWith(engine: string -> EngineOutcome): string -> FileContribution {
    path => ProcessFile(path, engine(path))
  }

  /** `out_lines` and `errors` as the loop builds them. */
  datatype Accum = Accum(lines: seq<string>, errors: seq<string>)

  /** `errors.append(err)`, or `out_lines.append` of each block. */
  function Absorb(acc: Accum, c: FileContribution): Accum {
    match c
    case Failed(e) => Accum(acc.lines, acc.errors + [e])
    case Blocks(bs) => Accum(acc.lines + bs, acc.errors)
  }

  /** The driver's loop over the candidates, from accumulator `acc`;
      `contribute` stands for converting one file and classifying the result. */
  function Loop(acc: Accum, files: seq<string>, contribute: string -> FileContribution): Accum
    decreases |files|
  {
    if files == [] then acc
    else Loop(Absorb(acc, contribute(files[0])), files[1..], contribute)
  }

  /** The first three report lines. */
  function Header(count: nat): seq<string> {
    ["# Combined page-wise export with headings", "# Files: " + IntToString(count), ""]
  }

  /** The closing lines: "# End", then the error count when there are errors. */
  function Trailer(errors: seq<string>): seq<string> {
    ["# End"] + (if errors == [] then [] else ["# Errors: " + IntToString(|errors|) + " (see _errors.txt)"])
  }

  /** The contents written to `combined.txt` and to `_errors.txt`. */
  datatype Report = Report(combined: string, log: string)

  const NoCandidates: Report := Report("No content.", "No supported files given.")

  /** `main` after argument parsing, for the paths `files`. */
  function Ingest(files: seq<string>, engine: string -> EngineOutcome): (r: Report)
    ensures Candidates(files) == [] ==> r == NoCandidates
  {
    var cs := Candidates(files);
    if cs == [] then NoCandidates
    else
      var acc := Loop(Accum(Header(|cs|), []), cs, ContributionsWith(engine));
      Report(Join(acc.lines + Trailer(acc.errors), "\n"),
             if acc.errors == [] then "No errors." else Join(acc.errors, "\n"))
  }
}
