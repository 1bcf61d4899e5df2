/** Properties of the driver: which files are picked, what a page block looks
    like, and how the report and the log are assembled. */
module IngestLemmas {
  import opened Wrappers
  import opened Text
  import opened Decimal
  import opened Paths
  import opened DocModels
  import opened DoclingConvert
  import opened AggregationLemmas
  import opened MainIngest

  // ---------------------------------------------------------------------------
  // Picking the candidates

  /** Filtering keeps the given order: filtering a concatenation is
      concatenating the filtered parts. */
  lemma {:induction false} FilterAppend(a: seq<string>, b: seq<string>, keep: string -> bool)
    ensures Filter(a + b, keep) == Filter(a, keep) + Filter(b, keep)
    decreases |a|
  {
    if a == [] {
      assert a + b == b;
    } else {
      assert (a + b)[0] == a[0];
      assert (a + b)[1..] == a[1..] + b;
      FilterAppend(a[1..], b, keep);
    }
  }

  /** Filtering keeps exactly the accepted elements. */
  lemma {:induction false} FilterMembers(files: seq<string>, keep: string -> bool)
    ensures forall x :: x in Filter(files, keep) <==> x in files && keep(x)
    decreases |files|
  {
    if files != [] {
      FilterMembers(files[1..], keep);
      assert files == [files[0]] + files[1..];
    }
  }

  /** The candidates of a concatenation are the candidates of its parts, in order. */
  lemma CandidatesAppend(a: seq<string>, b: seq<string>)
    ensures Candidates(a + b) == Candidates(a) + Candidates(b)
  {
    FilterAppend(a, b, IsSupported);
  }

  /** The candidates are exactly the supported paths given. */
  lemma CandidatesMembers(files: seq<string>)
    ensures forall x :: x in Candidates(files) <==> x in files && IsSupported(x)
  {
    FilterMembers(files, IsSupported);
  }

  lemma LowerLength(s: string)
    ensures |Lower(s)| == |s|
  {
  }

  lemma LowerDot(c: char)
    ensures ToLowerChar(c) == '.' <==> c == '.'
  {
  }

  /** A name ends with extension `e` compared case-insensitively, and is longer. */
  predicate EndsWithExtension(name: string, e: string) {
    |e| < |name| && Lower(name[|name| - |e|..]) == e
  }

  /** A file is supported exactly when its name ends, case-insensitively, with
      one of the four extensions and is longer than it (a bare ".pdf" is a
      hidden file without a suffix). */
  lemma IsSupportedIff(path: string)
    ensures IsSupported(path) <==> exists e :: e in SupportedExt && EndsWithExtension(FileName(path), e)
  {
    var name := FileName(path);
    if IsSupported(path) {
      SuffixIsExtension(name);
    }
    if exists e :: e in SupportedExt && EndsWithExtension(name, e) {
      var e :| e in SupportedExt && EndsWithExtension(name, e);
      ExtensionIsSuffix(name, e);
    }
  }

  lemma SuffixIsExtension(name: string)
    requires Lower(Suffix(name)) in SupportedExt
    ensures EndsWithExtension(name, Lower(Suffix(name)))
  {
    var r := Suffix(name);
    LowerLength(r);
    assert name[|name| - |r|..] == r;
  }

  lemma ExtensionIsSuffix(name: string, e: string)
    requires e in SupportedExt && EndsWithExtension(name, e)
    ensures Lower(Suffix(name)) == e
  {
    var j := |name| - |e|;
    var tail := name[j..];
    assert e[0] == '.' && '.' !in e[1..];
    assert ToLowerChar(name[j]) == Lower(tail)[0];
    LowerDot(name[j]);
    forall k | j < k < |name| ensures name[k] != '.' {
      assert Lower(tail)[k - j] == ToLowerChar(name[k]);
      assert e[k - j] in e[1..];
      LowerDot(name[k]);
    }
    assert LastIndexOf(name, '.') == j;
  }

  /** A path without '/' is its own file name. */
  lemma PlainName(path: string)
    requires '/' !in path
    ensures FileName(path) == path
  {
    assert LastIndexOf(path, '/') == -1;
  }

  /** A name that ends in a dot followed by dot-free text `ext`, after a
      non-empty stem, has `ext` as its suffix. */
  lemma SuffixOfTail(stem: string, ext: string)
    requires stem != [] && |ext| >= 2 && ext[0] == '.' && '.' !in ext[1..]
    ensures Suffix(stem + ext) == ext
  {
    var name := stem + ext;
    var i := LastIndexOf(name, '.');
    assert name[|stem|] == '.';
    forall k | |stem| < k < |name| ensures name[k] != '.' {
      assert name[k] == ext[1..][k - |stem| - 1];
    }
    assert i == |stem|;
    assert name[i..] == ext;
  }

  /** A path without '/' made of a non-empty stem and an extension is picked
      exactly when the lower-cased extension is one of the four. */
  lemma PickedByExtension(stem: string, ext: string)
    requires stem != [] && '/' !in stem && '/' !in ext
    requires |ext| >= 2 && ext[0] == '.' && '.' !in ext[1..]
    ensures IsSupported(stem + ext) <==> Lower(ext) in SupportedExt
  {
    var name := stem + ext;
    assert '/' !in name;
    PlainName(name);
    SuffixOfTail(stem, ext);
  }

  /** The extension is matched in any case: "Report.PDF" is picked. */
  lemma UpperCaseExtensionPicked(stem: string)
    requires stem != [] && '/' !in stem
    ensures IsSupported(stem + ".PDF")
  {
    PickedByExtension(stem, ".PDF");
    LowerPdf();
  }

  lemma LowerPdf()
    ensures Lower(".PDF") == ".pdf"
  {
    assert ToLowerChar('P') == 'p' && ToLowerChar('D') == 'd' && ToLowerChar('F') == 'f';
  }

  /** A dot-file such as ".pdf" has no suffix, so it is skipped. */
  lemma DotFileSkipped(rest: string)
    requires '/' !in rest && '.' !in rest
    ensures !IsSupported("." + rest)
  {
    var name := "." + rest;
    PlainName(name);
    forall k | 0 < k < |name| ensures name[k] != '.' {
      assert name[k] == rest[k - 1];
    }
    assert name[0] == '.';
    assert LastIndexOf(name, '.') == 0;
    assert Suffix(name) == [];
  }

  /** Other extensions are skipped, even after an earlier supported one:
      "a.pdf.txt" is not picked. */
  lemma OtherExtensionSkipped(stem: string)
    requires stem != [] && '/' !in stem
    ensures !IsSupported(stem + ".txt")
  {
    PickedByExtension(stem, ".txt");
    TxtUnsupported();
  }

  lemma TxtUnsupported()
    ensures Lower(".txt") !in SupportedExt
  {
    assert Lower(".txt")[1] == 't';
  }

  // ---------------------------------------------------------------------------
  // Page blocks

  /** A block whose fields hold no newline splits back into its twelve lines. */
  lemma PageBlockSplits(docName: string, page: int, headings: seq<string>, text: string)
    requires '\n' !in docName && '\n' !in HeadingsLine(headings) && '\n' !in Strip(text)
    ensures Split(PageBlock(docName, page, headings, text), '\n') == PageBlockLines(docName, page, headings, text)
  {
    var lines := PageBlockLines(docName, page, headings, text);
    NoNewlineInLines(docName, page, headings, text);
    SplitJoin(lines, '\n');
  }

  lemma NoNewlineInLines(docName: string, page: int, headings: seq<string>, text: string)
    requires '\n' !in docName && '\n' !in HeadingsLine(headings) && '\n' !in Strip(text)
    ensures var lines := PageBlockLines(docName, page, headings, text);
      forall k :: 0 <= k < |lines| ==> '\n' !in lines[k]
  {
    assert '\n' !in IntToString(page);
    NoNewlineInBlockLines(docName, IntToString(page), HeadingsLine(headings), Strip(text));
  }

  lemma NoNewlineInBlockLines(doc: string, page: string, headings: string, text: string)
    requires '\n' !in doc && '\n' !in page && '\n' !in headings && '\n' !in text
    ensures var lines := BlockLines(doc, page, headings, text);
      forall k :: 0 <= k < |lines| ==> '\n' !in lines[k]
  {
  }

  /** Whatever the text holds, a block is its ten fixed header lines, a
      newline, the stripped text, and a closing newline. */
  lemma PageBlockLayout(docName: string, page: int, headings: seq<string>, text: string)
    ensures var lines := PageBlockLines(docName, page, headings, text);
      PageBlock(docName, page, headings, text) == Join(lines[..10], "\n") + "\n" + Strip(text) + "\n"
  {
    var lines := PageBlockLines(docName, page, headings, text);
    assert lines == lines[..10] + [lines[10], lines[11]];
    JoinAppend(lines[..10], [lines[10], lines[11]], "\n");
    assert Join([lines[10], lines[11]], "\n") == lines[10] + "\n" + Join([lines[11]], "\n");
  }

  /** The name, the page and the text can be read back from a block. */
  lemma PageBlockFields(docName: string, page: int, headings: seq<string>, text: string)
    ensures var lines := PageBlockLines(docName, page, headings, text);
      && lines[3] == "Doc: " + docName
      && lines[10] == Strip(text)
      && lines[4][..6] == "Page: "
      && ParseInt(lines[4][6..]) == page
  {
    var line := "Page: " + IntToString(page);
    assert line[6..] == IntToString(page);
    IntToStringRoundTrip(page);
  }

  /** The headings line reads "None" both for no headings and for the single
      heading "None": the block does not tell them apart. */
  lemma HeadingsLineNone(headings: seq<string>)
    ensures HeadingsLine(headings) == "None" <==> headings == [] || headings == ["None"]
    ensures headings != [] ==> HeadingsLine(headings) == Join(headings, ", ")
  {
    if |headings| >= 2 {
      var s := Join(headings, ", ");
      assert s == headings[0] + ", " + Join(headings[1..], ", ");
      assert s[|headings[0]|] == ',';
      assert ',' !in "None";
    }
  }

  /** Every block ends with a newline, coming from its final empty line. */
  lemma PageBlockEndsWithNewline(docName: string, page: int, headings: seq<string>, text: string)
    ensures var b := PageBlock(docName, page, headings, text);
      |b| > 0 && b[|b| - 1] == '\n'
  {
    var lines := PageBlockLines(docName, page, headings, text);
    JoinAppend(lines[..11], [lines[11]], "\n");
    assert lines[..11] + [lines[11]] == lines;
  }

  // ---------------------------------------------------------------------------
  // One file

  lemma {:induction false} NoPiecesNowhere(evs: seq<Event>, p: int)
    requires AllPieces(evs) == []
    ensures PiecesOn(evs, p) == []
    decreases |evs|
  {
    if evs != [] {
      assert !evs[0].PieceAdded?;
      NoPiecesNowhere(evs[1..], p);
    }
  }

  lemma {:induction false} SomePiecesSomewhere(evs: seq<Event>)
    requires AllPieces(evs) != []
    ensures exists p :: PiecesOn(evs, p) != []
    decreases |evs|
  {
    if evs[0].PieceAdded? {
      assert PiecesOn(evs, evs[0].page)[0] == evs[0].text;
    } else {
      SomePiecesSomewhere(evs[1..]);
      var p :| PiecesOn(evs[1..], p) != [];
      assert PiecesOn(evs, p) == PiecesOn(evs[1..], p);
    }
  }

  /** A document whose items gave no text falls back to one block for page 1
      with no headings and the stripped markdown export. */
  lemma NoTextFallsBackToMarkdown(path: string, md: Option<string>, items: seq<Item>)
    requires AllPieces(Events(items, 1)) == []
    ensures ProcessFile(path, EngineDocument(md, items)) == Blocks([PageBlock(FileName(path), 1, [], Strip(md.GetOr("")))])
  {
    var pages := ConvertToMarkdownAndSections(path, EngineDocument(md, items)).0.pages;
    PagesAreTheTextPages(path, md, items);
    if pages != [] {
      NoPiecesNowhere(Events(items, 1), pages[0].page);
    }
  }

  /** A document whose items gave text contributes exactly its page records,
      one block each, in ascending page order. */
  lemma TextGivesOneBlockPerPage(path: string, md: Option<string>, items: seq<Item>)
    requires AllPieces(Events(items, 1)) != []
    ensures var pages := ConvertToMarkdownAndSections(path, EngineDocument(md, items)).0.pages;
      var c := ProcessFile(path, EngineDocument(md, items));
      && pages != []
      && c == Blocks(PageBlocks(pages))
      && |c.blocks| == |pages|
      && forall k :: 0 <= k < |pages| ==>
           c.blocks[k] == PageBlock(FileName(path), pages[k].page, pages[k].headings, pages[k].text)
  {
    var pages := ConvertToMarkdownAndSections(path, EngineDocument(md, items)).0.pages;
    PagesAreTheTextPages(path, md, items);
    SomePiecesSomewhere(Events(items, 1));
    var p :| PiecesOn(Events(items, 1), p) != [];
    assert p in PageNumbers(pages);
  }

  // ---------------------------------------------------------------------------
  // The loop against a reference

  function BlocksOf(c: FileContribution): seq<string> {
    if c.Blocks? then c.blocks else []
  }

  function ErrorsOf(c: FileContribution): seq<string> {
    if c.Failed? then [c.error] else []
  }

  /** Reference: every block, file by file. */
  function AllBlocks(files: seq<string>, contribute: string -> FileContribution): seq<string>
    decreases |files|
  {
    if files == [] then [] else BlocksOf(contribute(files[0])) + AllBlocks(files[1..], contribute)
  }

  /** Reference: every truthy error, file by file. */
  function AllErrors(files: seq<string>, contribute: string -> FileContribution): seq<string>
    decreases |files|
  {
    if files == [] then [] else ErrorsOf(contribute(files[0])) + AllErrors(files[1..], contribute)
  }

  lemma AbsorbAppends(acc: Accum, c: FileContribution)
    ensures Absorb(acc, c) == Accum(acc.lines + BlocksOf(c), acc.errors + ErrorsOf(c))
  {
  }

  /** The loop appends every file's blocks to the lines and every truthy error
      to the errors, in file order, and nothing else. */
  lemma {:induction false} LoopCollects(acc: Accum, files: seq<string>, contribute: string -> FileContribution)
    ensures Loop(acc, files, contribute).lines == acc.lines + AllBlocks(files, contribute)
    ensures Loop(acc, files, contribute).errors == acc.errors + AllErrors(files, contribute)
    decreases |files|
  {
    if files != [] {
      var c := contribute(files[0]);
      var rest := files[1..];
      var next := Absorb(acc, c);
      var r := Loop(acc, files, contribute);
      assert r == Loop(next, rest, contribute);
      LoopCollects(next, rest, contribute);
      AbsorbAppends(acc, c);
      calc {
        r.lines;
        next.lines + AllBlocks(rest, contribute);
        acc.lines + BlocksOf(c) + AllBlocks(rest, contribute);
        acc.lines + (BlocksOf(c) + AllBlocks(rest, contribute));
        acc.lines + AllBlocks(files, contribute);
      }
      calc {
        r.errors;
        next.errors + AllErrors(rest, contribute);
        acc.errors + ErrorsOf(c) + AllErrors(rest, contribute);
        acc.errors + (ErrorsOf(c) + AllErrors(rest, contribute));
        acc.errors + AllErrors(files, contribute);
      }
    }
  }

  /** Reference: the message of every file the engine failed on, in order. */
  function FailureMessages(files: seq<string>, engine: string -> EngineOutcome): seq<string>
    decreases |files|
  {
    if files == [] then []
    else
      (match engine(files[0]) case EngineError(m) => [FileName(files[0]) + ": " + m] case EngineDocument(_, _) => [])
      + FailureMessages(files[1..], engine)
  }

  /** With the real adapter the errors are exactly the engine's failures,
      each prefixed with its file name. */
  lemma {:induction false} ErrorsAreFailures(files: seq<string>, engine: string -> EngineOutcome)
    ensures AllErrors(files, ContributionsWith(engine)) == FailureMessages(files, engine)
    decreases |files|
  {
    if files != [] {
      assert ContributionsWith(engine)(files[0]) == ProcessFile(files[0], engine(files[0]));
      ErrorsAreFailures(files[1..], engine);
    }
  }

  /** The log says "No errors." exactly when the engine failed on no file. */
  lemma {:induction false} NoFailuresIff(files: seq<string>, engine: string -> EngineOutcome)
    ensures FailureMessages(files, engine) == [] <==> forall i :: 0 <= i < |files| ==> engine(files[i]).EngineDocument?
    decreases |files|
  {
    if files != [] {
      NoFailuresIff(files[1..], engine);
      if engine(files[0]).EngineDocument? {
        forall i | 0 < i < |files| ensures engine(files[i]) == engine(files[1..][i - 1]) {
        }
      }
    }
  }

  // ---------------------------------------------------------------------------
  // The report

  /** The fixed "nothing to do" report is produced exactly when no file is supported. */
  lemma NoCandidatesIff(files: seq<string>, engine: string -> EngineOutcome)
    ensures Ingest(files, engine) == NoCandidates <==> Candidates(files) == []
  {
    var cs := Candidates(files);
    if cs != [] {
      var acc := Loop(Accum(Header(|cs|), []), cs, ContributionsWith(engine));
      LoopCollects(Accum(Header(|cs|), []), cs, ContributionsWith(engine));
      var lines := acc.lines + Trailer(acc.errors);
      assert lines[0] == "# Combined page-wise export with headings";
      JoinStartsWithFirst(lines, "\n");
    }
  }

  lemma JoinStartsWithFirst(xs: seq<string>, sep: string)
    requires |xs| > 0
    ensures |Join(xs, sep)| >= |xs[0]| && Join(xs, sep)[..|xs[0]|] == xs[0]
  {
  }

  /** The report of supported files: the header naming the candidate count,
      every block in file order, "# End", and the error count when some
      conversion failed; the log lists the failures or says there were none. */
  lemma ReportLayout(files: seq<string>, engine: string -> EngineOutcome)
    requires Candidates(files) != []
    ensures var cs := Candidates(files); var errs := FailureMessages(cs, engine); var r := Ingest(files, engine);
      && r.combined == Join(Header(|cs|) + AllBlocks(cs, ContributionsWith(engine)) + Trailer(errs), "\n")
      && r.log == (if errs == [] then "No errors." else Join(errs, "\n"))
  {
    var cs := Candidates(files);
    LoopCollects(Accum(Header(|cs|), []), cs, ContributionsWith(engine));
    ErrorsAreFailures(cs, engine);
    assert [] + FailureMessages(cs, engine) == FailureMessages(cs, engine);
  }
}
