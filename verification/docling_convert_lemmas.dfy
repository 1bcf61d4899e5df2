/** Properties of the conversion adapter. The pass is compared against a
    reference trace: the sequence of heading and text events the items cause,
    each tagged with the page current at that moment. Page buckets, heading sets
    and sections are then stated as simple functions of that trace. */
module AggregationLemmas {
  import opened Wrappers
  import opened Text
  import opened Order
  import opened Paths
  import opened DocModels
  import opened DoclingConvert

  // ---------------------------------------------------------------------------
  // Reference trace

  datatype Event = HeadingSeen(page: int, text: string) | PieceAdded(page: int, text: string)

  /** The events one item causes once the current page is `page`: its heading
      first (if it has heading text), then its piece (if it has one). */
  function ItemEvents(it: Item, page: int): seq<Event> {
    EventsOf(page, HeadingText(it), Piece(it))
  }

  /** The events of a run of items starting on page `page`. */
  function Events(items: seq<Item>, page: int): seq<Event>
    decreases |items|
  {
    if items == [] then []
    else
      var p := NextPage(page, items[0]);
      ItemEvents(items[0], p) + Events(items[1..], p)
  }

  /** The pieces that landed on page `p`, in order. */
  function PiecesOn(evs: seq<Event>, p: int): seq<string>
    decreases |evs|
  {
    if evs == [] then []
    else (if evs[0].PieceAdded? && evs[0].page == p then [evs[0].text] else []) + PiecesOn(evs[1..], p)
  }

  /** All pieces, in order. */
  function AllPieces(evs: seq<Event>): seq<string>
    decreases |evs|
  {
    if evs == [] then []
    else (if evs[0].PieceAdded? then [evs[0].text] else []) + AllPieces(evs[1..])
  }

  /** The heading tags seen on page `p`. */
  function TagsOn(evs: seq<Event>, p: int): set<string>
    decreases |evs|
  {
    if evs == [] then {}
    else (if evs[0].HeadingSeen? && evs[0].page == p then {Tag(evs[0].text)} else {}) + TagsOn(evs[1..], p)
  }

  predicate NoHeadingEvents(evs: seq<Event>) {
    forall i :: 0 <= i < |evs| ==> !evs[i].HeadingSeen?
  }

  lemma {:induction false} PiecesOnAppend(a: seq<Event>, b: seq<Event>, p: int)
    ensures PiecesOn(a + b, p) == PiecesOn(a, p) + PiecesOn(b, p)
    decreases |a|
  {
    if a != [] {
      assert (a + b)[1..] == a[1..] + b;
      PiecesOnAppend(a[1..], b, p);
    } else {
      assert a + b == b;
    }
  }

  lemma {:induction false} AllPiecesAppend(a: seq<Event>, b: seq<Event>)
    ensures AllPieces(a + b) == AllPieces(a) + AllPieces(b)
    decreases |a|
  {
    if a != [] {
      assert (a + b)[1..] == a[1..] + b;
      AllPiecesAppend(a[1..], b);
    } else {
      assert a + b == b;
    }
  }

  lemma {:induction false} TagsOnAppend(a: seq<Event>, b: seq<Event>, p: int)
    ensures TagsOn(a + b, p) == TagsOn(a, p) + TagsOn(b, p)
    decreases |a|
  {
    if a != [] {
      assert (a + b)[1..] == a[1..] + b;
      TagsOnAppend(a[1..], b, p);
    } else {
      assert a + b == b;
    }
  }

  // ---------------------------------------------------------------------------
  // Page resolution

  /** An item without provenance is put on page 1, whatever page came before. */
  lemma ItemWithoutProvenanceIsOnPageOne(st: PassState, it: Item)
    requires it.prov == []
    ensures Step(st, it).page == 1
  {
  }

  /** Only a resolved page of 0 keeps the previous item's page. */
  lemma PageZeroKeepsCurrentPage(st: PassState, it: Item)
    ensures PageFromItem(it) == 0 ==> Step(st, it).page == st.page
    ensures PageFromItem(it) != 0 ==> Step(st, it).page == PageFromItem(it)
  {
  }

  // ---------------------------------------------------------------------------
  // One step

  /** A heading with text closes the open section (if it holds anything) at the
      heading's page before the heading's own text is added, so that text
      opens the next section. */
  lemma HeadingFlushesBeforeItsText(st: PassState, it: Item)
    requires HeadingText(it).Some?
    ensures var r := Step(st, it);
      && r.heading == HeadingText(it).value
      && r.sections == st.sections + (if st.buf == [] then [] else [SectionDraft(st.heading, NextPage(st.page, it), st.buf)])
      && r.buf == (match Piece(it) case Some(x) => [x] case None => [])
  {
  }

  /** An item without heading text never flushes, never changes the current
      heading and never touches the heading sets; its piece extends the buffer. */
  lemma PlainItemExtendsSection(st: PassState, it: Item)
    requires HeadingText(it).None?
    ensures var r := Step(st, it);
      && r.heading == st.heading
      && r.sections == st.sections
      && r.pageHeadings == st.pageHeadings
      && r.buf == st.buf + (match Piece(it) case Some(x) => [x] case None => [])
  {
  }

  /** A table contributes its stripped markdown export, whatever its text says. */
  lemma TablePieceIgnoresText(it: Item, t: Option<string>)
    requires IsTable(it)
    ensures Piece(it) == Piece(it.(text := t))
    ensures Piece(it).Some? <==> it.tableMarkdown.Some? && it.tableMarkdown.value != []
    ensures Piece(it).Some? ==> Piece(it).value == Strip(it.tableMarkdown.value)
  {
  }

  /** A truthy but blank table export still adds a piece: the empty string. */
  lemma BlankTableExportAddsEmptyPiece(st: PassState, it: Item)
    requires IsTable(it) && it.tableMarkdown.Some?
    requires it.tableMarkdown.value != [] && Strip(it.tableMarkdown.value) == []
    ensures Step(st, it).buf[|Step(st, it).buf| - 1] == []
  {
  }

  /** The events of one loop body, given the page, heading text and piece. */
  function EventsOf(p: int, h: Option<string>, x: Option<string>): seq<Event> {
    (match h case Some(t) => [HeadingSeen(p, t)] case None => [])
    + (match x case Some(y) => [PieceAdded(p, y)] case None => [])
  }

  lemma EventsOfParts(p: int, h: Option<string>, x: Option<string>, q: int)
    ensures PiecesOn(EventsOf(p, h, x), q) == (match x case Some(y) => if q == p then [y] else [] case None => [])
    ensures AllPieces(EventsOf(p, h, x)) == (match x case Some(y) => [y] case None => [])
    ensures TagsOn(EventsOf(p, h, x), q) == (match h case Some(t) => if q == p then {Tag(t)} else {} case None => {})
    ensures NoHeadingEvents(EventsOf(p, h, x)) ==> h.None?
  {
    var evs := EventsOf(p, h, x);
    match h
    case Some(t) =>
      assert evs == [HeadingSeen(p, t)] + evs[1..];
      PiecesOnAppend([HeadingSeen(p, t)], evs[1..], q);
      AllPiecesAppend([HeadingSeen(p, t)], evs[1..]);
      TagsOnAppend([HeadingSeen(p, t)], evs[1..], q);
      assert evs[0].HeadingSeen?;
    case None =>
  }

  lemma AdvancePageText(st: PassState, p: int, h: Option<string>, x: Option<string>)
    ensures var r := Advance(st, p, h, x); var evs := EventsOf(p, h, x);
      && r.page == p
      && (forall q :: Bucket(r.pageText, q) == Bucket(st.pageText, q) + PiecesOn(evs, q))
      && (forall q :: q in r.pageText <==> q in st.pageText || PiecesOn(evs, q) != [])
  {
    forall q ensures PiecesOn(EventsOf(p, h, x), q) == (match x case Some(y) => if q == p then [y] else [] case None => []) {
      EventsOfParts(p, h, x, q);
    }
  }

  /** Every page's heading list held strictly sorted. */
  predicate HeadingsSorted(st: PassState) {
    forall q :: q in st.pageHeadings ==> StrictlySorted(st.pageHeadings[q])
  }

  /** One loop body adds the tag of its heading text to its page's set. */
  lemma AdvanceHeadingTags(st: PassState, p: int, h: Option<string>, x: Option<string>)
    ensures var r := Advance(st, p, h, x); var evs := EventsOf(p, h, x);
      forall q :: Elems(Bucket(r.pageHeadings, q)) == Elems(Bucket(st.pageHeadings, q)) + TagsOn(evs, q)
  {
    forall q ensures TagsOn(EventsOf(p, h, x), q) == (match h case Some(t) => if q == p then {Tag(t)} else {} case None => {}) {
      EventsOfParts(p, h, x, q);
    }
  }

  /** One loop body keeps every page's heading list strictly sorted. */
  lemma AdvanceKeepsHeadingsSorted(st: PassState, p: int, h: Option<string>, x: Option<string>)
    requires HeadingsSorted(st)
    ensures HeadingsSorted(Advance(st, p, h, x))
  {
  }

  /** The pieces of a list of sections, in order. */
  function Flatten(ds: seq<SectionDraft>): seq<string>
    decreases |ds|
  {
    if ds == [] then [] else ds[0].pieces + Flatten(ds[1..])
  }

  lemma {:induction false} FlattenSnoc(ds: seq<SectionDraft>, d: SectionDraft)
    ensures Flatten(ds + [d]) == Flatten(ds) + d.pieces
    decreases |ds|
  {
    if ds == [] {
      assert ds + [d] == [d];
    } else {
      assert (ds + [d])[1..] == ds[1..] + [d];
      FlattenSnoc(ds[1..], d);
    }
  }

  predicate DraftsNonEmpty(ds: seq<SectionDraft>) {
    forall k :: 0 <= k < |ds| ==> ds[k].pieces != []
  }

  /** Flushing moves the buffer into a section without losing or adding pieces. */
  lemma FlushConserves(st: PassState)
    ensures Flatten(Flush(st).sections) + Flush(st).buf == Flatten(st.sections) + st.buf
    ensures Flush(st).buf == []
    ensures DraftsNonEmpty(st.sections) ==> DraftsNonEmpty(Flush(st).sections)
    ensures st.sections <= Flush(st).sections
  {
    if st.buf != [] {
      FlattenSnoc(st.sections, SectionDraft(st.heading, st.page, st.buf));
    }
  }

  /** One loop body moves the pieces it adds to the end of sections-plus-buffer. */
  lemma AdvanceConserves(st: PassState, p: int, h: Option<string>, x: Option<string>)
    ensures var r := Advance(st, p, h, x);
      Flatten(r.sections) + r.buf == Flatten(st.sections) + st.buf + AllPieces(EventsOf(p, h, x))
  {
    var s1 := st.(page := p);
    EventsOfParts(p, h, x, p);
    match h
    case Some(t) =>
      var tags := InsertSorted(Bucket(s1.pageHeadings, s1.page), Tag(t));
      FlushConserves(s1.(pageHeadings := s1.pageHeadings[s1.page := tags]));
    case None =>
  }

  /** One loop body only appends sections, and never an empty one; without
      heading text it neither closes a section nor changes the heading. */
  lemma AdvanceAppendsSections(st: PassState, p: int, h: Option<string>, x: Option<string>)
    ensures var r := Advance(st, p, h, x);
      && (DraftsNonEmpty(st.sections) ==> DraftsNonEmpty(r.sections))
      && st.sections <= r.sections
      && (h.None? ==> r.sections == st.sections && r.heading == st.heading)
  {
    var s1 := st.(page := p);
    match h
    case Some(t) =>
      var tags := InsertSorted(Bucket(s1.pageHeadings, s1.page), Tag(t));
      FlushConserves(s1.(pageHeadings := s1.pageHeadings[s1.page := tags]));
    case None =>
  }

  // ---------------------------------------------------------------------------
  // The whole loop, replayed from what each item resolves to

  /** What the loop body reads off one item: the page it moves to, its heading
      text and its piece. */
  datatype Move = Move(page: int, heading: Option<string>, piece: Option<string>)

  /** The moves of a run of items starting on page `page`. */
  function Moves(items: seq<Item>, page: int): seq<Move>
    decreases |items|
  {
    if items == [] then []
    else
      var p := NextPage(page, items[0]);
      [Move(p, HeadingText(items[0]), Piece(items[0]))] + Moves(items[1..], p)
  }

  /** The loop body applied to each move in turn. */
  function Replay(st: PassState, ms: seq<Move>): PassState
    decreases |ms|
  {
    if ms == [] then st else Replay(Advance(st, ms[0].page, ms[0].heading, ms[0].piece), ms[1..])
  }

  /** The events of a sequence of moves. */
  function MoveEvents(ms: seq<Move>): seq<Event>
    decreases |ms|
  {
    if ms == [] then [] else EventsOf(ms[0].page, ms[0].heading, ms[0].piece) + MoveEvents(ms[1..])
  }

  /** The loop is the replay of its items' moves. */
  lemma {:induction false} RunIsReplay(st: PassState, items: seq<Item>)
    ensures Run(st, items) == Replay(st, Moves(items, st.page))
    decreases |items|
  {
    if items != [] {
      var p := NextPage(st.page, items[0]);
      var ms := Moves(items, st.page);
      var s1 := Step(st, items[0]);
      assert ms[0] == Move(p, HeadingText(items[0]), Piece(items[0]));
      assert ms[1..] == Moves(items[1..], p);
      AdvancePageText(st, p, HeadingText(items[0]), Piece(items[0]));
      assert s1.page == p;
      RunIsReplay(s1, items[1..]);
    }
  }

  /** The trace of the items is the trace of their moves. */
  lemma {:induction false} EventsAreMoveEvents(items: seq<Item>, page: int)
    ensures Events(items, page) == MoveEvents(Moves(items, page))
    decreases |items|
  {
    if items != [] {
      var p := NextPage(page, items[0]);
      var ms := Moves(items, page);
      assert ms[0] == Move(p, HeadingText(items[0]), Piece(items[0]));
      assert ms[1..] == Moves(items[1..], p);
      EventsAreMoveEvents(items[1..], p);
    }
  }

  /** Every page bucket is the pieces that landed on that page, in order; a
      bucket exists exactly for the pages that received a piece. */
  lemma {:induction false} ReplayPageText(st: PassState, ms: seq<Move>)
    ensures var r := Replay(st, ms); var evs := MoveEvents(ms);
      && (forall q :: Bucket(r.pageText, q) == Bucket(st.pageText, q) + PiecesOn(evs, q))
      && (forall q :: q in r.pageText <==> q in st.pageText || PiecesOn(evs, q) != [])
    decreases |ms|
  {
    if ms != [] {
      var m := ms[0];
      var s1 := Advance(st, m.page, m.heading, m.piece);
      var head, tail := EventsOf(m.page, m.heading, m.piece), MoveEvents(ms[1..]);
      assert Replay(st, ms) == Replay(s1, ms[1..]);
      assert MoveEvents(ms) == head + tail;
      AdvancePageText(st, m.page, m.heading, m.piece);
      ReplayPageText(s1, ms[1..]);
      forall q ensures PiecesOn(head + tail, q) == PiecesOn(head, q) + PiecesOn(tail, q) {
        PiecesOnAppend(head, tail, q);
      }
    }
  }

  /** Every page's heading list holds exactly the tags of the headings seen on
      that page. */
  lemma {:induction false} ReplayHeadingTags(st: PassState, ms: seq<Move>)
    ensures var r := Replay(st, ms); var evs := MoveEvents(ms);
      forall q :: Elems(Bucket(r.pageHeadings, q)) == Elems(Bucket(st.pageHeadings, q)) + TagsOn(evs, q)
    decreases |ms|
  {
    if ms != [] {
      var m := ms[0];
      var s1 := Advance(st, m.page, m.heading, m.piece);
      var head, tail := EventsOf(m.page, m.heading, m.piece), MoveEvents(ms[1..]);
      assert Replay(st, ms) == Replay(s1, ms[1..]);
      assert MoveEvents(ms) == head + tail;
      AdvanceHeadingTags(st, m.page, m.heading, m.piece);
      ReplayHeadingTags(s1, ms[1..]);
      forall q ensures TagsOn(head + tail, q) == TagsOn(head, q) + TagsOn(tail, q) {
        TagsOnAppend(head, tail, q);
      }
    }
  }

  /** Every page's heading list stays strictly sorted. */
  lemma {:induction false} ReplayHeadingsSorted(st: PassState, ms: seq<Move>)
    requires HeadingsSorted(st)
    ensures HeadingsSorted(Replay(st, ms))
    decreases |ms|
  {
    if ms != [] {
      var m := ms[0];
      var s1 := Advance(st, m.page, m.heading, m.piece);
      assert Replay(st, ms) == Replay(s1, ms[1..]);
      AdvanceKeepsHeadingsSorted(st, m.page, m.heading, m.piece);
      ReplayHeadingsSorted(s1, ms[1..]);
    }
  }

  /** The sections and the open buffer together hold every piece exactly once,
      in order. */
  lemma {:induction false} ReplayConserves(st: PassState, ms: seq<Move>)
    ensures var r := Replay(st, ms);
      Flatten(r.sections) + r.buf == Flatten(st.sections) + st.buf + AllPieces(MoveEvents(ms))
    decreases |ms|
  {
    if ms != [] {
      var m := ms[0];
      var s1 := Advance(st, m.page, m.heading, m.piece);
      var head, tail := EventsOf(m.page, m.heading, m.piece), MoveEvents(ms[1..]);
      assert Replay(st, ms) == Replay(s1, ms[1..]);
      assert MoveEvents(ms) == head + tail;
      AdvanceConserves(st, m.page, m.heading, m.piece);
      ReplayConserves(s1, ms[1..]);
      AllPiecesAppend(head, tail);
      var all := Flatten(st.sections) + st.buf;
      assert all + AllPieces(head) + AllPieces(tail) == all + (AllPieces(head) + AllPieces(tail));
    }
  }

  /** Earlier sections are never changed, and no section is empty. */
  lemma {:induction false} ReplayAppendsSections(st: PassState, ms: seq<Move>)
    ensures var r := Replay(st, ms);
      && (DraftsNonEmpty(st.sections) ==> DraftsNonEmpty(r.sections))
      && st.sections <= r.sections
    decreases |ms|
  {
    if ms != [] {
      var m := ms[0];
      var s1 := Advance(st, m.page, m.heading, m.piece);
      assert Replay(st, ms) == Replay(s1, ms[1..]);
      AdvanceAppendsSections(st, m.page, m.heading, m.piece);
      ReplayAppendsSections(s1, ms[1..]);
    }
  }

  lemma NoHeadingEventsAppend(a: seq<Event>, b: seq<Event>)
    requires NoHeadingEvents(a + b)
    ensures NoHeadingEvents(a) && NoHeadingEvents(b)
  {
    forall i | 0 <= i < |a| ensures !a[i].HeadingSeen? {
      assert (a + b)[i] == a[i];
    }
    forall i | 0 <= i < |b| ensures !b[i].HeadingSeen? {
      assert (a + b)[|a| + i] == b[i];
    }
  }

  /** Without heading events the loop never closes a section nor changes the
      current heading. */
  lemma {:induction false} ReplayWithoutHeadings(st: PassState, ms: seq<Move>)
    requires NoHeadingEvents(MoveEvents(ms))
    ensures Replay(st, ms).sections == st.sections && Replay(st, ms).heading == st.heading
    decreases |ms|
  {
    if ms != [] {
      var m := ms[0];
      var s1 := Advance(st, m.page, m.heading, m.piece);
      var head, tail := EventsOf(m.page, m.heading, m.piece), MoveEvents(ms[1..]);
      assert Replay(st, ms) == Replay(s1, ms[1..]);
      assert MoveEvents(ms) == head + tail;
      NoHeadingEventsAppend(head, tail);
      EventsOfParts(m.page, m.heading, m.piece, m.page);
      AdvanceAppendsSections(st, m.page, m.heading, m.piece);
      ReplayWithoutHeadings(s1, ms[1..]);
    }
  }

  /** The heading in force when the first piece arrives, starting from the
      heading `current`: the text of the last heading seen before that piece. */
  function HeadingAtFirstPiece(evs: seq<Event>, current: string): string
    decreases |evs|
  {
    if evs == [] || evs[0].PieceAdded? then current
    else HeadingAtFirstPiece(evs[1..], evs[0].text)
  }

  /** One loop body from a state with no sections: the section it closes, if
      any, carries the heading the first section must have; otherwise that
      heading is still the one the rest of the run determines. */
  lemma AdvanceFirstSection(st: PassState, p: int, h: Option<string>, x: Option<string>, rest: seq<Event>)
    requires st.sections == []
    ensures var s1 := Advance(st, p, h, x);
      var want := if st.buf != [] then st.heading else HeadingAtFirstPiece(EventsOf(p, h, x) + rest, st.heading);
      && (s1.sections != [] ==> s1.sections[0].heading == want)
      && (s1.sections == [] ==> want == (if s1.buf != [] then s1.heading else HeadingAtFirstPiece(rest, s1.heading)))
  {
    if h.Some? {
      if x.Some? {
        assert EventsOf(p, h, x) + rest == [HeadingSeen(p, h.value)] + ([PieceAdded(p, x.value)] + rest);
      } else {
        assert EventsOf(p, h, x) + rest == [HeadingSeen(p, h.value)] + rest;
      }
    } else if x.Some? {
      assert EventsOf(p, h, x) + rest == [PieceAdded(p, x.value)] + rest;
    } else {
      assert EventsOf(p, h, x) + rest == rest;
    }
  }

  /** Starting with no sections, the first section is headed by the current
      heading when the buffer already holds text, and otherwise by the heading
      in force when the first piece arrives. */
  lemma {:induction false} ReplayFirstSection(st: PassState, ms: seq<Move>)
    requires st.sections == []
    ensures var ds := Flush(Replay(st, ms)).sections;
      ds != [] ==> ds[0].heading == (if st.buf != [] then st.heading else HeadingAtFirstPiece(MoveEvents(ms), st.heading))
    decreases |ms|
  {
    if ms != [] {
      var m := ms[0];
      var s1 := Advance(st, m.page, m.heading, m.piece);
      var rest := MoveEvents(ms[1..]);
      assert Replay(st, ms) == Replay(s1, ms[1..]);
      assert MoveEvents(ms) == EventsOf(m.page, m.heading, m.piece) + rest;
      AdvanceFirstSection(st, m.page, m.heading, m.piece, rest);
      if s1.sections == [] {
        ReplayFirstSection(s1, ms[1..]);
      } else {
        var r := Replay(s1, ms[1..]);
        ReplayAppendsSections(s1, ms[1..]);
        FlushConserves(r);
        assert s1.sections[0] == Flush(r).sections[0];
      }
    }
  }

  // ---------------------------------------------------------------------------
  // The pass and the converter

  /** Conservation: the sections hold every piece exactly once, in item order,
      and no section is empty. */
  lemma AggregateConservesPieces(items: seq<Item>)
    ensures Flatten(Aggregate(items).sections) == AllPieces(Events(items, 1))
    ensures DraftsNonEmpty(Aggregate(items).sections)
  {
    var r := Run(Initial, items);
    var ms := Moves(items, 1);
    RunIsReplay(Initial, items);
    EventsAreMoveEvents(items, 1);
    ReplayConserves(Initial, ms);
    ReplayAppendsSections(Initial, ms);
    assert Flatten(Initial.sections) + Initial.buf == [];
    assert Flatten(r.sections) + r.buf == AllPieces(Events(items, 1));
    FlushConserves(r);
    assert Aggregate(items) == Flush(r);
  }

  /** Without headings there is at most one section: "Untitled", on the page
      current after the last item, holding all the text; and there is one
      exactly when some item contributed text. */
  lemma AggregateWithoutHeadings(items: seq<Item>)
    requires NoHeadingEvents(Events(items, 1))
    ensures var ds := Aggregate(items).sections;
      && |ds| <= 1
      && (|ds| == 1 <==> AllPieces(Events(items, 1)) != [])
      && (|ds| == 1 ==> ds[0] == SectionDraft("Untitled", Run(Initial, items).page, AllPieces(Events(items, 1))))
  {
    var ms := Moves(items, 1);
    RunIsReplay(Initial, items);
    EventsAreMoveEvents(items, 1);
    ReplayConserves(Initial, ms);
    ReplayWithoutHeadings(Initial, ms);
    UntitledFlush(Run(Initial, items), AllPieces(Events(items, 1)));
  }

  /** Flushing a state that never closed a section. */
  lemma UntitledFlush(r: PassState, all: seq<string>)
    requires r.sections == [] && r.heading == "Untitled"
    requires Flatten(r.sections) + r.buf == Flatten(Initial.sections) + Initial.buf + all
    ensures var ds := Flush(r).sections;
      && |ds| <= 1
      && (|ds| == 1 <==> all != [])
      && (|ds| == 1 ==> ds[0] == SectionDraft("Untitled", r.page, all))
  {
    assert Flatten(r.sections) + r.buf == r.buf;
    assert Flatten(Initial.sections) + Initial.buf + all == all;
  }

  /** The first section is headed by the heading in force when the first piece
      arrived: "Untitled" when text comes before every heading, else the last
      heading seen before the first text. */
  lemma AggregateFirstSection(items: seq<Item>)
    ensures var ds := Aggregate(items).sections;
      ds != [] ==> ds[0].heading == HeadingAtFirstPiece(Events(items, 1), "Untitled")
  {
    RunIsReplay(Initial, items);
    EventsAreMoveEvents(items, 1);
    ReplayFirstSection(Initial, Moves(items, 1));
  }

  /** Text before any heading opens an "Untitled" section. */
  lemma TextBeforeHeadingsIsUntitled(items: seq<Item>)
    requires Events(items, 1) != [] && Events(items, 1)[0].PieceAdded?
    ensures Aggregate(items).sections != [] && Aggregate(items).sections[0].heading == "Untitled"
  {
    var evs := Events(items, 1);
    AggregateConservesPieces(items);
    AggregateFirstSection(items);
    assert AllPieces(evs) != [];
  }

  /** The loop over a run of items and one more is the loop over the run,
      followed by the body on the last item. */
  lemma {:induction false} RunSnoc(st: PassState, items: seq<Item>, last: Item)
    ensures Run(st, items + [last]) == Step(Run(st, items), last)
    decreases |items|
  {
    if items == [] {
      assert [] + [last] == [last];
    } else {
      assert (items + [last])[1..] == items[1..] + [last];
      RunSnoc(Step(st, items[0]), items[1..], last);
    }
  }

  /** The section the final flush closes carries the page the last item moved
      the pass to, the heading then in force, and the buffered text. */
  lemma FinalSectionOnLastItemsPage(items: seq<Item>, last: Item)
    ensures var r := Run(Initial, items + [last]); var ds := Aggregate(items + [last]).sections;
      r.buf != [] ==>
        ds != [] && ds[|ds| - 1] == SectionDraft(r.heading, NextPage(Run(Initial, items).page, last), r.buf)
  {
    var r0 := Run(Initial, items);
    RunSnoc(Initial, items, last);
    AdvancePageText(r0, NextPage(r0.page, last), HeadingText(last), Piece(last));
  }

  /** After the pass, the bucket of every page holds that page's pieces, and
      only pages with a piece have a bucket. */
  lemma AggregatePageText(items: seq<Item>)
    ensures var m := Aggregate(items).pageText; var evs := Events(items, 1);
      && (forall q :: Bucket(m, q) == PiecesOn(evs, q))
      && (forall q :: q in m <==> PiecesOn(evs, q) != [])
  {
    var r := Run(Initial, items);
    RunIsReplay(Initial, items);
    EventsAreMoveEvents(items, 1);
    ReplayPageText(Initial, Moves(items, 1));
    assert Aggregate(items).pageText == r.pageText;
    assert forall q :: Bucket(Initial.pageText, q) == [] && q !in Initial.pageText;
  }

  /** After the pass, every page's heading list is strictly sorted and holds
      exactly the tags seen on that page. */
  lemma AggregateHeadings(items: seq<Item>)
    ensures var m := Aggregate(items).pageHeadings; var evs := Events(items, 1);
      && (forall q :: Elems(Bucket(m, q)) == TagsOn(evs, q))
      && (forall q :: StrictlySorted(Bucket(m, q)))
  {
    var r := Run(Initial, items);
    RunIsReplay(Initial, items);
    EventsAreMoveEvents(items, 1);
    assert HeadingsSorted(Initial);
    ReplayHeadingTags(Initial, Moves(items, 1));
    ReplayHeadingsSorted(Initial, Moves(items, 1));
    assert Aggregate(items).pageHeadings == r.pageHeadings;
    assert forall q :: Bucket(Initial.pageHeadings, q) == [];
    forall q ensures StrictlySorted(Bucket(r.pageHeadings, q)) {
      assert HeadingsSorted(r);
    }
  }

  lemma BuildPagesText(name: string, m: map<int, seq<string>>, hm: map<int, seq<string>>, evs: seq<Event>)
    requires forall q :: Bucket(m, q) == PiecesOn(evs, q)
    requires forall q :: q in m <==> PiecesOn(evs, q) != []
    ensures var pages := BuildPages(name, m, hm);
      && (forall p :: p in PageNumbers(pages) <==> PiecesOn(evs, p) != [])
      && (forall k :: 0 <= k < |pages| ==> pages[k].text == Strip(Join(PiecesOn(evs, pages[k].page), "\n")))
  {
    var pages := BuildPages(name, m, hm);
    forall k | 0 <= k < |pages| ensures pages[k].text == Strip(Join(PiecesOn(evs, pages[k].page), "\n")) {
      assert pages[k].text == Strip(Join(m[pages[k].page], "\n"));
      assert Bucket(m, pages[k].page) == m[pages[k].page];
    }
  }

  lemma BuildPagesHeadings(name: string, m: map<int, seq<string>>, hm: map<int, seq<string>>, evs: seq<Event>)
    requires forall q :: Elems(Bucket(hm, q)) == TagsOn(evs, q)
    requires forall q :: StrictlySorted(Bucket(hm, q))
    ensures var pages := BuildPages(name, m, hm);
      forall k :: 0 <= k < |pages| ==>
        StrictlySorted(pages[k].headings) && Elems(pages[k].headings) == TagsOn(evs, pages[k].page)
  {
    var pages := BuildPages(name, m, hm);
    forall k | 0 <= k < |pages|
      ensures StrictlySorted(pages[k].headings) && Elems(pages[k].headings) == TagsOn(evs, pages[k].page)
    {
      assert pages[k].headings == Bucket(hm, pages[k].page);
    }
  }

  lemma ConvertedPages(path: string, md: Option<string>, items: seq<Item>)
    ensures var pages := ConvertToMarkdownAndSections(path, EngineDocument(md, items)).0.pages;
      pages == BuildPages(FileName(path), Aggregate(items).pageText, Aggregate(items).pageHeadings)
  {
  }

  /** The converter renders the sections of the pass one to one, in order. */
  lemma ConvertedSections(path: string, md: Option<string>, items: seq<Item>)
    ensures var sections := ConvertToMarkdownAndSections(path, EngineDocument(md, items)).0.sections;
      var ds := Aggregate(items).sections;
      && |sections| == |ds|
      && forall k :: 0 <= k < |ds| ==> sections[k] == ToSectionItem(FileName(path), ds[k])
  {
  }

  /** Exactly the pages that received a piece have a record (a page that only
      collected headings has none), in strictly ascending page order. */
  lemma PagesAreTheTextPages(path: string, md: Option<string>, items: seq<Item>)
    ensures var pages := ConvertToMarkdownAndSections(path, EngineDocument(md, items)).0.pages;
      && (forall i, j :: 0 <= i < j < |pages| ==> pages[i].page < pages[j].page)
      && (forall p :: p in PageNumbers(pages) <==> PiecesOn(Events(items, 1), p) != [])
  {
    var agg := Aggregate(items);
    AggregatePageText(items);
    BuildPagesText(FileName(path), agg.pageText, agg.pageHeadings, Events(items, 1));
    ConvertedPages(path, md, items);
  }

  /** A page record's text is that page's pieces joined by newlines and stripped. */
  lemma PageTextIsItsPieces(path: string, md: Option<string>, items: seq<Item>)
    ensures var pages := ConvertToMarkdownAndSections(path, EngineDocument(md, items)).0.pages;
      forall k :: 0 <= k < |pages| ==> pages[k].text == Strip(Join(PiecesOn(Events(items, 1), pages[k].page), "\n"))
  {
    var agg := Aggregate(items);
    AggregatePageText(items);
    BuildPagesText(FileName(path), agg.pageText, agg.pageHeadings, Events(items, 1));
    ConvertedPages(path, md, items);
  }

  /** A page record's headings are sorted, free of repeats, and exactly the tags
      of the headings seen on that page, however often and in whatever order they
      were seen. */
  lemma PageHeadingsAreSortedTags(path: string, md: Option<string>, items: seq<Item>)
    ensures var pages := ConvertToMarkdownAndSections(path, EngineDocument(md, items)).0.pages;
      forall k :: 0 <= k < |pages| ==>
        && StrictlySorted(pages[k].headings)
        && Elems(pages[k].headings) == TagsOn(Events(items, 1), pages[k].page)
  {
    var agg := Aggregate(items);
    AggregateHeadings(items);
    BuildPagesHeadings(FileName(path), agg.pageText, agg.pageHeadings, Events(items, 1));
    ConvertedPages(path, md, items);
  }

  /** The headings of a page are `sorted(list(tags))`: the one strictly sorted
      listing of that page's tag set. */
  lemma PageHeadingsAreThePythonSort(path: string, md: Option<string>, items: seq<Item>, listing: seq<string>)
    requires StrictlySorted(listing)
    ensures var pages := ConvertToMarkdownAndSections(path, EngineDocument(md, items)).0.pages;
      forall k :: 0 <= k < |pages| && Elems(listing) == TagsOn(Events(items, 1), pages[k].page) ==>
        listing == pages[k].headings
  {
    PageHeadingsAreSortedTags(path, md, items);
    var pages := ConvertToMarkdownAndSections(path, EngineDocument(md, items)).0.pages;
    forall k | 0 <= k < |pages| && Elems(listing) == TagsOn(Events(items, 1), pages[k].page)
      ensures listing == pages[k].headings
    {
      SortedByElements(listing, pages[k].headings);
    }
  }

  /** Without headings the converter reports at most one section, "Untitled",
      holding all the document's text. */
  lemma ConvertedSectionsWithoutHeadings(path: string, md: Option<string>, items: seq<Item>)
    requires NoHeadingEvents(Events(items, 1))
    ensures var sections := ConvertToMarkdownAndSections(path, EngineDocument(md, items)).0.sections;
      && |sections| <= 1
      && (|sections| == 1 <==> AllPieces(Events(items, 1)) != [])
      && (forall k :: 0 <= k < |sections| ==>
            sections[k] == SectionItem(FileName(path), "Untitled", Run(Initial, items).page, Strip(Join(AllPieces(Events(items, 1)), "\n"))))
  {
    var ds := Aggregate(items).sections;
    var sections := ConvertToMarkdownAndSections(path, EngineDocument(md, items)).0.sections;
    AggregateWithoutHeadings(items);
    ConvertedSections(path, md, items);
    RenderedUntitled(FileName(path), ds, sections, Run(Initial, items).page, AllPieces(Events(items, 1)));
  }

  lemma RenderedUntitled(name: string, ds: seq<SectionDraft>, sections: seq<SectionItem>, page: int, all: seq<string>)
    requires |ds| <= 1 && (|ds| == 1 <==> all != [])
    requires |ds| == 1 ==> ds[0] == SectionDraft("Untitled", page, all)
    requires |sections| == |ds| && forall k :: 0 <= k < |ds| ==> sections[k] == ToSectionItem(name, ds[k])
    ensures |sections| <= 1 && (|sections| == 1 <==> all != [])
    ensures forall k :: 0 <= k < |sections| ==> sections[k] == SectionItem(name, "Untitled", page, Strip(Join(all, "\n")))
  {
  }
}
