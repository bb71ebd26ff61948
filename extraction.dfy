/**
 * Chapter text extraction: which PDF pages belong to a chapter (a printed
 * table of contents shifted by the 37 pages of front matter) and the loop
 * that concatenates their text. PyMuPDF is an oracle: `pages[i]` is the text
 * of page i, or None when loading or reading that page raises.
 */
module Extraction {
  import opened Wrappers
  import opened Text

  /** PDF pages before printed page 1. */
  const PdfOffset := 37

  /** The PDF page (1-based) on which chapter `c` starts: the printed start page plus the offset. */
  function ChapterStart(c: int): (p: Option<nat>)
    ensures p.Some? <==> 1 <= c <= 7
    ensures p.Some? ==> p.value > PdfOffset
  {
    if c == 1 then Some(1 + PdfOffset)
    else if c == 2 then Some(7 + PdfOffset)
    else if c == 3 then Some(19 + PdfOffset)
    else if c == 4 then Some(22 + PdfOffset)
    else if c == 5 then Some(34 + PdfOffset)
    else if c == 6 then Some(42 + PdfOffset)
    else if c == 7 then Some(55 + PdfOffset)
    else None
  }

  /** `range(first, stop)` over 0-based page indices; empty when `stop <= first`. */
  datatype PageSpan = PageSpan(first: nat, stop: nat)

  predicate InSpan(span: PageSpan, i: int) {
    span.first <= i < span.stop
  }

  /**
   * The 0-based page indices read for chapter `c` of a document with
   * `pageCount` pages: from the chapter's start page up to the next chapter's
   * start page or the end of the document, whichever comes first; the last
   * chapter runs to the end of the document.
   */
  function PageRange(c: int, pageCount: nat): (r: Option<PageSpan>)
    ensures r.Some? <==> 1 <= c <= 7
    ensures r.Some? ==> r.value.stop <= pageCount
  {
    match ChapterStart(c)
    case None => None
    case Some(start) =>
      var stop := match ChapterStart(c + 1)
        case Some(next) => Min(next - 1, pageCount)
        case None => pageCount;
      Some(PageSpan(start - 1, stop))
  }

  /** Consecutive chapters meet exactly where the next one starts, unless the document ends first. */
  lemma SpansAdjacent(c: int, pageCount: nat)
    requires 1 <= c < 7
    ensures PageRange(c, pageCount).value.stop
         == Min(PageRange(c + 1, pageCount).value.first, pageCount)
  {
  }

  /** No page is read for two different chapters. */
  lemma SpansDisjoint(c: int, d: int, pageCount: nat, i: int)
    requires 1 <= c <= 7 && 1 <= d <= 7 && c != d
    requires InSpan(PageRange(c, pageCount).value, i)
    ensures !InSpan(PageRange(d, pageCount).value, i)
  {
  }

  /** The chapter whose span holds content page `i`. */
  function ChapterOfPage(i: nat): (c: int)
    requires i >= PdfOffset
    ensures 1 <= c <= 7
    ensures forall pageCount: nat :: i < pageCount ==> InSpan(PageRange(c, pageCount).value, i)
  {
    if i < 43 then 1
    else if i < 55 then 2
    else if i < 58 then 3
    else if i < 70 then 4
    else if i < 78 then 5
    else if i < 91 then 6
    else 7
  }

  /** Front matter belongs to no chapter. */
  lemma FrontMatterUnread(c: int, pageCount: nat, i: int)
    requires 1 <= c <= 7 && i < PdfOffset
    ensures !InSpan(PageRange(c, pageCount).value, i)
  {
  }

  // ------------------------------------------------------------- reading

  /**
   * The text collected from pages `from` up to `stop`: page texts in order,
   * ending early at the first page that raises.
   */
  function ReadPages(pages: seq<Option<string>>, from: nat, stop: nat): string
    requires stop <= |pages|
    decreases stop - from
  {
    if from >= stop then ""
    else
      match pages[from]
      case None => ""
      case Some(t) => t + ReadPages(pages, from + 1, stop)
  }

  /** The page texts of `pages[from..stop]`, when no page in it raises. */
  function PageTexts(pages: seq<Option<string>>, from: nat, stop: nat): (ts: seq<string>)
    requires from <= stop <= |pages|
    requires forall i :: from <= i < stop ==> pages[i].Some?
    ensures |ts| == stop - from
    ensures forall k :: 0 <= k < |ts| ==> ts[k] == pages[from + k].value
    decreases stop - from
  {
    if from == stop then [] else [pages[from].value] + PageTexts(pages, from + 1, stop)
  }

  /** With no failing page, the result is every page's text concatenated in page order. */
  lemma {:induction false} ReadPagesConcatenates(pages: seq<Option<string>>, from: nat, stop: nat)
    requires from <= stop <= |pages|
    requires forall i :: from <= i < stop ==> pages[i].Some?
    ensures ReadPages(pages, from, stop) == Join(PageTexts(pages, from, stop))
    decreases stop - from
  {
    if from < stop {
      var ts := PageTexts(pages, from, stop);
      assert ts[0] == pages[from].value && ts[1..] == PageTexts(pages, from + 1, stop);
      ReadPagesConcatenates(pages, from + 1, stop);
    }
  }

  /** A failing page ends the chapter: what was collected before it is the result. */
  lemma {:induction false} ReadPagesStopsAtFailure(pages: seq<Option<string>>, from: nat, k: nat, stop: nat)
    requires from <= k < stop <= |pages| && pages[k].None?
    ensures ReadPages(pages, from, stop) == ReadPages(pages, from, k)
    decreases k - from
  {
    if from < k {
      if pages[from].Some? {
        ReadPagesStopsAtFailure(pages, from + 1, k, stop);
      }
    }
  }

  /** `extract_text_from_pdf` as a value: "" for a chapter outside the table. */
  function ChapterText(pages: seq<Option<string>>, c: int): string {
    match PageRange(c, |pages|)
    case None => ""
    case Some(span) => ReadPages(pages, span.first, span.stop)
  }

  /**
   * How many pages of `pages[from..stop]` the loop loads: every page up to
   * and including the first one that raises, or all of them when none does.
   */
  function PagesLoaded(pages: seq<Option<string>>, from: nat, stop: nat): (n: nat)
    requires stop <= |pages|
    ensures from >= stop ==> n == 0
    ensures from < stop ==> 1 <= n <= stop - from && (n == stop - from || pages[from + n - 1].None?)
    ensures forall i :: from <= i < from + n - 1 ==> pages[i].Some?
    decreases stop - from
  {
    if from >= stop then 0
    else if pages[from].None? then 1
    else 1 + PagesLoaded(pages, from + 1, stop)
  }

  /** What the extraction does to the document handle. */
  datatype DocEvent = Opened | Loaded(page: nat) | Closed

  /**
   * `extract_text_from_pdf`: a chapter outside the table returns "" before
   * the document is opened; otherwise the pages of the chapter's span are
   * read in ascending order, the first one that raises ending the loop, and
   * the document is closed on the way out.
   */
  method ExtractText(pages: seq<Option<string>>, chapter: int) returns (text: string, trace: seq<DocEvent>)
    ensures text == ChapterText(pages, chapter)
    ensures PageRange(chapter, |pages|).None? ==> text == "" && trace == []
    ensures PageRange(chapter, |pages|).Some? ==>
      && |trace| == 2 + PagesLoaded(pages, PageRange(chapter, |pages|).value.first, PageRange(chapter, |pages|).value.stop)
      && trace[0] == Opened && trace[|trace| - 1] == Closed
      && forall k :: 0 < k < |trace| - 1 ==> trace[k] == Loaded(PageRange(chapter, |pages|).value.first + k - 1)
  {
    var range := PageRange(chapter, |pages|);
    if range.None? {
      return "", [];
    }
    var span := range.value;
    text, trace := ReadSpan(pages, span);
  }

  /** The page loop of `extract_text_from_pdf`, between opening and closing the document. */
  method ReadSpan(pages: seq<Option<string>>, span: PageSpan) returns (text: string, trace: seq<DocEvent>)
    requires span.stop <= |pages|
    ensures text == ReadPages(pages, span.first, span.stop)
    ensures |trace| == 2 + PagesLoaded(pages, span.first, span.stop)
    ensures trace[0] == Opened && trace[|trace| - 1] == Closed
    ensures forall k :: 0 < k < |trace| - 1 ==> trace[k] == Loaded(span.first + k - 1)
  {
    trace := [Opened];
    text := "";
    var page := span.first;
    var failed := false;
    while page < span.stop && !failed
      invariant page == span.first || page <= span.stop
      invariant failed ==> page < span.stop && pages[page].None?
      invariant text + (if failed then "" else ReadPages(pages, page, span.stop))
             == ReadPages(pages, span.first, span.stop)
      invariant |trace| == 1 + (page - span.first) + (if failed then 1 else 0)
      invariant |trace| - 1 + (if failed then 0 else PagesLoaded(pages, page, span.stop))
             == PagesLoaded(pages, span.first, span.stop)
      invariant trace[0] == Opened
      invariant forall k :: 0 < k < |trace| ==> trace[k] == Loaded(span.first + k - 1)
      decreases span.stop - page, if failed then 0 else 1
    {
      SnocAt(trace, Loaded(page));
      trace := trace + [Loaded(page)];
      match pages[page]
      case None =>
        assert PagesLoaded(pages, page, span.stop) == 1;
        failed := true;
      case Some(t) =>
        assert PagesLoaded(pages, page, span.stop) == 1 + PagesLoaded(pages, page + 1, span.stop);
        assert ReadPages(pages, page, span.stop) == t + ReadPages(pages, page + 1, span.stop);
        ConcatAssoc(text, t, ReadPages(pages, page + 1, span.stop));
        text := text + t;
        page := page + 1;
    }
    SnocAt(trace, Closed);
    trace := trace + [Closed];
  }
}
