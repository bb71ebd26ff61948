/**
 * `create_website`: the metadata records are grouped by chapter, each group
 * is sorted by rank, and chapters 1..7 are rendered, each record as a pair of
 * panels that show an image when its file exists and a placeholder
 * otherwise. What is modelled is the structure of the page, not its HTML.
 */
module Website {
  import opened Wrappers
  import opened Storage
  import opened Sorting
  import opened Assets

  /** The records of chapter `c` in input order; a falsy chapter (0) has none. */
  function ChapterGroup(rs: seq<Record>, c: int): (g: seq<Record>)
    ensures c == 0 ==> g == []
    ensures |g| <= |rs|
    decreases |rs|
  {
    if rs == [] then []
    else
      var last := rs[|rs| - 1];
      ChapterGroup(rs[..|rs| - 1], c) + (if c != 0 && last.chapter == Some(c) then [last] else [])
  }

  /** A record is in its chapter's group exactly when its chapter is `c` and truthy. */
  lemma {:induction false} ChapterGroupMembers(rs: seq<Record>, c: int, x: Record)
    ensures x in ChapterGroup(rs, c) <==> x in rs && c != 0 && x.chapter == Some(c)
    decreases |rs|
  {
    if rs != [] {
      ChapterGroupMembers(rs[..|rs| - 1], c, x);
      assert rs == rs[..|rs| - 1] + [rs[|rs| - 1]];
    }
  }

  lemma ChapterGroupSnoc(rs: seq<Record>, x: Record, c: int)
    ensures ChapterGroup(rs + [x], c) == ChapterGroup(rs, c) + (if c != 0 && x.chapter == Some(c) then [x] else [])
  {
    assert (rs + [x])[..|rs|] == rs;
  }

  /** `x.get('rank', 99)`, for groups whose ranks are all of one type. */
  function WebsiteKey(r: Record): int {
    match r.rank
    case None => 99
    case Some(Num(n)) => n
    case Some(Unknown) => 0
  }

  /**
   * A group whose sort raises: comparing the string 'unknown' with a
   * number (a numeric rank or the default 99) is a TypeError.
   */
  predicate Mixed(g: seq<Record>) {
    (exists i :: 0 <= i < |g| && g[i].rank == Some(Unknown))
    && (exists j :: 0 <= j < |g| && g[j].rank != Some(Unknown))
  }

  /** Some chapter group cannot be sorted, and the script stops before writing the page. */
  predicate SortCrashes(rs: seq<Record>) {
    exists i :: 0 <= i < |rs| && rs[i].chapter.Some? && Mixed(ChapterGroup(rs, rs[i].chapter.value))
  }

  /** What is shown for one style of a record. */
  datatype Panel = Picture(path: string) | Placeholder

  /** An image is shown exactly when the path is truthy and the file exists in the artwork directory. */
  function PanelFor(files: map<string, Content>, path: Option<string>): (p: Panel)
    ensures p.Picture? <==> Truthy(path) && path.value in files
    ensures p.Picture? ==> p.path == path.value
  {
    if Truthy(path) && path.value in files then Picture(path.value) else Placeholder
  }

  /** One `image-pair` block: exactly two containers, naturalistic then abstract. */
  datatype PairView = PairView(rank: Option<Rank>, description: string, significance: string,
                               naturalistic: Panel, abstractPanel: Panel)

  function PairOf(files: map<string, Content>, r: Record): PairView {
    PairView(r.rank, r.description, r.significance,
             PanelFor(files, r.naturalisticPath), PanelFor(files, r.abstractPath))
  }

  /** The pairs of a group, in group order. */
  function PairsOf(files: map<string, Content>, g: seq<Record>): (ps: seq<PairView>)
    ensures |ps| == |g|
    ensures forall i :: 0 <= i < |g| ==> ps[i] == PairOf(files, g[i])
    decreases |g|
  {
    if g == [] then [] else PairsOf(files, g[..|g| - 1]) + [PairOf(files, g[|g| - 1])]
  }

  /**
   * A chapter's body: the "no images" paragraph for an empty group, otherwise
   * its pairs and whether the "image files were not found" note is shown.
   */
  datatype Body = NoImages | Pairs(pairs: seq<PairView>, filesMissingNote: bool)

  datatype Section = Section(number: int, body: Body)

  /** A chapter given its sorted group; the note is shown when no pair was added. */
  function SectionFor(files: map<string, Content>, group: seq<Record>, c: int): Section {
    if group == [] then Section(c, NoImages)
    else
      var pairs := PairsOf(files, group);
      Section(c, Pairs(pairs, |pairs| == 0))
  }

  /** A chapter's group as rendered: stably sorted by rank. */
  function SortedGroup(rs: seq<Record>, c: int): seq<Record> {
    SortBy(ChapterGroup(rs, c), WebsiteKey)
  }

  /** Chapter c as rendered from its sorted group. */
  function ChapterSection(files: map<string, Content>, rs: seq<Record>, c: int): (s: Section)
    ensures s.number == c
  {
    SectionFor(files, SortedGroup(rs, c), c)
  }

  /** f(1), ..., f(n). */
  function Numbered<T>(f: int -> T, n: nat): (ss: seq<T>)
    ensures |ss| == n
    decreases n
  {
    if n == 0 then [] else Numbered(f, n - 1) + [f(n)]
  }

  lemma {:induction false} NumberedAt<T>(f: int -> T, n: nat, k: nat)
    requires 1 <= k <= n
    ensures Numbered(f, n)[k - 1] == f(k)
    decreases n
  {
    if k < n {
      NumberedAt(f, n - 1, k);
    }
  }

  /** Two numberings agree when their functions agree on 1..n. */
  lemma {:induction false} NumberedPointwise<T>(f: int -> T, g: int -> T, n: nat)
    requires forall k :: 1 <= k <= n ==> f(k) == g(k)
    ensures Numbered(f, n) == Numbered(g, n)
    decreases n
  {
    if n > 0 {
      NumberedPointwise(f, g, n - 1);
    }
  }

  /** Chapters 1..n in order. */
  function ChapterSections(files: map<string, Content>, rs: seq<Record>, n: nat): (ss: seq<Section>)
    ensures |ss| == n
  {
    Numbered(c => ChapterSection(files, rs, c), n)
  }

  lemma ChapterSectionsSnoc(files: map<string, Content>, rs: seq<Record>, n: nat)
    requires n > 0
    ensures ChapterSections(files, rs, n) == ChapterSections(files, rs, n - 1) + [ChapterSection(files, rs, n)]
  {
  }

  /** Chapter k of the page is rendered from chapter k's sorted group. */
  lemma ChapterSectionAt(files: map<string, Content>, rs: seq<Record>, n: nat, k: nat)
    requires 1 <= k <= n
    ensures ChapterSections(files, rs, n)[k - 1] == ChapterSection(files, rs, k)
    ensures ChapterSections(files, rs, n)[k - 1].number == k
  {
    NumberedAt(c => ChapterSection(files, rs, c), n, k);
  }

  /** The right-hand pane: the PDF, or the not-found message. */
  datatype Viewer = PdfFrame(name: string) | PdfMissing

  /** `pdf_filename` is the PDF's name, or "" when it does not exist; "" shows the message. */
  function ViewerFor(pdfName: string, pdfExists: bool): (v: Viewer)
    ensures v.PdfFrame? <==> pdfExists && pdfName != ""
    ensures v.PdfFrame? ==> v.name == pdfName
  {
    var filename := if pdfExists then pdfName else "";
    if filename == "" then PdfMissing else PdfFrame(filename)
  }

  datatype Site = Site(sections: seq<Section>, viewer: Viewer)

  const LastChapter := 7

  /** The page built from the artwork directory, or None when a group's sort raises. */
  function SiteOf(files: map<string, Content>, pdfName: string, pdfExists: bool): Option<Site> {
    var rs := LoadMetadata(files, MetadataFileName).GetOr([]);
    if SortCrashes(rs) then None
    else Some(Site(ChapterSections(files, rs, LastChapter), ViewerFor(pdfName, pdfExists)))
  }

  // ------------------------------------------------------------- lemmas

  /** Exactly the chapters 1..7 are rendered, each once and in order. */
  lemma SevenChaptersInOrder(files: map<string, Content>, pdfName: string, pdfExists: bool)
    requires SiteOf(files, pdfName, pdfExists).Some?
    ensures var ss := SiteOf(files, pdfName, pdfExists).value.sections;
      |ss| == 7 && forall k :: 0 <= k < 7 ==> ss[k].number == k + 1
  {
    var rs := LoadMetadata(files, MetadataFileName).GetOr([]);
    forall k | 0 <= k < 7 ensures ChapterSections(files, rs, 7)[k].number == k + 1 {
      ChapterSectionAt(files, rs, 7, k + 1);
    }
  }

  /** With no usable metadata file the page still renders every chapter, each with no images. */
  lemma MissingMetadataRendersEmpty(files: map<string, Content>, pdfName: string, pdfExists: bool)
    requires LoadMetadata(files, MetadataFileName).None?
    ensures SiteOf(files, pdfName, pdfExists).Some?
    ensures forall k :: 0 <= k < 7 ==> SiteOf(files, pdfName, pdfExists).value.sections[k] == Section(k + 1, NoImages)
  {
    forall k | 0 <= k < 7 ensures ChapterSections(files, [], 7)[k] == Section(k + 1, NoImages) {
      ChapterSectionAt(files, [], 7, k + 1);
    }
  }

  /**
   * A chapter with records shows one pair per record, sorted by rank: the
   * sorted group is a permutation of the chapter's records, every pair is
   * built from a record of that chapter, and every record of the chapter has
   * its pair. The "files not found" note is never shown, because every record
   * adds a pair.
   */
  lemma SectionContents(files: map<string, Content>, rs: seq<Record>, c: int)
    requires 1 <= c <= 7 && ChapterGroup(rs, c) != []
    ensures var s := SectionFor(files, SortedGroup(rs, c), c);
      && s.body.Pairs? && !s.body.filesMissingNote
      && |s.body.pairs| == |ChapterGroup(rs, c)|
      && s.body.pairs == PairsOf(files, SortedGroup(rs, c))
      && multiset(SortedGroup(rs, c)) == multiset(ChapterGroup(rs, c))
      && (forall j :: 0 <= j < |s.body.pairs| ==>
            exists r :: r in rs && r.chapter == Some(c) && s.body.pairs[j] == PairOf(files, r))
      && (forall r :: r in rs && r.chapter == Some(c) ==> PairOf(files, r) in s.body.pairs)
      && (forall i, j :: 0 <= i < j < |s.body.pairs| ==>
            WebsiteKey(SortedGroup(rs, c)[i]) <= WebsiteKey(SortedGroup(rs, c)[j]))
  {
    assert |SortedGroup(rs, c)| == |ChapterGroup(rs, c)|;
    assert SectionFor(files, SortedGroup(rs, c), c).body.pairs == PairsOf(files, SortedGroup(rs, c));
    PairsFromChapter(files, rs, c);
    ChapterRecordsShown(files, rs, c);
  }

  /** Every pair of chapter c's sorted group is built from a record of chapter c. */
  lemma PairsFromChapter(files: map<string, Content>, rs: seq<Record>, c: int)
    ensures var ps := PairsOf(files, SortedGroup(rs, c));
      forall j :: 0 <= j < |ps| ==> exists r :: r in rs && r.chapter == Some(c) && ps[j] == PairOf(files, r)
  {
    var g := ChapterGroup(rs, c);
    var sorted := SortedGroup(rs, c);
    var ps := PairsOf(files, sorted);
    forall j | 0 <= j < |ps|
      ensures exists r :: r in rs && r.chapter == Some(c) && ps[j] == PairOf(files, r)
    {
      var r := sorted[j];
      assert r in multiset(sorted);
      assert r in g;
      ChapterGroupMembers(rs, c, r);
    }
  }

  /** Every record of chapter c (for a truthy c) has its pair among the chapter's pairs. */
  lemma ChapterRecordsShown(files: map<string, Content>, rs: seq<Record>, c: int)
    requires c != 0
    ensures forall r :: r in rs && r.chapter == Some(c) ==>
      PairOf(files, r) in PairsOf(files, SortedGroup(rs, c))
  {
    forall r | r in rs && r.chapter == Some(c)
      ensures PairOf(files, r) in PairsOf(files, SortedGroup(rs, c))
    {
      ChapterGroupMembers(rs, c, r);
      RecordShown(files, ChapterGroup(rs, c), r);
    }
  }

  /** A record of a group has its pair among the pairs of the sorted group. */
  lemma RecordShown(files: map<string, Content>, g: seq<Record>, r: Record)
    requires r in g
    ensures PairOf(files, r) in PairsOf(files, SortBy(g, WebsiteKey))
  {
    var sorted := SortBy(g, WebsiteKey);
    var j := IndexInPermutation(g, sorted, r);
    assert PairsOf(files, sorted)[j] == PairOf(files, r);
  }

  /** The "no images" paragraph appears exactly for chapters without records. */
  lemma EmptyChapterIffNoRecords(files: map<string, Content>, rs: seq<Record>, c: int)
    ensures SectionFor(files, SortedGroup(rs, c), c).body.NoImages? <==> forall x :: x in rs ==> x.chapter != Some(c) || c == 0
  {
    var g := ChapterGroup(rs, c);
    assert |SortedGroup(rs, c)| == |g|;
    if g != [] {
      ChapterGroupMembers(rs, c, g[0]);
    } else {
      forall x | x in rs && x.chapter == Some(c) && c != 0 ensures false {
        ChapterGroupMembers(rs, c, x);
      }
    }
  }

  /** Records of equal rank appear in the order the metadata lists them. */
  lemma SortedGroupStable(rs: seq<Record>, c: int, k: int)
    ensures WithKey(SortedGroup(rs, c), WebsiteKey, k) == WithKey(ChapterGroup(rs, c), WebsiteKey, k)
  {
    SortByStable(ChapterGroup(rs, c), WebsiteKey, k);
  }

  /** A group whose ranks are all 'unknown' is shown in input order. */
  lemma UnknownGroupKeepsOrder(rs: seq<Record>, c: int)
    requires forall i :: 0 <= i < |ChapterGroup(rs, c)| ==> ChapterGroup(rs, c)[i].rank == Some(Unknown)
    ensures SortedGroup(rs, c) == ChapterGroup(rs, c)
  {
    SortByConstantKey(ChapterGroup(rs, c), WebsiteKey, 0);
  }

  /** A record whose chapter is not one of 1..7 changes no rendered chapter. */
  lemma OtherChaptersIgnored(files: map<string, Content>, rs: seq<Record>, x: Record, n: nat)
    requires n <= 7
    requires x.chapter.None? || x.chapter.value < 1 || x.chapter.value > 7
    ensures ChapterSections(files, rs + [x], n) == ChapterSections(files, rs, n)
  {
    forall k | 1 <= k <= n
      ensures ChapterSection(files, rs + [x], k) == ChapterSection(files, rs, k)
    {
      OtherChapterSection(files, rs, x, k);
    }
    NumberedPointwise(c => ChapterSection(files, rs + [x], c), c => ChapterSection(files, rs, c), n);
  }

  lemma OtherChapterSection(files: map<string, Content>, rs: seq<Record>, x: Record, c: int)
    requires x.chapter != Some(c)
    ensures ChapterSection(files, rs + [x], c) == ChapterSection(files, rs, c)
  {
    ChapterGroupSnoc(rs, x, c);
    assert ChapterGroup(rs + [x], c) == ChapterGroup(rs, c);
  }

  // ------------------------------------------------------------- methods

  /**
   * The grouping loop: a map from each truthy chapter to its records in input
   * order, and the map's keys in insertion order.
   */
  method GroupByChapter(items: seq<Record>) returns (groups: map<int, seq<Record>>, keys: seq<int>)
    ensures forall c :: c in groups <==> ChapterGroup(items, c) != []
    ensures forall c :: c in groups ==> groups[c] == ChapterGroup(items, c)
    ensures forall c :: c in groups <==> c in keys
  {
    groups, keys := map[], [];
    var i := 0;
    while i < |items|
      invariant 0 <= i <= |items|
      invariant Grouped(groups, keys, items[..i])
    {
      var item := items[i];
      var groups', keys' := groups, keys;
      if item.chapter.Some? && item.chapter.value != 0 {
        var c := item.chapter.value;
        if c !in groups' {
          groups', keys' := groups'[c := []], keys' + [c];
        }
        groups' := groups'[c := groups'[c] + [item]];
      }
      GroupedStep(groups, keys, items, i, groups', keys');
      groups, keys := groups', keys';
      i := i + 1;
    }
    GroupedAll(groups, keys, items);
  }

  /** The loop invariant of the grouping loop, for the records seen so far. */
  ghost predicate Grouped(groups: map<int, seq<Record>>, keys: seq<int>, rs: seq<Record>) {
    && (forall c :: c in groups <==> ChapterGroup(rs, c) != [])
    && (forall c :: c in groups ==> groups[c] == ChapterGroup(rs, c))
    && (forall c :: c in groups <==> c in keys)
  }

  lemma GroupedAll(groups: map<int, seq<Record>>, keys: seq<int>, items: seq<Record>)
    requires Grouped(groups, keys, items[..|items|])
    ensures forall c :: c in groups <==> ChapterGroup(items, c) != []
    ensures forall c :: c in groups ==> groups[c] == ChapterGroup(items, c)
    ensures forall c :: c in groups <==> c in keys
  {
    WholePrefix(items);
  }

  lemma GroupedStep(groups: map<int, seq<Record>>, keys: seq<int>, items: seq<Record>, i: nat,
                    groups': map<int, seq<Record>>, keys': seq<int>)
    requires i < |items|
    requires Grouped(groups, keys, items[..i])
    requires items[i].chapter.None? || items[i].chapter.value == 0 ==> groups' == groups && keys' == keys
    requires items[i].chapter.Some? && items[i].chapter.value != 0 ==>
      groups' == groups[items[i].chapter.value := GroupIn(groups, items[i].chapter.value) + [items[i]]]
      && keys' == (if items[i].chapter.value in groups then keys else keys + [items[i].chapter.value])
    ensures Grouped(groups', keys', items[..i + 1])
  {
    GroupedSnoc(groups, keys, items[..i], items[i], groups', keys');
    PrefixStep(items, i);
  }

  /** One step of the grouping loop keeps its invariant. */
  lemma GroupedSnoc(groups: map<int, seq<Record>>, keys: seq<int>, rs: seq<Record>, x: Record,
                    groups': map<int, seq<Record>>, keys': seq<int>)
    requires Grouped(groups, keys, rs)
    requires x.chapter.None? || x.chapter.value == 0 ==> groups' == groups && keys' == keys
    requires x.chapter.Some? && x.chapter.value != 0 ==>
      groups' == groups[x.chapter.value := GroupIn(groups, x.chapter.value) + [x]]
      && keys' == (if x.chapter.value in groups then keys else keys + [x.chapter.value])
    ensures Grouped(groups', keys', rs + [x])
  {
    forall c ensures ChapterGroup(rs + [x], c) == ChapterGroup(rs, c) + (if c != 0 && x.chapter == Some(c) then [x] else []) {
      ChapterGroupSnoc(rs, x, c);
    }
  }

  /** The sorting loop, over the chapters in key order: None as soon as a group cannot be sorted. */
  method SortGroups(groups: map<int, seq<Record>>, keys: seq<int>) returns (sorted: Option<map<int, seq<Record>>>)
    requires forall c :: c in groups <==> c in keys
    ensures sorted.None? <==> exists c :: c in groups && Mixed(groups[c])
    ensures sorted.Some? ==> sorted.value.Keys == groups.Keys
    ensures sorted.Some? ==> forall c :: c in groups ==> sorted.value[c] == SortBy(groups[c], WebsiteKey)
  {
    var done: map<int, seq<Record>> := map[];
    var i := 0;
    while i < |keys|
      invariant 0 <= i <= |keys|
      invariant forall c :: c in done <==> c in keys[..i]
      invariant forall c :: c in done ==> done[c] == SortBy(groups[c], WebsiteKey) && !Mixed(groups[c])
    {
      var c := keys[i];
      PrefixStep(keys, i);
      if Mixed(groups[c]) {
        return None;
      }
      done := done[c := SortBy(groups[c], WebsiteKey)];
      i := i + 1;
    }
    WholePrefix(keys);
    forall c ensures c in done <==> c in groups {
      assert c in keys[..i] <==> c in keys;
    }
    assert done.Keys == groups.Keys;
    return Some(done);
  }

  /** The inner render loop: one pair per record, counting `images_added_for_chapter`. */
  method RenderPairs(files: map<string, Content>, group: seq<Record>) returns (pairs: seq<PairView>, added: nat)
    ensures pairs == PairsOf(files, group)
    ensures added == |group|
  {
    pairs, added := [], 0;
    var i := 0;
    while i < |group|
      invariant 0 <= i <= |group|
      invariant pairs == PairsOf(files, group[..i])
      invariant added == i
    {
      PrefixStep(group, i);
      var item := group[i];
      var natPanel := PanelFor(files, item.naturalisticPath);
      var absPanel := PanelFor(files, item.abstractPath);
      pairs := pairs + [PairView(item.rank, item.description, item.significance, natPanel, absPanel)];
      added := added + 1;
      i := i + 1;
    }
    WholePrefix(group);
  }

  /** One chapter's block, given its sorted group. */
  method RenderChapter(files: map<string, Content>, group: seq<Record>, chapter: int) returns (section: Section)
    ensures section == SectionFor(files, group, chapter)
  {
    if group == [] {
      section := Section(chapter, NoImages);
    } else {
      var pairs, added := RenderPairs(files, group);
      section := Section(chapter, Pairs(pairs, added == 0 && group != []));
    }
  }

  /** A chapter's group in the sorted map; a chapter without records has none. */
  function GroupIn(sorted: map<int, seq<Record>>, c: int): seq<Record> {
    if c in sorted then sorted[c] else []
  }

  /** Chapters 1..n rendered from the sorted map. */
  function MapSections(files: map<string, Content>, sorted: map<int, seq<Record>>, n: nat): (ss: seq<Section>)
    ensures |ss| == n
    decreases n
  {
    if n == 0 then [] else MapSections(files, sorted, n - 1) + [SectionFor(files, GroupIn(sorted, n), n)]
  }

  /** Rendering from the sorted map is rendering from the metadata records. */
  lemma {:induction false} MapSectionsAreChapterSections(files: map<string, Content>, items: seq<Record>,
                                                          sorted: map<int, seq<Record>>, n: nat)
    requires forall c :: c in sorted <==> ChapterGroup(items, c) != []
    requires forall c :: c in sorted ==> sorted[c] == SortedGroup(items, c)
    ensures MapSections(files, sorted, n) == ChapterSections(files, items, n)
    decreases n
  {
    if n > 0 {
      MapSectionsAreChapterSections(files, items, sorted, n - 1);
      ChapterSectionsSnoc(files, items, n);
      assert |SortedGroup(items, n)| == |ChapterGroup(items, n)|;
      assert GroupIn(sorted, n) == SortedGroup(items, n);
    }
  }

  /** The outer render loop over chapters 1..7. */
  method RenderChapters(files: map<string, Content>, sorted: map<int, seq<Record>>) returns (sections: seq<Section>)
    ensures sections == MapSections(files, sorted, LastChapter)
  {
    sections := [];
    var chapter := 1;
    while chapter <= LastChapter
      invariant 1 <= chapter <= LastChapter + 1
      invariant sections == MapSections(files, sorted, chapter - 1)
    {
      var group := if chapter in sorted then sorted[chapter] else [];
      var section := RenderChapter(files, group, chapter);
      sections := sections + [section];
      chapter := chapter + 1;
    }
  }

  /**
   * `create_website`: the page for the artwork directory `files` and a PDF
   * named `pdfName`, or None when sorting a chapter group raises.
   */
  method CreateWebsite(files: map<string, Content>, pdfName: string, pdfExists: bool) returns (site: Option<Site>)
    ensures site == SiteOf(files, pdfName, pdfExists)
  {
    var items := LoadMetadata(files, MetadataFileName).GetOr([]);
    var groups, keys := GroupByChapter(items);
    var sorted := SortGroups(groups, keys);
    if sorted.None? {
      var c :| c in groups && Mixed(groups[c]);
      ghost var g := ChapterGroup(items, c);
      assert g[0] in g;
      ChapterGroupMembers(items, c, g[0]);
      return None;
    }
    assert !SortCrashes(items) by {
      forall i | 0 <= i < |items| && items[i].chapter.Some?
        ensures !Mixed(ChapterGroup(items, items[i].chapter.value))
      {
        var c := items[i].chapter.value;
        if c in groups {
          assert !Mixed(groups[c]);
        }
      }
    }
    var sections := RenderChapters(files, sorted.value);
    MapSectionsAreChapterSections(files, items, sorted.value, LastChapter);
    var filename := if pdfExists then pdfName else "";
    var viewer := if filename == "" then PdfMissing else PdfFrame(filename);
    site := Some(Site(sections, viewer));
  }
}
