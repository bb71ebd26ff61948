/**
 * `ZhuangziArtGenerator.process_chapters`: for chapters 1..7, extract the
 * chapter's text, pick its top motifs, and for each motif write the two
 * prompt sidecars, request the two images, save those that came back and
 * append one metadata record; finally write the metadata file once.
 *
 * The run is specified by folds over a `RunState` (the directory, the record
 * list, the log of sidecar writes and image requests, and the number of image
 * requests made so far), and the methods are proved to follow those folds.
 */
module Generator {
  import opened Wrappers
  import opened Text
  import opened Storage
  import opened Assets
  import opened Extraction
  import opened Motifs

  /**
   * The outside world of a run. `generate(k, prompt)` is the URL returned
   * by the k-th image request (k counts from 0), None when the call raises;
   * `fetch(url)` says whether downloading and decoding the image succeeds.
   */
  datatype Services = Services(
    pages: seq<Option<string>>,
    analyze: string -> AnalysisReply,
    interpret: string -> PromptReply,
    generate: (nat, string) -> Option<string>,
    fetch: string -> bool)

  /** What a run asks of the outside world, in order. */
  datatype Event = SidecarWrite(name: string) | ImageRequest(prompt: string) | MetadataWrite

  datatype RunState = RunState(files: map<string, Content>, records: seq<Record>, log: seq<Event>, requests: nat)

  /** `img_meta.get('rank', 'unknown')`. */
  function MotifRank(m: Motif): Rank {
    if m.rank.Some? then Num(m.rank.value) else Unknown
  }

  function PathFor(r: Record, s: Style): Option<string> {
    match s
    case Naturalistic => r.naturalisticPath
    case Abstract => r.abstractPath
  }

  /** The metadata record appended for a motif, given the URLs its two image requests returned. */
  function MotifRecord(chapter: int, m: Motif, natUrl: Option<string>, absUrl: Option<string>): (r: Record)
    ensures r.chapter == Some(chapter) && r.rank == Some(MotifRank(m))
    ensures forall s :: var url := if s == Naturalistic then natUrl else absUrl;
      && (PathFor(r, s).Some? <==> Truthy(url))
      && (Truthy(url) ==> PathFor(r, s) == Some(ImageFileName(chapter, MotifRank(m), s)))
  {
    var rank := MotifRank(m);
    Record(Some(chapter), Some(rank), m.image.GetOr("unknown_image"), m.significance.GetOr(""),
           m.location.GetOr(0.0),
           if Truthy(natUrl) then Some(ImageFileName(chapter, rank, Naturalistic)) else None,
           if Truthy(absUrl) then Some(ImageFileName(chapter, rank, Abstract)) else None)
  }

  /** Both prompt sidecars of a motif, naturalistic first; a failing write is caught. */
  function SidecarsWritten(files: map<string, Content>, unwritable: set<string>, chapter: int, rank: Rank, pp: PromptPair)
    : (r: map<string, Content>)
    ensures forall n :: n != PromptFileName(chapter, rank, Naturalistic) && n != PromptFileName(chapter, rank, Abstract)
                ==> (n in r <==> n in files) && (n in files ==> r[n] == files[n])
    ensures forall s :: PromptFileName(chapter, rank, s) !in unwritable ==>
      PromptFileName(chapter, rank, s) in r
      && r[PromptFileName(chapter, rank, s)] == TextFile(SidecarText(s, rank, PromptFor(pp, s)))
    ensures forall s :: PromptFileName(chapter, rank, s) in unwritable ==>
      && (PromptFileName(chapter, rank, s) in r <==> PromptFileName(chapter, rank, s) in files)
      && (PromptFileName(chapter, rank, s) in files ==> r[PromptFileName(chapter, rank, s)] == files[PromptFileName(chapter, rank, s)])
  {
    var natSidecar := PromptFileName(chapter, rank, Naturalistic);
    var absSidecar := PromptFileName(chapter, rank, Abstract);
    StylesHaveDistinctNames(chapter, rank);
    var f1 := Stored(files, unwritable, natSidecar, TextFile(SidecarText(Naturalistic, rank, pp.naturalistic)));
    Stored(f1, unwritable, absSidecar, TextFile(SidecarText(Abstract, rank, pp.abstractPrompt)))
  }

  /** The two image saves of a motif, given the URLs its requests returned. */
  function ImagesSaved(files: map<string, Content>, unwritable: set<string>, fetch: string -> bool,
                       chapter: int, rank: Rank, natUrl: Option<string>, absUrl: Option<string>)
    : (r: map<string, Content>)
    ensures forall n :: n != ImageFileName(chapter, rank, Naturalistic) && n != ImageFileName(chapter, rank, Abstract)
                ==> (n in r <==> n in files) && (n in files ==> r[n] == files[n])
    ensures var n := ImageFileName(chapter, rank, Naturalistic);
      if Truthy(natUrl) && fetch(natUrl.value) && n !in unwritable then n in r && r[n] == ImageFile(natUrl.value)
      else (n in r <==> n in files) && (n in files ==> r[n] == files[n])
    ensures var n := ImageFileName(chapter, rank, Abstract);
      if Truthy(absUrl) && fetch(absUrl.value) && n !in unwritable then n in r && r[n] == ImageFile(absUrl.value)
      else (n in r <==> n in files) && (n in files ==> r[n] == files[n])
  {
    StylesHaveDistinctNames(chapter, rank);
    var f := SavedImage(files, unwritable, fetch, natUrl, ImageFileName(chapter, rank, Naturalistic));
    SavedImage(f, unwritable, fetch, absUrl, ImageFileName(chapter, rank, Abstract))
  }

  /** A motif whose prompts are `pp`: sidecars, the two image requests and saves, the record. */
  function PromptedStep(st: RunState, svc: Services, unwritable: set<string>, chapter: int, m: Motif, pp: PromptPair): RunState {
    var rank := MotifRank(m);
    var natUrl := svc.generate(st.requests, pp.naturalistic);
    var absUrl := svc.generate(st.requests + 1, pp.abstractPrompt);
    RunState(ImagesSaved(SidecarsWritten(st.files, unwritable, chapter, rank, pp),
                         unwritable, svc.fetch, chapter, rank, natUrl, absUrl),
             st.records + [MotifRecord(chapter, m, natUrl, absUrl)],
             st.log + [SidecarWrite(PromptFileName(chapter, rank, Naturalistic)),
                       SidecarWrite(PromptFileName(chapter, rank, Abstract)),
                       ImageRequest(pp.naturalistic), ImageRequest(pp.abstractPrompt)],
             st.requests + 2)
  }

  /** The body of the motif loop. A motif without an image raises in prompt synthesis and is skipped. */
  function MotifStep(st: RunState, svc: Services, unwritable: set<string>, chapter: int, m: Motif): RunState {
    match GenerateImagePrompts(m, svc.interpret)
    case None => st
    case Some(pp) => PromptedStep(st, svc, unwritable, chapter, m, pp)
  }

  /** The motif loop over `ms`, as a fold over its prefixes. */
  function MotifsRun(st: RunState, svc: Services, unwritable: set<string>, chapter: int, ms: seq<Motif>): RunState
    decreases |ms|
  {
    if ms == [] then st
    else MotifStep(MotifsRun(st, svc, unwritable, chapter, ms[..|ms| - 1]), svc, unwritable, chapter, ms[|ms| - 1])
  }

  /** The motifs chosen for a chapter's text. */
  function ChapterMotifs(svc: Services, text: string): seq<Motif> {
    AnalyzeChapterImagery(svc.analyze(AnalysisRequest(text)))
  }

  /** One chapter: a chapter whose extracted text is empty is skipped. */
  function ChapterStep(st: RunState, svc: Services, unwritable: set<string>, chapter: int): RunState {
    var text := ChapterText(svc.pages, chapter);
    if text == "" then st else MotifsRun(st, svc, unwritable, chapter, ChapterMotifs(svc, text))
  }

  /** Chapters 1..n in order. */
  function ChaptersRun(st: RunState, svc: Services, unwritable: set<string>, n: nat): RunState
    decreases n
  {
    if n == 0 then st else ChapterStep(ChaptersRun(st, svc, unwritable, n - 1), svc, unwritable, n)
  }

  const LastChapter := 7

  function Start(files: map<string, Content>): RunState {
    RunState(files, [], [], 0)
  }

  /** The whole of `process_chapters`: the chapter loop, then one attempt to write the metadata. */
  function PipelineRun(files: map<string, Content>, unwritable: set<string>, svc: Services): RunState {
    var st := ChaptersRun(Start(files), svc, unwritable, LastChapter);
    RunState(Stored(st.files, unwritable, MetadataFileName, MetadataFile(st.records)),
             st.records, st.log + [MetadataWrite], st.requests)
  }

  // ------------------------------------------------------------------ lemmas

  /** The four names a motif step may write. */
  predicate MotifName(n: string, chapter: int, rank: Rank) {
    exists s: Style :: n == PromptFileName(chapter, rank, s) || n == ImageFileName(chapter, rank, s)
  }

  /** A motif step leaves every other file as it was. */
  lemma MotifStepFrame(st: RunState, svc: Services, unwritable: set<string>, chapter: int, m: Motif, n: string)
    requires !MotifName(n, chapter, MotifRank(m))
    ensures var st' := MotifStep(st, svc, unwritable, chapter, m);
      (n in st'.files <==> n in st.files) && (n in st.files ==> st'.files[n] == st.files[n])
  {
    var rank := MotifRank(m);
    assert n != PromptFileName(chapter, rank, Naturalistic) && n != PromptFileName(chapter, rank, Abstract);
    assert n != ImageFileName(chapter, rank, Naturalistic) && n != ImageFileName(chapter, rank, Abstract);
  }

  /**
   * A motif's prompt sidecars are written, naturalistic then abstract,
   * before its first image request, and the motif makes exactly two requests.
   */
  lemma SidecarsBeforeRequests(st: RunState, svc: Services, unwritable: set<string>, chapter: int, m: Motif, pp: PromptPair)
    ensures var st' := PromptedStep(st, svc, unwritable, chapter, m, pp);
      var d := st'.log[|st.log|..];
      && HasSeqPrefix(st'.log, st.log) && |d| == 4
      && d[0] == SidecarWrite(PromptFileName(chapter, MotifRank(m), Naturalistic))
      && d[1] == SidecarWrite(PromptFileName(chapter, MotifRank(m), Abstract))
      && d[2] == ImageRequest(pp.naturalistic) && d[3] == ImageRequest(pp.abstractPrompt)
      && st'.requests == st.requests + 2
  {
  }

  /**
   * A sidecar written for a motif reads back, in the repair pass's way, as
   * the stripped prompt that the motif's image request used.
   */
  lemma SidecarRecoversPrompt(st: RunState, svc: Services, unwritable: set<string>, chapter: int, m: Motif, pp: PromptPair, s: Style)
    requires PromptFileName(chapter, MotifRank(m), s) !in unwritable
    ensures var st' := PromptedStep(st, svc, unwritable, chapter, m, pp);
      var name := PromptFileName(chapter, MotifRank(m), s);
      && name in st'.files && st'.files[name].TextFile?
      && RecoverPrompt(st'.files[name].text) == Strip(PromptFor(pp, s))
  {
    var rank := MotifRank(m);
    NamesAreDistinct(chapter, rank, Naturalistic, chapter, rank, s);
    NamesAreDistinct(chapter, rank, Abstract, chapter, rank, s);
    SidecarRoundTrip(s, rank, PromptFor(pp, s));
  }

  /**
   * A record names a style's image file exactly when that style's image
   * request returned a URL, whether or not the download and save worked.
   */
  lemma PathIffUrl(st: RunState, svc: Services, unwritable: set<string>, chapter: int, m: Motif, pp: PromptPair, s: Style)
    ensures var st' := PromptedStep(st, svc, unwritable, chapter, m, pp);
      var k := if s == Naturalistic then st.requests else st.requests + 1;
      var url := svc.generate(k, PromptFor(pp, s));
      && |st'.records| == |st.records| + 1 && st'.records[..|st.records|] == st.records
      && (PathFor(st'.records[|st.records|], s).Some? <==> Truthy(url))
      && (Truthy(url) ==> PathFor(st'.records[|st.records|], s) == Some(ImageFileName(chapter, MotifRank(m), s)))
  {
  }

  /** So a record can name an image that was never saved: the download failed. */
  lemma PathWithoutImage(st: RunState, svc: Services, unwritable: set<string>, chapter: int, m: Motif, pp: PromptPair)
    requires var url := svc.generate(st.requests, pp.naturalistic);
      Truthy(url) && !svc.fetch(url.value)
    requires ImageFileName(chapter, MotifRank(m), Naturalistic) !in st.files
    ensures var st' := PromptedStep(st, svc, unwritable, chapter, m, pp);
      && st'.records[|st.records|].naturalisticPath == Some(ImageFileName(chapter, MotifRank(m), Naturalistic))
      && ImageFileName(chapter, MotifRank(m), Naturalistic) !in st'.files
  {
    var rank := MotifRank(m);
    NamesAreDistinct(chapter, rank, Naturalistic, chapter, rank, Naturalistic);
    NamesAreDistinct(chapter, rank, Naturalistic, chapter, rank, Abstract);
    StylesHaveDistinctNames(chapter, rank);
  }

  lemma PromptedStepAppends(st: RunState, svc: Services, unwritable: set<string>, chapter: int, m: Motif, pp: PromptPair)
    ensures var st' := PromptedStep(st, svc, unwritable, chapter, m, pp);
      && st'.records == st.records + [st'.records[|st.records|]]
      && st'.records[|st.records|].chapter == Some(chapter)
      && st'.log == st.log + st'.log[|st.log|..]
      && (forall e :: e in st'.log[|st.log|..] ==> !e.MetadataWrite?)
  {
  }

  /**
   * `st'` extends `st` by at most `k` records, all for `chapter`, and by log
   * events none of which is the metadata write.
   */
  ghost predicate Appended(st: RunState, st': RunState, chapter: int, k: int) {
    && HasSeqPrefix(st'.records, st.records)
    && |st'.records| - |st.records| <= k
    && (forall i :: |st.records| <= i < |st'.records| ==> st'.records[i].chapter == Some(chapter))
    && HasSeqPrefix(st'.log, st.log)
    && (forall i :: |st.log| <= i < |st'.log| ==> !st'.log[i].MetadataWrite?)
  }

  lemma AppendedTrans(a: RunState, b: RunState, c: RunState, chapter: int, k: int, l: int)
    requires Appended(a, b, chapter, k) && Appended(b, c, chapter, l)
    ensures Appended(a, c, chapter, k + l)
  {
    assert c.records[..|a.records|] == b.records[..|a.records|];
    assert c.log[..|a.log|] == b.log[..|a.log|];
    forall i | |a.records| <= i < |c.records| ensures c.records[i].chapter == Some(chapter) {
      if i < |b.records| {
        assert c.records[i] == b.records[i];
      }
    }
    forall i | |a.log| <= i < |c.log| ensures !c.log[i].MetadataWrite? {
      if i < |b.log| {
        assert c.log[i] == b.log[i];
      }
    }
  }

  /** A motif step appends at most one record, for its chapter, and events that are not the metadata write. */
  lemma MotifStepAppends(st: RunState, svc: Services, unwritable: set<string>, chapter: int, m: Motif)
    ensures Appended(st, MotifStep(st, svc, unwritable, chapter, m), chapter, 1)
  {
    match GenerateImagePrompts(m, svc.interpret)
    case None =>
    case Some(pp) =>
      PromptedStepAppends(st, svc, unwritable, chapter, m, pp);
      AppendedOne(st, PromptedStep(st, svc, unwritable, chapter, m, pp), chapter);
  }

  lemma AppendedOne(st: RunState, st': RunState, chapter: int)
    requires |st'.records| == |st.records| + 1 && |st.log| <= |st'.log|
    requires st'.records == st.records + [st'.records[|st.records|]]
    requires st'.records[|st.records|].chapter == Some(chapter)
    requires st'.log == st.log + st'.log[|st.log|..]
    requires forall e :: e in st'.log[|st.log|..] ==> !e.MetadataWrite?
    ensures Appended(st, st', chapter, 1)
  {
    forall i | |st.log| <= i < |st'.log| ensures !st'.log[i].MetadataWrite? {
      assert st'.log[i] in st'.log[|st.log|..];
    }
  }

  /** The motif loop appends at most one record per motif, all for its chapter, and never writes the metadata. */
  lemma {:induction false} MotifsRunRecords(st: RunState, svc: Services, unwritable: set<string>, chapter: int, ms: seq<Motif>)
    ensures Appended(st, MotifsRun(st, svc, unwritable, chapter, ms), chapter, |ms|)
    decreases |ms|
  {
    if ms != [] {
      var init := ms[..|ms| - 1];
      MotifsRunRecords(st, svc, unwritable, chapter, init);
      var mid := MotifsRun(st, svc, unwritable, chapter, init);
      MotifStepAppends(mid, svc, unwritable, chapter, ms[|ms| - 1]);
      AppendedTrans(st, mid, MotifsRun(st, svc, unwritable, chapter, ms), chapter, |init|, 1);
    }
  }

  /** Records in chapter order: chapters 1..n only, never decreasing, at most three per chapter. */
  ghost predicate ChapterOrdered(records: seq<Record>, n: int) {
    && (forall i :: 0 <= i < |records| ==> records[i].chapter.Some? && 1 <= records[i].chapter.value <= n)
    && (forall i, j :: 0 <= i < j < |records| ==> records[i].chapter.value <= records[j].chapter.value)
    && (forall i :: 0 <= i && i + MaxMotifs < |records| ==> records[i].chapter != records[i + MaxMotifs].chapter)
  }

  /** Appending at most three records of a later chapter keeps the order. */
  lemma AppendChapterOrdered(records: seq<Record>, more: seq<Record>, n: int)
    requires ChapterOrdered(records, n - 1) && n >= 1
    requires |more| <= MaxMotifs
    requires forall i :: 0 <= i < |more| ==> more[i].chapter == Some(n)
    ensures ChapterOrdered(records + more, n)
  {
    var all := records + more;
    forall i | 0 <= i && i + MaxMotifs < |all|
      ensures all[i].chapter != all[i + MaxMotifs].chapter
    {
      if i + MaxMotifs < |records| {
        assert all[i] == records[i] && all[i + MaxMotifs] == records[i + MaxMotifs];
      } else {
        assert all[i] == records[i] && all[i + MaxMotifs] == more[i + MaxMotifs - |records|];
      }
    }
    forall i, j | 0 <= i < j < |all|
      ensures all[i].chapter.value <= all[j].chapter.value
    {
      if j < |records| {
        assert all[i] == records[i] && all[j] == records[j];
      } else if i < |records| {
        assert all[i] == records[i] && all[j] == more[j - |records|];
      } else {
        assert all[i] == more[i - |records|] && all[j] == more[j - |records|];
      }
    }
    forall i | 0 <= i < |all| ensures all[i].chapter.Some? && 1 <= all[i].chapter.value <= n {
      if i < |records| {
        assert all[i] == records[i];
      } else {
        assert all[i] == more[i - |records|];
      }
    }
  }

  /** One chapter appends at most three records, all for that chapter, and never writes the metadata. */
  lemma ChapterStepAppends(st: RunState, svc: Services, unwritable: set<string>, n: int)
    ensures Appended(st, ChapterStep(st, svc, unwritable, n), n, MaxMotifs)
  {
    var text := ChapterText(svc.pages, n);
    if text != "" {
      MotifsRunRecords(st, svc, unwritable, n, ChapterMotifs(svc, text));
    }
  }

  /**
   * Over the chapter loop: records come in chapter order, at most three per
   * chapter, and the metadata file is never written.
   */
  lemma {:induction false} ChaptersRunOrdered(files: map<string, Content>, svc: Services, unwritable: set<string>, n: nat)
    ensures var st := ChaptersRun(Start(files), svc, unwritable, n);
      && ChapterOrdered(st.records, n)
      && (forall i :: 0 <= i < |st.log| ==> !st.log[i].MetadataWrite?)
    decreases n
  {
    if n > 0 {
      ChaptersRunOrdered(files, svc, unwritable, n - 1);
      var st := ChaptersRun(Start(files), svc, unwritable, n - 1);
      ChapterStepAppends(st, svc, unwritable, n);
      var st' := ChapterStep(st, svc, unwritable, n);
      var more := st'.records[|st.records|..];
      assert st'.records == st.records + more;
      AppendChapterOrdered(st.records, more, n);
      forall i | 0 <= i < |st'.log| ensures !st'.log[i].MetadataWrite? {
        if i < |st.log| {
          assert st'.log[i] == st.log[i];
        }
      }
    }
  }

  /** The metadata name is none of a motif's four names. */
  lemma MetadataNotMotifName(chapter: int, rank: Rank)
    ensures !MotifName(MetadataFileName, chapter, rank)
  {
    forall s: Style ensures MetadataFileName != PromptFileName(chapter, rank, s) && MetadataFileName != ImageFileName(chapter, rank, s) {
      NamesAreDistinct(chapter, rank, s, chapter, rank, s);
    }
  }

  lemma {:induction false} MotifsRunKeepsMetadata(st: RunState, svc: Services, unwritable: set<string>, chapter: int, ms: seq<Motif>)
    ensures var st' := MotifsRun(st, svc, unwritable, chapter, ms);
      (MetadataFileName in st'.files <==> MetadataFileName in st.files)
      && (MetadataFileName in st.files ==> st'.files[MetadataFileName] == st.files[MetadataFileName])
    decreases |ms|
  {
    if ms != [] {
      MotifsRunKeepsMetadata(st, svc, unwritable, chapter, ms[..|ms| - 1]);
      var m := ms[|ms| - 1];
      MetadataNotMotifName(chapter, MotifRank(m));
      MotifStepFrame(MotifsRun(st, svc, unwritable, chapter, ms[..|ms| - 1]), svc, unwritable, chapter, m, MetadataFileName);
    }
  }

  /** The metadata file, present or absent, is the same in both maps. */
  ghost predicate SameMetadata(files: map<string, Content>, files': map<string, Content>) {
    && (MetadataFileName in files' <==> MetadataFileName in files)
    && (MetadataFileName in files ==> files'[MetadataFileName] == files[MetadataFileName])
  }

  /** One chapter leaves the metadata file alone. */
  lemma ChapterStepKeepsMetadata(files: map<string, Content>, st: RunState, svc: Services, unwritable: set<string>, chapter: int)
    requires SameMetadata(files, st.files)
    ensures SameMetadata(files, ChapterStep(st, svc, unwritable, chapter).files)
  {
    var text := ChapterText(svc.pages, chapter);
    if text != "" {
      MotifsRunKeepsMetadata(st, svc, unwritable, chapter, ChapterMotifs(svc, text));
    }
  }

  /** The chapter loop leaves the metadata file, present or absent, as it found it. */
  lemma {:induction false} ChaptersRunKeepsMetadata(files: map<string, Content>, svc: Services, unwritable: set<string>, n: nat)
    ensures SameMetadata(files, ChaptersRun(Start(files), svc, unwritable, n).files)
    decreases n
  {
    if n > 0 {
      ChaptersRunKeepsMetadata(files, svc, unwritable, n - 1);
      ChapterStepKeepsMetadata(files, ChaptersRun(Start(files), svc, unwritable, n - 1), svc, unwritable, n);
    }
  }

  /**
   * The metadata file is written exactly once, as the last event, and holds
   * every record in chapter order; until then the run leaves it alone.
   */
  lemma MetadataWrittenOnceAtEnd(files: map<string, Content>, unwritable: set<string>, svc: Services)
    ensures var run := PipelineRun(files, unwritable, svc);
      && |run.log| > 0 && run.log[|run.log| - 1] == MetadataWrite
      && (forall i :: 0 <= i < |run.log| - 1 ==> !run.log[i].MetadataWrite?)
      && ChapterOrdered(run.records, LastChapter)
      && (MetadataFileName !in unwritable ==> run.files[MetadataFileName] == MetadataFile(run.records))
      && (MetadataFileName in unwritable ==>
            (MetadataFileName in run.files <==> MetadataFileName in files)
            && (MetadataFileName in files ==> run.files[MetadataFileName] == files[MetadataFileName]))
  {
    ChaptersRunOrdered(files, svc, unwritable, LastChapter);
    ChaptersRunKeepsMetadata(files, svc, unwritable, LastChapter);
    var st := ChaptersRun(Start(files), svc, unwritable, LastChapter);
    var run := PipelineRun(files, unwritable, svc);
    assert run.log[..|run.log| - 1] == st.log;
    forall i | 0 <= i < |run.log| - 1 ensures !run.log[i].MetadataWrite? {
      assert run.log[i] == st.log[i];
    }
  }

  // ----------------------------------------------------------------- methods

  /** The two sidecar writes of a motif. */
  method WriteSidecars(dir: Directory, chapter: int, rank: Rank, pp: PromptPair)
    modifies dir
    ensures dir.files == SidecarsWritten(old(dir.files), dir.unwritable, chapter, rank, pp)
  {
    var _ := dir.Write(PromptFileName(chapter, rank, Naturalistic), TextFile(SidecarText(Naturalistic, rank, pp.naturalistic)));
    var _ := dir.Write(PromptFileName(chapter, rank, Abstract), TextFile(SidecarText(Abstract, rank, pp.abstractPrompt)));
  }

  /** The two guarded image saves of a motif. */
  method SaveImages(dir: Directory, fetch: string -> bool, chapter: int, rank: Rank, natUrl: Option<string>, absUrl: Option<string>)
    modifies dir
    ensures dir.files == ImagesSaved(old(dir.files), dir.unwritable, fetch, chapter, rank, natUrl, absUrl)
  {
    if Truthy(natUrl) {
      dir.SaveImage(fetch, natUrl, ImageFileName(chapter, rank, Naturalistic));
    }
    if Truthy(absUrl) {
      dir.SaveImage(fetch, absUrl, ImageFileName(chapter, rank, Abstract));
    }
  }

  /** The motif loop's body once the prompts are known. */
  method ProcessPrompted(dir: Directory, svc: Services, chapter: int, m: Motif, pp: PromptPair,
                         records: seq<Record>, log: seq<Event>, requests: nat)
    returns (records': seq<Record>, log': seq<Event>, requests': nat)
    modifies dir
    ensures RunState(dir.files, records', log', requests')
         == PromptedStep(RunState(old(dir.files), records, log, requests), svc, dir.unwritable, chapter, m, pp)
  {
    var rank := MotifRank(m);
    WriteSidecars(dir, chapter, rank, pp);
    var natUrl := svc.generate(requests, pp.naturalistic);
    var absUrl := svc.generate(requests + 1, pp.abstractPrompt);
    SaveImages(dir, svc.fetch, chapter, rank, natUrl, absUrl);
    records' := records + [MotifRecord(chapter, m, natUrl, absUrl)];
    log' := log + [SidecarWrite(PromptFileName(chapter, rank, Naturalistic)), SidecarWrite(PromptFileName(chapter, rank, Abstract)),
                   ImageRequest(pp.naturalistic), ImageRequest(pp.abstractPrompt)];
    requests' := requests + 2;
  }

  /** One pass of the motif loop of `process_chapters`. */
  method ProcessMotif(dir: Directory, svc: Services, chapter: int, m: Motif,
                      records: seq<Record>, log: seq<Event>, requests: nat)
    returns (records': seq<Record>, log': seq<Event>, requests': nat)
    modifies dir
    ensures RunState(dir.files, records', log', requests')
         == MotifStep(RunState(old(dir.files), records, log, requests), svc, dir.unwritable, chapter, m)
  {
    var prompts := GenerateImagePrompts(m, svc.interpret);
    if prompts.None? {
      return records, log, requests;
    }
    records', log', requests' := ProcessPrompted(dir, svc, chapter, m, prompts.value, records, log, requests);
  }

  /** One pass of the chapter loop: extract the text, then the motif loop over the chapter's motifs. */
  method ProcessChapter(dir: Directory, svc: Services, chapter: int,
                        records: seq<Record>, log: seq<Event>, requests: nat)
    returns (records': seq<Record>, log': seq<Event>, requests': nat)
    modifies dir
    ensures RunState(dir.files, records', log', requests')
         == ChapterStep(RunState(old(dir.files), records, log, requests), svc, dir.unwritable, chapter)
  {
    records', log', requests' := records, log, requests;
    var text, _ := ExtractText(svc.pages, chapter);
    if text != "" {
      var motifs := ChapterMotifs(svc, text);
      ghost var st0 := RunState(dir.files, records, log, requests);
      var i := 0;
      while i < |motifs|
        invariant 0 <= i <= |motifs|
        invariant RunState(dir.files, records', log', requests')
               == MotifsRun(st0, svc, dir.unwritable, chapter, motifs[..i])
      {
        records', log', requests' := ProcessMotif(dir, svc, chapter, motifs[i], records', log', requests');
        PrefixStep(motifs, i);
        i := i + 1;
      }
      WholePrefix(motifs);
    }
  }

  /** `process_chapters(pdf_path, output_dir)` against the artwork directory. */
  method ProcessChapters(dir: Directory, svc: Services) returns (records: seq<Record>, log: seq<Event>)
    modifies dir
    ensures var run := PipelineRun(old(dir.files), dir.unwritable, svc);
      dir.files == run.files && records == run.records && log == run.log
  {
    records, log := [], [];
    var requests := 0;
    var chapter := 1;
    while chapter <= LastChapter
      invariant 1 <= chapter <= LastChapter + 1
      invariant RunState(dir.files, records, log, requests)
             == ChaptersRun(Start(old(dir.files)), svc, dir.unwritable, chapter - 1)
    {
      records, log, requests := ProcessChapter(dir, svc, chapter, records, log, requests);
      chapter := chapter + 1;
    }
    var _ := dir.Write(MetadataFileName, MetadataFile(records));
    log := log + [MetadataWrite];
  }
}
