/**
 * `regenerate_missing_images.regenerate`: for every metadata record and each
 * style, an image that is missing from the artwork directory is generated
 * again from the prompt recovered from its sidecar, and the outcome is
 * counted as regenerated, failed generation or missing prompt.
 *
 * The pass is specified by folds over a `RepairState` (the directory, the
 * three counters and the prompts sent to the image model, in order), and the
 * method is proved to follow them.
 */
module Repair {
  import opened Wrappers
  import opened Text
  import opened Storage
  import opened Assets

  /**
   * The outside world of the pass: `generate(k, prompt)` is the URL returned
   * by the k-th image request (None when the call raises), `fetch(url)` says
   * whether downloading and saving that image succeeds.
   */
  datatype RepairServices = RepairServices(generate: (nat, string) -> Option<string>, fetch: string -> bool)

  /** `regenerated_count`, `failed_generation`, `missing_prompts`. */
  datatype Tally = Tally(regenerated: nat, failedGeneration: nat, missingPrompts: nat)

  function Total(t: Tally): nat {
    t.regenerated + t.failedGeneration + t.missingPrompts
  }

  /** No counter went down. */
  predicate Grew(t: Tally, t': Tally) {
    t.regenerated <= t'.regenerated && t.failedGeneration <= t'.failedGeneration && t.missingPrompts <= t'.missingPrompts
  }

  datatype RepairState = RepairState(files: map<string, Content>, tally: Tally, requests: seq<string>)

  function Begin(files: map<string, Content>): RepairState {
    RepairState(files, Tally(0, 0, 0), [])
  }

  /**
   * The prompt recovered from a style's sidecar: None when the sidecar does
   * not exist or reading it raises.
   */
  function SidecarPrompt(files: map<string, Content>, c: int, rank: Rank, s: Style): (p: Option<string>)
    ensures p.Some? <==> PromptFileName(c, rank, s) in files && files[PromptFileName(c, rank, s)].TextFile?
  {
    var name := PromptFileName(c, rank, s);
    if name !in files then None
    else
      match ReadText(files[name])
      case None => None
      case Some(text) => Some(RecoverPrompt(text))
  }

  /**
   * The check of one style of one record. An image that exists is left alone.
   * A missing image whose prompt is missing, unreadable or empty is counted
   * as a missing prompt without any request; otherwise one request is made,
   * and a URL counts as regenerated (whether or not the save then works),
   * no URL as a failed generation.
   */
  function RepairStyle(st: RepairState, svc: RepairServices, unwritable: set<string>, c: int, rank: Rank, s: Style)
    : (r: RepairState)
    ensures ImageFileName(c, rank, s) in st.files ==> r == st
    ensures ImageFileName(c, rank, s) !in st.files ==> Total(r.tally) == Total(st.tally) + 1
    ensures Grew(st.tally, r.tally)
    ensures r.tally.missingPrompts > st.tally.missingPrompts
        <==> ImageFileName(c, rank, s) !in st.files && !Truthy(SidecarPrompt(st.files, c, rank, s))
    ensures |st.requests| <= |r.requests| && r.requests[..|st.requests|] == st.requests
    ensures |r.requests| - |st.requests|
         == (r.tally.regenerated - st.tally.regenerated) + (r.tally.failedGeneration - st.tally.failedGeneration)
    ensures forall n :: n in st.files ==> n in r.files && r.files[n] == st.files[n]
    ensures forall n :: n in r.files && n !in st.files ==> n == ImageFileName(c, rank, s)
  {
    var image := ImageFileName(c, rank, s);
    if image in st.files then st
    else
      var prompt := SidecarPrompt(st.files, c, rank, s);
      if !Truthy(prompt) then
        st.(tally := st.tally.(missingPrompts := st.tally.missingPrompts + 1))
      else
        var url := svc.generate(|st.requests|, prompt.value);
        var requests := st.requests + [prompt.value];
        if Truthy(url) then
          RepairState(SavedImage(st.files, unwritable, svc.fetch, url, image),
                      st.tally.(regenerated := st.tally.regenerated + 1), requests)
        else
          RepairState(st.files, st.tally.(failedGeneration := st.tally.failedGeneration + 1), requests)
  }

  /** One record: a record without a chapter or a rank is skipped; otherwise naturalistic, then abstract. */
  function RepairItem(st: RepairState, svc: RepairServices, unwritable: set<string>, item: Record): (r: RepairState)
    ensures item.chapter.None? || item.rank.None? ==> r == st
    ensures Grew(st.tally, r.tally)
    ensures forall n :: n in st.files ==> n in r.files && r.files[n] == st.files[n]
  {
    if item.chapter.None? || item.rank.None? then st
    else
      var c, rank := item.chapter.value, item.rank.value;
      RepairStyle(RepairStyle(st, svc, unwritable, c, rank, Naturalistic), svc, unwritable, c, rank, Abstract)
  }

  /** The loop over the records, as a fold over its prefixes. */
  function RepairItems(st: RepairState, svc: RepairServices, unwritable: set<string>, items: seq<Record>): RepairState
    decreases |items|
  {
    if items == [] then st
    else RepairItem(RepairItems(st, svc, unwritable, items[..|items| - 1]), svc, unwritable, items[|items| - 1])
  }

  /** The whole pass: nothing happens when the metadata file is missing or does not decode. */
  function RegenerateRun(files: map<string, Content>, unwritable: set<string>, svc: RepairServices): Option<RepairState> {
    match LoadMetadata(files, MetadataFileName)
    case None => None
    case Some(items) => Some(RepairItems(Begin(files), svc, unwritable, items))
  }

  // ------------------------------------------------------------- lemmas

  /** The image a record expects for a style. */
  ghost predicate Expected(items: seq<Record>, n: string) {
    exists i, s :: 0 <= i < |items| && items[i].chapter.Some? && items[i].rank.Some?
      && n == ImageFileName(items[i].chapter.value, items[i].rank.value, s)
  }

  /**
   * Over the loop: every request is one regenerated image or one failed
   * generation, no counter goes down, and at most two outcomes are counted
   * per record.
   */
  lemma {:induction false} RepairItemsCounts(st: RepairState, svc: RepairServices, unwritable: set<string>, items: seq<Record>)
    ensures var r := RepairItems(st, svc, unwritable, items);
      && Grew(st.tally, r.tally)
      && Total(r.tally) <= Total(st.tally) + 2 * |items|
      && |st.requests| <= |r.requests| && r.requests[..|st.requests|] == st.requests
      && |r.requests| - |st.requests|
         == (r.tally.regenerated - st.tally.regenerated) + (r.tally.failedGeneration - st.tally.failedGeneration)
    decreases |items|
  {
    if items != [] {
      RepairItemsCounts(st, svc, unwritable, items[..|items| - 1]);
      var mid := RepairItems(st, svc, unwritable, items[..|items| - 1]);
      var r := RepairItems(st, svc, unwritable, items);
      assert r.requests[..|st.requests|] == mid.requests[..|st.requests|];
    }
  }

  /** No counter goes down over the loop. */
  lemma {:induction false} RepairItemsGrow(st: RepairState, svc: RepairServices, unwritable: set<string>, items: seq<Record>)
    ensures Grew(st.tally, RepairItems(st, svc, unwritable, items).tally)
    decreases |items|
  {
    if items != [] {
      RepairItemsGrow(st, svc, unwritable, items[..|items| - 1]);
    }
  }

  /**
   * The pass never changes a file that existed, and every file it adds is
   * the image a record expects.
   */
  lemma {:induction false} RepairItemsWrites(st: RepairState, svc: RepairServices, unwritable: set<string>, items: seq<Record>)
    ensures var r := RepairItems(st, svc, unwritable, items);
      && (forall n :: n in st.files ==> n in r.files && r.files[n] == st.files[n])
      && (forall n :: n in r.files && n !in st.files ==> Expected(items, n))
    decreases |items|
  {
    if items != [] {
      var init, last := items[..|items| - 1], items[|items| - 1];
      RepairItemsWrites(st, svc, unwritable, init);
      WritesStep(st.files, RepairItems(st, svc, unwritable, init), svc, unwritable, init, last);
      SplitLast(items);
    }
  }

  /** One more record keeps the files that existed and adds only its own images. */
  lemma WritesStep(files: map<string, Content>, mid: RepairState, svc: RepairServices, unwritable: set<string>,
                   init: seq<Record>, last: Record)
    requires forall n :: n in files ==> n in mid.files && mid.files[n] == files[n]
    requires forall n :: n in mid.files && n !in files ==> Expected(init, n)
    ensures var r := RepairItem(mid, svc, unwritable, last);
      && (forall n :: n in files ==> n in r.files && r.files[n] == files[n])
      && (forall n :: n in r.files && n !in files ==> Expected(init + [last], n))
  {
    var r := RepairItem(mid, svc, unwritable, last);
    forall n | n in r.files && n !in files ensures Expected(init + [last], n) {
      if n in mid.files {
        ExpectedGrows(init, last, n);
      } else {
        var c, rank := last.chapter.value, last.rank.value;
        if n in RepairStyle(mid, svc, unwritable, c, rank, Naturalistic).files {
          ExpectedLast(init, last, Naturalistic);
        } else {
          ExpectedLast(init, last, Abstract);
        }
      }
    }
  }

  lemma ExpectedGrows(init: seq<Record>, last: Record, n: string)
    requires Expected(init, n)
    ensures Expected(init + [last], n)
  {
    var i, s :| 0 <= i < |init| && init[i].chapter.Some? && init[i].rank.Some?
      && n == ImageFileName(init[i].chapter.value, init[i].rank.value, s);
    assert (init + [last])[i] == init[i];
  }

  lemma ExpectedLast(init: seq<Record>, last: Record, s: Style)
    requires last.chapter.Some? && last.rank.Some?
    ensures Expected(init + [last], ImageFileName(last.chapter.value, last.rank.value, s))
  {
    assert (init + [last])[|init|] == last;
  }

  /** With every expected image present, the pass changes nothing and makes no request. */
  lemma {:induction false} RepairItemsNoop(st: RepairState, svc: RepairServices, unwritable: set<string>, items: seq<Record>)
    requires forall n :: Expected(items, n) ==> n in st.files
    ensures RepairItems(st, svc, unwritable, items) == st
    decreases |items|
  {
    if items != [] {
      var init := items[..|items| - 1];
      var last := items[|items| - 1];
      forall n | Expected(init, n) ensures n in st.files {
        var i, s :| 0 <= i < |init| && init[i].chapter.Some? && init[i].rank.Some?
          && n == ImageFileName(init[i].chapter.value, init[i].rank.value, s);
        assert items[i] == init[i];
      }
      RepairItemsNoop(st, svc, unwritable, init);
      if last.chapter.Some? && last.rank.Some? {
        assert Expected(items, ImageFileName(last.chapter.value, last.rank.value, Naturalistic));
        assert Expected(items, ImageFileName(last.chapter.value, last.rank.value, Abstract));
      }
    }
  }

  /** When downloads succeed and images can be written, a regenerated image is in the directory afterwards. */
  lemma RepairStyleSaves(st: RepairState, svc: RepairServices, unwritable: set<string>, c: int, rank: Rank, s: Style)
    requires forall u :: svc.fetch(u)
    requires ImageFileName(c, rank, s) !in unwritable
    ensures var r := RepairStyle(st, svc, unwritable, c, rank, s);
      (r.tally.failedGeneration == st.tally.failedGeneration && r.tally.missingPrompts == st.tally.missingPrompts)
        ==> ImageFileName(c, rank, s) in r.files
  {
  }

  /** The same for both styles of one record. */
  lemma RepairItemSaves(st: RepairState, svc: RepairServices, unwritable: set<string>, item: Record)
    requires forall u :: svc.fetch(u)
    requires forall c, rank, s :: ImageFileName(c, rank, s) !in unwritable
    requires item.chapter.Some? && item.rank.Some?
    ensures var r := RepairItem(st, svc, unwritable, item);
      (r.tally.failedGeneration == st.tally.failedGeneration && r.tally.missingPrompts == st.tally.missingPrompts)
        ==> forall s :: ImageFileName(item.chapter.value, item.rank.value, s) in r.files
  {
    var c, rank := item.chapter.value, item.rank.value;
    var mid := RepairStyle(st, svc, unwritable, c, rank, Naturalistic);
    RepairStyleSaves(st, svc, unwritable, c, rank, Naturalistic);
    RepairStyleSaves(mid, svc, unwritable, c, rank, Abstract);
  }

  /**
   * A pass that counted no failure and no missing prompt, with downloads
   * that succeed and images that can be written, leaves every expected image
   * in the directory.
   */
  lemma {:induction false} RepairItemsComplete(st: RepairState, svc: RepairServices, unwritable: set<string>, items: seq<Record>)
    requires forall u :: svc.fetch(u)
    requires forall c, rank, s :: ImageFileName(c, rank, s) !in unwritable
    ensures var r := RepairItems(st, svc, unwritable, items);
      (r.tally.failedGeneration == st.tally.failedGeneration && r.tally.missingPrompts == st.tally.missingPrompts)
        ==> forall n :: Expected(items, n) ==> n in r.files
    decreases |items|
  {
    if items != [] {
      var init, last := items[..|items| - 1], items[|items| - 1];
      RepairItemsGrow(st, svc, unwritable, init);
      RepairItemsComplete(st, svc, unwritable, init);
      CompleteStep(st.tally, RepairItems(st, svc, unwritable, init), svc, unwritable, init, last);
      SplitLast(items);
    }
  }

  /** One more record keeps every expected image present, as long as nothing failed. */
  lemma CompleteStep(t0: Tally, mid: RepairState, svc: RepairServices, unwritable: set<string>, init: seq<Record>, last: Record)
    requires forall u :: svc.fetch(u)
    requires forall c, rank, s :: ImageFileName(c, rank, s) !in unwritable
    requires Grew(t0, mid.tally)
    requires (mid.tally.failedGeneration == t0.failedGeneration && mid.tally.missingPrompts == t0.missingPrompts)
        ==> forall n :: Expected(init, n) ==> n in mid.files
    ensures var r := RepairItem(mid, svc, unwritable, last);
      (r.tally.failedGeneration == t0.failedGeneration && r.tally.missingPrompts == t0.missingPrompts)
        ==> forall n :: Expected(init + [last], n) ==> n in r.files
  {
    var r := RepairItem(mid, svc, unwritable, last);
    if r.tally.failedGeneration == t0.failedGeneration && r.tally.missingPrompts == t0.missingPrompts {
      if last.chapter.Some? && last.rank.Some? {
        RepairItemSaves(mid, svc, unwritable, last);
      }
      ExpectedAppend(init, last, mid.files, r.files);
    }
  }

  /** Expected images of a longer record list, from those of its prefix and of its last record. */
  lemma ExpectedAppend(init: seq<Record>, last: Record, before: map<string, Content>, after: map<string, Content>)
    requires forall n :: Expected(init, n) ==> n in before
    requires forall n :: n in before ==> n in after
    requires last.chapter.Some? && last.rank.Some? ==> forall s :: ImageFileName(last.chapter.value, last.rank.value, s) in after
    ensures forall n :: Expected(init + [last], n) ==> n in after
  {
    var items := init + [last];
    forall n | Expected(items, n) ensures n in after {
      var i, s :| 0 <= i < |items| && items[i].chapter.Some? && items[i].rank.Some?
        && n == ImageFileName(items[i].chapter.value, items[i].rank.value, s);
      if i < |init| {
        assert init[i] == items[i];
        assert Expected(init, n);
      }
    }
  }

  /** The pass never touches the metadata file. */
  lemma RegenerateKeepsMetadata(files: map<string, Content>, unwritable: set<string>, svc: RepairServices)
    requires RegenerateRun(files, unwritable, svc).Some?
    ensures var r := RegenerateRun(files, unwritable, svc).value;
      MetadataFileName in files && MetadataFileName in r.files && r.files[MetadataFileName] == files[MetadataFileName]
  {
    RepairItemsWrites(Begin(files), svc, unwritable, LoadMetadata(files, MetadataFileName).value);
  }

  /**
   * After a pass that counted no failure and no missing prompt, with
   * downloads that succeed and images that can be written, a second pass
   * makes no request and counts nothing.
   */
  lemma SecondRunIsNoop(files: map<string, Content>, unwritable: set<string>, svc: RepairServices)
    requires forall u :: svc.fetch(u)
    requires forall c, rank, s :: ImageFileName(c, rank, s) !in unwritable
    requires RegenerateRun(files, unwritable, svc).Some?
    requires var t := RegenerateRun(files, unwritable, svc).value.tally;
      t.failedGeneration == 0 && t.missingPrompts == 0
    ensures var after := RegenerateRun(files, unwritable, svc).value.files;
      RegenerateRun(after, unwritable, svc) == Some(Begin(after))
  {
    var items := LoadMetadata(files, MetadataFileName).value;
    var r := RegenerateRun(files, unwritable, svc).value;
    RepairItemsWrites(Begin(files), svc, unwritable, items);
    RepairItemsComplete(Begin(files), svc, unwritable, items);
    RepairItemsNoop(Begin(r.files), svc, unwritable, items);
  }

  /** A sidecar in the generator's format yields the stripped prompt it was written with. */
  lemma SidecarPromptOfSidecar(files: map<string, Content>, c: int, rank: Rank, s: Style, p: string)
    requires PromptFileName(c, rank, s) in files
    requires files[PromptFileName(c, rank, s)] == TextFile(SidecarText(s, rank, p))
    ensures SidecarPrompt(files, c, rank, s) == Some(Strip(p))
  {
    SidecarRoundTrip(s, rank, p);
  }

  /** A missing image with such a sidecar is requested with exactly that prompt. */
  lemma RequestUsesSidecar(st: RepairState, svc: RepairServices, unwritable: set<string>, c: int, rank: Rank, s: Style, p: string)
    requires PromptFileName(c, rank, s) in st.files
    requires st.files[PromptFileName(c, rank, s)] == TextFile(SidecarText(s, rank, p))
    requires ImageFileName(c, rank, s) !in st.files && Strip(p) != ""
    ensures RepairStyle(st, svc, unwritable, c, rank, s).requests == st.requests + [Strip(p)]
  {
    SidecarPromptOfSidecar(st.files, c, rank, s, p);
  }

  /** A URL counts as regenerated even when the download fails and no image is saved. */
  lemma RegeneratedWithoutImage(st: RepairState, svc: RepairServices, unwritable: set<string>, c: int, rank: Rank, s: Style)
    requires ImageFileName(c, rank, s) !in st.files
    requires var p := SidecarPrompt(st.files, c, rank, s);
      Truthy(p) && Truthy(svc.generate(|st.requests|, p.value)) && !svc.fetch(svc.generate(|st.requests|, p.value).value)
    ensures var r := RepairStyle(st, svc, unwritable, c, rank, s);
      r.tally.regenerated == st.tally.regenerated + 1 && ImageFileName(c, rank, s) !in r.files
  {
  }

  // ------------------------------------------------------------- methods

  /** The check of one style against the directory, updating the counters and the request list. */
  method RepairStyleIn(dir: Directory, svc: RepairServices, c: int, rank: Rank, s: Style, tally: Tally, requests: seq<string>)
    returns (tally': Tally, requests': seq<string>)
    modifies dir
    ensures RepairState(dir.files, tally', requests')
         == RepairStyle(RepairState(old(dir.files), tally, requests), svc, dir.unwritable, c, rank, s)
  {
    tally', requests' := tally, requests;
    var image := ImageFileName(c, rank, s);
    if image in dir.files {
      return;
    }
    var prompt := SidecarPrompt(dir.files, c, rank, s);
    if !Truthy(prompt) {
      tally' := tally'.(missingPrompts := tally'.missingPrompts + 1);
      return;
    }
    tally', requests' := RequestImage(dir, svc, prompt.value, image, tally, requests);
  }

  /** One image request for a missing image, and the download of a URL it returns. */
  method RequestImage(dir: Directory, svc: RepairServices, prompt: string, image: string, tally: Tally, requests: seq<string>)
    returns (tally': Tally, requests': seq<string>)
    modifies dir
    ensures requests' == requests + [prompt]
    ensures var url := svc.generate(|requests|, prompt);
      if Truthy(url) then
        dir.files == SavedImage(old(dir.files), dir.unwritable, svc.fetch, url, image)
        && tally' == tally.(regenerated := tally.regenerated + 1)
      else
        dir.files == old(dir.files) && tally' == tally.(failedGeneration := tally.failedGeneration + 1)
  {
    var url := svc.generate(|requests|, prompt);
    requests' := requests + [prompt];
    if Truthy(url) {
      dir.SaveImage(svc.fetch, url, image);
      tally' := tally.(regenerated := tally.regenerated + 1);
    } else {
      tally' := tally.(failedGeneration := tally.failedGeneration + 1);
    }
  }

  /** One record of the loop: skipped without a chapter or a rank, otherwise both styles in order. */
  method RepairItemIn(dir: Directory, svc: RepairServices, item: Record, tally: Tally, requests: seq<string>)
    returns (tally': Tally, requests': seq<string>)
    modifies dir
    ensures RepairState(dir.files, tally', requests')
         == RepairItem(RepairState(old(dir.files), tally, requests), svc, dir.unwritable, item)
  {
    tally', requests' := tally, requests;
    if item.chapter.Some? && item.rank.Some? {
      tally', requests' := RepairStyleIn(dir, svc, item.chapter.value, item.rank.value, Naturalistic, tally', requests');
      tally', requests' := RepairStyleIn(dir, svc, item.chapter.value, item.rank.value, Abstract, tally', requests');
    }
  }

  /**
   * `regenerate`: None when the metadata file is missing or does not decode,
   * and then no request is made and nothing changes; otherwise the counters
   * of the pass, which updated the directory in place.
   */
  method Regenerate(dir: Directory, svc: RepairServices) returns (summary: Option<Tally>, requests: seq<string>)
    modifies dir
    ensures var run := RegenerateRun(old(dir.files), dir.unwritable, svc);
      && (run.None? ==> summary.None? && requests == [] && dir.files == old(dir.files))
      && (run.Some? ==> summary == Some(run.value.tally) && requests == run.value.requests && dir.files == run.value.files)
  {
    requests := [];
    var loaded := LoadMetadata(dir.files, MetadataFileName);
    if loaded.None? {
      return None, [];
    }
    var items := loaded.value;
    var tally := Tally(0, 0, 0);
    ghost var start := old(dir.files);
    var i := 0;
    while i < |items|
      invariant 0 <= i <= |items|
      invariant RepairState(dir.files, tally, requests) == RepairItems(Begin(start), svc, dir.unwritable, items[..i])
    {
      PrefixStep(items, i);
      tally, requests := RepairItemIn(dir, svc, items[i], tally, requests);
      i := i + 1;
    }
    WholePrefix(items);
    summary := Some(tally);
  }
}
