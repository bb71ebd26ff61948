/**
 * `test_single_image.main_test`: up to three prompt sidecars are picked, the
 * prompt is read back from each, and one image is requested per quality (low,
 * medium, high), saved as `test_<stem>_<quality>.png`; every attempt is
 * counted as generated, failed generation or failed save.
 */
module QualityTest {
  import opened Wrappers
  import opened Text
  import opened Storage
  import opened Assets

  datatype Quality = Low | Medium | High

  const Qualities: seq<Quality> := [Low, Medium, High]

  function QualityName(q: Quality): string {
    match q
    case Low => "low"
    case Medium => "medium"
    case High => "high"
  }

  /**
   * The image call: it raised, or it returned `response.data`, whose elements
   * carry a `b64_json` attribute that may be absent or None (None here).
   */
  datatype ImageResponse = RequestFailed | ImageData(items: seq<Option<string>>)

  /** `generate_image`: the first element's base64 payload, None unless it is present and non-empty. */
  function B64Of(resp: ImageResponse): (r: Option<string>)
    ensures r.Some? <==> resp.ImageData? && |resp.items| > 0 && Truthy(resp.items[0])
    ensures r.Some? ==> r.value == resp.items[0].value && r.value != ""
  {
    if resp.ImageData? && |resp.items| > 0 && Truthy(resp.items[0]) then resp.items[0] else None
  }

  /**
   * The outside world of the test: `images(k, prompt, q)` answers the k-th
   * image request, `decodes(b64)` says whether decoding and opening the
   * image works.
   */
  datatype TestServices = TestServices(images: (nat, string, Quality) -> ImageResponse, decodes: string -> bool)

  /** `save_image` succeeds: there is data, it decodes, and the file can be written. */
  predicate SaveSucceeds(decodes: string -> bool, unwritable: set<string>, b64: Option<string>, name: string) {
    Truthy(b64) && decodes(b64.value) && name !in unwritable
  }

  /** The sidecars `glob("*_prompt.txt")` finds. */
  function PromptFiles(files: map<string, Content>): (ps: set<string>)
    ensures forall n :: n in ps <==> n in files && HasSuffix(n, "_prompt.txt")
  {
    set n | n in files && HasSuffix(n, "_prompt.txt")
  }

  const SampleSize := 3

  /** What `random.sample(all_prompt_files, min(3, len(...)))` may return. */
  predicate IsSample(selected: seq<string>, all: set<string>) {
    && |selected| == Min(SampleSize, |all|)
    && (forall i :: 0 <= i < |selected| ==> selected[i] in all)
    && (forall i, j :: 0 <= i < j < |selected| ==> selected[i] != selected[j])
  }

  /** `Path(name).stem` for a name ending in `.txt`. */
  function Stem(name: string): string
    requires HasSuffix(name, ".txt")
  {
    name[..|name| - 4]
  }

  /** `test_{stem}_{quality}.png`. */
  function TestImageName(name: string, q: Quality): (t: string)
    requires HasSuffix(name, ".txt")
    ensures HasPrefix(t, "test_") && HasSuffix(t, ".png")
  {
    var tail := "_" + QualityName(q) + ".png";
    SuffixOfSuffix("test_" + Stem(name) + tail, tail, ".png");
    "test_" + Stem(name) + tail
  }

  /** The three attempts of one file write three different files. */
  lemma TestImageNamesDistinct(name: string, q: Quality, q': Quality)
    requires HasSuffix(name, ".txt") && q != q'
    ensures TestImageName(name, q) != TestImageName(name, q')
  {
    assert |TestImageName(name, q)| == 6 + |Stem(name)| + |QualityName(q)| + 4;
    assert |TestImageName(name, q')| == 6 + |Stem(name)| + |QualityName(q')| + 4;
  }

  /** The prompt as the test reads it: every line but the first, joined and stripped. */
  function TestPrompt(text: string): string {
    var lines := Lines(text);
    Strip(Join(if |lines| == 0 then [] else lines[1..]))
  }

  /** The test reads a sidecar exactly as the repair pass does. */
  lemma TestPromptIsRecoverPrompt(text: string)
    ensures TestPrompt(text) == RecoverPrompt(text)
  {
    SkipFirstLine(Lines(text));
  }

  lemma SkipFirstLine(lines: seq<string>)
    ensures Strip(Join(if |lines| == 0 then [] else lines[1..]))
      == if |lines| > 1 then Strip(Join(lines[1..])) else ""
  {
    if |lines| == 0 {
      StripEmpty();
    } else if |lines| == 1 {
      assert lines[1..] == [];
      StripEmpty();
    }
  }

  datatype Totals = Totals(generated: nat, failedGeneration: nat, failedSaving: nat)

  function Sum(t: Totals): nat {
    t.generated + t.failedGeneration + t.failedSaving
  }

  datatype Attempt = Attempt(file: string, quality: Quality)

  datatype TestState = TestState(files: map<string, Content>, totals: Totals, attempts: seq<Attempt>)

  /**
   * One quality for one file: the k-th request, then a save when data came
   * back; exactly one counter moves and the attempt is logged.
   */
  function AttemptStep(st: TestState, svc: TestServices, unwritable: set<string>, file: string, prompt: string, q: Quality)
    : (r: TestState)
    requires HasSuffix(file, ".txt")
    ensures Sum(r.totals) == Sum(st.totals) + 1
    ensures r.attempts == st.attempts + [Attempt(file, q)]
    ensures var b64 := B64Of(svc.images(|st.attempts|, prompt, q));
      && (r.totals.generated > st.totals.generated <==> SaveSucceeds(svc.decodes, unwritable, b64, TestImageName(file, q)))
      && (r.totals.failedGeneration > st.totals.failedGeneration <==> b64.None?)
    ensures forall n :: n in st.files && n != TestImageName(file, q) ==> n in r.files && r.files[n] == st.files[n]
    ensures forall n :: n in r.files ==> n in st.files || n == TestImageName(file, q)
  {
    var name := TestImageName(file, q);
    var b64 := B64Of(svc.images(|st.attempts|, prompt, q));
    var attempts := st.attempts + [Attempt(file, q)];
    if b64.None? then
      TestState(st.files, st.totals.(failedGeneration := st.totals.failedGeneration + 1), attempts)
    else if SaveSucceeds(svc.decodes, unwritable, b64, name) then
      TestState(st.files[name := ImageFile(b64.value)], st.totals.(generated := st.totals.generated + 1), attempts)
    else
      TestState(st.files, st.totals.(failedSaving := st.totals.failedSaving + 1), attempts)
  }

  /** The quality loop, as a fold over its prefixes. */
  function QualitiesRun(st: TestState, svc: TestServices, unwritable: set<string>, file: string, prompt: string, qs: seq<Quality>)
    : TestState
    requires HasSuffix(file, ".txt")
    decreases |qs|
  {
    if qs == [] then st
    else AttemptStep(QualitiesRun(st, svc, unwritable, file, prompt, qs[..|qs| - 1]), svc, unwritable, file, prompt, qs[|qs| - 1])
  }

  /** The prompt of a selected file, None when reading it raises. */
  function ReadPrompt(files: map<string, Content>, file: string): Option<string> {
    if file in files && files[file].TextFile? then Some(TestPrompt(files[file].text)) else None
  }

  /** One selected file: skipped when it cannot be read or its prompt is empty. */
  function FileStep(st: TestState, svc: TestServices, unwritable: set<string>, file: string): TestState
    requires HasSuffix(file, ".txt")
  {
    var prompt := ReadPrompt(st.files, file);
    if !Truthy(prompt) then st else QualitiesRun(st, svc, unwritable, file, prompt.value, Qualities)
  }

  function FilesRun(st: TestState, svc: TestServices, unwritable: set<string>, files: seq<string>): TestState
    requires forall i :: 0 <= i < |files| ==> HasSuffix(files[i], ".txt")
    decreases |files|
  {
    if files == [] then st
    else FileStep(FilesRun(st, svc, unwritable, files[..|files| - 1]), svc, unwritable, files[|files| - 1])
  }

  function Initial(files: map<string, Content>): TestState {
    TestState(files, Totals(0, 0, 0), [])
  }

  /** The whole test on `selected`, or None when there is no prompt file at all. */
  function TestRun(files: map<string, Content>, unwritable: set<string>, svc: TestServices, selected: seq<string>)
    : Option<TestState>
    requires forall i :: 0 <= i < |selected| ==> HasSuffix(selected[i], ".txt")
  {
    if PromptFiles(files) == {} then None else Some(FilesRun(Initial(files), svc, unwritable, selected))
  }

  // ------------------------------------------------------------- lemmas

  /** A prompt sidecar's name ends in `.txt`. */
  lemma PromptNameIsTxt(n: string)
    requires HasSuffix(n, "_prompt.txt")
    ensures HasSuffix(n, ".txt")
  {
    SuffixOfSuffix(n, "_prompt.txt", ".txt");
  }

  /** A name ending in `.txt` does not end in `.png`. */
  lemma TxtIsNotPng(n: string)
    requires HasSuffix(n, ".txt")
    ensures !HasSuffix(n, ".png")
  {
    assert n[|n| - 4..][3] == 't';
  }

  /**
   * A file's qualities are tried in the order low, medium, high, each once,
   * and every attempt moves exactly one counter.
   */
  lemma QualitiesInOrder(st: TestState, svc: TestServices, unwritable: set<string>, file: string, prompt: string)
    requires HasSuffix(file, ".txt")
    ensures var r := QualitiesRun(st, svc, unwritable, file, prompt, Qualities);
      && r.attempts == st.attempts + [Attempt(file, Low), Attempt(file, Medium), Attempt(file, High)]
      && Sum(r.totals) == Sum(st.totals) + 3
  {
    assert Qualities[..2][..1] == [Low] && Qualities[..2] == [Low, Medium] && Qualities[..3] == Qualities;
    assert [Low, Medium][..1] == [Low] && [Low][..0] == [];
  }

  /** The test only ever writes `.png` files: the prompt sidecars read later are those that were there. */
  lemma {:induction false} QualitiesRunWritesPng(st: TestState, svc: TestServices, unwritable: set<string>, file: string,
                                                  prompt: string, qs: seq<Quality>)
    requires HasSuffix(file, ".txt")
    ensures var r := QualitiesRun(st, svc, unwritable, file, prompt, qs);
      && (forall n :: n in st.files && !HasSuffix(n, ".png") ==> n in r.files && r.files[n] == st.files[n])
      && (forall n :: n in r.files && n !in st.files ==> HasSuffix(n, ".png"))
    decreases |qs|
  {
    if qs != [] {
      QualitiesRunWritesPng(st, svc, unwritable, file, prompt, qs[..|qs| - 1]);
    }
  }

  lemma {:induction false} FilesRunWritesPng(st: TestState, svc: TestServices, unwritable: set<string>, files: seq<string>)
    requires forall i :: 0 <= i < |files| ==> HasSuffix(files[i], ".txt")
    ensures var r := FilesRun(st, svc, unwritable, files);
      && (forall n :: n in st.files && !HasSuffix(n, ".png") ==> n in r.files && r.files[n] == st.files[n])
      && (forall n :: n in r.files && n !in st.files ==> HasSuffix(n, ".png"))
    decreases |files|
  {
    if files != [] {
      var init := files[..|files| - 1];
      var file := files[|files| - 1];
      FilesRunWritesPng(st, svc, unwritable, init);
      var mid := FilesRun(st, svc, unwritable, init);
      var prompt := ReadPrompt(mid.files, file);
      if Truthy(prompt) {
        QualitiesRunWritesPng(mid, svc, unwritable, file, prompt.value, Qualities);
      }
    }
  }

  /** The number of selected files the test can use: readable, with a non-empty prompt. */
  function Usable(files: map<string, Content>, selected: seq<string>): nat
    decreases |selected|
  {
    if selected == [] then 0
    else Usable(files, selected[..|selected| - 1]) + (if Truthy(ReadPrompt(files, selected[|selected| - 1])) then 1 else 0)
  }

  /**
   * Over the file loop: three attempts per usable file and none for the
   * others, each attempt counted exactly once.
   */
  lemma {:induction false} FilesRunCounts(st: TestState, svc: TestServices, unwritable: set<string>, files: seq<string>)
    requires forall i :: 0 <= i < |files| ==> HasSuffix(files[i], ".txt")
    ensures var r := FilesRun(st, svc, unwritable, files);
      && |r.attempts| == |st.attempts| + 3 * Usable(st.files, files)
      && Sum(r.totals) == Sum(st.totals) + 3 * Usable(st.files, files)
    decreases |files|
  {
    if files != [] {
      var init := files[..|files| - 1];
      var file := files[|files| - 1];
      FilesRunCounts(st, svc, unwritable, init);
      FilesRunWritesPng(st, svc, unwritable, init);
      var mid := FilesRun(st, svc, unwritable, init);
      TxtIsNotPng(file);
      assert ReadPrompt(mid.files, file) == ReadPrompt(st.files, file);
      var prompt := ReadPrompt(mid.files, file);
      if Truthy(prompt) {
        QualitiesInOrder(mid, svc, unwritable, file, prompt.value);
      }
    }
  }

  lemma {:induction false} UsableAtMost(files: map<string, Content>, selected: seq<string>)
    ensures Usable(files, selected) <= |selected|
    decreases |selected|
  {
    if selected != [] {
      UsableAtMost(files, selected[..|selected| - 1]);
    }
  }

  /** A whole test makes at most nine attempts, three per usable sample, and counts each once. */
  lemma AtMostNineAttempts(files: map<string, Content>, unwritable: set<string>, svc: TestServices, selected: seq<string>)
    requires IsSample(selected, PromptFiles(files))
    requires PromptFiles(files) != {}
    ensures forall i :: 0 <= i < |selected| ==> HasSuffix(selected[i], ".txt")
    ensures var r := TestRun(files, unwritable, svc, selected).value;
      && |r.attempts| == Sum(r.totals) == 3 * Usable(files, selected)
      && Sum(r.totals) <= 9
  {
    forall i | 0 <= i < |selected| ensures HasSuffix(selected[i], ".txt") {
      PromptNameIsTxt(selected[i]);
    }
    FilesRunCounts(Initial(files), svc, unwritable, selected);
    UsableAtMost(files, selected);
  }

  // ------------------------------------------------------------- methods

  /** `save_image`: False without data; True only after the decoded image was written. */
  method SaveB64(dir: Directory, decodes: string -> bool, b64: Option<string>, name: string) returns (ok: bool)
    modifies dir
    ensures ok <==> SaveSucceeds(decodes, dir.unwritable, b64, name)
    ensures dir.files == if ok then old(dir.files)[name := ImageFile(b64.value)] else old(dir.files)
  {
    if !Truthy(b64) {
      return false;
    }
    if !decodes(b64.value) {
      return false;
    }
    ok := dir.Write(name, ImageFile(b64.value));
  }

  /** The quality loop of one file, against the directory. */
  method RunQualities(dir: Directory, svc: TestServices, file: string, prompt: string, st0: TestState)
    returns (totals: Totals, attempts: seq<Attempt>)
    requires HasSuffix(file, ".txt") && st0.files == dir.files
    modifies dir
    ensures TestState(dir.files, totals, attempts) == QualitiesRun(st0, svc, dir.unwritable, file, prompt, Qualities)
  {
    totals, attempts := st0.totals, st0.attempts;
    var j := 0;
    while j < |Qualities|
      invariant 0 <= j <= |Qualities|
      invariant TestState(dir.files, totals, attempts) == QualitiesRun(st0, svc, dir.unwritable, file, prompt, Qualities[..j])
    {
      var q := Qualities[j];
      PrefixStep(Qualities, j);
      var name := TestImageName(file, q);
      var b64 := B64Of(svc.images(|attempts|, prompt, q));
      attempts := attempts + [Attempt(file, q)];
      if Truthy(b64) {
        var ok := SaveB64(dir, svc.decodes, b64, name);
        if ok {
          totals := totals.(generated := totals.generated + 1);
        } else {
          totals := totals.(failedSaving := totals.failedSaving + 1);
        }
      } else {
        totals := totals.(failedGeneration := totals.failedGeneration + 1);
      }
      j := j + 1;
    }
    WholePrefix(Qualities);
  }

  /** One selected file: its prompt is read and, when it is not empty, tried at every quality. */
  method TestFile(dir: Directory, svc: TestServices, file: string, sum: Totals, attempts: seq<Attempt>)
    returns (sum': Totals, attempts': seq<Attempt>)
    requires HasSuffix(file, ".txt")
    modifies dir
    ensures TestState(dir.files, sum', attempts')
         == FileStep(TestState(old(dir.files), sum, attempts), svc, dir.unwritable, file)
  {
    sum', attempts' := sum, attempts;
    var prompt := ReadPrompt(dir.files, file);
    if Truthy(prompt) {
      sum', attempts' := RunQualities(dir, svc, file, prompt.value, TestState(dir.files, sum, attempts));
    }
  }

  /**
   * `main_test` on the sample `selected` that `random.sample` drew: None when
   * there is no prompt file, otherwise the three totals and the attempts.
   */
  method MainTest(dir: Directory, svc: TestServices, selected: seq<string>) returns (totals: Option<Totals>, attempts: seq<Attempt>)
    requires IsSample(selected, PromptFiles(dir.files))
    modifies dir
    ensures forall i :: 0 <= i < |selected| ==> HasSuffix(selected[i], ".txt")
    ensures var run := TestRun(old(dir.files), dir.unwritable, svc, selected);
      && (run.None? ==> totals.None? && attempts == [] && dir.files == old(dir.files))
      && (run.Some? ==> totals == Some(run.value.totals) && attempts == run.value.attempts && dir.files == run.value.files)
  {
    forall i | 0 <= i < |selected| ensures HasSuffix(selected[i], ".txt") {
      PromptNameIsTxt(selected[i]);
    }
    attempts := [];
    if PromptFiles(dir.files) == {} {
      return None, [];
    }
    ghost var start := Initial(dir.files);
    var sum := Totals(0, 0, 0);
    var i := 0;
    while i < |selected|
      invariant 0 <= i <= |selected|
      invariant TestState(dir.files, sum, attempts) == FilesRun(start, svc, dir.unwritable, selected[..i])
    {
      PrefixStep(selected, i);
      sum, attempts := TestFile(dir, svc, selected[i], sum, attempts);
      i := i + 1;
    }
    WholePrefix(selected);
    totals := Some(sum);
  }
}
