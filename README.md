# Zhuangzi illustration pipeline, modelled in Dafny

This project models the deterministic core of four scripts.

- **Generator** (`generate_zhuangzi_art.py`). For each of the seven Inner Chapters of the Zhuangzi, it takes the chapter's pages out of a PDF. It asks a chat model for the chapter's three most significant visual motifs. For each motif it asks for two prompts, a naturalistic one and an abstract one. It writes each prompt to a sidecar text file, requests an image for each prompt, downloads and saves the images that came back, and appends one metadata record. At the end it writes all records into `chapter_images_metadata.json`.
- **Repair pass** (`regenerate_missing_images.py`). For every record and each style, an image missing from the artwork directory is requested again. The prompt comes from the style's sidecar. Each outcome is counted as regenerated, failed generation or missing prompt.
- **Website** (`create_website.py`). The records are grouped by chapter and sorted by rank within each group. Chapters 1 to 7 are rendered as pairs of panels. A panel shows an image when its file exists and a placeholder otherwise. Beside the chapters sits a viewer for the PDF.
- **Quality test** (`test_single_image.py`). Up to three prompt sidecars are sampled. Each prompt is tried at the qualities low, medium and high. Each result is saved as `test_<stem>_<quality>.png`, and the totals are counted.

Modules, one per concern:

| module | file | contents |
|---|---|---|
| `Wrappers` | `wrappers.dfy` | option type, Python truthiness of optional strings, small sequence lemmas |
| `Text` | `text.dfy` | `str(int)`, `readlines`, `"".join`, `str.isspace` and `strip`, separator lemmas |
| `Sorting` | `sorting.dfy` | Python's stable `sorted(key=...)` as insertion sort, with order, permutation and stability |
| `Storage` | `storage.dfy` | the artwork directory as a `Directory` class (`files: map<string, Content>`), metadata records, guarded writes and image saves |
| `Assets` | `assets.dfy` | the deterministic file names and the sidecar format shared by all four scripts |
| `Extraction` | `extraction.dfy` | the chapter-to-page table and the page-reading loop |
| `Motifs` | `motifs.dfy` | top-three motif selection and prompt synthesis with its fallback |
| `Generator` | `generator.dfy` | `process_chapters`, as folds over a run state and as methods proved to follow them |
| `Repair` | `regenerate.dfy` | `regenerate`, likewise |
| `QualityTest` | `quality_test.dfy` | `main_test`, likewise |
| `Website` | `website.dfy` | `create_website`: grouping, sorting and the page structure |

Outside services are parameters, given as total function values:

- the PDF, as a list of page texts, where a page that raises is `None`;
- the analysis and interpretation replies, already parsed from JSON;
- the k-th image request's URL or base64 payload;
- whether downloading or decoding an image succeeds;
- the set of names whose writes raise.

Each script's state-changing loop is a `method` over a `Directory`. Its `ensures` ties the new directory and its outputs to a specification function. That function is a fold over the prefixes of the loop's input. The properties the scripts promise are proved as lemmas about those folds.

Four behaviours of the code are worth stating plainly, because a reader might expect otherwise:

- **Image paths.** A record's image path is set whenever the image request returned a URL, even when the download or save then fails. So a non-null path need not name an existing file. See `Generator.PathWithoutImage`.
- **Page errors.** Reading a chapter stops at the first page whose loading or text extraction raises. The chapter keeps the text read before that page, and later pages of the span are not read. See `Extraction.ReadPagesStopsAtFailure`.
- **Fallback prompts.** When the interpretation reply is unusable, both fallback prompts are built from the motif's image description alone. A motif without an image makes prompt synthesis raise, and the motif is skipped. See `Motifs.FallbackNamesImage`.
- **Repair count.** The repair pass counts a URL as regenerated even when the download or save then fails. See `Repair.RegeneratedWithoutImage`.

## Model

| member | source | states |
|---|---|---|
| Text.IntToString | generate_zhuangzi_art.py:258-259 | an int prints as at least one character, only digits and a leading minus exactly for negatives |
| Text.IntToStringInjective | generate_zhuangzi_art.py:258-258 | distinct chapter or rank numbers print differently |
| Text.Lines | regenerate_missing_images.py:120-120 | `readlines` yields no line exactly for the empty text |
| Text.JoinLines | regenerate_missing_images.py:120-121 | joining the lines of a text gives the text back |
| Text.LinesAfterLabel | regenerate_missing_images.py:119-121 | a text that starts with a newline-free label line splits into that line and the lines of the rest |
| Text.Strip | regenerate_missing_images.py:121-121 | the result is a slice `s[i..j]` of the input whose dropped prefix and suffix are all whitespace; it neither starts nor ends with whitespace, and it is empty exactly when the input is all whitespace |
| Text.StripIdempotent | regenerate_missing_images.py:121-121 | stripping twice is stripping once |
| Text.TrimBoth | regenerate_missing_images.py:121-121 | for any character class: the result is a slice `s[i..j]` of the input whose dropped prefix and suffix are all in the class, with no class character at either end, and empty exactly when every character is in the class |
| Text.TrimStart | regenerate_missing_images.py:121-121 | the result is a suffix of the input, everything dropped is in the class, and the result does not start with a class character |
| Text.TrimEnd | regenerate_missing_images.py:121-121 | the result is a prefix of the input, everything dropped is in the class, and the result does not end with a class character |
| Sorting.Insert | create_website.py:37-37 | inserting adds exactly one element: the length grows by one and the multiset gains `x` |
| Sorting.SortBy | generate_zhuangzi_art.py:125-125 | the result is a permutation of the input, ordered by key |
| Sorting.InsertKeepsOrder | create_website.py:37-37 | inserting into a key-ordered list keeps it ordered |
| Sorting.SortByStable | create_website.py:37-37 | for every key, the elements with that key keep their input order (Python's sort is stable) |
| Sorting.SortByConstantKey | create_website.py:37-37 | a list whose keys are all equal is returned unchanged |
| Storage.ReadText | regenerate_missing_images.py:118-121 | reading as text succeeds exactly for a text file, and then returns that file's text |
| Storage.LoadMetadata | regenerate_missing_images.py:76-90 | loading succeeds exactly when the metadata file exists and decodes, and then returns the stored records |
| Storage.SavedImage | generate_zhuangzi_art.py:208-222 | only the target name can change; it is written exactly when the URL is truthy, the download succeeds, the name is writable and the content differs; what is written is that URL's image |
| Storage.Directory.Write | generate_zhuangzi_art.py:257-268 | a write succeeds exactly when the name is writable; a failed write changes nothing |
| Storage.Directory.SaveImage | generate_zhuangzi_art.py:208-222 | the directory afterwards is `SavedImage` of the directory before |
| Assets.RankText | generate_zhuangzi_art.py:248-259 | a rank prints without `_` or newline, and starts with `u` exactly for 'unknown' |
| Assets.AssetName | generate_zhuangzi_art.py:258-283 | every asset name ends in its tail |
| Assets.ImageFileName | generate_zhuangzi_art.py:276-283 | image names end in `.png` |
| Assets.PromptFileName | generate_zhuangzi_art.py:258-265 | sidecar names end in `_prompt.txt` |
| Assets.SidecarLabel | generate_zhuangzi_art.py:259-266 | the sidecar's first line contains no newline |
| Assets.RecoverPrompt | regenerate_missing_images.py:119-121 | the recovered prompt neither starts nor ends with whitespace |
| Assets.SidecarRoundTrip | regenerate_missing_images.py:117-121 | reading back a sidecar the generator wrote gives the stripped prompt it was written with |
| Assets.RankTextInjective | generate_zhuangzi_art.py:258-258 | distinct ranks print differently |
| Assets.AssetFieldsInjective | generate_zhuangzi_art.py:258-258 | the chapter, rank and tail fields can be read back from an asset name when they contain no `_` |
| Assets.AssetNameInjective | generate_zhuangzi_art.py:258-283 | the chapter, rank and tail can be read back from an asset name |
| Assets.StyleTailInjective | generate_zhuangzi_art.py:276-283 | a style's tail determines the style |
| Assets.ImageFileNameInjective | generate_zhuangzi_art.py:276-283 | distinct (chapter, rank, style) triples never share an image file |
| Assets.PromptFileNameInjective | generate_zhuangzi_art.py:258-265 | distinct (chapter, rank, style) triples never share a sidecar |
| Assets.StylesHaveDistinctNames | generate_zhuangzi_art.py:258-283 | the two styles of a motif never share a sidecar or an image name |
| Assets.NamesAreDistinct | generate_zhuangzi_art.py:258-309 | images, sidecars and the metadata file never share a name |
| Extraction.ChapterStart | generate_zhuangzi_art.py:38-52 | a start page exists exactly for chapters 1..7, and it lies after the 37 pages of front matter |
| Extraction.PageRange | generate_zhuangzi_art.py:52-66 | a page span exists exactly for chapters 1..7, and it never runs past the document's end |
| Extraction.SpansAdjacent | generate_zhuangzi_art.py:41-66 | a chapter's span ends where the next chapter's begins, or at the document's end if that comes first |
| Extraction.SpansDisjoint | generate_zhuangzi_art.py:41-66 | no page is read for two different chapters |
| Extraction.ChapterOfPage | generate_zhuangzi_art.py:41-66 | every content page of the document lies in some chapter's span |
| Extraction.FrontMatterUnread | generate_zhuangzi_art.py:38-66 | front-matter pages are read for no chapter |
| Extraction.PageTexts | generate_zhuangzi_art.py:66-69 | one text per page of the span, in page order |
| Extraction.ReadPagesConcatenates | generate_zhuangzi_art.py:64-69 | with no failing page, a chapter's text is its pages' texts concatenated in page order |
| Extraction.ReadPagesStopsAtFailure | generate_zhuangzi_art.py:64-72 | the first failing page ends the chapter; the text read before it is the result |
| Extraction.ReadSpan | generate_zhuangzi_art.py:60-76 | the loop's text is the specified concatenation; the document is opened first and closed last, and between them exactly `PagesLoaded` pages are loaded, in ascending order from the span's start |
| Extraction.ExtractText | generate_zhuangzi_art.py:35-76 | a chapter outside the table yields "" without opening the document; otherwise as `ReadSpan` over the chapter's span |
| Extraction.PagesLoaded | generate_zhuangzi_art.py:64-72 | the pages loaded are every page of the span up to and including the first one that raises, or the whole span when none raises |
| Motifs.Excerpt | generate_zhuangzi_art.py:118-118 | the analysis sees a prefix of the chapter text, of length min(length, 10000) |
| Motifs.TopMotifs | generate_zhuangzi_art.py:125-126 | at most three motifs, ordered by rank (missing rank counts as 99), and a sub-multiset of the reply's motifs |
| Motifs.AnalyzeChapterImagery | generate_zhuangzi_art.py:110-129 | a failed call or a reply without `images` gives no motifs; otherwise min(3, reply length) motifs |
| Motifs.TopMotifsAreTop | generate_zhuangzi_art.py:125-126 | every motif left out ranks no better than every motif kept |
| Motifs.TopMotifsStable | generate_zhuangzi_art.py:125-126 | motifs of equal rank are kept in the reply's order |
| Motifs.StyleSuffix | generate_zhuangzi_art.py:178-179 | both style clauses end with "No text or human figures." |
| Motifs.FallbackPrompt | generate_zhuangzi_art.py:186-189 | a fallback prompt ends with the closing rule and contains the motif's image |
| Motifs.Fallback | generate_zhuangzi_art.py:186-189 | both fallback prompts end with the closing rule |
| Motifs.StyledPair | generate_zhuangzi_art.py:175-181 | a reply yields prompts exactly when it parsed and neither field is a non-string; these prompts end with the closing rule |
| Motifs.GenerateImagePrompts | generate_zhuangzi_art.py:163-189 | prompts exist exactly when the motif has an image; every prompt ends with the closing rule |
| Motifs.FallbackNamesImage | generate_zhuangzi_art.py:183-189 | when the reply is not used, both prompts name the motif's image |
| Motifs.ReplyKept | generate_zhuangzi_art.py:175-181 | a usable reply's fields are kept word for word before each style's suffix |
| Motifs.BadFieldFallsBack | generate_zhuangzi_art.py:178-189 | one non-string field makes synthesis use the fallback pair |
| Generator.MotifRecord | generate_zhuangzi_art.py:287-296 | the record carries the chapter and rank; a style's path is set exactly when its URL is truthy, and it then names the style's image file |
| Generator.SidecarsWritten | generate_zhuangzi_art.py:255-269 | only the two sidecar names change; each writable sidecar holds its style's label line and prompt, and an unwritable sidecar is left as it was, present or absent |
| Generator.ImagesSaved | generate_zhuangzi_art.py:273-285 | only the motif's two image names can change; each one holds its URL's image when the URL is truthy, the download succeeds and the name is writable, and is unchanged otherwise |
| Generator.MotifStepFrame | generate_zhuangzi_art.py:246-300 | a motif leaves every file other than its four names as it was |
| Generator.SidecarsBeforeRequests | generate_zhuangzi_art.py:255-285 | both sidecars are written, naturalistic first, before the two image requests, naturalistic first |
| Generator.SidecarRecoversPrompt | generate_zhuangzi_art.py:257-266 | a written sidecar reads back, as the repair pass reads it, as the stripped prompt that the image request used |
| Generator.PathIffUrl | generate_zhuangzi_art.py:273-296 | one record is appended; its path for a style is set exactly when that style's request returned a URL |
| Generator.PathWithoutImage | generate_zhuangzi_art.py:274-278 | when the download fails, the record still names an image file that does not exist |
| Generator.PromptedStepAppends | generate_zhuangzi_art.py:246-296 | a motif appends exactly one record, for its chapter, and logs no metadata write |
| Generator.MotifStepAppends | generate_zhuangzi_art.py:246-300 | a motif appends at most one record (none when synthesis raises), for its chapter |
| Generator.MotifsRunRecords | generate_zhuangzi_art.py:246-300 | the motif loop appends at most one record per motif, all for its chapter, and logs no metadata write |
| Generator.AppendChapterOrdered | generate_zhuangzi_art.py:232-246 | appending at most three records of the next chapter keeps the records in chapter order |
| Generator.ChapterStepAppends | generate_zhuangzi_art.py:235-300 | a chapter appends at most three records, all for that chapter |
| Generator.ChaptersRunOrdered | generate_zhuangzi_art.py:232-304 | after the chapter loop, records are for chapters 1..7, in non-decreasing chapter order, at most three per chapter, and the metadata file was never written |
| Generator.MetadataNotMotifName | generate_zhuangzi_art.py:258-309 | the metadata file's name is none of a motif's four names |
| Generator.ChapterStepKeepsMetadata | generate_zhuangzi_art.py:235-304 | a chapter leaves the metadata file, present or absent, as it was |
| Generator.MotifsRunKeepsMetadata | generate_zhuangzi_art.py:246-300 | the motif loop leaves the metadata file as it was |
| Generator.ChaptersRunKeepsMetadata | generate_zhuangzi_art.py:232-304 | the chapter loop leaves the metadata file, present or absent, as it was |
| Generator.MetadataWrittenOnceAtEnd | generate_zhuangzi_art.py:306-318 | the metadata file is written once, as the last event, with every record in chapter order; when that write fails, the old file survives unchanged |
| Generator.ProcessPrompted | generate_zhuangzi_art.py:253-296 | the body of the motif loop, once the prompts are known, follows `PromptedStep` |
| Generator.ProcessMotif | generate_zhuangzi_art.py:246-300 | one pass of the motif loop follows `MotifStep` |
| Generator.ProcessChapter | generate_zhuangzi_art.py:234-300 | one pass of the chapter loop, the text extraction and the motif loop, follows `ChapterStep` |
| Generator.ProcessChapters | generate_zhuangzi_art.py:224-312 | the directory, the records and the event log after the run are those of `PipelineRun` |
| Generator.WriteSidecars | generate_zhuangzi_art.py:255-269 | the directory afterwards is `SidecarsWritten` of the directory before |
| Generator.SaveImages | generate_zhuangzi_art.py:273-285 | the directory afterwards is `ImagesSaved` of the directory before |
| Repair.SidecarPrompt | regenerate_missing_images.py:114-139 | a prompt is recovered exactly when the sidecar exists and reads as text |
| Repair.RepairStyle | regenerate_missing_images.py:108-141 | a present image changes nothing; otherwise exactly one counter moves; the missing-prompt counter moves exactly when the image is missing and the prompt missing or empty; each request is one regenerated image or one failed generation; existing files are kept, and only the style's image can be added |
| Repair.RepairItem | regenerate_missing_images.py:96-181 | a record without a chapter or rank is skipped; no counter goes down; existing files are kept |
| Repair.RepairItemsCounts | regenerate_missing_images.py:92-181 | no counter goes down, at most two outcomes per record, requests only appended, one request per regenerated image or failed generation |
| Repair.RepairItemsGrow | regenerate_missing_images.py:92-181 | no counter goes down over the loop |
| Repair.RepairItemsWrites | regenerate_missing_images.py:96-177 | no existing file changes, and every added file is an image some record expects |
| Repair.RepairItemsNoop | regenerate_missing_images.py:108-141 | when every expected image is present, the pass changes nothing and makes no request |
| Repair.RepairStyleSaves | regenerate_missing_images.py:123-127 | when downloads succeed and the image is writable, the image is present afterwards unless a failure or missing prompt was counted |
| Repair.RepairItemSaves | regenerate_missing_images.py:108-177 | the same, for both styles of a record |
| Repair.RepairItemsComplete | regenerate_missing_images.py:96-177 | a pass that counted no failure or missing prompt, with working downloads and writable images, leaves every expected image present |
| Repair.RegenerateKeepsMetadata | regenerate_missing_images.py:73-181 | the pass never touches the metadata file |
| Repair.SecondRunIsNoop | regenerate_missing_images.py:73-181 | after such a pass, a second pass makes no request and counts nothing |
| Repair.SidecarPromptOfSidecar | regenerate_missing_images.py:117-121 | a sidecar in the generator's format yields the stripped prompt it was written with |
| Repair.RequestUsesSidecar | regenerate_missing_images.py:117-127 | the image is requested again with exactly that prompt |
| Repair.RegeneratedWithoutImage | regenerate_missing_images.py:124-127 | a URL counts as regenerated even when the download fails and no image is saved |
| Repair.RequestImage | regenerate_missing_images.py:124-129 | one request with the prompt; a URL is downloaded and counted as regenerated, no URL as a failed generation with the directory unchanged |
| Repair.RepairStyleIn | regenerate_missing_images.py:108-141 | the check of one style follows `RepairStyle` |
| Repair.RepairItemIn | regenerate_missing_images.py:96-181 | one record follows `RepairItem` |
| Repair.Regenerate | regenerate_missing_images.py:73-181 | nothing happens when the metadata file is missing or does not decode; otherwise the counters, requests and directory are those of the fold over the records |
| QualityTest.B64Of | test_single_image.py:28-35 | a payload exists exactly when the response has a first element with a non-empty `b64_json`, and it is that value |
| QualityTest.PromptFiles | test_single_image.py:108-108 | exactly the directory's names ending in `_prompt.txt` |
| QualityTest.TestImageName | test_single_image.py:151-151 | test images start with `test_` and end in `.png` |
| QualityTest.TestImageNamesDistinct | test_single_image.py:147-151 | the three qualities of a file write three different files |
| QualityTest.TestPromptIsRecoverPrompt | test_single_image.py:135-137 | the test reads a sidecar's prompt exactly as the repair pass does |
| QualityTest.AttemptStep | test_single_image.py:147-167 | one attempt moves exactly one counter: generated exactly when the save succeeds, failed generation exactly when there is no data; the attempt is logged; only the test image can change |
| QualityTest.PromptNameIsTxt | test_single_image.py:108-108 | every sampled sidecar's name ends in `.txt`, so it has a stem |
| QualityTest.QualitiesInOrder | test_single_image.py:147-167 | a file is tried at low, medium, high, in that order, each once, and three counters move |
| QualityTest.QualitiesRunWritesPng | test_single_image.py:147-167 | the quality loop writes only `.png` files and keeps every other file |
| QualityTest.FilesRunWritesPng | test_single_image.py:129-167 | so does the file loop, so later sidecars are read as they were |
| QualityTest.FilesRunCounts | test_single_image.py:129-167 | three attempts per usable file and none for the others, each counted once |
| QualityTest.AtMostNineAttempts | test_single_image.py:116-167 | a whole test makes three attempts per usable sampled file, at most nine |
| QualityTest.SaveB64 | test_single_image.py:51-78 | returns True exactly when there is data, it decodes and the name is writable; only then is the image written |
| QualityTest.RunQualities | test_single_image.py:147-169 | the quality loop follows `QualitiesRun` |
| QualityTest.TestFile | test_single_image.py:133-167 | one selected file follows `FileStep` |
| QualityTest.MainTest | test_single_image.py:82-175 | None when there is no prompt file; otherwise the totals, attempts and directory are those of the fold over the sample |
| Website.ChapterGroup | create_website.py:27-33 | a falsy chapter has no group; a group is no longer than the records |
| Website.ChapterGroupMembers | create_website.py:27-33 | a record is in chapter c's group exactly when its chapter is c and c is truthy |
| Website.PanelFor | create_website.py:55-73 | an image is shown exactly when the path is truthy and names an existing file |
| Website.PairsOf | create_website.py:50-92 | one pair per record, in group order, built from that record |
| Website.ChapterSection | create_website.py:41-98 | a chapter's block carries its chapter number |
| Website.ChapterSections | create_website.py:41-98 | one block per chapter |
| Website.ChapterSectionAt | create_website.py:41-98 | block k is rendered from chapter k's sorted group |
| Website.ViewerFor | create_website.py:117-160 | the PDF frame is shown exactly when the PDF exists and has a name, with that name |
| Website.SevenChaptersInOrder | create_website.py:41-43 | exactly chapters 1..7 are rendered, once each and in order |
| Website.MissingMetadataRendersEmpty | create_website.py:14-47 | with no usable metadata file the page still renders, every chapter with the "no images" paragraph |
| Website.SectionContents | create_website.py:45-95 | a chapter with records shows exactly the pairs of its sorted group, which is a permutation of the chapter's records: every pair comes from a record of that chapter, every record of the chapter has its pair, pairs are in rank order, and the "files not found" note never appears |
| Website.EmptyChapterIffNoRecords | create_website.py:45-47 | the "no images" paragraph appears exactly for chapters without records |
| Website.SortedGroupStable | create_website.py:36-37 | records of equal rank appear in their metadata order |
| Website.UnknownGroupKeepsOrder | create_website.py:36-37 | a group whose ranks are all 'unknown' is shown in input order |
| Website.OtherChaptersIgnored | create_website.py:27-45 | a record whose chapter is not one of 1..7 changes no rendered chapter |
| Website.GroupByChapter | create_website.py:27-33 | the map holds exactly the chapters with records, each with its records in input order, and its keys are listed |
| Website.SortGroups | create_website.py:36-37 | the sort fails exactly when some group mixes 'unknown' with numeric or missing ranks; otherwise every group is sorted by rank and no key changes |
| Website.RenderPairs | create_website.py:49-92 | the inner loop renders `PairsOf` the group and counts one pair per record |
| Website.RenderChapter | create_website.py:45-98 | one chapter's block follows `SectionFor` |
| Website.MapSectionsAreChapterSections | create_website.py:41-98 | rendering from the sorted map is rendering from the records |
| Website.RenderChapters | create_website.py:40-98 | the chapter loop renders chapters 1..7 from the sorted map |
| Website.CreateWebsite | create_website.py:6-169 | the page is `SiteOf` the directory: None when a group's sort raises |

## Left out

- PyMuPDF, the OpenAI client, `requests`, PIL and `base64` are oracles. The model knows only the page texts, the parsed replies, the URL or payload of the k-th request, and whether a download or decode succeeds.
- `json.loads` of the chat replies: the model receives the parsed result. A reply that is not a JSON object is a failed call. A JSON value of another shape (for example an `images` that is not a list) is not modelled.
- A metadata value of JSON `null` is treated like a missing key. The difference shows only in the website's sort, where a null rank would also raise.
- A JSON `null` in the analysis reply is treated like a missing key. In the script, a null `rank` reaches `sorted` (generate_zhuangzi_art.py:125). With two or more motifs the comparison raises, and the chapter gets no motifs. A null `image` or `significance` is formatted as "None" into the interpretation request (generate_zhuangzi_art.py:170). The model instead sorts a motif with a null rank by the default 99, skips a motif with a null image, and gives a motif with a null significance the fallback prompts.
- Ranks are modelled as integers or 'unknown'. A rank that is a JSON float or string is not modelled.
- `print` logging, the error hints of the quality test, and `time.sleep` are not modelled: they do not change any file or counter.
- `load_dotenv`, the API-key checks and the repair script's list-models test call are not modelled. They happen before the core runs.
- `random.sample` is a parameter, constrained by `QualityTest.IsSample`: `min(3, n)` distinct prompt files.
- `glob`'s handling of hidden files and directories is not modelled.
- Storage.ReadText: a file whose name ends in `_prompt.txt` but holds metadata or an image is treated as unreadable. In Python, `readlines` would return its bytes as text.
- `fitz.open` failing, and exceptions not caught by the scripts (they end the script), are not modelled.
- Storage.SavedImage: the generator's `save_image` catches only `RequestException` and `IOError` (generate_zhuangzi_art.py:219-222). Any other error from decoding or saving an image goes up to the motif's `except Exception` (generate_zhuangzi_art.py:298), and that motif's record is dropped. The model treats every failed download or decode as caught inside `save_image`, so the record is still appended.
- The HTML and CSS text of the page, `shutil.copytree` and `shutil.copy` are not modelled. The model keeps the page's structure: chapters, pairs, panels, notes and viewer.
- The `Story` dataclass and `story_markers` are not modelled: nothing in the scripts uses them.
- A partial write (a file left half-written by a failing `write`) is not modelled: a write either happens or changes nothing.
- Python's text-mode newline translation when sidecars are written and read back is not modelled. Sidecars contain `\n` only.
- The chat oracles are functions of the request text. Two identical requests are assumed to get the same reply.
- Dict iteration order in the website's sorting loop is not modelled. Only whether some group's sort raises matters, and the model captures that.
- The in-place `list.sort()` of each chapter's group is modelled as replacing the group by its sorted copy. The lists are not shared, so no aliasing arises.
