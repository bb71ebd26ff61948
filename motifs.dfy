/**
 * From chapter text to image prompts: the analysis reply is cut down to the
 * three most significant motifs, and each motif becomes a pair of prompts,
 * either the interpretations the chat model returned with a fixed style
 * suffix, or a fallback template around the motif's image. The chat model is
 * an oracle whose replies are already parsed JSON.
 */
module Motifs {
  import opened Wrappers
  import opened Text
  import opened Sorting
  import opened Assets

  /** One element of the reply's `images` array; a key the element lacks is None (a JSON null is not told apart from a missing key). */
  datatype Motif = Motif(rank: Option<int>, image: Option<string>, significance: Option<string>, location: Option<real>)

  /**
   * The analysis call: it raised or its content did not parse as a JSON
   * object, or it parsed and `images` is present (Some) or absent (None).
   */
  datatype AnalysisReply = AnalysisFailed | AnalysisJson(images: Option<seq<Motif>>)

  /** Characters of chapter text sent to the model. */
  const ExcerptLimit := 10000

  /** `chapter_text[:10000]`. */
  function Excerpt(text: string): (e: string)
    ensures HasPrefix(text, e)
    ensures |e| == Min(|text|, ExcerptLimit)
  {
    if |text| <= ExcerptLimit then text else text[..ExcerptLimit]
  }

  /** The user message carrying the chapter text. */
  function AnalysisRequest(text: string): string {
    "Chapter Text to analyze: " + Excerpt(text)
  }

  /** `x.get('rank', 99)`. */
  function RankKey(m: Motif): int {
    m.rank.GetOr(99)
  }

  const MaxMotifs := 3

  /** `sorted(images, key=rank-or-99)[:3]`. */
  function TopMotifs(images: seq<Motif>): (top: seq<Motif>)
    ensures |top| == Min(MaxMotifs, |images|)
    ensures SortedBy(top, RankKey)
    ensures multiset(top) <= multiset(images)
  {
    var sorted := SortBy(images, RankKey);
    var top := sorted[..Min(MaxMotifs, |sorted|)];
    assert sorted == top + sorted[|top|..];
    assert multiset(sorted) == multiset(top) + multiset(sorted[|top|..]);
    top
  }

  /**
   * `analyze_chapter_imagery`: a failed call gives no motifs, a reply
   * without `images` is an empty list.
   */
  function AnalyzeChapterImagery(reply: AnalysisReply): (ms: seq<Motif>)
    ensures |ms| <= MaxMotifs
    ensures reply.AnalysisFailed? || reply.images.None? ==> ms == []
    ensures reply.AnalysisJson? && reply.images.Some? ==> |ms| == Min(MaxMotifs, |reply.images.value|)
  {
    match reply
    case AnalysisFailed => []
    case AnalysisJson(images) => TopMotifs(images.GetOr([]))
  }

  /** The motifs left out rank no better than any motif kept. */
  lemma TopMotifsAreTop(images: seq<Motif>, x: Motif, i: int)
    requires x in multiset(images) - multiset(TopMotifs(images))
    requires 0 <= i < |TopMotifs(images)|
    ensures RankKey(TopMotifs(images)[i]) <= RankKey(x)
  {
    var sorted := SortBy(images, RankKey);
    var top := TopMotifs(images);
    var rest := sorted[|top|..];
    assert sorted == top + rest;
    assert multiset(sorted) == multiset(top) + multiset(rest);
    assert x in multiset(rest);
    var j :| 0 <= j < |rest| && rest[j] == x;
    assert sorted[i] == top[i] && sorted[|top| + j] == x;
  }

  /** Prefixes keep each key's elements as a prefix of that key's elements. */
  lemma {:induction false} WithKeyOfPrefix<T>(s: seq<T>, key: T -> int, k: int, n: nat)
    requires n <= |s|
    ensures HasSeqPrefix(WithKey(s, key, k), WithKey(s[..n], key, k))
  {
    if n > 0 {
      assert s[..n][0] == s[0] && s[..n][1..] == s[1..][..n - 1];
      WithKeyOfPrefix(s[1..], key, k, n - 1);
    }
  }

  ghost predicate HasSeqPrefix<T>(s: seq<T>, p: seq<T>) {
    |p| <= |s| && s[..|p|] == p
  }

  /** Motifs of equal rank are kept in the order the reply listed them. */
  lemma TopMotifsStable(images: seq<Motif>, k: int)
    ensures HasSeqPrefix(WithKey(images, RankKey, k), WithKey(TopMotifs(images), RankKey, k))
  {
    var sorted := SortBy(images, RankKey);
    SortByStable(images, RankKey, k);
    WithKeyOfPrefix(sorted, RankKey, k, Min(MaxMotifs, |sorted|));
  }

  // -------------------------------------------------------------- prompts

  /** A value in the prompt reply: missing key, a string, or some other JSON value. */
  datatype JsonField = Missing | Str(value: string) | NotStr

  /** The prompt call: it raised or did not parse as an object, or it parsed. */
  datatype PromptReply = PromptsFailed | PromptsJson(naturalisticField: JsonField, abstractField: JsonField)

  datatype PromptPair = PromptPair(naturalistic: string, abstractPrompt: string)

  function PromptFor(pp: PromptPair, s: Style): string {
    match s
    case Naturalistic => pp.naturalistic
    case Abstract => pp.abstractPrompt
  }

  /** The sentence every prompt ends with. */
  const ClosingRule := "No text or human figures."

  function StyleSuffix(s: Style): (suffix: string)
    ensures HasSuffix(suffix, ClosingRule)
  {
    match s
    case Naturalistic => ". Style: Render in warm sepia tones with misty, dreamlike atmosphere. " + ClosingRule
    case Abstract => ". Style: Render in amber and brown tones with flowing, ethereal qualities. " + ClosingRule
  }

  function FallbackPrompt(s: Style, image: string): (p: string)
    ensures HasSuffix(p, ClosingRule)
    ensures Contains(p, image)
  {
    var tail := match s
      case Naturalistic => " in warm sepia tones, with soft edges and ethereal atmosphere. " + ClosingRule
      case Abstract => " in amber tones, inspired by Chinese calligraphy. " + ClosingRule;
    var head := match s
      case Naturalistic => "A misty landscape featuring "
      case Abstract => "An abstract, flowing interpretation of ";
    SuffixOfConcat(head + image, tail, ClosingRule);
    ContainsMiddle(head, image, tail);
    head + image + tail
  }

  /** The user message asking for the two interpretations of a scene. */
  function PromptRequest(image: string, significance: string): string {
    "Scene to interpret: " + image + "\nPhilosophical significance: " + significance
      + "\n\nPlease provide the two interpretations in the specified JSON format."
  }

  function Fallback(image: string): (pp: PromptPair)
    ensures HasSuffix(pp.naturalistic, ClosingRule) && HasSuffix(pp.abstractPrompt, ClosingRule)
  {
    PromptPair(FallbackPrompt(Naturalistic, image), FallbackPrompt(Abstract, image))
  }

  /** The text a field contributes: its string, or "" for a missing key. */
  function FieldText(f: JsonField): string {
    if f.Str? then f.value else ""
  }

  /**
   * `result.get(key, "") + suffix` for both styles; None when one of the values
   * is not a string, as the concatenation then raises.
   */
  function StyledPair(reply: PromptReply): (r: Option<PromptPair>)
    ensures r.Some? <==> reply.PromptsJson? && !reply.naturalisticField.NotStr? && !reply.abstractField.NotStr?
    ensures r.Some? ==> HasSuffix(r.value.naturalistic, ClosingRule) && HasSuffix(r.value.abstractPrompt, ClosingRule)
  {
    if reply.PromptsJson? && !reply.naturalisticField.NotStr? && !reply.abstractField.NotStr? then
      var n, a := FieldText(reply.naturalisticField), FieldText(reply.abstractField);
      SuffixOfConcat(n, StyleSuffix(Naturalistic), ClosingRule);
      SuffixOfConcat(a, StyleSuffix(Abstract), ClosingRule);
      Some(PromptPair(n + StyleSuffix(Naturalistic), a + StyleSuffix(Abstract)))
    else None
  }

  /**
   * `generate_image_prompts`. Building the request reads the scene's image and
   * significance; a missing one raises before the call and the handler answers
   * with the fallback, whose own template reads the image again: with no image
   * the function raises (None).
   */
  function GenerateImagePrompts(m: Motif, interpret: string -> PromptReply): (r: Option<PromptPair>)
    ensures r.None? <==> m.image.None?
    ensures r.Some? ==> HasSuffix(r.value.naturalistic, ClosingRule) && HasSuffix(r.value.abstractPrompt, ClosingRule)
  {
    if m.image.None? then None
    else if m.significance.None? then Some(Fallback(m.image.value))
    else
      match StyledPair(interpret(PromptRequest(m.image.value, m.significance.value)))
      case Some(pp) => Some(pp)
      case None => Some(Fallback(m.image.value))
  }

  /** `t` occurs in `s`. */
  predicate Contains(s: string, t: string) {
    exists i :: 0 <= i <= |s| && HasPrefix(s[i..], t)
  }

  lemma ContainsMiddle(a: string, b: string, c: string)
    ensures Contains(a + b + c, b)
  {
    assert HasPrefix((a + b + c)[|a|..], b);
  }

  /** When the model's interpretations are not used, both prompts describe the scene's image. */
  lemma FallbackNamesImage(m: Motif, interpret: string -> PromptReply, s: Style)
    requires m.image.Some?
    requires m.significance.None? || interpret(PromptRequest(m.image.value, m.significance.value)).PromptsFailed?
    ensures Contains(PromptFor(GenerateImagePrompts(m, interpret).value, s), m.image.value)
  {
    assert GenerateImagePrompts(m, interpret) == Some(Fallback(m.image.value));
  }

  /** A usable reply is kept word for word in front of each style's suffix. */
  lemma ReplyKept(m: Motif, interpret: string -> PromptReply)
    requires m.image.Some? && m.significance.Some?
    requires var reply := interpret(PromptRequest(m.image.value, m.significance.value));
      reply.PromptsJson? && !reply.naturalisticField.NotStr? && !reply.abstractField.NotStr?
    ensures var reply := interpret(PromptRequest(m.image.value, m.significance.value));
      GenerateImagePrompts(m, interpret)
        == Some(PromptPair(FieldText(reply.naturalisticField) + StyleSuffix(Naturalistic),
                           FieldText(reply.abstractField) + StyleSuffix(Abstract)))
  {
  }

  /** One field that is not a string spoils both interpretations: the fallback pair is used. */
  lemma BadFieldFallsBack(m: Motif, interpret: string -> PromptReply)
    requires m.image.Some? && m.significance.Some?
    requires var reply := interpret(PromptRequest(m.image.value, m.significance.value));
      reply.PromptsJson? && (reply.naturalisticField.NotStr? || reply.abstractField.NotStr?)
    ensures GenerateImagePrompts(m, interpret) == Some(Fallback(m.image.value))
  {
  }
}
