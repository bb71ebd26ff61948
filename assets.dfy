/**
 * Deterministic names in the artwork directory and the format of the prompt
 * sidecar files: the contract between the generator, the repair pass, the
 * quality test and the website.
 */
module Assets {
  import opened Text
  import opened Storage

  datatype Style = Naturalistic | Abstract

  const Styles: seq<Style> := [Naturalistic, Abstract]

  function StyleName(s: Style): string {
    match s
    case Naturalistic => "naturalistic"
    case Abstract => "abstract"
  }

  function StyleLabel(s: Style): string {
    match s
    case Naturalistic => "Naturalistic"
    case Abstract => "Abstract"
  }

  /** How a rank prints in an f-string. */
  function RankText(r: Rank): (t: string)
    ensures '_' !in t && '\n' !in t && t != []
    ensures t[0] == 'u' <==> r.Unknown?
  {
    match r
    case Num(n) => var t := IntToString(n); assert t[0] in t; t
    case Unknown => "unknown"
  }

  const MetadataFileName := "chapter_images_metadata.json"

  /** The shared shape of asset names: `chapter_{c}_image_{r}` and a tail. */
  function AssetName(c: int, r: Rank, tail: string): (name: string)
    ensures HasSuffix(name, tail)
  {
    var head := "chapter_" + IntToString(c) + "_image_" + RankText(r);
    assert (head + tail)[|head|..] == tail;
    head + tail
  }

  /** `chapter_{c}_image_{r}_{style}.png`. */
  function ImageFileName(c: int, r: Rank, s: Style): (name: string)
    ensures HasSuffix(name, ".png")
  {
    var tail := "_" + StyleName(s) + ".png";
    SuffixOfSuffix(AssetName(c, r, tail), tail, ".png");
    AssetName(c, r, tail)
  }

  /** `chapter_{c}_image_{r}_{style}_prompt.txt`. */
  function PromptFileName(c: int, r: Rank, s: Style): (name: string)
    ensures HasSuffix(name, "_prompt.txt")
  {
    var tail := "_" + StyleName(s) + "_prompt.txt";
    SuffixOfSuffix(AssetName(c, r, tail), tail, "_prompt.txt");
    AssetName(c, r, tail)
  }

  /** First line of a sidecar: `<Label> interpretation (Rank r):`. */
  function SidecarLabel(s: Style, r: Rank): (head: string)
    ensures '\n' !in head
  {
    var name := StyleLabel(s);
    var opening := " interpretation (Rank ";
    var closing := "):";
    assert '\n' !in name && '\n' !in opening && '\n' !in closing;
    name + opening + RankText(r) + closing
  }

  /** The text the generator writes into a prompt sidecar. */
  function SidecarText(s: Style, r: Rank, prompt: string): string {
    SidecarLabel(s, r) + "\n" + prompt
  }

  /**
   * The repair pass's recovery of a prompt from a sidecar: every line but the
   * first, joined and stripped; "" when there is at most one line.
   */
  function RecoverPrompt(text: string): (p: string)
    ensures p == [] || (!IsSpace(p[0]) && !IsSpace(p[|p| - 1]))
  {
    var lines := Lines(text);
    if |lines| > 1 then Strip(Join(lines[1..])) else ""
  }

  /** Reading back a sidecar gives the stripped prompt that was written. */
  lemma SidecarRoundTrip(s: Style, r: Rank, prompt: string)
    ensures RecoverPrompt(SidecarText(s, r, prompt)) == Strip(prompt)
  {
    var head := SidecarLabel(s, r);
    LinesAfterLabel(head, prompt);
    var lines := Lines(SidecarText(s, r, prompt));
    assert lines[1..] == Lines(prompt);
    JoinLines(prompt);
  }

  // ------------------------------------------------------------ name lemmas

  /** The part of an asset name after `chapter_`. */
  lemma RankTextInjective(a: Rank, b: Rank)
    requires RankText(a) == RankText(b)
    ensures a == b
  {
    if a.Unknown? {
      assert RankText(b)[0] == 'u';
    } else {
      assert !b.Unknown?;
      IntToStringInjective(a.n, b.n);
    }
  }

  /** The asset-name shape read back field by field, for any fields free of `_`. */
  lemma AssetFieldsInjective(a: string, b: string, t: string, a': string, b': string, t': string)
    requires '_' !in a && '_' !in a' && '_' !in b && '_' !in b'
    requires t != [] && t[0] == '_' && t' != [] && t'[0] == '_'
    requires "chapter_" + a + "_image_" + b + t == "chapter_" + a' + "_image_" + b' + t'
    ensures a == a' && b == b' && t == t'
  {
    var u, u' := "image_" + b + t, "image_" + b' + t';
    var n := "chapter_" + a + "_image_" + b + t;
    assert n[8..] == a + ['_'] + u;
    assert n[8..] == a' + ['_'] + u';
    SplitAtSeparator(a, u, a', u', '_');
    assert u[6..] == b + ['_'] + t[1..];
    assert u'[6..] == b' + ['_'] + t'[1..];
    SplitAtSeparator(b, t[1..], b', t'[1..], '_');
    assert t == [t[0]] + t[1..] && t' == [t'[0]] + t'[1..];
  }

  /** Chapter, rank and the tail after the rank can be read back from an asset name. */
  lemma AssetNameInjective(c: int, r: Rank, tail: string, c': int, r': Rank, tail': string)
    requires tail != [] && tail[0] == '_' && tail' != [] && tail'[0] == '_'
    requires AssetName(c, r, tail) == AssetName(c', r', tail')
    ensures c == c' && r == r' && tail == tail'
  {
    var a, a' := IntToString(c), IntToString(c');
    assert '_' !in a && '_' !in a';
    AssetFieldsInjective(a, RankText(r), tail, a', RankText(r'), tail');
    IntToStringInjective(c, c');
    RankTextInjective(r, r');
  }

  /** A style's tail determines the style, whatever extension follows it. */
  lemma StyleTailInjective(s: Style, s': Style, ext: string)
    requires "_" + StyleName(s) + ext == "_" + StyleName(s') + ext
    ensures s == s'
  {
    assert ("_" + StyleName(s) + ext)[1] == StyleName(s)[0];
    assert ("_" + StyleName(s') + ext)[1] == StyleName(s')[0];
  }

  /** Distinct (chapter, rank, style) triples never share an image file. */
  lemma ImageFileNameInjective(c: int, r: Rank, s: Style, c': int, r': Rank, s': Style)
    requires ImageFileName(c, r, s) == ImageFileName(c', r', s')
    ensures c == c' && r == r' && s == s'
  {
    var tail := "_" + StyleName(s) + ".png";
    var tail' := "_" + StyleName(s') + ".png";
    AssetNameInjective(c, r, tail, c', r', tail');
    StyleTailInjective(s, s', ".png");
  }

  /** Distinct (chapter, rank, style) triples never share a prompt sidecar. */
  lemma PromptFileNameInjective(c: int, r: Rank, s: Style, c': int, r': Rank, s': Style)
    requires PromptFileName(c, r, s) == PromptFileName(c', r', s')
    ensures c == c' && r == r' && s == s'
  {
    var tail := "_" + StyleName(s) + "_prompt.txt";
    var tail' := "_" + StyleName(s') + "_prompt.txt";
    AssetNameInjective(c, r, tail, c', r', tail');
    StyleTailInjective(s, s', "_prompt.txt");
  }

  /** The two styles of one motif never share a file. */
  lemma StylesHaveDistinctNames(c: int, r: Rank)
    ensures PromptFileName(c, r, Naturalistic) != PromptFileName(c, r, Abstract)
    ensures ImageFileName(c, r, Naturalistic) != ImageFileName(c, r, Abstract)
  {
    if PromptFileName(c, r, Naturalistic) == PromptFileName(c, r, Abstract) {
      PromptFileNameInjective(c, r, Naturalistic, c, r, Abstract);
    }
    if ImageFileName(c, r, Naturalistic) == ImageFileName(c, r, Abstract) {
      ImageFileNameInjective(c, r, Naturalistic, c, r, Abstract);
    }
  }

  /** Images, sidecars and the metadata file never share a name (they end in g, t and n). */
  lemma NamesAreDistinct(c: int, r: Rank, s: Style, c': int, r': Rank, s': Style)
    ensures ImageFileName(c, r, s) != PromptFileName(c', r', s')
    ensures ImageFileName(c, r, s) != MetadataFileName
    ensures PromptFileName(c, r, s) != MetadataFileName
  {
    var img, prm := ImageFileName(c, r, s), PromptFileName(c', r', s');
    var prm2 := PromptFileName(c, r, s);
    assert img[|img| - 1] == 'g' && prm[|prm| - 1] == 't' && prm2[|prm2| - 1] == 't';
    assert MetadataFileName[|MetadataFileName| - 1] == 'n';
  }
}
