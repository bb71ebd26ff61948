/**
 * The artwork directory: a set of file names (the keys of `files`) and what
 * each file holds. The metadata records that the generator writes and the
 * repair pass and website read are defined here too.
 */
module Storage {
  import opened Wrappers

  /** A record's `rank`: the motif's number, or the string 'unknown' the generator substitutes. */
  datatype Rank = Num(n: int) | Unknown

  /**
   * One metadata record as it sits in `chapter_images_metadata.json`.
   * A field that is missing or null when the file is read back is None.
   */
  datatype Record = Record(
    chapter: Option<int>,
    rank: Option<Rank>,
    description: string,
    significance: string,
    location: real,
    naturalisticPath: Option<string>,
    abstractPath: Option<string>)

  /**
   * What a file holds. `ImageFile` remembers where its bytes came from (the
   * download URL or the base64 payload). `Unreadable` is a file whose
   * reading raises.
   */
  datatype Content =
    | TextFile(text: string)
    | ImageFile(source: string)
    | MetadataFile(records: seq<Record>)
    | Unreadable

  /**
   * Reading a file as UTF-8 text. By the model's convention for file kinds,
   * a sidecar is a text file and anything else counts as a failed read.
   */
  function ReadText(c: Content): (r: Option<string>)
    ensures r.Some? <==> c.TextFile?
    ensures r.Some? ==> r.value == c.text
  {
    if c.TextFile? then Some(c.text) else None
  }

  /** `json.load` of a metadata file: None when the file is missing or does not decode. */
  function LoadMetadata(files: map<string, Content>, name: string): (r: Option<seq<Record>>)
    ensures r.Some? <==> name in files && files[name].MetadataFile?
    ensures r.Some? ==> r.value == files[name].records
  {
    if name in files && files[name].MetadataFile? then Some(files[name].records) else None
  }

  /** The directory after an attempt to write `content` to `name`; unwritable names stay as they were. */
  function Stored(files: map<string, Content>, unwritable: set<string>, name: string, content: Content): map<string, Content>
  {
    if name in unwritable then files else files[name := content]
  }

  /**
   * `save_image` of the generator and of the repair pass: nothing happens
   * without a truthy URL; otherwise the image is downloaded and decoded
   * (`fetch` says whether that succeeds) and saved under `name`. A failed
   * download or decode and a failed write are caught and leave the directory
   * as it was.
   */
  function SavedImage(files: map<string, Content>, unwritable: set<string>, fetch: string -> bool,
                      url: Option<string>, name: string): (r: map<string, Content>)
    ensures r.Keys == files.Keys || r.Keys == files.Keys + {name}
    ensures forall n :: n in files && n != name ==> n in r && r[n] == files[n]
    ensures name in r && (name !in files || r[name] != files[name])
        <==> Truthy(url) && fetch(url.value) && name !in unwritable
             && (name !in files || files[name] != ImageFile(url.value))
    ensures name in r && r != files ==> r[name] == ImageFile(url.value)
  {
    if !Truthy(url) || !fetch(url.value) then files
    else Stored(files, unwritable, name, ImageFile(url.value))
  }

  class Directory {
    var files: map<string, Content>
    /** Names whose writes raise (permissions, full disk); the scripts catch those errors. */
    const unwritable: set<string>

    constructor (initial: map<string, Content>, failing: set<string>)
      ensures files == initial && unwritable == failing
    {
      files := initial;
      unwritable := failing;
    }

    /** `open(name, 'w').write(...)`, guarded as the scripts guard it: a failure changes nothing. */
    method Write(name: string, content: Content) returns (ok: bool)
      modifies this
      ensures ok <==> name !in unwritable
      ensures files == Stored(old(files), unwritable, name, content)
      ensures ok ==> name in files && files[name] == content
    {
      ok := name !in unwritable;
      if ok {
        files := files[name := content];
      }
    }

    /** `save_image(url, name)` against this directory. */
    method SaveImage(fetch: string -> bool, url: Option<string>, name: string)
      modifies this
      ensures files == SavedImage(old(files), unwritable, fetch, url, name)
    {
      if Truthy(url) && fetch(url.value) {
        var _ := Write(name, ImageFile(url.value));
      }
    }
  }
}
