/** Signed card artifacts: what Build puts into an archive and what ParseBaseArtifact takes out of it. */
module ArtifactModel {
  import opened Prelude
  import opened CanonicalJson
  import opened CardManifest
  import Json
  import StringOrder
  import T = Text

  const MAX_FILE_BYTES: nat := 8 * 1024 * 1024
  const MAX_EXPANDED_BYTES: nat := 32 * 1024 * 1024
  const MAX_ARCHIVE_BYTES: nat := 8 * 1024 * 1024
  const MAX_MANIFEST_BYTES: nat := 256 * 1024
  const MAX_SOURCE_BYTES: nat := 512 * 1024
  const MANIFEST := "manifest.json"

  type Files = map<string, Bytes>

  /** A zip archive: its stored files in order. */
  datatype Entry = Entry(name: string, content: Bytes)

  type Positive = n: nat | n > 0 witness 1

  /** The length of the zip file that holds some entries, which is never empty. */
  type ZipLength = seq<Entry> -> Positive

  // ----- checks shared by both sides -----

  /** validatePath; path.Clean changes no path whose parts are all proper. */
  predicate SafePath(name: string)
  {
    var parts := T.Split(name, '/');
    && name != "" && T.Free(name, '\\') && |parts| <= 8
    && forall i :: 0 <= i < |parts| ==> parts[i] != "" && parts[i] != "." && parts[i] != ".."
  }

  predicate StartsWith_(s: string, prefix: string)
  {
    |s| >= |prefix| && s[..|prefix|] == prefix
  }

  predicate SizesOk(d: CardDefinition)
  {
    && d.minSize.width > 0.0 && d.minSize.height > 0.0
    && d.preferredSize.width >= d.minSize.width && d.preferredSize.height >= d.minSize.height
    && d.maxSize.width >= d.preferredSize.width && d.maxSize.height >= d.preferredSize.height
  }

  /** CardDefinition.Validate. */
  predicate DefinitionOk(d: CardDefinition)
  {
    && d.formatVersion == 1 && StartsWith_(d.cardId, "card_") && StartsWith_(d.versionId, "ver_")
    && d.stateSchemaVersion >= 1 && !T.Blank(d.title) && SizesOk(d)
    && match d.runtime
       case "native" => d.entrypoint == NATIVE_ENTRY && d.catalogVersion != ""
       case "web" => d.entrypoint == WEB_ENTRY
       case _ => false
  }

  const NATIVE_ENTRY := "payload/native.json"
  const WEB_ENTRY := "payload/web/index.html"

  // ----- building -----

  function Sizes(files: Files): map<string, nat>
  {
    map n | n in files :: |files[n]|
  }

  function CardFiles(c: Codec, files: Files, names: seq<string>): seq<CardFile>
    requires forall n :: n in names ==> n in files
  {
    seq(|names|, i requires 0 <= i < |names| => CardFile(names[i], c.hash(files[names[i]]), |files[names[i]]|))
  }

  /** The definition with its file list. */
  function Stamped(c: Codec, d: CardDefinition, files: Files): CardDefinition
  {
    d.(files := CardFiles(c, files, StringOrder.SortedKeys(files.Keys)))
  }

  function Unsigned(c: Codec, names: seq<string>, d: CardDefinition, keyId: string): Fields
    requires |names| == 20
  {
    Encode(c, names, d)[names[KEY_ID] := Text(keyId)]
  }

  function Signed(c: Codec, names: seq<string>, d: CardDefinition, keyId: string, key: int): Fields
    requires |names| == 20
  {
    var unsigned := Unsigned(c, names, d, keyId);
    unsigned[names[SIGNATURE] := Text(c.sign(key, Print(c.printable, Map(unsigned))))]
  }

  lemma SignedPrints(c: Codec, names: seq<string>, d: CardDefinition, keyId: string, key: int)
    requires |names| == 20 && Numeric(c) && Floats(c, d)
    ensures Printable_(Map(Unsigned(c, names, d, keyId))) && Printable_(Map(Signed(c, names, d, keyId, key)))
  {
    DefinitionPrints(c, names, d);
    var plain, unsigned := Encode(c, names, d), Unsigned(c, names, d, keyId);
    assert forall k :: k in unsigned ==> k == names[KEY_ID] || (k in plain && unsigned[k] == plain[k]);
  }

  function ManifestText(c: Codec, names: seq<string>, d: CardDefinition, keyId: string, key: int): string
    requires |names| == 20
  {
    Print(c.printable, Map(Signed(c, names, d, keyId, key)))
  }

  function FileEntries(files: Files, names: seq<string>): seq<Entry>
    requires forall n :: n in names ==> n in files
  {
    seq(|names|, i requires 0 <= i < |names| => Entry(names[i], files[names[i]]))
  }

  function Entries(c: Codec, names: seq<string>, d: CardDefinition, files: Files, keyId: string, key: int): seq<Entry>
    requires |names| == 20
  {
    [Entry(MANIFEST, c.encode(ManifestText(c, names, Stamped(c, d, files), keyId, key)))]
    + FileEntries(files, StringOrder.SortedKeys(files.Keys))
  }

  /** The key id, the files' paths and sizes, and the entrypoint. */
  ghost predicate InputOk(d: CardDefinition, files: Files, keyId: string)
  {
    && !T.Blank(keyId) && 0 < |files| <= 512
    && (forall n :: n in files ==> SafePath(n) && |files[n]| <= MAX_FILE_BYTES)
    && Json.Total(Sizes(files)) <= MAX_EXPANDED_BYTES && d.entrypoint in files
  }

  ghost predicate Buildable(c: Codec, zip: ZipLength, names: seq<string>, d: CardDefinition, files: Files,
                            keyId: string, key: int)
    requires |names| == 20
  {
    && InputOk(d, files, keyId) && DefinitionOk(Stamped(c, d, files))
    && zip(Entries(c, names, d, files, keyId, key)) <= MAX_ARCHIVE_BYTES
  }

  // ----- parsing -----

  function FilesOf(entries: seq<Entry>): Files
  {
    if entries == [] then map[]
    else FilesOf(entries[..|entries| - 1])[entries[|entries| - 1].name := entries[|entries| - 1].content]
  }

  predicate DistinctNames(entries: seq<Entry>)
  {
    forall i, j :: 0 <= i < j < |entries| ==> entries[i].name != entries[j].name
  }

  function Lengths(entries: seq<Entry>): seq<nat>
  {
    seq(|entries|, i requires 0 <= i < |entries| => |entries[i].content|)
  }

  predicate EntryOk(e: Entry)
  {
    SafePath(e.name) && |e.content| <= MAX_FILE_BYTES
  }

  predicate EntriesOk(zip: ZipLength, entries: seq<Entry>)
  {
    && 0 < zip(entries) <= MAX_ARCHIVE_BYTES && 0 < |entries| <= 513
    && (forall i :: 0 <= i < |entries| ==> EntryOk(entries[i]))
    && DistinctNames(entries) && Json.Sum(Lengths(entries)) <= MAX_EXPANDED_BYTES
  }

  /** verifyBaseManifest: the definition and the key id, if the signature of a trusted key holds. */
  function VerifyManifest(c: Codec, names: seq<string>, manifest: Bytes, trusted: map<string, int>)
    : Option<(CardDefinition, string)>
    requires |names| == 20
  {
    if |manifest| == 0 || |manifest| > MAX_MANIFEST_BYTES || c.decode(manifest).None? then None
    else
      var read := Read(true, c.decode(manifest).value);
      if read.None? || read.value.1 != "" || !read.value.0.Map? then None
      else VerifyFields(c, names, read.value.0.fields, trusted)
  }

  function VerifyFields(c: Codec, names: seq<string>, fields: Fields, trusted: map<string, int>)
    : Option<(CardDefinition, string)>
    requires |names| == 20
  {
    var keyId, signature := Get(fields, names[KEY_ID]), Get(fields, names[SIGNATURE]);
    if keyId.None? || !keyId.value.Text? || T.Blank(keyId.value.text) then None
    else if signature.None? || !signature.value.Text? then None
    else
      var unsigned := fields - {names[SIGNATURE]};
      var id := keyId.value.text;
      if !Printable_(Map(unsigned)) || id !in trusted
         || !c.verify(trusted[id], Print(c.printable, Map(unsigned)), signature.value.text) then None
      else
        var plain := unsigned - {names[KEY_ID]};
        var again := Read(true, Print(c.printable, Map(plain)));
        if again.None? || again.value.1 != "" || !again.value.0.Map? then None
        else
          var d := Decode(c, names, again.value.0.fields);
          if d.None? || !DefinitionOk(d.value) then None else Some((d.value, id))
  }

  /** verifyBaseFiles: the list and the archive name the same files, with the same sizes and hashes. */
  predicate FilesMatch(c: Codec, expected: seq<CardFile>, actual: Files)
  {
    && |expected| == |actual|
    && (forall i, j :: 0 <= i < j < |expected| ==> expected[i].path != expected[j].path)
    && forall i :: 0 <= i < |expected| ==>
         expected[i].path in actual && |actual[expected[i].path]| == expected[i].size
         && c.hash(actual[expected[i].path]) == expected[i].sha
  }

  predicate SourceOk(c: Codec, content: Bytes)
  {
    |content| <= MAX_SOURCE_BYTES && c.decode(content).Some? && 0 !in content
  }

  const SOURCE_PREFIX := "source/"
  const WEB_PREFIX := "source/web/"
  const CARD_SOURCE := "src/card.tsx"
  const WEB_SOURCE := WEB_PREFIX + CARD_SOURCE

  /** The source files a web card may carry, by the names they are handed on under. */
  function OutputName(name: string): Option<string>
  {
    if name in {WEB_SOURCE, WEB_PREFIX + "src/card.css", WEB_PREFIX + "src/card.test.tsx"}
    then Some(name[|WEB_PREFIX|..]) else None
  }

  predicate IsSource(name: string)
  {
    StartsWith_(name, SOURCE_PREFIX)
  }

  function SourceSizes(files: Files): map<string, nat>
  {
    map n | n in files && IsSource(n) :: |files[n]|
  }

  /** What extractBaseSources demands. */
  ghost predicate SourcesOk(c: Codec, d: CardDefinition, files: Files)
  {
    if d.runtime == "native" then
      && (forall n :: n in files ==> !IsSource(n))
      && NATIVE_ENTRY in files && SourceOk(c, files[NATIVE_ENTRY])
    else WebSourcesOk(c, files)
  }

  ghost predicate WebSourcesOk(c: Codec, files: Files)
  {
    && (forall n :: n in files && IsSource(n) ==> OutputName(n).Some? && SourceOk(c, files[n]))
    && WEB_SOURCE in files
    && Json.Total(SourceSizes(files)) <= MAX_SOURCE_BYTES
  }

  type Sources = map<string, string>

  /** Exactly the allowed sources, under the names they are handed on under. */
  ghost predicate AreSources(c: Codec, d: CardDefinition, files: Files, sources: Sources)
  {
    if d.runtime == "native" then
      NATIVE_ENTRY in files && c.decode(files[NATIVE_ENTRY]).Some?
      && sources == map[NATIVE_ENTRY := c.decode(files[NATIVE_ENTRY]).value]
    else AreWebSources(c, files, sources)
  }

  ghost predicate AreWebSources(c: Codec, files: Files, sources: Sources)
  {
    && (forall n :: n in files && IsSource(n) && OutputName(n).Some? ==>
          OutputName(n).value in sources && Some(sources[OutputName(n).value]) == c.decode(files[n]))
    && forall out :: out in sources ==> exists n :: n in files && IsSource(n) && OutputName(n) == Some(out)
  }

  datatype Expectation = Expectation(cardId: string, versionId: string, keyId: string)

  datatype BaseArtifact = BaseArtifact(definition: CardDefinition, sources: Sources)

  /** What ParseBaseArtifact answers. */
  ghost predicate Parses(c: Codec, zip: ZipLength, names: seq<string>, archive: seq<Entry>, e: Expectation,
                         trusted: map<string, int>, r: Option<BaseArtifact>)
    requires |names| == 20
  {
    if !EntriesOk(zip, archive) || MANIFEST !in FilesOf(archive) then r.None?
    else
      var files := FilesOf(archive);
      var verified := VerifyManifest(c, names, files[MANIFEST], trusted);
      if verified.None? then r.None?
      else
        var (d, keyId) := verified.value;
        if d.cardId != e.cardId || d.versionId != e.versionId || keyId != e.keyId
           || !FilesMatch(c, d.files, files - {MANIFEST}) || !SourcesOk(c, d, files - {MANIFEST}) then r.None?
        else r.Some? && r.value.definition == d && AreSources(c, d, files - {MANIFEST}, r.value.sources)
  }
}
