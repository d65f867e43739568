/** Build and ParseBaseArtifact as they run: loops that accumulate names, sizes, files and sources. */
module ArtifactPrograms {
  import opened Prelude
  import opened CanonicalJson
  import opened CanonicalPrinter
  import opened CardManifest
  import opened ArtifactModel
  import Json
  import StringOrder
  import T = Text
  import Trust = ArtifactTrust

  // ----- Build -----

  /** The paths and sizes of the files, in any order. */
  method CheckFiles(files: Files) returns (ok: bool)
    ensures ok <==> (forall n :: n in files ==> SafePath(n) && |files[n]| <= MAX_FILE_BYTES)
                    && Json.Total(Sizes(files)) <= MAX_EXPANDED_BYTES
  {
    ghost var sizes := Sizes(files);
    var expanded := 0;
    var rest := files.Keys;
    assert sizes - rest == map[];
    while rest != {}
      invariant rest <= files.Keys && expanded == Json.Total(sizes - rest) <= MAX_EXPANDED_BYTES
      invariant forall n :: n in files && n !in rest ==> SafePath(n) && |files[n]| <= MAX_FILE_BYTES
    {
      var name :| name in rest;
      if !SafePath(name) || |files[name]| > MAX_FILE_BYTES {
        return false;
      }
      expanded := expanded + |files[name]|;
      Json.TotalStep(sizes, rest, name);
      if expanded > MAX_EXPANDED_BYTES {
        return false;
      }
      rest := rest - {name};
    }
    assert sizes - rest == sizes;
    return true;
  }

  method ListFiles(c: Codec, files: Files, sorted: seq<string>) returns (listed: seq<CardFile>)
    requires forall n :: n in sorted ==> n in files
    ensures listed == CardFiles(c, files, sorted)
  {
    listed := [];
    for i := 0 to |sorted|
      invariant listed == CardFiles(c, files, sorted)[..i]
    {
      assert sorted[i] in sorted;
      listed := listed + [CardFile(sorted[i], c.hash(files[sorted[i]]), |files[sorted[i]]|)];
    }
  }

  method PackFiles(files: Files, sorted: seq<string>) returns (entries: seq<Entry>)
    requires forall n :: n in sorted ==> n in files
    ensures entries == FileEntries(files, sorted)
  {
    entries := [];
    for i := 0 to |sorted|
      invariant entries == FileEntries(files, sorted)[..i]
    {
      assert sorted[i] in sorted;
      entries := entries + [Entry(sorted[i], files[sorted[i]])];
    }
  }

  method CheckInput(d: CardDefinition, files: Files, keyId: string) returns (ok: bool)
    ensures ok <==> InputOk(d, files, keyId)
  {
    if T.Blank(keyId) || |files| == 0 || |files| > 512 {
      return false;
    }
    ok := CheckFiles(files);
    return ok && d.entrypoint in files;
  }

  method Stamp(c: Codec, d: CardDefinition, files: Files) returns (definition: CardDefinition)
    ensures definition == Stamped(c, d, files)
  {
    var listed := ListFiles(c, files, StringOrder.SortedKeys(files.Keys));
    return d.(files := listed);
  }

  method Build(c: Codec, zip: ZipLength, names: seq<string>, d: CardDefinition, files: Files, keyId: string, key: int)
    returns (r: Option<seq<Entry>>)
    requires Names(names) && Numeric(c) && Floats(c, d)
    ensures r.Some? <==> Buildable(c, zip, names, d, files, keyId, key)
    ensures r.Some? ==> r.value == Entries(c, names, d, files, keyId, key)
  {
    var ok := CheckInput(d, files, keyId);
    if !ok {
      return None;
    }
    var definition := Stamp(c, d, files);
    if !DefinitionOk(definition) {
      return None;
    }
    var text := Sign(c, names, definition, keyId, key);
    var archive := Pack(c, names, d, files, keyId, key, text);
    if zip(archive) > MAX_ARCHIVE_BYTES {
      return None;
    }
    return Some(archive);
  }

  method Pack(c: Codec, names: seq<string>, d: CardDefinition, files: Files, keyId: string, key: int, text: string)
    returns (archive: seq<Entry>)
    requires Names(names) && text == ManifestText(c, names, Stamped(c, d, files), keyId, key)
    ensures archive == Entries(c, names, d, files, keyId, key)
  {
    var packed := PackFiles(files, StringOrder.SortedKeys(files.Keys));
    return [Entry(MANIFEST, c.encode(text))] + packed;
  }

  /** Sign the canonical manifest and print it again with the signature; neither printing can fail. */
  method Sign(c: Codec, names: seq<string>, d: CardDefinition, keyId: string, key: int) returns (text: string)
    requires Names(names) && Numeric(c) && Floats(c, d)
    ensures text == ManifestText(c, names, d, keyId, key)
  {
    var manifest := Encode(c, names, d)[names[KEY_ID] := Text(keyId)];
    SignedPrints(c, names, d, keyId, key);
    var message := CanonicalJSON(c.printable, Map(manifest));
    manifest := manifest[names[SIGNATURE] := Text(c.sign(key, message.value))];
    var printed := CanonicalJSON(c.printable, Map(manifest));
    return printed.value;
  }

  // ----- ParseBaseArtifact -----

  ghost predicate Collectable(entries: seq<Entry>)
  {
    (forall i :: 0 <= i < |entries| ==> EntryOk(entries[i])) && DistinctNames(entries)
  }

  lemma {:induction false} NamesCollected(entries: seq<Entry>, name: string)
    ensures name in FilesOf(entries) <==> exists i :: 0 <= i < |entries| && entries[i].name == name
  {
    if entries != [] {
      var n := |entries| - 1;
      NamesCollected(entries[..n], name);
      if name in FilesOf(entries[..n]) {
        var i :| 0 <= i < n && entries[..n][i].name == name;
        assert entries[i].name == name;
      }
      if i :| 0 <= i < n && entries[i].name == name {
        assert entries[..n][i].name == name;
      }
    }
  }

  /** One more entry must pass on its own and bring a new name. */
  lemma CollectNext(entries: seq<Entry>, i: nat)
    requires i < |entries|
    ensures FilesOf(entries[..i + 1]) == FilesOf(entries[..i])[entries[i].name := entries[i].content]
    ensures Collectable(entries[..i + 1]) <==>
              Collectable(entries[..i]) && EntryOk(entries[i]) && entries[i].name !in FilesOf(entries[..i])
    ensures Collectable(entries) ==> Collectable(entries[..i + 1])
  {
    var front, more := entries[..i], entries[..i + 1];
    assert more[..i] == front && more[i] == entries[i];
    NamesCollected(front, entries[i].name);
    if Collectable(more) {
      assert forall k :: 0 <= k < i ==> front[k] == more[k];
    }
  }

  /** The archive's files by name, or none if some limit is broken. */
  method CollectFiles(zip: ZipLength, archive: seq<Entry>) returns (r: Option<Files>)
    ensures r == if EntriesOk(zip, archive) then Some(FilesOf(archive)) else None
  {
    if zip(archive) == 0 || zip(archive) > MAX_ARCHIVE_BYTES || |archive| == 0 || |archive| > 513 {
      return None;
    }
    var files: Files := map[];
    var expanded := 0;
    ghost var lengths := Lengths(archive);
    for i := 0 to |archive|
      invariant files == FilesOf(archive[..i]) && Collectable(archive[..i])
      invariant expanded == Json.Sum(lengths[..i]) <= MAX_EXPANDED_BYTES
    {
      var entry := archive[i];
      CollectNext(archive, i);
      if !EntryOk(entry) || entry.name in files {
        assert !Collectable(archive);
        return None;
      }
      expanded := expanded + |entry.content|;
      Json.SumNext(lengths, i);
      Json.SumPart(lengths, i + 1);
      if expanded > MAX_EXPANDED_BYTES {
        return None;
      }
      files := files[entry.name := entry.content];
    }
    assert archive[..|archive|] == archive && lengths[..|archive|] == lengths;
    return Some(files);
  }

  method VerifyBaseManifest(c: Codec, names: seq<string>, manifest: Bytes, trusted: map<string, int>)
    returns (r: Option<(CardDefinition, string)>)
    requires Names(names)
    ensures r == VerifyManifest(c, names, manifest, trusted)
    ensures r.Some? ==>
              exists fields :: Trust.Manifests(c, manifest, fields) && r.value.1 in trusted
                               && Trust.CarriesSignature(c, names, fields, r.value.1, trusted[r.value.1])
  {
    if |manifest| == 0 || |manifest| > MAX_MANIFEST_BYTES || c.decode(manifest).None? {
      return None;
    }
    var read := Read(true, c.decode(manifest).value);
    if read.None? || read.value.1 != "" || !read.value.0.Map? {
      return None;
    }
    r := VerifyBaseFields(c, names, read.value.0.fields, trusted);
    assert Trust.Manifests(c, manifest, read.value.0.fields);
  }

  method VerifyBaseFields(c: Codec, names: seq<string>, fields: Fields, trusted: map<string, int>)
    returns (r: Option<(CardDefinition, string)>)
    requires Names(names)
    ensures r == VerifyFields(c, names, fields, trusted)
    ensures r.Some? ==>
              r.value.1 in trusted && Trust.CarriesSignature(c, names, fields, r.value.1, trusted[r.value.1])
  {
    var keyId, signature := Get(fields, names[KEY_ID]), Get(fields, names[SIGNATURE]);
    if keyId.None? || !keyId.value.Text? || T.Blank(keyId.value.text) {
      return None;
    }
    if signature.None? || !signature.value.Text? {
      return None;
    }
    var manifest := fields - {names[SIGNATURE]};
    var message := CanonicalJSON(c.printable, Map(manifest));
    var id := keyId.value.text;
    if message.None? || id !in trusted || !c.verify(trusted[id], message.value, signature.value.text) {
      return None;
    }
    PartPrintable(manifest, names[KEY_ID]);
    manifest := manifest - {names[KEY_ID]};
    var definition := DecodeAgain(c, names, manifest);
    r := if definition.None? then None else Some((definition.value, id));
    if r.Some? {
      Trust.FieldsAreSigned(c, names, fields, trusted);
    }
  }

  lemma PartPrintable(m: Fields, key: string)
    ensures Printable_(Map(m)) ==> Printable_(Map(m - {key}))
  {
    assert forall k :: k in m - {key} ==> (m - {key})[k] == m[k];
  }

  /** Print what is left of the manifest once more and decode it strictly. */
  method DecodeAgain(c: Codec, names: seq<string>, manifest: Fields) returns (r: Option<CardDefinition>)
    requires Names(names) && Printable_(Map(manifest))
    ensures var again := Read(true, Print(c.printable, Map(manifest)));
            r == if again.None? || again.value.1 != "" || !again.value.0.Map? then None
                 else
                   var d := Decode(c, names, again.value.0.fields);
                   if d.None? || !DefinitionOk(d.value) then None else d
  {
    var text := CanonicalJSON(c.printable, Map(manifest));
    var again := Read(true, text.value);
    if again.None? || again.value.1 != "" || !again.value.0.Map? {
      return None;
    }
    var definition := Decode(c, names, again.value.0.fields);
    if definition.None? || !DefinitionOk(definition.value) {
      return None;
    }
    return definition;
  }

  method VerifyBaseFiles(c: Codec, expected: seq<CardFile>, actual: Files) returns (ok: bool)
    ensures ok <==> FilesMatch(c, expected, actual)
  {
    if |expected| != |actual| {
      return false;
    }
    var seen: set<string> := {};
    for i := 0 to |expected|
      invariant forall k :: 0 <= k < i ==> expected[k].path in seen
      invariant forall x :: x in seen ==> exists k :: 0 <= k < i && expected[k].path == x
      invariant forall j, k :: 0 <= j < k < i ==> expected[j].path != expected[k].path
      invariant forall k :: 0 <= k < i ==>
                  expected[k].path in actual && |actual[expected[k].path]| == expected[k].size
                  && c.hash(actual[expected[k].path]) == expected[k].sha
    {
      var file := expected[i];
      if file.path in seen {
        return false;
      }
      seen := seen + {file.path};
      if file.path !in actual || |actual[file.path]| != file.size || c.hash(actual[file.path]) != file.sha {
        return false;
      }
    }
    return true;
  }

  method ExtractNativeSources(c: Codec, files: Files) returns (r: Option<Sources>)
    ensures r.Some? <==>
            && (forall n :: n in files ==> !IsSource(n))
            && NATIVE_ENTRY in files && SourceOk(c, files[NATIVE_ENTRY])
    ensures r.Some? ==> r.value == map[NATIVE_ENTRY := c.decode(files[NATIVE_ENTRY]).value]
  {
    var rest := files.Keys;
    while rest != {}
      invariant rest <= files.Keys && forall n :: n in files && n !in rest ==> !IsSource(n)
    {
      var name :| name in rest;
      if IsSource(name) {
        return None;
      }
      rest := rest - {name};
    }
    if NATIVE_ENTRY !in files || !SourceOk(c, files[NATIVE_ENTRY]) {
      return None;
    }
    return Some(map[NATIVE_ENTRY := c.decode(files[NATIVE_ENTRY]).value]);
  }

  /** The sources of the files in `done`. */
  ghost predicate Gathered(c: Codec, files: Files, done: set<string>, sources: Sources)
  {
    && (forall n :: n in done ==>
          n in files && OutputName(n).Some? && SourceOk(c, files[n])
          && OutputName(n).value in sources && Some(sources[OutputName(n).value]) == c.decode(files[n]))
    && forall out :: out in sources ==> exists n :: n in done && OutputName(n) == Some(out)
  }

  lemma GatherNext(c: Codec, files: Files, done: set<string>, sources: Sources, name: string)
    requires Gathered(c, files, done, sources) && name in files && name !in done
    requires OutputName(name).Some? && SourceOk(c, files[name])
    ensures Gathered(c, files, done + {name}, sources[OutputName(name).value := c.decode(files[name]).value])
  {
    OutputNamesDiffer(name);
    var after := sources[OutputName(name).value := c.decode(files[name]).value];
    forall out | out in after ensures exists n :: n in done + {name} && OutputName(n) == Some(out) {
      if out == OutputName(name).value {
        assert name in done + {name};
      } else {
        var n :| n in done && OutputName(n) == Some(out);
        assert n in done + {name};
      }
    }
  }

  lemma GatherRest(c: Codec, files: Files, all: set<string>, rest: set<string>, sources: Sources, name: string)
    requires Gathered(c, files, all - rest, sources) && name in files && name in rest && rest <= all
    requires OutputName(name).Some? && SourceOk(c, files[name])
    ensures Gathered(c, files, all - (rest - {name}), sources[OutputName(name).value := c.decode(files[name]).value])
  {
    GatherNext(c, files, all - rest, sources, name);
    assert all - rest + {name} == all - (rest - {name});
  }

  function SourceNames(files: Files): set<string>
  {
    set n | n in files && IsSource(n)
  }

  lemma AllGathered(c: Codec, files: Files, sources: Sources)
    requires Gathered(c, files, SourceNames(files), sources)
    ensures AreWebSources(c, files, sources)
    ensures forall n :: n in files && IsSource(n) ==> OutputName(n).Some? && SourceOk(c, files[n])
    ensures CARD_SOURCE in sources <==> WEB_SOURCE in files
  {
    OnlyCardSource(files);
    forall n | n in files && IsSource(n) ensures n in SourceNames(files) {
    }
    if WEB_SOURCE in files {
      assert WEB_SOURCE in SourceNames(files);
    }
  }

  predicate SourceAllowed(c: Codec, files: Files, name: string)
    requires name in files
  {
    OutputName(name).Some? && SourceOk(c, files[name])
  }

  /** Collect the sources in any order. */
  method GatherSources(c: Codec, files: Files) returns (ok: bool, sources: Sources, total: nat)
    ensures ok <==> forall n :: n in SourceNames(files) ==> SourceAllowed(c, files, n)
    ensures ok ==> Gathered(c, files, SourceNames(files), sources) && total == Json.Total(SourceSizes(files))
  {
    ghost var sizes := SourceSizes(files);
    sources, total := map[], 0;
    var all := SourceNames(files);
    var rest := all;
    assert sizes.Keys == all && sizes - rest == map[];
    while rest != {}
      invariant rest <= all && total == Json.Total(sizes - rest)
      invariant Gathered(c, files, all - rest, sources)
    {
      var name :| name in rest;
      if !SourceAllowed(c, files, name) {
        return false, sources, total;
      }
      Json.TotalStep(sizes, rest, name);
      GatherRest(c, files, all, rest, sources, name);
      sources := sources[OutputName(name).value := c.decode(files[name]).value];
      total := total + |files[name]|;
      rest := rest - {name};
    }
    assert sizes - rest == sizes && all - rest == all;
    return true, sources, total;
  }

  /** The sources of a web card, their total kept within the limit. */
  method ExtractWebSources(c: Codec, files: Files) returns (r: Option<Sources>)
    ensures r.Some? <==> WebSourcesOk(c, files)
    ensures r.Some? ==> AreWebSources(c, files, r.value)
  {
    var ok, sources, total := GatherSources(c, files);
    if !ok {
      return None;
    }
    AllGathered(c, files, sources);
    if CARD_SOURCE !in sources || total > MAX_SOURCE_BYTES {
      return None;
    }
    return Some(sources);
  }

  lemma OutputNamesDiffer(name: string)
    requires OutputName(name).Some?
    ensures name == WEB_PREFIX + OutputName(name).value
    ensures forall other :: OutputName(other) == OutputName(name) ==> other == name
  {
    forall other | OutputName(other) == OutputName(name) ensures other == name {
      assert other == WEB_PREFIX + other[|WEB_PREFIX|..] && name == WEB_PREFIX + name[|WEB_PREFIX|..];
    }
  }

  lemma OnlyCardSource(files: Files)
    ensures IsSource(WEB_SOURCE) && OutputName(WEB_SOURCE) == Some(CARD_SOURCE)
    ensures forall n :: OutputName(n) == Some(CARD_SOURCE) ==> n == WEB_SOURCE
  {
    OutputNamesDiffer(WEB_SOURCE);
  }

  method ExtractBaseSources(c: Codec, d: CardDefinition, files: Files) returns (r: Option<Sources>)
    ensures r.Some? <==> SourcesOk(c, d, files)
    ensures r.Some? ==> AreSources(c, d, files, r.value)
  {
    if d.runtime == "native" {
      r := ExtractNativeSources(c, files);
    } else {
      r := ExtractWebSources(c, files);
    }
  }

  method ParseBaseArtifact(c: Codec, zip: ZipLength, names: seq<string>, archive: seq<Entry>, e: Expectation,
                           trusted: map<string, int>) returns (r: Option<BaseArtifact>)
    requires Names(names)
    ensures Parses(c, zip, names, archive, e, trusted, r)
    ensures r.Some? ==> e.keyId in trusted && Trust.SignedWith(c, names, archive, e.keyId, trusted[e.keyId])
  {
    var collected := CollectFiles(zip, archive);
    if collected.None? || MANIFEST !in collected.value {
      return None;
    }
    var files := collected.value - {MANIFEST};
    var verified := VerifyBaseManifest(c, names, collected.value[MANIFEST], trusted);
    if verified.None? {
      return None;
    }
    var (definition, keyId) := verified.value;
    if definition.cardId != e.cardId || definition.versionId != e.versionId || keyId != e.keyId {
      return None;
    }
    var ok := VerifyBaseFiles(c, definition.files, files);
    if !ok {
      return None;
    }
    var sources := ExtractBaseSources(c, definition, files);
    if sources.None? {
      return None;
    }
    r := Some(BaseArtifact(definition, sources.value));
    Trust.AcceptedIsSigned(c, zip, names, archive, e, trusted, r);
  }
}
