/** What Build wrote, ParseBaseArtifact reads back. */
module ArtifactRoundTrip {
  import opened Prelude
  import opened Quoting
  import opened CanonicalJson
  import opened CardManifest
  import opened ArtifactModel
  import Json
  import StringOrder
  import T = Text

  // ----- the archive -----

  lemma NamesOfFiles(files: Files)
    ensures var names := StringOrder.SortedKeys(files.Keys);
            && (forall i, j :: 0 <= i < j < |names| ==> names[i] != names[j])
            && (forall i :: 0 <= i < |names| ==> names[i] in files) && |names| == |files|
  {
    var names := StringOrder.SortedKeys(files.Keys);
    StringOrder.KeysDistinct(files.Keys);
    forall i | 0 <= i < |names| ensures names[i] in files {
      assert names[i] in names;
    }
  }

  function PartSizes(files: Files, names: seq<string>): map<string, nat>
    requires forall n :: n in names ==> n in files
  {
    map n | n in names :: |files[n]|
  }

  lemma LengthsSnoc(files: Files, front: seq<string>, last: string)
    requires (forall n :: n in front ==> n in files) && last in files
    ensures Json.Sum(Lengths(FileEntries(files, front + [last])))
            == Json.Sum(Lengths(FileEntries(files, front))) + |files[last]|
  {
    assert Lengths(FileEntries(files, front + [last])) == Lengths(FileEntries(files, front)) + [|files[last]|];
    assert (Lengths(FileEntries(files, front)) + [|files[last]|])[..|front|] == Lengths(FileEntries(files, front));
  }

  lemma PartSnoc(files: Files, front: seq<string>, last: string)
    requires (forall n :: n in front ==> n in files) && last in files && last !in front
    ensures Json.Total(PartSizes(files, front + [last])) == Json.Total(PartSizes(files, front)) + |files[last]|
  {
    assert PartSizes(files, front + [last]) == PartSizes(files, front)[last := |files[last]|];
    Json.TotalAdd(PartSizes(files, front), last, |files[last]|);
  }

  /** Adding the sizes up in order comes to the order-free total. */
  lemma {:induction false} SumIsTotal(files: Files, names: seq<string>)
    requires forall i, j :: 0 <= i < j < |names| ==> names[i] != names[j]
    requires forall n :: n in names ==> n in files
    ensures Json.Sum(Lengths(FileEntries(files, names))) == Json.Total(PartSizes(files, names))
    decreases |names|
  {
    if names != [] {
      var front, last := names[..|names| - 1], names[|names| - 1];
      assert names == front + [last] && last !in front;
      SumIsTotal(files, front);
      LengthsSnoc(files, front, last);
      PartSnoc(files, front, last);
    }
  }

  lemma {:induction false} SumOfFirst(s: seq<nat>)
    requires s != []
    ensures Json.Sum(s) == s[0] + Json.Sum(s[1..])
  {
    if |s| > 1 {
      SumOfFirst(s[..|s| - 1]);
      assert s[1..][..|s| - 2] == s[..|s| - 1][1..];
    } else {
      assert s[..0] == [] && s[1..] == [];
    }
  }

  lemma OnePart(name: string)
    requires T.Free(name, '/') && T.Free(name, '\\') && |name| > 2
    ensures SafePath(name)
  {
    T.SplitHead(name, '/', "");
  }

  lemma ManifestNameSafe()
    ensures SafePath(MANIFEST)
  {
    var name := MANIFEST;
    assert forall i :: 0 <= i < |name| ==> '-' < name[i] <= 'z' && name[i] != '/' && name[i] != '\\';
    OnePart(name);
  }

  function Packed(first: Entry, files: Files): seq<Entry>
  {
    [first] + FileEntries(files, StringOrder.SortedKeys(files.Keys))
  }

  lemma PackedNames(first: Entry, files: Files)
    requires first.name == MANIFEST && MANIFEST !in files
    ensures var all := Packed(first, files);
            && DistinctNames(all) && |all| == 1 + |files|
            && forall i :: 1 <= i < |all| ==> all[i].name in files && all[i].content == files[all[i].name]
  {
    NamesOfFiles(files);
    OthersNamed(first, files, StringOrder.SortedKeys(files.Keys));
  }

  lemma OthersNamed(first: Entry, files: Files, sorted: seq<string>)
    requires forall i, j :: 0 <= i < j < |sorted| ==> sorted[i] != sorted[j]
    requires (forall i :: 0 <= i < |sorted| ==> sorted[i] in files) && first.name !in files
    ensures var all := [first] + FileEntries(files, sorted);
            && DistinctNames(all) && |all| == 1 + |sorted|
            && forall i :: 1 <= i < |all| ==> all[i].name in files && all[i].content == files[all[i].name]
  {
    var all := [first] + FileEntries(files, sorted);
    assert forall i :: 1 <= i < |all| ==> all[i] == Entry(sorted[i - 1], files[sorted[i - 1]]);
  }

  lemma PackedSizes(first: Entry, files: Files)
    ensures Json.Sum(Lengths(Packed(first, files))) == |first.content| + Json.Total(Sizes(files))
  {
    var sorted := StringOrder.SortedKeys(files.Keys);
    NamesOfFiles(files);
    SumIsTotal(files, sorted);
    assert PartSizes(files, sorted) == Sizes(files);
    LengthsSplit(first, FileEntries(files, sorted));
  }

  lemma LengthsSplit(first: Entry, others: seq<Entry>)
    ensures Json.Sum(Lengths([first] + others)) == |first.content| + Json.Sum(Lengths(others))
  {
    var all := Lengths([first] + others);
    assert all[1..] == Lengths(others);
    SumOfFirst(all);
  }

  lemma ManifestTwice(first: Entry, files: Files)
    requires first.name == MANIFEST && MANIFEST in files
    ensures !DistinctNames(Packed(first, files))
  {
    var sorted, all := StringOrder.SortedKeys(files.Keys), Packed(first, files);
    assert MANIFEST in sorted;
    var i :| 0 <= i < |sorted| && sorted[i] == MANIFEST;
    assert all[0].name == all[1 + i].name;
  }

  /** Which packed entries pass the reader's first checks. */
  lemma EntriesPass(zip: ZipLength, first: Entry, files: Files)
    requires first.name == MANIFEST && |files| <= 512 && zip(Packed(first, files)) <= MAX_ARCHIVE_BYTES
    requires forall n :: n in files ==> SafePath(n) && |files[n]| <= MAX_FILE_BYTES
    ensures EntriesOk(zip, Packed(first, files)) <==>
              MANIFEST !in files && |first.content| <= MAX_FILE_BYTES
              && |first.content| + Json.Total(Sizes(files)) <= MAX_EXPANDED_BYTES
  {
    PackedSizes(first, files);
    if MANIFEST in files {
      ManifestTwice(first, files);
    } else {
      PackedNames(first, files);
      ManifestNameSafe();
      assert Packed(first, files)[0] == first;
    }
  }

  lemma FilesOfSnoc(front: seq<Entry>, last: Entry)
    ensures FilesOf(front + [last]) == FilesOf(front)[last.name := last.content]
  {
    assert (front + [last])[..|front|] == front;
  }

  function Part_(files: Files, names: seq<string>): Files
    requires forall n :: n in names ==> n in files
  {
    map n | n in names :: files[n]
  }

  lemma {:induction false} FilesCollected(files: Files, sorted: seq<string>, first: Entry)
    requires (forall n :: n in sorted ==> n in files) && first.name !in files
    ensures FilesOf([first] + FileEntries(files, sorted)) == Part_(files, sorted)[first.name := first.content]
    decreases |sorted|
  {
    if sorted == [] {
      FilesOfSnoc([], first);
      assert [first] + FileEntries(files, sorted) == [] + [first];
    } else {
      var front, last := sorted[..|sorted| - 1], sorted[|sorted| - 1];
      FilesCollected(files, front, first);
      assert FileEntries(files, sorted) == FileEntries(files, front) + [Entry(last, files[last])];
      assert [first] + FileEntries(files, sorted) == [first] + FileEntries(files, front) + [Entry(last, files[last])];
      FilesOfSnoc([first] + FileEntries(files, front), Entry(last, files[last]));
      assert sorted == front + [last];
      assert Part_(files, sorted) == Part_(files, front)[last := files[last]];
    }
  }

  lemma ArchiveFiles(first: Entry, files: Files)
    requires first.name == MANIFEST && MANIFEST !in files
    ensures FilesOf(Packed(first, files)) == files[MANIFEST := first.content]
    ensures FilesOf(Packed(first, files)) - {MANIFEST} == files
  {
    var sorted := StringOrder.SortedKeys(files.Keys);
    NamesOfFiles(files);
    FilesCollected(files, sorted, first);
    assert Part_(files, sorted) == files;
  }

  // ----- the manifest -----

  lemma SignedParts(c: Codec, names: seq<string>, d: CardDefinition, keyId: string, key: int)
    requires Names(names)
    ensures var m := Signed(c, names, d, keyId, key);
            && Get(m, names[KEY_ID]) == Some(Text(keyId))
            && Get(m, names[SIGNATURE])
               == Some(Text(c.sign(key, Print(c.printable, Map(Unsigned(c, names, d, keyId))))))
            && m - {names[SIGNATURE]} == Unsigned(c, names, d, keyId)
            && Unsigned(c, names, d, keyId) - {names[KEY_ID]} == Encode(c, names, d)
            && (forall k :: k in Unsigned(c, names, d, keyId) ==> k in m && m[k] == Unsigned(c, names, d, keyId)[k])
            && (forall k :: k in Encode(c, names, d) ==> k in m && m[k] == Encode(c, names, d)[k])
  {
    EncodedKeys(c, names, d);
    assert names[SIGNATURE] !in names[..DEFINED] && names[KEY_ID] !in names[..DEFINED];
  }

  lemma PartsLegal(p: Printable, m: Fields, part: Fields)
    requires Legal(p, Map(m)) && forall k :: k in part ==> k in m && part[k] == m[k]
    ensures Legal(p, Map(part))
  {
  }

  /** A manifest whose signature holds checks out up to decoding, which is left to the definition. */
  lemma FieldsVerify(c: Codec, names: seq<string>, m: Fields, unsigned: Fields, plain: Fields, keyId: string,
                     signature: string, trusted: map<string, int>)
    requires |names| == 20 && !T.Blank(keyId) && keyId in trusted
    requires Get(m, names[KEY_ID]) == Some(Text(keyId)) && Get(m, names[SIGNATURE]) == Some(Text(signature))
    requires m - {names[SIGNATURE]} == unsigned && unsigned - {names[KEY_ID]} == plain
    requires Printable_(Map(unsigned)) && c.verify(trusted[keyId], Print(c.printable, Map(unsigned)), signature)
    requires Read(true, Print(c.printable, Map(plain))) == Some((Map(plain), ""))
    ensures VerifyFields(c, names, m, trusted) ==
            var read := Decode(c, names, plain);
            if read.None? || !DefinitionOk(read.value) then None else Some((read.value, keyId))
  {
  }

  lemma ManifestVerifies(c: Codec, names: seq<string>, d: CardDefinition, keyId: string, key: int,
                         trusted: map<string, int>)
    requires Names(names) && Ideal(c) && Floats(c, d)
    requires !T.Blank(keyId) && keyId in trusted && trusted[keyId] == c.publicOf(key)
    requires Legal(c.printable, Map(Signed(c, names, d, keyId, key)))
    ensures VerifyFields(c, names, Signed(c, names, d, keyId, key), trusted) ==
            var read := Decode(c, names, Encode(c, names, d));
            if read.None? || !DefinitionOk(read.value) then None else Some((read.value, keyId))
  {
    var m, unsigned, plain := Signed(c, names, d, keyId, key), Unsigned(c, names, d, keyId), Encode(c, names, d);
    var signature := c.sign(key, Print(c.printable, Map(unsigned)));
    SignedParts(c, names, d, keyId, key);
    SignedPrints(c, names, d, keyId, key);
    DefinitionPrints(c, names, d);
    PartsLegal(c.printable, m, plain);
    JsonIffLegal(c.printable, Map(plain));
    SignatureHolds(c, key, Print(c.printable, Map(unsigned)));
    FieldsVerify(c, names, m, unsigned, plain, keyId, signature, trusted);
  }

  lemma SignatureHolds(c: Codec, key: int, message: string)
    requires Ideal(c)
    ensures c.verify(c.publicOf(key), message, c.sign(key, message))
  {
  }

  /** A manifest is read if it is not too long and its texts are JSON's, and then its fields are checked. */
  lemma ManifestReads(c: Codec, names: seq<string>, m: Fields, trusted: map<string, int>)
    requires |names| == 20 && Ideal(c) && Printable_(Map(m))
    ensures var manifest := c.encode(Print(c.printable, Map(m)));
            VerifyManifest(c, names, manifest, trusted) ==
            if |manifest| <= MAX_MANIFEST_BYTES && Legal(c.printable, Map(m)) then VerifyFields(c, names, m, trusted)
            else None
  {
    JsonIffLegal(c.printable, Map(m));
    FirstChar(c.printable, Map(m));
  }

  /** The signed manifest is legal exactly if the definition's texts and the key id are. */
  lemma SignedLegal(c: Codec, names: seq<string>, d: CardDefinition, keyId: string, key: int)
    requires Names(names) && Ideal(c)
    ensures Legal(c.printable, Map(Signed(c, names, d, keyId, key))) <==>
              DefinitionLegal(c.printable, d) && AllLegal(c.printable, keyId)
  {
    var m, plain := Signed(c, names, d, keyId, key), Encode(c, names, d);
    SignedParts(c, names, d, keyId, key);
    EncodedLegal(c, names, d);
    PlainIsLegal(c.printable, names[KEY_ID]);
    PlainIsLegal(c.printable, names[SIGNATURE]);
    if Legal(c.printable, Map(m)) {
      PartsLegal(c.printable, m, plain);
      assert Legal(c.printable, m[names[KEY_ID]]);
    } else {
      var k :| k in m && !(AllLegal(c.printable, k) && Legal(c.printable, m[k]));
      assert k in plain || k == names[KEY_ID] || k == names[SIGNATURE];
    }
  }

  // ----- files and sources -----

  lemma StampedMatch(c: Codec, d: CardDefinition, files: Files)
    ensures FilesMatch(c, Stamped(c, d, files).files, files)
  {
    NamesOfFiles(files);
  }

  /** There is one set of sources for a definition and its files. */
  lemma SourcesUnique(c: Codec, d: CardDefinition, files: Files, a: Sources, b: Sources)
    requires SourcesOk(c, d, files) && AreSources(c, d, files, a) && AreSources(c, d, files, b)
    ensures a == b
  {
    if d.runtime != "native" {
      forall out | out in a ensures out in b && a[out] == b[out] {
        var n :| n in files && IsSource(n) && OutputName(n) == Some(out);
      }
      forall out | out in b ensures out in a {
        var n :| n in files && IsSource(n) && OutputName(n) == Some(out);
      }
    }
  }

  // ----- the round trip -----

  /** Every text, path and the key id are quoted with escapes that JSON has. */
  predicate TextsOk(p: Printable, d: CardDefinition, files: Files, keyId: string)
  {
    DefinitionLegal(p, d.(files := [])) && AllLegal(p, keyId) && forall n :: n in files ==> AllLegal(p, n)
  }

  /** The reader's limits on the manifest, which Build does not check. */
  ghost predicate ManifestFits(c: Codec, names: seq<string>, d: CardDefinition, files: Files, keyId: string, key: int)
    requires |names| == 20
  {
    var manifest := c.encode(ManifestText(c, names, Stamped(c, d, files), keyId, key));
    |manifest| <= MAX_MANIFEST_BYTES && |manifest| + Json.Total(Sizes(files)) <= MAX_EXPANDED_BYTES
  }

  /** Every file, and the state schema version, below a million. */
  predicate Small(d: CardDefinition, files: Files)
  {
    d.stateSchemaVersion < EXPONENT_FROM && forall n :: n in files ==> |files[n]| < EXPONENT_FROM
  }

  /** Exactly what decides whether a built artifact can be read again. */
  ghost predicate Readable(c: Codec, names: seq<string>, d: CardDefinition, files: Files, keyId: string, key: int)
    requires |names| == 20
  {
    && Small(d, files) && TextsOk(c.printable, d, files, keyId) && ManifestFits(c, names, d, files, keyId, key)
    && MANIFEST !in files && SourcesOk(c, d, files)
  }

  lemma StampedLegal(c: Codec, d: CardDefinition, files: Files)
    requires Ideal(c)
    ensures DefinitionLegal(c.printable, Stamped(c, d, files)) <==>
              DefinitionLegal(c.printable, d.(files := [])) && forall n :: n in files ==> AllLegal(c.printable, n)
  {
    var s, plain, sorted := Stamped(c, d, files), d.(files := []), StringOrder.SortedKeys(files.Keys);
    assert forall n :: n in files ==> n in sorted;
    assert forall i :: 0 <= i < DEFINED && i != 16 ==>
        (FieldTextsLegal(c.printable, s, i) <==> FieldTextsLegal(c.printable, plain, i));
    assert FieldTextsLegal(c.printable, s, 16) <==> forall n :: n in files ==> AllLegal(c.printable, n) by {
      StampedPathsLegal(c, s.files, files, sorted);
    }
  }

  lemma StampedPathsLegal(c: Codec, listed: seq<CardFile>, files: Files, sorted: seq<string>)
    requires Ideal(c) && (forall n :: n in sorted <==> n in files) && listed == CardFiles(c, files, sorted)
    ensures (forall k :: 0 <= k < |listed| ==>
            AllLegal(c.printable, listed[k].path) && AllLegal(c.printable, listed[k].sha))
            <==> forall n :: n in files ==> AllLegal(c.printable, n)
  {
    forall k | 0 <= k < |listed|
      ensures listed[k].path == sorted[k] && sorted[k] in files && AllLegal(c.printable, listed[k].sha)
    {
      assert sorted[k] in sorted;
    }
    if n :| n in files && !AllLegal(c.printable, n) {
      assert n in sorted;
      var k :| 0 <= k < |sorted| && sorted[k] == n;
      assert listed[k].path == n;
    }
  }

  /** Parsing an archive that passes the first checks is verifying its manifest and comparing. */
  lemma ParseUnfolds(c: Codec, zip: ZipLength, names: seq<string>, first: Entry, files: Files, e: Expectation,
                     trusted: map<string, int>, r: Option<BaseArtifact>)
    requires |names| == 20 && first.name == MANIFEST && MANIFEST !in files && EntriesOk(zip, Packed(first, files))
    requires Parses(c, zip, names, Packed(first, files), e, trusted, r)
    ensures var verified := VerifyManifest(c, names, first.content, trusted);
            && (r.Some? <==>
                  verified.Some? && verified.value.0.cardId == e.cardId && verified.value.0.versionId == e.versionId
                  && verified.value.1 == e.keyId && FilesMatch(c, verified.value.0.files, files)
                  && SourcesOk(c, verified.value.0, files))
            && (r.Some? ==> r.value.definition == verified.value.0
                            && AreSources(c, verified.value.0, files, r.value.sources))
  {
    ArchiveFiles(first, files);
  }

  /** The manifest of a definition checks out exactly if it is short enough, legal, and decodes again. */
  lemma VerifiedIs(c: Codec, names: seq<string>, d: CardDefinition, keyId: string, key: int, trusted: map<string, int>)
    requires Names(names) && Ideal(c) && Floats(c, d)
    requires !T.Blank(keyId) && keyId in trusted && trusted[keyId] == c.publicOf(key)
    ensures var manifest := c.encode(ManifestText(c, names, d, keyId, key));
            var read := Decode(c, names, Encode(c, names, d));
            VerifyManifest(c, names, manifest, trusted) ==
            if |manifest| <= MAX_MANIFEST_BYTES && DefinitionLegal(c.printable, d) && AllLegal(c.printable, keyId)
               && read.Some? && DefinitionOk(read.value) then Some((read.value, keyId)) else None
  {
    var m := Signed(c, names, d, keyId, key);
    SignedPrints(c, names, d, keyId, key);
    ManifestReads(c, names, m, trusted);
    SignedLegal(c, names, d, keyId, key);
    if Legal(c.printable, Map(m)) {
      ManifestVerifies(c, names, d, keyId, key, trusted);
    }
  }

  lemma SourcesOfStamped(c: Codec, d: CardDefinition, files: Files)
    ensures SourcesOk(c, Stamped(c, d, files), files) <==> SourcesOk(c, d, files)
    ensures forall x :: AreSources(c, Stamped(c, d, files), files, x) <==> AreSources(c, d, files, x)
  {
  }

  lemma BuildableParts(c: Codec, zip: ZipLength, names: seq<string>, d: CardDefinition, files: Files, keyId: string,
                       key: int)
    requires |names| == 20 && Buildable(c, zip, names, d, files, keyId, key)
    ensures d.formatVersion == 1 && d.stateSchemaVersion >= 1 && DefinitionOk(Stamped(c, d, files)) && !T.Blank(keyId)
    ensures |files| <= 512 && forall n :: n in files ==> SafePath(n) && |files[n]| <= MAX_FILE_BYTES
    ensures zip(Entries(c, names, d, files, keyId, key)) <= MAX_ARCHIVE_BYTES
  {
  }

  /** What verifying the manifest of a built artifact comes to. */
  lemma BuiltVerifies(c: Codec, names: seq<string>, d: CardDefinition, files: Files, keyId: string, key: int,
                      trusted: map<string, int>)
    requires Names(names) && Ideal(c) && Floats(c, d)
    requires d.formatVersion == 1 && d.stateSchemaVersion >= 1 && DefinitionOk(Stamped(c, d, files))
    requires !T.Blank(keyId) && keyId in trusted && trusted[keyId] == c.publicOf(key)
    ensures var s := Stamped(c, d, files);
            var manifest := c.encode(ManifestText(c, names, s, keyId, key));
            VerifyManifest(c, names, manifest, trusted) ==
            if |manifest| <= MAX_MANIFEST_BYTES && TextsOk(c.printable, d, files, keyId) && Small(d, files)
            then Some((s, keyId)) else None
  {
    var s := Stamped(c, d, files);
    assert Floats(c, s);
    VerifiedIs(c, names, s, keyId, key, trusted);
    StampedLegal(c, d, files);
    DecodesIffSmall(c, names, d, files);
  }

  /** Past the first checks, everything is left to the manifest and the sources. */
  lemma PassedParses(c: Codec, zip: ZipLength, names: seq<string>, d: CardDefinition, files: Files, keyId: string,
                     key: int, first: Entry, trusted: map<string, int>, r: Option<BaseArtifact>)
    requires Names(names) && Ideal(c) && Floats(c, d) && keyId in trusted && trusted[keyId] == c.publicOf(key)
    requires d.formatVersion == 1 && d.stateSchemaVersion >= 1 && DefinitionOk(Stamped(c, d, files)) && !T.Blank(keyId)
    requires first == Entry(MANIFEST, c.encode(ManifestText(c, names, Stamped(c, d, files), keyId, key)))
    requires MANIFEST !in files && EntriesOk(zip, Packed(first, files))
    requires Parses(c, zip, names, Packed(first, files), Expectation(d.cardId, d.versionId, keyId), trusted, r)
    ensures r.Some? <==>
              && |first.content| <= MAX_MANIFEST_BYTES && TextsOk(c.printable, d, files, keyId) && Small(d, files)
              && SourcesOk(c, d, files)
    ensures r.Some? ==> r.value.definition == Stamped(c, d, files) && AreSources(c, d, files, r.value.sources)
  {
    ParseUnfolds(c, zip, names, first, files, Expectation(d.cardId, d.versionId, keyId), trusted, r);
    BuiltVerifies(c, names, d, files, keyId, key, trusted);
    StampedMatch(c, d, files);
    SourcesOfStamped(c, d, files);
  }

  lemma ReadableIs(c: Codec, names: seq<string>, d: CardDefinition, files: Files, keyId: string, key: int, size: nat)
    requires |names| == 20 && size == |c.encode(ManifestText(c, names, Stamped(c, d, files), keyId, key))|
    ensures Readable(c, names, d, files, keyId, key) <==>
              && size <= MAX_MANIFEST_BYTES && TextsOk(c.printable, d, files, keyId) && Small(d, files)
              && size + Json.Total(Sizes(files)) <= MAX_EXPANDED_BYTES && MANIFEST !in files && SourcesOk(c, d, files)
  {
  }

  lemma CheckedParses(c: Codec, zip: ZipLength, names: seq<string>, d: CardDefinition, files: Files, keyId: string,
                      key: int, first: Entry, trusted: map<string, int>, r: Option<BaseArtifact>)
    requires Names(names) && Ideal(c) && Floats(c, d) && keyId in trusted && trusted[keyId] == c.publicOf(key)
    requires d.formatVersion == 1 && d.stateSchemaVersion >= 1 && DefinitionOk(Stamped(c, d, files)) && !T.Blank(keyId)
    requires |files| <= 512 && zip(Packed(first, files)) <= MAX_ARCHIVE_BYTES
    requires forall n :: n in files ==> SafePath(n) && |files[n]| <= MAX_FILE_BYTES
    requires first == Entry(MANIFEST, c.encode(ManifestText(c, names, Stamped(c, d, files), keyId, key)))
    requires Parses(c, zip, names, Packed(first, files), Expectation(d.cardId, d.versionId, keyId), trusted, r)
    ensures r.Some? <==> Readable(c, names, d, files, keyId, key)
    ensures r.Some? ==> r.value.definition == Stamped(c, d, files) && AreSources(c, d, files, r.value.sources)
  {
    EntriesPass(zip, first, files);
    ReadableIs(c, names, d, files, keyId, key, |first.content|);
    if EntriesOk(zip, Packed(first, files)) {
      PassedParses(c, zip, names, d, files, keyId, key, first, trusted, r);
    }
  }

  /**
   What Build accepts comes back, as the definition with its file list and exactly the allowed sources,
   if and only if its files and state version are below a million, its texts have escapes that JSON has,
   the manifest is within the reader's limits, no file takes the manifest's name, and the sources are allowed.
   */
  lemma BuiltParses(c: Codec, zip: ZipLength, names: seq<string>, d: CardDefinition, files: Files,
                    keyId: string, key: int, trusted: map<string, int>, r: Option<BaseArtifact>)
    requires Names(names) && Ideal(c) && Floats(c, d) && Buildable(c, zip, names, d, files, keyId, key)
    requires keyId in trusted && trusted[keyId] == c.publicOf(key)
    requires Parses(c, zip, names, Entries(c, names, d, files, keyId, key),
                    Expectation(d.cardId, d.versionId, keyId), trusted, r)
    ensures r.Some? <==> Readable(c, names, d, files, keyId, key)
    ensures r.Some? ==> r.value.definition == Stamped(c, d, files) && AreSources(c, d, files, r.value.sources)
  {
    var first := Entry(MANIFEST, c.encode(ManifestText(c, names, Stamped(c, d, files), keyId, key)));
    assert Entries(c, names, d, files, keyId, key) == Packed(first, files);
    BuildableParts(c, zip, names, d, files, keyId, key);
    CheckedParses(c, zip, names, d, files, keyId, key, first, trusted, r);
  }

  /** Decoding needs each of its fields. */
  lemma DecodeNeeds(c: Codec, names: seq<string>, m: Fields)
    requires |names| == 20
    ensures Decode(c, names, m).Some? ==> ReadInt(Get(m, names[6])).Some? && ReadFiles(Get(m, names[16])).Some?
  {
  }

  lemma LargeStateFails(c: Codec, names: seq<string>, s: CardDefinition)
    requires Names(names) && s.stateSchemaVersion >= EXPONENT_FROM
    ensures Decode(c, names, Encode(c, names, s)).None?
  {
    DecodeNeeds(c, names, Encode(c, names, s));
    FieldAt(c, names, s, 6);
    StateUnreadable(Get(Encode(c, names, s), names[6]), s.stateSchemaVersion);
  }

  lemma FilesUnreadable(t: Option<Tree>, files: seq<CardFile>, i: nat)
    requires i < |files| && files[i].size >= EXPONENT_FROM && t == Some(FileTrees(files))
    ensures ReadFiles(t).None?
  {
    LargeFileFails(files, i);
  }

  lemma StateUnreadable(t: Option<Tree>, n: int)
    requires n >= EXPONENT_FROM && t == Some(Integer(n))
    ensures ReadInt(t).None?
  {
    LargeIntegerFails(n);
  }

  lemma LargeFilesFail(c: Codec, names: seq<string>, s: CardDefinition, i: nat)
    requires Names(names) && i < |s.files| && s.files[i].size >= EXPONENT_FROM
    ensures Decode(c, names, Encode(c, names, s)).None?
  {
    DecodeNeeds(c, names, Encode(c, names, s));
    FieldAt(c, names, s, 16);
    FilesUnreadable(Get(Encode(c, names, s), names[16]), s.files, i);
  }

  lemma StampedSizes(c: Codec, d: CardDefinition, files: Files)
    ensures var s, sorted := Stamped(c, d, files), StringOrder.SortedKeys(files.Keys);
            |s.files| == |sorted| && forall i :: 0 <= i < |sorted| ==>
              sorted[i] in files && s.files[i].size == |files[sorted[i]]|
  {
    NamesOfFiles(files);
  }

  lemma DecodesIffSmall(c: Codec, names: seq<string>, d: CardDefinition, files: Files)
    requires Names(names) && Ideal(c) && Floats(c, d) && d.formatVersion == 1 && d.stateSchemaVersion >= 1
    ensures var s := Stamped(c, d, files);
            Decode(c, names, Encode(c, names, s)) == if Small(d, files) then Some(s) else None
  {
    var s, sorted := Stamped(c, d, files), StringOrder.SortedKeys(files.Keys);
    StampedSizes(c, d, files);
    if Small(d, files) {
      DecodesEncoded(c, names, s);
    } else if d.stateSchemaVersion >= EXPONENT_FROM {
      LargeStateFails(c, names, s);
    } else {
      var n :| n in files && |files[n]| >= EXPONENT_FROM;
      assert n in sorted;
      var i :| 0 <= i < |sorted| && sorted[i] == n;
      LargeFilesFail(c, names, s, i);
    }
  }
}
