/**
 What a base artifact is trusted for: whatever is accepted carries a signature that verifies under the
 trusted key for all its other fields, and so, unless that signature is forged or two contents share a
 hash, it is one of the artifacts that were built.
 */
module ArtifactTrust {
  import opened Prelude
  import opened CanonicalJson
  import opened CardManifest
  import opened ArtifactModel
  import opened ArtifactRoundTrip
  import StringOrder

  /** The content is one JSON object with these fields, and nothing after it. */
  predicate Manifests(c: Codec, content: Bytes, fields: Fields)
  {
    c.decode(content).Some? && Read(true, c.decode(content).value) == Some((Map(fields), ""))
  }

  /** The fields that are signed, as a map. */
  function Unsealed(names: seq<string>, fields: Fields): Fields
    requires |names| == 20
  {
    map k | k in fields && k != names[SIGNATURE] :: fields[k]
  }

  /** The text that is signed: all fields but the signature, in canonical form. */
  function SignedText(c: Codec, names: seq<string>, fields: Fields): string
    requires |names| == 20
  {
    Print(c.printable, Map(Unsealed(names, fields)))
  }

  /** The fields name this key id, and their signature verifies under this key. */
  predicate CarriesSignature(c: Codec, names: seq<string>, fields: Fields, keyId: string, publicKey: int)
    requires |names| == 20
  {
    && names[KEY_ID] in fields && fields[names[KEY_ID]] == Text(keyId)
    && names[SIGNATURE] in fields && fields[names[SIGNATURE]].Text?
    && c.verify(publicKey, SignedText(c, names, fields), fields[names[SIGNATURE]].text)
  }

  /** The archive has a manifest entry with these fields. */
  predicate HasManifest(c: Codec, archive: seq<Entry>, fields: Fields)
  {
    exists i :: 0 <= i < |archive| && archive[i].name == MANIFEST && Manifests(c, archive[i].content, fields)
  }

  /** Its manifest names the key, and its signature verifies under it for all its other fields. */
  ghost predicate SignedWith(c: Codec, names: seq<string>, archive: seq<Entry>, keyId: string, publicKey: int)
    requires |names| == 20
  {
    exists fields :: HasManifest(c, archive, fields) && CarriesSignature(c, names, fields, keyId, publicKey)
  }

  lemma {:induction false} FileIsEntry(entries: seq<Entry>, name: string)
    requires name in FilesOf(entries)
    ensures exists i :: 0 <= i < |entries| && entries[i].name == name && entries[i].content == FilesOf(entries)[name]
  {
    var n := |entries| - 1;
    if entries[n].name != name {
      FileIsEntry(entries[..n], name);
      var i :| 0 <= i < n && entries[..n][i].name == name && entries[..n][i].content == FilesOf(entries[..n])[name];
      assert entries[i].name == name;
    }
  }

  lemma FieldsAreSigned(c: Codec, names: seq<string>, fields: Fields, trusted: map<string, int>)
    requires |names| == 20 && VerifyFields(c, names, fields, trusted).Some?
    ensures var keyId := VerifyFields(c, names, fields, trusted).value.1;
            keyId in trusted && CarriesSignature(c, names, fields, keyId, trusted[keyId])
    ensures Printable_(Map(Unsealed(names, fields)))
  {
    assert fields - {names[SIGNATURE]} == Unsealed(names, fields);
  }

  lemma VerifiedIsSigned(c: Codec, names: seq<string>, content: Bytes, trusted: map<string, int>)
    requires |names| == 20 && VerifyManifest(c, names, content, trusted).Some?
    ensures c.decode(content).Some? && Read(true, c.decode(content).value).Some?
    ensures var read := Read(true, c.decode(content).value).value;
            && read.0.Map? && Manifests(c, content, read.0.fields)
            && VerifyManifest(c, names, content, trusted) == VerifyFields(c, names, read.0.fields, trusted)
  {
  }

  /** Whatever ParseBaseArtifact accepts names the expected key and is signed with it. */
  lemma AcceptedIsSigned(c: Codec, zip: ZipLength, names: seq<string>, archive: seq<Entry>, e: Expectation,
                         trusted: map<string, int>, r: Option<BaseArtifact>)
    requires Names(names) && Parses(c, zip, names, archive, e, trusted, r) && r.Some?
    ensures e.keyId in trusted
    ensures SignedWith(c, names, archive, e.keyId, trusted[e.keyId])
  {
    var content := FilesOf(archive)[MANIFEST];
    VerifiedIsSigned(c, names, content, trusted);
    var fields := Read(true, c.decode(content).value).value.0.fields;
    FieldsAreSigned(c, names, fields, trusted);
    FileIsEntry(archive, MANIFEST);
    assert HasManifest(c, archive, fields);
  }

  // ----- tampering -----

  /** Something that was built and signed. */
  datatype Made = Made(definition: CardDefinition, files: Files)

  predicate MadeOk(c: Codec, b: Made)
  {
    Floats(c, b.definition) && b.definition.formatVersion == 1 && b.definition.stateSchemaVersion >= 1
  }

  /** The fields over which Build signs. */
  function FieldsOf(c: Codec, names: seq<string>, keyId: string, b: Made): Fields
    requires |names| == 20
  {
    Unsigned(c, names, Stamped(c, b.definition, b.files), keyId)
  }

  /** A signature that verifies for a text nobody signed. */
  ghost predicate Forged(c: Codec, names: seq<string>, fields: Fields, keyId: string, publicKey: int, made: set<Made>)
    requires |names| == 20
  {
    && CarriesSignature(c, names, fields, keyId, publicKey)
    && forall b :: b in made ==> SignedText(c, names, fields) != Print(c.printable, Map(FieldsOf(c, names, keyId, b)))
  }

  /** The same signed text means the same fields. */
  lemma SameTextSameFields(c: Codec, names: seq<string>, fields: Fields, keyId: string, b: Made)
    requires Names(names) && Ideal(c) && MadeOk(c, b) && Printable_(Map(Unsealed(names, fields)))
    requires SignedText(c, names, fields) == Print(c.printable, Map(FieldsOf(c, names, keyId, b)))
    ensures Unsealed(names, fields) == FieldsOf(c, names, keyId, b)
  {
    assert Floats(c, Stamped(c, b.definition, b.files));
    SignedPrints(c, names, Stamped(c, b.definition, b.files), keyId, 0);
    PrintIsInjective(c.printable, Map(Unsealed(names, fields)), Map(FieldsOf(c, names, keyId, b)));
  }

  /** The definition is what all fields but the key id and the signature decode to. */
  lemma FieldsDecode(c: Codec, names: seq<string>, fields: Fields, trusted: map<string, int>, plain: Fields)
    requires |names| == 20 && VerifyFields(c, names, fields, trusted).Some?
    requires plain == Unsealed(names, fields) - {names[KEY_ID]} && Printable_(Map(plain))
    ensures Decode(c, names, plain) == Some(VerifyFields(c, names, fields, trusted).value.0)
  {
    assert fields - {names[SIGNATURE]} == Unsealed(names, fields);
    JsonIffLegal(c.printable, Map(plain));
  }

  lemma PlainFields(c: Codec, names: seq<string>, keyId: string, b: Made)
    requires Names(names)
    ensures FieldsOf(c, names, keyId, b) - {names[KEY_ID]} == Encode(c, names, Stamped(c, b.definition, b.files))
  {
    var plain := Encode(c, names, Stamped(c, b.definition, b.files));
    EncodedKeys(c, names, Stamped(c, b.definition, b.files));
    assert names[KEY_ID] !in plain by {
      assert names[KEY_ID] !in names[..DEFINED];
    }
  }

  lemma MadePrints(c: Codec, names: seq<string>, b: Made)
    requires Names(names) && Ideal(c) && MadeOk(c, b)
    ensures Printable_(Map(Encode(c, names, Stamped(c, b.definition, b.files))))
  {
    assert Floats(c, Stamped(c, b.definition, b.files));
    DefinitionPrints(c, names, Stamped(c, b.definition, b.files));
  }

  /** The fields of what was built decode to nothing else. */
  lemma MadeDecodes(c: Codec, names: seq<string>, fields: Fields, trusted: map<string, int>, keyId: string, b: Made)
    requires Names(names) && Ideal(c) && MadeOk(c, b) && VerifyFields(c, names, fields, trusted).Some?
    requires Unsealed(names, fields) == FieldsOf(c, names, keyId, b)
    ensures VerifyFields(c, names, fields, trusted).value.0 == Stamped(c, b.definition, b.files)
  {
    PlainFields(c, names, keyId, b);
    MadePrints(c, names, b);
    FieldsDecode(c, names, fields, trusted, Encode(c, names, Stamped(c, b.definition, b.files)));
    DecodesIffSmall(c, names, b.definition, b.files);
  }

  lemma WholeSet(part: set<string>, whole: set<string>)
    requires part <= whole && |part| == |whole|
    ensures part == whole
  {
    assert |whole - part| == 0;
  }

  predicate SameContent(c: Codec, a: Bytes, b: Bytes)
  {
    |a| == |b| && c.hash(a) == c.hash(b)
  }

  lemma ListedFile(c: Codec, b: Made, actual: Files, n: string)
    requires FilesMatch(c, Stamped(c, b.definition, b.files).files, actual) && n in b.files
    ensures n in actual && SameContent(c, actual[n], b.files[n])
  {
    var sorted := StringOrder.SortedKeys(b.files.Keys);
    NamesOfFiles(b.files);
    assert n in sorted;
    var i :| 0 <= i < |sorted| && sorted[i] == n;
    assert Stamped(c, b.definition, b.files).files[i] == CardFile(n, c.hash(b.files[n]), |b.files[n]|);
  }

  /** The list of what was built matches no other set of files. */
  lemma ListedFiles(c: Codec, b: Made, actual: Files)
    requires FilesMatch(c, Stamped(c, b.definition, b.files).files, actual)
    ensures actual.Keys == b.files.Keys && forall n :: n in b.files ==> SameContent(c, actual[n], b.files[n])
  {
    forall n | n in b.files ensures n in actual && SameContent(c, actual[n], b.files[n]) {
      ListedFile(c, b, actual, n);
    }
    NamesOfFiles(b.files);
    assert |b.files.Keys| == |b.files| && |actual.Keys| == |actual|;
    WholeSet(b.files.Keys, actual.Keys);
  }

  /** What was accepted is what was built: the same definition and the same files. */
  ghost predicate IsMade(c: Codec, archive: seq<Entry>, definition: CardDefinition, b: Made)
  {
    && definition == Stamped(c, b.definition, b.files)
    && FilesOf(archive).Keys == b.files.Keys + {MANIFEST} && MANIFEST !in b.files
    && forall n :: n in b.files ==> SameContent(c, FilesOf(archive)[n], b.files[n])
  }

  lemma FilesTell(c: Codec, archive: seq<Entry>, d: CardDefinition, b: Made)
    requires d == Stamped(c, b.definition, b.files)
    requires MANIFEST in FilesOf(archive) && FilesMatch(c, d.files, FilesOf(archive) - {MANIFEST})
    ensures IsMade(c, archive, d, b)
  {
    var all, others := FilesOf(archive), FilesOf(archive) - {MANIFEST};
    ListedFiles(c, b, others);
    assert all.Keys == others.Keys + {MANIFEST};
    assert forall n :: n in others ==> others[n] == all[n];
  }

  lemma SignedTextTells(c: Codec, names: seq<string>, archive: seq<Entry>, fields: Fields, trusted: map<string, int>,
                        keyId: string, d: CardDefinition, b: Made)
    requires Names(names) && Ideal(c) && MadeOk(c, b) && Printable_(Map(Unsealed(names, fields)))
    requires VerifyFields(c, names, fields, trusted) == Some((d, keyId))
    requires SignedText(c, names, fields) == Print(c.printable, Map(FieldsOf(c, names, keyId, b)))
    requires MANIFEST in FilesOf(archive) && FilesMatch(c, d.files, FilesOf(archive) - {MANIFEST})
    ensures IsMade(c, archive, d, b)
  {
    SameTextSameFields(c, names, fields, keyId, b);
    MadeDecodes(c, names, fields, trusted, keyId, b);
    assert d == Stamped(c, b.definition, b.files);
    FilesTell(c, archive, d, b);
  }

  lemma AcceptedFacts(c: Codec, zip: ZipLength, names: seq<string>, archive: seq<Entry>, e: Expectation,
                      trusted: map<string, int>, r: Option<BaseArtifact>)
    requires |names| == 20 && Parses(c, zip, names, archive, e, trusted, r) && r.Some?
    ensures MANIFEST in FilesOf(archive)
    ensures VerifyManifest(c, names, FilesOf(archive)[MANIFEST], trusted) == Some((r.value.definition, e.keyId))
    ensures FilesMatch(c, r.value.definition.files, FilesOf(archive) - {MANIFEST})
  {
  }

  /**
   Whatever was built and signed with the trusted key, and whoever wrote the archive: if it is accepted,
   then its signature is forged, or it has the definition and, name by name, the files of something built.
   */
  lemma AcceptedWasMade(c: Codec, zip: ZipLength, names: seq<string>, archive: seq<Entry>, e: Expectation,
                        trusted: map<string, int>, made: set<Made>, r: Option<BaseArtifact>)
    requires Names(names) && Ideal(c) && forall b :: b in made ==> MadeOk(c, b)
    requires Parses(c, zip, names, archive, e, trusted, r) && r.Some?
    ensures e.keyId in trusted
    ensures (exists fields :: HasManifest(c, archive, fields)
                              && Forged(c, names, fields, e.keyId, trusted[e.keyId], made))
            || exists b :: b in made && IsMade(c, archive, r.value.definition, b)
  {
    AcceptedFacts(c, zip, names, archive, e, trusted, r);
    var content := FilesOf(archive)[MANIFEST];
    VerifiedIsSigned(c, names, content, trusted);
    var fields := Read(true, c.decode(content).value).value.0.fields;
    FieldsAreSigned(c, names, fields, trusted);
    FileIsEntry(archive, MANIFEST);
    assert HasManifest(c, archive, fields);
    if !Forged(c, names, fields, e.keyId, trusted[e.keyId], made) {
      var b :| b in made && SignedText(c, names, fields) == Print(c.printable, Map(FieldsOf(c, names, e.keyId, b)));
      SignedTextTells(c, names, archive, fields, trusted, e.keyId, r.value.definition, b);
    }
  }

  /** No two of these contents have the same hash. */
  predicate Collides(c: Codec, a: Bytes, b: Bytes)
  {
    a != b && c.hash(a) == c.hash(b)
  }

  lemma SameFiles(c: Codec, archive: seq<Entry>, definition: CardDefinition, b: Made)
    requires IsMade(c, archive, definition, b)
    requires forall n :: n in b.files && n in FilesOf(archive) ==> !Collides(c, FilesOf(archive)[n], b.files[n])
    ensures FilesOf(archive) - {MANIFEST} == b.files
  {
    forall n | n in b.files ensures n in FilesOf(archive) && FilesOf(archive)[n] == b.files[n] {
      assert n in FilesOf(archive).Keys;
    }
  }

  /** So an archive that differs from everything built in a field or a file is refused, or breaks a primitive. */
  lemma TamperedIsRefused(c: Codec, zip: ZipLength, names: seq<string>, archive: seq<Entry>, e: Expectation,
                          trusted: map<string, int>, made: set<Made>, r: Option<BaseArtifact>)
    requires Names(names) && Ideal(c) && forall b :: b in made ==> MadeOk(c, b)
    requires Parses(c, zip, names, archive, e, trusted, r) && e.keyId in trusted
    requires forall fields :: HasManifest(c, archive, fields) ==>
               !Forged(c, names, fields, e.keyId, trusted[e.keyId], made)
    requires forall b, n :: b in made && n in b.files && n in FilesOf(archive) ==>
               !Collides(c, FilesOf(archive)[n], b.files[n])
    requires forall b :: b in made ==>
               r.None? || r.value.definition != Stamped(c, b.definition, b.files)
               || FilesOf(archive) - {MANIFEST} != b.files
    ensures r.None?
  {
    if r.Some? {
      AcceptedWasMade(c, zip, names, archive, e, trusted, made, r);
      var b :| b in made && IsMade(c, archive, r.value.definition, b);
      SameFiles(c, archive, r.value.definition, b);
    }
  }
}
