/**
 The pipeline and the archives together: when runs put the archives they build, every published
 version loads an archive built for it, and whether it can be iterated is decided by its own card.
 */
module PublishedCards {
  import opened Prelude
  import opened ArtifactModel
  import opened CardIteration
  import opened CardManifest
  import ArtifactRoundTrip
  import J = JobModel
  import P = PublishModel
  import Pipeline
  import PipelineArchives
  import PipelineTheorems

  /** The key pair, the trusted keys, and zip files as bytes. */
  datatype Setting = Setting(
    c: Codec,
    names: seq<string>,
    pack: seq<Entry> -> Bytes,
    unpack: Bytes -> seq<Entry>,
    zip: ZipLength,
    keyId: string,
    key: int,
    trusted: map<string, int>)

  /** Reading a zip file gives the entries that were written. */
  ghost predicate SettingOk(w: Setting)
  {
    && Ideal(w.c) && Names(w.names) && SizesFloat(w.c, None)
    && w.keyId in w.trusted && w.trusted[w.keyId] == w.c.publicOf(w.key)
    && forall entries: seq<Entry> :: w.unpack(w.pack(entries)) == entries && |w.pack(entries)| == w.zip(entries)
  }

  /** What one run made: its publication, report, agent's answer, base and files. */
  datatype Making = Making(
    publication: Publication,
    report: Bytes,
    generated: Generated,
    base: Option<CardDefinition>,
    files: Files)

  function Written(m: Making): CardDefinition
  {
    DefinitionFor(m.publication, m.generated, m.base)
  }

  /** The archive is the one Build makes of the run's card, under the reserved card and version. */
  ghost predicate BuiltFor(w: Setting, reserved: J.Publication, archive: Bytes, m: Making)
    requires |w.names| == 20
  {
    && m.publication.cardId == reserved.cardId && m.publication.versionId == reserved.versionId
    && PublicationOk(m.publication) && GeneratedOk(w.c, m.generated) && BaseAgrees(m.generated, m.base)
    && SizesFloat(w.c, m.base) && AreFiles(w.c, m.report, m.generated, m.files)
    && Buildable(w.c, w.zip, w.names, Written(m), m.files, w.keyId, w.key)
    && archive == w.pack(Entries(w.c, w.names, Written(m), m.files, w.keyId, w.key))
  }

  /** Every archive put along a run of the system was built for the version it is put under. */
  ghost predicate PutAsBuilt(w: Setting, given: set<PipelineArchives.Handed>)
    requires |w.names| == 20
  {
    forall g :: g in given ==> exists m :: BuiltFor(w, g.0, g.1, m)
  }

  /** What decides whether the card can be read again as a base. */
  ghost predicate Iterable(w: Setting, m: Making)
    requires |w.names| == 20
  {
    && ArtifactRoundTrip.Small(Written(m), m.files) && SourcesFit(w.c, m.generated)
    && ArtifactRoundTrip.TextsOk(w.c.printable, Written(m), m.files, w.keyId)
    && ArtifactRoundTrip.ManifestFits(w.c, w.names, Written(m), m.files, w.keyId, w.key)
  }

  /** Parsing the archive as a base succeeds exactly if its card allows it, and returns the agent's sources. */
  ghost predicate ComesBack(w: Setting, reserved: J.Publication, archive: Bytes, m: Making)
    requires |w.names| == 20
  {
    var e := Expectation(reserved.cardId, reserved.versionId, w.keyId);
    forall r :: Parses(w.c, w.zip, w.names, w.unpack(archive), e, w.trusted, r) ==>
      (r.Some? <==> Iterable(w, m)) && (r.Some? ==> r.value.sources == SourcesOf(m.generated))
  }

  lemma BuiltComesBack(w: Setting, reserved: J.Publication, archive: Bytes, m: Making)
    requires SettingOk(w) && BuiltFor(w, reserved, archive, m)
    ensures ComesBack(w, reserved, archive, m)
  {
    var e := Expectation(reserved.cardId, reserved.versionId, w.keyId);
    forall r | Parses(w.c, w.zip, w.names, w.unpack(archive), e, w.trusted, r)
      ensures (r.Some? <==> Iterable(w, m)) && (r.Some? ==> r.value.sources == SourcesOf(m.generated))
    {
      PublishedComesBack(w.c, w.zip, w.names, m.publication, m.report, m.generated, m.base, m.files, w.keyId, w.key,
                         w.trusted, r);
    }
  }

  ghost predicate MadeByOneRun(w: Setting, reserved: J.Publication, archive: Bytes)
    requires |w.names| == 20
  {
    exists m :: BuiltFor(w, reserved, archive, m) && ComesBack(w, reserved, archive, m)
  }

  lemma PutIsMade(w: Setting, given: set<PipelineArchives.Handed>, reserved: J.Publication, archive: Bytes)
    requires SettingOk(w) && PutAsBuilt(w, given) && (reserved, archive) in given
    ensures MadeByOneRun(w, reserved, archive)
  {
    var m :| BuiltFor(w, reserved, archive, m);
    BuiltComesBack(w, reserved, archive, m);
  }

  /**
   In every reachable state, whatever failed or was overtaken on the way: the owner of a version loads
   an archive that one run built for it, and that run's card alone decides whether it can be iterated.
   */
  lemma VersionsAreBuilt(w: Setting, hash: P.Hash, actions: seq<Pipeline.Action>, v: string)
    requires SettingOk(w) && PutAsBuilt(w, PipelineArchives.Given(hash, Pipeline.EMPTY, actions))
    requires v in PipelineTheorems.Reached(hash, actions).versions
    ensures var st := PipelineTheorems.Reached(hash, actions);
            var card := st.versions[v].cardId;
            var loaded := P.Load(hash, st.objects, st.versions, st.versions[v].userId, card, v, P.MAX_ARCHIVE_BYTES);
            loaded.Ok? && MadeByOneRun(w, J.Publication(card, v), loaded.value)
  {
    PipelineArchives.LoadedWasPut(hash, actions, v);
    var st := PipelineTheorems.Reached(hash, actions);
    var card := st.versions[v].cardId;
    var archive := P.Load(hash, st.objects, st.versions, st.versions[v].userId, card, v, P.MAX_ARCHIVE_BYTES).value;
    PutIsMade(w, PipelineArchives.Given(hash, Pipeline.EMPTY, actions), J.Publication(card, v), archive);
  }
}
