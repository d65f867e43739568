/**
 The card a run publishes and the next iteration that starts from it: the files and the definition
 the worker puts together, and what the agent is handed back when the version becomes a base.
 */
module CardIteration {
  import opened Prelude
  import opened Quoting
  import opened CanonicalJson
  import opened CardManifest
  import opened ArtifactModel
  import opened ArtifactRoundTrip
  import Json
  import T = Text

  const REPORT := "reports/validation.json"
  const WEB_PAYLOAD := "payload/web/"
  const WEB_NAMES := {"src/card.tsx", "src/card.css", "src/card.test.tsx"}
  const MAX_ENVELOPE_FILE_BYTES: nat := 256 * 1024
  const MAX_LINE_BYTES: nat := 32 * 1024
  const MAX_TITLE: nat := 120

  /** The catalog's limit on a native document. */
  const MAX_CONTENT_BYTES: nat := 2 * 1024 * 1024

  /** What the agent produced: a native document, or the sandbox's output and the sources it came from. */
  datatype Generated = NativeCard(content: string) | WebCard(output: Files, sources: Sources)

  function RuntimeOf(g: Generated): string
  {
    if g.NativeCard? then "native" else "web"
  }

  function SourcesOf(g: Generated): Sources
  {
    match g
    case NativeCard(content) => map[NATIVE_ENTRY := content]
    case WebCard(_, sources) => sources
  }

  // ----- what the agent lets through -----

  predicate SourceText(c: Codec, s: string)
  {
    |c.encode(s)| <= MAX_SOURCE_BYTES && 0 !in c.encode(s)
  }

  predicate LinesOk(c: Codec, lines: seq<string>)
  {
    forall i :: 0 <= i < |lines| ==> |c.encode(lines[i])| <= MAX_LINE_BYTES
  }

  /** validWebSourceText. */
  predicate WebTextOk(c: Codec, s: string)
  {
    0 !in c.encode(s) && LinesOk(c, T.Split(s, '\n'))
  }

  function TextSizes(c: Codec, sources: Sources): map<string, nat>
  {
    map n | n in sources :: |c.encode(sources[n])|
  }

  predicate WebSourceOk(c: Codec, name: string, source: string, limit: nat)
  {
    name in WEB_NAMES && |c.encode(source)| <= limit && WebTextOk(c, source)
  }

  /** Allowed names, each with text of a limited size, and all of it no more than a card's sources may be. */
  ghost predicate WebTextsOk(c: Codec, sources: Sources, limit: nat)
  {
    && |sources| <= 3 && CARD_SOURCE in sources
    && (forall n :: n in sources ==> WebSourceOk(c, n, sources[n], limit))
    && Json.Total(TextSizes(c, sources)) <= MAX_SOURCE_BYTES
  }

  /** decodeWebSource, once the envelope is decoded. */
  ghost predicate EnvelopeOk(c: Codec, sources: Sources)
  {
    WebTextsOk(c, sources, MAX_ENVELOPE_FILE_BYTES)
  }

  method CheckLines(c: Codec, s: string) returns (ok: bool)
    ensures ok <==> WebTextOk(c, s)
  {
    if 0 in c.encode(s) {
      return false;
    }
    var lines := T.Split(s, '\n');
    for i := 0 to |lines|
      invariant LinesOk(c, lines[..i])
    {
      if |c.encode(lines[i])| > MAX_LINE_BYTES {
        return false;
      }
      assert lines[..i + 1] == lines[..i] + [lines[i]];
    }
    assert lines[..|lines|] == lines;
    return true;
  }

  method CheckSource(c: Codec, name: string, source: string, limit: nat) returns (ok: bool)
    ensures ok <==> WebSourceOk(c, name, source, limit)
  {
    if name !in WEB_NAMES || |c.encode(source)| > limit {
      return false;
    }
    ok := CheckLines(c, source);
  }

  /** The loop of decodeWebSource and of validateIterationBase. */
  method CheckWebTexts(c: Codec, sources: Sources, limit: nat) returns (ok: bool)
    ensures ok <==> WebTextsOk(c, sources, limit)
  {
    if |sources| > 3 || CARD_SOURCE !in sources {
      return false;
    }
    ghost var sizes := TextSizes(c, sources);
    var total, rest := 0, sources.Keys;
    assert sizes - rest == map[];
    while rest != {}
      invariant rest <= sources.Keys && total == Json.Total(sizes - rest)
      invariant forall n :: n in sources && n !in rest ==> WebSourceOk(c, n, sources[n], limit)
    {
      var name :| name in rest;
      ok := CheckSource(c, name, sources[name], limit);
      if !ok {
        return;
      }
      total := total + |c.encode(sources[name])|;
      Json.TotalStep(sizes, rest, name);
      rest := rest - {name};
    }
    assert sizes - rest == sizes;
    return total <= MAX_SOURCE_BYTES;
  }

  method DecodeWebSource(c: Codec, sources: Sources) returns (ok: bool)
    ensures ok <==> EnvelopeOk(c, sources)
  {
    ok := CheckWebTexts(c, sources, MAX_ENVELOPE_FILE_BYTES);
  }

  /** What the worker is handed: a document the validator accepts, without zero bytes like all JSON, or web sources. */
  ghost predicate GeneratedOk(c: Codec, g: Generated)
  {
    match g
    case NativeCard(content) => |c.encode(content)| <= MAX_CONTENT_BYTES && 0 !in c.encode(content)
    case WebCard(_, sources) => EnvelopeOk(c, sources)
  }

  /** A native document may be longer than a base's source may be; web sources never are. */
  predicate SourcesFit(c: Codec, g: Generated)
  {
    g.NativeCard? ==> |c.encode(g.content)| <= MAX_SOURCE_BYTES
  }

  // ----- the files of the artifact -----

  /** What the artifact holds under a name. */
  function FileAt(c: Codec, report: Bytes, g: Generated, name: string): Option<Bytes>
  {
    if name == REPORT then Some(report)
    else
      match g
      case NativeCard(content) => if name == NATIVE_ENTRY then Some(c.encode(content)) else None
      case WebCard(output, sources) =>
        if StartsWith_(name, WEB_PAYLOAD) && name[|WEB_PAYLOAD|..] in output then Some(output[name[|WEB_PAYLOAD|..]])
        else if StartsWith_(name, WEB_PREFIX) && name[|WEB_PREFIX|..] in sources then
          Some(c.encode(sources[name[|WEB_PREFIX|..]]))
        else None
  }

  function Lookup(files: Files, name: string): Option<Bytes>
  {
    if name in files then Some(files[name]) else None
  }

  ghost predicate AreFiles(c: Codec, report: Bytes, g: Generated, files: Files)
  {
    forall n: string :: Lookup(files, n) == FileAt(c, report, g, n)
  }

  lemma Prefixed(prefix: string, name: string)
    ensures StartsWith_(prefix + name, prefix) && (prefix + name)[|prefix|..] == name
    ensures forall n :: StartsWith_(n, prefix) && n[|prefix|..] == name ==> n == prefix + name
  {
    forall n | StartsWith_(n, prefix) && n[|prefix|..] == name ensures n == prefix + name {
      assert n == n[..|prefix|] + n[|prefix|..];
    }
  }

  lemma PrefixesDiffer(name: string)
    ensures !(StartsWith_(name, WEB_PAYLOAD) && StartsWith_(name, WEB_PREFIX))
    ensures StartsWith_(name, WEB_PAYLOAD) || StartsWith_(name, WEB_PREFIX) ==> name != REPORT && name != MANIFEST
    ensures StartsWith_(name, WEB_PAYLOAD) ==> !IsSource(name)
    ensures !IsSource(REPORT) && !IsSource(NATIVE_ENTRY) && NATIVE_ENTRY != MANIFEST && REPORT != MANIFEST
  {
    assert WEB_PAYLOAD[0] == 'p' && WEB_PREFIX[0] == 's' && REPORT[0] == 'r' && MANIFEST[0] == 'm';
    assert SOURCE_PREFIX[0] == 's' && NATIVE_ENTRY[0] == 'p';
    assert StartsWith_(name, WEB_PAYLOAD) ==> name[0] == name[..|WEB_PAYLOAD|][0] == 'p';
    assert StartsWith_(name, WEB_PREFIX) ==> name[0] == name[..|WEB_PREFIX|][0] == 's';
    assert IsSource(name) ==> name[0] == name[..|SOURCE_PREFIX|][0] == 's';
    assert REPORT[..|SOURCE_PREFIX|][0] == 'r' && NATIVE_ENTRY[..|SOURCE_PREFIX|][0] == 'p';
  }

  lemma OutputAdded(c: Codec, report: Bytes, output: Files, rest: set<string>, files: Files, name: string)
    requires name in rest && rest <= output.Keys && AreFiles(c, report, WebCard(output - rest, map[]), files)
    ensures AreFiles(c, report, WebCard(output - (rest - {name}), map[]), files[WEB_PAYLOAD + name := output[name]])
  {
    Prefixed(WEB_PAYLOAD, name);
    PrefixesDiffer(WEB_PAYLOAD + name);
    var before, after := WebCard(output - rest, map[]), WebCard(output - (rest - {name}), map[]);
    forall n: string
      ensures Lookup(files[WEB_PAYLOAD + name := output[name]], n) == FileAt(c, report, after, n)
    {
      assert Lookup(files, n) == FileAt(c, report, before, n);
    }
  }

  lemma SourceAdded(c: Codec, report: Bytes, output: Files, sources: Sources, rest: set<string>, files: Files,
                    name: string)
    requires name in rest && rest <= sources.Keys && AreFiles(c, report, WebCard(output, sources - rest), files)
    ensures AreFiles(c, report, WebCard(output, sources - (rest - {name})),
            files[WEB_PREFIX + name := c.encode(sources[name])])
  {
    Prefixed(WEB_PREFIX, name);
    PrefixesDiffer(WEB_PREFIX + name);
    var before, after := WebCard(output, sources - rest), WebCard(output, sources - (rest - {name}));
    forall n: string
      ensures Lookup(files[WEB_PREFIX + name := c.encode(sources[name])], n) == FileAt(c, report, after, n)
    {
      assert Lookup(files, n) == FileAt(c, report, before, n);
    }
  }

  /** The report, and either the native document or the output and the sources under their directories. */
  method AssembleFiles(c: Codec, report: Bytes, g: Generated) returns (files: Files)
    ensures AreFiles(c, report, g, files)
  {
    files := map[REPORT := report];
    match g {
      case NativeCard(content) =>
        files := files[NATIVE_ENTRY := c.encode(content)];
      case WebCard(output, sources) =>
        var rest := output.Keys;
        assert output - rest == map[];
        while rest != {}
          invariant rest <= output.Keys && AreFiles(c, report, WebCard(output - rest, map[]), files)
        {
          var name :| name in rest;
          OutputAdded(c, report, output, rest, files, name);
          files := files[WEB_PAYLOAD + name := output[name]];
          rest := rest - {name};
        }
        assert output - rest == output;
        rest := sources.Keys;
        assert sources - rest == map[];
        while rest != {}
          invariant rest <= sources.Keys && AreFiles(c, report, WebCard(output, sources - rest), files)
        {
          var name :| name in rest;
          SourceAdded(c, report, output, sources, rest, files, name);
          files := files[WEB_PREFIX + name := c.encode(sources[name])];
          rest := rest - {name};
        }
        assert sources - rest == sources;
    }
  }

  // ----- the sources come back -----

  /** Renaming every key under one prefix keeps the total. */
  lemma {:induction false} TotalPrefixed(small: map<string, nat>, big: map<string, nat>, prefix: string)
    requires forall k :: k in small ==> prefix + k in big && big[prefix + k] == small[k]
    requires forall n :: n in big ==> StartsWith_(n, prefix) && n[|prefix|..] in small
    ensures Json.Total(big) == Json.Total(small)
    decreases |small|
  {
    if small == map[] {
      assert big == map[];
    } else {
      var k :| k in small;
      Prefixed(prefix, k);
      Json.TotalPick(small, k);
      Json.TotalPick(big, prefix + k);
      forall other | other in small - {k} ensures prefix + other in big - {prefix + k} {
        Prefixed(prefix, other);
      }
      TotalPrefixed(small - {k}, big - {prefix + k}, prefix);
    }
  }

  /** A web card's source files are its sources, one for one. */
  lemma WebFiles(c: Codec, report: Bytes, g: Generated, files: Files, n: string)
    requires g.WebCard? && AreFiles(c, report, g, files)
    ensures n in files && IsSource(n) <==> StartsWith_(n, WEB_PREFIX) && n[|WEB_PREFIX|..] in g.sources
    ensures n in files && IsSource(n) ==> files[n] == c.encode(g.sources[n[|WEB_PREFIX|..]])
    ensures MANIFEST !in files
  {
    PrefixesDiffer(n);
    PrefixesDiffer(MANIFEST);
    assert Lookup(files, n) == FileAt(c, report, g, n);
    assert Lookup(files, MANIFEST) == FileAt(c, report, g, MANIFEST);
    if StartsWith_(n, WEB_PREFIX) {
      assert n[..|SOURCE_PREFIX|] == n[..|WEB_PREFIX|][..|SOURCE_PREFIX|];
    }
  }

  lemma WebName(n: string)
    requires StartsWith_(n, WEB_PREFIX) && n[|WEB_PREFIX|..] in WEB_NAMES
    ensures OutputName(n) == Some(n[|WEB_PREFIX|..])
  {
    var out := n[|WEB_PREFIX|..];
    assert n == WEB_PREFIX + out by {
      assert n == n[..|WEB_PREFIX|] + out;
    }
  }

  /** Every source file is allowed, and no more than the sources' own size. */
  lemma WebSourcesFit(c: Codec, report: Bytes, g: Generated, files: Files)
    requires Ideal(c) && g.WebCard? && EnvelopeOk(c, g.sources) && AreFiles(c, report, g, files)
    ensures WebSourcesOk(c, files) && AreWebSources(c, files, g.sources)
  {
    forall n | n in files && IsSource(n)
      ensures StartsWith_(n, WEB_PREFIX) && OutputName(n) == Some(n[|WEB_PREFIX|..]) && n[|WEB_PREFIX|..] in g.sources
      ensures SourceOk(c, files[n]) && c.decode(files[n]) == Some(g.sources[n[|WEB_PREFIX|..]])
    {
      WebFiles(c, report, g, files, n);
      WebName(n);
    }
    forall k | k in g.sources
      ensures WEB_PREFIX + k in files && IsSource(WEB_PREFIX + k) && OutputName(WEB_PREFIX + k) == Some(k)
      ensures |files[WEB_PREFIX + k]| == |c.encode(g.sources[k])|
    {
      Prefixed(WEB_PREFIX, k);
      WebFiles(c, report, g, files, WEB_PREFIX + k);
      WebName(WEB_PREFIX + k);
    }
    forall n | n in SourceSizes(files)
      ensures StartsWith_(n, WEB_PREFIX) && n[|WEB_PREFIX|..] in TextSizes(c, g.sources)
    {
      WebFiles(c, report, g, files, n);
    }
    TotalPrefixed(TextSizes(c, g.sources), SourceSizes(files), WEB_PREFIX);
  }

  lemma NativeSourcesFit(c: Codec, report: Bytes, g: Generated, files: Files)
    requires Ideal(c) && g.NativeCard? && GeneratedOk(c, g) && AreFiles(c, report, g, files)
    ensures (forall n :: n in files ==> !IsSource(n)) && NATIVE_ENTRY in files
            && files[NATIVE_ENTRY] == c.encode(g.content)
    ensures (SourceOk(c, files[NATIVE_ENTRY]) <==> SourcesFit(c, g)) && MANIFEST !in files
  {
    PrefixesDiffer(MANIFEST);
    assert Lookup(files, NATIVE_ENTRY) == FileAt(c, report, g, NATIVE_ENTRY);
    assert Lookup(files, MANIFEST) == FileAt(c, report, g, MANIFEST);
    forall n | n in files ensures !IsSource(n) {
      assert Lookup(files, n) == FileAt(c, report, g, n);
    }
  }

  /** What is put in is allowed exactly if it fits, and is exactly what is taken out. */
  lemma SourcesComeBack(c: Codec, d: CardDefinition, report: Bytes, g: Generated, files: Files, sources: Sources)
    requires Ideal(c) && GeneratedOk(c, g) && AreFiles(c, report, g, files) && d.runtime == RuntimeOf(g)
    ensures (SourcesOk(c, d, files) <==> SourcesFit(c, g)) && MANIFEST !in files
    ensures AreSources(c, d, files, sources) <==> sources == SourcesOf(g)
  {
    if g.NativeCard? {
      NativeSourcesFit(c, report, g, files);
    } else {
      WebSourcesFit(c, report, g, files);
      WebFiles(c, report, g, files, MANIFEST);
      if AreSources(c, d, files, sources) {
        SourcesUnique(c, d, files, sources, g.sources);
      }
    }
  }

  // ----- the definition -----

  /** What one run is given: the identity it reserved, the display version, and the confirmed requirement. */
  datatype Publication = Publication(
    cardId: string,
    versionId: string,
    displayVersion: string,
    prompt: string,
    description: string,
    capabilities: seq<string>,
    createdAt: int)

  const NO_NETWORK := NetworkPolicy("none", [])

  /** titleFromPrompt. */
  function TitleOf(prompt: string): string
  {
    if |prompt| <= MAX_TITLE then prompt else prompt[..MAX_TITLE]
  }

  function FirstDefinition(p: Publication, runtime: string): CardDefinition
  {
    CardDefinition(1, "1.0.0", p.cardId, p.versionId, p.displayVersion, runtime, 1, TitleOf(p.prompt), p.description,
                   if runtime == "web" then WEB_ENTRY else NATIVE_ENTRY, if runtime == "web" then "" else "1",
                   Size(240.0, 160.0), Size(360.0, 240.0), Size(1200.0, 900.0), p.capabilities, NO_NETWORK, [],
                   p.createdAt)
  }

  /** A first version has the worker's defaults; an iteration takes over its base's. */
  function DefinitionFor(p: Publication, g: Generated, base: Option<CardDefinition>): CardDefinition
  {
    var first := FirstDefinition(p, RuntimeOf(g));
    if base.None? then first
    else
      var b := base.value;
      first.(runtime := b.runtime, stateSchemaVersion := b.stateSchemaVersion, minHostVersion := b.minHostVersion,
             entrypoint := b.entrypoint, catalogVersion := b.catalogVersion, minSize := b.minSize,
             preferredSize := b.preferredSize, maxSize := b.maxSize, capabilities := b.capabilities,
             network := b.network)
  }

  /** The identity is a generated one, and a prompt is trimmed text. */
  predicate PublicationOk(p: Publication)
  {
    StartsWith_(p.cardId, "card_") && StartsWith_(p.versionId, "ver_") && T.Trimmed(p.prompt) && p.prompt != ""
  }

  lemma {:induction false} TextStays(s: string)
    requires s != "" && !T.IsSpace(s[0])
    ensures T.TrimRight(s) != ""
  {
    if T.IsSpace(s[|s| - 1]) {
      TextStays(s[..|s| - 1]);
    }
  }

  lemma TitleIsText(prompt: string)
    requires T.Trimmed(prompt) && prompt != ""
    ensures !T.Blank(TitleOf(prompt))
  {
    assert TitleOf(prompt)[0] == prompt[0];
    TextStays(TitleOf(prompt));
  }

  /** No run builds a definition that Build or a later reader refuses. */
  lemma DefinitionFits(c: Codec, p: Publication, g: Generated, base: Option<CardDefinition>, files: Files)
    requires PublicationOk(p) && BaseAgrees(g, base)
    ensures DefinitionOk(Stamped(c, DefinitionFor(p, g, base), files))
  {
    TitleIsText(p.prompt);
  }

  // ----- a published version as the base of the next -----

  /** iterationDecision leaves an iteration the runtime of its base. */
  predicate BaseAgrees(g: Generated, base: Option<CardDefinition>)
  {
    base.Some? ==> DefinitionOk(base.value) && base.value.runtime == RuntimeOf(g)
  }

  /** What validateIterationBase demands of a base for the confirmed card and version. */
  ghost predicate BaseOk(c: Codec, cardId: string, versionId: string, base: BaseArtifact)
  {
    && DefinitionOk(base.definition) && base.definition.cardId == cardId && base.definition.versionId == versionId
    && if base.definition.runtime == "native" then
         |base.sources| == 1 && NATIVE_ENTRY in base.sources && SourceText(c, base.sources[NATIVE_ENTRY])
       else WebTextsOk(c, base.sources, MAX_SOURCE_BYTES)
  }

  method ValidateIterationBase(c: Codec, cardId: string, versionId: string, base: BaseArtifact) returns (ok: bool)
    ensures ok <==> BaseOk(c, cardId, versionId, base)
  {
    if !DefinitionOk(base.definition) || base.definition.cardId != cardId || base.definition.versionId != versionId {
      return false;
    }
    var sources := base.sources;
    if base.definition.runtime == "native" {
      return |sources| == 1 && NATIVE_ENTRY in sources && SourceText(c, sources[NATIVE_ENTRY]);
    }
    ok := CheckWebTexts(c, sources, MAX_SOURCE_BYTES);
  }

  /** The agent takes back exactly the sources that fit. */
  lemma GeneratedIsBase(c: Codec, p: Publication, g: Generated, base: Option<CardDefinition>, files: Files)
    requires PublicationOk(p) && GeneratedOk(c, g) && BaseAgrees(g, base)
    ensures BaseOk(c, p.cardId, p.versionId, BaseArtifact(Stamped(c, DefinitionFor(p, g, base), files), SourcesOf(g)))
            <==> SourcesFit(c, g)
  {
    DefinitionFits(c, p, g, base, files);
  }

  /** The sizes the worker gives a first version are floats, and so are those of any base. */
  predicate SizesFloat(c: Codec, base: Option<CardDefinition>)
  {
    && c.float(240.0) && c.float(160.0) && c.float(360.0) && c.float(1200.0) && c.float(900.0)
    && (base.Some? ==> Floats(c, base.value))
  }

  /** A run's card was built and published, and `r` is what parsing it again as a base gives. */
  ghost predicate ReadAgain(c: Codec, zip: ZipLength, names: seq<string>, p: Publication, report: Bytes, g: Generated,
                            base: Option<CardDefinition>, files: Files, keyId: string, key: int,
                            trusted: map<string, int>, r: Option<BaseArtifact>)
  {
    && Ideal(c) && Names(names) && PublicationOk(p) && GeneratedOk(c, g)
    && AreFiles(c, report, g, files) && keyId in trusted && trusted[keyId] == c.publicOf(key)
    && var d := DefinitionFor(p, g, base);
       && Buildable(c, zip, names, d, files, keyId, key)
       && Parses(c, zip, names, Entries(c, names, d, files, keyId, key), Expectation(p.cardId, p.versionId, keyId),
          trusted, r)
  }

  /**
   Once published, a run's card comes back as a base, with the definition the worker wrote, with exactly
   the sources the agent produced, and such that the agent takes it, if and only if it is small, its texts
   have escapes that JSON has, its manifest is within the reader's limits, and its sources fit.
   */
  lemma PublishedComesBack(c: Codec, zip: ZipLength, names: seq<string>, p: Publication, report: Bytes, g: Generated,
                           base: Option<CardDefinition>, files: Files, keyId: string, key: int,
                           trusted: map<string, int>, r: Option<BaseArtifact>)
    requires BaseAgrees(g, base) && SizesFloat(c, base)
    requires ReadAgain(c, zip, names, p, report, g, base, files, keyId, key, trusted, r)
    ensures var d := DefinitionFor(p, g, base);
            && (r.Some? <==> Small(d, files) && TextsOk(c.printable, d, files, keyId) && SourcesFit(c, g)
                             && ManifestFits(c, names, d, files, keyId, key))
            && (r.Some? ==> r.value == BaseArtifact(Stamped(c, d, files), SourcesOf(g))
                            && BaseOk(c, p.cardId, p.versionId, r.value))
  {
    var d := DefinitionFor(p, g, base);
    SourcesComeBack(c, d, report, g, files, SourcesOf(g));
    BuiltParses(c, zip, names, d, files, keyId, key, trusted, r);
    if r.Some? {
      SourcesComeBack(c, d, report, g, files, r.value.sources);
      GeneratedIsBase(c, p, g, base, files);
    }
  }

  /** For instance, a native document one byte too long is published and small, and never comes back. */
  lemma LongDocumentIsLost(c: Codec, zip: ZipLength, names: seq<string>, p: Publication, report: Bytes, content: string,
                           files: Files, keyId: string, key: int, trusted: map<string, int>, r: Option<BaseArtifact>)
    requires SizesFloat(c, None)
    requires ReadAgain(c, zip, names, p, report, NativeCard(content), None, files, keyId, key, trusted, r)
    requires |report| < EXPONENT_FROM && |c.encode(content)| == 524_289
    ensures Small(DefinitionFor(p, NativeCard(content), None), files) && r.None?
  {
    PublishedComesBack(c, zip, names, p, report, NativeCard(content), None, files, keyId, key, trusted, r);
    forall n | n in files ensures |files[n]| < EXPONENT_FROM {
      assert Lookup(files, n) == FileAt(c, report, NativeCard(content), n);
    }
  }

  /** And so is a card whose confirmed prompt rings the bell. */
  lemma BellIsLost(c: Codec, zip: ZipLength, names: seq<string>, p: Publication, report: Bytes, g: Generated,
                   base: Option<CardDefinition>, files: Files, keyId: string, key: int,
                   trusted: map<string, int>, r: Option<BaseArtifact>)
    requires BaseAgrees(g, base) && SizesFloat(c, base)
    requires ReadAgain(c, zip, names, p, report, g, base, files, keyId, key, trusted, r)
    requires p.prompt == "Timer\U{07}"
    ensures r.None?
  {
    var d := DefinitionFor(p, g, base);
    BellIsIllegal(c.printable);
    TitleDecides(c.printable, d, files, keyId);
    PublishedComesBack(c, zip, names, p, report, g, base, files, keyId, key, trusted, r);
  }

  lemma BellIsIllegal(printable: Printable)
    ensures !AllLegal(printable, "Timer\U{07}")
  {
    assert !JsonLegal(printable, "Timer\U{07}"[5]);
  }

  lemma TitleDecides(printable: Printable, d: CardDefinition, files: Files, keyId: string)
    requires !AllLegal(printable, d.title)
    ensures !TextsOk(printable, d, files, keyId)
  {
    assert !FieldTextsLegal(printable, d.(files := []), 7);
  }

  lemma BellIsAPrompt(p: Publication)
    requires StartsWith_(p.cardId, "card_") && StartsWith_(p.versionId, "ver_") && p.prompt == "Timer\U{07}"
    ensures PublicationOk(p)
  {
  }

  // ----- chains of iterations -----

  datatype Iteration = Iteration(publication: Publication, generated: Generated, files: Files)

  /** The definition of the last of a chain of versions, each the base of the next. */
  function Latest(c: Codec, chain: seq<Iteration>): CardDefinition
    requires chain != []
  {
    var last := chain[|chain| - 1];
    var base := if |chain| == 1 then None else Some(Latest(c, chain[..|chain| - 1]));
    Stamped(c, DefinitionFor(last.publication, last.generated, base), last.files)
  }

  function BaseOf(c: Codec, chain: seq<Iteration>): Option<CardDefinition>
    requires chain != []
  {
    if |chain| == 1 then None else Some(Latest(c, chain[..|chain| - 1]))
  }

  ghost predicate ChainOk(chain: seq<Iteration>)
  {
    && chain != []
    && forall i :: 0 <= i < |chain| ==>
         PublicationOk(chain[i].publication) && RuntimeOf(chain[i].generated) == RuntimeOf(chain[0].generated)
  }

  /** What every version of a card has in common. */
  predicate Inherits(d: CardDefinition, first: CardDefinition)
  {
    && d.runtime == first.runtime && d.entrypoint == first.entrypoint && d.catalogVersion == first.catalogVersion
    && d.stateSchemaVersion == first.stateSchemaVersion && d.minHostVersion == first.minHostVersion
    && d.capabilities == first.capabilities && d.network == first.network
    && d.minSize == first.minSize && d.preferredSize == first.preferredSize && d.maxSize == first.maxSize
  }

  lemma IterationInherits(c: Codec, i: Iteration, base: CardDefinition, first: CardDefinition)
    requires Inherits(base, first)
    ensures Inherits(Stamped(c, DefinitionFor(i.publication, i.generated, Some(base)), i.files), first)
  {
  }

  /** However often a card is iterated, every version is valid and keeps what the first one fixed. */
  lemma {:induction false} ChainKeeps(c: Codec, chain: seq<Iteration>)
    requires ChainOk(chain)
    ensures DefinitionOk(Latest(c, chain))
    ensures Inherits(Latest(c, chain), FirstDefinition(chain[0].publication, RuntimeOf(chain[0].generated)))
    decreases |chain|
  {
    var n := |chain| - 1;
    var first := FirstDefinition(chain[0].publication, RuntimeOf(chain[0].generated));
    if n == 0 {
      DefinitionFits(c, chain[0].publication, chain[0].generated, None, chain[0].files);
    } else {
      var base := Latest(c, chain[..n]);
      assert chain[..n][0] == chain[0];
      ChainKeeps(c, chain[..n]);
      IterationInherits(c, chain[n], base, first);
      DefinitionFits(c, chain[n].publication, chain[n].generated, Some(base), chain[n].files);
    }
  }

  /** The base of every version of a chain is one the agent and the worker can start from. */
  lemma BaseInChain(c: Codec, chain: seq<Iteration>)
    requires ChainOk(chain) && SizesFloat(c, None)
    ensures BaseAgrees(chain[|chain| - 1].generated, BaseOf(c, chain)) && SizesFloat(c, BaseOf(c, chain))
  {
    if |chain| > 1 {
      assert chain[..|chain| - 1][0] == chain[0];
      ChainKeeps(c, chain[..|chain| - 1]);
    }
  }

  /**
   Every version of a chain can be iterated again if and only if its own files are small, its own texts
   have escapes that JSON has, and its own manifest and sources fit: nothing builds up.
   */
  lemma VersionsComeBack(c: Codec, zip: ZipLength, names: seq<string>, chain: seq<Iteration>, report: Bytes,
                         keyId: string, key: int, trusted: map<string, int>, r: Option<BaseArtifact>)
    requires ChainOk(chain) && SizesFloat(c, None)
    requires var last := chain[|chain| - 1];
             ReadAgain(c, zip, names, last.publication, report, last.generated, BaseOf(c, chain), last.files, keyId,
                       key, trusted, r)
    ensures var last := chain[|chain| - 1];
            var d := DefinitionFor(last.publication, last.generated, BaseOf(c, chain));
            && (r.Some? <==>
                  && (forall n :: n in last.files ==> |last.files[n]| < EXPONENT_FROM)
                  && TextsOk(c.printable, d, last.files, keyId) && SourcesFit(c, last.generated)
                  && ManifestFits(c, names, d, last.files, keyId, key))
            && (r.Some? ==> r.value == BaseArtifact(Latest(c, chain), SourcesOf(last.generated)))
  {
    var last := chain[|chain| - 1];
    var d := DefinitionFor(last.publication, last.generated, BaseOf(c, chain));
    assert Latest(c, chain) == Stamped(c, d, last.files);
    BaseInChain(c, chain);
    assert d.stateSchemaVersion == 1 by {
      ChainKeeps(c, chain);
    }
    PublishedComesBack(c, zip, names, last.publication, report, last.generated, BaseOf(c, chain), last.files,
                       keyId, key, trusted, r);
  }
}
