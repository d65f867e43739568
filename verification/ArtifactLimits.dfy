/** What every accepted archive is like, told from its entries: paths, sizes, the definition and the file list. */
module ArtifactLimits {
  import opened Prelude
  import opened CardManifest
  import opened ArtifactModel
  import opened ArtifactTrust
  import Json
  import T = Text

  // ----- paths -----

  /** A stretch of the path between two slashes or its ends. */
  predicate Component(name: string, i: nat, j: nat)
  {
    && i <= j <= |name| && (i == 0 || name[i - 1] == '/') && (j == |name| || name[j] == '/')
    && T.Free(name[i..j], '/')
  }

  predicate Proper(part: string)
  {
    part != "" && part != "." && part != ".."
  }

  ghost predicate AllProper(name: string)
  {
    forall i: nat, j: nat :: Component(name, i, j) ==> Proper(name[i..j])
  }

  function Slashes(name: string): nat
  {
    if name == "" then 0 else Slashes(name[1..]) + if name[0] == '/' then 1 else 0
  }

  function UpToSlash(name: string): (n: nat)
    ensures n <= |name| && T.Free(name[..n], '/') && (n < |name| ==> name[n] == '/')
  {
    if name == "" || name[0] == '/' then 0 else 1 + UpToSlash(name[1..])
  }

  lemma {:induction false} NoSlashes(name: string)
    requires T.Free(name, '/')
    ensures Slashes(name) == 0
  {
    if name != "" {
      NoSlashes(name[1..]);
    }
  }

  lemma {:induction false} SlashesAdd(front: string, tail: string)
    requires T.Free(front, '/')
    ensures Slashes(front + "/" + tail) == 1 + Slashes(tail)
  {
    if front == "" {
      assert ("" + "/" + tail)[1..] == tail;
    } else {
      assert (front + "/" + tail)[1..] == front[1..] + "/" + tail;
      SlashesAdd(front[1..], tail);
    }
  }

  lemma ComponentsShift(name: string, n: nat, i: nat, j: nat)
    requires n < |name| && name[n] == '/' && T.Free(name[..n], '/')
    ensures Component(name, i, j) <==>
              (i == 0 && j == n) || (i > n && j > n && Component(name[n + 1..], i - n - 1, j - n - 1))
    ensures i > n && i <= j <= |name| ==> name[i..j] == name[n + 1..][i - n - 1..j - n - 1]
  {
    if i <= j <= |name| {
      if i > n {
        assert name[i..j] == name[n + 1..][i - n - 1..j - n - 1];
      } else if i == 0 && j > n {
        assert name[i..j][n] == '/';
      }
    }
  }

  lemma ProperShift(name: string, n: nat)
    requires n < |name| && name[n] == '/' && T.Free(name[..n], '/')
    ensures AllProper(name) <==> Proper(name[..n]) && AllProper(name[n + 1..])
  {
    var tail := name[n + 1..];
    if AllProper(name) {
      ComponentsShift(name, n, 0, n);
      forall i: nat, j: nat | Component(tail, i, j) ensures Proper(tail[i..j]) {
        ComponentsShift(name, n, i + n + 1, j + n + 1);
      }
    }
    if Proper(name[..n]) && AllProper(tail) {
      forall i: nat, j: nat | Component(name, i, j) ensures Proper(name[i..j]) {
        ComponentsShift(name, n, i, j);
      }
    }
  }

  predicate ProperParts(parts: seq<string>)
  {
    forall k :: 0 <= k < |parts| ==> Proper(parts[k])
  }

  lemma FirstPart(front: string, rest: seq<string>)
    ensures ProperParts([front] + rest) <==> Proper(front) && ProperParts(rest)
  {
    var parts := [front] + rest;
    if ProperParts(parts) {
      assert Proper(parts[0]);
      forall k | 0 <= k < |rest| ensures Proper(rest[k]) {
        assert Proper(parts[k + 1]);
      }
    }
  }

  /** The parts of a path are its components, and one more than its slashes. */
  lemma {:induction false} PartsIff(name: string)
    ensures ProperParts(T.Split(name, '/')) <==> AllProper(name)
    ensures |T.Split(name, '/')| == 1 + Slashes(name)
    decreases |name|
  {
    var n := UpToSlash(name);
    if n == |name| {
      assert name[..n] == name;
      T.SplitHead(name, '/', "");
      NoSlashes(name);
      WholeComponent(name);
      FirstPart(name, []);
      assert [name] + [] == [name];
    } else {
      var tail := name[n + 1..];
      assert name == name[..n] + "/" + tail;
      T.SplitHead(name[..n], '/', tail);
      assert T.Split(name, '/') == [name[..n]] + T.Split(tail, '/');
      SlashesAdd(name[..n], tail);
      ProperShift(name, n);
      FirstPart(name[..n], T.Split(tail, '/'));
      PartsIff(tail);
    }
  }

  lemma WholeComponent(name: string)
    requires T.Free(name, '/')
    ensures AllProper(name) <==> Proper(name)
  {
    assert name[0..|name|] == name;
    assert Component(name, 0, |name|);
  }

  /** A path is safe exactly if it has at most eight components, none of them empty or dots, and no backslash. */
  lemma SafePathIff(name: string)
    ensures SafePath(name) <==> name != "" && T.Free(name, '\\') && Slashes(name) < 8 && AllProper(name)
  {
    var parts := T.Split(name, '/');
    PartsIff(name);
    assert ProperParts(parts) <==>
             forall k :: 0 <= k < |parts| ==> parts[k] != "" && parts[k] != "." && parts[k] != "..";
  }

  // ----- accepted archives -----

  predicate SizeAbove(small: Size, large: Size)
  {
    small.width <= large.width && small.height <= large.height
  }

  /** A definition that is accepted, field by field. */
  predicate Admissible(d: CardDefinition)
  {
    && d.formatVersion == 1 && |d.cardId| >= 5 && d.cardId[..5] == "card_"
    && |d.versionId| >= 4 && d.versionId[..4] == "ver_" && d.stateSchemaVersion >= 1
    && (exists i :: 0 <= i < |d.title| && !T.IsSpace(d.title[i]))
    && 0.0 < d.minSize.width && 0.0 < d.minSize.height
    && SizeAbove(d.minSize, d.preferredSize) && SizeAbove(d.preferredSize, d.maxSize)
    && ((d.runtime == "native" && d.entrypoint == "payload/native.json" && d.catalogVersion != "")
        || (d.runtime == "web" && d.entrypoint == "payload/web/index.html"))
  }

  lemma {:induction false} SpacesTrimLeft(s: string)
    requires forall i :: 0 <= i < |s| ==> T.IsSpace(s[i])
    ensures T.TrimLeft(s) == ""
  {
    if s != "" {
      SpacesTrimLeft(s[1..]);
    }
  }

  lemma {:induction false} InkStaysLeft(s: string, i: nat)
    requires i < |s| && !T.IsSpace(s[i])
    ensures T.TrimLeft(s) != ""
  {
    if T.IsSpace(s[0]) {
      InkStaysLeft(s[1..], i - 1);
    }
  }

  /** A text is blank exactly if it is all spaces. */
  lemma BlankIff(s: string)
    ensures T.Blank(s) <==> forall i :: 0 <= i < |s| ==> T.IsSpace(s[i])
  {
    if forall i :: 0 <= i < |s| ==> T.IsSpace(s[i]) {
      SpacesTrimLeft(s);
    } else {
      var i :| 0 <= i < |s| && !T.IsSpace(s[i]);
      InkStaysLeft(s, i);
      T.TrimLeftStarts(s);
      InkStaysRight(T.TrimLeft(s));
    }
  }

  lemma {:induction false} InkStaysRight(s: string)
    requires s != "" && !T.IsSpace(s[0])
    ensures T.TrimRight(s) != ""
    decreases |s|
  {
    if T.IsSpace(s[|s| - 1]) {
      InkStaysRight(s[..|s| - 1]);
    }
  }

  lemma AdmissibleIff(d: CardDefinition)
    ensures DefinitionOk(d) <==> Admissible(d)
  {
    BlankIff(d.title);
  }

  /** The list names this file, with its size and its hash. */
  predicate Listed(c: Codec, d: CardDefinition, name: string, content: Bytes)
  {
    exists k :: 0 <= k < |d.files| && d.files[k] == CardFile(name, c.hash(content), |content|)
  }

  lemma {:induction false} EntryIsFile(entries: seq<Entry>, i: nat)
    requires i < |entries| && DistinctNames(entries)
    ensures entries[i].name in FilesOf(entries) && FilesOf(entries)[entries[i].name] == entries[i].content
  {
    var n := |entries| - 1;
    if i < n {
      assert entries[..n][i] == entries[i];
      EntryIsFile(entries[..n], i);
    }
  }

  function PathsUpTo(files: seq<CardFile>, n: nat): set<string>
    requires n <= |files|
  {
    set k | 0 <= k < n :: files[k].path
  }

  lemma {:induction false} PathsCount(files: seq<CardFile>, n: nat)
    requires n <= |files| && forall i, j :: 0 <= i < j < |files| ==> files[i].path != files[j].path
    ensures |PathsUpTo(files, n)| == n
    decreases n
  {
    if n > 0 {
      PathsCount(files, n - 1);
      assert PathsUpTo(files, n) == PathsUpTo(files, n - 1) + {files[n - 1].path};
    }
  }

  lemma MatchedIsListed(c: Codec, d: CardDefinition, actual: Files, name: string)
    requires FilesMatch(c, d.files, actual) && name in actual
    ensures Listed(c, d, name, actual[name])
  {
    var paths := PathsUpTo(d.files, |d.files|);
    PathsCount(d.files, |d.files|);
    assert |actual.Keys| == |actual|;
    WholeSet(paths, actual.Keys);
    var k :| 0 <= k < |d.files| && d.files[k].path == name;
    assert d.files[k] == CardFile(name, c.hash(actual[name]), |actual[name]|);
  }

  /** An entry of an accepted archive: a safe path, not too long, and listed unless it is the manifest. */
  predicate EntryMeets(c: Codec, d: CardDefinition, entry: Entry)
  {
    && |entry.content| <= 8 * 1024 * 1024
    && if entry.name == "manifest.json" then |entry.content| <= 256 * 1024
       else Listed(c, d, entry.name, entry.content)
  }

  /** Everything in an accepted archive is where it may be, within its limits, and vouched for by the manifest. */
  lemma AcceptedWithin(c: Codec, zip: ZipLength, names: seq<string>, archive: seq<Entry>, e: Expectation,
                       trusted: map<string, int>, r: Option<BaseArtifact>, i: nat)
    requires |names| == 20 && Parses(c, zip, names, archive, e, trusted, r) && r.Some? && i < |archive|
    ensures zip(archive) <= 8 * 1024 * 1024 && |archive| <= 513
    ensures Json.Sum(Lengths(archive)) <= 32 * 1024 * 1024
    ensures AllProper(archive[i].name) && T.Free(archive[i].name, '\\')
    ensures forall j :: 0 <= j < |archive| && j != i ==> archive[j].name != archive[i].name
    ensures EntryMeets(c, r.value.definition, archive[i])
    ensures Admissible(r.value.definition)
    ensures r.value.definition.cardId == e.cardId && r.value.definition.versionId == e.versionId
  {
    var files := FilesOf(archive);
    EntryIsFile(archive, i);
    SafePathIff(archive[i].name);
    AdmissibleIff(r.value.definition);
    AcceptedFacts(c, zip, names, archive, e, trusted, r);
    VerifiedIsSigned(c, names, files[MANIFEST], trusted);
    if archive[i].name != MANIFEST {
      MatchedIsListed(c, r.value.definition, files - {MANIFEST}, archive[i].name);
    }
  }
}
