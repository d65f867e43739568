/**
 Publishing: an object store that never overwrites, a table of immutable card versions, and
 the publisher that puts an artifact before it creates the version naming it.
 */
module PublishModel {
  import opened Prelude
  import DisplayVersion

  type Bytes = seq<bv8>

  /** SHA-256 in lower-case hex; nothing about it is assumed, not even that it has no collisions. */
  type Hash = Bytes -> string

  const MAX_ARCHIVE_BYTES: int := 8 * 1024 * 1024

  datatype PublishError =
    | NotFound
    | VersionConflict
    | ObjectConflict
    | TooLarge
    | InvalidLimit
    | Integrity
    | DisplayConflict
    | InvalidDisplay
    | BuildFailed

  datatype CardVersion = CardVersion(
    versionId: string,
    cardId: string,
    userId: string,
    runtime: string,
    display: string,
    title: string,
    description: string,
    artifactKey: string,
    sha: string,
    keyId: string,
    createdAt: int)

  type Objects = map<string, Bytes>
  type Versions = map<string, CardVersion>

  const KEY_PREFIX := "artifacts/sha256/"
  const KEY_SUFFIX := ".agentcard"

  function KeyOf(sha: string): string
  {
    KEY_PREFIX + sha + KEY_SUFFIX
  }

  lemma KeyOfInjective(a: string, b: string)
    requires KeyOf(a) == KeyOf(b)
    ensures a == b
  {
    var p, n := |KEY_PREFIX|, |KeyOf(a)| - |KEY_SUFFIX|;
    assert KeyOf(a)[p..n] == a && KeyOf(b)[p..n] == b;
  }

  // ----- the stores' calls, as functions -----

  function PutIfAbsent(objects: Objects, key: string, content: Bytes): (Objects, Result<(), PublishError>)
  {
    if key !in objects then (objects[key := content], Ok(()))
    else if objects[key] == content then (objects, Ok(()))
    else (objects, Err(ObjectConflict))
  }

  function Get(objects: Objects, key: string, maxBytes: int): Result<Bytes, PublishError>
  {
    if maxBytes <= 0 then Err(InvalidLimit)
    else if key !in objects then Err(NotFound)
    else if |objects[key]| > maxBytes then Err(TooLarge)
    else Ok(objects[key])
  }

  predicate SameCard(v: CardVersion, userId: string, cardId: string)
  {
    v.userId == userId && v.cardId == cardId
  }

  /** The display versions a user's card already carries. */
  ghost function Displays(versions: Versions, userId: string, cardId: string): set<string>
  {
    set id | id in versions && SameCard(versions[id], userId, cardId) :: versions[id].display
  }

  ghost predicate Taken(versions: Versions, v: CardVersion)
  {
    exists id :: id in versions && SameCard(versions[id], v.userId, v.cardId) && versions[id].display == v.display
  }

  ghost function Create(versions: Versions, v: CardVersion): (Versions, Result<CardVersion, PublishError>)
  {
    if v.versionId in versions then
      var old_ := versions[v.versionId];
      (versions, if old_.sha == v.sha && SameCard(old_, v.userId, v.cardId) then Ok(old_) else Err(VersionConflict))
    else if Taken(versions, v) then (versions, Err(DisplayConflict))
    else (versions[v.versionId := v], Ok(v))
  }

  function Find(versions: Versions, userId: string, cardId: string, versionId: string)
    : Result<CardVersion, PublishError>
  {
    if versionId in versions && SameCard(versions[versionId], userId, cardId) then Ok(versions[versionId])
    else Err(NotFound)
  }

  function Load(hash: Hash, objects: Objects, versions: Versions,
                userId: string, cardId: string, versionId: string, maxBytes: int): Result<Bytes, PublishError>
  {
    var version := Find(versions, userId, cardId, versionId);
    if version.Err? then Err(version.error) else
      var archive := Get(objects, version.value.artifactKey, maxBytes);
      if archive.Err? then archive
      else if hash(archive.value) != version.value.sha then Err(Integrity)
      else archive
  }

  // ----- what the two stores keep -----

  /** Every object lies under the hash of its own content and is no larger than a reader may ask for. */
  ghost predicate Addressed(hash: Hash, objects: Objects)
  {
    forall key :: key in objects ==> key == KeyOf(hash(objects[key])) && |objects[key]| <= MAX_ARCHIVE_BYTES
  }

  ghost predicate Keyed(versions: Versions)
  {
    forall id :: id in versions ==> versions[id].versionId == id
  }

  predicate SameDisplay(versions: Versions, a: string, b: string)
  {
    && a in versions && b in versions && SameCard(versions[a], versions[b].userId, versions[b].cardId)
    && versions[a].display == versions[b].display
  }

  /** Within a user's card, a display version names one version. */
  ghost predicate UniqueDisplays(versions: Versions)
  {
    forall a, b :: SameDisplay(versions, a, b) ==> a == b
  }

  ghost predicate Stored(objects: Objects, v: CardVersion)
  {
    v.artifactKey == KeyOf(v.sha) && v.artifactKey in objects
  }

  ghost predicate AllStored(objects: Objects, versions: Versions)
  {
    forall id :: id in versions ==> Stored(objects, versions[id])
  }

  lemma PutKeeps(hash: Hash, objects: Objects, content: Bytes)
    requires Addressed(hash, objects) && |content| <= MAX_ARCHIVE_BYTES
    ensures var (after, r) := PutIfAbsent(objects, KeyOf(hash(content)), content);
            && Addressed(hash, after)
            && (forall key :: key in objects ==> key in after && after[key] == objects[key])
            && (r.Ok? ==> KeyOf(hash(content)) in after && after[KeyOf(hash(content))] == content)
            && (r.Err? <==> KeyOf(hash(content)) in objects && objects[KeyOf(hash(content))] != content)
  {
  }

  /** Creating never changes a version, and keeps display versions unique. */
  lemma CreateKeeps(versions: Versions, v: CardVersion)
    requires Keyed(versions) && UniqueDisplays(versions)
    ensures var (after, r) := Create(versions, v);
            && Keyed(after) && UniqueDisplays(after)
            && (forall id :: id in versions ==> id in after && after[id] == versions[id])
            && (r.Ok? ==> Find(after, v.userId, v.cardId, v.versionId) == r && r.value.sha == v.sha)
            && (r.Err? ==> after == versions)
  {
    var (after, r) := Create(versions, v);
    if r.Ok? && v.versionId !in versions {
      forall a, b | SameDisplay(after, a, b) ensures a == b {
        assert !Taken(versions, v);
        assert a in versions && b in versions ==> SameDisplay(versions, a, b);
      }
    }
  }

  /** A new version is refused exactly when its display version is taken. */
  lemma RefusedIffTaken(versions: Versions, v: CardVersion)
    requires v.versionId !in versions
    ensures Create(versions, v).1 == Err(DisplayConflict) <==> v.display in Displays(versions, v.userId, v.cardId)
    ensures Create(versions, v).1.Ok? <==> v.display !in Displays(versions, v.userId, v.cardId)
  {
    if v.display in Displays(versions, v.userId, v.cardId) {
      var id :| id in versions && SameCard(versions[id], v.userId, v.cardId) && versions[id].display == v.display;
      assert Taken(versions, v);
    }
  }

  /** With no write between, a version numbered by NextDisplayVersion is never refused for its number. */
  lemma NextIsAccepted(versions: Versions, v: CardVersion)
    requires v.versionId !in versions
    requires DisplayVersion.IsNext(Displays(versions, v.userId, v.cardId), Ok(v.display))
    ensures Create(versions, v) == (versions[v.versionId := v], Ok(v))
  {
    DisplayVersion.NextIsAbove(Displays(versions, v.userId, v.cardId), v.display);
    RefusedIffTaken(versions, v);
  }

  /** A version whose object is stored loads under the archive limit, with the recorded hash. */
  lemma StoredLoads(hash: Hash, objects: Objects, versions: Versions, id: string)
    requires Addressed(hash, objects) && id in versions && Stored(objects, versions[id])
    ensures var v := versions[id];
            var r := Load(hash, objects, versions, v.userId, v.cardId, id, MAX_ARCHIVE_BYTES);
            r == Ok(objects[v.artifactKey]) && hash(r.value) == v.sha
  {
    KeyOfInjective(versions[id].sha, hash(objects[versions[id].artifactKey]));
  }

  /** Nobody loads another user's version, or a version under another card. */
  lemma OnlyTheOwnerLoads(hash: Hash, objects: Objects, versions: Versions,
                          userId: string, cardId: string, id: string, maxBytes: int)
    requires Load(hash, objects, versions, userId, cardId, id, maxBytes).Ok?
    ensures id in versions && versions[id].userId == userId && versions[id].cardId == cardId
    ensures hash(Load(hash, objects, versions, userId, cardId, id, maxBytes).value) == versions[id].sha
  {
    // Find and the hash check settle it.
    assert Find(versions, userId, cardId, id).Ok?;
  }

  /** What Publish is given: the definition's own fields, and what Build makes of the files. */
  datatype Input = Input(
    userId: string, cardId: string, versionId: string, display: string, runtime: string,
    title: string, description: string, createdAt: int)

  datatype Built = Built(archive: Bytes, sha: string, keyId: string)

  function VersionOf(input: Input, built: Built): CardVersion
  {
    CardVersion(input.versionId, input.cardId, input.userId, input.runtime, input.display, input.title,
                input.description, KeyOf(built.sha), built.sha, built.keyId, input.createdAt)
  }

  lemma ListedDisplays(versions: Versions, userId: string, cardId: string, listed: seq<CardVersion>,
                       displays: seq<string>)
    requires Keyed(versions) && |displays| == |listed|
    requires forall v :: v in listed <==>
             v.versionId in versions && versions[v.versionId] == v && SameCard(v, userId, cardId)
    requires forall i :: 0 <= i < |listed| ==> displays[i] == listed[i].display
    ensures (set i | 0 <= i < |displays| :: displays[i]) == Displays(versions, userId, cardId)
  {
    var all := set i | 0 <= i < |displays| :: displays[i];
    forall d | d in all ensures d in Displays(versions, userId, cardId) {
      var i :| 0 <= i < |displays| && displays[i] == d;
      assert listed[i] in listed;
    }
    forall d | d in Displays(versions, userId, cardId) ensures d in all {
      var id :| id in versions && SameCard(versions[id], userId, cardId) && versions[id].display == d;
      assert versions[id] in listed;
      var i :| 0 <= i < |listed| && listed[i] == versions[id];
      assert displays[i] == d;
    }
  }
}
