/** The publishing stores and the publisher, proved against PublishModel. */
module Publishing {
  import opened Prelude
  import opened M = PublishModel
  import DisplayVersion

  class MemoryObjectStore {
    var objects: Objects

    constructor ()
      ensures objects == map[]
    {
      objects := map[];
    }

    method PutIfAbsent(key: string, content: Bytes) returns (r: Result<(), PublishError>)
      modifies this
      ensures (objects, r) == M.PutIfAbsent(old(objects), key, content)
    {
      if key in objects {
        if objects[key] != content {
          return Err(ObjectConflict);
        }
        return Ok(());
      }
      objects := objects[key := content];
      return Ok(());
    }

    method Get(key: string, maxBytes: int) returns (r: Result<Bytes, PublishError>)
      ensures r == M.Get(objects, key, maxBytes)
    {
      if maxBytes <= 0 {
        return Err(InvalidLimit);
      }
      if key !in objects {
        return Err(NotFound);
      }
      var content := objects[key];
      if |content| > maxBytes {
        return Err(TooLarge);
      }
      return Ok(content);
    }
  }

  class MemoryVersionRepository {
    var versions: Versions

    constructor ()
      ensures versions == map[]
    {
      versions := map[];
    }

    method Create(version: CardVersion) returns (r: Result<CardVersion, PublishError>)
      modifies this
      ensures (versions, r) == M.Create(old(versions), version)
    {
      if version.versionId in versions {
        var existing := versions[version.versionId];
        if existing.sha != version.sha || existing.cardId != version.cardId || existing.userId != version.userId {
          return Err(VersionConflict);
        }
        return Ok(existing);
      }
      var rest := versions.Keys;
      while rest != {}
        invariant rest <= versions.Keys && versions == old(versions)
        invariant forall id :: id in versions && id !in rest ==>
                    !(SameCard(versions[id], version.userId, version.cardId) && versions[id].display == version.display)
      {
        var id :| id in rest;
        var existing := versions[id];
        if existing.userId == version.userId && existing.cardId == version.cardId
          && existing.display == version.display {
          assert Taken(versions, version);
          return Err(DisplayConflict);
        }
        rest := rest - {id};
      }
      assert !Taken(versions, version);
      versions := versions[version.versionId := version];
      return Ok(version);
    }

    method Find(userId: string, cardId: string, versionId: string) returns (r: Result<CardVersion, PublishError>)
      ensures r == M.Find(versions, userId, cardId, versionId)
    {
      if versionId !in versions {
        return Err(NotFound);
      }
      var version := versions[versionId];
      if version.userId != userId || version.cardId != cardId {
        return Err(NotFound);
      }
      return Ok(version);
    }

    /** ListByUser: every version of the user once, in some order. */
    method ListByUser(userId: string) returns (r: seq<CardVersion>)
      requires Keyed(versions)
      ensures forall v :: v in r <==> v.versionId in versions && versions[v.versionId] == v && v.userId == userId
      ensures forall i, j :: 0 <= i < j < |r| ==> r[i].versionId != r[j].versionId
    {
      r := [];
      var rest := versions.Keys;
      while rest != {}
        invariant rest <= versions.Keys
        invariant forall v :: v in r <==>
                    v.versionId in versions && v.versionId !in rest && versions[v.versionId] == v && v.userId == userId
        invariant forall i, j :: 0 <= i < j < |r| ==> r[i].versionId != r[j].versionId
      {
        var id :| id in rest;
        var version := versions[id];
        if version.userId == userId {
          forall i | 0 <= i < |r| ensures r[i].versionId != id {
            assert r[i] in r;
          }
          r := r + [version];
        }
        rest := rest - {id};
      }
    }

    method ListByCard(userId: string, cardId: string) returns (r: seq<CardVersion>)
      requires Keyed(versions)
      ensures forall v :: v in r <==>
              v.versionId in versions && versions[v.versionId] == v && SameCard(v, userId, cardId)
      ensures forall i, j :: 0 <= i < j < |r| ==> r[i].versionId != r[j].versionId
    {
      var all := ListByUser(userId);
      r := [];
      for i := 0 to |all|
        invariant forall v :: v in r <==> v in all[..i] && v.cardId == cardId
        invariant forall a, b :: 0 <= a < b < |r| ==> r[a].versionId != r[b].versionId
      {
        assert all[..i + 1] == all[..i] + [all[i]];
        if all[i].cardId == cardId {
          forall a | 0 <= a < |r| ensures r[a].versionId != all[i].versionId {
            assert r[a] in r;
            var k :| 0 <= k < i && all[k] == r[a];
          }
          r := r + [all[i]];
        }
      }
      assert all[..|all|] == all;
    }
  }

  /** The version says what was published: every field of the input, and the archive's hash, key and signer. */
  predicate Describes(input: Input, built: Built, v: CardVersion)
  {
    && v.versionId == input.versionId && v.cardId == input.cardId && v.userId == input.userId
    && v.runtime == input.runtime && v.display == input.display && v.title == input.title
    && v.description == input.description && v.createdAt == input.createdAt
    && v.sha == built.sha && v.keyId == built.keyId && v.artifactKey == "artifacts/sha256/" + v.sha + ".agentcard"
  }

  class Publisher {
    const hash: Hash
    const objects: MemoryObjectStore
    const versions: MemoryVersionRepository

    ghost predicate Valid()
      reads objects, versions
    {
      && Addressed(hash, objects.objects) && Keyed(versions.versions)
      && UniqueDisplays(versions.versions) && AllStored(objects.objects, versions.versions)
    }

    constructor (hash: Hash)
      ensures Valid() && this.hash == hash && fresh(objects) && fresh(versions)
    {
      this.hash := hash;
      objects := new MemoryObjectStore();
      versions := new MemoryVersionRepository();
    }

    /** Publish, given what the builder returned. */
    method Publish(input: Input, build: Result<Built, PublishError>) returns (r: Result<CardVersion, PublishError>)
      requires Valid()
      requires build.Ok? ==> build.value.sha == hash(build.value.archive) && |build.value.archive| <= MAX_ARCHIVE_BYTES
      modifies objects, versions
      ensures Valid()
      ensures build.Err? ==> r == Err(build.error) && objects.objects == old(objects.objects)
                             && versions.versions == old(versions.versions)
      ensures build.Ok? ==>
                var put := M.PutIfAbsent(old(objects.objects), KeyOf(build.value.sha), build.value.archive);
                objects.objects == put.0
                && if put.1.Err? then r == Err(put.1.error) && versions.versions == old(versions.versions)
                   else (versions.versions, r) == M.Create(old(versions.versions), VersionOf(input, build.value))
      ensures r.Ok? ==>
                Load(hash, objects.objects, versions.versions, input.userId, input.cardId, input.versionId,
                  MAX_ARCHIVE_BYTES)
                == Ok(build.value.archive)
      ensures r.Ok? && input.versionId !in old(versions.versions) ==> Describes(input, build.value, r.value)
    {
      if build.Err? {
        return Err(build.error);
      }
      var built := build.value;
      var objectKey := KEY_PREFIX + built.sha + KEY_SUFFIX;
      PutKeeps(hash, objects.objects, built.archive);
      var put := objects.PutIfAbsent(objectKey, built.archive);
      if put.Err? {
        return Err(put.error);
      }
      var version := VersionOf(input, built);
      CreateKeeps(versions.versions, version);
      r := versions.Create(version);
      if r.Ok? {
        StoredLoads(hash, objects.objects, versions.versions, version.versionId);
      }
    }

    method NextDisplayVersion(userId: string, cardId: string) returns (r: Result<string, DisplayVersion.VersionError>)
      requires Valid()
      ensures DisplayVersion.IsNext(Displays(versions.versions, userId, cardId), r)
    {
      var listed := versions.ListByCard(userId, cardId);
      var displays := seq(|listed|, i requires 0 <= i < |listed| => listed[i].display);
      r := DisplayVersion.NextDisplayVersion(displays);
      ListedDisplays(versions.versions, userId, cardId, listed, displays);
    }

    method OwnsVersion(userId: string, cardId: string, versionId: string) returns (owned: bool)
      ensures owned <==> versionId in versions.versions && SameCard(versions.versions[versionId], userId, cardId)
    {
      var found := versions.Find(userId, cardId, versionId);
      return found.Ok?;
    }

    method LoadVersionArtifact(userId: string, cardId: string, versionId: string, maxBytes: int)
      returns (r: Result<Bytes, PublishError>)
      ensures r == Load(hash, objects.objects, versions.versions, userId, cardId, versionId, maxBytes)
    {
      var version := versions.Find(userId, cardId, versionId);
      if version.Err? {
        return Err(version.error);
      }
      var archive := objects.Get(version.value.artifactKey, maxBytes);
      if archive.Err? {
        return archive;
      }
      if hash(archive.value) != version.value.sha {
        return Err(Integrity);
      }
      return archive;
    }
  }
}
