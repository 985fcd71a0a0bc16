/** The session's references to tool-created files, by id and by path. */
module ArtifactRegistries {
  import opened Options
  import opened Json
  import opened ManifestRecords
  import opened ArtifactManifests
  import ArtifactGc
  import Stores = ArtifactStores

  type Id = Text
  type Path = string

  datatype Ref = Ref(id: Id, path: Path, kind: Text, removeOnClose: bool)

  datatype Failure = RegistryClosed | NotStored(why: Stores.PromotionError) | NotAuthorised(reason: AppendResult)

  datatype Result<T> = Ok(value: T) | Err(error: Failure)

  /** The store and the manifest that make a registry durable. */
  datatype Backing = Backing(
    store: Stores.DurableArtifactStore, limits: Stores.ArtifactLimits, manifest: ArtifactManifest)

  datatype Producer = Producer(sessionEntryId: Option<Text>, toolCallId: Option<Text>, retained: bool)

  function DigestName(digest: Text): string
    requires Hex(digest)
  {
    seq(|digest|, i requires 0 <= i < |digest| => digest[i] as char)
  }

  function ObjectPath(digest: Text): Path
    requires |digest| == 64 && Hex(digest)
  {
    "objects/" + DigestName(digest)[..2] + "/" + DigestName(digest)
  }

  /** Whether the manifest names an object for the id that carries its own digest. */
  ghost predicate Resolves(backing: Backing, id: Id)
    reads backing.store, backing.manifest
  {
    && id in backing.manifest.byId
    && var digest := backing.manifest.byId[id].digest;
       && |digest| == 64 && Hex(digest)
       && DigestName(digest) in backing.store.objects
       && backing.store.hash(backing.store.objects[DigestName(digest)]) == DigestName(digest)
  }

  /** The two indexes agree: a path leads to the reference of its id, and every
      reference that is not durable is found by its path. */
  ghost predicate Coherent(byId: map<Id, Ref>, byPath: map<Path, Ref>, durable: set<Id>)
  {
    && (forall id :: id in byId ==> byId[id].id == id)
    && (forall p :: p in byPath ==> byPath[p].path == p && byPath[p].id in byId && byId[byPath[p].id] == byPath[p]
                                    && byPath[p].id !in durable)
    && (forall id :: id in byId && id !in durable ==> byId[id].path in byPath && byPath[byId[id].path] == byId[id])
    && (forall id :: id in durable ==> id in byId && !byId[id].removeOnClose)
  }

  /** The reference that a manifest's entry gives. */
  function EntryRef(e: Entry): Ref
  {
    Ref(e.id, if |e.digest| == 64 && Hex(e.digest) then ObjectPath(e.digest) else "", e.kind, false)
  }

  /** A source file: its bytes when it is hashed and when it is copied, and the
      free space on the disk. */
  datatype Source = Source(hashed: ArtifactGc.Bytes, copied: ArtifactGc.Bytes, freeBytes: int)

  /** The manifest names the object for an id, and the store has it. */
  ghost predicate Authorised(backing: Backing, id: Id, bytes: ArtifactGc.Bytes)
    reads backing.store, backing.manifest
  {
    && backing.store.hash(bytes) in backing.store.objects
    && exists e ::
        && e in backing.manifest.entries && e.id == id
        && e.digest == Lit(backing.store.hash(bytes)) && e.byteSize == |bytes|
  }

  /** Nothing stored is lost, and at most one object is new. */
  ghost predicate OnlyAdds(store: Stores.DurableArtifactStore, before: map<ArtifactGc.Digest, ArtifactGc.Bytes>,
                           bytes: ArtifactGc.Bytes)
    reads store
  {
    && before.Keys <= store.objects.Keys <= before.Keys + {store.hash(bytes)}
    && forall d :: d in before ==> store.objects[d] == before[d]
  }

  /** The part of a promotion under the maintenance lock: first the object, then
      the record that authorises it. */
  method StoreAndAuthorise(backing: Backing, template: Entry, source: Source) returns (r: Result<Entry>)
    modifies backing.store, backing.manifest
    ensures r.Ok? ==> Valid(r.value) && r.value.id == template.id && Authorised(backing, template.id, source.hashed)
    ensures OnlyAdds(backing.store, old(backing.store.objects), source.hashed)
    ensures r.Err? ==> !r.error.RegistryClosed?
    ensures r.Err? && r.error.NotStored? ==> backing.store.objects == old(backing.store.objects)
                                             && unchanged(backing.manifest)
  {
    var store, manifest := backing.store, backing.manifest;
    var stored := store.Promote(source.hashed, source.copied, backing.limits, source.freeBytes);
    if stored.Failure? { return Err(NotStored(stored.error)); }
    var entry := template.(digest := Lit(stored.value.digest), byteSize := stored.value.byteSize);
    var appended := manifest.Append(entry);
    if !appended.Appended? && !appended.AlreadyThere? { return Err(NotAuthorised(appended)); }
    assert entry in manifest.entries;
    return Ok(entry);
  }

  class ArtifactRegistry {
    var byId: map<Id, Ref>
    var byPath: map<Path, Ref>
    var durableIds: set<Id>
    var closed: bool
    const backing: Option<Backing>

    ghost predicate Valid()
      reads this
    {
      Coherent(byId, byPath, durableIds) && (closed ==> byId == map[] && byPath == map[] && durableIds == {})
    }

    constructor (backing: Option<Backing>)
      requires backing.Some? ==> backing.value.manifest.Valid()
      ensures Valid() && !closed && this.backing == backing && byPath == map[]
      ensures byId.Keys == durableIds
      ensures backing.None? ==> byId == map[]
      ensures backing.Some? ==>
                forall e :: e in backing.value.manifest.entries ==> e.id in byId && byId[e.id] == EntryRef(e)
    {
      this.backing := backing;
      byId, byPath, durableIds, closed := map[], map[], {}, false;
      new;
      if backing.Some? {
        var entries := backing.value.manifest.entries;
        for i := 0 to |entries|
          invariant Coherent(byId, byPath, durableIds) && byPath == map[] && byId.Keys == durableIds && !closed
          invariant forall j :: 0 <= j < i ==> entries[j].id in byId && byId[entries[j].id] == EntryRef(entries[j])
        {
          var ref := EntryRef(entries[i]);
          assert byPath - {ref.path} == map[];
          byId := byId[ref.id := ref];
          durableIds := durableIds + {ref.id};
        }
      }
    }

    /** Registers a path.  A path known already keeps its id, and keeps being kept. */
    method Register(path: Path, kind: Text, removeOnClose: bool, newId: Id) returns (r: Result<Ref>)
      requires Valid() && newId !in byId
      modifies this
      ensures Valid() && closed == old(closed) && durableIds == old(durableIds)
      ensures r.Err? <==> old(closed)
      ensures r.Err? ==> r.error == RegistryClosed
      ensures r.Err? ==> byId == old(byId) && byPath == old(byPath)
      ensures r.Ok? && path in old(byPath) ==>
                r.value == old(byPath)[path].(removeOnClose := old(byPath)[path].removeOnClose && removeOnClose)
      ensures r.Ok? && path !in old(byPath) ==> r.value == Ref(newId, path, kind, removeOnClose)
      ensures r.Ok? ==> byId == old(byId)[r.value.id := r.value] && byPath == old(byPath)[path := r.value]
    {
      if closed { return Err(RegistryClosed); }
      if path in byPath {
        var existing := byPath[path];
        if existing.removeOnClose && !removeOnClose {
          existing := existing.(removeOnClose := false);
          byId := byId[existing.id := existing];
          byPath := byPath[path := existing];
        }
        assert byId == old(byId)[existing.id := existing] && byPath == old(byPath)[path := existing];
        return Ok(existing);
      }
      var ref := Ref(newId, path, kind, removeOnClose);
      byId := byId[ref.id := ref];
      byPath := byPath[path := ref];
      return Ok(ref);
    }

    /** Makes a registered path durable: stores its bytes and authorises them.  The
        id it was known by stays; a refusal leaves both indexes as they were. */
    method Promote(path: Path, kind: Text, producer: Producer, newId: Id, now: int, source: Source)
      returns (r: Result<Ref>)
      requires Valid() && newId !in byId
      modifies this
      modifies if backing.Some? then {backing.value.store, backing.value.manifest} else {}
      ensures Valid() && closed == old(closed)
      ensures old(closed) ==> r == Err(RegistryClosed)
      ensures r.Err? ==> byId == old(byId) && byPath == old(byPath) && durableIds == old(durableIds)
      ensures r.Ok? ==> r.value.id == (if path in old(byPath) then old(byPath)[path].id else newId)
                        && !r.value.removeOnClose && byId == old(byId)[r.value.id := r.value]
      ensures r.Ok? && backing.None? ==> byPath == old(byPath)[path := r.value] && durableIds == old(durableIds)
      ensures r.Ok? && backing.Some? ==> byPath == old(byPath) - {path} && durableIds == old(durableIds) + {r.value.id}
                                         && Authorised(backing.value, r.value.id, source.hashed)
      ensures backing.Some? ==> OnlyAdds(backing.value.store, old(backing.value.store.objects), source.hashed)
    {
      if backing.None? {
        r := Register(path, kind, false, newId);
        return;
      }
      if closed { return Err(RegistryClosed); }
      var id := if path in byPath then byPath[path].id else newId;
      var draft := Entry(id, [], kind, 0, now, producer.sessionEntryId, producer.toolCallId, producer.retained);
      var entry := StoreAndAuthorise(backing.value, draft, source);
      if entry.Err? { return Err(entry.error); }
      var ref := Ref(id, ObjectPath(entry.value.digest), kind, false);
      byId := byId[id := ref];
      durableIds := durableIds + {id};
      byPath := byPath - {path};
      return Ok(ref);
    }

    /** The path that a read of an id or a path may open.  A durable id opens its
        object only while the manifest names it and the store still verifies it. */
    method ResolveRead(pathOrId: Path) returns (r: Option<Path>)
      requires Valid()
      ensures Lit(pathOrId) in durableIds ==>
                r == if backing.Some? && Resolves(backing.value, Lit(pathOrId))
                     then Some(ObjectPath(backing.value.manifest.byId[Lit(pathOrId)].digest)) else None
      ensures Lit(pathOrId) in byId && Lit(pathOrId) !in durableIds ==> r == Some(byId[Lit(pathOrId)].path)
      ensures Lit(pathOrId) !in byId ==> r == if pathOrId in byPath then Some(pathOrId) else None
      ensures closed ==> r == None
    {
      var id := Lit(pathOrId);
      if id in durableIds {
        if backing.None? || id !in backing.value.manifest.byId { return None; }
        var digest := backing.value.manifest.byId[id].digest;
        if |digest| != 64 || !Hex(digest) { return None; }
        var verified := backing.value.store.Verify(DigestName(digest));
        return if verified.Success? then Some(ObjectPath(digest)) else None;
      }
      if id in byId {
        return Some(byId[id].path);
      }
      return if pathOrId in byPath then Some(byPath[pathOrId].path) else None;
    }

    /** Closes the registry and unlinks the files that are not to be kept. */
    method Close(removeFiles: bool) returns (removed: set<Path>)
      requires Valid()
      modifies this
      ensures Valid() && closed && byId == map[] && byPath == map[] && durableIds == {}
      ensures removed == if removeFiles then set p | p in old(byPath) && old(byPath)[p].removeOnClose :: p else {}
    {
      if closed { return {}; }
      removed := {};
      if removeFiles {
        removed := set id | id in byId && byId[id].removeOnClose :: byId[id].path;
      }
      closed := true;
      byId, byPath, durableIds := map[], map[], {};
    }
  }
}
