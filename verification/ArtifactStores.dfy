/**
 The object store and its collector as the classes that one lock holder runs;
 `ArtifactGc` is the same store under interleaving.
 */
module ArtifactStores {
  import opened Options
  import opened ArtifactGc
  import opened ArtifactGcTheorems
  import opened Sorting

  datatype PromotionError =
    | ObjectLimit | IntegrityError | PhysicalLimit | InsufficientSpace | SourceChanged | MissingObject

  datatype Result<T> = Success(value: T) | Failure(error: PromotionError)

  datatype StoredObject = StoredObject(digest: Digest, byteSize: nat)

  datatype ArtifactLimits = ArtifactLimits(
    maxObjectBytes: nat, maxPhysicalBytes: nat, maxPhysicalObjects: nat, minFreeBytes: nat)
  {
    function Physical(): Limits { Limits(maxPhysicalBytes, maxPhysicalObjects) }
  }

  datatype Report = Report(
    completed: bool, scanned: nat, referenced: nat, deleted: seq<Digest>, retained: seq<Digest>)

  class DurableArtifactStore {
    const hash: Bytes -> Digest
    var objects: map<Digest, Bytes>
    var strays: set<string>        // entries under the objects directory that are not objects

    constructor (hash: Bytes -> Digest)
      ensures this.hash == hash && objects == map[] && strays == {}
    {
      this.hash := hash;
      objects, strays := map[], {};
    }

    method Verify(digest: Digest) returns (r: Result<Digest>)
      ensures r.Success? <==> digest in objects && hash(objects[digest]) == digest
      ensures r.Success? ==> r.value == digest
      ensures r.Failure? ==> r.error == if digest in objects then IntegrityError else MissingObject
    {
      if digest !in objects { return Failure(MissingObject); }
      if hash(objects[digest]) != digest { return Failure(IntegrityError); }
      return Success(digest);
    }

    method PhysicalUsage() returns (totalBytes: nat, totalObjects: nat)
      ensures totalBytes == TotalBytes(objects) && totalObjects == |objects|
    {
      totalBytes, totalObjects := 0, 0;
      var rest := objects;
      while rest != map[]
        invariant rest.Keys <= objects.Keys && forall d :: d in rest ==> rest[d] == objects[d]
        invariant totalBytes + TotalBytes(rest) == TotalBytes(objects)
        invariant totalObjects + |rest| == |objects|
        decreases |rest|
      {
        var d :| d in rest;
        TotalBytesWithout(rest, d);
        assert rest.Keys - {d} == (rest - {d}).Keys;
        totalBytes, totalObjects := totalBytes + |rest[d]|, totalObjects + 1;
        rest := rest - {d};
      }
    }

    /** Promotes a source whose bytes were `hashed` when its digest was taken and
        are `copied` when it is copied. */
    method Promote(hashed: Bytes, copied: Bytes, limits: ArtifactLimits, freeBytes: int)
      returns (r: Result<StoredObject>)
      modifies this`objects
      // success is a verified object of that digest and size
      ensures r.Success? ==> r.value == StoredObject(hash(hashed), |hashed|)
                             && r.value.digest in objects && hash(objects[r.value.digest]) == r.value.digest
                             && |objects[r.value.digest]| == |hashed|
      // nothing is overwritten, and a failure leaves nothing behind
      ensures r.Success? && hash(hashed) !in old(objects) ==> objects == old(objects)[hash(hashed) := copied]
      ensures r.Failure? || hash(hashed) in old(objects) ==> objects == old(objects)
      // when it fails, and why
      ensures r.Failure? <==>
                || |hashed| > limits.maxObjectBytes
                || (hash(hashed) in old(objects) && (hash(old(objects)[hash(hashed)]) != hash(hashed)
                                                     || |old(objects)[hash(hashed)]| != |hashed|))
                || (hash(hashed) !in old(objects) && (!Fits(limits.Physical(), old(objects), hashed)
                                                      || freeBytes - |hashed| < limits.minFreeBytes
                                                      || hash(copied) != hash(hashed) || |copied| != |hashed|))
      ensures r.Failure? && r.error == IntegrityError ==> hash(hashed) in old(objects)
      ensures r.Failure? && r.error == PhysicalLimit ==> !Fits(limits.Physical(), old(objects), hashed)
      ensures r.Failure? && r.error == SourceChanged ==> copied != hashed
      // quotas and content addressing are kept
      ensures old(WellStored(hash, limits.Physical(), objects)) ==> WellStored(hash, limits.Physical(), objects)
    {
      if |hashed| > limits.maxObjectBytes { return Failure(ObjectLimit); }
      var digest := hash(hashed);
      if digest in objects {
        var verified := Verify(digest);
        if verified.Failure? { return Failure(verified.error); }
        if |objects[digest]| != |hashed| { return Failure(IntegrityError); }
        return Success(StoredObject(digest, |hashed|));
      }
      var totalBytes, totalObjects := PhysicalUsage();
      if totalObjects + 1 > limits.maxPhysicalObjects { return Failure(PhysicalLimit); }
      if totalBytes + |hashed| > limits.maxPhysicalBytes { return Failure(PhysicalLimit); }
      if freeBytes - |hashed| < limits.minFreeBytes { return Failure(InsufficientSpace); }
      if hash(copied) != digest || |copied| != |hashed| { return Failure(SourceChanged); }
      TotalBytesWith(objects, digest, copied);
      objects := objects[digest := copied];
      var verified := Verify(digest);
      return Success(StoredObject(verified.value, |hashed|));
    }

    /** Collects the objects that no manifest names.  `manifests[i]` is what the
        strict reader makes of the i-th manifest. */
    method Collect(manifests: seq<Option<seq<Digest>>>, dryRun: bool) returns (report: Report)
      modifies this`objects
      ensures report.completed <==> (forall i :: 0 <= i < |manifests| ==> manifests[i].Some?) && strays == {}
      // an incomplete collection, or a rehearsal, deletes nothing
      ensures !report.completed || dryRun ==> objects == old(objects)
      ensures !report.completed ==> report.deleted == []
      // a complete one leaves the named objects, each with its bytes, and no other
      ensures report.completed ==>
                && multiset(report.deleted) == multiset(old(objects).Keys - DigestsOf(manifests))
                && multiset(report.retained) == multiset(old(objects).Keys * DigestsOf(manifests))
      ensures Ascending(Below, report.deleted) && Ascending(Below, report.retained)
      ensures report.completed && !dryRun ==> objects == old(objects) - (old(objects).Keys - DigestsOf(manifests))
      ensures report.referenced == |DigestsOf(manifests)|
      ensures report.scanned == Readable(manifests)
    {
      var referenced, scanned, errors := ReadManifests(manifests);
      ReadableBound(manifests);
      if errors > 0 { return Report(false, scanned, |referenced|, [], []); }
      BelowIsPreorder();
      var retained := SortedSet(Below, objects.Keys * referenced);
      if strays != {} { return Report(false, scanned, |referenced|, [], retained); }
      var candidates := objects.Keys - referenced;
      var deleted := SortedSet(Below, candidates);
      if !dryRun {
        Unlink(candidates);
      }
      return Report(true, scanned, |referenced|, deleted, retained);
    }

    method Unlink(candidates: set<Digest>)
      modifies this`objects
      ensures objects == old(objects) - candidates
    {
      var rest := candidates;
      while rest != {}
        invariant rest <= candidates
        invariant objects == old(objects) - (candidates - rest)
        decreases |rest|
      {
        var digest :| digest in rest;
        objects := objects - {digest};
        rest := rest - {digest};
      }
      assert candidates - rest == candidates;
    }
  }

  method ReadManifests(manifests: seq<Option<seq<Digest>>>) returns (referenced: set<Digest>, scanned: nat, errors: nat)
    ensures referenced == DigestsOf(manifests)
    ensures scanned == Readable(manifests) && scanned + errors == |manifests|
  {
    referenced, scanned, errors := {}, 0, 0;
    for i := 0 to |manifests|
      invariant referenced == DigestsOf(manifests[..i])
      invariant scanned == Readable(manifests[..i]) && scanned + errors == i
    {
      assert manifests[..i + 1][..i] == manifests[..i];
      match manifests[i]
      case None => errors := errors + 1;
      case Some(digests) =>
        scanned := scanned + 1;
        referenced := referenced + (set d | d in digests);
    }
    assert manifests[..|manifests|] == manifests;
  }

  /** The number of manifests that could be read. */
  function Readable(manifests: seq<Option<seq<Digest>>>): nat
  {
    if manifests == [] then 0
    else Readable(manifests[..|manifests| - 1]) + if manifests[|manifests| - 1].Some? then 1 else 0
  }

  lemma {:induction false} ReadableBound(manifests: seq<Option<seq<Digest>>>)
    ensures Readable(manifests) <= |manifests|
    ensures Readable(manifests) == |manifests| <==> forall i :: 0 <= i < |manifests| ==> manifests[i].Some?
  {
    if manifests != [] {
      ReadableBound(manifests[..|manifests| - 1]);
    }
  }

  /** The digests of every manifest that could be read. */
  function DigestsOf(manifests: seq<Option<seq<Digest>>>): set<Digest>
  {
    if manifests == [] then {}
    else
      var last := manifests[|manifests| - 1];
      DigestsOf(manifests[..|manifests| - 1]) + if last.Some? then set d | d in last.value else {}
  }

  lemma {:induction false} DigestsOfMeans(manifests: seq<Option<seq<Digest>>>, d: Digest)
    ensures d in DigestsOf(manifests)
       <==> exists i :: 0 <= i < |manifests| && manifests[i].Some? && d in manifests[i].value
  {
    if manifests != [] {
      DigestsOfMeans(manifests[..|manifests| - 1], d);
    }
  }
}
