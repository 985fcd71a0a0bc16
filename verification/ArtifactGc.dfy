/**
 The durable artifact store under concurrent promotion, forking and collection.

 Promotion and collection hold the maintenance lock; a fork does not, so it may
 read its source and write its target at any point of a collection.  A step is
 one file-system operation.  The objects are a map from digest to bytes; of a
 manifest the model keeps the digests that its whole lines name and how it ends;
 the strict reader accepts it only when it ends in a whole line.
 */
module ArtifactGc {
  import opened Options

  type Digest = string
  type Path = string
  type Bytes = string

  /** How a manifest ends: in a whole line; in a record cut inside; in a record that
      lacks only its newline; or in such a record with a cut one run into it, which
      the next load puts aside together.  A corrupt manifest has a line that no
      reader accepts, before its end, such as two records run together. */
  datatype Tail =
    | Whole
    | Torn
    | Unterminated(last: Digest)
    | Glued(last: Digest)
    | Corrupt

  datatype Manifest = Manifest(digests: set<Digest>, tail: Tail)
  {
    /** The digests that the manifest names, its last record's included. */
    function Names(): set<Digest>
    {
      digests + if tail.Unterminated? || tail.Glued? then {tail.last} else {}
    }

    /** Whether the manifest keeps every collection from completing until a record
        of it is lost: a torn tail is recovered at no loss, the others are not. */
    predicate Blocks()
    {
      tail.Unterminated? || tail.Glued? || tail.Corrupt?
    }
  }

  /** How much of a record reaches the file: all of it, a part, or all but its newline. */
  datatype Write = All | Part | AllButNewline

  datatype Holder =
    | Free
    | Promoting(path: Path, stored: Option<Digest>)
    | Scanning(pending: set<Path>, referenced: set<Digest>, failed: bool)
    | Sweeping(candidates: set<Digest>, referenced: set<Digest>)

  datatype Store = Store(
    objects: map<Digest, Bytes>,
    manifests: map<Path, Manifest>,
    forks: map<nat, set<Digest>>,  // forks that have read their source and not written their target
    holder: Holder)

  datatype Limits = Limits(maxPhysicalBytes: nat, maxPhysicalObjects: nat)

  datatype Step =
    | BeginPromote(path: Path)
    | StoreObject(bytes: Bytes)
    | Authorise(written: Write)
    | GiveUp                                   // a failure or a crash of the lock holder
    | ForkRead(fork: nat, source: Path, selected: set<Digest>)
    | ForkWrite(fork: nat, target: Path)
    | ForkDrop(fork: nat)
    | Recover(path: Path)                      // a lenient load puts a bad tail aside
    | BeginCollect
    | ReadManifest(path: Path)
    | ReadFails(path: Path)                    // the file cannot be read at all
    | EndScan(dryRun: bool)
    | Unlink(digest: Digest)
    | EndCollect
    | Delete(path: Path)                       // the clean-up after a failed fork or import

  function NamedBy(s: Store, paths: set<Path>): set<Digest>
  {
    set p, d | p in paths && p in s.manifests && d in s.manifests[p].Names() :: d
  }

  /** Every digest that some manifest names. */
  function Named(s: Store): set<Digest>
  {
    NamedBy(s, s.manifests.Keys)
  }

  predicate Blocked(s: Store)
  {
    exists p :: p in s.manifests && s.manifests[p].Blocks()
  }

  ghost function TotalBytes(objects: map<Digest, Bytes>): nat
  {
    if objects == map[] then 0
    else
      var d :| d in objects;
      |objects[d]| + TotalBytes(objects - {d})
  }

  lemma {:induction false} TotalBytesWithout(objects: map<Digest, Bytes>, d: Digest)
    requires d in objects
    ensures TotalBytes(objects) == |objects[d]| + TotalBytes(objects - {d})
    decreases |objects|
  {
    var e :| e in objects && TotalBytes(objects) == |objects[e]| + TotalBytes(objects - {e});
    if e != d {
      TotalBytesWithout(objects - {e}, d);
      TotalBytesWithout(objects - {d}, e);
      assert objects - {e} - {d} == objects - {d} - {e};
    }
  }

  lemma TotalBytesWith(objects: map<Digest, Bytes>, d: Digest, bytes: Bytes)
    requires d !in objects
    ensures TotalBytes(objects[d := bytes]) == TotalBytes(objects) + |bytes|
  {
    TotalBytesWithout(objects[d := bytes], d);
    assert objects[d := bytes] - {d} == objects;
  }

  ghost predicate Fits(limits: Limits, objects: map<Digest, Bytes>, bytes: Bytes)
  {
    |objects| + 1 <= limits.maxPhysicalObjects && TotalBytes(objects) + |bytes| <= limits.maxPhysicalBytes
  }

  predicate Enabled(hash: Bytes -> Digest, s: Store, step: Step)
  {
    match step
    case BeginPromote(_) => s.holder.Free?
    case StoreObject(_) => s.holder.Promoting? && s.holder.stored.None?
    case Authorise(_) =>
      // an append loads the file first, which fails on a corrupt one and recovers a glued one
      && s.holder.Promoting? && s.holder.stored.Some?
      && (s.holder.path in s.manifests ==>
            !s.manifests[s.holder.path].tail.Corrupt? && !s.manifests[s.holder.path].tail.Glued?)
    case GiveUp => !s.holder.Free?
    case ForkRead(f, source, selected) =>
      && f !in s.forks && source in s.manifests && selected <= s.manifests[source].Names()
      && !s.manifests[source].tail.Corrupt? && !s.manifests[source].tail.Glued?
    case ForkWrite(f, target) =>
      f in s.forks && (target in s.manifests ==> s.manifests[target] == Manifest({}, Whole))
    case ForkDrop(f) => f in s.forks
    case Recover(p) => p in s.manifests && (s.manifests[p].tail.Torn? || s.manifests[p].tail.Glued?)
    case BeginCollect => s.holder.Free?
    case ReadManifest(p) => s.holder.Scanning? && p in s.holder.pending
    case ReadFails(p) => s.holder.Scanning? && p in s.holder.pending
    case EndScan(_) => s.holder.Scanning? && s.holder.pending == {}
    case Unlink(d) => s.holder.Sweeping? && d in s.holder.candidates
    case EndCollect => s.holder.Sweeping? && s.holder.candidates == {}
    case Delete(p) => p in s.manifests
  }

  /** Puts content in the store.  Content already there is verified and changes
      nothing; a limit or a size mismatch ends the promotion. */
  ghost function Stored(hash: Bytes -> Digest, limits: Limits, s: Store, bytes: Bytes): Store
    requires s.holder.Promoting?
  {
    var d := hash(bytes);
    if d in s.objects then
      if |s.objects[d]| == |bytes| then s.(holder := s.holder.(stored := Some(d))) else s.(holder := Free)
    else if Fits(limits, s.objects, bytes) then
      s.(objects := s.objects[d := bytes], holder := s.holder.(stored := Some(d)))
    else s.(holder := Free)
  }

  /** The manifest after an append, which first recovers a torn tail.  Behind an
      unterminated record the new one runs into it: whole, it makes a line that no
      reader accepts; otherwise a tail that the next load puts aside. */
  function Authorised(m: Option<Manifest>, d: Digest, written: Write): Manifest
    requires m.Some? ==> !m.value.tail.Corrupt? && !m.value.tail.Glued?
  {
    var before := if m.Some? then m.value.digests else {};
    if m.Some? && m.value.tail.Unterminated? then
      if written.All? then Manifest(before + {m.value.tail.last, d}, Corrupt)
      else Manifest(before, Glued(m.value.tail.last))
    else
      match written
      case All => Manifest(before + {d}, Whole)
      case Part => Manifest(before, Torn)
      case AllButNewline => Manifest(before, Unterminated(d))
  }

  ghost function Apply(hash: Bytes -> Digest, limits: Limits, s: Store, step: Step): Store
    requires Enabled(hash, s, step)
  {
    match step
    case BeginPromote(p) => s.(holder := Promoting(p, None))
    case StoreObject(bytes) => Stored(hash, limits, s, bytes)
    case Authorise(written) =>
      var p := s.holder.path;
      var before := if p in s.manifests then Some(s.manifests[p]) else None;
      s.(manifests := s.manifests[p := Authorised(before, s.holder.stored.value, written)], holder := Free)
    case GiveUp => s.(holder := Free)
    case ForkRead(f, _, selected) => s.(forks := s.forks[f := selected])
    case ForkWrite(f, target) =>
      s.(manifests := s.manifests[target := Manifest(s.forks[f], Whole)], forks := s.forks - {f})
    case ForkDrop(f) => s.(forks := s.forks - {f})
    case Recover(p) => s.(manifests := s.manifests[p := Manifest(s.manifests[p].digests, Whole)])
    case BeginCollect => s.(holder := Scanning(s.manifests.Keys, {}, false))
    case ReadManifest(p) =>
      var rest := s.holder.pending - {p};
      if p in s.manifests && s.manifests[p].tail.Whole?
      then s.(holder := Scanning(rest, s.holder.referenced + s.manifests[p].digests, s.holder.failed))
      else s.(holder := Scanning(rest, s.holder.referenced, true))
    case ReadFails(p) => s.(holder := Scanning(s.holder.pending - {p}, s.holder.referenced, true))
    case EndScan(dryRun) =>
      if s.holder.failed || dryRun then s.(holder := Free)
      else s.(holder := Sweeping(s.objects.Keys - s.holder.referenced, s.holder.referenced))
    case Unlink(d) =>
      s.(objects := s.objects - {d}, holder := Sweeping(s.holder.candidates - {d}, s.holder.referenced))
    case EndCollect => s.(holder := Free)
    case Delete(p) => s.(manifests := s.manifests - {p})
  }

  /** The steps that can take a name away: a manifest is deleted, or the recovery of
      a glued tail takes the unterminated record along. */
  predicate Loses(s: Store, step: Step)
  {
    match step
    case Delete(_) => true
    case Recover(p) => p in s.manifests && s.manifests[p].tail.Glued?
    case _ => false
  }
}
