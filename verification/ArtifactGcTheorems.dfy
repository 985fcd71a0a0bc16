/** What holds of every run of the artifact store. */
module ArtifactGcTheorems {
  import opened ArtifactGc
  import opened ArtifactGcSafety
  import opened ArtifactGcLosses

  /** A run of the store: any interleaving of promotions, forks and collections. */
  ghost predicate IsRun(hash: Bytes -> Digest, limits: Limits, states: seq<Store>, steps: seq<Step>)
  {
    && |states| == |steps| + 1
    && forall k :: 0 <= k < |steps| ==>
         Enabled(hash, states[k], steps[k]) && states[k + 1] == Apply(hash, limits, states[k], steps[k])
  }

  /** No step of the run loses a name: no manifest is deleted and no recovery takes
      an unterminated record along. */
  predicate LosesNothing(states: seq<Store>, steps: seq<Step>)
    requires |states| == |steps| + 1
  {
    forall k :: 0 <= k < |steps| ==> !Loses(states[k], steps[k])
  }

  /** Every step that loses a name is taken where it does no harm: no fork in flight
      and no scan in progress rests on that name, or another manifest blocks collection. */
  predicate LosesHarmlessly(states: seq<Store>, steps: seq<Step>)
    requires |states| == |steps| + 1
  {
    forall k :: 0 <= k < |steps| && Loses(states[k], steps[k]) ==> !Harms(states[k], steps[k])
  }

  /** A store nobody is working on. */
  predicate Quiet(s: Store)
  {
    s.holder.Free? && s.forks == map[]
  }

  lemma {:induction false} RunKeepsInv(hash: Bytes -> Digest, limits: Limits, states: seq<Store>, steps: seq<Step>,
                                       k: nat)
    requires IsRun(hash, limits, states, steps) && LosesHarmlessly(states, steps) && k <= |steps|
    requires Inv(states[0])
    ensures Inv(states[k])
  {
    if k > 0 {
      RunKeepsInv(hash, limits, states, steps, k - 1);
      if Loses(states[k - 1], steps[k - 1]) {
        HarmIsDanger(hash, limits, states[k - 1], steps[k - 1]);
      } else {
        StepKeepsInv(hash, limits, states[k - 1], steps[k - 1]);
      }
    }
  }

  /** Collection never removes a live object: from a sound and quiet store, at
      every point of every interleaving, every digest that any manifest names has
      its object, as long as every step that loses a name is harmless where it is
      taken. */
  lemma LiveObjectsSurvive(hash: Bytes -> Digest, limits: Limits, states: seq<Store>, steps: seq<Step>, k: nat)
    requires IsRun(hash, limits, states, steps) && LosesHarmlessly(states, steps) && k <= |steps|
    requires Quiet(states[0]) && Safe(states[0])
    ensures forall p, d :: p in states[k].manifests && d in states[k].manifests[p].Names() ==> d in states[k].objects
  {
    RunKeepsInv(hash, limits, states, steps, k);
    forall p, d | p in states[k].manifests && d in states[k].manifests[p].Names() ensures d in states[k].objects {
      NamedMeans(states[k], d);
    }
  }

  // -------------------------------------------------------------- one collection

  predicate Collecting(s: Store)
  {
    s.holder.Scanning? || s.holder.Sweeping?
  }

  /** What a collection keeps true of the store it began with.  A store that is
      blocked stays blocked, and nothing is deleted from it.  Otherwise the set of
      named digests stands still while the lock is held, since forks only copy. */
  predicate Collects(begin: Store, s: Store)
  {
    && (Blocked(s) <==> Blocked(begin))
    && s.objects.Keys <= begin.objects.Keys
    && (forall d :: d in s.objects ==> s.objects[d] == begin.objects[d])
    && (s.holder.Scanning? ==> s.objects == begin.objects && s.holder.pending <= s.manifests.Keys)
    && (!Blocked(begin) ==> Named(s) == Named(begin) && (s.holder.Scanning? ==> s.holder.referenced <= Named(s)))
    && (s.holder.Sweeping? ==> !Blocked(begin) && s.holder.referenced == Named(s)
                               && begin.objects.Keys * Named(s) <= s.objects.Keys
                               && s.objects.Keys <= Named(s) + s.holder.candidates)
  }

  lemma ScanCollects(hash: Bytes -> Digest, limits: Limits, begin: Store, s: Store, step: Step)
    requires Inv(s) && s.holder.Scanning? && Collects(begin, s)
    requires Enabled(hash, s, step) && (step.ReadManifest? || step.ReadFails? || step.EndScan?)
    requires Collecting(Apply(hash, limits, s, step))
    ensures Collects(begin, Apply(hash, limits, s, step))
  {
    match step
    case ReadManifest(p) =>
      NamedSplit(s, p, s.manifests.Keys);
    case EndScan(_) =>
      assert NamedBy(s, {}) == {};
    case _ =>
  }

  lemma StepCollects(hash: Bytes -> Digest, limits: Limits, begin: Store, s: Store, step: Step)
    requires Inv(s) && Collecting(s) && Collects(begin, s)
    requires Enabled(hash, s, step) && !Loses(s, step)
    requires Collecting(Apply(hash, limits, s, step))
    ensures Collects(begin, Apply(hash, limits, s, step))
  {
    match step
    case ForkWrite(f, target) =>
      ForkWriteKeepsInv(hash, limits, s, f, target);
      if !Blocked(s) {
        assert s.forks[f] <= Named(s);
      }
    case Recover(p) => RecoverKeepsInv(hash, limits, s, p);
    case ReadManifest(_) => ScanCollects(hash, limits, begin, s, step);
    case ReadFails(_) => ScanCollects(hash, limits, begin, s, step);
    case EndScan(_) => ScanCollects(hash, limits, begin, s, step);
    case _ =>
  }

  /** A collection from its first step on: `states[0]` is the store when it began,
      and it holds the lock in all the later states.  Manifests may be deleted and
      tails recovered meanwhile. */
  ghost predicate IsCollection(hash: Bytes -> Digest, limits: Limits, states: seq<Store>, steps: seq<Step>)
  {
    && IsRun(hash, limits, states, steps)
    && |steps| > 0 && steps[0].BeginCollect?
    && forall k :: 0 < k < |states| ==> Collecting(states[k])
  }

  lemma {:induction false} CollectionKeeps(hash: Bytes -> Digest, limits: Limits, states: seq<Store>,
                                           steps: seq<Step>, k: nat)
    requires IsCollection(hash, limits, states, steps) && 0 < k <= |steps|
    requires LosesNothing(states, steps) && Inv(states[0])
    ensures Collects(states[0], states[k]) && Inv(states[k])
  {
    RunKeepsInv(hash, limits, states, steps, k);
    if k > 1 {
      CollectionKeeps(hash, limits, states, steps, k - 1);
      StepCollects(hash, limits, states[0], states[k - 1], steps[k - 1]);
    }
  }

  lemma {:induction false} FailureSticks(hash: Bytes -> Digest, limits: Limits, states: seq<Store>, steps: seq<Step>,
                                         j: nat, k: nat)
    requires IsCollection(hash, limits, states, steps) && 0 < j <= k <= |steps|
    requires states[j].holder.Scanning? && states[j].holder.failed
    ensures states[k].holder.Scanning? && states[k].holder.failed
  {
    if j < k {
      FailureSticks(hash, limits, states, steps, j, k - 1);
      assert Collecting(states[k]);
    }
  }

  /** A step that meets a manifest which is gone, cannot be read, or that the strict
      reader refuses. */
  predicate MeetsBadManifest(s: Store, step: Step)
  {
    || step.ReadFails?
    || (step.ReadManifest? && (step.path !in s.manifests || !s.manifests[step.path].tail.Whole?))
  }

  /** What a collection does to the objects it began with: nothing while it scans,
      and then it takes those away that it has seen no manifest name. */
  predicate Sweeps(begin: Store, s: Store)
  {
    match s.holder
    case Scanning(_, _, _) => s.objects == begin.objects
    case Sweeping(candidates, referenced) =>
      && candidates <= begin.objects.Keys - referenced
      && s.objects == begin.objects - (begin.objects.Keys - referenced - candidates)
    case _ => true
  }

  lemma StepSweeps(hash: Bytes -> Digest, limits: Limits, begin: Store, s: Store, step: Step)
    requires Collecting(s) && Sweeps(begin, s) && Enabled(hash, s, step)
    ensures Sweeps(begin, Apply(hash, limits, s, step))
  {
    if step.Unlink? {
      var gone := begin.objects.Keys - s.holder.referenced - s.holder.candidates;
      assert begin.objects.Keys - s.holder.referenced - (s.holder.candidates - {step.digest}) == gone + {step.digest};
    }
  }

  lemma {:induction false} CollectionSweeps(hash: Bytes -> Digest, limits: Limits, states: seq<Store>,
                                            steps: seq<Step>, k: nat)
    requires IsCollection(hash, limits, states, steps) && 0 < k <= |steps|
    ensures Sweeps(states[0], states[k])
  {
    if k > 1 {
      CollectionSweeps(hash, limits, states, steps, k - 1);
      StepSweeps(hash, limits, states[0], states[k - 1], steps[k - 1]);
    }
  }

  /** A collection that meets one bad manifest deletes nothing, then or later. */
  lemma BadManifestDeletesNothing(hash: Bytes -> Digest, limits: Limits, states: seq<Store>, steps: seq<Step>, j: nat,
                                  k: nat)
    requires IsCollection(hash, limits, states, steps) && 0 < j < k <= |steps|
    requires MeetsBadManifest(states[j], steps[j])
    ensures states[k].objects == states[0].objects
  {
    FailureSticks(hash, limits, states, steps, j + 1, k);
    CollectionSweeps(hash, limits, states, steps, k);
  }

  /** A collection that completes leaves exactly the objects that it has seen some
      manifest name, each with the bytes it had, whatever was lost meanwhile. */
  lemma CompletedLeavesTheReferenced(hash: Bytes -> Digest, limits: Limits, states: seq<Store>, steps: seq<Step>)
    requires IsCollection(hash, limits, states, steps)
    requires Enabled(hash, states[|steps|], EndCollect)
    ensures var end := states[|steps|];
            && end.objects.Keys == states[0].objects.Keys * end.holder.referenced
            && forall d :: d in end.objects ==> end.objects[d] == states[0].objects[d]
  {
    CollectionSweeps(hash, limits, states, steps, |steps|);
  }

  /** While no name is lost, these are exactly the objects that some manifest names. */
  lemma CompletedLeavesExactlyTheNamed(hash: Bytes -> Digest, limits: Limits, states: seq<Store>, steps: seq<Step>)
    requires IsCollection(hash, limits, states, steps) && LosesNothing(states, steps) && Inv(states[0])
    requires Enabled(hash, states[|steps|], EndCollect)
    ensures var end := states[|steps|];
            && end.objects.Keys == Named(end) == Named(states[0])
            && forall d :: d in end.objects ==> d in states[0].objects && end.objects[d] == states[0].objects[d]
  {
    CollectionKeeps(hash, limits, states, steps, |steps|);
  }

  // --------------------------------------------------------- how objects are lost

  /** A fork takes no maintenance lock, so deleting its source while it runs lets a
      collection take the object from under it. */
  lemma DeletionCanLoseAForkedObject(hash: Bytes -> Digest, limits: Limits, d: Digest)
    returns (states: seq<Store>, steps: seq<Step>)
    ensures IsRun(hash, limits, states, steps)
    ensures Quiet(states[0]) && Safe(states[0])
    ensures !Safe(states[|steps|])
    ensures forall k :: 0 <= k < |steps| && steps[k].Delete? ==> k == 1
  {
    var s := Store(map[d := ""], map["a" := Manifest({d}, Whole)], map[], Free);
    states, steps := [s], [];
    states, steps, s := Extend(hash, limits, states, steps, ForkRead(0, "a", {d}));
    states, steps, s := Extend(hash, limits, states, steps, Delete("a"));
    assert s.manifests == map[];
    states, steps, s := Extend(hash, limits, states, steps, BeginCollect);
    states, steps, s := CollectForked(hash, limits, states, steps, d);
  }

  /** A fork takes an object whose record lacks its newline, and the next append to
      the manifest is cut. */
  lemma ForkThenShortWrite(hash: Bytes -> Digest, limits: Limits, bytes: Bytes, forked: set<Digest>)
    returns (states: seq<Store>, steps: seq<Step>)
    requires forked == {hash(bytes)}
    ensures IsRun(hash, limits, states, steps) && Quiet(states[0]) && Safe(states[0])
    ensures forall k :: 0 <= k < |steps| ==> !Loses(states[k], steps[k])
    ensures states[|steps|]
         == Store(map[hash(bytes) := bytes], map["a" := Manifest({}, Glued(hash(bytes)))], map[0 := forked], Free)
  {
    var d := hash(bytes);
    var s := Store(map[d := bytes], map["a" := Manifest({}, Unterminated(d))], map[], Free);
    states, steps := [s], [];
    states, steps, s := Extend(hash, limits, states, steps, ForkRead(0, "a", forked));
    states, steps, s := Extend(hash, limits, states, steps, BeginPromote("a"));
    states, steps, s := Extend(hash, limits, states, steps, StoreObject(bytes));
    states, steps, s := Extend(hash, limits, states, steps, Authorise(Part));
  }

  /** Two short writes are enough: a manifest names an object in a record that lacks
      its newline, a fork takes it, the next append is cut too, and the recovery of
      both records lets a collection take the object from under the fork. */
  lemma RecoveryCanLoseAForkedObject(hash: Bytes -> Digest, limits: Limits, bytes: Bytes)
    returns (states: seq<Store>, steps: seq<Step>)
    ensures IsRun(hash, limits, states, steps)
    ensures Quiet(states[0]) && Safe(states[0])
    ensures !Safe(states[|steps|])
    ensures forall k :: 0 <= k < |steps| && Loses(states[k], steps[k]) ==> steps[k] == Recover("a")
  {
    var s;
    states, steps := ForkThenShortWrite(hash, limits, bytes, {hash(bytes)});
    states, steps, s := Extend(hash, limits, states, steps, Recover("a"));
    assert s.manifests == map["a" := Manifest({}, Whole)];
    states, steps, s := Extend(hash, limits, states, steps, BeginCollect);
    states, steps, s := Extend(hash, limits, states, steps, ReadManifest("a"));
    states, steps, s := CollectForked(hash, limits, states, steps, hash(bytes));
  }

  /** The end of both stories: a scan that has seen no manifest name the digest
      unlinks its object, and the fork that carries it names it after all. */
  lemma CollectForked(hash: Bytes -> Digest, limits: Limits, states: seq<Store>, steps: seq<Step>, d: Digest)
    returns (states': seq<Store>, steps': seq<Step>, s: Store)
    requires IsRun(hash, limits, states, steps)
    requires states[|steps|].holder == Scanning({}, {}, false) && d in states[|steps|].objects
    requires 0 in states[|steps|].forks && states[|steps|].forks[0] == {d} && "b" !in states[|steps|].manifests
    ensures IsRun(hash, limits, states', steps') && states <= states' && steps <= steps'
    ensures s == states'[|steps'|] && !Safe(s)
    ensures forall k :: |steps| <= k < |steps'| ==> !Loses(states'[k], steps'[k])
  {
    states', steps', s := Extend(hash, limits, states, steps, EndScan(false));
    states', steps', s := Extend(hash, limits, states', steps', Unlink(d));
    states', steps', s := Extend(hash, limits, states', steps', ForkWrite(0, "b"));
    assert s.manifests["b"] == Manifest({d}, Whole);
    NamedMeans(s, d);
  }

  lemma Extend(hash: Bytes -> Digest, limits: Limits, states: seq<Store>, steps: seq<Step>, step: Step)
    returns (states': seq<Store>, steps': seq<Step>, s: Store)
    requires IsRun(hash, limits, states, steps) && Enabled(hash, states[|steps|], step)
    ensures s == Apply(hash, limits, states[|steps|], step)
    ensures steps' == steps + [step] && states' == states + [s] && IsRun(hash, limits, states', steps')
  {
    s := Apply(hash, limits, states[|steps|], step);
    steps', states' := steps + [step], states + [s];
  }

  // ------------------------------------------------------------- store quotas

  /** Every object is filed under the digest of its bytes, and the store is within
      its limits. */
  ghost predicate WellStored(hash: Bytes -> Digest, limits: Limits, objects: map<Digest, Bytes>)
  {
    && (forall d :: d in objects ==> d == hash(objects[d]))
    && |objects| <= limits.maxPhysicalObjects
    && TotalBytes(objects) <= limits.maxPhysicalBytes
  }

  lemma StepKeepsWellStored(hash: Bytes -> Digest, limits: Limits, s: Store, step: Step)
    requires WellStored(hash, limits, s.objects) && Enabled(hash, s, step)
    ensures WellStored(hash, limits, Apply(hash, limits, s, step).objects)
  {
    match step
    case StoreObject(bytes) =>
      if hash(bytes) !in s.objects {
        TotalBytesWith(s.objects, hash(bytes), bytes);
      }
    case Unlink(d) =>
      if d in s.objects {
        TotalBytesWithout(s.objects, d);
        assert s.objects.Keys - {d} == (s.objects - {d}).Keys;
      } else {
        assert s.objects - {d} == s.objects;
      }
    case _ =>
  }

  /** At every point of every run, deletions included, the store is within its
      limits and every object carries its own digest. */
  lemma {:induction false} QuotasHold(hash: Bytes -> Digest, limits: Limits, states: seq<Store>, steps: seq<Step>,
                                      k: nat)
    requires IsRun(hash, limits, states, steps) && k <= |steps|
    requires WellStored(hash, limits, states[0].objects)
    ensures WellStored(hash, limits, states[k].objects)
  {
    if k > 0 {
      QuotasHold(hash, limits, states, steps, k - 1);
      StepKeepsWellStored(hash, limits, states[k - 1], steps[k - 1]);
    }
  }
}
