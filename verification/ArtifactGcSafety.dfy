/**
 When a live object can be lost.  `Danger` says of one state what it takes; the
 invariant is its absence, and `UnsafeReachableIff` shows that it is exact.
 */
module ArtifactGcSafety {
  import opened ArtifactGc

  /** Every named digest has its object. */
  predicate Safe(s: Store)
  {
    Named(s) <= s.objects.Keys
  }

  /** What a scan has read, or has still to read. */
  function Cover(s: Store): set<Digest>
    requires s.holder.Scanning?
  {
    s.holder.referenced + NamedBy(s, s.holder.pending)
  }

  /** What no step breaks, not even one that loses a name: a promotion's object is
      there until it is authorised, and a scan that has not failed has not yet read
      any manifest that blocks it. */
  predicate Base(s: Store)
  {
    match s.holder
    case Free => true
    case Promoting(_, stored) => stored.Some? ==> stored.value in s.objects
    case Scanning(pending, _, failed) =>
      !failed ==> forall p :: p in s.manifests && p !in pending ==> !s.manifests[p].Blocks()
    case Sweeping(_, _) => !Blocked(s)
  }

  /** A fork carries a digest that no manifest names, and nothing keeps a collection
      from taking its object. */
  predicate Orphaned(s: Store)
  {
    exists f, d :: f in s.forks && d in s.forks[f] && d !in Named(s) && (d !in s.objects || !Blocked(s))
  }

  /** A scan that can still succeed will not see a named digest. */
  predicate Overlooked(s: Store)
  {
    s.holder.Scanning? && !s.holder.failed && !Blocked(s) && exists d :: d in Named(s) && d !in Cover(s)
  }

  /** A named digest is about to be unlinked. */
  predicate Doomed(s: Store)
  {
    s.holder.Sweeping? && exists d :: d in Named(s) && d in s.holder.candidates
  }

  predicate Danger(s: Store)
  {
    Orphaned(s) || Overlooked(s) || Doomed(s)
  }

  predicate Inv(s: Store)
  {
    Safe(s) && Base(s) && !Danger(s)
  }

  // ------------------------------------------------------- the invariant is kept

  lemma NamedMeans(s: Store, d: Digest)
    ensures d in Named(s) <==> exists p :: p in s.manifests && d in s.manifests[p].Names()
  {
    if d in Named(s) {
      var p :| p in s.manifests.Keys && p in s.manifests && d in s.manifests[p].Names();
    }
    if p :| p in s.manifests && d in s.manifests[p].Names() {
      assert p in s.manifests.Keys;
    }
  }

  /** How the names change when one manifest does. */
  lemma NamedUpdate(s: Store, t: Store, p: Path, paths: set<Path>)
    requires p in t.manifests && t.manifests == s.manifests[p := t.manifests[p]]
    ensures NamedBy(t, paths) == NamedBy(s, paths - {p}) + if p in paths then t.manifests[p].Names() else {}
  {
    forall d | d in NamedBy(t, paths)
      ensures d in NamedBy(s, paths - {p}) + if p in paths then t.manifests[p].Names() else {}
    {
      var q :| q in paths && q in t.manifests && d in t.manifests[q].Names();
      assert q != p ==> q in paths - {p} && q in s.manifests;
    }
    forall d | d in NamedBy(s, paths - {p}) ensures d in NamedBy(t, paths) {
      var q :| q in paths - {p} && q in s.manifests && d in s.manifests[q].Names();
      assert q in paths && q in t.manifests && d in t.manifests[q].Names();
    }
    if p in paths {
      forall d | d in t.manifests[p].Names() ensures d in NamedBy(t, paths) {
      }
    }
  }

  lemma NamedSplit(s: Store, p: Path, paths: set<Path>)
    requires p in s.manifests && p in paths
    ensures NamedBy(s, paths) == NamedBy(s, paths - {p}) + s.manifests[p].Names()
  {
  }

  lemma NamedKeys(s: Store, t: Store, p: Path)
    requires p in t.manifests && t.manifests == s.manifests[p := t.manifests[p]]
    ensures Named(t) == NamedBy(s, s.manifests.Keys - {p}) + t.manifests[p].Names()
    ensures p in s.manifests ==> Named(s) == NamedBy(s, s.manifests.Keys - {p}) + s.manifests[p].Names()
    ensures p !in s.manifests ==> Named(s) == NamedBy(s, s.manifests.Keys - {p})
  {
    NamedUpdate(s, t, p, t.manifests.Keys);
    assert t.manifests.Keys - {p} == s.manifests.Keys - {p};
    if p in s.manifests {
      NamedSplit(s, p, s.manifests.Keys);
    } else {
      assert s.manifests.Keys - {p} == s.manifests.Keys;
    }
  }

  lemma AuthoriseKeepsInv(hash: Bytes -> Digest, limits: Limits, s: Store, written: Write)
    requires Inv(s) && Enabled(hash, s, Authorise(written))
    ensures Inv(Apply(hash, limits, s, Authorise(written)))
  {
    var t := Apply(hash, limits, s, Authorise(written));
    var p := s.holder.path;
    NamedKeys(s, t, p);
    assert Named(s) <= Named(t) <= Named(s) + {s.holder.stored.value};
    assert Blocked(s) ==> Blocked(t) by {
      if Blocked(s) {
        var q :| q in s.manifests && s.manifests[q].Blocks();
        assert q in t.manifests && t.manifests[q].Blocks();
      }
    }
  }

  lemma ForkWriteKeepsInv(hash: Bytes -> Digest, limits: Limits, s: Store, f: nat, target: Path)
    requires Inv(s) && Enabled(hash, s, ForkWrite(f, target))
    ensures Inv(Apply(hash, limits, s, ForkWrite(f, target)))
    ensures Named(Apply(hash, limits, s, ForkWrite(f, target))) == Named(s) + s.forks[f]
    ensures Blocked(Apply(hash, limits, s, ForkWrite(f, target))) == Blocked(s)
  {
    var t := Apply(hash, limits, s, ForkWrite(f, target));
    NamedKeys(s, t, target);
    assert Named(t) == Named(s) + s.forks[f];
    assert s.forks[f] <= s.objects.Keys by {
      forall d | d in s.forks[f] ensures d in s.objects {
      }
    }
    SameBlocks(s, t, target);
    if s.holder.Scanning? && !Blocked(s) {
      NamedUpdate(s, t, target, s.holder.pending);
      assert NamedBy(s, s.holder.pending) <= NamedBy(t, s.holder.pending);
    }
  }

  /** Changing a manifest that does not block into another that does not. */
  lemma SameBlocks(s: Store, t: Store, p: Path)
    requires p in t.manifests && t.manifests == s.manifests[p := t.manifests[p]] && !t.manifests[p].Blocks()
    requires p in s.manifests ==> !s.manifests[p].Blocks()
    ensures Blocked(t) == Blocked(s)
  {
    if Blocked(s) {
      var q :| q in s.manifests && s.manifests[q].Blocks();
      assert q in t.manifests && t.manifests[q].Blocks();
    }
    if Blocked(t) {
      var q :| q in t.manifests && t.manifests[q].Blocks();
      assert q in s.manifests && s.manifests[q].Blocks();
    }
  }

  lemma RecoverKeepsInv(hash: Bytes -> Digest, limits: Limits, s: Store, p: Path)
    requires Inv(s) && Enabled(hash, s, Recover(p)) && !Loses(s, Recover(p))
    ensures Inv(Apply(hash, limits, s, Recover(p)))
    ensures Named(Apply(hash, limits, s, Recover(p))) == Named(s)
    ensures Blocked(Apply(hash, limits, s, Recover(p))) == Blocked(s)
  {
    var t := Apply(hash, limits, s, Recover(p));
    NamedKeys(s, t, p);
    SameBlocks(s, t, p);
    if s.holder.Scanning? {
      NamedUpdate(s, t, p, s.holder.pending);
      if p in s.holder.pending {
        NamedSplit(s, p, s.holder.pending);
      } else {
        assert s.holder.pending - {p} == s.holder.pending;
      }
    }
  }

  lemma StoreKeepsInv(hash: Bytes -> Digest, limits: Limits, s: Store, bytes: Bytes)
    requires Inv(s) && Enabled(hash, s, StoreObject(bytes))
    ensures Inv(Apply(hash, limits, s, StoreObject(bytes)))
  {
    MoreObjects(s, Apply(hash, limits, s, StoreObject(bytes)));
  }

  /** More objects, and no collection in progress, endanger nothing. */
  lemma MoreObjects(s: Store, t: Store)
    requires Safe(s) && !Danger(s) && t.manifests == s.manifests && t.forks == s.forks
    requires s.objects.Keys <= t.objects.Keys && !t.holder.Scanning? && !t.holder.Sweeping?
    ensures Safe(t) && !Danger(t)
  {
    assert Named(t) == Named(s) && Blocked(t) == Blocked(s);
  }

  lemma StepKeepsInv(hash: Bytes -> Digest, limits: Limits, s: Store, step: Step)
    requires Inv(s) && Enabled(hash, s, step) && !Loses(s, step)
    ensures Inv(Apply(hash, limits, s, step))
  {
    match step
    case Authorise(written) => AuthoriseKeepsInv(hash, limits, s, written);
    case ForkWrite(f, target) => ForkWriteKeepsInv(hash, limits, s, f, target);
    case Recover(p) => RecoverKeepsInv(hash, limits, s, p);
    case StoreObject(bytes) => StoreKeepsInv(hash, limits, s, bytes);
    case _ =>
  }

  /** A step that loses names leaves the rest of the invariant in place. */
  lemma LossKeepsBase(hash: Bytes -> Digest, limits: Limits, s: Store, step: Step)
    requires Safe(s) && Base(s) && Enabled(hash, s, step) && Loses(s, step)
    ensures var t := Apply(hash, limits, s, step);
            && Safe(t) && Base(t) && t.objects == s.objects && t.forks == s.forks && t.holder == s.holder
            && (step.Delete? ==> Named(t) == NamedBy(s, s.manifests.Keys - {step.path}))
            && (step.Recover? ==>
                  Named(t) == NamedBy(s, s.manifests.Keys - {step.path}) + s.manifests[step.path].digests)
            && (Blocked(t) <==> exists q :: q in s.manifests && q != step.path && s.manifests[q].Blocks())
  {
    var t := Apply(hash, limits, s, step);
    var p := step.path;
    NamedSplit(s, p, s.manifests.Keys);
    if step.Recover? {
      NamedKeys(s, t, p);
    } else {
      assert t.manifests.Keys == s.manifests.Keys - {p};
      assert Named(t) == NamedBy(s, s.manifests.Keys - {p});
    }
    if q :| q in s.manifests && q != p && s.manifests[q].Blocks() {
      assert q in t.manifests && t.manifests[q].Blocks();
    }
    if Blocked(t) {
      var q :| q in t.manifests && t.manifests[q].Blocks();
      assert q in s.manifests && q != p && s.manifests[q].Blocks();
    }
  }
}
