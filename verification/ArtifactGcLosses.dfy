/**
 What losing a name can lead to.  `CanLoseAnObject` says that some continuation
 without a further loss leaves a named digest without its object; the theorems say
 exactly when that is so, and what it means for the two steps that lose names.
 */
module ArtifactGcLosses {
  import opened ArtifactGc
  import opened ArtifactGcSafety

  /** Steps that lose no name lead from one store to another. */
  ghost predicate Leads(hash: Bytes -> Digest, limits: Limits, s: Store, steps: seq<Step>, t: Store)
    decreases |steps|
  {
    if steps == [] then s == t
    else
      && Enabled(hash, s, steps[0]) && !Loses(s, steps[0])
      && Leads(hash, limits, Apply(hash, limits, s, steps[0]), steps[1..], t)
  }

  ghost predicate CanLoseAnObject(hash: Bytes -> Digest, limits: Limits, s: Store)
  {
    exists steps, t :: Leads(hash, limits, s, steps, t) && !Safe(t)
  }

  lemma Then(hash: Bytes -> Digest, limits: Limits, s: Store, step: Step, steps: seq<Step>, t: Store)
    requires Enabled(hash, s, step) && !Loses(s, step) && Leads(hash, limits, Apply(hash, limits, s, step), steps, t)
    ensures Leads(hash, limits, s, [step] + steps, t)
  {
    assert ([step] + steps)[1..] == steps;
  }

  lemma {:induction false} LeadsOn(hash: Bytes -> Digest, limits: Limits, s: Store, a: seq<Step>, t: Store,
                                   b: seq<Step>, u: Store)
    requires Leads(hash, limits, s, a, t) && Leads(hash, limits, t, b, u)
    ensures Leads(hash, limits, s, a + b, u)
    decreases |a|
  {
    if a == [] {
      assert a + b == b;
    } else {
      var step, rest := a[0], a[1..];
      LeadsOn(hash, limits, Apply(hash, limits, s, step), rest, t, b, u);
      Then(hash, limits, s, step, rest + b, u);
      assert a + b == [step] + (rest + b);
    }
  }

  lemma {:induction false} LeadsKeepsInv(hash: Bytes -> Digest, limits: Limits, s: Store, steps: seq<Step>, t: Store)
    requires Inv(s) && Leads(hash, limits, s, steps, t)
    ensures Inv(t)
    decreases |steps|
  {
    if steps != [] {
      StepKeepsInv(hash, limits, s, steps[0]);
      LeadsKeepsInv(hash, limits, Apply(hash, limits, s, steps[0]), steps[1..], t);
    }
  }

  // --------------------------------------------------- from danger to a lost object

  lemma {:induction false} LongestPath(paths: set<Path>) returns (n: nat)
    ensures forall p :: p in paths ==> |p| <= n
  {
    if paths == {} {
      n := 0;
    } else {
      var p :| p in paths;
      n := LongestPath(paths - {p});
      n := if |p| > n then |p| else n;
    }
  }

  lemma NewPath(paths: set<Path>) returns (p: Path)
    ensures p !in paths
  {
    var n := LongestPath(paths);
    p := seq(n + 1, _ => 'a');
  }

  lemma {:induction false} NewFork(forks: set<nat>) returns (f: nat)
    ensures forall g :: g in forks ==> g < f
  {
    if forks == {} {
      f := 0;
    } else {
      var g :| g in forks;
      var f' := NewFork(forks - {g});
      f := if g >= f' then g + 1 else f';
      forall h | h in forks ensures h < f {
        assert h == g || h in forks - {g};
      }
    }
  }

  /** What a scan on the way to a loss keeps: it has not failed, nothing blocks it,
      and it has not come across `x`. */
  predicate Misses(s: Store, x: Digest)
  {
    s.holder.Scanning? && !s.holder.failed && !Blocked(s) && x in s.objects && x !in Cover(s)
    && (s.holder.pending <= s.manifests.Keys || s.manifests != map[])
  }

  predicate Extends(s: Store, t: Store)
  {
    t.forks == s.forks && Named(s) <= Named(t) && t.objects == s.objects && s.manifests.Keys <= t.manifests.Keys
  }

  /** Brings back a manifest that was deleted while it was still to be read. */
  lemma Recreate(hash: Bytes -> Digest, limits: Limits, s: Store, x: Digest, p: Path)
    returns (steps: seq<Step>, t: Store)
    requires Misses(s, x) && p in s.holder.pending && p !in s.manifests
    ensures Leads(hash, limits, s, steps, t) && Misses(t, x) && Extends(s, t) && t.holder == s.holder
    ensures p in t.manifests && t.manifests[p].tail.Whole?
  {
    var q :| q in s.manifests;
    assert !s.manifests[q].Blocks();
    var f := NewFork(s.forks.Keys);
    var read := ForkRead(f, q, {});
    var s1 := Apply(hash, limits, s, read);
    var write := ForkWrite(f, p);
    t := Apply(hash, limits, s1, write);
    assert t.forks == s.forks;
    NamedKeys(s1, t, p);
    SameBlocks(s1, t, p);
    NamedUpdate(s1, t, p, s.holder.pending);
    assert NamedBy(s1, s.holder.pending - {p}) == NamedBy(s1, s.holder.pending);
    steps := [read, write];
    assert steps[1..] == [write] && [write][1..] == [];
  }

  lemma Repair(hash: Bytes -> Digest, limits: Limits, s: Store, x: Digest, p: Path) returns (steps: seq<Step>, t: Store)
    requires Misses(s, x) && p in s.holder.pending && p in s.manifests && s.manifests[p].tail.Torn?
    ensures Leads(hash, limits, s, steps, t) && Misses(t, x) && Extends(s, t) && t.holder == s.holder
    ensures p in t.manifests && t.manifests[p].tail.Whole?
  {
    t := Apply(hash, limits, s, Recover(p));
    NamedKeys(s, t, p);
    SameBlocks(s, t, p);
    NamedUpdate(s, t, p, s.holder.pending);
    NamedSplit(s, p, s.holder.pending);
    steps := [Recover(p)];
    assert steps[1..] == [];
  }

  lemma ReadOn(hash: Bytes -> Digest, limits: Limits, s: Store, x: Digest, p: Path) returns (t: Store)
    requires Misses(s, x) && p in s.holder.pending && p in s.manifests && s.manifests[p].tail.Whole?
    ensures Leads(hash, limits, s, [ReadManifest(p)], t) && Misses(t, x) && Extends(s, t)
    ensures t.holder.pending == s.holder.pending - {p}
  {
    t := Apply(hash, limits, s, ReadManifest(p));
    NamedSplit(s, p, s.holder.pending);
    assert [ReadManifest(p)][1..] == [];
  }

  lemma ReadOne(hash: Bytes -> Digest, limits: Limits, s: Store, x: Digest, p: Path)
    returns (steps: seq<Step>, t: Store)
    requires Misses(s, x) && p in s.holder.pending
    ensures Leads(hash, limits, s, steps, t) && Misses(t, x) && Extends(s, t)
    ensures t.holder.pending == s.holder.pending - {p}
  {
    var s1 := s;
    steps := [];
    if p !in s.manifests {
      steps, s1 := Recreate(hash, limits, s, x, p);
    } else if s.manifests[p].tail.Torn? {
      steps, s1 := Repair(hash, limits, s, x, p);
    } else {
      assert !s.manifests[p].Blocks();
    }
    t := ReadOn(hash, limits, s1, x, p);
    LeadsOn(hash, limits, s, steps, s1, [ReadManifest(p)], t);
    steps := steps + [ReadManifest(p)];
  }

  /** Such a scan can go on until it unlinks the object. */
  lemma {:induction false} ScanLoses(hash: Bytes -> Digest, limits: Limits, s: Store, x: Digest)
    returns (steps: seq<Step>, t: Store)
    requires Misses(s, x)
    ensures Leads(hash, limits, s, steps, t) && x !in t.objects && t.forks == s.forks && Named(s) <= Named(t)
    decreases |s.holder.pending|
  {
    if s.holder.pending == {} {
      var s1 := Apply(hash, limits, s, EndScan(false));
      t := Apply(hash, limits, s1, Unlink(x));
      steps := [EndScan(false), Unlink(x)];
      assert steps[1..] == [Unlink(x)] && [Unlink(x)][1..] == [];
    } else {
      var p :| p in s.holder.pending;
      var first, s1 := ReadOne(hash, limits, s, x, p);
      var rest;
      rest, t := ScanLoses(hash, limits, s1, x);
      LeadsOn(hash, limits, s, first, s1, rest, t);
      steps := first + rest;
    }
  }

  /** A fork that carries a digest without an object can write it down. */
  lemma ForkNamesIt(hash: Bytes -> Digest, limits: Limits, s: Store, f: nat, d: Digest)
    returns (steps: seq<Step>, t: Store)
    requires f in s.forks && d in s.forks[f] && d !in s.objects
    ensures Leads(hash, limits, s, steps, t) && !Safe(t)
  {
    var p := NewPath(s.manifests.Keys);
    t := Apply(hash, limits, s, ForkWrite(f, p));
    NamedKeys(s, t, p);
    steps := [ForkWrite(f, p)];
    assert steps[1..] == [];
  }

  lemma OrphanLoses(hash: Bytes -> Digest, limits: Limits, s: Store, f: nat, d: Digest)
    returns (steps: seq<Step>, t: Store)
    requires !Blocked(s) && f in s.forks && d in s.forks[f] && d !in Named(s) && d in s.objects
    ensures Leads(hash, limits, s, steps, t) && !Safe(t)
  {
    var free, first := s, [];
    if !s.holder.Free? {
      free, first := Apply(hash, limits, s, GiveUp), [GiveUp];
      assert first[1..] == [];
    }
    var scan := Apply(hash, limits, free, BeginCollect);
    var second, s2 := ScanLoses(hash, limits, scan, d);
    Then(hash, limits, free, BeginCollect, second, s2);
    var third;
    third, t := ForkNamesIt(hash, limits, s2, f, d);
    LeadsOn(hash, limits, free, [BeginCollect] + second, s2, third, t);
    steps := ([BeginCollect] + second) + third;
    LeadsOn(hash, limits, s, first, free, steps, t);
    steps := first + steps;
  }

  lemma DangerLoses(hash: Bytes -> Digest, limits: Limits, s: Store) returns (steps: seq<Step>, t: Store)
    requires Safe(s) && Base(s) && Danger(s)
    ensures Leads(hash, limits, s, steps, t) && !Safe(t)
  {
    if Doomed(s) {
      var d :| d in Named(s) && d in s.holder.candidates;
      t := Apply(hash, limits, s, Unlink(d));
      steps := [Unlink(d)];
      assert steps[1..] == [];
    } else if Overlooked(s) {
      var d :| d in Named(s) && d !in Cover(s);
      NamedMeans(s, d);
      steps, t := ScanLoses(hash, limits, s, d);
    } else {
      var f, d :| f in s.forks && d in s.forks[f] && d !in Named(s) && (d !in s.objects || !Blocked(s));
      if d in s.objects {
        steps, t := OrphanLoses(hash, limits, s, f, d);
      } else {
        steps, t := ForkNamesIt(hash, limits, s, f, d);
      }
    }
  }

  /** An object can still be lost exactly when the state is in danger. */
  lemma UnsafeReachableIff(hash: Bytes -> Digest, limits: Limits, s: Store)
    requires Safe(s) && Base(s)
    ensures CanLoseAnObject(hash, limits, s) <==> Danger(s)
  {
    if Danger(s) {
      var steps, t := DangerLoses(hash, limits, s);
    } else if CanLoseAnObject(hash, limits, s) {
      var steps, t :| Leads(hash, limits, s, steps, t) && !Safe(t);
      LeadsKeepsInv(hash, limits, s, steps, t);
    }
  }

  // ------------------------------------------------------------ the two losing steps

  /** Whether another manifest keeps every collection from completing. */
  predicate BlockedElsewhere(s: Store, p: Path)
  {
    exists q :: q in s.manifests && q != p && s.manifests[q].Blocks()
  }

  /** A losing step at `p`, after which the manifests name `names` and a scan in
      progress covers `cover`, can lose an object exactly when no other manifest
      blocks collection and either a fork carries something no longer named or the
      scan will overlook something that is. */
  predicate Hazard(s: Store, p: Path, names: set<Digest>, cover: set<Digest>)
  {
    && !BlockedElsewhere(s, p)
    && (|| (exists f, d :: f in s.forks && d in s.forks[f] && d !in names)
        || (s.holder.Scanning? && !s.holder.failed && !(names <= cover)))
  }

  /** The digests that the losing manifest still names after the step. */
  function KeptNames(s: Store, step: Step): set<Digest>
    requires Loses(s, step)
  {
    if step.Delete? then {} else s.manifests[step.path].digests
  }

  function NamesAfter(s: Store, step: Step): set<Digest>
    requires Loses(s, step)
  {
    NamedBy(s, s.manifests.Keys - {step.path}) + KeptNames(s, step)
  }

  /** What a scan in progress has read or will still read after the step. */
  function CoverAfter(s: Store, step: Step): set<Digest>
    requires Loses(s, step)
  {
    if !s.holder.Scanning? then {}
    else
      s.holder.referenced + NamedBy(s, s.holder.pending - {step.path})
      + if step.path in s.holder.pending then KeptNames(s, step) else {}
  }

  /** Whether a losing step can lose an object, seen before the step. */
  predicate Harms(s: Store, step: Step)
    requires Loses(s, step)
  {
    Hazard(s, step.path, NamesAfter(s, step), CoverAfter(s, step))
  }

  lemma HazardIsDanger(s: Store, t: Store, p: Path, cover: set<Digest>)
    requires Inv(s) && t.forks == s.forks && t.objects == s.objects && t.holder == s.holder
    requires Named(t) <= Named(s) && (Blocked(t) <==> BlockedElsewhere(s, p))
    requires t.holder.Scanning? ==> cover == Cover(t)
    ensures Danger(t) <==> Hazard(s, p, Named(t), cover)
  {
    if f, d :| f in s.forks && d in s.forks[f] && d !in Named(t) {
      assert d in s.objects;
    }
  }

  lemma NamedDelete(s: Store, t: Store, p: Path, paths: set<Path>)
    requires t.manifests == s.manifests - {p}
    ensures NamedBy(t, paths) == NamedBy(s, paths - {p})
  {
    forall d | d in NamedBy(t, paths) ensures d in NamedBy(s, paths - {p}) {
      var q :| q in paths && q in t.manifests && d in t.manifests[q].Names();
      assert q in paths - {p} && q in s.manifests && d in s.manifests[q].Names();
    }
    forall d | d in NamedBy(s, paths - {p}) ensures d in NamedBy(t, paths) {
      var q :| q in paths - {p} && q in s.manifests && d in s.manifests[q].Names();
      assert q in paths && q in t.manifests && d in t.manifests[q].Names();
    }
  }

  lemma HarmIsDanger(hash: Bytes -> Digest, limits: Limits, s: Store, step: Step)
    requires Inv(s) && Enabled(hash, s, step) && Loses(s, step)
    ensures var t := Apply(hash, limits, s, step); Safe(t) && Base(t) && (Danger(t) <==> Harms(s, step))
  {
    var t, p := Apply(hash, limits, s, step), step.path;
    LossKeepsBase(hash, limits, s, step);
    NamedSplit(s, p, s.manifests.Keys);
    if s.holder.Scanning? {
      if step.Delete? {
        NamedDelete(s, t, p, s.holder.pending);
      } else {
        NamedUpdate(s, t, p, s.holder.pending);
      }
      assert Cover(t) == CoverAfter(s, step);
    }
    assert Named(t) == NamesAfter(s, step);
    HazardIsDanger(s, t, p, CoverAfter(s, step));
  }

  /** Deleting a manifest can lose an object exactly when no other manifest blocks
      collection and a fork in flight, or a scan in progress, rests on the deleted
      manifest alone. */
  lemma DeletionLosesIff(hash: Bytes -> Digest, limits: Limits, s: Store, p: Path)
    requires Inv(s) && p in s.manifests
    ensures CanLoseAnObject(hash, limits, Apply(hash, limits, s, Delete(p))) <==> Harms(s, Delete(p))
  {
    HarmIsDanger(hash, limits, s, Delete(p));
    UnsafeReachableIff(hash, limits, Apply(hash, limits, s, Delete(p)));
  }

  /** Recovering a glued tail can lose an object exactly when no other manifest
      blocks collection and a fork in flight, or a scan in progress, rests on the
      record that the recovery takes along. */
  lemma RecoveryLosesIff(hash: Bytes -> Digest, limits: Limits, s: Store, p: Path)
    requires Inv(s) && p in s.manifests && s.manifests[p].tail.Glued?
    ensures CanLoseAnObject(hash, limits, Apply(hash, limits, s, Recover(p))) <==> Harms(s, Recover(p))
  {
    HarmIsDanger(hash, limits, s, Recover(p));
    UnsafeReachableIff(hash, limits, Apply(hash, limits, s, Recover(p)));
  }
}
