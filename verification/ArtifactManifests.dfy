/** A session's manifest: the entries in memory over an append-only file. */
module ArtifactManifests {
  import opened Options
  import opened Json
  import opened ManifestRecords
  import opened ManifestFiles
  import opened ManifestReaders
  import opened ManifestAppends

  datatype SessionLimits = SessionLimits(maxSessionObjects: nat, maxSessionLogicalBytes: nat)

  datatype AppendResult =
    | Appended | AlreadyThere | InvalidEntry | CorruptManifest(line: nat) | DuplicateId | SessionLimit

  datatype ForkResult = Forked(target: ArtifactManifest) | NotForked(why: ForkError)
  datatype ForkError = SourceCorrupt(line: nat) | ForkLimit | TargetExists

  function LogicalBytes(entries: seq<Entry>): int
  {
    if entries == [] then 0 else LogicalBytes(entries[..|entries| - 1]) + entries[|entries| - 1].byteSize
  }

  predicate Within(limits: SessionLimits, entries: seq<Entry>)
  {
    |entries| <= limits.maxSessionObjects && LogicalBytes(entries) <= limits.maxSessionLogicalBytes
  }

  /** The index agrees with the entries. */
  predicate Indexed(entries: seq<Entry>, byId: map<Text, Entry>)
  {
    && DistinctIds(entries)
    && (forall e :: e in entries ==> e.id in byId && byId[e.id] == e)
    && (forall id :: id in byId ==> byId[id] in entries && byId[id].id == id)
  }

  lemma FindIndexed(entries: seq<Entry>, byId: map<Text, Entry>, id: Text)
    requires Indexed(entries, byId)
    ensures Find(entries, id) == if id in byId then Some(byId[id]) else None
  {
  }

  lemma IndexedMore(entries: seq<Entry>, byId: map<Text, Entry>, e: Entry)
    requires Indexed(entries, byId) && e.id !in byId
    ensures Indexed(entries + [e], byId[e.id := e])
  {
  }

  lemma {:induction false} InnerLinesTerminate(raw: Bytes, i: nat)
    requires i + 1 < |SplitLines(raw)|
    ensures Terminated(SplitLines(raw)[i])
  {
    var n := FirstLine(raw);
    FirstLineShape(raw, n);
    if i > 0 {
      InnerLinesTerminate(raw[n..], i - 1);
    }
  }

  lemma {:induction false} FoldStops(read: Reader, lines: seq<Bytes>, i: nat)
    requires i <= |lines| && Fold(read, lines[..i]).Corrupt?
    ensures Fold(read, lines) == Fold(read, lines[..i])
    decreases |lines|
  {
    if i < |lines| {
      assert lines[..|lines| - 1][..i] == lines[..i];
      FoldStops(read, lines[..|lines| - 1], i);
    } else {
      assert lines[..i] == lines;
    }
  }

  lemma FoldNext(read: Reader, lines: seq<Bytes>, i: nat)
    requires i < |lines| && Fold(read, lines[..i]).Entries?
    ensures Fold(read, lines[..i + 1]) == Add(Fold(read, lines[..i]).entries, read(lines[i]), i + 1)
  {
    assert lines[..i + 1][..i] == lines[..i];
  }

  /** Takes one line into the entries and their index. */
  method Take(entries: seq<Entry>, byId: map<Text, Entry>, line: Line)
    returns (ok: bool, entries': seq<Entry>, byId': map<Text, Entry>)
    requires Indexed(entries, byId)
    ensures Indexed(entries', byId')
    ensures forall n :: Add(entries, line, n) == if ok then Entries(entries') else Corrupt(n)
  {
    entries', byId' := entries, byId;
    match line
    case Blank => ok := true;
    case Malformed => ok := false;
    case Rejected => ok := false;
    case Accepted(e) =>
      if e.id in byId {
        ok := byId[e.id] == e;
      } else {
        ok, entries', byId' := true, entries + [e], byId[e.id := e];
      }
  }

  lemma StrictFails(read: Reader, raw: Bytes, i: nat, n: nat)
    requires i < |SplitLines(raw)| && Fold(read, SplitLines(raw)[..i + 1]) == Corrupt(n)
    requires i + 1 == |SplitLines(raw)| ==> !OpenEnded(raw)
    ensures ReadStrict(read, raw) == Corrupt(n)
  {
    var lines := SplitLines(raw);
    FoldStops(read, lines, i + 1);
    if OpenEnded(raw) {
      assert lines[..|lines| - 1][..i + 1] == lines[..i + 1];
      FoldStops(read, lines[..|lines| - 1], i + 1);
    }
  }

  lemma LastLineTerminates(raw: Bytes)
    requires raw != ""
    ensures SplitLines(raw) != []
    ensures Terminated(SplitLines(raw)[|SplitLines(raw)| - 1]) <==> Terminated(raw)
  {
    LastLine(raw);
  }

  /** The strict reader, as a loop over the lines. */
  method ReadArtifactManifestStrict(read: Reader, raw: Bytes) returns (r: Outcome)
    ensures r == ReadStrict(read, raw)
  {
    var lines := SplitLines(raw);
    var entries: seq<Entry> := [];
    var byId: map<Text, Entry> := map[];
    if raw != "" {
      LastLineTerminates(raw);
    }
    for i := 0 to |lines|
      invariant Fold(read, lines[..i]) == Entries(entries) && Indexed(entries, byId)
      invariant i == |lines| ==> !OpenEnded(raw)
    {
      var line := lines[i];
      if i + 1 < |lines| {
        InnerLinesTerminate(raw, i);
      }
      if !IsBlank(line) && !Terminated(line) {
        return Corrupt(i + 1);
      }
      FoldNext(read, lines, i);
      var ok;
      ok, entries, byId := Take(entries, byId, read(line));
      if !ok {
        StrictFails(read, raw, i, i + 1);
        return Corrupt(i + 1);
      }
    }
    assert lines[..|lines|] == lines;
    return Entries(entries);
  }

  /** Whether line `i` is a torn tail. */
  predicate TornAt(read: Reader, raw: Bytes, i: nat)
    requires i < |SplitLines(raw)|
  {
    i + 1 == |SplitLines(raw)| && !Terminated(raw) && read(SplitLines(raw)[i]) == Line.Malformed
  }

  lemma LoadFails(read: Reader, raw: Bytes, i: nat, n: nat)
    requires i < |SplitLines(raw)| && Fold(read, SplitLines(raw)[..i + 1]) == Corrupt(n)
    requires !TornAt(read, raw, i)
    ensures Load(read, raw) == Failed(n)
  {
    var lines := SplitLines(raw);
    var k := |lines| - 1;
    FoldStops(read, lines, i + 1);
    if TornAt(read, raw, k) {
      assert lines[..k][..i + 1] == lines[..i + 1];
      FoldStops(read, lines[..k], i + 1);
    }
  }

  lemma LoadTears(read: Reader, raw: Bytes, entries: seq<Entry>, k: nat)
    requires k + 1 == |SplitLines(raw)| && TornAt(read, raw, k)
    requires Fold(read, SplitLines(raw)[..k]) == Entries(entries)
    ensures SplitLines(raw)[k] != ""
    ensures Load(read, raw) == Loaded(entries, Concat(SplitLines(raw)[..k]), SplitLines(raw)[k])
  {
    LastIsNotEmpty(raw);
  }

  lemma LoadsWhole(read: Reader, raw: Bytes, entries: seq<Entry>)
    requires Fold(read, SplitLines(raw)[..|SplitLines(raw)|]) == Entries(entries)
    requires |SplitLines(raw)| > 0 ==> !TornAt(read, raw, |SplitLines(raw)| - 1)
    ensures Load(read, raw) == Loaded(entries, raw, "")
  {
    var lines := SplitLines(raw);
    assert lines[..|lines|] == lines;
  }

  /** The lenient reader, as a loop over the lines. */
  method ReadLenient(read: Reader, raw: Bytes) returns (r: Loaded, entries: seq<Entry>, byId: map<Text, Entry>)
    ensures r == Load(read, raw)
    ensures Indexed(entries, byId) && (r.Loaded? ==> entries == r.entries)
  {
    entries, byId := [], map[];
    var lines := SplitLines(raw);
    if raw != "" {
      LastLineTerminates(raw);
    }
    for i := 0 to |lines|
      invariant Fold(read, lines[..i]) == Entries(entries) && Indexed(entries, byId)
      invariant 0 < i ==> !TornAt(read, raw, i - 1)
    {
      var line := lines[i];
      if read(line) == Line.Malformed && i == |lines| - 1 && !Terminated(line) {
        LoadTears(read, raw, entries, i);
        return Loaded(entries, Concat(lines[..i]), line), entries, byId;
      }
      FoldNext(read, lines, i);
      var ok;
      ok, entries, byId := Take(entries, byId, read(line));
      if !ok {
        LoadFails(read, raw, i, i + 1);
        return Failed(i + 1), entries, byId;
      }
    }
    LoadsWhole(read, raw, entries);
    return Loaded(entries, raw, ""), entries, byId;
  }

  predicate Reachable(e: Entry, entryIds: set<Text>, toolCallIds: set<Text>)
  {
    || e.retained
    || (e.sessionEntryId.Some? && e.sessionEntryId.value in entryIds)
    || (e.toolCallId.Some? && e.toolCallId.value in toolCallIds)
  }

  function Selected(entries: seq<Entry>, entryIds: set<Text>, toolCallIds: set<Text>): seq<Entry>
  {
    if entries == [] then []
    else
      var front, last := entries[..|entries| - 1], entries[|entries| - 1];
      Selected(front, entryIds, toolCallIds) + if Reachable(last, entryIds, toolCallIds) then [last] else []
  }

  /** A fork selects exactly the entries that the branch can reach. */
  lemma {:induction false} SelectedMeans(entries: seq<Entry>, entryIds: set<Text>, toolCallIds: set<Text>, e: Entry)
    ensures e in Selected(entries, entryIds, toolCallIds) <==> e in entries && Reachable(e, entryIds, toolCallIds)
  {
    if entries != [] {
      var front, last := entries[..|entries| - 1], entries[|entries| - 1];
      SelectedMeans(front, entryIds, toolCallIds, e);
      assert entries == front + [last];
    }
  }

  lemma {:induction false} SelectedIsSound(entries: seq<Entry>, entryIds: set<Text>, toolCallIds: set<Text>)
    requires Sound(entries)
    ensures Sound(Selected(entries, entryIds, toolCallIds))
  {
    if entries != [] {
      var front, last := entries[..|entries| - 1], entries[|entries| - 1];
      SelectedIsSound(front, entryIds, toolCallIds);
      var some := Selected(front, entryIds, toolCallIds);
      forall x | x in some ensures x.id != last.id {
        SelectedMeans(front, entryIds, toolCallIds, x);
        var j :| 0 <= j < |front| && front[j] == x;
        assert entries[j].id != entries[|entries| - 1].id;
      }
    }
  }

  method SelectReachable(entries: seq<Entry>, entryIds: set<Text>, toolCallIds: set<Text>)
    returns (selected: seq<Entry>)
    ensures selected == Selected(entries, entryIds, toolCallIds)
  {
    selected := [];
    for i := 0 to |entries|
      invariant selected == Selected(entries[..i], entryIds, toolCallIds)
    {
      assert entries[..i + 1][..i] == entries[..i];
      if Reachable(entries[i], entryIds, toolCallIds) {
        selected := selected + [entries[i]];
      }
    }
    assert entries[..|entries|] == entries;
  }

  /** The entries of a loaded manifest that a fork selects come back from its file. */
  lemma ForkReads(decode: Decoder, raw: Bytes, entryIds: set<Text>, toolCallIds: set<Text>)
    requires Utf8(decode) && Load(Reads(decode), raw).Loaded?
    ensures var selected := Selected(Load(Reads(decode), raw).entries, entryIds, toolCallIds);
            && Load(Reads(decode), Records(selected)) == Loaded(selected, Records(selected), "")
            && ReadStrict(Reads(decode), Records(selected)) == Entries(selected)
  {
    LoadIsSound(decode, raw);
    var entries := Load(Reads(decode), raw).entries;
    SelectedIsSound(entries, entryIds, toolCallIds);
    WriteLoad(decode, Selected(entries, entryIds, toolCallIds));
    WriteLoadIff(decode, Selected(entries, entryIds, toolCallIds));
  }

  class ArtifactManifest {
    const decode: Decoder
    const limits: SessionLimits
    var file: Bytes
    var entries: seq<Entry>
    var byId: map<Text, Entry>
    var quarantine: seq<Bytes>       // the partial files that recoveries left
    var recoveredTail: bool

    predicate Valid()
      reads this
    {
      Indexed(entries, byId)
    }

    constructor (decode: Decoder, limits: SessionLimits, file: Bytes)
      ensures this.decode == decode && this.limits == limits
      ensures this.file == file && Valid() && entries == [] && quarantine == []
    {
      this.decode, this.limits, this.file := decode, limits, file;
      entries, byId, quarantine, recoveredTail := [], map[], [], false;
    }

    /** Loads the file.  A torn last line is moved to a file of its own. */
    method LoadUnlocked() returns (corrupt: Option<nat>)
      modifies this`file, this`entries, this`byId, this`quarantine, this`recoveredTail
      ensures Valid()
      ensures match Load(Reads(decode), old(file))
              case Failed(n) => corrupt == Some(n) && file == old(file) && quarantine == old(quarantine)
              case Loaded(loaded, kept, tail) =>
                corrupt == None && entries == loaded && file == kept
                && quarantine == old(quarantine) + (if tail == "" then [] else [tail])
                && (recoveredTail <==> tail != "")
    {
      var result;
      result, entries, byId := ReadLenient(Reads(decode), file);
      recoveredTail := false;
      match result
      case Failed(n) => corrupt := Some(n);
      case Loaded(_, kept, tail) =>
        corrupt := None;
        if tail != "" {
          quarantine := quarantine + [tail];
          file := kept;
          recoveredTail := true;
        } else {
          RecoveryKeepsTheRest(Reads(decode), file);
          assert kept + tail == kept;
        }
    }

    /** Appends an entry to what the file holds now. */
    method Append(entry: Entry) returns (r: AppendResult)
      modifies this`file, this`entries, this`byId, this`quarantine, this`recoveredTail
      ensures old(Valid()) ==> Valid()
      ensures r.InvalidEntry? <==> !ManifestRecords.Valid(entry)
      ensures r.InvalidEntry? ==> file == old(file) && entries == old(entries) && byId == old(byId)
      ensures ManifestRecords.Valid(entry) ==>
                match Load(Reads(decode), old(file))
                case Failed(n) => r == CorruptManifest(n) && file == old(file)
                case Loaded(loaded, kept, _) =>
                  match Find(loaded, entry.id)
                  case Some(existing) =>
                    r == (if existing == entry then AlreadyThere else DuplicateId) && file == kept && entries == loaded
                  case None =>
                    if Within(limits, loaded + [entry])
                    then r == Appended && file == kept + EncodeRecord(entry) && entries == loaded + [entry]
                    else r == SessionLimit && file == kept && entries == loaded
    {
      if !ManifestRecords.Valid(entry) {
        return InvalidEntry;
      }
      var corrupt := LoadUnlocked();
      if corrupt.Some? {
        return CorruptManifest(corrupt.value);
      }
      FindIndexed(entries, byId, entry.id);
      if entry.id in byId {
        return if byId[entry.id] == entry then AlreadyThere else DuplicateId;
      }
      assert (entries + [entry])[..|entries|] == entries;
      if |entries| + 1 > limits.maxSessionObjects { return SessionLimit; }
      if LogicalBytes(entries) + entry.byteSize > limits.maxSessionLogicalBytes { return SessionLimit; }
      IndexedMore(entries, byId, entry);
      file := file + EncodeRecord(entry);
      entries := entries + [entry];
      byId := byId[entry.id := entry];
      return Appended;
    }

    /** Copies the entries that a branch can still reach to a new manifest, whose
        path holds `target` so far. */
    method ForkTo(target: Bytes, entryIds: set<Text>, toolCallIds: set<Text>) returns (r: ForkResult)
      requires Utf8(decode)
      modifies this`file, this`entries, this`byId, this`quarantine, this`recoveredTail
      ensures Valid()
      ensures match Load(Reads(decode), old(file))
              case Failed(n) => r == NotForked(SourceCorrupt(n)) && file == old(file)
              case Loaded(loaded, kept, _) =>
                var selected := Selected(loaded, entryIds, toolCallIds);
                && file == kept && entries == loaded
                && (r == NotForked(ForkLimit) <==> !Within(limits, selected))
                && (r == NotForked(TargetExists) <==> Within(limits, selected) && target != "")
                && (r.Forked? <==> Within(limits, selected) && target == "")
                && (r.Forked? ==> fresh(r.target) && r.target.Valid() && r.target.entries == selected
                                  && r.target.file == Records(selected)
                                  && ReadStrict(Reads(decode), r.target.file) == Entries(selected))
    {
      var corrupt := LoadUnlocked();
      if corrupt.Some? {
        return NotForked(SourceCorrupt(corrupt.value));
      }
      var selected := SelectReachable(entries, entryIds, toolCallIds);
      if !Within(limits, selected) { return NotForked(ForkLimit); }
      if target != "" { return NotForked(TargetExists); }
      ForkReads(decode, old(file), entryIds, toolCallIds);
      var manifest := new ArtifactManifest(decode, limits, Records(selected));
      var reloaded := manifest.LoadUnlocked();
      return Forked(manifest);
    }
  }

  /** Appending an entry again changes nothing exactly when its free texts hold no
      split pair; otherwise it is refused as a duplicate. */
  lemma ReappendIsNoOpIff(decode: Decoder, raw: Bytes, entries: seq<Entry>, e: Entry)
    requires Utf8(decode) && Load(Reads(decode), raw) == Loaded(entries, raw, "") && TakesAppend(raw)
    requires ManifestRecords.Valid(e) && Find(entries, e.id).None?
    ensures var after := Load(Reads(decode), raw + EncodeRecord(e));
            && after.Loaded? && after.kept == raw + EncodeRecord(e)
            && (Find(after.entries, e.id) == Some(e) <==> !SplitEntry(e))
  {
    AppendLoadsIff(decode, raw, entries, e);
    JoinedEntryIff(e);
    assert (entries + [JoinedEntry(e)])[..|entries|] == entries;
  }
}
