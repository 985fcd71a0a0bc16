/** The entries of an artifact manifest and their records. */
module ManifestRecords {
  import opened Options
  import opened Json
  import opened JsonRoundTrip

  datatype Entry = Entry(
    id: Text,
    digest: Text,
    kind: Text,
    byteSize: int,
    createdAtMs: int,
    sessionEntryId: Option<Text>,
    toolCallId: Option<Text>,
    retained: bool)

  /** The code points of a literal. */
  function Lit(s: string): Text
  {
    seq(|s|, i requires 0 <= i < |s| => s[i] as int)
  }

  predicate Hex(t: Text)
  {
    forall i :: 0 <= i < |t| ==> '0' as int <= t[i] <= '9' as int || 'a' as int <= t[i] <= 'f' as int
  }

  predicate Valid(e: Entry)
  {
    && |e.id| == 41 && e.id[..9] == Lit("artifact-") && Hex(e.id[9..])
    && |e.digest| == 64 && Hex(e.digest)
    && e.kind != []
    && e.byteSize >= 0
    && e.sessionEntryId != Some([])
    && e.toolCallId != Some([])
  }

  function Optional(t: Option<Text>): Json
  {
    if t.Some? then Str(t.value) else Null
  }

  /** The record of an entry, in the order of its sorted keys. */
  function ToRecord(e: Entry): Json
  {
    Object(Sizes(e))
  }

  function Sizes(e: Entry): Members
  {
    Member(Lit("byteSize"), Int(e.byteSize), Member(Lit("createdAtMs"), Int(e.createdAtMs), Names(e)))
  }

  function Names(e: Entry): Members
  {
    Member(Lit("digest"), Str(e.digest), Member(Lit("id"), Str(e.id), Member(Lit("kind"), Str(e.kind), Flags(e))))
  }

  function Flags(e: Entry): Members
  {
    Member(Lit("producer"), Object(Producer(e)),
    Member(Lit("retained"), Bool(e.retained), Member(Lit("type"), Str(Lit("artifact")), NoMembers)))
  }

  function Producer(e: Entry): Members
  {
    Member(Lit("sessionEntryId"), Optional(e.sessionEntryId),
    Member(Lit("toolCallId"), Optional(e.toolCallId), NoMembers))
  }

  /** An optional text: the outer `None` is a value of another type. */
  function OptionalText(j: Json): Option<Option<Text>>
  {
    match j
    case Null => Some(None)
    case Str(t) => Some(Some(t))
    case _ => None
  }

  function FromRecord(j: Json): (r: Option<Entry>)
    ensures r.Some? ==> Valid(r.value)
  {
    if !j.Object? || Get(j.members, Lit("type")) != Str(Lit("artifact")) then None
    else
      var producer := Get(j.members, Lit("producer"));
      var retained := Get(j.members, Lit("retained"));
      if !producer.Object? || (Has(j.members, Lit("retained")) && !retained.Bool?) then None
      else
        var id, digest, kind := Get(j.members, Lit("id")), Get(j.members, Lit("digest")), Get(j.members, Lit("kind"));
        var byteSize, createdAtMs := Get(j.members, Lit("byteSize")), Get(j.members, Lit("createdAtMs"));
        var session := OptionalText(Get(producer.members, Lit("sessionEntryId")));
        var tool := OptionalText(Get(producer.members, Lit("toolCallId")));
        if !id.Str? || !digest.Str? || !kind.Str? || !byteSize.Int? || !createdAtMs.Int? || session.None? || tool.None?
        then None
        else
          var e := Entry(id.s, digest.s, kind.s, byteSize.n, createdAtMs.n, session.value, tool.value,
                         retained.Bool? && retained.b);
          if Valid(e) then Some(e) else None
  }

  // ---------------------------------------------------------------- round trip

  /** What reading back a written entry gives. */
  function JoinedEntry(e: Entry): Entry
  {
    e.(kind := Joined(e.kind), sessionEntryId := JoinedOption(e.sessionEntryId),
       toolCallId := JoinedOption(e.toolCallId))
  }

  function JoinedOption(t: Option<Text>): Option<Text>
  {
    if t.Some? then Some(Joined(t.value)) else None
  }

  /** Whether one of an entry's free texts holds a split surrogate pair. */
  predicate SplitEntry(e: Entry)
  {
    || Splits(e.kind)
    || (e.sessionEntryId.Some? && Splits(e.sessionEntryId.value))
    || (e.toolCallId.Some? && Splits(e.toolCallId.value))
  }

  lemma JoinedEntryIff(e: Entry)
    requires Valid(e)
    ensures Valid(JoinedEntry(e))
    ensures JoinedEntry(e) == e <==> !SplitEntry(e)
  {
    JoinedIff(e.kind);
    if e.sessionEntryId.Some? { JoinedIff(e.sessionEntryId.value); }
    if e.toolCallId.Some? { JoinedIff(e.toolCallId.value); }
  }

  lemma LitIsJoined(s: string)
    ensures Joined(Lit(s)) == Lit(s)
  {
    JoinedIff(Lit(s));
    assert forall i :: 0 <= i < |s| ==> !High(Lit(s)[i]);
  }

  lemma HexIsJoined(t: Text, from: nat)
    requires from <= |t| && Hex(t[from..]) && forall i :: 0 <= i < from ==> !High(t[i])
    ensures Joined(t) == t
  {
    JoinedIff(t);
    forall i | 0 <= i < |t| ensures !High(t[i]) {
      if i >= from { assert t[i] == t[from..][i - from]; }
    }
  }

  /** Whether the keys' first letters ascend, as those of sorted distinct keys may. */
  predicate Ascending(members: Members)
  {
    members.Member? ==>
      && members.key != [] && Ascending(members.tail)
      && (members.tail.Member? ==> members.tail.key != [] && members.key[0] < members.tail.key[0])
  }

  lemma {:induction false} NotLater(members: Members, key: Text)
    requires Ascending(members) && key != [] && (members.Member? ==> key[0] < members.key[0])
    ensures !Has(members, key)
  {
    if members.Member? {
      NotLater(members.tail, key);
    }
  }

  /** In an ascending object the first key is found at once, and any later key behind it. */
  lemma GetAscending(members: Members)
    requires members.Member? && Ascending(members)
    ensures Get(members, members.key) == members.value && Has(members, members.key)
    ensures forall key: Text :: key != [] && members.key[0] < key[0] ==>
              Get(members, key) == Get(members.tail, key) && Has(members, key) == Has(members.tail, key)
  {
    NotLater(members.tail, members.key);
  }

  lemma ProducerReads(e: Entry)
    ensures Get(Producer(e), Lit("sessionEntryId")) == Optional(e.sessionEntryId)
    ensures Get(Producer(e), Lit("toolCallId")) == Optional(e.toolCallId)
  {
    assert Lit("sessionEntryId")[0] == 's' as int && Lit("toolCallId")[0] == 't' as int;
    GetAscending(Producer(e).tail);
    GetAscending(Producer(e));
  }

  lemma FlagsRead(e: Entry)
    ensures Ascending(Flags(e))
    ensures Get(Flags(e), Lit("producer")) == Object(Producer(e))
    ensures Get(Flags(e), Lit("retained")) == Bool(e.retained)
    ensures Get(Flags(e), Lit("type")) == Str(Lit("artifact"))
  {
    assert Lit("producer")[0] == 'p' as int && Lit("retained")[0] == 'r' as int && Lit("type")[0] == 't' as int;
    GetAscending(Flags(e).tail.tail);
    GetAscending(Flags(e).tail);
    GetAscending(Flags(e));
  }

  lemma NamesRead(e: Entry)
    ensures Ascending(Names(e))
    ensures Get(Names(e), Lit("digest")) == Str(e.digest)
    ensures Get(Names(e), Lit("id")) == Str(e.id)
    ensures Get(Names(e), Lit("kind")) == Str(e.kind)
    ensures forall key: Text :: key != [] && 'k' as int < key[0] ==> Get(Names(e), key) == Get(Flags(e), key)
  {
    assert Lit("digest")[0] == 'd' as int && Lit("id")[0] == 'i' as int && Lit("kind")[0] == 'k' as int;
    assert Lit("producer")[0] == 'p' as int;
    FlagsRead(e);
    GetAscending(Names(e).tail.tail);
    GetAscending(Names(e).tail);
    GetAscending(Names(e));
  }

  lemma SizesRead(e: Entry)
    ensures Get(Sizes(e), Lit("byteSize")) == Int(e.byteSize)
    ensures Get(Sizes(e), Lit("createdAtMs")) == Int(e.createdAtMs)
    ensures forall key: Text :: key != [] && 'c' as int < key[0] ==> Get(Sizes(e), key) == Get(Names(e), key)
  {
    assert Lit("byteSize")[0] == 'b' as int && Lit("createdAtMs")[0] == 'c' as int && Lit("digest")[0] == 'd' as int;
    NamesRead(e);
    GetAscending(Sizes(e).tail);
    GetAscending(Sizes(e));
  }

  /** Every field of a record is found under its key. */
  lemma RecordGets(e: Entry)
    ensures var members := Sizes(e);
            && Get(members, Lit("byteSize")) == Int(e.byteSize)
            && Get(members, Lit("createdAtMs")) == Int(e.createdAtMs)
            && Get(members, Lit("digest")) == Str(e.digest)
            && Get(members, Lit("id")) == Str(e.id)
            && Get(members, Lit("kind")) == Str(e.kind)
            && Get(members, Lit("producer")) == Object(Producer(e))
            && Get(members, Lit("retained")) == Bool(e.retained)
            && Get(members, Lit("type")) == Str(Lit("artifact"))
  {
    assert Lit("digest")[0] == 'd' as int && Lit("id")[0] == 'i' as int && Lit("kind")[0] == 'k' as int;
    assert Lit("producer")[0] == 'p' as int && Lit("retained")[0] == 'r' as int && Lit("type")[0] == 't' as int;
    FlagsRead(e);
    NamesRead(e);
    SizesRead(e);
  }

  lemma FromToRecord(e: Entry)
    requires Valid(e)
    ensures FromRecord(ToRecord(e)) == Some(e)
  {
    RecordGets(e);
    ProducerReads(e);
  }

  lemma RecordIsExact(e: Entry)
    ensures Exact(ToRecord(e))
  {
    assert ExactMembers(NoMembers);
    assert ExactMembers(Producer(e).tail);
    assert ExactMembers(Flags(e).tail.tail);
    assert ExactMembers(Flags(e).tail) && Exact(Object(Producer(e)));
    assert ExactMembers(Flags(e));
    assert ExactMembers(Names(e).tail.tail);
    assert ExactMembers(Names(e).tail);
    assert ExactMembers(Names(e));
    assert ExactMembers(Sizes(e).tail);
  }

  lemma JoinedMember(key: string, value: Json, tail: Members, joined: Json, rest: Members)
    requires JoinedJson(value) == joined && JoinedMembers(tail) == rest
    ensures JoinedMembers(Member(Lit(key), value, tail)) == Member(Lit(key), joined, rest)
  {
    LitIsJoined(key);
  }

  lemma JoinedProducer(e: Entry)
    ensures JoinedMembers(Producer(e)) == Producer(JoinedEntry(e))
  {
    var j := JoinedEntry(e);
    JoinedMember("toolCallId", Optional(e.toolCallId), NoMembers, Optional(j.toolCallId), NoMembers);
    JoinedMember("sessionEntryId", Optional(e.sessionEntryId), Producer(e).tail,
                 Optional(j.sessionEntryId), Producer(j).tail);
  }

  lemma JoinedFlags(e: Entry)
    ensures JoinedMembers(Flags(e)) == Flags(JoinedEntry(e))
  {
    var j := JoinedEntry(e);
    LitIsJoined("artifact");
    JoinedProducer(e);
    JoinedMember("type", Str(Lit("artifact")), NoMembers, Str(Lit("artifact")), NoMembers);
    JoinedMember("retained", Bool(e.retained), Flags(e).tail.tail, Bool(e.retained), Flags(j).tail.tail);
    JoinedMember("producer", Object(Producer(e)), Flags(e).tail, Object(Producer(j)), Flags(j).tail);
  }

  lemma JoinedNames(e: Entry)
    requires Valid(e)
    ensures JoinedMembers(Names(e)) == Names(JoinedEntry(e))
  {
    var j := JoinedEntry(e);
    HexIsJoined(e.digest, 0);
    assert forall i :: 0 <= i < 9 ==> e.id[i] == e.id[..9][i] == Lit("artifact-")[i];
    HexIsJoined(e.id, 9);
    JoinedFlags(e);
    JoinedMember("kind", Str(e.kind), Flags(e), Str(j.kind), Flags(j));
    JoinedMember("id", Str(e.id), Names(e).tail.tail, Str(e.id), Names(j).tail.tail);
    JoinedMember("digest", Str(e.digest), Names(e).tail, Str(e.digest), Names(j).tail);
  }

  /** Only the free texts of an entry can come back changed. */
  lemma JoinedRecord(e: Entry)
    requires Valid(e)
    ensures JoinedJson(ToRecord(e)) == ToRecord(JoinedEntry(e))
  {
    var j := JoinedEntry(e);
    JoinedNames(e);
    JoinedMember("createdAtMs", Int(e.createdAtMs), Names(e), Int(e.createdAtMs), Names(j));
    JoinedMember("byteSize", Int(e.byteSize), Sizes(e).tail, Int(e.byteSize), Sizes(j).tail);
  }

  lemma RecordRoundTrip(e: Entry)
    requires Valid(e)
    ensures Loads(Write(ToRecord(e))).Done?
    ensures FromRecord(Loads(Write(ToRecord(e))).value) == Some(JoinedEntry(e))
  {
    RecordIsExact(e);
    RoundTrip(ToRecord(e));
    JoinedRecord(e);
    JoinedEntryIff(e);
    FromToRecord(JoinedEntry(e));
  }

  /** An entry that was read from a manifest comes back from its record unchanged. */
  lemma ReadEntryIsWhole(j: Json)
    requires JoinedJson(j) == j && FromRecord(j).Some?
    ensures !SplitEntry(FromRecord(j).value)
  {
    var e := FromRecord(j).value;
    GetIsJoined(j.members, Lit("kind"));
    GetIsJoined(j.members, Lit("producer"));
    var producer := Get(j.members, Lit("producer"));
    GetIsJoined(producer.members, Lit("sessionEntryId"));
    GetIsJoined(producer.members, Lit("toolCallId"));
    JoinedEntryIff(e);
  }

  lemma {:induction false} GetIsJoined(members: Members, key: Text)
    requires JoinedMembers(members) == members
    ensures JoinedJson(Get(members, key)) == Get(members, key)
  {
    if members.Member? {
      GetIsJoined(members.tail, key);
    }
  }

  /** Whether two objects have the same value for a key. */
  predicate Same(a: Members, b: Members, key: string)
  {
    Get(a, Lit(key)) == Get(b, Lit(key))
  }

  /** Whether a value agrees with the record of an entry on every key of it; a record
      may leave `retained` out when it is false. */
  predicate Agrees(j: Json, e: Entry)
  {
    && j.Object?
    && Same(j.members, Sizes(e), "type")
    && Same(j.members, Sizes(e), "id")
    && Same(j.members, Sizes(e), "digest")
    && Same(j.members, Sizes(e), "kind")
    && Same(j.members, Sizes(e), "byteSize")
    && Same(j.members, Sizes(e), "createdAtMs")
    && (if Has(j.members, Lit("retained")) then Same(j.members, Sizes(e), "retained") else !e.retained)
    && Get(j.members, Lit("producer")).Object?
    && Same(Get(j.members, Lit("producer")).members, Producer(e), "sessionEntryId")
    && Same(Get(j.members, Lit("producer")).members, Producer(e), "toolCallId")
  }

  lemma {:induction false} GetOfMissing(members: Members, key: Text)
    requires !Has(members, key)
    ensures Get(members, key) == Null
  {
    if members.Member? {
      GetOfMissing(members.tail, key);
    }
  }

  /** A value decodes to an entry exactly when the entry is valid and the value agrees
      with the entry's own record, whatever other keys it has. */
  lemma DecodesIff(j: Json, e: Entry)
    ensures FromRecord(j) == Some(e) <==> Valid(e) && Agrees(j, e)
  {
    RecordGets(e);
    ProducerReads(e);
    if j.Object? {
      if !Has(j.members, Lit("retained")) {
        GetOfMissing(j.members, Lit("retained"));
      }
      if Get(j.members, Lit("producer")).Object? {
        var producer := Get(j.members, Lit("producer")).members;
      }
    }
  }
}
