/**
 The lenient reader, which a session loads its manifest with, and the strict one,
 which the collector trusts: how they agree, and what each makes of a torn append.
 */
module ManifestReaders {
  import opened Options
  import opened Json
  import opened JsonExtends
  import opened JsonRoundTrip
  import opened ManifestRecords
  import opened ManifestFiles

  datatype Line = Blank | Malformed | Rejected | Accepted(entry: Entry)

  datatype Outcome = Entries(entries: seq<Entry>) | Corrupt(line: nat)

  /** A lenient load: the entries, what stays in the file, and the tail put aside. */
  datatype Loaded = Loaded(entries: seq<Entry>, kept: Bytes, tail: Bytes) | Failed(line: nat)

  predicate IsBlank(line: Bytes)
  {
    forall i :: 0 <= i < |line| ==> line[i] in " \t\n\r" || line[i] as int == 11 || line[i] as int == 12
  }

  function ReadLine(decode: Decoder, line: Bytes): Line
  {
    if IsBlank(line) then Blank
    else
      match decode(line)
      case None => Line.Malformed
      case Some(text) =>
        match Loads(text)
        case Malformed => Line.Malformed
        case Done(value, _) =>
          match FromRecord(value)
          case None => Rejected
          case Some(e) => Accepted(e)
  }

  type Reader = Bytes -> Line

  function Reads(decode: Decoder): Reader
  {
    line => ReadLine(decode, line)
  }

  /** The first entry with an id. */
  function Find(entries: seq<Entry>, id: Text): (r: Option<Entry>)
    ensures r.Some? ==> r.value in entries && r.value.id == id
    ensures r.None? <==> forall e :: e in entries ==> e.id != id
  {
    if entries == [] then None
    else
      var front := entries[..|entries| - 1];
      assert entries == front + [entries[|entries| - 1]];
      match Find(front, id)
      case Some(e) => Some(e)
      case None => if entries[|entries| - 1].id == id then Some(entries[|entries| - 1]) else None
  }

  function Add(entries: seq<Entry>, line: Line, number: nat): Outcome
  {
    match line
    case Blank => Entries(entries)
    case Malformed => Corrupt(number)
    case Rejected => Corrupt(number)
    case Accepted(e) =>
      match Find(entries, e.id)
      case None => Entries(entries + [e])
      case Some(existing) => if existing == e then Entries(entries) else Corrupt(number)
  }

  /** What lines amount to, read one after another. */
  function Fold(read: Reader, lines: seq<Bytes>): Outcome
  {
    if lines == [] then Entries([])
    else
      match Fold(read, lines[..|lines| - 1])
      case Corrupt(n) => Corrupt(n)
      case Entries(entries) => Add(entries, read(lines[|lines| - 1]), |lines|)
  }

  /** Whether the last line is there but lacks its line break. */
  predicate OpenEnded(raw: Bytes)
  {
    raw != "" && !Terminated(raw) && !IsBlank(SplitLines(raw)[|SplitLines(raw)| - 1])
  }

  function Load(read: Reader, raw: Bytes): Loaded
  {
    var lines := SplitLines(raw);
    if raw != "" && !Terminated(raw) && read(lines[|lines| - 1]) == Line.Malformed then
      var front := lines[..|lines| - 1];
      match Fold(read, front)
      case Corrupt(n) => Failed(n)
      case Entries(entries) => Loaded(entries, Concat(front), lines[|lines| - 1])
    else
      match Fold(read, lines)
      case Corrupt(n) => Failed(n)
      case Entries(entries) => Loaded(entries, raw, "")
  }

  function ReadStrict(read: Reader, raw: Bytes): Outcome
  {
    var lines := SplitLines(raw);
    if OpenEnded(raw) then
      match Fold(read, lines[..|lines| - 1])
      case Corrupt(n) => Corrupt(n)
      case Entries(_) => Corrupt(|lines|)
    else Fold(read, lines)
  }

  // ---------------------------------------------------------------- coherence

  predicate DistinctIds(entries: seq<Entry>)
  {
    forall i, j :: 0 <= i < j < |entries| ==> entries[i].id != entries[j].id
  }

  /** Entries that were read have distinct ids, are valid, and come back unchanged
      when written again. */
  predicate Sound(entries: seq<Entry>)
  {
    && DistinctIds(entries)
    && forall i :: 0 <= i < |entries| ==> Valid(entries[i]) && !SplitEntry(entries[i])
  }

  lemma ReadLineIsSound(decode: Decoder, line: Bytes)
    requires ReadLine(decode, line).Accepted?
    ensures Valid(ReadLine(decode, line).entry) && !SplitEntry(ReadLine(decode, line).entry)
  {
    var text := decode(line).value;
    LoadedIsJoined(text);
    ReadEntryIsWhole(Loads(text).value);
  }

  lemma {:induction false} FoldIsSound(decode: Decoder, lines: seq<Bytes>)
    requires Fold(Reads(decode), lines).Entries?
    ensures Sound(Fold(Reads(decode), lines).entries)
  {
    if lines != [] {
      FoldIsSound(decode, lines[..|lines| - 1]);
      var before := Fold(Reads(decode), lines[..|lines| - 1]).entries;
      var line := lines[|lines| - 1];
      if ReadLine(decode, line).Accepted? {
        ReadLineIsSound(decode, line);
      }
    }
  }

  lemma LoadIsSound(decode: Decoder, raw: Bytes)
    requires Load(Reads(decode), raw).Loaded?
    ensures Sound(Load(Reads(decode), raw).entries)
  {
    var lines := SplitLines(raw);
    if Load(Reads(decode), raw).tail != "" {
      FoldIsSound(decode, lines[..|lines| - 1]);
    } else if Fold(Reads(decode), lines).Entries? {
      FoldIsSound(decode, lines);
    } else {
      LastIsNotEmpty(raw);
    }
  }

  // ---------------------------------------------------- the readers against each other

  /** The strict reader accepts exactly the files that the lenient one loads whole
      and whose last record has its line break; then both give the same entries. */
  lemma StrictIffWholeLoad(read: Reader, raw: Bytes, entries: seq<Entry>)
    ensures ReadStrict(read, raw) == Entries(entries)
       <==> Load(read, raw) == Loaded(entries, raw, "") && !OpenEnded(raw)
  {
    if raw != "" {
      LastIsNotEmpty(raw);
    }
  }

  /** Recovery loses no byte and leaves a file that both readers accept with the
      entries that were loaded, whatever the file held. */
  lemma RecoveryKeepsTheRest(read: Reader, raw: Bytes)
    requires Load(read, raw).Loaded?
    ensures var l := Load(read, raw);
            && l.kept + l.tail == raw
            && Load(read, l.kept) == Loaded(l.entries, l.kept, "")
            && (l.tail != "" ==> ReadStrict(read, l.kept) == Entries(l.entries) && Unbroken(l.tail))
  {
    var l := Load(read, raw);
    if raw != "" {
      LastLine(raw);
      if l.tail == "" {
        assert l.kept + "" == raw;
      }
    }
  }

  // ------------------------------------------------------------------- records

  function Body(e: Entry): Bytes
  {
    Write(ToRecord(e))
  }

  /** The line that an append writes. */
  function EncodeRecord(e: Entry): Bytes
  {
    Body(e) + "\n"
  }

  lemma BodyShape(e: Entry)
    ensures Body(e) != "" && Body(e)[0] == '{'
    ensures Ascii(Body(e)) && Ascii(EncodeRecord(e)) && Unbroken(Body(e))
  {
    RecordIsExact(e);
    WrittenIsPrintable(ToRecord(e));
    assert '~' < 128 as char;
  }

  lemma DecodeAscii(decode: Decoder, s: Bytes)
    requires Utf8(decode) && Ascii(s)
    ensures decode(s) == Some(s)
  {
    assert decode("" + s) == Some("" + s);
    assert "" + s == s;
  }

  /** Spaces and tabs, which JSON allows before a value. */
  predicate Indent(s: string)
  {
    forall i :: 0 <= i < |s| ==> s[i] == ' ' || s[i] == '\t'
  }

  lemma {:induction false} SkipIndent(s: string, i: nat, n: nat)
    requires i <= n < |s| && Indent(s[i..n]) && !IsSpace(s[n])
    ensures Skip(s, i) == n
    decreases n - i
  {
    if i < n {
      assert s[i] == s[i..n][0];
      assert s[i + 1..n] == s[i..n][1..];
      SkipIndent(s, i + 1, n);
    }
  }

  lemma RecordLoads(indent: string, e: Entry, end: string)
    requires Valid(e) && Indent(indent) && (end == "" || end == "\n")
    ensures Loads(indent + Body(e) + end).Done? && Loads(indent + Body(e) + end).value == ToRecord(JoinedEntry(e))
  {
    var n, line := |indent|, indent + Body(e) + end;
    RecordIsExact(e);
    assert line[n..n + |Body(e)|] == Body(e);
    StartsSlice(line, n, Body(e));
    ValueReads(line, n, ToRecord(e));
    assert line[0..n] == indent;
    SkipIndent(line, 0, n);
    assert Skip(line, n + |Body(e)|) == |line|;
    JoinedRecord(e);
  }

  /** A whole record reads as its entry, with or without its line break. */
  lemma RecordReads(decode: Decoder, indent: string, e: Entry, end: string)
    requires Utf8(decode) && Valid(e) && Indent(indent) && (end == "" || end == "\n")
    ensures ReadLine(decode, indent + Body(e) + end) == Accepted(JoinedEntry(e))
  {
    BodyShape(e);
    var line := indent + Body(e) + end;
    assert Ascii(line);
    DecodeAscii(decode, line);
    assert line[|indent|] == '{';
    RecordLoads(indent, e, end);
    JoinedEntryIff(e);
    FromToRecord(JoinedEntry(e));
  }

  /** Other blanks than spaces and tabs do not stand before a value. */
  lemma OddBlankIsMalformed(decode: Decoder, blank: Bytes, q: Bytes)
    requires Utf8(decode) && IsBlank(blank) && Unbroken(blank) && !Indent(blank) && Ascii(q) && q != "" && q[0] == '{'
    ensures ReadLine(decode, blank + q) == Line.Malformed
  {
    var line := blank + q;
    DecodeAscii(decode, line);
    assert line[|blank|] == '{';
    var n := FirstOdd(blank, 0);
    assert line[0..n] == blank[0..n];
    SkipIndent(line, 0, n);
  }

  /** The index of the first character that is neither a space nor a tab. */
  function FirstOdd(s: string, i: nat): (n: nat)
    requires i <= |s| && !Indent(s) && Indent(s[..i])
    ensures i <= n < |s| && Indent(s[0..n]) && s[n] != ' ' && s[n] != '\t'
    decreases |s| - i
  {
    assert s[..|s|] == s && s[0..i] == s[..i];
    if i < |s| && (s[i] == ' ' || s[i] == '\t') then
      assert s[..i + 1] == s[..i] + [s[i]];
      FirstOdd(s, i + 1)
    else i
  }

  /** A record cut before its closing brace does not read. */
  lemma CutRecordIsMalformed(decode: Decoder, e: Entry, n: nat)
    requires Utf8(decode) && 0 < n < |Body(e)|
    ensures ReadLine(decode, Body(e)[..n]) == Line.Malformed
  {
    BodyShape(e);
    DecodeAscii(decode, Body(e)[..n]);
    RecordIsExact(e);
    assert Body(e)[0..|Body(e)|] == Body(e);
    StartsSlice(Body(e), 0, Body(e));
    ValueReads(Body(e), 0, ToRecord(e));
    NoPrefixLoads(Body(e), n);
  }

  /** A record behind an unterminated one makes a line that does not read. */
  lemma GluedIsMalformed(decode: Decoder, line: Bytes, q: Bytes)
    requires Utf8(decode) && ReadLine(decode, line).Accepted? && Ascii(q) && q != "" && q[0] == '{'
    ensures ReadLine(decode, line + q) == Line.Malformed
  {
    var text := decode(line).value;
    assert decode(line + q) == Some(text + q);
    GluedNeverLoads(text, q);
    assert !IsBlank(line + q) by {
      assert (line + q)[|line|] == '{';
    }
  }
}
