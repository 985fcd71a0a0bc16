/** What an append, whole or torn, makes of a manifest file. */
module ManifestAppends {
  import opened ManifestRecords
  import opened ManifestFiles
  import opened ManifestReaders

  /** A file that loads whole and ends in a line break. */
  predicate Clean(read: Reader, raw: Bytes, entries: seq<Entry>)
  {
    Load(read, raw) == Loaded(entries, raw, "") && (raw == "" || Terminated(raw))
  }

  lemma AppendedLine(raw: Bytes, line: Bytes)
    requires raw == "" || Terminated(raw)
    requires line != "" && line[0] == '{' && SplitLines(line) == [line]
    ensures SplitLines(raw + line) == SplitLines(raw) + [line]
    ensures SplitLines(raw + line)[..|SplitLines(raw)|] == SplitLines(raw)
    ensures Terminated(raw + line) <==> Terminated(line)
  {
    SplitBehindBreak(raw, line);
  }

  /** A line with a new entry behind a clean file, whichever way it is read. */
  lemma OneMoreLine(read: Reader, raw: Bytes, entries: seq<Entry>, line: Bytes, e: Entry)
    requires Clean(read, raw, entries) && Find(entries, e.id).None?
    requires line != "" && line[0] == '{' && SplitLines(line) == [line] && read(line) == Accepted(e)
    ensures Load(read, raw + line) == Loaded(entries + [e], raw + line, "")
    ensures ReadStrict(read, raw + line)
         == if Terminated(line) then Entries(entries + [e]) else Corrupt(|SplitLines(raw)| + 1)
    ensures OpenEnded(raw + line) <==> !Terminated(line)
  {
    AppendedLine(raw, line);
  }

  /** A record is one line, with its line break or without, and reads as its entry. */
  lemma RecordLine(decode: Decoder, e: Entry)
    requires Utf8(decode) && Valid(e)
    ensures Body(e) != "" && Body(e)[0] == '{' && SplitLines(Body(e)) == [Body(e)] && !Terminated(Body(e))
    ensures Reads(decode)(Body(e)) == Accepted(JoinedEntry(e))
    ensures SplitLines(EncodeRecord(e)) == [EncodeRecord(e)] && Terminated(EncodeRecord(e))
    ensures Reads(decode)(EncodeRecord(e)) == Accepted(JoinedEntry(e))
  {
    BodyShape(e);
    OneLine(Body(e));
    RecordReads(decode, "", e, "");
    assert "" + Body(e) + "" == Body(e);
    RecordReads(decode, "", e, "\n");
    assert "" + Body(e) + "\n" == EncodeRecord(e);
  }

  /** A whole append to a clean file adds its entry and leaves the file clean, so
      that the strict reader accepts it too. */
  lemma WholeAppend(decode: Decoder, raw: Bytes, entries: seq<Entry>, e: Entry)
    requires Utf8(decode) && Clean(Reads(decode), raw, entries) && Valid(e) && Find(entries, e.id).None?
    ensures Clean(Reads(decode), raw + EncodeRecord(e), entries + [JoinedEntry(e)])
    ensures ReadStrict(Reads(decode), raw + EncodeRecord(e)) == Entries(entries + [JoinedEntry(e)])
  {
    RecordLine(decode, e);
    OneMoreLine(Reads(decode), raw, entries, EncodeRecord(e), JoinedEntry(e));
  }

  /** An append cut before the closing brace is undone by the next load: it gives
      the entries there were, puts exactly the cut bytes aside, and leaves the file
      as it was before the append.  The strict reader refuses the file until then. */
  lemma TornAppend(decode: Decoder, raw: Bytes, entries: seq<Entry>, e: Entry, n: nat)
    requires Utf8(decode) && Clean(Reads(decode), raw, entries) && Valid(e) && 0 < n < |Body(e)|
    ensures Load(Reads(decode), raw + Body(e)[..n]) == Loaded(entries, raw, Body(e)[..n])
    ensures ReadStrict(Reads(decode), raw + Body(e)[..n]).Corrupt?
    ensures ReadStrict(Reads(decode), raw) == Entries(entries)
  {
    var cut := Body(e)[..n];
    BodyShape(e);
    assert Unbroken(cut);
    OneLine(cut);
    CutRecordIsMalformed(decode, e, n);
    AppendedLine(raw, cut);
    LinesConcat(raw);
  }

  /** An append that lost only its line break loads as if it were whole, and
      nothing is put aside; the strict reader refuses it. */
  lemma UnterminatedAppend(decode: Decoder, raw: Bytes, entries: seq<Entry>, e: Entry)
    requires Utf8(decode) && Clean(Reads(decode), raw, entries) && Valid(e) && Find(entries, e.id).None?
    ensures Load(Reads(decode), raw + Body(e)) == Loaded(entries + [JoinedEntry(e)], raw + Body(e), "")
    ensures ReadStrict(Reads(decode), raw + Body(e)).Corrupt?
    ensures OpenEnded(raw + Body(e))
  {
    RecordLine(decode, e);
    OneMoreLine(Reads(decode), raw, entries, Body(e), JoinedEntry(e));
  }

  /** The last line of an open-ended file that loads whole holds a record. */
  lemma OpenEndedRecord(decode: Decoder, raw: Bytes)
    requires Load(Reads(decode), raw).Loaded? && Load(Reads(decode), raw).tail == "" && OpenEnded(raw)
    ensures ReadLine(decode, SplitLines(raw)[|SplitLines(raw)| - 1]).Accepted?
    ensures Fold(Reads(decode), SplitLines(raw)[..|SplitLines(raw)| - 1]).Entries?
  {
    LastIsNotEmpty(raw);
  }

  lemma GluedSplit(front: Bytes, last: Bytes, body: Bytes)
    requires (front == "" || Terminated(front)) && last != "" && Unbroken(last) && Unbroken(body)
    ensures SplitLines(front + (last + (body + "\n"))) == SplitLines(front) + [last + (body + "\n")]
  {
    assert last + (body + "\n") == last + body + "\n";
    OneLine(last + body);
    SplitBehindBreak(front, last + body + "\n");
  }

  /** What is appended behind an unterminated line goes on with that line. */
  lemma GluedLine(raw: Bytes, body: Bytes)
    requires raw != "" && !Terminated(raw) && Unbroken(body)
    ensures var lines := SplitLines(raw);
            && lines != []
            && var front, last := lines[..|lines| - 1], lines[|lines| - 1];
               SplitLines(raw + (body + "\n")) == front + [last + (body + "\n")]
    ensures Terminated(raw + (body + "\n"))
  {
    var lines := SplitLines(raw);
    LastLine(raw);
    var front, last := Concat(lines[..|lines| - 1]), lines[|lines| - 1];
    assert raw + (body + "\n") == front + (last + (body + "\n"));
    GluedSplit(front, last, body);
  }

  /** Appending behind an unterminated record runs the two together: the file no
      longer loads, and the strict reader refuses it for good. */
  lemma AppendBehindUnterminated(decode: Decoder, raw: Bytes, e: Entry)
    requires Utf8(decode) && Load(Reads(decode), raw).Loaded? && Load(Reads(decode), raw).tail == "" && OpenEnded(raw)
    ensures Load(Reads(decode), raw + EncodeRecord(e)) == Failed(|SplitLines(raw)|)
    ensures ReadStrict(Reads(decode), raw + EncodeRecord(e)) == Corrupt(|SplitLines(raw)|)
  {
    var lines := SplitLines(raw);
    BodyShape(e);
    OpenEndedRecord(decode, raw);
    GluedLine(raw, Body(e));
    GluedIsMalformed(decode, lines[|lines| - 1], EncodeRecord(e));
    assert (lines[..|lines| - 1] + [lines[|lines| - 1] + EncodeRecord(e)])[..|lines| - 1] == lines[..|lines| - 1];
  }

  /** Whether an append goes well: the file ends in a line break, or in nothing but
      spaces and tabs. */
  predicate TakesAppend(raw: Bytes)
  {
    raw == "" || Terminated(raw) || Indent(SplitLines(raw)[|SplitLines(raw)| - 1])
  }

  /** A record behind nothing but blanks reads when these are spaces and tabs. */
  lemma BlankThenRecord(decode: Decoder, blank: Bytes, e: Entry)
    requires Utf8(decode) && Valid(e) && IsBlank(blank) && Unbroken(blank)
    ensures ReadLine(decode, blank + EncodeRecord(e))
         == if Indent(blank) then Accepted(JoinedEntry(e)) else Line.Malformed
  {
    BodyShape(e);
    if Indent(blank) {
      RecordReads(decode, blank, e, "\n");
      assert blank + Body(e) + "\n" == blank + EncodeRecord(e);
    } else {
      OddBlankIsMalformed(decode, blank, EncodeRecord(e));
    }
  }

  /** A terminated file whose lines before the last are known to amount to `entries`. */
  lemma LastLineDecides(read: Reader, raw: Bytes, front: seq<Bytes>, last: Bytes, entries: seq<Entry>)
    requires raw != "" && Terminated(raw) && SplitLines(raw) == front + [last] && Fold(read, front) == Entries(entries)
    ensures var sum := Add(entries, read(last), |front| + 1);
            Load(read, raw) == if sum.Corrupt? then Failed(sum.line) else Loaded(sum.entries, raw, "")
  {
    assert (front + [last])[..|front|] == front;
  }

  lemma BlankEnd(read: Reader, raw: Bytes, entries: seq<Entry>)
    requires Load(read, raw) == Loaded(entries, raw, "") && raw != "" && !Terminated(raw)
    requires SplitLines(raw) != [] && read(SplitLines(raw)[|SplitLines(raw)| - 1]).Blank?
    ensures Fold(read, SplitLines(raw)[..|SplitLines(raw)| - 1]) == Entries(entries)
  {
  }

  lemma AppendBehindBlank(decode: Decoder, raw: Bytes, entries: seq<Entry>, e: Entry)
    requires Utf8(decode) && Load(Reads(decode), raw) == Loaded(entries, raw, "")
    requires Valid(e) && Find(entries, e.id).None?
    requires raw != "" && !Terminated(raw) && !OpenEnded(raw)
    ensures Load(Reads(decode), raw + EncodeRecord(e))
         == if TakesAppend(raw) then Loaded(entries + [JoinedEntry(e)], raw + EncodeRecord(e), "")
            else Failed(|SplitLines(raw)|)
  {
    var lines := SplitLines(raw);
    BodyShape(e);
    GluedLine(raw, Body(e));
    LastLine(raw);
    var front, last := lines[..|lines| - 1], lines[|lines| - 1];
    BlankEnd(Reads(decode), raw, entries);
    BlankThenRecord(decode, last, e);
    LastLineDecides(Reads(decode), raw + EncodeRecord(e), front, last + EncodeRecord(e), entries);
  }

  /** A file that loads whole still loads after an append of a new entry exactly
      when it ends in a line break, or in nothing but spaces and tabs. */
  lemma AppendLoadsIff(decode: Decoder, raw: Bytes, entries: seq<Entry>, e: Entry)
    requires Utf8(decode) && Load(Reads(decode), raw) == Loaded(entries, raw, "")
    requires Valid(e) && Find(entries, e.id).None?
    ensures Load(Reads(decode), raw + EncodeRecord(e)) == Loaded(entries + [JoinedEntry(e)], raw + EncodeRecord(e), "")
       <==> TakesAppend(raw)
  {
    if raw == "" || Terminated(raw) {
      WholeAppend(decode, raw, entries, e);
    } else if OpenEnded(raw) {
      AppendBehindUnterminated(decode, raw, e);
      assert !Indent(SplitLines(raw)[|SplitLines(raw)| - 1]);
    } else {
      AppendBehindBlank(decode, raw, entries, e);
    }
  }

  /** A torn append behind an unterminated record takes that record with it when
      the tail is put aside, though it had been loaded before. */
  lemma TornBehindUnterminatedLosesTheRecord(decode: Decoder, raw: Bytes, entries: seq<Entry>, e: Entry, f: Entry,
                                             n: nat)
    requires Utf8(decode) && Clean(Reads(decode), raw, entries) && Valid(e) && Valid(f) && Find(entries, e.id).None?
    requires 0 < n < |Body(f)|
    ensures Load(Reads(decode), raw + Body(e)) == Loaded(entries + [JoinedEntry(e)], raw + Body(e), "")
    ensures Load(Reads(decode), raw + (Body(e) + Body(f)[..n])) == Loaded(entries, raw, Body(e) + Body(f)[..n])
  {
    UnterminatedAppend(decode, raw, entries, e);
    GluedTail(decode, raw, entries, e, f, n);
  }

  lemma GluedTail(decode: Decoder, raw: Bytes, entries: seq<Entry>, e: Entry, f: Entry, n: nat)
    requires Utf8(decode) && Clean(Reads(decode), raw, entries) && Valid(e) && 0 < n < |Body(f)|
    ensures Load(Reads(decode), raw + (Body(e) + Body(f)[..n])) == Loaded(entries, raw, Body(e) + Body(f)[..n])
  {
    BodyShape(e);
    BodyShape(f);
    var glued := Body(e) + Body(f)[..n];
    assert Unbroken(glued);
    OneLine(glued);
    RecordReads(decode, "", e, "");
    assert "" + Body(e) + "" == Body(e);
    GluedIsMalformed(decode, Body(e), Body(f)[..n]);
    AppendedLine(raw, glued);
    LinesConcat(raw);
  }

  // -------------------------------------------------------------- whole files

  function Records(entries: seq<Entry>): Bytes
  {
    if entries == [] then "" else Records(entries[..|entries| - 1]) + EncodeRecord(entries[|entries| - 1])
  }

  function JoinedEntries(entries: seq<Entry>): seq<Entry>
  {
    seq(|entries|, i requires 0 <= i < |entries| => JoinedEntry(entries[i]))
  }

  /** An id that stands after `entries` in a list of distinct ids is new to them. */
  lemma NewAmongJoined(entries: seq<Entry>, e: Entry)
    requires forall i :: 0 <= i < |entries| ==> entries[i].id != e.id
    ensures Find(JoinedEntries(entries), e.id).None?
  {
    var joined := JoinedEntries(entries);
    forall f | f in joined ensures f.id != e.id {
      var i :| 0 <= i < |joined| && joined[i] == f;
    }
  }

  /** Writing and loading undo each other: any valid entries with distinct ids,
      written as a file, are read back by both readers, split pairs joined. */
  lemma {:induction false} WriteLoad(decode: Decoder, entries: seq<Entry>)
    requires Utf8(decode) && DistinctIds(entries) && forall i :: 0 <= i < |entries| ==> Valid(entries[i])
    ensures Clean(Reads(decode), Records(entries), JoinedEntries(entries))
    ensures ReadStrict(Reads(decode), Records(entries)) == Entries(JoinedEntries(entries))
  {
    if entries == [] {
      assert Fold(Reads(decode), []) == Entries([]);
    } else {
      var front, last := entries[..|entries| - 1], entries[|entries| - 1];
      WriteLoad(decode, front);
      NewAmongJoined(front, last);
      WholeAppend(decode, Records(front), JoinedEntries(front), last);
      assert JoinedEntries(entries) == JoinedEntries(front) + [JoinedEntry(last)];
    }
  }

  lemma JoinedEntriesIff(entries: seq<Entry>)
    requires forall i :: 0 <= i < |entries| ==> Valid(entries[i])
    ensures JoinedEntries(entries) == entries <==> forall i :: 0 <= i < |entries| ==> !SplitEntry(entries[i])
  {
    var joined := JoinedEntries(entries);
    forall i | 0 <= i < |entries| ensures joined[i] == entries[i] <==> !SplitEntry(entries[i]) {
      JoinedEntryIff(entries[i]);
    }
    if forall i :: 0 <= i < |entries| ==> !SplitEntry(entries[i]) {
      assert joined == entries;
    }
  }

  /** They come back unchanged exactly when no free text holds a split pair. */
  lemma WriteLoadIff(decode: Decoder, entries: seq<Entry>)
    requires Utf8(decode) && DistinctIds(entries) && forall i :: 0 <= i < |entries| ==> Valid(entries[i])
    ensures Load(Reads(decode), Records(entries)) == Loaded(entries, Records(entries), "")
       <==> forall i :: 0 <= i < |entries| ==> !SplitEntry(entries[i])
  {
    WriteLoad(decode, entries);
    JoinedEntriesIff(entries);
  }
}
