/**
 Reading JSON does not look past the end of what it reads: a text that begins
 with a value still does when more text follows, so no proper prefix of an
 object's text is itself a value.
 */
module JsonExtends {
  import opened Json

  lemma {:induction false} SkipExtends(s: string, t: string, i: nat)
    requires s <= t && i <= |s| && Skip(s, i) < |s|
    ensures Skip(t, i) == Skip(s, i) && !IsSpace(s[Skip(s, i)])
    decreases |s| - i
  {
    if IsSpace(s[i]) {
      SkipExtends(s, t, i + 1);
    }
  }

  lemma {:induction false} SkipToEnd(s: string, t: string, i: nat)
    requires s <= t && i <= |s| && Skip(s, i) == |s| < |t| && !IsSpace(t[|s|])
    ensures Skip(t, i) == |s|
    decreases |s| - i
  {
    if i < |s| {
      SkipToEnd(s, t, i + 1);
    }
  }

  lemma {:induction false} StringExtends(s: string, t: string, i: nat)
    requires s <= t && i <= |s| && ScanString(s, i).Done?
    ensures ScanString(t, i) == ScanString(s, i)
    decreases |s| - i
  {
    if s[i] != '"' {
      StringExtends(s, t, ScanChar(s, i).next);
    }
  }

  lemma {:induction false} DigitsExtend(s: string, t: string, i: nat)
    requires s <= t && i <= |s| && Digits(s, i) < |s|
    ensures Digits(t, i) == Digits(s, i) && !IsDigit(s[Digits(s, i)])
    decreases |s| - i
  {
    if IsDigit(s[i]) {
      DigitsExtend(s, t, i + 1);
    }
  }

  lemma {:induction false} NatOfExtends(s: string, t: string, i: nat, n: nat)
    requires s <= t && i <= n <= |s|
    ensures NatOf(t, i, n) == NatOf(s, i, n)
    decreases n
  {
    if i < n {
      NatOfExtends(s, t, i, n - 1);
    }
  }

  /** Whether a delimiter stands at `i`, so that no number goes on there. */
  predicate Delimited(s: string, i: nat)
  {
    i < |s| && (IsSpace(s[i]) || s[i] == ',' || s[i] == ']' || s[i] == '}')
  }

  lemma FractionExtends(s: string, t: string, i: nat)
    requires s <= t && i <= |s| && Delimited(s, Exponent(s, Fraction(s, i)))
    ensures Fraction(t, i) == Fraction(s, i)
  {
    if s[i] == '.' {
      DigitsExtend(s, t, i + 1);
    }
  }

  lemma ExponentExtends(s: string, t: string, i: nat)
    requires s <= t && i <= |s| && Delimited(s, Exponent(s, i))
    ensures Exponent(t, i) == Exponent(s, i)
  {
    if s[i] == 'e' || s[i] == 'E' {
      DigitsExtend(s, t, if Sees(s, i + 1, '+') || Sees(s, i + 1, '-') then i + 2 else i + 1);
    }
  }

  lemma NumberExtends(s: string, t: string, i: nat)
    requires s <= t && i < |s| && ParseNumber(s, i).Done? && Delimited(s, ParseNumber(s, i).next)
    ensures ParseNumber(t, i) == ParseNumber(s, i)
  {
    var start := if s[i] == '-' then i + 1 else i;
    var whole := Whole(s, start);
    if s[start] != '0' {
      DigitsExtend(s, t, start);
    }
    assert Whole(t, start) == whole;
    FractionExtends(s, t, whole);
    ExponentExtends(s, t, Fraction(s, whole));
    NatOfExtends(s, t, start, whole);
    assert forall n :: i <= n <= |s| ==> t[i..n] == s[i..n];
  }

  lemma {:induction false} StartsExtends(s: string, t: string, i: nat, word: string)
    requires s <= t && Starts(s, i, word)
    ensures Starts(t, i, word)
    decreases |word|
  {
    if word != "" {
      StartsExtends(s, t, i + 1, word[1..]);
    }
  }

  lemma LiteralExtends(s: string, t: string, i: nat, word: string, value: Json)
    requires s <= t && Literal(s, i, word, value).Done?
    ensures Literal(t, i, word, value) == Literal(s, i, word, value)
  {
    StartsExtends(s, t, i, word);
  }

  lemma WordExtends(s: string, t: string, i: nat)
    requires s <= t && i < |s| && ParseNumber(s, i).Malformed? && ParseWord(s, i).Done?
    ensures ParseWord(t, i) == ParseWord(s, i) && ParseNumber(t, i).Malformed?
  {
    match s[i]
    case 'n' => LiteralExtends(s, t, i, "null", Null);
    case 't' => LiteralExtends(s, t, i, "true", Bool(true));
    case 'f' => LiteralExtends(s, t, i, "false", Bool(false));
    case 'N' => LiteralExtends(s, t, i, "NaN", Float("NaN"));
    case 'I' => LiteralExtends(s, t, i, "Infinity", Float("Infinity"));
    case _ =>
      LiteralExtends(s, t, i, "-Infinity", Float("-Infinity"));
      assert "-Infinity"[1..][0] == 'I';
      assert s[i + 1] == 'I';
  }

  /** Whether nothing that follows can change how the value reads. */
  predicate Closed(s: string, r: Parsed<Json>)
  {
    r.Done? && (r.value.Int? || r.value.Float? ==> Delimited(s, r.next))
  }

  lemma {:induction false} ValueExtends(s: string, t: string, i: nat)
    requires s <= t && i <= |s| && Closed(s, ParseValue(s, i))
    ensures ParseValue(t, i) == ParseValue(s, i)
    decreases |s| - i, 0
  {
    if s[i] == '"' {
      StringExtends(s, t, i + 1);
    } else if s[i] == '{' {
      ObjectExtends(s, t, i + 1);
    } else if s[i] == '[' {
      ArrayExtends(s, t, i + 1);
    } else if ParseNumber(s, i).Done? {
      NumberExtends(s, t, i);
    } else {
      WordExtends(s, t, i);
    }
  }

  lemma EndExtends(s: string, t: string, i: nat, c: char)
    requires s <= t && i <= |s| && (c == ']' || c == '}') && ParseEnd(s, i, c).Done?
    ensures ParseEnd(t, i, c) == ParseEnd(s, i, c) && Delimited(s, i)
  {
    SkipExtends(s, t, i);
  }

  lemma {:induction false} ArrayExtends(s: string, t: string, i: nat)
    requires s <= t && i <= |s| && ParseArray(s, i).Done?
    ensures ParseArray(t, i) == ParseArray(s, i)
    decreases |s| - i, 2
  {
    SkipExtends(s, t, i);
    if !Sees(s, Skip(s, i), ']') {
      ItemsExtend(s, t, i);
    }
  }

  lemma {:induction false} ItemsExtend(s: string, t: string, i: nat)
    requires s <= t && i <= |s| && ParseItems(s, i).Done?
    ensures ParseItems(t, i) == ParseItems(s, i)
    decreases |s| - i, 1
  {
    SkipExtends(s, t, i);
    var next := ParseValue(s, Skip(s, i)).next;
    EndExtends(s, t, next, ']');
    ValueExtends(s, t, Skip(s, i));
    if !ParseEnd(s, next, ']').value {
      ItemsExtend(s, t, ParseEnd(s, next, ']').next);
    }
  }

  lemma {:induction false} ObjectExtends(s: string, t: string, i: nat)
    requires s <= t && i <= |s| && ParseObject(s, i).Done?
    ensures ParseObject(t, i) == ParseObject(s, i)
    decreases |s| - i, 3
  {
    assert Sees(s, Skip(s, i), '}') || ParsePair(s, i).Done?;
    SkipExtends(s, t, i);
    if !Sees(s, Skip(s, i), '}') {
      MembersExtend(s, t, i);
    }
  }

  lemma KeyExtends(s: string, t: string, i: nat)
    requires s <= t && i <= |s| && ParseKey(s, i).Done?
    ensures ParseKey(t, i) == ParseKey(s, i)
  {
    StringExtends(s, t, i + 1);
    SkipExtends(s, t, ScanString(s, i + 1).next);
  }

  lemma {:induction false} PairExtends(s: string, t: string, i: nat)
    requires s <= t && i <= |s| && ParsePair(s, i).Done? && Delimited(s, ParsePair(s, i).next)
    ensures ParsePair(t, i) == ParsePair(s, i)
    decreases |s| - i, 1
  {
    SkipExtends(s, t, i);
    var key := ParseKey(s, Skip(s, i));
    KeyExtends(s, t, Skip(s, i));
    SkipExtends(s, t, key.next);
    ValueExtends(s, t, Skip(s, key.next));
  }

  lemma {:induction false} MembersExtend(s: string, t: string, i: nat)
    requires s <= t && i <= |s| && ParseMembers(s, i).Done?
    ensures ParseMembers(t, i) == ParseMembers(s, i)
    decreases |s| - i, 2
  {
    var next := ParsePair(s, i).next;
    EndExtends(s, t, next, '}');
    PairExtends(s, t, i);
    if !ParseEnd(s, next, '}').value {
      MembersExtend(s, t, ParseEnd(s, next, '}').next);
    }
  }

  // ------------------------------------------------------------ consequences

  /** When an object's text has been read to its end, no proper prefix of that
      text is a value. */
  lemma NoPrefixLoads(s: string, n: nat)
    requires Sees(s, 0, '{') && ParseValue(s, 0).Done? && ParseValue(s, 0).next == |s|
    requires n < |s|
    ensures Loads(s[..n]).Malformed?
  {
    if Loads(s[..n]).Done? {
      assert s[..n][0] == '{';
      ValueExtends(s[..n], s, 0);
    }
  }

  /** Two texts run together are not a value when the first is an object and the
      second does not begin with space. */
  lemma GluedNeverLoads(s: string, q: string)
    requires Loads(s).Done? && Loads(s).value.Object? && q != "" && !IsSpace(q[0])
    ensures Loads(s + q).Malformed?
  {
    var i := Skip(s, 0);
    SkipExtends(s, s + q, 0);
    ValueExtends(s, s + q, i);
    SkipToEnd(s, s + q, ParseValue(s, i).next);
  }
}
