/**
 Writing a value and reading it back.  A high surrogate written just before a
 low one comes back as one character; nothing else changes.
 */
module JsonRoundTrip {
  import opened Json

  /** A text with every high surrogate joined to a low one that follows it. */
  function Joined(t: Text): Text
  {
    if t == [] then []
    else if |t| > 1 && High(t[0]) && Low(t[1]) then [Join(t[0], t[1])] + Joined(t[2..])
    else [t[0]] + Joined(t[1..])
  }

  /** Whether a split pair of surrogates stands somewhere in the text. */
  predicate Splits(t: Text)
  {
    exists i :: 0 < i < |t| && High(t[i - 1]) && Low(t[i])
  }

  lemma {:induction false} JoinedIff(t: Text)
    ensures |Joined(t)| <= |t|
    ensures Joined(t) == t <==> !Splits(t)
    ensures Splits(t) ==> |Joined(t)| < |t|
  {
    if t != [] {
      if |t| > 1 && High(t[0]) && Low(t[1]) {
        JoinedIff(t[2..]);
        assert High(t[1 - 1]) && Low(t[1]);
      } else {
        JoinedIff(t[1..]);
        if Splits(t[1..]) {
          var i :| 0 < i < |t[1..]| && High(t[1..][i - 1]) && Low(t[1..][i]);
          assert High(t[i + 1 - 1]) && Low(t[i + 1]);
        }
        if Splits(t) {
          var i :| 0 < i < |t| && High(t[i - 1]) && Low(t[i]);
          assert i > 1 && High(t[1..][i - 1 - 1]) && Low(t[1..][i - 1]);
        }
      }
    }
  }

  function JoinedJson(j: Json): Json
  {
    match j
    case Str(t) => Str(Joined(t))
    case Array(items) => Array(JoinedItems(items))
    case Object(members) => Object(JoinedMembers(members))
    case _ => j
  }

  function JoinedItems(items: Items): Items
  {
    match items
    case NoItems => NoItems
    case Item(v, tail) => Item(JoinedJson(v), JoinedItems(tail))
  }

  function JoinedMembers(members: Members): Members
  {
    match members
    case NoMembers => NoMembers
    case Member(k, v, tail) => Member(Joined(k), JoinedJson(v), JoinedMembers(tail))
  }

  /** The text of a float: a number with a fraction or an exponent, or one of the
      three words that Python writes for what is not finite. */
  predicate FloatText(digits: string)
  {
    || digits == "NaN" || digits == "Infinity" || digits == "-Infinity"
    || (digits != "" && Printable(digits) && ParseNumber(digits, 0) == Done(Float(digits), |digits|))
  }

  /** The values whose floats have the text of a float, as `repr` gives it. */
  predicate Exact(j: Json)
  {
    match j
    case Float(digits) => FloatText(digits)
    case Array(items) => ExactItems(items)
    case Object(members) => ExactMembers(members)
    case _ => true
  }

  predicate ExactItems(items: Items)
  {
    items.Item? ==> Exact(items.value) && ExactItems(items.tail)
  }

  predicate ExactMembers(members: Members)
  {
    members.Member? ==> Exact(members.value) && ExactMembers(members.tail)
  }

  lemma {:induction false} StartsSplit(s: string, i: nat, a: string, b: string)
    requires Starts(s, i, a + b)
    ensures Starts(s, i, a) && Starts(s, i + |a|, b)
    decreases |a| + |b|
  {
    if a != "" {
      assert (a + b)[1..] == a[1..] + b;
      StartsSplit(s, i + 1, a[1..], b);
    } else {
      assert a + b == b;
    }
  }

  lemma {:induction false} StartsAt(s: string, i: nat, w: string, k: nat)
    requires Starts(s, i, w) && k < |w|
    ensures s[i + k] == w[k]
    decreases |w|
  {
    if k > 0 {
      StartsAt(s, i + 1, w[1..], k - 1);
    }
  }

  lemma {:induction false} StartsSlice(s: string, i: nat, w: string)
    requires i + |w| <= |s| && s[i..i + |w|] == w
    ensures Starts(s, i, w)
    decreases |w|
  {
    if w != "" {
      assert s[i] == s[i..i + |w|][0];
      assert s[i + 1..i + |w|] == s[i..i + |w|][1..];
      StartsSlice(s, i + 1, w[1..]);
    }
  }

  lemma OpeningReads(s: string, i: nat, open: string, rest: string)
    requires Starts(s, i, open + rest) && |open| == 1
    ensures Sees(s, i, open[0]) && Starts(s, i + 1, rest)
  {
    StartsSplit(s, i, open, rest);
    StartsAt(s, i, open, 0);
  }

  // ------------------------------------------------------------------- strings

  lemma HexValueOfDigit(n: nat)
    requires n < 16
    ensures HexValue(HexDigit(n)) == n
  {
  }

  lemma HexSum(u: int)
    requires 0 <= u < 0x1_0000
    ensures u / 0x1000 * 0x1000 + u / 0x100 % 0x10 * 0x100 + u / 0x10 % 0x10 * 0x10 + u % 0x10 == u
  {
    assert u / 0x100 == u / 0x10 / 0x10;
    assert u / 0x1000 == u / 0x100 / 0x10;
  }

  lemma HexReads(s: string, i: nat, u: int)
    requires 0 <= u < 0x1_0000 && Starts(s, i, UnicodeEscape(u))
    ensures HexEscape(s, i) == u
  {
    var w := UnicodeEscape(u);
    StartsAt(s, i, w, 0);
    StartsAt(s, i, w, 1);
    StartsAt(s, i, w, 2);
    StartsAt(s, i, w, 3);
    StartsAt(s, i, w, 4);
    StartsAt(s, i, w, 5);
    HexValueOfDigit(u / 0x1000);
    HexValueOfDigit(u / 0x100 % 0x10);
    HexValueOfDigit(u / 0x10 % 0x10);
    HexValueOfDigit(u % 0x10);
    assert Hex4(s, i + 2) == u / 0x1000 * 0x1000 + u / 0x100 % 0x10 * 0x100 + u / 0x10 % 0x10 * 0x10 + u % 0x10;
    HexSum(u);
  }

  /** What stands behind a lone high surrogate is not read as its other half. */
  lemma NoLowReads(s: string, i: nat, c: CodePoint)
    requires Starts(s, i, Escape(c)) && !Low(c)
    ensures !Low(HexEscape(s, i))
  {
    var w := Escape(c);
    StartsAt(s, i, w, 0);
    if |w| == 2 {
      StartsAt(s, i, w, 1);
    } else if |w| == 6 {
      HexReads(s, i, c);
    } else if |w| == 12 {
      var high := 0xD800 + (c - 0x1_0000) / 0x400;
      StartsSplit(s, i, UnicodeEscape(high), UnicodeEscape(0xDC00 + (c - 0x1_0000) % 0x400));
      HexReads(s, i, high);
    }
  }

  lemma CharReads(s: string, i: nat, c: CodePoint)
    requires Starts(s, i, Escape(c))
    requires High(c) ==> !Low(HexEscape(s, i + 6))
    ensures ScanChar(s, i) == Done(c, i + |Escape(c)|) && s[i] != '"'
  {
    var w := Escape(c);
    StartsAt(s, i, w, 0);
    if |w| == 2 {
      StartsAt(s, i, w, 1);
    } else if |w| == 6 {
      HexReads(s, i, c);
    } else if |w| == 12 {
      WideReads(s, i, c);
    }
  }

  lemma WideReads(s: string, i: nat, c: CodePoint)
    requires c >= 0x1_0000 && Starts(s, i, Escape(c))
    ensures ScanChar(s, i) == Done(c, i + 12) && s[i] == '\\'
  {
    var high, low := 0xD800 + (c - 0x1_0000) / 0x400, 0xDC00 + (c - 0x1_0000) % 0x400;
    StartsSplit(s, i, UnicodeEscape(high), UnicodeEscape(low));
    HexReads(s, i, high);
    HexReads(s, i + 6, low);
    assert Join(high, low) == c;
  }

  lemma SurrogatesRead(s: string, i: nat, high: CodePoint, low: CodePoint)
    requires High(high) && Low(low) && Starts(s, i, Escape(high)) && Starts(s, i + 6, Escape(low))
    ensures ScanChar(s, i) == Done(Join(high, low), i + 12) && s[i] == '\\'
  {
    HexReads(s, i, high);
    HexReads(s, i + 6, low);
  }

  /** A text as it stands in the file, with its closing quote. */
  function Closing(t: Text): string
  {
    Escaped(t) + "\""
  }

  lemma ClosingStarts(s: string, i: nat, t: Text)
    requires t != [] && Starts(s, i, Closing(t))
    ensures Starts(s, i, Escape(t[0])) && Starts(s, i + |Escape(t[0])|, Closing(t[1..]))
    ensures |Closing(t)| == |Escape(t[0])| + |Closing(t[1..])|
  {
    assert Closing(t) == Escape(t[0]) + Closing(t[1..]);
    StartsSplit(s, i, Escape(t[0]), Closing(t[1..]));
  }

  /** Behind a high surrogate, only a low one reads as its other half. */
  lemma NoLowFollows(s: string, i: nat, t: Text)
    requires Starts(s, i, Closing(t)) && (t == [] || !Low(t[0]))
    ensures !Low(HexEscape(s, i))
  {
    if t == [] {
      StartsAt(s, i, Closing(t), 0);
    } else {
      ClosingStarts(s, i, t);
      NoLowReads(s, i, t[0]);
    }
  }

  lemma PairThenRest(s: string, i: nat, t: Text, end: nat)
    requires |t| > 1 && High(t[0]) && Low(t[1]) && Starts(s, i, Escape(t[0])) && Starts(s, i + 6, Escape(t[1]))
    requires i + 12 <= |s| && ScanString(s, i + 12) == Done(Joined(t[2..]), end)
    ensures ScanString(s, i) == Done(Joined(t), end)
  {
    SurrogatesRead(s, i, t[0], t[1]);
  }

  lemma CharThenRest(s: string, i: nat, t: Text, end: nat)
    requires t != [] && !(|t| > 1 && High(t[0]) && Low(t[1])) && Starts(s, i, Escape(t[0]))
    requires High(t[0]) ==> !Low(HexEscape(s, i + 6))
    requires ScanString(s, i + |Escape(t[0])|) == Done(Joined(t[1..]), end)
    ensures ScanString(s, i) == Done(Joined(t), end)
  {
    CharReads(s, i, t[0]);
  }

  /** A split pair at the head of a text, and what follows it. */
  lemma ClosingPair(s: string, i: nat, t: Text)
    requires |t| > 1 && High(t[0]) && Low(t[1]) && Starts(s, i, Closing(t))
    ensures Starts(s, i, Escape(t[0])) && Starts(s, i + 6, Escape(t[1])) && Starts(s, i + 12, Closing(t[2..]))
    ensures |Closing(t)| == 12 + |Closing(t[2..])|
  {
    ClosingStarts(s, i, t);
    ClosingStarts(s, i + 6, t[1..]);
    assert t[1..][1..] == t[2..];
  }

  /** Any other character at the head, and what follows it. */
  lemma ClosingChar(s: string, i: nat, t: Text)
    requires t != [] && !(|t| > 1 && High(t[0]) && Low(t[1])) && Starts(s, i, Closing(t))
    ensures Starts(s, i, Escape(t[0])) && Starts(s, i + |Escape(t[0])|, Closing(t[1..]))
    ensures High(t[0]) ==> !Low(HexEscape(s, i + 6))
    ensures |Closing(t)| == |Escape(t[0])| + |Closing(t[1..])|
  {
    ClosingStarts(s, i, t);
    if High(t[0]) {
      NoLowFollows(s, i + 6, t[1..]);
    }
  }

  lemma ClosingQuote(s: string, i: nat)
    requires Starts(s, i, Closing([]))
    ensures ScanString(s, i) == Done(Joined([]), i + |Closing([])|)
  {
    StartsAt(s, i, Closing([]), 0);
  }

  lemma {:induction false} StringReads(s: string, i: nat, t: Text)
    requires Starts(s, i, Closing(t))
    ensures ScanString(s, i) == Done(Joined(t), i + |Closing(t)|)
    decreases |t|
  {
    var end := i + |Closing(t)|;
    if t == [] {
      ClosingQuote(s, i);
    } else if |t| > 1 && High(t[0]) && Low(t[1]) {
      ClosingPair(s, i, t);
      StringReads(s, i + 12, t[2..]);
      PairThenRest(s, i, t, end);
    } else {
      ClosingChar(s, i, t);
      StringReads(s, i + |Escape(t[0])|, t[1..]);
      CharThenRest(s, i, t, end);
    }
  }

  lemma QuotedReads(s: string, i: nat, t: Text)
    requires Starts(s, i, Quoted(t))
    ensures i < |s| && s[i] == '"' && ScanString(s, i + 1) == Done(Joined(t), i + |Quoted(t)|)
  {
    assert Quoted(t) == "\"" + Closing(t);
    StartsAt(s, i, Quoted(t), 0);
    StartsSplit(s, i, "\"", Closing(t));
    StringReads(s, i + 1, t);
  }

  // ------------------------------------------------------------------- numbers

  lemma {:induction false} DigitsRead(s: string, i: nat, n: nat)
    requires i <= n <= |s| && (forall k :: i <= k < n ==> IsDigit(s[k])) && (n < |s| ==> !IsDigit(s[n]))
    ensures Digits(s, i) == n
    decreases n - i
  {
    if i < n {
      DigitsRead(s, i + 1, n);
    }
  }

  lemma {:induction false} DecimalReads(s: string, i: nat, n: nat)
    requires Starts(s, i, Decimal(n))
    ensures NatOf(s, i, i + |Decimal(n)|) == n
    ensures forall k :: i <= k < i + |Decimal(n)| ==> IsDigit(s[k])
    ensures s[i] == '0' ==> n == 0
    decreases n
  {
    var end := i + |Decimal(n)|;
    StartsAt(s, i, Decimal(n), |Decimal(n)| - 1);
    if n >= 10 {
      StartsSplit(s, i, Decimal(n / 10), [Digit(n % 10)]);
      DecimalReads(s, i, n / 10);
    } else {
      assert NatOf(s, i, i) == 0;
    }
  }

  /** Whether a number that ends at `i` cannot go on. */
  predicate NumberEnds(s: string, i: nat)
  {
    i < |s| ==> !IsDigit(s[i]) && s[i] != '.' && s[i] != 'e' && s[i] != 'E'
  }

  lemma MagnitudeReads(s: string, i: nat, n: nat)
    requires Starts(s, i, Decimal(n)) && NumberEnds(s, i + |Decimal(n)|)
    ensures var end := i + |Decimal(n)|;
            Whole(s, i) == end && NatOf(s, i, end) == n && Exponent(s, Fraction(s, end)) == end
    ensures i < |s| && IsDigit(s[i])
  {
    DecimalReads(s, i, n);
    DigitsRead(s, i, i + |Decimal(n)|);
    assert s[i] == '0' ==> |Decimal(n)| == 1;
  }

  lemma IntParses(s: string, i: nat, n: int, end: nat)
    requires i < |s| && end <= |s|
    requires var start := if s[i] == '-' then i + 1 else i;
             && start < |s| && IsDigit(s[start]) && Whole(s, start) == end && NatOf(s, start, end) == n
             && Exponent(s, Fraction(s, end)) == end && end > start
    ensures ParseNumber(s, i) == Done(Int(if s[i] == '-' then -n else n), end)
  {
  }

  lemma IntReads(s: string, i: nat, n: int)
    requires Starts(s, i, Write(Int(n))) && NumberEnds(s, i + |Write(Int(n))|)
    ensures i < |s| && ParseNumber(s, i) == Done(Int(n), i + |Write(Int(n))|)
    ensures s[i] == '-' || IsDigit(s[i])
  {
    if n < 0 {
      OpeningReads(s, i, "-", Decimal(-n));
      MagnitudeReads(s, i + 1, -n);
      IntParses(s, i, -n, i + 1 + |Decimal(-n)|);
    } else {
      MagnitudeReads(s, i, n);
      IntParses(s, i, n, i + |Decimal(n)|);
    }
  }

  // -------------------------------------------------------------------- floats

  /** Where `d` stands in `s` and no digit goes on behind it, digits are the same. */
  lemma {:induction false} DigitsShift(s: string, i: nat, d: string, k: nat)
    requires Starts(s, i, d) && k <= |d| && NumberEnds(s, i + |d|)
    ensures Digits(s, i + k) == i + Digits(d, k)
    decreases |d| - k
  {
    if k < |d| {
      StartsAt(s, i, d, k);
      if IsDigit(d[k]) {
        DigitsShift(s, i, d, k + 1);
      }
    }
  }

  lemma SeesShift(s: string, i: nat, d: string, k: nat, c: char)
    requires Starts(s, i, d) && k < |d|
    ensures Sees(s, i + k, c) <==> Sees(d, k, c)
  {
    StartsAt(s, i, d, k);
  }

  lemma FractionShift(s: string, i: nat, d: string, k: nat)
    requires Starts(s, i, d) && k <= |d| && NumberEnds(s, i + |d|)
    ensures Fraction(s, i + k) == i + Fraction(d, k)
  {
    if k < |d| {
      SeesShift(s, i, d, k, '.');
      if d[k] == '.' {
        DigitsShift(s, i, d, k + 1);
      }
    }
  }

  /** An exponent that the text completes; one cut at its end could go on. */
  lemma ExponentShift(s: string, i: nat, d: string, k: nat)
    requires Starts(s, i, d) && k <= |d| && NumberEnds(s, i + |d|) && Exponent(d, k) == |d|
    ensures Exponent(s, i + k) == i + Exponent(d, k)
  {
    if k < |d| {
      SeesShift(s, i, d, k, 'e');
      SeesShift(s, i, d, k, 'E');
      if k + 1 < |d| {
        SeesShift(s, i, d, k + 1, '+');
        SeesShift(s, i, d, k + 1, '-');
        var sign := if Sees(d, k + 1, '+') || Sees(d, k + 1, '-') then k + 2 else k + 1;
        DigitsShift(s, i, d, sign);
      }
    }
  }

  lemma WholeShift(s: string, i: nat, d: string, k: nat)
    requires Starts(s, i, d) && k < |d| && NumberEnds(s, i + |d|)
    ensures Whole(s, i + k) == i + Whole(d, k)
  {
    SeesShift(s, i, d, k, '0');
    DigitsShift(s, i, d, k);
  }

  lemma {:induction false} StartsIsSlice(s: string, i: nat, d: string)
    requires Starts(s, i, d)
    ensures s[i..i + |d|] == d
  {
    forall k: nat | k < |d| ensures s[i + k] == d[k] {
      StartsAt(s, i, d, k);
    }
  }

  lemma FloatEnds(s: string, i: nat, d: string, start: nat)
    requires start < |d| && Starts(s, i, d) && NumberEnds(s, i + |d|)
    requires Exponent(d, Fraction(d, Whole(d, start))) == |d|
    ensures Whole(s, i + start) == i + Whole(d, start)
    ensures Exponent(s, Fraction(s, Whole(s, i + start))) == i + |d|
  {
    WholeShift(s, i, d, start);
    FractionShift(s, i, d, Whole(d, start));
    ExponentShift(s, i, d, Fraction(d, Whole(d, start)));
  }

  lemma FloatReads(s: string, i: nat, d: string)
    requires d != "" && ParseNumber(d, 0) == Done(Float(d), |d|) && Starts(s, i, d) && NumberEnds(s, i + |d|)
    ensures ParseNumber(s, i) == Done(Float(d), i + |d|)
    ensures s[i] == '-' || IsDigit(s[i])
  {
    StartsAt(s, i, d, 0);
    var start := if d[0] == '-' then 1 else 0;
    assert Exponent(d, Fraction(d, Whole(d, start))) == |d|;
    FloatEnds(s, i, d, start);
    StartsIsSlice(s, i, d);
    StartsAt(s, i, d, start);
  }

  lemma NotANumber(s: string, i: nat)
    requires i < |s| && !IsDigit(s[i]) && !(i + 1 < |s| && IsDigit(s[i + 1]))
    ensures ParseNumber(s, i).Malformed?
  {
  }

  lemma WordParses(s: string, i: nat, w: string, value: Json)
    requires i + 1 < |s| && Starts(s, i, w) && ParseWord(s, i) == Literal(s, i, w, value)
    requires !IsDigit(s[i]) && !IsDigit(s[i + 1]) && s[i] != '"' && s[i] != '{' && s[i] != '['
    ensures ParseValue(s, i) == Done(value, i + |w|)
  {
    NotANumber(s, i);
    ScalarParses(s, i);
  }

  /** What opens neither a string nor a container is read as a number or a word. */
  lemma ScalarParses(s: string, i: nat)
    requires i < |s| && s[i] != '"' && s[i] != '{' && s[i] != '['
    ensures ParseValue(s, i) == if ParseNumber(s, i).Done? then ParseNumber(s, i) else ParseWord(s, i)
  {
  }

  lemma NotFiniteReads(s: string, i: nat, w: string)
    requires Starts(s, i, w) && w in {"NaN", "Infinity", "-Infinity"}
    ensures i < |s| && s[i] == w[0] && ParseValue(s, i) == Done(Float(w), i + |w|)
  {
    StartsAt(s, i, w, 0);
    StartsAt(s, i, w, 1);
    match s[i]
    case 'N' => WordParses(s, i, "NaN", Float("NaN"));
    case 'I' => WordParses(s, i, "Infinity", Float("Infinity"));
    case _ => WordParses(s, i, "-Infinity", Float("-Infinity"));
  }

  lemma FiniteReads(s: string, i: nat, d: string)
    requires d != "" && ParseNumber(d, 0) == Done(Float(d), |d|) && Starts(s, i, d) && NumberEnds(s, i + |d|)
    ensures s[i] == '-' || IsDigit(s[i])
    ensures ParseValue(s, i) == Done(Float(d), i + |d|)
  {
    FloatReads(s, i, d);
    ScalarParses(s, i);
  }

  lemma FloatTextReads(s: string, i: nat, digits: string)
    requires FloatText(digits) && Starts(s, i, digits) && NumberEnds(s, i + |digits|)
    ensures i < |s| && !IsSpace(s[i]) && s[i] != ']'
    ensures ParseValue(s, i) == Done(Float(digits), i + |digits|)
  {
    if digits in {"NaN", "Infinity", "-Infinity"} {
      NotFiniteReads(s, i, digits);
    } else {
      FiniteReads(s, i, digits);
    }
  }

  lemma WholeReads(s: string, i: nat, n: int)
    requires Starts(s, i, Write(Int(n))) && NumberEnds(s, i + |Write(Int(n))|)
    ensures i < |s| && !IsSpace(s[i]) && s[i] != ']'
    ensures ParseValue(s, i) == Done(Int(n), i + |Write(Int(n))|)
  {
    IntReads(s, i, n);
    ScalarParses(s, i);
  }

  // -------------------------------------------------------------------- values

  lemma LiteralReads(s: string, i: nat, w: string)
    requires Starts(s, i, w) && w in {"null", "true", "false"}
    ensures i < |s| && !IsSpace(s[i]) && s[i] != ']'
    ensures ParseValue(s, i) == Done(if w == "null" then Null else Bool(w == "true"), i + |w|)
  {
    StartsAt(s, i, w, 0);
    StartsAt(s, i, w, 1);
    WordParses(s, i, w, if w == "null" then Null else Bool(w == "true"));
  }

  /** Any value reads back as it was written, wherever it stands, with its split
      pairs joined. */
  lemma {:induction false} ValueReads(s: string, i: nat, j: Json)
    requires Exact(j) && Starts(s, i, Write(j))
    requires j.Int? || j.Float? ==> NumberEnds(s, i + |Write(j)|)
    ensures i < |s| && !IsSpace(s[i]) && s[i] != ']'
    ensures ParseValue(s, i) == Done(JoinedJson(j), i + |Write(j)|)
    decreases j, 0
  {
    match j
    case Null =>
      LiteralReads(s, i, "null");
    case Bool(b) =>
      LiteralReads(s, i, if b then "true" else "false");
    case Int(n) =>
      WholeReads(s, i, n);
    case Float(digits) =>
      FloatTextReads(s, i, digits);
    case Str(t) =>
      QuotedReads(s, i, t);
    case Array(items) =>
      OpeningReads(s, i, "[", WriteItems(items));
      ArrayReads(s, i + 1, items);
    case Object(members) =>
      OpeningReads(s, i, "{", WriteMembers(members));
      ObjectReads(s, i + 1, members);
  }

  lemma {:induction false} ArrayReads(s: string, i: nat, items: Items)
    requires ExactItems(items) && Starts(s, i, WriteItems(items))
    ensures ParseArray(s, i) == Done(JoinedItems(items), i + |WriteItems(items)|)
    decreases items, 1
  {
    if items.NoItems? {
      StartsAt(s, i, WriteItems(items), 0);
    } else {
      ItemsRead(s, i, items);
    }
  }

  lemma CommaReads(s: string, i: nat, more: string, c: char)
    requires Starts(s, i, "," + more) && (c == ']' || c == '}')
    ensures ParseEnd(s, i, c) == Done(false, i + 1) && NumberEnds(s, i) && Starts(s, i + 1, more)
  {
    StartsAt(s, i, "," + more, 0);
    StartsSplit(s, i, ",", more);
  }

  lemma CloseReads(s: string, i: nat, w: string)
    requires Starts(s, i, w) && (w == "]" || w == "}")
    ensures ParseEnd(s, i, w[0]) == Done(true, i + 1) && NumberEnds(s, i)
  {
    StartsAt(s, i, w, 0);
  }

  /** How an element and what follows it stand in the text. */
  lemma ItemsStart(s: string, i: nat, items: Items, k: nat)
    requires items.Item? && Starts(s, i, WriteItems(items)) && k == i + |Write(items.value)|
    ensures Starts(s, i, Write(items.value)) && NumberEnds(s, k)
    ensures k < |s| && ParseEnd(s, k, ']') == Done(items.tail.NoItems?, k + 1)
    ensures items.tail.NoItems? ==> i + |WriteItems(items)| == k + 1
    ensures items.tail.Item? ==>
              Starts(s, k + 1, WriteItems(items.tail)) && i + |WriteItems(items)| == k + 1 + |WriteItems(items.tail)|
  {
    var v := Write(items.value);
    if items.tail.NoItems? {
      StartsSplit(s, i, v, "]");
      CloseReads(s, k, "]");
    } else {
      var more := WriteItems(items.tail);
      StartsSplit(s, i, v, "," + more);
      CommaReads(s, k, more, ']');
    }
  }

  lemma ItemsParse(s: string, i: nat, value: Json, k: nat, tail: Items, end: nat)
    requires i < |s| && !IsSpace(s[i]) && ParseValue(s, i) == Done(value, k) && ParseEnd(s, k, ']').Done?
    requires var more := ParseEnd(s, k, ']');
             if more.value then tail == NoItems && end == more.next else ParseItems(s, more.next) == Done(tail, end)
    ensures ParseItems(s, i) == Done(Item(value, tail), end)
  {
  }

  lemma {:induction false} ItemsRead(s: string, i: nat, items: Items)
    requires items.Item? && ExactItems(items) && Starts(s, i, WriteItems(items))
    ensures ParseItems(s, i) == Done(JoinedItems(items), i + |WriteItems(items)|)
    ensures i < |s| && !IsSpace(s[i]) && s[i] != ']'
    decreases items, 0
  {
    var k := i + |Write(items.value)|;
    ItemsStart(s, i, items, k);
    ValueReads(s, i, items.value);
    if items.tail.Item? {
      ItemsRead(s, k + 1, items.tail);
    }
    ItemsParse(s, i, JoinedJson(items.value), k, JoinedItems(items.tail), i + |WriteItems(items)|);
  }

  lemma {:induction false} ObjectReads(s: string, i: nat, members: Members)
    requires ExactMembers(members) && Starts(s, i, WriteMembers(members))
    ensures ParseObject(s, i) == Done(JoinedMembers(members), i + |WriteMembers(members)|)
    decreases members, 1
  {
    if members.NoMembers? {
      StartsAt(s, i, WriteMembers(members), 0);
    } else {
      MembersRead(s, i, members);
    }
  }

  lemma KeyParses(s: string, i: nat, key: Text, k: nat)
    requires Sees(s, i, '"') && ScanString(s, i + 1) == Done(key, k) && Sees(s, k, ':')
    ensures Skip(s, i) == i && ParseKey(s, i) == Done(key, k + 1)
  {
  }

  lemma PairParses(s: string, i: nat, key: Text, k: nat, value: Json, end: nat)
    requires Sees(s, i, '"') && ScanString(s, i + 1) == Done(key, k) && Sees(s, k, ':')
    requires k + 1 < |s| && !IsSpace(s[k + 1]) && ParseValue(s, k + 1) == Done(value, end)
    ensures ParsePair(s, i) == Done(Pair(key, value), end)
  {
    KeyParses(s, i, key, k);
    assert Skip(s, k + 1) == k + 1;
  }

  lemma PairStarts(s: string, i: nat, key: Text, value: Json)
    requires Starts(s, i, WritePair(key, value))
    ensures Sees(s, i, '"') && ScanString(s, i + 1) == Done(Joined(key), i + |Quoted(key)|)
    ensures Sees(s, i + |Quoted(key)|, ':') && Starts(s, i + |Quoted(key)| + 1, Write(value))
    ensures |WritePair(key, value)| == |Quoted(key)| + 1 + |Write(value)|
  {
    StartsSplit(s, i, Quoted(key) + ":", Write(value));
    StartsSplit(s, i, Quoted(key), ":");
    StartsAt(s, i + |Quoted(key)|, ":", 0);
    QuotedReads(s, i, key);
  }

  lemma {:induction false} PairReads(s: string, i: nat, key: Text, value: Json)
    requires Exact(value) && Starts(s, i, WritePair(key, value)) && NumberEnds(s, i + |WritePair(key, value)|)
    ensures ParsePair(s, i) == Done(Pair(Joined(key), JoinedJson(value)), i + |WritePair(key, value)|)
    ensures Sees(s, i, '"')
    decreases value, 1
  {
    var k := i + |Quoted(key)|;
    PairStarts(s, i, key, value);
    ValueReads(s, k + 1, value);
    PairParses(s, i, Joined(key), k, JoinedJson(value), k + 1 + |Write(value)|);
  }

  /** How a member and what follows it stand in the text. */
  lemma MembersStart(s: string, i: nat, members: Members, k: nat)
    requires members.Member? && Starts(s, i, WriteMembers(members))
    requires k == i + |WritePair(members.key, members.value)|
    ensures Starts(s, i, WritePair(members.key, members.value)) && NumberEnds(s, k)
    ensures k < |s| && ParseEnd(s, k, '}') == Done(members.tail.NoMembers?, k + 1)
    ensures members.tail.NoMembers? ==> i + |WriteMembers(members)| == k + 1
    ensures members.tail.Member? ==>
              Starts(s, k + 1, WriteMembers(members.tail))
              && i + |WriteMembers(members)| == k + 1 + |WriteMembers(members.tail)|
  {
    var p := WritePair(members.key, members.value);
    if members.tail.NoMembers? {
      StartsSplit(s, i, p, "}");
      CloseReads(s, k, "}");
    } else {
      var more := WriteMembers(members.tail);
      StartsSplit(s, i, p, "," + more);
      CommaReads(s, k, more, '}');
    }
  }

  lemma MembersParse(s: string, i: nat, key: Text, value: Json, k: nat, tail: Members, end: nat)
    requires i <= |s| && ParsePair(s, i) == Done(Pair(key, value), k) && ParseEnd(s, k, '}').Done?
    requires var more := ParseEnd(s, k, '}');
             if more.value then tail == NoMembers && end == more.next else ParseMembers(s, more.next) == Done(tail, end)
    ensures ParseMembers(s, i) == Done(Member(key, value, tail), end)
  {
  }

  lemma {:induction false} MembersRead(s: string, i: nat, members: Members)
    requires members.Member? && ExactMembers(members) && Starts(s, i, WriteMembers(members))
    ensures ParseMembers(s, i) == Done(JoinedMembers(members), i + |WriteMembers(members)|)
    ensures i < |s| && s[i] == '"'
    decreases members, 0
  {
    var k := i + |WritePair(members.key, members.value)|;
    MembersStart(s, i, members, k);
    PairReads(s, i, members.key, members.value);
    if members.tail.Member? {
      MembersRead(s, k + 1, members.tail);
    }
    var end := i + |WriteMembers(members)|;
    MembersParse(s, i, Joined(members.key), JoinedJson(members.value), k, JoinedMembers(members.tail), end);
  }

  /** What `json.dumps` writes, `json.loads` reads. */
  lemma RoundTrip(j: Json)
    requires Exact(j)
    ensures Loads(Write(j)) == Done(JoinedJson(j), |Write(j)|)
  {
    assert Write(j)[0..|Write(j)|] == Write(j);
    StartsSlice(Write(j), 0, Write(j));
    ValueReads(Write(j), 0, j);
  }

  // ------------------------------------------------- what is read is never split

  lemma {:induction false} StringIsJoined(s: string, i: nat)
    requires i <= |s| && ScanString(s, i).Done?
    ensures Joined(ScanString(s, i).value) == ScanString(s, i).value
    decreases |s| - i
  {
    if s[i] != '"' {
      var c := ScanChar(s, i);
      StringIsJoined(s, c.next);
      var more := ScanString(s, c.next).value;
      if High(c.value) && more != [] {
        assert s[c.next] != '"';
        assert !Low(more[0]);
      }
      assert ([c.value] + more)[1..] == more;
    }
  }

  /** Whatever was read has no split pair left, so reading what was read and
      written again changes nothing more. */
  lemma {:induction false} ValueIsJoined(s: string, i: nat)
    requires i <= |s| && ParseValue(s, i).Done?
    ensures JoinedJson(ParseValue(s, i).value) == ParseValue(s, i).value
    decreases |s| - i, 0
  {
    if s[i] == '"' {
      StringIsJoined(s, i + 1);
    } else if s[i] == '{' {
      if !Sees(s, Skip(s, i + 1), '}') {
        MembersAreJoined(s, i + 1);
      }
    } else if s[i] == '[' {
      if !Sees(s, Skip(s, i + 1), ']') {
        ItemsAreJoined(s, i + 1);
      }
    }
  }

  lemma {:induction false} ItemsAreJoined(s: string, i: nat)
    requires i <= |s| && ParseItems(s, i).Done?
    ensures JoinedItems(ParseItems(s, i).value) == ParseItems(s, i).value
    decreases |s| - i, 1
  {
    var v := ParseValue(s, Skip(s, i));
    ValueIsJoined(s, Skip(s, i));
    var end := ParseEnd(s, v.next, ']');
    if !end.value {
      ItemsAreJoined(s, end.next);
    }
  }

  lemma {:induction false} MembersAreJoined(s: string, i: nat)
    requires i <= |s| && ParseMembers(s, i).Done?
    ensures JoinedMembers(ParseMembers(s, i).value) == ParseMembers(s, i).value
    decreases |s| - i, 1
  {
    var key := ParseKey(s, Skip(s, i));
    StringIsJoined(s, Skip(s, i) + 1);
    ValueIsJoined(s, Skip(s, key.next));
    var end := ParseEnd(s, ParsePair(s, i).next, '}');
    if !end.value {
      MembersAreJoined(s, end.next);
    }
  }

  lemma LoadedIsJoined(s: string)
    requires Loads(s).Done?
    ensures JoinedJson(Loads(s).value) == Loads(s).value
  {
    ValueIsJoined(s, Skip(s, 0));
  }

  // ---------------------------------------------------------- one line of ASCII

  predicate Printable(s: string)
  {
    forall i :: 0 <= i < |s| ==> ' ' <= s[i] <= '~'
  }

  lemma PrintableParts(a: string, b: string)
    requires Printable(a) && Printable(b)
    ensures Printable(a + b)
  {
  }

  lemma HexEscapeIsPrintable(u: int)
    requires 0 <= u < 0x1_0000
    ensures Printable(UnicodeEscape(u))
  {
    assert forall n: nat :: n < 16 ==> ' ' <= HexDigit(n) <= '~';
  }

  lemma EscapeIsPrintable(c: CodePoint)
    ensures Printable(Escape(c))
  {
    if |Escape(c)| == 6 {
      HexEscapeIsPrintable(c);
    } else if |Escape(c)| == 12 {
      var high, low := 0xD800 + (c - 0x1_0000) / 0x400, 0xDC00 + (c - 0x1_0000) % 0x400;
      HexEscapeIsPrintable(high);
      HexEscapeIsPrintable(low);
      PrintableParts(UnicodeEscape(high), UnicodeEscape(low));
    }
  }

  lemma {:induction false} EscapedIsPrintable(t: Text)
    ensures Printable(Escaped(t))
  {
    if t != [] {
      EscapedIsPrintable(t[1..]);
      EscapeIsPrintable(t[0]);
      PrintableParts(Escape(t[0]), Escaped(t[1..]));
    }
  }

  lemma {:induction false} DecimalIsPrintable(n: nat)
    ensures Printable(Decimal(n))
  {
    if n >= 10 {
      DecimalIsPrintable(n / 10);
    }
  }

  /** The text of a value has no line break and no character outside ASCII. */
  lemma {:induction false} WrittenIsPrintable(j: Json)
    requires Exact(j)
    ensures Printable(Write(j))
    decreases j, 0
  {
    match j
    case Int(n) => DecimalIsPrintable(if n < 0 then -n else n);
    case Str(t) => EscapedIsPrintable(t);
    case Array(items) => ItemsArePrintable(items);
    case Object(members) => MembersArePrintable(members);
    case _ =>
  }

  lemma {:induction false} ItemsArePrintable(items: Items)
    requires ExactItems(items)
    ensures Printable(WriteItems(items))
  {
    if items.Item? {
      WrittenIsPrintable(items.value);
      ItemsArePrintable(items.tail);
    }
  }

  lemma {:induction false} PairIsPrintable(key: Text, value: Json)
    requires Exact(value)
    ensures Printable(WritePair(key, value))
    decreases value, 1
  {
    EscapedIsPrintable(key);
    WrittenIsPrintable(value);
    PrintableParts(Quoted(key) + ":", Write(value));
  }

  lemma {:induction false} MembersArePrintable(members: Members)
    requires ExactMembers(members)
    ensures Printable(WriteMembers(members))
    decreases members, 0
  {
    if members.Member? {
      PairIsPrintable(members.key, members.value);
      if members.tail.Member? {
        MembersArePrintable(members.tail);
        PrintableParts(",", WriteMembers(members.tail));
        PrintableParts(WritePair(members.key, members.value), "," + WriteMembers(members.tail));
      }
    }
  }
}
