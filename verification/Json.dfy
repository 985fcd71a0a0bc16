/**
 JSON text as `json.dumps` writes it (compact, ASCII only) and as `json.loads`
 reads it.  Strings are sequences of code points, in which surrogates may stand
 alone.  Standard: sections 2 to 7 of RFC 8259.
 */
module Json {
  type CodePoint = c: int | 0 <= c < 0x11_0000
  type Text = seq<CodePoint>

  datatype Json =
    | Null
    | Bool(b: bool)
    | Int(n: int)
    | Float(digits: string)
    | Str(s: Text)
    | Array(items: Items)
    | Object(members: Members)

  datatype Items = NoItems | Item(value: Json, tail: Items)
  datatype Members = NoMembers | Member(key: Text, value: Json, tail: Members)

  /** The value of a key: the last of the members that have it. */
  function Get(members: Members, key: Text): (r: Json)
  {
    match members
    case NoMembers => Null
    case Member(k, v, tail) => if k == key && !Has(tail, key) then v else Get(tail, key)
  }

  predicate Has(members: Members, key: Text)
  {
    match members
    case NoMembers => false
    case Member(k, _, tail) => k == key || Has(tail, key)
  }

  // ------------------------------------------------------------------- writing

  predicate High(c: int) { 0xD800 <= c < 0xDC00 }
  predicate Low(c: int) { 0xDC00 <= c < 0xE000 }

  function HexDigit(n: nat): char
    requires n < 16
  {
    if n < 10 then Digit(n) else ('a' as int + n - 10) as char
  }

  function UnicodeEscape(c: int): (s: string)
    requires 0 <= c < 0x1_0000
    ensures |s| == 6
  {
    ['\\', 'u', HexDigit(c / 0x1000), HexDigit(c / 0x100 % 0x10), HexDigit(c / 0x10 % 0x10), HexDigit(c % 0x10)]
  }

  function Escape(c: CodePoint): (s: string)
    ensures s != ""
  {
    if c == '\\' as int then "\\\\"
    else if c == '"' as int then "\\\""
    else if c == 8 then "\\b"
    else if c == 12 then "\\f"
    else if c == 10 then "\\n"
    else if c == 13 then "\\r"
    else if c == 9 then "\\t"
    else if 0x20 <= c < 0x7F then [c as char]
    else if c < 0x1_0000 then UnicodeEscape(c)
    else UnicodeEscape(0xD800 + (c - 0x1_0000) / 0x400) + UnicodeEscape(0xDC00 + (c - 0x1_0000) % 0x400)
  }

  function Escaped(s: Text): string
  {
    if s == [] then "" else Escape(s[0]) + Escaped(s[1..])
  }

  function Quoted(s: Text): string
  {
    "\"" + Escaped(s) + "\""
  }

  function Digit(n: nat): char
    requires n < 10
  {
    ('0' as int + n) as char
  }

  function Decimal(n: nat): (s: string)
    ensures s != ""
  {
    if n < 10 then [Digit(n)] else Decimal(n / 10) + [Digit(n % 10)]
  }

  function Write(j: Json): string
    decreases j, 0
  {
    match j
    case Null => "null"
    case Bool(b) => if b then "true" else "false"
    case Int(n) => if n < 0 then "-" + Decimal(-n) else Decimal(n)
    case Float(digits) => digits
    case Str(s) => Quoted(s)
    case Array(items) => "[" + WriteItems(items)
    case Object(members) => "{" + WriteMembers(members)
  }

  function WriteItems(items: Items): string
    decreases items, 0
  {
    match items
    case NoItems => "]"
    case Item(v, NoItems) => Write(v) + "]"
    case Item(v, tail) => Write(v) + ("," + WriteItems(tail))
  }

  function WriteMembers(members: Members): string
    decreases members, 0
  {
    match members
    case NoMembers => "}"
    case Member(k, v, NoMembers) => WritePair(k, v) + "}"
    case Member(k, v, tail) => WritePair(k, v) + ("," + WriteMembers(tail))
  }

  function WritePair(key: Text, value: Json): string
    decreases value, 1
  {
    (Quoted(key) + ":") + Write(value)
  }

  // ------------------------------------------------------------------- reading

  /** What was read, and the index behind it. */
  datatype Parsed<T> = Done(value: T, next: nat) | Malformed

  predicate IsSpace(c: char) { c == ' ' || c == '\t' || c == '\n' || c == '\r' }

  predicate IsDigit(c: char) { '0' <= c <= '9' }

  /** Whether character `c` stands at index `i`. */
  predicate Sees(s: string, i: nat, c: char)
  {
    i < |s| && s[i] == c
  }

  function Skip(s: string, i: nat): (n: nat)
    requires i <= |s|
    ensures i <= n <= |s|
    decreases |s| - i
  {
    if i < |s| && IsSpace(s[i]) then Skip(s, i + 1) else i
  }

  function HexValue(c: char): (v: int)
    ensures -1 <= v < 16
  {
    if '0' <= c <= '9' then c as int - '0' as int
    else if 'a' <= c <= 'f' then c as int - 'a' as int + 10
    else if 'A' <= c <= 'F' then c as int - 'A' as int + 10
    else -1
  }

  /** The value of the four hexadecimal digits at `i`, or -1. */
  function Hex4(s: string, i: nat): (v: int)
    ensures -1 <= v < 0x1_0000
    ensures v >= 0 ==> i + 4 <= |s|
  {
    if |s| < i + 4 || HexValue(s[i]) < 0 || HexValue(s[i + 1]) < 0 || HexValue(s[i + 2]) < 0 || HexValue(s[i + 3]) < 0
    then -1
    else HexValue(s[i]) * 0x1000 + HexValue(s[i + 1]) * 0x100 + HexValue(s[i + 2]) * 0x10 + HexValue(s[i + 3])
  }

  function Join(high: int, low: int): CodePoint
    requires High(high) && Low(low)
  {
    0x1_0000 + (high - 0xD800) * 0x400 + (low - 0xDC00)
  }

  /** The value of a \u escape at `i`, or -1. */
  function HexEscape(s: string, i: nat): (v: int)
    ensures -1 <= v < 0x1_0000
    ensures v >= 0 ==> i + 6 <= |s|
  {
    if Sees(s, i, '\\') && Sees(s, i + 1, 'u') then Hex4(s, i + 2) else -1
  }

  function ShortEscape(c: char): (v: int)
    ensures -1 <= v < 0x80
  {
    match c
    case '"' => 0x22
    case '\\' => 0x5C
    case '/' => 0x2F
    case 'b' => 8
    case 'f' => 12
    case 'n' => 10
    case 'r' => 13
    case 't' => 9
    case _ => -1
  }

  /** One escape sequence.  A high surrogate takes a low one that follows it. */
  function Unescape(s: string, i: nat): (r: Parsed<CodePoint>)
    requires Sees(s, i, '\\')
    ensures r.Done? ==> i < r.next <= |s|
  {
    var u := HexEscape(s, i);
    if u >= 0 then
      if High(u) && Low(HexEscape(s, i + 6)) then Done(Join(u, HexEscape(s, i + 6)), i + 12) else Done(u, i + 6)
    else if i + 1 < |s| && ShortEscape(s[i + 1]) >= 0 then Done(ShortEscape(s[i + 1]), i + 2)
    else Malformed
  }

  /** One character of a string literal, raw or escaped. */
  function ScanChar(s: string, i: nat): (r: Parsed<CodePoint>)
    requires i < |s|
    ensures r.Done? ==> i < r.next <= |s|
  {
    if s[i] == '\\' then Unescape(s, i)
    else if s[i] < ' ' then Malformed
    else Done(s[i] as int, i + 1)
  }

  /** The rest of a string literal, behind its opening quote. */
  function ScanString(s: string, i: nat): (r: Parsed<Text>)
    requires i <= |s|
    ensures r.Done? ==> i < r.next <= |s|
    decreases |s| - i
  {
    if i == |s| then Malformed
    else if s[i] == '"' then Done([], i + 1)
    else
      var c := ScanChar(s, i);
      if c.Malformed? then Malformed
      else
        var more := ScanString(s, c.next);
        if more.Malformed? then Malformed else Done([c.value] + more.value, more.next)
  }

  /** The index behind the digits that stand at `i`. */
  function Digits(s: string, i: nat): (n: nat)
    requires i <= |s|
    ensures i <= n <= |s|
    decreases |s| - i
  {
    if i < |s| && IsDigit(s[i]) then Digits(s, i + 1) else i
  }

  /** The number that the digits from `i` to `n` stand for. */
  function NatOf(s: string, i: nat, n: nat): int
    requires i <= n <= |s|
    decreases n
  {
    if i == n then 0 else NatOf(s, i, n - 1) * 10 + HexValue(s[n - 1])
  }

  /** The index behind a fraction part, if one stands at `i`. */
  function Fraction(s: string, i: nat): (n: nat)
    requires i <= |s|
    ensures i <= n <= |s|
  {
    if Sees(s, i, '.') && Digits(s, i + 1) > i + 1 then Digits(s, i + 1) else i
  }

  /** The index behind an exponent part, if one stands at `i`. */
  function Exponent(s: string, i: nat): (n: nat)
    requires i <= |s|
    ensures i <= n <= |s|
  {
    if !Sees(s, i, 'e') && !Sees(s, i, 'E') then i
    else
      var d := if Sees(s, i + 1, '+') || Sees(s, i + 1, '-') then i + 2 else i + 1;
      if Digits(s, d) > d then Digits(s, d) else i
  }

  /** The index behind an integer part: one zero, or digits that do not begin with zero. */
  function Whole(s: string, i: nat): (n: nat)
    requires i <= |s|
    ensures i <= n <= |s|
  {
    if Sees(s, i, '0') then i + 1 else Digits(s, i)
  }

  function ParseNumber(s: string, i: nat): (r: Parsed<Json>)
    requires i < |s|
    ensures r.Done? ==> i < r.next <= |s|
  {
    var start := if s[i] == '-' then i + 1 else i;
    var whole := Whole(s, start);
    if whole == start then Malformed
    else
      var end := Exponent(s, Fraction(s, whole));
      if end > whole then Done(Float(s[i..end]), end)
      else Done(Int(if start > i then -NatOf(s, start, whole) else NatOf(s, start, whole)), whole)
  }

  /** Whether `word` stands at `i`. */
  predicate Starts(s: string, i: nat, word: string): (r: bool)
    ensures r ==> i + |word| <= |s|
    decreases |word|
  {
    if word == "" then i <= |s| else Sees(s, i, word[0]) && Starts(s, i + 1, word[1..])
  }

  function Literal(s: string, i: nat, word: string, value: Json): (r: Parsed<Json>)
    ensures word != "" && r.Done? ==> i < r.next <= |s|
  {
    if Starts(s, i, word) then Done(value, i + |word|) else Malformed
  }

  function ParseWord(s: string, i: nat): (r: Parsed<Json>)
    requires i < |s|
    ensures r.Done? ==> i < r.next <= |s|
  {
    match s[i]
    case 'n' => Literal(s, i, "null", Null)
    case 't' => Literal(s, i, "true", Bool(true))
    case 'f' => Literal(s, i, "false", Bool(false))
    case 'N' => Literal(s, i, "NaN", Float("NaN"))
    case 'I' => Literal(s, i, "Infinity", Float("Infinity"))
    case '-' => Literal(s, i, "-Infinity", Float("-Infinity"))
    case _ => Malformed
  }

  function ParseValue(s: string, i: nat): (r: Parsed<Json>)
    requires i <= |s|
    ensures r.Done? ==> i < r.next <= |s|
    decreases |s| - i, 0
  {
    if i == |s| then Malformed
    else if s[i] == '"' then
      match ScanString(s, i + 1)
      case Malformed => Malformed
      case Done(t, next) => Done(Str(t), next)
    else if s[i] == '{' then
      match ParseObject(s, i + 1)
      case Malformed => Malformed
      case Done(members, next) => Done(Object(members), next)
    else if s[i] == '[' then
      match ParseArray(s, i + 1)
      case Malformed => Malformed
      case Done(items, next) => Done(Array(items), next)
    else if ParseNumber(s, i).Done? then ParseNumber(s, i)
    else ParseWord(s, i)
  }

  /** What stands behind an element: the closing character `c`, or a comma and more. */
  function ParseEnd(s: string, i: nat, c: char): (r: Parsed<bool>)
    requires i <= |s|
    ensures r.Done? ==> i < r.next <= |s|
  {
    var k := Skip(s, i);
    if Sees(s, k, c) then Done(true, k + 1) else if Sees(s, k, ',') then Done(false, k + 1) else Malformed
  }

  function ParseArray(s: string, i: nat): (r: Parsed<Items>)
    requires i <= |s|
    ensures r.Done? ==> i < r.next <= |s|
    decreases |s| - i, 2
  {
    var k := Skip(s, i);
    if Sees(s, k, ']') then Done(NoItems, k + 1) else ParseItems(s, i)
  }

  function ParseItems(s: string, i: nat): (r: Parsed<Items>)
    requires i <= |s|
    ensures r.Done? ==> i < r.next <= |s|
    decreases |s| - i, 1
  {
    var v := ParseValue(s, Skip(s, i));
    if v.Malformed? then Malformed
    else
      var end := ParseEnd(s, v.next, ']');
      if end.Malformed? then Malformed
      else if end.value then Done(Item(v.value, NoItems), end.next)
      else
        var more := ParseItems(s, end.next);
        if more.Malformed? then Malformed else Done(Item(v.value, more.value), more.next)
  }

  function ParseObject(s: string, i: nat): (r: Parsed<Members>)
    requires i <= |s|
    ensures r.Done? ==> i < r.next <= |s|
    decreases |s| - i, 3
  {
    var k := Skip(s, i);
    if Sees(s, k, '}') then Done(NoMembers, k + 1) else ParseMembers(s, i)
  }

  /** A key and its colon. */
  function ParseKey(s: string, i: nat): (r: Parsed<Text>)
    requires i <= |s|
    ensures r.Done? ==> i < r.next <= |s|
  {
    if !Sees(s, i, '"') then Malformed
    else
      var key := ScanString(s, i + 1);
      if key.Malformed? || !Sees(s, Skip(s, key.next), ':') then Malformed
      else Done(key.value, Skip(s, key.next) + 1)
  }

  datatype Pair = Pair(key: Text, value: Json)

  /** A key, its colon and its value. */
  function ParsePair(s: string, i: nat): (r: Parsed<Pair>)
    requires i <= |s|
    ensures r.Done? ==> i < r.next <= |s|
    decreases |s| - i, 1
  {
    var key := ParseKey(s, Skip(s, i));
    if key.Malformed? then Malformed
    else
      var v := ParseValue(s, Skip(s, key.next));
      if v.Malformed? then Malformed else Done(Pair(key.value, v.value), v.next)
  }

  function ParseMembers(s: string, i: nat): (r: Parsed<Members>)
    requires i <= |s|
    ensures r.Done? ==> i < r.next <= |s|
    decreases |s| - i, 2
  {
    var pair := ParsePair(s, i);
    if pair.Malformed? then Malformed
    else
      var end := ParseEnd(s, pair.next, '}');
      if end.Malformed? then Malformed
      else if end.value then Done(Member(pair.value.key, pair.value.value, NoMembers), end.next)
      else
        var more := ParseMembers(s, end.next);
        if more.Malformed? then Malformed
        else Done(Member(pair.value.key, pair.value.value, more.value), more.next)
  }

  /** `json.loads`: one value, with nothing but space around it. */
  function Loads(s: string): Parsed<Json>
  {
    var v := ParseValue(s, Skip(s, 0));
    if v.Done? && Skip(s, v.next) == |s| then Done(v.value, |s|) else Malformed
  }
}
