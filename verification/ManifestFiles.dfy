/**
 Manifest files: their lines, the lenient reader that recovers a torn tail, the
 strict reader that the collector uses, and what a torn append leaves behind.
 A byte is a character below 256; `decode` is UTF-8 decoding.
 */
module ManifestFiles {
  import opened Options

  type Bytes = string
  type Decoder = Bytes -> Option<string>

  predicate Ascii(s: string)
  {
    forall i :: 0 <= i < |s| ==> s[i] < 128 as char
  }

  /** What the model knows of UTF-8: ASCII behind a decodable text decodes to itself. */
  ghost predicate Utf8(decode: Decoder)
  {
    && decode("") == Some("")
    && forall s, a :: Ascii(a) && decode(s).Some? ==> decode(s + a) == Some(decode(s).value + a)
  }

  // --------------------------------------------------------------------- lines

  predicate IsBreak(c: char) { c == '\n' || c == '\r' }

  /** The length of the first line with its line break. */
  function FirstLine(raw: Bytes): (n: nat)
    requires raw != ""
    ensures 0 < n <= |raw|
  {
    if raw[0] == '\n' then 1
    else if raw[0] == '\r' then if |raw| > 1 && raw[1] == '\n' then 2 else 1
    else if |raw| == 1 then 1
    else 1 + FirstLine(raw[1..])
  }

  function SplitLines(raw: Bytes): seq<Bytes>
  {
    if raw == "" then [] else [raw[..FirstLine(raw)]] + SplitLines(raw[FirstLine(raw)..])
  }

  function Concat(lines: seq<Bytes>): Bytes
  {
    if lines == [] then "" else lines[0] + Concat(lines[1..])
  }

  predicate Terminated(line: Bytes)
  {
    line != "" && IsBreak(line[|line| - 1])
  }

  lemma {:induction false} LinesConcat(raw: Bytes)
    ensures Concat(SplitLines(raw)) == raw
  {
    if raw != "" {
      var n := FirstLine(raw);
      LinesConcat(raw[n..]);
    }
  }

  lemma {:induction false} LastIsNotEmpty(raw: Bytes)
    requires raw != ""
    ensures SplitLines(raw) != [] && SplitLines(raw)[|SplitLines(raw)| - 1] != ""
  {
    var n := FirstLine(raw);
    if n < |raw| {
      LastIsNotEmpty(raw[n..]);
    }
  }

  lemma {:induction false} FirstLineOfMore(a: Bytes, b: Bytes)
    requires Terminated(a) && b != "" && b[0] != '\n'
    ensures FirstLine(a + b) == FirstLine(a)
  {
    if !IsBreak(a[0]) {
      assert (a + b)[1..] == a[1..] + b;
      FirstLineOfMore(a[1..], b);
    }
  }

  /** Text behind a line break begins a new line. */
  lemma {:induction false} SplitBehindBreak(a: Bytes, b: Bytes)
    requires (a == "" || Terminated(a)) && b != "" && b[0] != '\n'
    ensures SplitLines(a + b) == SplitLines(a) + SplitLines(b)
  {
    if a == "" {
      assert a + b == b;
    } else {
      FirstLineOfMore(a, b);
      var n := FirstLine(a);
      assert (a + b)[..n] == a[..n] && (a + b)[n..] == a[n..] + b;
      SplitBehindBreak(a[n..], b);
    }
  }

  predicate Unbroken(s: string)
  {
    forall i :: 0 <= i < |s| ==> !IsBreak(s[i])
  }

  lemma {:induction false} OneLine(body: Bytes)
    requires body != "" && Unbroken(body)
    ensures SplitLines(body) == [body] && SplitLines(body + "\n") == [body + "\n"]
  {
    OneLineLength(body);
    var line := body + "\n";
    assert body[|body|..] == "" && body[..|body|] == body;
    assert line[|line|..] == "" && line[..|line|] == line;
  }

  lemma {:induction false} OneLineLength(body: Bytes)
    requires body != "" && Unbroken(body)
    ensures FirstLine(body) == |body| && FirstLine(body + "\n") == |body| + 1
  {
    if |body| > 1 {
      assert (body + "\n")[1..] == body[1..] + "\n";
      OneLineLength(body[1..]);
    } else {
      assert (body + "\n")[1..] == "\n";
    }
  }

  lemma {:induction false} FirstLineShape(raw: Bytes, m: nat)
    requires raw != "" && FirstLine(raw) <= m <= |raw|
    ensures var n := FirstLine(raw);
            && FirstLine(raw[..m]) == n
            && (n < |raw| ==> IsBreak(raw[n - 1]))
            && (!IsBreak(raw[n - 1]) ==> Unbroken(raw))
  {
    if !IsBreak(raw[0]) && |raw| > 1 {
      FirstLineShape(raw[1..], m - 1);
      assert raw[..m][1..] == raw[1..][..m - 1];
      assert Unbroken(raw[1..]) ==> Unbroken(raw) by {
        if Unbroken(raw[1..]) {
          assert forall i :: 0 < i < |raw| ==> raw[i] == raw[1..][i - 1];
        }
      }
    }
  }

  lemma {:induction false} FirstLinesArePrefix(raw: Bytes, k: nat)
    requires k <= |SplitLines(raw)|
    ensures Concat(SplitLines(raw)[..k]) <= raw
    ensures k < |SplitLines(raw)| ==> |Concat(SplitLines(raw)[..k])| < |raw|
  {
    if k > 0 {
      var n := FirstLine(raw);
      var rest := SplitLines(raw[n..]);
      FirstLinesArePrefix(raw[n..], k - 1);
      FirstLinesMore(raw[..n], rest, k, SplitLines(raw));
      var some := Concat(rest[..k - 1]);
      assert raw[..n] + some == raw[..n + |some|];
    }
  }

  lemma SplitFront(raw: Bytes, some: Bytes)
    requires raw != "" && some <= raw[FirstLine(raw)..]
    ensures SplitLines(raw[..FirstLine(raw)] + some) == [raw[..FirstLine(raw)]] + SplitLines(some)
  {
    var n := FirstLine(raw);
    var front := raw[..n + |some|];
    assert front == raw[..n] + some;
    FirstLineShape(raw, n + |some|);
    assert front[n..] == some && front[..n] == raw[..n];
  }

  /** The first lines end in a line break, unless they are all the lines. */
  lemma {:induction false} FirstLinesTerminate(raw: Bytes, k: nat)
    requires 0 < k < |SplitLines(raw)|
    ensures Terminated(Concat(SplitLines(raw)[..k]))
  {
    var n := FirstLine(raw);
    var rest := SplitLines(raw[n..]);
    FirstLineShape(raw, n);
    FirstLinesMore(raw[..n], rest, k, SplitLines(raw));
    if k == 1 {
      assert n < |raw|;
      assert raw[..n] + "" == raw[..n];
    } else {
      FirstLinesTerminate(raw[n..], k - 1);
    }
  }

  /** The first `k` lines are the lines of the text they make up. */
  lemma {:induction false} FirstLines(raw: Bytes, k: nat)
    requires k <= |SplitLines(raw)|
    ensures SplitLines(Concat(SplitLines(raw)[..k])) == SplitLines(raw)[..k]
  {
    if k > 0 {
      var n := FirstLine(raw);
      var rest := SplitLines(raw[n..]);
      FirstLines(raw[n..], k - 1);
      FirstLinesArePrefix(raw[n..], k - 1);
      FirstLinesMore(raw[..n], rest, k, SplitLines(raw));
      SplitFront(raw, Concat(rest[..k - 1]));
    }
  }

  lemma FirstLinesMore(first: Bytes, rest: seq<Bytes>, k: nat, lines: seq<Bytes>)
    requires 0 < k <= |lines| && lines == [first] + rest
    ensures lines[..k] == [first] + rest[..k - 1] && Concat(lines[..k]) == first + Concat(rest[..k - 1])
  {
    assert lines[..k][1..] == rest[..k - 1];
  }

  /** The last line, and what stands before it, which is empty or ends in a line break. */
  lemma {:induction false} LastLine(raw: Bytes)
    requires raw != ""
    ensures var lines := SplitLines(raw);
            && lines != []
            && var front, last := Concat(lines[..|lines| - 1]), lines[|lines| - 1];
               && last != "" && front + last == raw
               && (front == "" || Terminated(front))
               && SplitLines(front) == lines[..|lines| - 1]
               && (!Terminated(raw) ==> Unbroken(last))
  {
    var lines := SplitLines(raw);
    var k := |lines| - 1;
    LastIsNotEmpty(raw);
    LinesConcat(raw);
    FirstLines(raw, k);
    if k > 0 {
      FirstLinesTerminate(raw, k);
    }
    ConcatSplits(lines[..k], [lines[k]]);
    assert lines[..k] + [lines[k]] == lines;
    assert Concat([lines[k]]) == lines[k];
    if !Terminated(raw) {
      LastIsUnbroken(raw);
    }
  }

  lemma {:induction false} ConcatSplits(a: seq<Bytes>, b: seq<Bytes>)
    ensures Concat(a + b) == Concat(a) + Concat(b)
  {
    if a == [] {
      assert a + b == b;
    } else {
      assert (a + b)[1..] == a[1..] + b;
      ConcatSplits(a[1..], b);
    }
  }

  lemma {:induction false} LastIsUnbroken(raw: Bytes)
    requires raw != "" && !Terminated(raw)
    ensures Unbroken(SplitLines(raw)[|SplitLines(raw)| - 1])
  {
    var n := FirstLine(raw);
    FirstLineShape(raw, |raw|);
    if n < |raw| {
      LastIsUnbroken(raw[n..]);
    } else {
      assert raw[..n] == raw && raw[n..] == "";
      assert SplitLines(raw) == [raw];
    }
  }
}
