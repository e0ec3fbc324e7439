/** Text as the operator handles it: `%d` printing, `Sscanf("%d.%d.%d.%d")`, and splitting on a separator. */
module Text {
  datatype Option<+T> = None | Some(value: T)

  const INT64_LIMIT: int := 0x8000_0000_0000_0000

  predicate FitsInt64(v: int) {
    -INT64_LIMIT <= v < INT64_LIMIT
  }

  // ----- decimal numbers -----

  predicate IsDigit(c: char) {
    '0' <= c <= '9'
  }

  function PrintNat(n: nat): (s: string)
    ensures |s| > 0 && forall i | 0 <= i < |s| :: IsDigit(s[i])
  {
    if n < 10 then ['0' + n as char] else PrintNat(n / 10) + ['0' + (n % 10) as char]
  }

  /** What `fmt.Sprintf("%d", v)` writes. */
  function Print(v: int): string {
    if v < 0 then "-" + PrintNat(-v) else PrintNat(v)
  }

  function DigitValue(ds: string): nat
    requires forall i | 0 <= i < |ds| :: IsDigit(ds[i])
  {
    if |ds| == 0 then 0
    else
      assert IsDigit(ds[|ds| - 1]);
      10 * DigitValue(ds[..|ds| - 1]) + (ds[|ds| - 1] as int - '0' as int)
  }

  /** Length of the longest digit prefix. */
  function DigitRun(s: string): (n: nat)
    ensures n <= |s| && forall i | 0 <= i < n :: IsDigit(s[i])
    ensures n < |s| ==> !IsDigit(s[n])
  {
    if |s| > 0 && IsDigit(s[0]) then 1 + DigitRun(s[1..]) else 0
  }

  lemma {:induction false} PrintNatValue(n: nat)
    ensures DigitValue(PrintNat(n)) == n
  {
    if n >= 10 {
      PrintNatValue(n / 10);
      assert PrintNat(n)[..|PrintNat(n)| - 1] == PrintNat(n / 10);
    }
  }

  // ----- Sscanf("%d.%d.%d.%d") -----

  function SkipBlanks(s: string): (t: string)
    ensures |t| <= |s|
  {
    if |s| > 0 && (s[0] == ' ' || s[0] == '\t') then SkipBlanks(s[1..]) else s
  }

  /** One signed decimal number of 64 bits after optional blanks, with the text that follows it. */
  function ScanInt(s: string): (r: Option<(int, string)>)
    ensures r.Some? ==> |r.value.1| < |s| && FitsInt64(r.value.0)
  {
    var t := SkipBlanks(s);
    var negative := |t| > 0 && t[0] == '-';
    var u := if |t| > 0 && (t[0] == '-' || t[0] == '+') then t[1..] else t;
    var n := DigitRun(u);
    if n == 0 then None
    else
      var magnitude: int := DigitValue(u[..n]);
      var v := if negative then -magnitude else magnitude;
      if FitsInt64(v) then Some((v, u[n..])) else None
  }

  /** The numbers `Sscanf` stores for a pattern of `count` numbers with dots between them; its result is their count. */
  function ScanDotted(s: string, count: nat): (q: seq<int>)
    ensures |q| <= count && forall v | v in q :: FitsInt64(v)
    decreases |s|
  {
    if count == 0 then []
    else match ScanInt(s)
      case None => []
      case Some((v, rest)) =>
        [v] + if |rest| > 0 && rest[0] == '.' then ScanDotted(rest[1..], count - 1) else []
  }

  predicate StopsNumber(rest: string) {
    |rest| == 0 || !IsDigit(rest[0])
  }

  lemma {:induction false} DigitRunOf(ds: string, rest: string)
    requires StopsNumber(rest) && forall i | 0 <= i < |ds| :: IsDigit(ds[i])
    ensures DigitRun(ds + rest) == |ds|
  {
    if |ds| > 0 {
      assert (ds + rest)[1..] == ds[1..] + rest;
      DigitRunOf(ds[1..], rest);
    } else {
      assert ds + rest == rest;
    }
  }

  /** Scanning undoes printing, for every number the pattern can hold. */
  lemma ScanPrinted(v: int, rest: string)
    requires FitsInt64(v) && StopsNumber(rest)
    ensures ScanInt(Print(v) + rest) == Some((v, rest))
  {
    var m: nat := if v < 0 then -v else v;
    var ds := PrintNat(m);
    PrintNatValue(m);
    DigitRunOf(ds, rest);
    assert (ds + rest)[..|ds|] == ds && (ds + rest)[|ds|..] == rest;
    if v < 0 {
      assert Print(v) + rest == "-" + (ds + rest);
      ScanSigned("-" + (ds + rest), ds + rest, ds, rest, v);
    } else {
      assert IsDigit((ds + rest)[0]);
      ScanSigned(ds + rest, ds + rest, ds, rest, v);
    }
  }

  lemma ScanSigned(s: string, u: string, ds: string, rest: string, v: int)
    requires u == ds + rest && DigitRun(u) == |ds| > 0 && u[..|ds|] == ds && u[|ds|..] == rest && FitsInt64(v)
    requires forall i | 0 <= i < |ds| :: IsDigit(ds[i])
    requires if v < 0 then s == "-" + u && DigitValue(ds) == -v else s == u && DigitValue(ds) == v
    ensures ScanInt(s) == Some((v, rest))
  {
    assert v >= 0 ==> IsDigit(s[0]);
    assert v < 0 ==> s[0] == '-' && s[1..] == u;
    assert SkipBlanks(s) == s;
  }

  function PrintQuad(a: int, b: int, c: int, d: int): string {
    Print(a) + "." + Print(b) + "." + Print(c) + "." + Print(d)
  }

  lemma ScanStep(v: int, more: string, count: nat)
    requires FitsInt64(v) && count > 0
    ensures ScanDotted(Print(v) + ("." + more), count) == [v] + ScanDotted(more, count - 1)
  {
    ScanPrinted(v, "." + more);
    assert ("." + more)[1..] == more;
  }

  lemma ScanLast(v: int, rest: string, count: nat)
    requires FitsInt64(v) && StopsNumber(rest) && count == 1
    ensures ScanDotted(Print(v) + rest, count) == [v]
  {
    ScanPrinted(v, rest);
  }

  lemma ScanNested(a: int, b: int, c: int, d: int, rest: string, s1: string, s2: string, s3: string, count: nat)
    requires FitsInt64(a) && FitsInt64(b) && FitsInt64(c) && FitsInt64(d) && StopsNumber(rest) && count == 4
    requires s3 == Print(d) + rest && s2 == Print(c) + ("." + s3) && s1 == Print(b) + ("." + s2)
    ensures ScanDotted(Print(a) + ("." + s1), count) == [a] + ([b] + ([c] + [d]))
  {
    ScanStep(a, s1, count);
    ScanStep(b, s2, count - 1);
    ScanStep(c, s3, count - 2);
    ScanLast(d, rest, count - 3);
  }

  /** What `Sscanf(s, "%d.%d.%d.%d", ...)` stores. */
  function ScanQuad(s: string): (q: seq<int>)
    ensures |q| <= 4 && forall v | v in q :: FitsInt64(v)
  {
    ScanDotted(s, 4)
  }

  /** Printing a dotted quad and scanning it back is lossless, whatever non-digit text follows it. */
  lemma ScanPrintedQuad(a: int, b: int, c: int, d: int, rest: string)
    requires FitsInt64(a) && FitsInt64(b) && FitsInt64(c) && FitsInt64(d) && StopsNumber(rest)
    ensures ScanQuad(PrintQuad(a, b, c, d) + rest) == [a, b, c, d]
  {
    var s3 := Print(d) + rest;
    var s2 := Print(c) + ("." + s3);
    var s1 := Print(b) + ("." + s2);
    ScanNested(a, b, c, d, rest, s1, s2, s3, 4);
    QuadText(Print(a), Print(b), Print(c), Print(d), rest);
  }

  lemma QuadText(a: string, b: string, c: string, d: string, rest: string)
    ensures a + "." + b + "." + c + "." + d + rest == a + ("." + (b + ("." + (c + ("." + (d + rest))))))
  {
  }

  // ----- separators -----

  /** `strings.Split(s, sep)` for a one-character separator. */
  function Split(s: string, sep: char): (parts: seq<string>)
    ensures |parts| > 0
    ensures forall p | p in parts :: sep !in p
  {
    if |s| == 0 then [""]
    else
      var parts := Split(s[1..], sep);
      if s[0] == sep then [""] + parts else [[s[0]] + parts[0]] + parts[1..]
  }

  /** `strings.Join(parts, sep)`. */
  function Join(parts: seq<string>, sep: char): string
    requires |parts| > 0
  {
    if |parts| == 1 then parts[0] else parts[0] + [sep] + Join(parts[1..], sep)
  }

  lemma {:induction false} JoinSplit(s: string, sep: char)
    ensures Join(Split(s, sep), sep) == s
  {
    if |s| > 0 {
      JoinSplit(s[1..], sep);
      var parts := Split(s[1..], sep);
      if s[0] == sep {
        assert ([""] + parts)[1..] == parts;
      } else if |parts| > 1 {
        assert ([[s[0]] + parts[0]] + parts[1..])[1..] == parts[1..];
      }
    }
  }

  /** Splitting at the first separator. */
  lemma {:induction false} SplitHead(head: string, rest: string, sep: char)
    requires sep !in head
    ensures Split(head, sep) == [head]
    ensures Split(head + [sep] + rest, sep) == [head] + Split(rest, sep)
  {
    if |head| > 0 {
      SplitHead(head[1..], rest, sep);
      assert head == [head[0]] + head[1..];
      assert (head + [sep] + rest)[1..] == head[1..] + [sep] + rest;
    } else {
      assert (head + [sep] + rest)[1..] == rest;
    }
  }

  lemma {:induction false} SplitJoin(parts: seq<string>, sep: char)
    requires |parts| > 0 && forall p | p in parts :: sep !in p
    ensures Split(Join(parts, sep), sep) == parts
  {
    if |parts| == 1 {
      SplitHead(parts[0], "", sep);
    } else {
      SplitJoin(parts[1..], sep);
      SplitHead(parts[0], Join(parts[1..], sep), sep);
    }
  }
}
