/**
 The string operations of Go's standard library that the agent relies on, over
 sequences of Unicode scalar values: splitting, joining, searching, the first
 whitespace-separated field, and decimal numbers.
 */
module Text {
  import opened Filters

  datatype Option<+T> = None | Some(value: T)

  const MAX_INT64: int := 0x7FFF_FFFF_FFFF_FFFF
  const MIN_INT64: int := -0x8000_0000_0000_0000

  /** Go's unicode.IsSpace. */
  predicate IsSpace(c: char) {
    || '\t' <= c <= '\r'
    || c == ' ' || c == '\U{0085}' || c == '\U{00A0}' || c == '\U{1680}'
    || '\U{2000}' <= c <= '\U{200A}'
    || c == '\U{2028}' || c == '\U{2029}' || c == '\U{202F}' || c == '\U{205F}' || c == '\U{3000}'
  }

  predicate NoSpaces(s: string) {
    forall i | 0 <= i < |s| :: !IsSpace(s[i])
  }

  /** strings.TrimSpace(s) == "". */
  predicate IsBlank(s: string) {
    forall i | 0 <= i < |s| :: IsSpace(s[i])
  }

  // ---- Split and Join ----

  function Split(s: string, sep: char): (parts: seq<string>)
    ensures |parts| >= 1
    ensures forall i | 0 <= i < |parts| :: sep !in parts[i]
  {
    if s == [] then [""]
    else
      var rest := Split(s[1..], sep);
      if s[0] == sep then [""] + rest
      else [[s[0]] + rest[0]] + rest[1..]
  }

  function Join(parts: seq<string>, sep: char): string {
    if |parts| == 0 then ""
    else if |parts| == 1 then parts[0]
    else parts[0] + [sep] + Join(parts[1..], sep)
  }

  /** Splitting a text made of one separator-free part, a separator and a tail peels off that part. */
  lemma {:induction false} SplitHead(p: string, tail: string, sep: char)
    requires sep !in p
    ensures Split(p + [sep] + tail, sep) == [p] + Split(tail, sep)
  {
    var s := p + [sep] + tail;
    if p == [] {
      assert s[1..] == tail;
    } else {
      assert s[1..] == p[1..] + [sep] + tail;
      SplitHead(p[1..], tail, sep);
      assert [s[0]] + p[1..] == p;
    }
  }

  lemma {:induction false} SplitWhole(p: string, sep: char)
    requires sep !in p
    ensures Split(p, sep) == [p]
  {
    if p != [] {
      SplitWhole(p[1..], sep);
      assert [p[0]] + p[1..] == p;
    }
  }

  /** Split undoes Join on every non-empty list of separator-free parts. */
  lemma {:induction false} SplitJoin(parts: seq<string>, sep: char)
    requires |parts| >= 1
    requires forall i | 0 <= i < |parts| :: sep !in parts[i]
    ensures Split(Join(parts, sep), sep) == parts
  {
    if |parts| == 1 {
      SplitWhole(parts[0], sep);
    } else {
      SplitJoin(parts[1..], sep);
      SplitHead(parts[0], Join(parts[1..], sep), sep);
      assert [parts[0]] + parts[1..] == parts;
    }
  }

  /** Join undoes Split on every text. */
  lemma {:induction false} JoinSplit(s: string, sep: char)
    ensures Join(Split(s, sep), sep) == s
  {
    if s != [] {
      var rest := Split(s[1..], sep);
      JoinSplit(s[1..], sep);
      var parts := Split(s, sep);
      if s[0] == sep {
        assert parts[1..] == rest;
      } else {
        assert parts[1..] == rest[1..];
      }
    }
  }

  // ---- Searching ----

  predicate OccursAt(s: string, p: string, k: int) {
    0 <= k && k + |p| <= |s| && s[k..k + |p|] == p
  }

  function IndexFrom(s: string, p: string, i: nat): (r: int)
    ensures r >= 0 ==> r >= i && OccursAt(s, p, r)
    ensures forall k | i <= k && (r < 0 || k < r) :: !OccursAt(s, p, k)
    decreases |s| - i
  {
    if i + |p| > |s| then -1
    else if OccursAt(s, p, i) then i
    else IndexFrom(s, p, i + 1)
  }

  /** strings.Index: the first occurrence, or -1. */
  function Index(s: string, p: string): (r: int)
    ensures r >= 0 ==> OccursAt(s, p, r)
    ensures forall k | 0 <= k && (r < 0 || k < r) :: !OccursAt(s, p, k)
  {
    IndexFrom(s, p, 0)
  }

  predicate Contains(s: string, p: string) {
    Index(s, p) >= 0
  }

  lemma OccursMeansContains(s: string, p: string, k: int)
    requires OccursAt(s, p, k)
    ensures Contains(s, p)
  {
  }

  /** A text in which a pattern occurs has all the pattern's characters. */
  lemma OccurrenceChars(s: string, p: string, k: int)
    requires OccursAt(s, p, k)
    ensures forall c | c in p :: c in s
  {
    forall i | 0 <= i < |p|
      ensures p[i] in s
    {
      assert s[k..k + |p|][i] == s[k + i];
    }
  }

  lemma LacksChar(s: string, p: string, c: char)
    requires c in p && c !in s
    ensures forall k :: !OccursAt(s, p, k)
  {
    forall k
      ensures OccursAt(s, p, k) ==> c in s
    {
      if OccursAt(s, p, k) {
        OccurrenceChars(s, p, k);
      }
    }
  }

  /** A pattern without `c` never straddles a `c`. */
  lemma NoStraddle(a: string, c: char, b: string, p: string, k: int)
    requires p != [] && c !in p
    ensures OccursAt(a + [c] + b, p, k) <==> OccursAt(a, p, k) || OccursAt(b, p, k - |a| - 1)
  {
    var s := a + [c] + b;
    if OccursAt(s, p, k) {
      assert forall i | k <= i < k + |p| :: s[i] == s[k..k + |p|][i - k];
      assert s[|a|] == c;
      if k + |p| <= |a| {
        assert s[k..k + |p|] == a[k..k + |p|];
      } else if |a| < k {
        var j := k - |a| - 1;
        assert s[k..k + |p|] == b[j..j + |p|];
      } else {
        assert false;
      }
    }
    if OccursAt(a, p, k) {
      assert s[k..k + |p|] == a[k..k + |p|];
    }
    if OccursAt(b, p, k - |a| - 1) {
      var j := k - |a| - 1;
      assert s[k..k + |p|] == b[j..j + |p|];
    }
  }

  /** strings.SplitN(s, c, 2): what precedes and what follows the first `c`. */
  function Cut(s: string, c: char): (r: Option<(string, string)>)
    ensures r.None? ==> c !in s
    ensures r.Some? ==> c !in r.value.0 && s == r.value.0 + [c] + r.value.1
  {
    if s == [] then None
    else if s[0] == c then Some(("", s[1..]))
    else match Cut(s[1..], c)
      case None => None
      case Some((a, b)) => Some(([s[0]] + a, b))
  }

  lemma {:induction false} CutAt(a: string, c: char, b: string)
    requires c !in a
    ensures Cut(a + [c] + b, c) == Some((a, b))
  {
    var s := a + [c] + b;
    if a == [] {
      assert s[1..] == b;
    } else {
      assert s[1..] == a[1..] + [c] + b;
      CutAt(a[1..], c, b);
      assert [a[0]] + a[1..] == a;
    }
  }

  // ---- Fields ----

  function NotSpace(): char -> bool {
    (c: char) => !IsSpace(c)
  }

  function TakeField(s: string): (f: string)
    ensures NoSpaces(f)
    ensures |f| <= |s| && s[..|f|] == f
    ensures |f| < |s| ==> IsSpace(s[|f|])
  {
    TakeWhile(NotSpace(), s)
  }

  /** strings.Fields(s)[0], if there is a field at all. */
  function FirstField(s: string): Option<string> {
    if s == [] then None
    else if IsSpace(s[0]) then FirstField(s[1..])
    else Some(TakeField(s))
  }

  /** A run of non-spaces is a prefix of the field it starts. */
  lemma TakeFieldRun(a: string, b: string)
    requires NoSpaces(a)
    ensures TakeField(a + b) == a + TakeField(b)
  {
    TakeWhileRun(NotSpace(), a, b);
  }

  // ---- Decimal numbers ----

  predicate IsDigit(c: char) { '0' <= c <= '9' }

  predicate AllDigits(s: string) {
    forall i | 0 <= i < |s| :: IsDigit(s[i])
  }

  function DigitChar(d: nat): (c: char)
    requires d < 10
    ensures IsDigit(c) && c as int - '0' as int == d
  {
    ('0' as int + d) as char
  }

  function Digits(n: nat): (s: string)
    ensures |s| >= 1 && AllDigits(s)
  {
    if n < 10 then [DigitChar(n)] else Digits(n / 10) + [DigitChar(n % 10)]
  }

  function DigitsValue(s: string): nat
    requires AllDigits(s)
  {
    if s == [] then 0
    else DigitsValue(s[..|s| - 1]) * 10 + (s[|s| - 1] as int - '0' as int)
  }

  lemma {:induction false} DigitsRoundTrip(n: nat)
    ensures DigitsValue(Digits(n)) == n
  {
    var s := Digits(n);
    if n < 10 {
      assert s[..0] == "";
    } else {
      DigitsRoundTrip(n / 10);
      assert s[..|s| - 1] == Digits(n / 10);
    }
  }

  /** strconv.ParseInt(s, 10, 64): an optional sign, digits, and the int64 range. */
  function ParseInt64(s: string): (r: Option<int>)
    ensures r.Some? ==> MIN_INT64 <= r.value <= MAX_INT64
  {
    var signed := s != [] && (s[0] == '-' || s[0] == '+');
    var digits := if signed then s[1..] else s;
    if digits == [] || !AllDigits(digits) then None
    else
      var v: int := if signed && s[0] == '-' then 0 - DigitsValue(digits) else DigitsValue(digits);
      if MIN_INT64 <= v <= MAX_INT64 then Some(v) else None
  }

  lemma ParsePrinted(n: nat)
    requires n <= MAX_INT64
    ensures ParseInt64(Digits(n)) == Some(n)
  {
    DigitsRoundTrip(n);
    assert IsDigit(Digits(n)[0]);
  }
}
