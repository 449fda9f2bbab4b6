/**
 Software compliance: dotted versions compared part by part with missing parts read as zero, and
 the first inventory item that meets a compliance entry.
 */
module Versions {
  import opened Text
  import opened Filters

  // ---- The number in a version part ----

  function Digit(): char -> bool {
    (c: char) => IsDigit(c)
  }

  /** Leading whitespace is skipped, but a newline is not. */
  function SkipSpace(s: string): string {
    if s != [] && IsSpace(s[0]) && s[0] != '\n' then SkipSpace(s[1..]) else s
  }

  predicate Signed(s: string) {
    s != [] && (s[0] == '-' || s[0] == '+')
  }

  /** fmt.Sscanf(s, "%d", &n) from n = 0: a signed decimal prefix; anything else, and any number
      outside the int64 range, leaves the zero. */
  function PartValue(s: string): int {
    var t := SkipSpace(s);
    var digits := TakeWhile(Digit(), if Signed(t) then t[1..] else t);
    if digits == [] then 0
    else
      var v: int := if Signed(t) && t[0] == '-' then 0 - DigitsValue(digits) else DigitsValue(digits);
      if MIN_INT64 <= v <= MAX_INT64 then v else 0
  }

  /** The characters that may precede a number. */
  predicate Skipped(s: string) {
    forall i | 0 <= i < |s| :: IsSpace(s[i]) && s[i] != '\n'
  }

  lemma {:induction false} SkipsTo(spaces: string, t: string)
    requires Skipped(spaces) && (t == "" || !IsSpace(t[0]) || t[0] == '\n')
    ensures SkipSpace(spaces + t) == t
  {
    if spaces == "" {
      assert spaces + t == t;
    } else {
      assert (spaces + t)[1..] == spaces[1..] + t;
      SkipsTo(spaces[1..], t);
    }
  }

  /** Whatever the part, its number is read off its beginning: after spaces, a sign or none and a run
      of digits, up to the first other character; a number outside the int64 range is zero. */
  lemma PartIs(spaces: string, sign: string, digits: string, rest: string)
    requires Skipped(spaces) && (sign == "" || sign == "+" || sign == "-")
    requires digits != "" && AllDigits(digits) && (rest == "" || !('0' <= rest[0] <= '9'))
    ensures var v: int := if sign == "-" then 0 - DigitsValue(digits) else DigitsValue(digits);
            PartValue(spaces + (sign + (digits + rest))) ==
            if -0x8000_0000_0000_0000 <= v <= 0x7FFF_FFFF_FFFF_FFFF then v else 0
  {
    var t := sign + (digits + rest);
    assert IsDigit(digits[0]);
    AfterSign(sign, digits + rest);
    SkipsTo(spaces, t);
    DigitsOf(digits, rest);
    hide SkipSpace, TakeWhile, DigitsValue, IsSpace, Signed;
  }

  lemma AfterSign(sign: string, body: string)
    requires (sign == "" || sign == "+" || sign == "-") && body != "" && IsDigit(body[0])
    ensures var t := sign + body;
            && t != "" && !IsSpace(t[0])
            && (Signed(t) <==> sign != "") && (if Signed(t) then t[1..] else t) == body
            && (Signed(t) ==> (t[0] == '-' <==> sign == "-"))
  {
    var t := sign + body;
    assert sign == "" ==> t == body;
    assert sign != "" ==> t[1..] == body && t[0] == sign[0];
  }

  lemma DigitsOf(digits: string, rest: string)
    requires AllDigits(digits) && (rest == "" || !IsDigit(rest[0]))
    ensures TakeWhile(Digit(), digits + rest) == digits
  {
    TakeWhileRun(Digit(), digits, rest);
    assert TakeWhile(Digit(), rest) == [];
    assert digits + [] == digits;
  }

  /** And a part without such a number, one that starts with a letter or a newline for example, is
      zero. */
  lemma PartIsZero(spaces: string, sign: string, rest: string)
    requires Skipped(spaces) && (sign == "" || sign == "+" || sign == "-")
    requires rest == "" || !('0' <= rest[0] <= '9')
    requires sign == "" && rest != "" ==> rest[0] == '\n' || (!IsSpace(rest[0]) && rest[0] != '+' && rest[0] != '-')
    ensures PartValue(spaces + (sign + rest)) == 0
  {
    var t := sign + rest;
    SkipsTo(spaces, t);
    assert t != "" ==> t[0] == if sign == "" then rest[0] else sign[0];
    assert (if Signed(t) then t[1..] else t) == rest;
    assert TakeWhile(Digit(), rest) == [];
  }

  lemma PrintedValue(n: nat)
    requires n <= MAX_INT64
    ensures PartValue(Digits(n)) == n
  {
    var s := Digits(n);
    DigitsRoundTrip(n);
    assert IsDigit(s[0]);
    assert s + [] == s;
    TakeWhileRun(Digit(), s, []);
  }

  // ---- The order ----

  /** The i-th number of a version, zero where it has no such part. */
  function NumberAt(v: string, i: nat): int {
    var parts := Split(v, '.');
    if i < |parts| then PartValue(parts[i]) else 0
  }

  /** a comes before b: their numbers agree up to some position where a's is smaller. */
  ghost predicate Before(a: string, b: string) {
    exists i: nat :: NumberAt(a, i) < NumberAt(b, i) && AgreeUpTo(a, b, i)
  }

  ghost predicate AgreeUpTo(a: string, b: string, n: nat) {
    forall j | 0 <= j < n :: NumberAt(a, j) == NumberAt(b, j)
  }

  /** All numbers agree. */
  ghost predicate Same(a: string, b: string) {
    forall i: nat :: NumberAt(a, i) == NumberAt(b, i)
  }

  /** Exactly one of "before", "after" and "same" holds of two versions. */
  lemma Trichotomy(a: string, b: string)
    ensures Before(a, b) || Before(b, a) || Same(a, b)
    ensures !(Before(a, b) && Before(b, a)) && !(Before(a, b) && Same(a, b))
  {
    if !Same(a, b) {
      var i: nat :| NumberAt(a, i) != NumberAt(b, i);
      FirstDifference(a, b, i);
    }
  }

  lemma {:induction false} FirstDifference(a: string, b: string, i: nat)
    requires NumberAt(a, i) != NumberAt(b, i)
    ensures Before(a, b) || Before(b, a)
  {
    if j: nat :| j < i && NumberAt(a, j) != NumberAt(b, j) {
      FirstDifference(a, b, j);
    } else {
      assert AgreeUpTo(a, b, i) && AgreeUpTo(b, a, i);
    }
  }

  /** compareVersions */
  method CompareVersions(a: string, b: string) returns (r: int)
    ensures r == -1 || r == 0 || r == 1
    ensures r == -1 <==> Before(a, b)
    ensures r == 1 <==> Before(b, a)
    ensures r == 0 <==> Same(a, b)
  {
    Trichotomy(a, b);
    Trichotomy(b, a);
    var partsA, partsB := Split(a, '.'), Split(b, '.');
    var maxLen := |partsA|;
    if |partsB| > maxLen {
      maxLen := |partsB|;
    }
    for i := 0 to maxLen
      invariant AgreeUpTo(a, b, i) && AgreeUpTo(b, a, i)
    {
      var na, nb := 0, 0;
      if i < |partsA| {
        na := PartValue(partsA[i]);
      }
      if i < |partsB| {
        nb := PartValue(partsB[i]);
      }
      assert na == NumberAt(a, i) && nb == NumberAt(b, i);
      if na < nb {
        return -1;
      }
      if na > nb {
        return 1;
      }
    }
    return 0;
  }

  /** At most: not after. */
  ghost predicate AtMost(a: string, b: string) {
    Before(a, b) || Same(a, b)
  }

  lemma AgreeTrans(a: string, b: string, c: string, i: nat, j: nat)
    requires AgreeUpTo(a, b, i) && AgreeUpTo(b, c, j)
    ensures AgreeUpTo(a, c, if i <= j then i else j)
  {
  }

  lemma BeforeTransitive(a: string, b: string, c: string)
    requires Before(a, b) && Before(b, c)
    ensures Before(a, c)
  {
    var i: nat :| NumberAt(a, i) < NumberAt(b, i) && AgreeUpTo(a, b, i);
    var j: nat :| NumberAt(b, j) < NumberAt(c, j) && AgreeUpTo(b, c, j);
    AgreeTrans(a, b, c, i, j);
    var k := if i <= j then i else j;
    assert NumberAt(a, k) < NumberAt(c, k);
  }

  lemma SameReplaces(a: string, b: string, c: string)
    requires Same(a, b)
    ensures Before(a, c) <==> Before(b, c)
    ensures Before(c, a) <==> Before(c, b)
    ensures Same(a, c) <==> Same(b, c)
  {
    if Before(a, c) { ReplaceLeft(a, b, c); }
    if Before(b, c) { ReplaceLeft(b, a, c); }
    if Before(c, a) { ReplaceRight(a, b, c); }
    if Before(c, b) { ReplaceRight(b, a, c); }
  }

  lemma ReplaceLeft(a: string, b: string, c: string)
    requires Same(a, b) && Before(a, c)
    ensures Before(b, c)
  {
    var i: nat :| NumberAt(a, i) < NumberAt(c, i) && AgreeUpTo(a, c, i);
    assert NumberAt(b, i) < NumberAt(c, i) && AgreeUpTo(b, c, i);
  }

  lemma ReplaceRight(a: string, b: string, c: string)
    requires Same(a, b) && Before(c, a)
    ensures Before(c, b)
  {
    var i: nat :| NumberAt(c, i) < NumberAt(a, i) && AgreeUpTo(c, a, i);
    assert NumberAt(c, i) < NumberAt(b, i) && AgreeUpTo(c, b, i);
  }

  /** A total preorder: every two versions compare, and "at most" is transitive, strictly so where
      either step is strict. */
  lemma TotalPreorder(a: string, b: string, c: string)
    ensures AtMost(a, b) || AtMost(b, a)
    ensures AtMost(a, b) && AtMost(b, c) ==> AtMost(a, c)
    ensures AtMost(a, b) && AtMost(b, c) && (Before(a, b) || Before(b, c)) ==> Before(a, c)
    ensures Before(a, b) <==> !AtMost(b, a)
  {
    Trichotomy(a, b);
    Trichotomy(b, a);
    if AtMost(a, b) && AtMost(b, c) {
      if Same(a, b) {
        SameReplaces(a, b, c);
      } else if Same(b, c) {
        SameReplaces(b, c, a);
      } else {
        BeforeTransitive(a, b, c);
      }
    }
  }

  // ---- What the order means for written versions ----

  lemma {:induction false} SplitLast(s: string, p: string, sep: char)
    requires sep !in p
    ensures Split(s + [sep] + p, sep) == Split(s, sep) + [p]
  {
    var t := s + [sep] + p;
    if s == [] {
      assert t[1..] == p;
      SplitWhole(p, sep);
    } else {
      assert t[1..] == s[1..] + [sep] + p;
      SplitLast(s[1..], p, sep);
    }
  }

  /** Appending a part that reads as zero, such as ".0" or ".rc", changes nothing. */
  lemma TrailingZero(a: string, p: string)
    requires '.' !in p && PartValue(p) == 0
    ensures Same(a + "." + p, a)
  {
    SplitLast(a, p, '.');
  }

  lemma {:induction false} TrailingZeros(a: string, k: nat)
    ensures Same(Extended(a, k), a)
  {
    if k > 0 {
      TrailingZeros(a, k - 1);
      PrintedValue(0);
      assert Digits(0) == "0";
      TrailingZero(Extended(a, k - 1), "0");
    }
  }

  /** The version followed by k times ".0". */
  function Extended(a: string, k: nat): string {
    if k == 0 then a else Extended(a, k - 1) + "." + "0"
  }

  function Printed(xs: seq<nat>): seq<string> {
    if xs == [] then [] else [Digits(xs[0])] + Printed(xs[1..])
  }

  /** The usual way to write a version: its numbers in decimal, separated by dots. */
  function Written(xs: seq<nat>): string {
    Join(Printed(xs), '.')
  }

  lemma {:induction false} PrintedParts(xs: seq<nat>)
    ensures |Printed(xs)| == |xs|
    ensures forall i | 0 <= i < |xs| :: Printed(xs)[i] == Digits(xs[i])
  {
    if xs != [] {
      PrintedParts(xs[1..]);
    }
  }

  /** Reading a written version gives its numbers back. */
  lemma WrittenNumbers(xs: seq<nat>, i: nat)
    requires xs != [] && forall j | 0 <= j < |xs| :: xs[j] <= MAX_INT64
    ensures NumberAt(Written(xs), i) == if i < |xs| then xs[i] else 0
  {
    PrintedParts(xs);
    var parts := Printed(xs);
    forall j | 0 <= j < |parts|
      ensures '.' !in parts[j]
    {
      assert AllDigits(parts[j]);
    }
    SplitJoin(parts, '.');
    if i < |xs| {
      PrintedValue(xs[i]);
    }
  }

  // ---- The inventory ----

  datatype Entry = Entry(matchType: string, name: string, publisher: string, minVersion: string, maxVersion: string)
  datatype Software = Software(name: string, publisher: string, version: string)

  /** Lower-casing, case-insensitive equality, and case-insensitive regular expressions, which may
      not compile. */
  datatype Texts = Texts(lower: string -> string, equalFold: (string, string) -> bool,
                         compile: string -> Option<string -> bool>)
  {
    predicate ContainsFold(s: string, p: string) {
      Contains(lower(s), lower(p))
    }

    predicate NameMatches(e: Entry, name: string) {
      match e.matchType
      case "exact" => equalFold(name, e.name)
      case "regex" => compile(e.name).Some? && compile(e.name).value(name)
      case _ => ContainsFold(name, e.name)
    }
  }

  /** An unknown version is in every window. */
  ghost predicate InWindow(e: Entry, version: string) {
    version != "" ==>
      && (e.minVersion != "" ==> AtMost(e.minVersion, version))
      && (e.maxVersion != "" ==> AtMost(version, e.maxVersion))
  }

  ghost predicate Meets(t: Texts, e: Entry, sw: Software) {
    && t.NameMatches(e, sw.name)
    && (e.publisher != "" ==> t.ContainsFold(sw.publisher, e.publisher))
    && InWindow(e, sw.version)
  }

  /** What it takes to meet an entry, condition by condition. */
  lemma MeetsIs(t: Texts, e: Entry, sw: Software)
    ensures Meets(t, e, sw) <==>
              && (e.matchType == "exact" ==> t.equalFold(sw.name, e.name))
              && (e.matchType == "regex" ==> t.compile(e.name).Some? && t.compile(e.name).value(sw.name))
              && (e.matchType != "exact" && e.matchType != "regex" ==>
                    exists k :: OccursAt(t.lower(sw.name), t.lower(e.name), k))
              && (e.publisher != "" ==> exists k :: OccursAt(t.lower(sw.publisher), t.lower(e.publisher), k))
              && (e.minVersion != "" && sw.version != "" ==> !Before(sw.version, e.minVersion))
              && (e.maxVersion != "" && sw.version != "" ==> !Before(e.maxVersion, sw.version))
  {
    TotalPreorder(sw.version, e.minVersion, sw.version);
    TotalPreorder(e.maxVersion, sw.version, sw.version);
    ContainsIs(t.lower(sw.name), t.lower(e.name));
    ContainsIs(t.lower(sw.publisher), t.lower(e.publisher));
    hide Before, Same, Contains, OccursAt;
  }

  lemma ContainsIs(s: string, p: string)
    ensures Contains(s, p) <==> exists k :: OccursAt(s, p, k)
  {
    if k :| OccursAt(s, p, k) {
      OccursMeansContains(s, p, k);
    }
  }

  /** matchSoftwareEntry: the first item that meets the entry. */
  method MatchSoftwareEntry(t: Texts, e: Entry, software: seq<Software>)
    returns (matched: bool, name: string, version: string)
    ensures matched ==> exists i | 0 <= i < |software| ::
                          && Meets(t, e, software[i]) && name == software[i].name && version == software[i].version
                          && forall j | 0 <= j < i :: !Meets(t, e, software[j])
    ensures !matched ==> name == "" && version == "" && forall j | 0 <= j < |software| :: !Meets(t, e, software[j])
  {
    for i := 0 to |software|
      invariant forall j | 0 <= j < i :: !Meets(t, e, software[j])
    {
      var sw := software[i];
      var nameMatch := false;
      if e.matchType == "exact" {
        nameMatch := t.equalFold(sw.name, e.name);
      } else if e.matchType == "contains" {
        nameMatch := t.ContainsFold(sw.name, e.name);
      } else if e.matchType == "regex" {
        var re := t.compile(e.name);
        if re.None? {
          continue;
        }
        nameMatch := re.value(sw.name);
      } else {
        nameMatch := t.ContainsFold(sw.name, e.name);
      }
      if !nameMatch {
        continue;
      }
      if e.publisher != "" {
        if !t.ContainsFold(sw.publisher, e.publisher) {
          continue;
        }
      }
      if e.minVersion != "" && sw.version != "" {
        var r := CompareVersions(sw.version, e.minVersion);
        TotalPreorder(sw.version, e.minVersion, sw.version);
        if r < 0 {
          continue;
        }
      }
      if e.maxVersion != "" && sw.version != "" {
        var r := CompareVersions(sw.version, e.maxVersion);
        TotalPreorder(e.maxVersion, sw.version, sw.version);
        if r > 0 {
          continue;
        }
      }
      return true, sw.name, sw.version;
    }
    return false, "", "";
  }

  /** The window is convex: a known version between two known versions of it is in it. */
  lemma WindowIsConvex(e: Entry, u: string, v: string, w: string)
    requires u != "" && w != "" && InWindow(e, u) && InWindow(e, w)
    requires AtMost(u, v) && AtMost(v, w)
    ensures InWindow(e, v)
  {
    TotalPreorder(e.minVersion, u, v);
    TotalPreorder(v, w, e.maxVersion);
  }

  /** Once the lower bound is after the upper one, only unknown versions remain. */
  lemma EmptyWindow(e: Entry, v: string)
    requires e.minVersion != "" && e.maxVersion != ""
    ensures (exists u :: u != "" && InWindow(e, u)) <==> AtMost(e.minVersion, e.maxVersion)
    ensures !AtMost(e.minVersion, e.maxVersion) ==> (InWindow(e, v) <==> v == "")
  {
    forall u | u != "" && InWindow(e, u)
      ensures AtMost(e.minVersion, e.maxVersion)
    {
      TotalPreorder(e.minVersion, u, e.maxVersion);
    }
    assert Same(e.minVersion, e.minVersion);
    assert AtMost(e.minVersion, e.maxVersion) ==> InWindow(e, e.minVersion);
  }
}
