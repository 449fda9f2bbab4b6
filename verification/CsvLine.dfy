/** Splitting a CSV line with double-quote escaping (section 2 of RFC 4180). */
module CsvLine {
  import opened Text

  const QUOTE: char := '"'

  /** The fields of the rest of a line, given the field built so far and whether a quote is open. */
  function Fields(s: string, field: string, inQuote: bool): (fs: seq<string>)
    ensures |fs| >= 1
    decreases |s|
  {
    if s == [] then [field]
    else if s[0] == QUOTE then
      if inQuote && |s| > 1 && s[1] == QUOTE then Fields(s[2..], field + [QUOTE], inQuote)
      else Fields(s[1..], field, !inQuote)
    else if s[0] == ',' && !inQuote then [field] + Fields(s[1..], "", inQuote)
    else Fields(s[1..], field + [s[0]], inQuote)
  }

  /** parseCSVLine */
  method ParseCsvLine(line: string) returns (fields: seq<string>)
    ensures fields == Fields(line, "", false)
  {
    fields := [];
    var field, inQuote, i := "", false, 0;
    while i < |line|
      invariant 0 <= i <= |line|
      invariant fields + Fields(line[i..], field, inQuote) == Fields(line, "", false)
    {
      var c := line[i];
      ghost var s := line[i..];
      assert s[1..] == line[i + 1..];
      if c == QUOTE {
        if inQuote && i + 1 < |line| && line[i + 1] == QUOTE {
          assert s[2..] == line[i + 2..];
          field := field + [QUOTE];
          i := i + 1;
        } else {
          inQuote := !inQuote;
        }
      } else if c == ',' && !inQuote {
        fields := fields + [field];
        field := "";
      } else {
        field := field + [c];
      }
      i := i + 1;
    }
    fields := fields + [field];
  }

  // ---- Quoting ----

  /** Inner quotes doubled. */
  function Doubled(t: string): string {
    if t == [] then [] else (if t[0] == QUOTE then [QUOTE, QUOTE] else [t[0]]) + Doubled(t[1..])
  }

  datatype Field = Quoted(text: string) | Raw(text: string)

  /** A raw field may hold neither a comma nor a quote. */
  predicate Clean(t: string) {
    ',' !in t && QUOTE !in t
  }

  function Encoded(f: Field): string {
    if f.Quoted? then [QUOTE] + Doubled(f.text) + [QUOTE] else f.text
  }

  function EncodedAll(fs: seq<Field>): seq<string> {
    if fs == [] then [] else [Encoded(fs[0])] + EncodedAll(fs[1..])
  }

  function Texts(fs: seq<Field>): seq<string> {
    if fs == [] then [] else [fs[0].text] + Texts(fs[1..])
  }

  lemma {:induction false} InsideQuotes(t: string, rest: string, field: string)
    requires rest == [] || rest[0] != QUOTE
    ensures Fields(Doubled(t) + [QUOTE] + rest, field, true) == Fields(rest, field + t, false)
    decreases |t|
  {
    var s := Doubled(t) + [QUOTE] + rest;
    if t == [] {
      assert s[1..] == rest && field + t == field;
    } else {
      var tail := Doubled(t[1..]) + [QUOTE] + rest;
      assert s == (if t[0] == QUOTE then [QUOTE, QUOTE] else [t[0]]) + tail;
      assert if t[0] == QUOTE then s[2..] == tail else s[1..] == tail;
      InsideQuotes(t[1..], rest, field + [t[0]]);
      assert field + [t[0]] + t[1..] == field + t;
    }
  }

  lemma {:induction false} OutsideQuotes(t: string, rest: string, field: string)
    requires Clean(t)
    ensures Fields(t + rest, field, false) == Fields(rest, field + t, false)
    decreases |t|
  {
    if t == [] {
      assert t + rest == rest && field + t == field;
    } else {
      assert t[0] in t;
      assert (t + rest)[1..] == t[1..] + rest;
      OutsideQuotes(t[1..], rest, field + [t[0]]);
      assert field + [t[0]] + t[1..] == field + t;
    }
  }

  lemma OpenQuote(s: string, field: string)
    ensures Fields([QUOTE] + s, field, false) == Fields(s, field, true)
  {
    assert ([QUOTE] + s)[1..] == s;
  }

  lemma OneField(f: Field, rest: string)
    requires f.Raw? ==> Clean(f.text)
    requires rest == [] || rest[0] == ','
    ensures Fields(Encoded(f) + rest, "", false) == Fields(rest, f.text, false)
  {
    hide Fields, Doubled;
    if f.Quoted? {
      var inside := Doubled(f.text) + [QUOTE] + rest;
      assert Encoded(f) + rest == [QUOTE] + inside;
      OpenQuote(inside, "");
      InsideQuotes(f.text, rest, "");
      assert "" + f.text == f.text;
    } else {
      OutsideQuotes(f.text, rest, "");
      assert "" + f.text == f.text;
    }
  }

  /** Parsing undoes writing, whichever fields are quoted. */
  lemma {:induction false} WriteThenParse(fs: seq<Field>)
    requires fs != [] && forall i | 0 <= i < |fs| :: fs[i].Raw? ==> Clean(fs[i].text)
    ensures Fields(Join(EncodedAll(fs), ','), "", false) == Texts(fs)
  {
    var first := Encoded(fs[0]);
    if |fs| == 1 {
      assert first + "" == first;
      OneField(fs[0], "");
    } else {
      var rest := [','] + Join(EncodedAll(fs[1..]), ',');
      assert EncodedAll(fs)[1..] == EncodedAll(fs[1..]);
      assert Join(EncodedAll(fs), ',') == first + rest;
      OneField(fs[0], rest);
      assert rest[1..] == Join(EncodedAll(fs[1..]), ',');
      WriteThenParse(fs[1..]);
    }
  }

  // ---- Exactly when fields survive without quoting ----

  /** Every quote costs the fields a character. */
  lemma {:induction false} QuotesCost(s: string, field: string, inQuote: bool)
    ensures |Join(Fields(s, field, inQuote), ',')| <= |field| + |s|
    ensures QUOTE in s ==> |Join(Fields(s, field, inQuote), ',')| < |field| + |s|
    decreases |s|
  {
    if s != [] {
      assert s == [s[0]] + s[1..];
      if s[0] == QUOTE {
        if inQuote && |s| > 1 && s[1] == QUOTE {
          QuotesCost(s[2..], field + [QUOTE], inQuote);
        } else {
          QuotesCost(s[1..], field, !inQuote);
        }
      } else if s[0] == ',' && !inQuote {
        QuotesCost(s[1..], "", inQuote);
        var rest := Fields(s[1..], "", inQuote);
        assert ([field] + rest)[1..] == rest;
      } else {
        QuotesCost(s[1..], field + [s[0]], inQuote);
      }
    }
  }

  /** Without quotes the parser is a split at commas. */
  lemma {:induction false} NoQuotes(s: string, field: string)
    requires QUOTE !in s
    ensures Fields(s, field, false) == [field + Split(s, ',')[0]] + Split(s, ',')[1..]
    decreases |s|
  {
    if s == [] {
      assert field + "" == field;
    } else {
      assert s[0] in s;
      var rest := Split(s[1..], ',');
      if s[0] == ',' {
        NoQuotes(s[1..], "");
        assert "" + rest[0] == rest[0];
        assert [rest[0]] + rest[1..] == rest;
        assert field + "" == field;
        assert ([""] + rest)[1..] == rest;
      } else {
        NoQuotes(s[1..], field + [s[0]]);
        assert field + [s[0]] + rest[0] == field + ([s[0]] + rest[0]);
      }
    }
  }

  lemma {:induction false} InJoin(fs: seq<string>, i: nat, c: char)
    requires i < |fs| && c in fs[i]
    ensures c in Join(fs, ',')
  {
    if |fs| > 1 && i > 0 {
      InJoin(fs[1..], i - 1, c);
    }
  }

  /** Fields written without quotes come back as they were exactly when none holds a comma or a
      quote. */
  lemma RawFieldsSurvive(fs: seq<string>)
    requires fs != []
    ensures Fields(Join(fs, ','), "", false) == fs <==> forall i | 0 <= i < |fs| :: Clean(fs[i])
  {
    var line := Join(fs, ',');
    if Fields(line, "", false) == fs {
      QuotesCost(line, "", false);
      assert QUOTE !in line;
      NoQuotes(line, "");
      assert "" + Split(line, ',')[0] == Split(line, ',')[0];
      assert fs == Split(line, ',');
      forall i | 0 <= i < |fs|
        ensures Clean(fs[i])
      {
        if QUOTE in fs[i] {
          InJoin(fs, i, QUOTE);
        }
      }
    }
    if forall i | 0 <= i < |fs| :: Clean(fs[i]) {
      JoinLacks(fs, QUOTE);
      NoQuotes(line, "");
      SplitJoin(fs, ',');
      assert "" + fs[0] == fs[0] && [fs[0]] + fs[1..] == fs;
    }
  }

  lemma {:induction false} JoinLacks(fs: seq<string>, c: char)
    requires c != ',' && forall i | 0 <= i < |fs| :: c !in fs[i]
    ensures c !in Join(fs, ',')
  {
    if |fs| > 1 {
      JoinLacks(fs[1..], c);
    }
  }
}
