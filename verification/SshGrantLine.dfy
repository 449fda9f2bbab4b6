/**
 The authorized_keys line of a one-time SSH jump grant: how the agent prints it
 and how it later recognises it among the other lines of a key file.
 */
module SshGrantLine {
  import opened Text

  const MARKER: string := "obliance-grant:"
  const FROM: string := "from=\"127.0.0.1,::1"
  const RESTRICTIONS: string := ",no-agent-forwarding,no-X11-forwarding"
  const EXPIRY_OPTION: string := ",expiry-time=\""

  /** What a grant command puts on a line. `host` is the non-loopback address the
      local sshd answered on, if it did; `stamp` is the expiry-time option's value,
      on an sshd that supports the option. */
  datatype Grant = Grant(id: string, expiry: int, keyType: string, keyB64: string,
                         host: Option<string>, stamp: Option<string>)

  predicate IsHexOrDash(c: char) {
    '0' <= c <= '9' || 'a' <= c <= 'f' || 'A' <= c <= 'F' || c == '-'
  }

  predicate ValidId(id: string) {
    8 <= |id| <= 64 && forall i | 0 <= i < |id| :: IsHexOrDash(id[i])
  }

  predicate IsBase64Char(c: char) {
    'A' <= c <= 'Z' || 'a' <= c <= 'z' || '0' <= c <= '9' || c == '+' || c == '/'
  }

  predicate Base64Body(s: string) {
    s != [] && forall i | 0 <= i < |s| :: IsBase64Char(s[i])
  }

  /** One or more base64 characters, then at most two '='. */
  predicate ValidBase64(s: string) {
    var n := |s|;
    || Base64Body(s)
    || (n >= 1 && s[n - 1] == '=' && Base64Body(s[..n - 1]))
    || (n >= 2 && s[n - 1] == '=' && s[n - 2] == '=' && Base64Body(s[..n - 2]))
  }

  predicate ValidKeyType(t: string) {
    || t == "ssh-ed25519" || t == "ssh-rsa"
    || t == "ecdsa-sha2-nistp256" || t == "ecdsa-sha2-nistp384" || t == "ecdsa-sha2-nistp521"
  }

  /** What the grant command has checked, or taken from whitespace-separated
      configuration fields, by the time it prints a line. */
  predicate Valid(g: Grant) {
    && ValidId(g.id) && 0 < g.expiry <= MAX_INT64
    && ValidKeyType(g.keyType) && ValidBase64(g.keyB64)
    && (g.host.Some? ==> NoSpaces(g.host.value))
    && (g.stamp.Some? ==> AllDigits(g.stamp.value))
  }

  /** The host a caller must not use: one that itself contains the marker. */
  predicate HostHidesMarker(g: Grant) {
    g.host.Some? && Contains(g.host.value, MARKER)
  }

  function HostPart(g: Grant): string {
    if g.host.Some? then "," + g.host.value else ""
  }

  function StampPart(g: Grant): string {
    if g.stamp.Some? then EXPIRY_OPTION + g.stamp.value + "\"" else ""
  }

  /** Everything between the closing quote of the from option and the marker. */
  function AfterFrom(g: Grant): string {
    RESTRICTIONS + StampPart(g) + " " + g.keyType + " " + g.keyB64
  }

  function Tag(g: Grant): string
    requires g.expiry >= 0
  {
    g.id + ":" + Digits(g.expiry)
  }

  function Entry(g: Grant): string
    requires g.expiry >= 0
  {
    FROM + HostPart(g) + "\"" + AfterFrom(g) + " " + MARKER + Tag(g)
  }

  /** The text of a line, piece by piece. */
  lemma EntryText(g: Grant)
    requires g.expiry >= 0
    ensures Entry(g) ==
              "from=\"127.0.0.1,::1" + (if g.host.Some? then "," + g.host.value else "")
              + "\",no-agent-forwarding,no-X11-forwarding"
              + (if g.stamp.Some? then ",expiry-time=\"" + g.stamp.value + "\"" else "")
              + " " + g.keyType + " " + g.keyB64 + " obliance-grant:" + g.id + ":" + Digits(g.expiry)
  {
    assert "\"" + RESTRICTIONS == "\",no-agent-forwarding,no-X11-forwarding";
    assert " " + MARKER == " obliance-grant:";
    var x, stamp, digits := FROM + HostPart(g), StampPart(g), Digits(g.expiry);
    hide Digits, FROM;
    Regroup(x, "\"", RESTRICTIONS, stamp, " ", g.keyType, g.keyB64, MARKER, g.id, ":", digits);
  }

  lemma Regroup(x: string, q: string, r: string, s: string, b: string, t: string, k: string, m: string,
                i: string, c: string, d: string)
    ensures x + q + (r + s + b + t + b + k) + b + m + (i + c + d) ==
            x + (q + r) + s + b + t + b + k + (b + m) + i + c + d
  {
    Push(x + q, r + s + b + t + b, k);
    Push(x + q, r + s + b + t, b);
    Push(x + q, r + s + b, t);
    Push(x + q, r + s, b);
    Push(x + q, r, s);
    Push(x, q, r);
    var y := x + (q + r) + s + b + t + b + k;
    Push(y, b, m);
    Push(y + (b + m), i + c, d);
    Push(y + (b + m), i, c);
  }

  lemma Push(a: string, b: string, c: string)
    ensures a + (b + c) == a + b + c
  {
  }

  /** grantExpiry: the grant id and expiry a line carries; a negative expiry means
      the line is not one of the agent's. */
  function GrantExpiry(line: string): (string, int) {
    TagAfter(line, MARKER)
  }

  function TagAfter(line: string, marker: string): (string, int) {
    var i := Index(line, marker);
    if i < 0 then ("", -1)
    else match FirstField(line[i + |marker|..])
      case None => ("", -1)
      case Some(field) =>
        match Cut(field, ':')
        case None => (field, 0)
        case Some((id, rest)) =>
          match ParseInt64(rest)
          case None => (id, 0)
          case Some(e) => (id, e)
  }

  /** A note after the marker that is no grant's tag: malformed, so expired. */
  lemma MalformedTag(x: string, marker: string, word: string)
    requires word != [] && NoSpaces(word) && ':' !in word
    requires forall k | k < |x| :: !OccursAt(x + (marker + word), marker, k)
    ensures TagAfter(x + (marker + word), marker) == (word, 0)
  {
    MarkerAfter(x, marker, word);
    TakeFieldRun(word, []);
    assert word + [] == word && TakeField([]) == [];
    hide Index, OccursAt, TakeField;
    assert FirstField(word) == Some(word);
  }

  // ---- Facts about a marked line, whatever its marker and options are ----

  /** What makes a marker findable: it is not blank, has no space, comma or quote, and has a
      colon that the text after the from option lacks and a character the from option lacks. */
  predicate Findable(marker: string, from: string, c: string) {
    && marker != [] && ' ' !in marker && '"' !in marker && ',' !in marker
    && ':' in marker && ':' !in c
    && LacksSome(from, marker)
  }

  predicate LacksSome(s: string, p: string) {
    exists i | 0 <= i < |p| :: p[i] !in s
  }

  function Line(from: string, host: string, c: string, marker: string, tag: string): string {
    from + host + ['"'] + c + [' '] + (marker + tag)
  }

  /** With no host, no marker precedes the line's own one. */
  lemma NoEarlierMarker(from: string, c: string, marker: string, tag: string, k: int)
    requires Findable(marker, from, c)
    requires k < |from + ['"'] + c| + 1
    ensures !OccursAt(Line(from, "", c, marker, tag), marker, k)
  {
    var x := from + ['"'] + c;
    assert Line(from, "", c, marker, tag) == x + [' '] + (marker + tag);
    NoStraddle(x, ' ', marker + tag, marker, k);
    NoStraddle(from, '"', c, marker, k);
    LacksChar(c, marker, ':');
    var i :| 0 <= i < |marker| && marker[i] !in from;
    LacksChar(from, marker, marker[i]);
  }

  /** With a host, the marker precedes its own place exactly where it occurs in the host. */
  lemma EarlierMarkers(from: string, h: string, c: string, marker: string, tag: string, k: int)
    requires Findable(marker, from, c)
    requires k < |from + ([','] + h) + ['"'] + c| + 1
    ensures OccursAt(Line(from, [','] + h, c, marker, tag), marker, k) <==> OccursAt(h, marker, k - |from| - 1)
  {
    var left := from + [','] + h;
    var x := left + ['"'] + c;
    assert Line(from, [','] + h, c, marker, tag) == x + [' '] + (marker + tag);
    NoStraddle(x, ' ', marker + tag, marker, k);
    NoStraddle(left, '"', c, marker, k);
    NoStraddle(from, ',', h, marker, k);
    LacksChar(c, marker, ':');
    var i :| 0 <= i < |marker| && marker[i] !in from;
    LacksChar(from, marker, marker[i]);
  }

  lemma TagReadsBack(id: string, n: nat)
    requires id != [] && NoSpaces(id) && ':' !in id && n <= MAX_INT64
    ensures FirstField(id + [':'] + Digits(n)) == Some(id + [':'] + Digits(n))
    ensures Cut(id + [':'] + Digits(n), ':') == Some((id, Digits(n)))
    ensures ParseInt64(Digits(n)) == Some(n)
  {
    var d := Digits(n);
    var tag := id + [':'] + d;
    assert forall j | 0 <= j < |d| :: IsDigit(d[j]) && !IsSpace(d[j]);
    assert NoSpaces(tag);
    TakeFieldRun(tag, "");
    assert tag + "" == tag;
    CutAt(id, ':', d);
    ParsePrinted(n);
  }

  /** Where the first marker is the line's own, the tag is read back. */
  lemma ReadsOwnTag(x: string, marker: string, id: string, n: nat)
    requires id != [] && NoSpaces(id) && ':' !in id && n <= MAX_INT64
    requires forall k | k < |x| :: !OccursAt(x + (marker + (id + [':'] + Digits(n))), marker, k)
    ensures TagAfter(x + (marker + (id + [':'] + Digits(n))), marker) == (id, n)
  {
    hide Index, FirstField, Cut, ParseInt64, Digits, OccursAt;
    var tag := id + [':'] + Digits(n);
    MarkerAfter(x, marker, tag);
    TagReadsBack(id, n);
  }

  lemma MarkerAfter(x: string, marker: string, tag: string)
    requires forall k | k < |x| :: !OccursAt(x + (marker + tag), marker, k)
    ensures var line := x + (marker + tag); Index(line, marker) == |x| && line[|x| + |marker|..] == tag
  {
    var line := x + (marker + tag);
    assert line[|x|..|x| + |marker|] == marker;
    assert OccursAt(line, marker, |x|);
  }

  predicate NoExpiry(field: string) {
    match Cut(field, ':')
    case None => true
    case Some((_, rest)) => ParseInt64(rest).None?
  }

  lemma ReadsExpired(line: string, marker: string, i: int, field: string)
    requires i == Index(line, marker) >= 0
    requires FirstField(line[i + |marker|..]) == Some(field) && NoExpiry(field)
    ensures TagAfter(line, marker).1 == 0
  {
  }

  /** A field with a quote and no colon after it never yields an expiry. */
  lemma QuotedFieldHasNoExpiry(u: string, v: string)
    requires ':' !in v
    ensures NoExpiry(u + ['"'] + v)
  {
    var f := u + ['"'] + v;
    match Cut(f, ':')
    case None =>
    case Some((a, rest)) =>
      assert f[|a|] == ':';
      assert |a| < |u|;
      var q := |u| - |a| - 1;
      assert rest[q] == f[|u|] == '"';
      var digits := if rest[0] == '-' || rest[0] == '+' then rest[1..] else rest;
      assert rest[0] == '-' || rest[0] == '+' ==> q > 0 && digits[q - 1] == '"';
      assert !AllDigits(digits);
  }

  /** The first field of text made of spaceless `u`, a quote, colon-free `c` and a space. */
  lemma QuotedField(u: string, c: string, w: string) returns (v: string)
    requires NoSpaces(u) && ':' !in c
    ensures ':' !in v
    ensures FirstField(u + ['"'] + (c + [' '] + w)) == Some(u + ['"'] + v)
  {
    var t := c + [' '] + w;
    v := TakeField(t);
    assert t[|c|] == ' ' && IsSpace(t[|c|]);
    assert v == t[..|v|] == c[..|v|];
    assert NoSpaces(u + ['"']);
    TakeFieldRun(u + ['"'], t);
    assert !IsSpace((u + ['"'] + t)[0]);
  }

  /** A host that contains the marker makes the line read as an expired one. */
  lemma HiddenMarker(from: string, h: string, c: string, marker: string, tag: string)
    requires Findable(marker, from, c) && NoSpaces(h) && Contains(h, marker)
    ensures TagAfter(Line(from, [','] + h, c, marker, tag), marker).1 == 0
  {
    var line := Line(from, [','] + h, c, marker, tag);
    var i := FirstIsInHost(from, h, c, marker, tag);
    var u := HostRemainder(from, h, c, marker, tag, i - |from| - 1);
    QuotedRemainder(line, marker, i, u, c, marker + tag);
  }

  lemma QuotedRemainder(line: string, marker: string, i: int, u: string, c: string, w: string)
    requires i == Index(line, marker) >= 0 && NoSpaces(u) && ':' !in c
    requires line[i + |marker|..] == u + ['"'] + (c + [' '] + w)
    ensures TagAfter(line, marker).1 == 0
  {
    var v := QuotedField(u, c, w);
    QuotedFieldHasNoExpiry(u, v);
    ReadsExpired(line, marker, i, u + ['"'] + v);
  }

  lemma FirstIsInHost(from: string, h: string, c: string, marker: string, tag: string) returns (i: int)
    requires Findable(marker, from, c) && Contains(h, marker)
    ensures i == Index(Line(from, [','] + h, c, marker, tag), marker) >= 0
    ensures OccursAt(h, marker, i - |from| - 1)
  {
    var j := Index(h, marker);
    EarlierMarkers(from, h, c, marker, tag, |from| + 1 + j);
    i := Index(Line(from, [','] + h, c, marker, tag), marker);
    EarlierMarkers(from, h, c, marker, tag, i);
  }

  lemma HostRemainder(from: string, h: string, c: string, marker: string, tag: string, d: int) returns (u: string)
    requires OccursAt(h, marker, d) && NoSpaces(h)
    ensures NoSpaces(u)
    ensures var end := |from| + 1 + d + |marker|;
            var line := Line(from, [','] + h, c, marker, tag);
            end <= |line| && line[end..] == u + ['"'] + (c + [' '] + (marker + tag))
  {
    var n := d + |marker|;
    u := h[n..];
    var w := c + [' '] + (marker + tag);
    var line := Line(from, [','] + h, c, marker, tag);
    assert line == (from + [','] + h[..n]) + (u + ['"'] + w) by {
      assert h == h[..n] + u;
    }
  }

  // ---- The agent's own lines ----

  lemma MarkerPieces()
    ensures MARKER != [] && ' ' !in MARKER && '"' !in MARKER && ',' !in MARKER && '\n' !in MARKER
    ensures ':' in MARKER && |MARKER| > 1 && MARKER[1] == 'b'
  {
    assert MARKER[14] == ':';
  }

  lemma FromPieces()
    ensures 'b' !in FROM && '\n' !in FROM && |FROM| > 0 && !IsSpace(FROM[0])
  {
    assert FROM[0] == 'f';
  }

  lemma RestrictionPieces()
    ensures ':' !in RESTRICTIONS && '\n' !in RESTRICTIONS
  {
  }

  lemma EcdsaPieces()
    ensures ':' !in "ecdsa-sha2-nistp" && '\n' !in "ecdsa-sha2-nistp"
  {
  }

  lemma KeyTypePieces(t: string)
    requires ValidKeyType(t)
    ensures ':' !in t && '\n' !in t
  {
    EcdsaPieces();
    var p := "ecdsa-sha2-nistp";
    assert t == "ssh-ed25519" || t == "ssh-rsa" || t == p + "256" || t == p + "384" || t == p + "521";
  }

  lemma Base64Pieces(s: string)
    requires ValidBase64(s)
    ensures ':' !in s && '\n' !in s
  {
    forall i | 0 <= i < |s|
      ensures IsBase64Char(s[i]) || s[i] == '='
    {
    }
  }

  lemma StampPieces(g: Grant)
    requires Valid(g)
    ensures ':' !in StampPart(g) && '\n' !in StampPart(g)
  {
    assert ':' !in EXPIRY_OPTION && '\n' !in EXPIRY_OPTION;
  }

  lemma Pieces(g: Grant)
    requires Valid(g)
    ensures Findable(MARKER, FROM, AfterFrom(g))
    ensures g.id != [] && NoSpaces(g.id) && ':' !in g.id
    ensures Entry(g) == Line(FROM, HostPart(g), AfterFrom(g), MARKER, Tag(g))
  {
    MarkerPieces();
    FromPieces();
    RestrictionPieces();
    KeyTypePieces(g.keyType);
    Base64Pieces(g.keyB64);
    StampPieces(g);
    assert ':' !in AfterFrom(g);
  }

  /** Printing and parsing are inverse for exactly the grants whose host does not
      itself contain the marker. */
  lemma PrintThenParse(g: Grant)
    requires Valid(g)
    ensures GrantExpiry(Entry(g)) == (g.id, g.expiry) <==> !HostHidesMarker(g)
  {
    Pieces(g);
    var c := AfterFrom(g);
    var line := Entry(g);
    if HostHidesMarker(g) {
      HiddenMarker(FROM, g.host.value, c, MARKER, Tag(g));
    } else {
      var x := FROM + HostPart(g) + ['"'] + c + [' '];
      assert line == x + (MARKER + (g.id + [':'] + Digits(g.expiry)));
      forall k | k < |x|
        ensures !OccursAt(line, MARKER, k)
      {
        if g.host.Some? {
          EarlierMarkers(FROM, g.host.value, c, MARKER, Tag(g), k);
        } else {
          NoEarlierMarker(FROM, c, MARKER, Tag(g), k);
        }
      }
      ReadsOwnTag(x, MARKER, g.id, g.expiry);
    }
  }

  /** The condition is needed: with the marker itself as host, the line does not read back. */
  lemma SomeHostHidesTheMarker(g: Grant)
    requires Valid(g)
    ensures GrantExpiry(Entry(g.(host := Some(MARKER)))) != (g.id, g.expiry)
  {
    var bad := g.(host := Some(MARKER));
    assert NoSpaces(MARKER);
    assert OccursAt(MARKER, MARKER, 0);
    OccursMeansContains(MARKER, MARKER, 0);
    PrintThenParse(bad);
  }

  predicate IsAddressChar(c: char) {
    '0' <= c <= '9' || 'a' <= c <= 'f' || 'A' <= c <= 'F' || c == ':' || c == '.'
  }

  predicate IsLiteral(s: string) {
    forall i | 0 <= i < |s| :: IsAddressChar(s[i])
  }

  /** A host that can be dialled: a name or IPv4 address, which have no colon, or an IPv6 literal,
      perhaps with a zone, which is the name of an interface and has no colon. */
  predicate Dialable(h: string) {
    || ':' !in h
    || match Cut(h, '%')
       case None => IsLiteral(h)
       case Some((address, zone)) => IsLiteral(address) && ':' !in zone
  }

  lemma LiteralLacksMarker(s: string)
    requires IsLiteral(s)
    ensures forall k :: !OccursAt(s, MARKER, k)
  {
    assert MARKER[0] == 'o' && 'o' in MARKER && !IsAddressChar('o');
    LacksChar(s, MARKER, 'o');
  }

  /** No host that can be dialled contains the marker. */
  lemma DialableLacksMarker(h: string)
    requires Dialable(h)
    ensures !Contains(h, MARKER)
  {
    MarkerPieces();
    if ':' !in h {
      LacksChar(h, MARKER, ':');
    } else {
      match Cut(h, '%')
      case None => LiteralLacksMarker(h);
      case Some((address, zone)) =>
        LiteralLacksMarker(address);
        LacksChar(zone, MARKER, ':');
        PercentNotInMarker();
        forall k
          ensures !OccursAt(h, MARKER, k)
        {
          NoStraddle(address, '%', zone, MARKER, k);
        }
    }
  }

  lemma PercentNotInMarker()
    ensures '%' !in MARKER
  {
  }

  /** The agent puts a host on the line only after it has dialled it, so every line it prints reads
      back as the grant's id and expiry. */
  lemma DialledGrantReadsBack(g: Grant)
    requires Valid(g) && (g.host.Some? ==> Dialable(g.host.value))
    ensures GrantExpiry(Entry(g)) == (g.id, g.expiry)
  {
    if g.host.Some? {
      DialableLacksMarker(g.host.value);
    }
    PrintThenParse(g);
  }

  /** A printed line stays one non-blank line of a key file. */
  lemma EntryIsALine(g: Grant)
    requires Valid(g)
    ensures '\n' !in Entry(g) && !IsBlank(Entry(g))
  {
    MarkerPieces();
    FromPieces();
    HostIsInLine(g);
    AfterFromIsInLine(g);
    TagIsInLine(g);
    hide HostPart, AfterFrom, Tag, IsSpace;
    assert Entry(g)[0] == FROM[0];
  }

  lemma HostIsInLine(g: Grant)
    requires Valid(g)
    ensures '\n' !in HostPart(g)
  {
    assert IsSpace('\n');
    if g.host.Some? {
      assert forall i | 0 <= i < |g.host.value| :: g.host.value[i] != '\n';
    }
  }

  lemma AfterFromIsInLine(g: Grant)
    requires Valid(g)
    ensures '\n' !in AfterFrom(g)
  {
    RestrictionPieces();
    KeyTypePieces(g.keyType);
    Base64Pieces(g.keyB64);
    StampPieces(g);
    hide StampPart, ValidKeyType, ValidBase64;
  }

  lemma TagIsInLine(g: Grant)
    requires Valid(g)
    ensures '\n' !in Tag(g)
  {
    assert forall i | 0 <= i < |g.id| :: IsHexOrDash(g.id[i]) && g.id[i] != '\n';
    var ds := Digits(g.expiry);
    assert forall i | 0 <= i < |ds| :: IsDigit(ds[i]) && ds[i] != '\n';
  }
}
