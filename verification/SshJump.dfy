/**
 One-time SSH jump grants: key files on disk, the three edits the agent makes to
 them (installing a grant, revoking one, sweeping expired ones), and what holds
 over every run of those edits.
 */
module SshJump {
  import opened Text
  import opened Filters
  import opened SshGrantLine

  const NANOS: int := 1_000_000_000
  const MAX_TTL: int := 900
  const MIN_TTL: int := 30

  // ---- Key files as text and as lines ----

  function NotBlank(): string -> bool {
    (l: string) => !IsBlank(l)
  }

  function NonBlank(lines: seq<string>): seq<string> {
    Filter(NotBlank(), lines)
  }

  predicate IsLine(l: string) {
    '\n' !in l && !IsBlank(l)
  }

  function ReadLines(data: string): (lines: seq<string>)
    ensures forall l | l in lines :: IsLine(l)
  {
    FilterMembers(NotBlank(), Split(data, '\n'));
    NonBlank(Split(data, '\n'))
  }

  function Render(lines: seq<string>): string {
    var body := Join(lines, '\n');
    if body != "" then body + "\n" else ""
  }

  lemma {:induction false} JoinSnoc(parts: seq<string>, sep: char)
    requires |parts| >= 1
    ensures Join(parts + [""], sep) == Join(parts, sep) + [sep]
  {
    var more := parts + [""];
    if |parts| == 1 {
      assert more[1..] == [""];
    } else {
      assert more[1..] == parts[1..] + [""];
      JoinSnoc(parts[1..], sep);
    }
  }

  /** Writing a list of lines and reading it back is the identity. */
  lemma WriteThenRead(lines: seq<string>)
    requires forall l | l in lines :: IsLine(l)
    ensures ReadLines(Render(lines)) == lines
  {
    if lines == [] {
      assert Split("", '\n') == [""];
      FilterSnoc(NotBlank(), [], "");
    } else {
      assert lines[0] in lines;
      assert Join(lines, '\n') != "";
      var more := lines + [""];
      JoinSnoc(lines, '\n');
      assert forall i | 0 <= i < |lines| :: lines[i] in lines;
      SplitJoin(more, '\n');
      assert Split(Render(lines), '\n') == more;
      FilterSnoc(NotBlank(), lines, "");
      FilterAll(NotBlank(), lines);
    }
  }

  // ---- Edits ----

  /** The closures handed to rewriteKeyFile. Times are Unix seconds. */
  datatype Edit =
    | Install(id: string, now: int, entry: string)
    | Withdraw(id: string)
    | Expire(now: int)

  predicate Ours(line: string) {
    GrantExpiry(line).1 >= 0
  }

  predicate Carries(line: string, id: string) {
    Ours(line) && GrantExpiry(line).0 == id
  }

  predicate Drops(e: Edit, line: string) {
    var (id, exp) := GrantExpiry(line);
    && exp >= 0
    && match e
       case Install(grant, now, _) => exp <= now || id == grant
       case Withdraw(grant) => id == grant
       case Expire(now) => exp <= now
  }

  function Keeps(e: Edit): string -> bool {
    (l: string) => !Drops(e, l)
  }

  function Keep(e: Edit, lines: seq<string>): (kept: seq<string>)
    ensures forall l | l in kept :: l in lines && !Drops(e, l)
  {
    FilterMembers(Keeps(e), lines);
    Filter(Keeps(e), lines)
  }

  function Edited(e: Edit, lines: seq<string>): seq<string> {
    Keep(e, lines) + if e.Install? then [e.entry] else []
  }

  predicate Proper(e: Edit) {
    e.Install? ==> IsLine(e.entry) && Ours(e.entry)
  }

  /** The new text of a key file; an edit that changes no line leaves the text alone. */
  function Content(was: Option<string>, e: Edit): string {
    var lines := if was.Some? then ReadLines(was.value) else [];
    var next := Edited(e, lines);
    if lines != [] && next == lines then was.value else Render(next)
  }

  /** The lines of the new text are the edited lines, whether or not the file was rewritten. */
  lemma ContentLines(was: Option<string>, e: Edit)
    requires Proper(e)
    ensures ReadLines(Content(was, e)) == Edited(e, if was.Some? then ReadLines(was.value) else [])
  {
    WriteThenRead(Edited(e, if was.Some? then ReadLines(was.value) else []));
  }

  // ---- The state machine ----

  datatype State = State(disk: map<string, string>, known: set<string>)

  /** `now` is in nanoseconds. A `fault` is a refusal by a check outside this model
      or an error reading or writing the key file; `faults` names the files with such
      an error. `configured` are the files sshd is set up to read for the account. */
  datatype Event =
    | Granting(file: string, id: string, requested: int, now: int, keyType: string, keyB64: string,
               host: Option<string>, stamp: Option<string>, fault: bool)
    | Revoking(id: string, configured: set<string>, faults: set<string>)
    | Sweeping(now: int, account: bool, configured: set<string>, faults: set<string>)
    | Restarting

  predicate WellFormed(ev: Event) {
    ev.Granting? ==>
      && 0 <= ev.now && ev.requested <= MAX_INT64
      && (ev.host.Some? ==> NoSpaces(ev.host.value))
      && (ev.stamp.Some? ==> AllDigits(ev.stamp.value))
  }

  /** A host that itself contains the marker would make the line unreadable. */
  predicate CleanHost(ev: Event) {
    ev.Granting? && ev.host.Some? ==> !Contains(ev.host.value, MARKER)
  }

  /** The agent names a host only after dialling it, and then it is clean. */
  lemma DialledHostIsClean(ev: Event)
    requires ev.Granting? && (ev.host.Some? ==> Dialable(ev.host.value))
    ensures CleanHost(ev)
  {
    if ev.host.Some? {
      DialableLacksMarker(ev.host.value);
    }
  }

  /** Seconds from the year 1, which Go's times count from, to 1970: a later Unix time than the
      int64 range allows for wraps into the past and is refused. */
  const UNIX_TO_INTERNAL: int := 62_135_596_800

  /** The requested expiry, cut to fifteen minutes from now and to whole seconds. */
  function CappedExpiry(requested: int, now: int): int {
    if requested * NANOS > now + MAX_TTL * NANOS then (now + MAX_TTL * NANOS) / NANOS else requested
  }

  /** The grant a command installs, or None when the command is refused. */
  function Granted(ev: Event): (g: Option<Grant>)
    requires ev.Granting? && WellFormed(ev)
    ensures g.Some? ==> Valid(g.value) && g.value.id == ev.id && g.value.host == ev.host
    ensures g.Some? ==> ev.now + (MIN_TTL - 1) * NANOS < g.value.expiry * NANOS <= ev.now + MAX_TTL * NANOS
  {
    if ev.fault || !ValidId(ev.id) || !ValidKeyType(ev.keyType) || !ValidBase64(ev.keyB64) then None
    else if ev.requested > MAX_INT64 - UNIX_TO_INTERNAL then None
    else if ev.requested * NANOS < ev.now + MIN_TTL * NANOS then None
    else Some(Grant(ev.id, CappedExpiry(ev.requested, ev.now), ev.keyType, ev.keyB64, ev.host, ev.stamp))
  }

  function InstallOf(ev: Event): (e: Edit)
    requires ev.Granting? && WellFormed(ev) && Granted(ev).Some?
  {
    Install(ev.id, ev.now / NANOS, Entry(Granted(ev).value))
  }

  function Rewrite(disk: map<string, string>, file: string, e: Edit): map<string, string> {
    disk[file := Content(if file in disk then Some(disk[file]) else None, e)]
  }

  function RewriteAll(disk: map<string, string>, files: set<string>, e: Edit): map<string, string> {
    map f | f in disk :: if f in files then Content(Some(disk[f]), e) else disk[f]
  }

  function Step(s: State, ev: Event): State
    requires WellFormed(ev)
  {
    match ev
    case Granting(file, _, _, _, _, _, _, _, _) =>
      if Granted(ev).None? then s
      else State(Rewrite(s.disk, file, InstallOf(ev)), s.known + {file})
    case Revoking(id, configured, faults) =>
      if !ValidId(id) then s
      else s.(disk := RewriteAll(s.disk, s.known + configured - faults, Withdraw(id)))
    case Sweeping(now, account, configured, faults) =>
      if !account then s
      else s.(disk := RewriteAll(s.disk, s.known + configured - faults, Expire(now / NANOS)))
    case Restarting => s.(known := {})
  }

  predicate AllWellFormed(es: seq<Event>) {
    forall i | 0 <= i < |es| :: WellFormed(es[i])
  }

  function Run(s: State, es: seq<Event>): State
    requires AllWellFormed(es)
  {
    if es == [] then s else Step(Run(s, es[..|es| - 1]), es[|es| - 1])
  }

  function LinesOf(s: State, f: string): (lines: seq<string>)
    ensures forall l | l in lines :: IsLine(l)
  {
    if f in s.disk then ReadLines(s.disk[f]) else []
  }

  /** The edit an event makes to the lines of one file, if it makes any. */
  function EditOn(s: State, ev: Event, f: string): Option<Edit>
    requires WellFormed(ev)
  {
    match ev
    case Granting(file, _, _, _, _, _, _, _, _) =>
      if f == file && Granted(ev).Some? then Some(InstallOf(ev)) else None
    case Revoking(id, configured, faults) =>
      if ValidId(id) && f in s.known + configured - faults then Some(Withdraw(id)) else None
    case Sweeping(now, account, configured, faults) =>
      if account && f in s.known + configured - faults then Some(Expire(now / NANOS)) else None
    case Restarting => None
  }

  lemma InstallIsProper(ev: Event)
    requires ev.Granting? && WellFormed(ev) && Granted(ev).Some?
    ensures Proper(InstallOf(ev))
    ensures CleanHost(ev) ==> GrantExpiry(InstallOf(ev).entry) == (ev.id, Granted(ev).value.expiry)
    ensures !CleanHost(ev) ==> GrantExpiry(InstallOf(ev).entry).1 == 0
  {
    var g := Granted(ev).value;
    EntryIsALine(g);
    PrintThenParse(g);
    if HostHidesMarker(g) {
      Pieces(g);
      HiddenMarker(FROM, g.host.value, AfterFrom(g), MARKER, Tag(g));
    }
  }

  /** Every event edits the lines of a file, or leaves them alone. */
  lemma StepLines(s: State, ev: Event, f: string)
    requires WellFormed(ev)
    ensures LinesOf(Step(s, ev), f) ==
            match EditOn(s, ev, f)
            case None => LinesOf(s, f)
            case Some(e) => Edited(e, LinesOf(s, f))
  {
    match EditOn(s, ev, f)
    case None =>
    case Some(e) =>
      if ev.Granting? {
        InstallIsProper(ev);
      }
      ContentLines(if f in s.disk then Some(s.disk[f]) else None, e);
      EditedNothing(e);
  }

  lemma EditedNothing(e: Edit)
    ensures !e.Install? ==> Edited(e, []) == []
  {
  }

  // ---- What every edit keeps ----

  function Foreign(lines: seq<string>): seq<string> {
    Filter((l: string) => !Ours(l), lines)
  }

  lemma EditKeepsForeign(e: Edit, lines: seq<string>)
    requires Proper(e)
    ensures Foreign(Edited(e, lines)) == Foreign(lines)
  {
    assert Foreign(Edited(e, lines)) == Foreign(Keep(e, lines)) by {
      if e.Install? {
        var all := Edited(e, lines);
        assert all[..|all| - 1] == Keep(e, lines);
      } else {
        assert Edited(e, lines) == Keep(e, lines);
      }
    }
    ForeignOfKept(e, lines);
  }

  lemma {:induction false} ForeignOfKept(e: Edit, lines: seq<string>)
    ensures Foreign(Keep(e, lines)) == Foreign(lines)
  {
    if lines != [] {
      var t := lines[..|lines| - 1];
      var last := lines[|lines| - 1];
      ForeignOfKept(e, t);
      var kept := Keep(e, lines);
      if Drops(e, last) {
        assert kept == Keep(e, t);
      } else {
        assert kept[..|kept| - 1] == Keep(e, t);
      }
    }
  }

  /** Two lines that carry the same grant, with an expiry of at least `least`. */
  predicate SameGrant(a: string, b: string, least: nat) {
    GrantExpiry(a).1 >= least && GrantExpiry(b).1 >= least && GrantExpiry(a).0 == GrantExpiry(b).0
  }

  predicate OnePerGrant(lines: seq<string>, least: nat) {
    forall i, j | 0 <= i < j < |lines| :: !SameGrant(lines[i], lines[j], least)
  }

  lemma EditKeepsOnePerGrant(e: Edit, lines: seq<string>, least: nat)
    requires OnePerGrant(lines, least)
    requires e.Install? && GrantExpiry(e.entry).1 >= least ==> GrantExpiry(e.entry).0 == e.id
    ensures OnePerGrant(Edited(e, lines), least)
  {
    KeepPairs(e, lines, least);
    var kept := Keep(e, lines);
    forall i | 0 <= i < |kept| && e.Install?
      ensures !SameGrant(kept[i], e.entry, least)
    {
      assert kept[i] in kept;
    }
  }

  lemma {:induction false} KeepPairs(e: Edit, lines: seq<string>, least: nat)
    requires OnePerGrant(lines, least)
    ensures OnePerGrant(Keep(e, lines), least)
  {
    if lines != [] {
      var t := lines[..|lines| - 1];
      var last := lines[|lines| - 1];
      var kept := Keep(e, t);
      KeepPairs(e, t, least);
      forall i | 0 <= i < |kept|
        ensures !SameGrant(kept[i], last, least)
      {
        assert kept[i] in kept;
        var j :| 0 <= j < |t| && t[j] == kept[i];
        assert lines[j] == t[j];
      }
      assert Keep(e, lines) == kept + if Drops(e, last) then [] else [last];
    }
  }

  // ---- Over every run ----

  /** Lines without a readable marker keep their text and their order, in every file. */
  lemma {:induction false} ForeignLinesSurvive(s: State, es: seq<Event>, f: string)
    requires AllWellFormed(es)
    ensures Foreign(LinesOf(Run(s, es), f)) == Foreign(LinesOf(s, f))
  {
    if es != [] {
      var t := Run(s, es[..|es| - 1]);
      var ev := es[|es| - 1];
      ForeignLinesSurvive(s, es[..|es| - 1], f);
      StepLines(t, ev, f);
      if EditOn(t, ev, f).Some? {
        if ev.Granting? {
          InstallIsProper(ev);
        }
        EditKeepsForeign(EditOn(t, ev, f).value, LinesOf(t, f));
      }
    }
  }

  lemma StepKeepsOnePerGrant(s: State, ev: Event, f: string, least: nat)
    requires WellFormed(ev) && (least > 0 || CleanHost(ev)) && OnePerGrant(LinesOf(s, f), least)
    ensures OnePerGrant(LinesOf(Step(s, ev), f), least)
  {
    StepLines(s, ev, f);
    hide Step, LinesOf, OnePerGrant, GrantExpiry, Granted, Entry;
    match EditOn(s, ev, f)
    case None =>
    case Some(e) =>
      if ev.Granting? {
        InstallIsProper(ev);
      }
      EditKeepsOnePerGrant(e, LinesOf(s, f), least);
  }

  /** A key file never holds two lines that carry the same grant with a positive expiry. Where no
      host contains the marker that covers every line of the agent's; a line with such a host
      reads as expired at time zero. */
  lemma {:induction false} OneLinePerGrant(s: State, es: seq<Event>, f: string, least: nat)
    requires AllWellFormed(es)
    requires least > 0 || forall i | 0 <= i < |es| :: CleanHost(es[i])
    requires OnePerGrant(LinesOf(s, f), least)
    ensures OnePerGrant(LinesOf(Run(s, es), f), least)
  {
    hide Step, LinesOf, OnePerGrant, CleanHost, WellFormed;
    if es != [] {
      OneLinePerGrant(s, es[..|es| - 1], f, least);
      StepKeepsOnePerGrant(Run(s, es[..|es| - 1]), es[|es| - 1], f, least);
    }
  }

  predicate Installs(ev: Event, f: string, line: string) {
    && ev.Granting? && WellFormed(ev) && ev.file == f
    && Granted(ev).Some? && Entry(Granted(ev).value) == line
  }

  /** Every line of the agent's in a file was there at the start or comes from a grant of
      this run, and then expires no later than fifteen minutes after that grant. */
  lemma {:induction false} InstalledLinesExpire(s: State, es: seq<Event>, f: string, line: string) returns (i: int)
    requires AllWellFormed(es)
    requires line in LinesOf(Run(s, es), f) && Ours(line) && line !in LinesOf(s, f)
    ensures 0 <= i < |es| && Installs(es[i], f, line)
    ensures GrantExpiry(line).1 * NANOS <= es[i].now + MAX_TTL * NANOS
  {
    var n := |es| - 1;
    var t := Run(s, es[..n]);
    if line in LinesOf(t, f) {
      i := InstalledLinesExpire(s, es[..n], f, line);
    } else {
      i := n;
      NewLineIsInstalled(t, es[n], f, line);
    }
  }

  lemma NewInEdited(e: Edit, lines: seq<string>, line: string)
    requires line in Edited(e, lines) && line !in lines
    ensures e.Install? && line == e.entry
  {
  }

  lemma NewLineIsInstalled(s: State, ev: Event, f: string, line: string)
    requires WellFormed(ev)
    requires line in LinesOf(Step(s, ev), f) && line !in LinesOf(s, f)
    ensures Installs(ev, f, line) && GrantExpiry(line).1 * NANOS <= ev.now + MAX_TTL * NANOS
  {
    StepLines(s, ev, f);
    hide Step, LinesOf, GrantExpiry, Keep, Granted, Entry;
    match EditOn(s, ev, f)
    case None =>
    case Some(e) =>
      NewInEdited(e, LinesOf(s, f), line);
      InstallIsProper(ev);
  }

  /** The line stays in whatever file it is in, through every run. */
  ghost predicate AlwaysSurvives(line: string) {
    forall s: State, es: seq<Event>, f: string | AllWellFormed(es) && line in LinesOf(s, f) ::
      line in LinesOf(Run(s, es), f)
  }

  lemma ForeignLineSurvives(s: State, es: seq<Event>, f: string, line: string)
    requires AllWellFormed(es) && line in LinesOf(s, f) && !Ours(line)
    ensures line in LinesOf(Run(s, es), f)
  {
    ForeignLinesSurvive(s, es, f);
    FilterMembers((l: string) => !Ours(l), LinesOf(s, f));
    FilterMembers((l: string) => !Ours(l), LinesOf(Run(s, es), f));
    assert line in Foreign(LinesOf(s, f));
  }

  /** A line with a readable marker goes at the first sweep at its own expiry. */
  lemma OwnLineGoes(line: string) returns (s: State, es: seq<Event>, f: string)
    requires IsLine(line) && Ours(line)
    ensures AllWellFormed(es) && line in LinesOf(s, f) && line !in LinesOf(Run(s, es), f)
  {
    f := "f";
    s := State(map[f := Render([line])], {});
    WriteThenRead([line]);
    assert LinesOf(s, f) == [line];
    var now := GrantExpiry(line).1 * NANOS;
    var e := Sweeping(now, true, {f}, {});
    es := [e];
    assert es[..0] == [];
    assert Run(s, es) == Step(s, e);
    if line in LinesOf(Step(s, e), f) {
      SweptLines(s, now, {f}, {}, f, line);
    }
  }

  /** Exactly the lines without a readable marker survive every run. */
  lemma SurvivesIffForeign(line: string)
    requires IsLine(line)
    ensures AlwaysSurvives(line) <==> !Ours(line)
  {
    if !Ours(line) {
      forall s: State, es: seq<Event>, f: string | AllWellFormed(es) && line in LinesOf(s, f)
        ensures line in LinesOf(Run(s, es), f)
      {
        ForeignLineSurvives(s, es, f, line);
      }
    } else {
      var s, es, f := OwnLineGoes(line);
    }
  }

  /** So a line somebody else wrote goes too if a note in it looks like the agent's marker. */
  lemma HandWrittenMarkerIsLost(word: string)
    requires word != [] && NoSpaces(word) && ':' !in word
    ensures var line := "k " + (MARKER + word);
            GrantExpiry(line) == (word, 0) && IsLine(line) && !AlwaysSurvives(line)
  {
    var line := "k " + (MARKER + word);
    assert MARKER[0] == 'o';
    forall k | k < 2
      ensures !OccursAt(line, MARKER, k)
    {
      assert 0 <= k ==> line[k..k + |MARKER|][0] == line[k];
    }
    MalformedTag("k ", MARKER, word);
    MarkerPieces();
    assert IsSpace('\n') && !IsSpace(line[0]);
    SurvivesIffForeign(line);
  }

  /** The files that received a grant since the agent last started. */
  function GrantedFiles(es: seq<Event>): set<string>
    requires AllWellFormed(es)
  {
    if es == [] then {}
    else
      var ev := es[|es| - 1];
      if ev.Restarting? then {}
      else GrantedFiles(es[..|es| - 1]) + if ev.Granting? && Granted(ev).Some? then {ev.file} else {}
  }

  lemma {:induction false} GrantedFilesAreKnown(s: State, es: seq<Event>)
    requires AllWellFormed(es)
    ensures GrantedFiles(es) <= Run(s, es).known
  {
    if es != [] {
      GrantedFilesAreKnown(s, es[..|es| - 1]);
    }
  }

  /** A revoke clears its grant out of every file granted in this process, unless that file
      could not be rewritten. */
  lemma RevokeReachesGrantedFiles(s: State, es: seq<Event>, id: string, configured: set<string>, faults: set<string>,
                                  f: string)
    requires AllWellFormed(es) && ValidId(id)
    requires f in GrantedFiles(es) + configured && f !in faults
    ensures forall l | l in LinesOf(Step(Run(s, es), Revoking(id, configured, faults)), f) :: !Carries(l, id)
  {
    GrantedFilesAreKnown(s, es);
    RevokedLines(Run(s, es), id, configured, faults, f);
  }

  lemma RevokedLines(s: State, id: string, configured: set<string>, faults: set<string>, f: string)
    requires ValidId(id) && f in s.known + configured - faults
    ensures forall l | l in LinesOf(Step(s, Revoking(id, configured, faults)), f) :: !Carries(l, id)
  {
    hide LinesOf, Step, Keep, GrantExpiry, Granted;
    StepLines(s, Revoking(id, configured, faults), f);
  }

  lemma SweptLines(s: State, now: int, configured: set<string>, faults: set<string>, f: string, line: string)
    requires f in s.known + configured - faults
    requires line in LinesOf(Step(s, Sweeping(now, true, configured, faults)), f) && Ours(line)
    ensures line in LinesOf(s, f) && GrantExpiry(line).1 * NANOS > now
  {
    hide LinesOf, Step, Keep, GrantExpiry, Granted;
    StepLines(s, Sweeping(now, true, configured, faults), f);
  }

  /** After a sweep at time `now`, no line of the agent's that has expired by then remains in a
      swept file, and every remaining line installed in this run was granted less than fifteen
      minutes before the sweep. */
  lemma SweptFilesHoldRecentGrants(s: State, es: seq<Event>, now: int, configured: set<string>, faults: set<string>,
                                   f: string, line: string) returns (i: int)
    requires AllWellFormed(es)
    requires f in GrantedFiles(es) + configured && f !in faults
    requires line in LinesOf(Step(Run(s, es), Sweeping(now, true, configured, faults)), f) && Ours(line)
    ensures GrantExpiry(line).1 * NANOS > now
    ensures line !in LinesOf(s, f) ==>
              0 <= i < |es| && Installs(es[i], f, line) && now < es[i].now + MAX_TTL * NANOS
  {
    GrantedFilesAreKnown(s, es);
    hide LinesOf, Step, Run, GrantExpiry, Granted, GrantedFiles;
    SweptLines(Run(s, es), now, configured, faults, f, line);
    i := 0;
    if line !in LinesOf(s, f) {
      i := InstalledLinesExpire(s, es, f, line);
    }
  }

  /** Right after a successful grant, its file's last line is the grant and no other line carries it. */
  lemma GrantEndsTheFile(s: State, ev: Event)
    requires ev.Granting? && WellFormed(ev) && CleanHost(ev) && Granted(ev).Some?
    ensures var lines := LinesOf(Step(s, ev), ev.file);
            && lines != [] && lines[|lines| - 1] == Entry(Granted(ev).value)
            && GrantExpiry(lines[|lines| - 1]) == (ev.id, Granted(ev).value.expiry)
            && forall l | l in lines[..|lines| - 1] :: !Carries(l, ev.id)
  {
    StepLines(s, ev, ev.file);
    InstallIsProper(ev);
    var kept := Keep(InstallOf(ev), LinesOf(s, ev.file));
    var lines := LinesOf(Step(s, ev), ev.file);
    assert lines == kept + [Entry(Granted(ev).value)];
    assert lines[..|lines| - 1] == kept;
    assert forall l | l in kept :: !Drops(InstallOf(ev), l);
  }

  /** The lines that stay in a file when a grant is revoked, when expired ones are swept at a time, and
      when a grant is installed at a time. */
  function NotOf(id: string): string -> bool {
    (l: string) => GrantExpiry(l).1 < 0 || GrantExpiry(l).0 != id
  }

  function Unexpired(now: int): string -> bool {
    (l: string) => GrantExpiry(l).1 < 0 || GrantExpiry(l).1 * 1_000_000_000 > now
  }

  function UnexpiredNotOf(now: int, id: string): string -> bool {
    (l: string) => GrantExpiry(l).1 < 0 || (GrantExpiry(l).1 * 1_000_000_000 > now && GrantExpiry(l).0 != id)
  }

  /** Which lines each edit keeps. */
  lemma KeepsExactly(e: Edit, now: int, lines: seq<string>)
    requires e.Withdraw? || e.now == now / NANOS
    ensures e.Install? ==> Keep(e, lines) == Filter(UnexpiredNotOf(now, e.id), lines)
    ensures e.Withdraw? ==> Keep(e, lines) == Filter(NotOf(e.id), lines)
    ensures e.Expire? ==> Keep(e, lines) == Filter(Unexpired(now), lines)
  {
    if e.Install? {
      assert forall l :: Keeps(e)(l) <==> UnexpiredNotOf(now, e.id)(l);
      FilterSame(Keeps(e), UnexpiredNotOf(now, e.id), lines);
    } else if e.Withdraw? {
      assert forall l :: Keeps(e)(l) <==> NotOf(e.id)(l);
      FilterSame(Keeps(e), NotOf(e.id), lines);
    } else {
      assert forall l :: Keeps(e)(l) <==> Unexpired(now)(l);
      FilterSame(Keeps(e), Unexpired(now), lines);
    }
  }

  /** A revoke takes exactly the lines of its grant out of the files it reaches; a sweep exactly the
      lines that have expired; and a grant takes exactly the expired lines and the earlier lines of
      its own id out of its file and appends its line. */
  lemma EditedExactly(s: State, ev: Event, f: string)
    requires WellFormed(ev) && EditOn(s, ev, f).Some?
    ensures var before, after := LinesOf(s, f), LinesOf(Step(s, ev), f);
            && (ev.Granting? ==>
                  Granted(ev).Some? &&
                  after == Filter(UnexpiredNotOf(ev.now, ev.id), before) + [Entry(Granted(ev).value)])
            && (ev.Revoking? ==> after == Filter(NotOf(ev.id), before))
            && (ev.Sweeping? ==> after == Filter(Unexpired(ev.now), before))
  {
    StepLines(s, ev, f);
    hide LinesOf, Step, GrantExpiry, Granted, Entry, Keep, NotOf, Unexpired, UnexpiredNotOf;
    var e := EditOn(s, ev, f).value;
    KeepsExactly(e, if ev.Granting? || ev.Sweeping? then ev.now else 0, LinesOf(s, f));
  }

  /** The files an event edits: a grant its own, if it is accepted; a revoke and a sweep the known and
      configured ones that raise no error. */
  lemma EditsWhich(s: State, ev: Event, f: string)
    requires WellFormed(ev)
    ensures EditOn(s, ev, f).Some? <==>
              match ev
              case Granting(file, _, _, _, _, _, _, _, _) => f == file && Granted(ev).Some?
              case Revoking(id, configured, faults) => ValidId(id) && (f in s.known || f in configured) && f !in faults
              case Sweeping(_, account, configured, faults) =>
                account && (f in s.known || f in configured) && f !in faults
              case Restarting => false
  {
    hide Granted, ValidId;
  }

  /** No other file is touched. */
  lemma OtherFilesStay(s: State, ev: Event, f: string)
    requires WellFormed(ev)
    requires match ev
             case Granting(file, _, _, _, _, _, _, _, _) => f != file
             case Revoking(_, configured, faults) => f !in s.known + configured || f in faults
             case Sweeping(_, account, configured, faults) => !account || f !in s.known + configured || f in faults
             case Restarting => true
    ensures f in Step(s, ev).disk <==> f in s.disk
    ensures f in s.disk ==> Step(s, ev).disk[f] == s.disk[f]
  {
    hide Content;
  }

  /** Exactly when a grant command is accepted, and the line it then leaves at the end of the file. An
      accepted line carries the requested expiry, or where that lies more than fifteen minutes
      ahead the last whole second that does not; and its key, host and stamp are the command's. */
  lemma InstalledLine(s: State, ev: Event) returns (e: int)
    requires ev.Granting? && WellFormed(ev) && CleanHost(ev)
    ensures var idOk := 8 <= |ev.id| <= 64 &&
                        forall c | c in ev.id :: '0' <= c <= '9' || 'a' <= c <= 'f' || 'A' <= c <= 'F' || c == '-';
            var typeOk := ev.keyType in ["ssh-ed25519", "ssh-rsa", "ecdsa-sha2-nistp256", "ecdsa-sha2-nistp384",
                                         "ecdsa-sha2-nistp521"];
            var timely := ev.now + 30 * 1_000_000_000 <= ev.requested * 1_000_000_000;
            var lines := LinesOf(Step(s, ev), ev.file);
            if !ev.fault && idOk && typeOk && ValidBase64(ev.keyB64) && timely
               && ev.requested <= 0x7FFF_FFFF_FFFF_FFFF - 62_135_596_800 then
              && ev.file in Step(s, ev).known && lines != []
              && GrantExpiry(lines[|lines| - 1]) == (ev.id, e) && 0 <= e <= ev.requested
              && (if ev.requested * 1_000_000_000 <= ev.now + 900 * 1_000_000_000 then e == ev.requested
                  else e * 1_000_000_000 <= ev.now + 900 * 1_000_000_000 < (e + 1) * 1_000_000_000)
              && lines[|lines| - 1] ==
                 "from=\"127.0.0.1,::1" + (if ev.host.Some? then "," + ev.host.value else "")
                 + "\",no-agent-forwarding,no-X11-forwarding"
                 + (if ev.stamp.Some? then ",expiry-time=\"" + ev.stamp.value + "\"" else "")
                 + " " + ev.keyType + " " + ev.keyB64 + " obliance-grant:" + ev.id + ":" + Digits(e)
            else Step(s, ev) == s
  {
    IdAndType(ev);
    e := 0;
    if Granted(ev).Some? {
      var g := Granted(ev).value;
      e := g.expiry;
      GrantEndsTheFile(s, ev);
      EntryText(g);
      ExpiryOf(ev);
    }
    hide LinesOf, GrantExpiry, Entry, CappedExpiry, ValidId, ValidKeyType, ValidBase64, Digits;
  }

  lemma IdAndType(ev: Event)
    requires ev.Granting?
    ensures ValidId(ev.id) <==>
              8 <= |ev.id| <= 64 &&
              forall c | c in ev.id :: '0' <= c <= '9' || 'a' <= c <= 'f' || 'A' <= c <= 'F' || c == '-'
    ensures ValidKeyType(ev.keyType) <==>
              ev.keyType in ["ssh-ed25519", "ssh-rsa", "ecdsa-sha2-nistp256", "ecdsa-sha2-nistp384",
                             "ecdsa-sha2-nistp521"]
  {
    if forall c | c in ev.id :: '0' <= c <= '9' || 'a' <= c <= 'f' || 'A' <= c <= 'F' || c == '-' {
      assert forall i | 0 <= i < |ev.id| :: ev.id[i] in ev.id;
    }
  }

  lemma ExpiryOf(ev: Event)
    requires ev.Granting? && WellFormed(ev) && Granted(ev).Some?
    ensures var e := Granted(ev).value.expiry;
            && e <= ev.requested
            && (if ev.requested * NANOS <= ev.now + 900 * NANOS then e == ev.requested
                else e * NANOS <= ev.now + 900 * NANOS < (e + 1) * NANOS)
  {
  }

  /** One or more letters, digits, '+' or '/', and then at most two '='. */
  lemma Base64Text(s: string)
    ensures ValidBase64(s) <==>
              exists n | 0 < n <= |s| ::
                && (s[n..] == "" || s[n..] == "=" || s[n..] == "==")
                && forall c | c in s[..n] ::
                     'A' <= c <= 'Z' || 'a' <= c <= 'z' || '0' <= c <= '9' || c == '+' || c == '/'
  {
    if ValidBase64(s) {
      var n := if Base64Body(s) then |s|
               else if s[|s| - 1] == '=' && Base64Body(s[..|s| - 1]) then |s| - 1
               else |s| - 2;
      assert s[..|s|] == s;
      assert s[n..] == "" || s[n..] == "=" || s[n..] == "==";
    }
    forall n | 0 < n <= |s| && (s[n..] == "" || s[n..] == "=" || s[n..] == "==")
               && forall c | c in s[..n] ::
                    'A' <= c <= 'Z' || 'a' <= c <= 'z' || '0' <= c <= '9' || c == '+' || c == '/'
      ensures ValidBase64(s)
    {
      PaddedIsValid(s, n);
    }
  }

  lemma PaddedIsValid(s: string, n: nat)
    requires 0 < n <= |s| && (s[n..] == "" || s[n..] == "=" || s[n..] == "==")
    requires forall c | c in s[..n] :: 'A' <= c <= 'Z' || 'a' <= c <= 'z' || '0' <= c <= '9' || c == '+' || c == '/'
    ensures ValidBase64(s)
  {
    assert forall i | 0 <= i < n :: s[..n][i] in s[..n];
    assert Base64Body(s[..n]);
    assert |s| == n + |s[n..]|;
    assert forall i | n <= i < |s| :: s[i] == s[n..][i - n];
    assert n == |s| ==> s[..n] == s;
  }

  // ---- The code itself, in place ----

  /** The loop over `out := lines[:0]`: kept lines are moved to the front of the same array. */
  method FilterInPlace(a: array<string>, keeps: string -> bool) returns (k: nat)
    modifies a
    ensures k <= a.Length && a[..k] == Filter(keeps, old(a[..]))
  {
    ghost var was := a[..];
    k := 0;
    for i := 0 to a.Length
      invariant k <= i
      invariant a[..k] == Filter(keeps, was[..i])
      invariant forall j | i <= j < a.Length :: a[j] == was[j]
    {
      FilterSnoc(keeps, was[..i], was[i]);
      assert was[..i + 1] == was[..i] + [was[i]];
      if keeps(a[i]) {
        ghost var kept := a[..k];
        a[k] := a[i];
        k := k + 1;
        assert a[..k] == kept + [was[i]];
      }
    }
    assert was[..a.Length] == was;
  }

  /** The whole closure; appending the new entry reuses the array while it has room. */
  method EditInPlace(a: array<string>, e: Edit) returns (b: array<string>, n: nat)
    modifies a
    ensures n <= b.Length && b[..n] == Edited(e, old(a[..]))
  {
    n := FilterInPlace(a, Keeps(e));
    b := a;
    if e.Install? {
      if n == a.Length {
        b := new string[n + 1](i requires 0 <= i <= n reads a => if i < n then a[i] else "");
        assert b[..n] == a[..n];
      }
      b[n] := e.entry;
      n := n + 1;
    }
  }

  /** The comparison loop that decides whether anything changed. */
  method SameLines(b: array<string>, n: nat, orig: seq<string>) returns (same: bool)
    requires n <= b.Length
    ensures same <==> b[..n] == orig
  {
    if n != |orig| {
      return false;
    }
    for i := 0 to n
      invariant b[..i] == orig[..i]
    {
      if b[i] != orig[i] {
        assert b[..n][i] != orig[i];
        return false;
      }
    }
    return true;
  }

  /** The body of rewriteKeyFile: the comparison with a copy taken before the in-place
      edit decides whether there is anything to write. */
  method EditContent(was: Option<string>, e: Edit) returns (next: Option<string>)
    ensures next.Some? ==> next.value == Content(was, e)
    ensures next.None? ==> was.Some? && Content(was, e) == was.value
  {
    var lines := if was.Some? then ReadLines(was.value) else [];
    var a := new string[|lines|](i requires 0 <= i < |lines| => lines[i]);
    assert a[..] == lines;
    var orig := a[..];
    var b, n := EditInPlace(a, e);
    var same := SameLines(b, n, orig);
    next := if orig != [] && same then None else Some(Render(b[..n]));
  }

  lemma RewriteOneMore(disk: map<string, string>, files: set<string>, f: string, e: Edit)
    requires f in disk && f !in files
    ensures RewriteAll(disk, files + {f}, e) == Rewrite(RewriteAll(disk, files, e), f, e)
  {
  }

  lemma RewriteMissing(disk: map<string, string>, files: set<string>, f: string, e: Edit)
    requires f !in disk
    ensures RewriteAll(disk, files + {f}, e) == RewriteAll(disk, files, e)
  {
  }

  lemma RewriteNone(disk: map<string, string>, files: set<string>, e: Edit)
    requires disk.Keys !! files
    ensures RewriteAll(disk, files, e) == disk
  {
  }

  class KeyFiles {
    var disk: map<string, string>
    var known: set<string>

    ghost function Now(): State reads this {
      State(disk, known)
    }

    constructor (disk: map<string, string>)
      ensures Now() == State(disk, {})
    {
      this.disk, known := disk, {};
    }

    /** rewriteKeyFile, with its error paths as `fault`. */
    method RewriteKeyFile(file: string, e: Edit, fault: bool)
      modifies this
      ensures known == old(known)
      ensures disk == if fault then old(disk) else Rewrite(old(disk), file, e)
    {
      if fault {
        return;
      }
      var was := if file in disk then Some(disk[file]) else None;
      var next := EditContent(was, e);
      if next.Some? {
        disk := disk[file := next.value];
      } else {
        assert disk == disk[file := Content(was, e)];
      }
    }

    method Grant(ev: Event) returns (ok: bool)
      requires ev.Granting? && WellFormed(ev)
      modifies this
      ensures Now() == Step(old(Now()), ev)
      ensures ok <==> Granted(ev).Some?
    {
      hide ValidId, ValidKeyType, ValidBase64, Entry, Rewrite;
      if !ValidId(ev.id) || !ValidKeyType(ev.keyType) || !ValidBase64(ev.keyB64) {
        return false;
      }
      if ev.requested > MAX_INT64 - UNIX_TO_INTERNAL || ev.requested * NANOS < ev.now + MIN_TTL * NANOS {
        return false;
      }
      var exp := ev.requested;
      if exp * NANOS > ev.now + MAX_TTL * NANOS {
        exp := (ev.now + MAX_TTL * NANOS) / NANOS;
      }
      if ev.fault {
        return false;
      }
      var g := SshGrantLine.Grant(ev.id, exp, ev.keyType, ev.keyB64, ev.host, ev.stamp);
      RewriteKeyFile(ev.file, Install(ev.id, ev.now / NANOS, Entry(g)), false);
      known := known + {ev.file};
      return true;
    }

    /** The loop over every known key file that revoke and sweep share; a missing file is skipped. */
    method RewriteKnown(configured: set<string>, faults: set<string>, e: Edit)
      modifies this
      ensures known == old(known)
      ensures disk == RewriteAll(old(disk), known + configured - faults, e)
    {
      ghost var was := disk;
      ghost var done: set<string> := {};
      var todo := known + configured;
      RewriteNone(was, {}, e);
      while todo != {}
        invariant known == old(known)
        invariant forall x :: x in known + configured - faults <==> x in done || (x in todo && x !in faults)
        invariant forall x | x in todo :: x !in done
        invariant disk == RewriteAll(was, done, e)
        decreases todo
      {
        var f :| f in todo;
        if f !in faults {
          if f in disk {
            RewriteOneMore(was, done, f, e);
          } else {
            RewriteMissing(was, done, f, e);
          }
        }
        if f in disk {
          RewriteKeyFile(f, e, f in faults);
        }
        todo := todo - {f};
        done := if f in faults then done else done + {f};
      }
      assert done == known + configured - faults;
    }

    method Revoke(ev: Event)
      requires ev.Revoking?
      modifies this
      ensures Now() == Step(old(Now()), ev)
    {
      if ValidId(ev.id) {
        RewriteKnown(ev.configured, ev.faults, Withdraw(ev.id));
      }
    }

    method Sweep(ev: Event)
      requires ev.Sweeping?
      modifies this
      ensures Now() == Step(old(Now()), ev)
    {
      if ev.account {
        RewriteKnown(ev.configured, ev.faults, Expire(ev.now / NANOS));
      }
    }
  }
}
