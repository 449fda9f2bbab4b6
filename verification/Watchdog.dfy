/**
 The restart ledger and the inhibit flag that the agent and its external watchdog share through
 watchdog.json. The clock counts nanoseconds; the file keeps whole seconds.

 Each read-modify-write of the file is one step. A push holds what it drained until it ends, and a
 watchdog run is a sequence of steps, so the two interleave freely.
 */
module Watchdog {
  import opened Text

  const SECOND: int := 1_000_000_000

  function Seconds(ns: int): int {
    ns / SECOND
  }

  /** An RFC 3339 time, nothing, or text that does not parse. */
  datatype Inhibit = Unset | Garbled | Until(sec: int)

  datatype File = File(restarts: seq<int>, inhibit: Inhibit)

  /** What drainWatchdogRestarts hands to a push. */
  datatype Drained = Drained(count: nat, last: Option<int>)

  // ---- The operations on the file ----

  function Taken(f: File): Drained {
    if f.restarts == [] then Drained(0, None) else Drained(|f.restarts|, Some(f.restarts[|f.restarts| - 1]))
  }

  /** A push that begins carries the number of restarts in the file and the last of them. */
  lemma TakenIs(f: File)
    ensures Taken(f).count == |f.restarts|
    ensures Taken(f).last == if f.restarts == [] then None else Some(f.restarts[|f.restarts| - 1])
  {
  }

  function Emptied(f: File): File {
    f.(restarts := [])
  }

  function Repeat(x: int, n: nat): (r: seq<int>)
    ensures |r| == n && forall i | 0 <= i < n :: r[i] == x
  {
    seq(n, _ => x)
  }

  function Restored(f: File, d: Drained): File {
    if d.count == 0 || d.last.None? then f else f.(restarts := f.restarts + Repeat(d.last.value, d.count))
  }

  function Recorded(f: File, now: int): File {
    f.(restarts := f.restarts + [Seconds(now)])
  }

  /** The inhibit in force from now for d: the later of it and the one already written. */
  function Inhibited(f: File, until: int): File {
    f.(inhibit :=
      match f.inhibit
      case Until(sec) => Until(if sec >= Seconds(until) then sec else Seconds(until))
      case _ => Until(Seconds(until)))
  }

  predicate Inhibits(i: Inhibit, now: int) {
    i.Until? && now < i.sec * SECOND
  }

  /** The file as the two programs use it. */
  class StateFile {
    var restarts: seq<int>
    var inhibit: Inhibit

    ghost function Value(): File
      reads this
    {
      File(restarts, inhibit)
    }

    constructor ()
      ensures Value() == File([], Unset)
    {
      restarts, inhibit := [], Unset;
    }

    /** drainWatchdogRestarts */
    method DrainRestarts() returns (d: Drained)
      modifies this
      ensures d == Taken(old(Value())) && Value() == Emptied(old(Value()))
      ensures d.count == |old(restarts)| && restarts == [] && inhibit == old(inhibit)
      ensures d.last == if d.count == 0 then None else Some(old(restarts)[d.count - 1])
    {
      if |restarts| == 0 {
        return Drained(0, None);
      }
      d := Drained(|restarts|, Some(restarts[|restarts| - 1]));
      restarts := [];
    }

    /** restoreWatchdogRestarts; a count is always drained together with its last time. */
    method RestoreRestarts(d: Drained)
      requires d.count > 0 ==> d.last.Some?
      modifies this
      ensures Value() == Restored(old(Value()), d)
      ensures |restarts| == |old(restarts)| + d.count && restarts[..|old(restarts)|] == old(restarts)
      ensures forall i | |old(restarts)| <= i < |restarts| :: d.last == Some(restarts[i])
    {
      if d.count == 0 {
        return;
      }
      var ts := d.last.value;
      for i := 0 to d.count
        invariant inhibit == old(inhibit) && restarts == old(restarts) + Repeat(ts, i)
      {
        assert Repeat(ts, i + 1) == Repeat(ts, i) + [ts];
        restarts := restarts + [ts];
      }
    }

    /** InhibitWatchdog: compares the full new time with the whole second written before. */
    method InhibitWatchdog(now: int, d: int)
      modifies this
      ensures Value() == Inhibited(old(Value()), now + d)
    {
      var newUntil := now + d;
      if inhibit.Until? {
        if inhibit.sec * SECOND > newUntil {
          newUntil := inhibit.sec * SECOND;
        }
      }
      inhibit := Until(Seconds(newUntil));
    }

    /** ClearWatchdogInhibit */
    method ClearInhibit()
      modifies this
      ensures Value() == old(Value()).(inhibit := Unset)
    {
      if inhibit == Unset {
        return;
      }
      inhibit := Unset;
    }

    /** recordRestart */
    method RecordRestart(now: int)
      modifies this
      ensures Value() == Recorded(old(Value()), now)
    {
      restarts := restarts + [Seconds(now)];
    }

    /** isInhibited */
    method IsInhibited(now: int) returns (r: bool)
      ensures r <==> Inhibits(inhibit, now)
    {
      if inhibit == Unset {
        return false;
      }
      if inhibit.Garbled? {
        return false;
      }
      return now < inhibit.sec * SECOND;
    }

    /** One watchdog run that nothing interrupts, given what the system answers to its questions. */
    method Tick(now: int, checkFails: bool, running: bool, processAlive: bool, startOk: bool, later: int)
      returns (attempted: bool)
      modifies this
      ensures attempted <==> !Inhibits(old(inhibit), now) && !checkFails && !running && !processAlive
      ensures Value() == if attempted && startOk then Recorded(old(Value()), later) else old(Value())
    {
      attempted := false;
      var inhibited := IsInhibited(now);
      if inhibited {
        return;
      }
      if checkFails {
        return;
      }
      if running {
        return;
      }
      if processAlive {
        return;
      }
      attempted := true;
      if !startOk {
        return;
      }
      RecordRestart(later);
    }
  }

  // ---- Agent and watchdog side by side ----

  /** How far a watchdog run has come; it remembers when it checked the inhibit flag. */
  datatype Stage = Idle | Allowed(at: int) | ServiceDown(at: int) | NoProcess(at: int) | Started

  datatype Start = Start(checkedAt: int, startedAt: int)

  /** The file, the push under way, the watchdog run under way, and what has happened so far. */
  datatype State = State(file: File, push: Option<Drained>, watchdog: Stage,
                         recorded: seq<int>, delivered: nat, lost: nat, starts: seq<Start>)

  /** How a push ends: before a response, with some HTTP response, or by a panic that the main loop
      recovers (or the end of the process). */
  datatype Outcome = Failed | Response(status: int) | Panicked

  datatype Event =
    | PushBegins
    | PushEnds(outcome: Outcome)
    | AgentInhibits(now: int, d: int)
    | AgentClears
    | WatchdogReads(now: int)
    | ServiceAnswers(fails: bool, running: bool)
    | ProcessAnswers(alive: bool)
    | ServiceStart(now: int, ok: bool)
    | WatchdogRecords(now: int)

  const INITIAL := State(File([], Unset), None, Idle, [], 0, 0, [])

  function Step(s: State, e: Event): State {
    match e
    case PushBegins =>
      if s.push.Some? then s else s.(push := Some(Taken(s.file)), file := Emptied(s.file))
    case PushEnds(outcome) =>
      if s.push.None? then s
      else (match outcome
        case Failed => s.(push := None, file := Restored(s.file, s.push.value))
        case Response(_) => s.(push := None, delivered := s.delivered + s.push.value.count)
        case Panicked => s.(push := None, lost := s.lost + s.push.value.count))
    case AgentInhibits(now, d) => s.(file := Inhibited(s.file, now + d))
    case AgentClears => s.(file := s.file.(inhibit := Unset))
    case WatchdogReads(now) =>
      if s.watchdog.Idle? && !Inhibits(s.file.inhibit, now) then s.(watchdog := Allowed(now)) else s
    case ServiceAnswers(fails, running) =>
      if s.watchdog.Allowed? then s.(watchdog := if fails || running then Idle else ServiceDown(s.watchdog.at)) else s
    case ProcessAnswers(alive) =>
      if s.watchdog.ServiceDown? then s.(watchdog := if alive then Idle else NoProcess(s.watchdog.at)) else s
    case ServiceStart(now, ok) =>
      if s.watchdog.NoProcess? then
        s.(watchdog := if ok then Started else Idle, starts := s.starts + [Start(s.watchdog.at, now)])
      else s
    case WatchdogRecords(now) =>
      if s.watchdog.Started? then
        s.(watchdog := Idle, file := Recorded(s.file, now), recorded := s.recorded + [Seconds(now)])
      else s
  }

  /** How a push ends: with any HTTP response, whatever its status, what it carried is delivered; with a
      failure before a response it goes back to the file, as copies of the last time; with a
      panic it is lost. */
  lemma PushOutcome(s: State, outcome: Outcome)
    requires s.push.Some? && (s.push.value.count > 0 ==> s.push.value.last.Some?)
    ensures var t, d := Step(s, PushEnds(outcome)), s.push.value;
            && t.push.None? && t.file.inhibit == s.file.inhibit && t.recorded == s.recorded
            && t.delivered == s.delivered + (if outcome.Response? then d.count else 0)
            && t.lost == s.lost + (if outcome.Panicked? then d.count else 0)
            && t.file.restarts ==
               s.file.restarts + if outcome.Failed? && d.count > 0 then seq(d.count, _ => d.last.value) else []
  {
  }

  function Run(s: State, es: seq<Event>): State {
    if es == [] then s else Step(Run(s, es[..|es| - 1]), es[|es| - 1])
  }

  function Carried(s: State): nat {
    if s.push.None? then 0 else s.push.value.count
  }

  /** Nothing is counted twice or invented: every restart is in the file, with the push under way,
      delivered, or lost to a panic; and every time in the file or with a push was recorded. */
  ghost predicate Ledger(s: State) {
    && |s.recorded| == |s.file.restarts| + Carried(s) + s.delivered + s.lost
    && (forall t | t in s.file.restarts :: t in s.recorded)
    && (s.push.Some? && s.push.value.count > 0 ==> s.push.value.last.Some? && s.push.value.last.value in s.recorded)
  }

  lemma StepKeepsLedger(s: State, e: Event)
    requires Ledger(s)
    ensures Ledger(Step(s, e))
  {
    var r := Step(s, e);
    if e.PushBegins? && s.push.None? && s.file.restarts != [] {
      var last := s.file.restarts[|s.file.restarts| - 1];
      assert last in s.file.restarts && r.push.value.last == Some(last);
    } else if s.push.Some? && s.push.value.count > 0 && !e.PushEnds? {
      assert r.push == s.push;
      assert s.push.value.last.value in r.recorded;
    }
  }

  lemma {:induction false} EveryRestartIsAccountedFor(es: seq<Event>)
    ensures Ledger(Run(INITIAL, es))
  {
    if es != [] {
      EveryRestartIsAccountedFor(es[..|es| - 1]);
      StepKeepsLedger(Run(INITIAL, es[..|es| - 1]), es[|es| - 1]);
    }
  }

  predicate NoPanic(es: seq<Event>) {
    forall i | 0 <= i < |es| :: es[i].PushEnds? ==> !es[i].outcome.Panicked?
  }

  lemma {:induction false} NothingLost(es: seq<Event>)
    requires NoPanic(es)
    ensures Run(INITIAL, es).lost == 0
  {
    if es != [] {
      NothingLost(es[..|es| - 1]);
    }
  }

  /** Between pushes, and without panics: recorded = still in the file + carried by pushes that got
      a response. */
  lemma RecordedIsKeptOrDelivered(es: seq<Event>)
    requires NoPanic(es) && Run(INITIAL, es).push.None?
    ensures var s := Run(INITIAL, es); |s.recorded| == |s.file.restarts| + s.delivered
  {
    EveryRestartIsAccountedFor(es);
    NothingLost(es);
  }

  // ---- The order of the restart list ----

  predicate Ascending(s: seq<int>) {
    forall i, j | 0 <= i < j < |s| :: s[i] <= s[j]
  }

  /** Putting drained restarts back keeps the list in time order exactly when nothing later was
      recorded in the meantime. */
  lemma RestoreKeepsOrder(f: File, d: Drained)
    requires d.count > 0 && d.last.Some?
    ensures Ascending(Restored(f, d).restarts) <==>
              Ascending(f.restarts) && (f.restarts == [] || f.restarts[|f.restarts| - 1] <= d.last.value)
  {
    var r, n := Restored(f, d).restarts, |f.restarts|;
    assert r[n] == d.last.value;
    if Ascending(r) {
      assert forall i | 0 <= i < n :: r[i] == f.restarts[i];
    }
  }

  function Tick(now: int): seq<Event> {
    [WatchdogReads(now), ServiceAnswers(false, false), ProcessAnswers(false),
     ServiceStart(now, true), WatchdogRecords(now)]
  }

  lemma {:induction false} RunAppend(s: State, a: seq<Event>, b: seq<Event>)
    ensures Run(s, a + b) == Run(Run(s, a), b)
  {
    if b == [] {
      assert a + b == a;
    } else {
      RunAppend(s, a, b[..|b| - 1]);
      assert (a + b)[..|a + b| - 1] == a + b[..|b| - 1];
    }
  }

  lemma RunTick(s: State, now: int)
    requires s.watchdog.Idle? && !Inhibits(s.file.inhibit, now)
    ensures Run(s, Tick(now)) ==
              s.(file := Recorded(s.file, now), recorded := s.recorded + [Seconds(now)],
                 starts := s.starts + [Start(now, now)])
  {
    var es := Tick(now);
    assert es[..4][..3] == es[..3] && es[..3][..2] == es[..2] && es[..2][..1] == es[..1] && es[..1][..0] == [];
    assert Run(s, es[..1]) == s.(watchdog := Allowed(now));
    assert Run(s, es[..2]) == s.(watchdog := ServiceDown(now));
    assert Run(s, es[..3]) == s.(watchdog := NoProcess(now));
  }

  /** The list need not stay in time order: a restart recorded while a push fails ends up before
      the older one that is put back. */
  lemma RestoredListOutOfOrder()
    ensures var es := Tick(SECOND) + [PushBegins] + Tick(2 * SECOND) + [PushEnds(Failed)];
            Run(INITIAL, es).file.restarts == [2, 1]
  {
    var a, b := Tick(SECOND) + [PushBegins], Tick(2 * SECOND);
    RunTick(INITIAL, SECOND);
    assert a[..|a| - 1] == Tick(SECOND);
    var s := Run(INITIAL, a);
    RunAppend(INITIAL, a, b);
    RunTick(s, 2 * SECOND);
    var es := a + b + [PushEnds(Failed)];
    assert es[..|es| - 1] == a + b;
    assert Repeat(1, 1) == [1];
  }

  // ---- The inhibit flag ----

  predicate NoClear(es: seq<Event>) {
    forall i | 0 <= i < |es| :: !es[i].AgentClears?
  }

  predicate HasTime(e: Event) {
    e.AgentInhibits? || e.WatchdogReads? || e.ServiceStart? || e.WatchdogRecords?
  }

  predicate Clocked(es: seq<Event>) {
    forall i, j | 0 <= i < j < |es| && HasTime(es[i]) && HasTime(es[j]) :: es[i].now <= es[j].now
  }

  /** Without a clear, an inhibit is never shortened. */
  lemma {:induction false} InhibitNeverShortened(s: State, es: seq<Event>)
    requires s.file.inhibit.Until? && NoClear(es)
    ensures var i := Run(s, es).file.inhibit; i.Until? && i.sec >= s.file.inhibit.sec
  {
    if es != [] {
      InhibitNeverShortened(s, es[..|es| - 1]);
    }
  }

  /** The watchdog run under way has passed its inhibit check. */
  predicate Checked(w: Stage) {
    w.Allowed? || w.ServiceDown? || w.NoProcess?
  }

  ghost predicate NeverFrom(i: Inhibit, at: int) {
    forall t | t >= at :: !Inhibits(i, t)
  }

  lemma CheckedStep(p: State, e: Event)
    requires Checked(Step(p, e).watchdog)
    ensures Checked(p.watchdog) ==> Step(p, e).watchdog.at == p.watchdog.at
    ensures Checked(p.watchdog) && !e.AgentInhibits? ==> Step(p, e).file.inhibit in {p.file.inhibit, Unset}
    ensures !Checked(p.watchdog) ==>
              && p.watchdog.Idle? && e == WatchdogReads(Step(p, e).watchdog.at)
              && !Inhibits(p.file.inhibit, e.now) && Step(p, e).file == p.file
  {
  }

  /** The check of the watchdog run under way, as an event of the run so far. */
  lemma {:induction false} CheckOf(s: State, es: seq<Event>) returns (m: nat)
    requires s.watchdog.Idle? && Checked(Run(s, es).watchdog)
    ensures m < |es| && es[m] == WatchdogReads(Run(s, es).watchdog.at)
    ensures !Inhibits(Run(s, es[..m]).file.inhibit, es[m].now)
    ensures (forall i | m < i < |es| :: !es[i].AgentInhibits?) ==> NeverFrom(Run(s, es).file.inhibit, es[m].now)
  {
    hide Step;
    var n := |es| - 1;
    var p := Run(s, es[..n]);
    CheckedStep(p, es[n]);
    if Checked(p.watchdog) {
      m := CheckOf(s, es[..n]);
      assert es[..n][..m] == es[..m];
      assert forall i | m < i < n :: es[..n][i] == es[i];
    } else {
      m := n;
    }
  }

  /** A run of events that starts between two watchdog runs, with an inhibit in force and no clear:
      no service start happens before the inhibit expires. */
  lemma {:induction false} NoStartBeforeExpiry(s: State, es: seq<Event>)
    requires s.watchdog.Idle? && s.file.inhibit.Until? && NoClear(es) && Clocked(es)
    ensures var r := Run(s, es);
            && |s.starts| <= |r.starts| && r.starts[..|s.starts|] == s.starts
            && forall k | |s.starts| <= k < |r.starts| ::
              s.file.inhibit.sec * SECOND <= r.starts[k].checkedAt <= r.starts[k].startedAt
  {
    if es != [] {
      var n := |es| - 1;
      var most, e := es[..n], es[n];
      NoStartBeforeExpiry(s, most);
      var p := Run(s, most);
      if e.ServiceStart? && p.watchdog.NoProcess? {
        var m := CheckOf(s, most);
        assert es[m] == most[m] && HasTime(es[m]);
        assert most[..m] == es[..m];
        InhibitNeverShortened(s, es[..m]);
      }
    }
  }

  /** Event i writes an inhibit that lasts beyond `now`, and no clear follows it. */
  predicate InhibitedBy(es: seq<Event>, i: nat, now: int) {
    && i < |es| && es[i].AgentInhibits? && now < Seconds(es[i].now + es[i].d) * SECOND
    && forall j | i < j < |es| :: !es[j].AgentClears?
  }

  lemma InhibitStep(s: State, e: Event, now: int)
    ensures Inhibits(Step(s, e).file.inhibit, now) <==>
              || (e.AgentInhibits? && now < Seconds(e.now + e.d) * SECOND)
              || (!e.AgentClears? && Inhibits(s.file.inhibit, now))
  {
  }

  ghost predicate InhibitedAfter(es: seq<Event>, m: nat, now: int) {
    exists i | m < i < |es| :: InhibitedBy(es, i, now)
  }

  lemma InhibitedSnoc(es: seq<Event>, e: Event, m: nat, now: int)
    requires m < |es|
    ensures InhibitedAfter(es + [e], m, now) <==>
              || (e.AgentInhibits? && now < Seconds(e.now + e.d) * SECOND)
              || (!e.AgentClears? && InhibitedAfter(es, m, now))
  {
    var all := es + [e];
    assert all[|es|] == e && forall j | 0 <= j < |es| :: es[j] == all[j];
    if i :| m < i < |es| && InhibitedBy(es, i, now) {
      assert InhibitedBy(all, i, now) <==> !e.AgentClears?;
    }
    if i :| m < i < |all| && InhibitedBy(all, i, now) {
      assert i < |es| ==> InhibitedBy(es, i, now);
    }
    assert e.AgentInhibits? && now < Seconds(e.now + e.d) * SECOND ==> InhibitedBy(all, |es|, now);
  }

  /** After a moment without an inhibit, one is in force exactly if it was written since. */
  lemma {:induction false} InhibitSince(s: State, es: seq<Event>, m: nat, now: int)
    requires m < |es| && !Inhibits(Run(s, es[..m + 1]).file.inhibit, now)
    ensures Inhibits(Run(s, es).file.inhibit, now) <==> InhibitedAfter(es, m, now)
  {
    var n := |es| - 1;
    var most := es[..n];
    if m < n {
      assert most[..m + 1] == es[..m + 1] && es == most + [es[n]];
      InhibitSince(s, most, m, now);
      InhibitStep(Run(s, most), es[n], now);
      InhibitedSnoc(most, es[n], m, now);
      hide Step, Inhibits, InhibitedAfter;
    } else {
      assert es[..m + 1] == es;
    }
  }

  /** Every start was decided on by a check that found no inhibit, and happens while one is in force
      exactly if the agent wrote one between that check and the start, lasting beyond it and not
      cleared again. */
  lemma StartWhileInhibited(s: State, es: seq<Event>, e: Event) returns (m: nat)
    requires s.watchdog.Idle? && Clocked(es + [e])
    requires e.ServiceStart? && Run(s, es).watchdog.NoProcess?
    ensures m < |es| && es[m] == WatchdogReads(Run(s, es).watchdog.at)
    ensures !Inhibits(Run(s, es[..m]).file.inhibit, es[m].now)
    ensures Inhibits(Run(s, es).file.inhibit, e.now) <==> InhibitedAfter(es, m, e.now)
  {
    m := CheckOf(s, es);
    var all, upTo := es + [e], es[..m + 1];
    assert all[m] == es[m] && all[|es|] == e && HasTime(all[m]) && HasTime(all[|es|]);
    assert upTo[..m] == es[..m] && upTo[m] == es[m];
    assert Run(s, upTo) == Step(Run(s, es[..m]), es[m]);
    InhibitStep(Run(s, es[..m]), es[m], e.now);
    InhibitSince(s, es, m, e.now);
  }

  /** Such a start exists: the inhibit falls between the check and the start. */
  lemma LateInhibitIsMissed()
    ensures var es := [WatchdogReads(0), AgentInhibits(0, 900 * SECOND), ServiceAnswers(false, false),
                       ProcessAnswers(false), ServiceStart(0, true)];
            var r := Run(INITIAL, es);
            r.starts == [Start(0, 0)] && Inhibits(Run(INITIAL, es[..4]).file.inhibit, 0)
  {
    var es := [WatchdogReads(0), AgentInhibits(0, 900 * SECOND), ServiceAnswers(false, false), ProcessAnswers(false),
               ServiceStart(0, true)];
    assert es[..4][..3] == es[..3] && es[..3][..2] == es[..2] && es[..2][..1] == es[..1] && es[..1][..0] == [];
    assert Seconds(900 * SECOND) == 900;
    var inhibited := INITIAL.(file := File([], Until(900)));
    assert Run(INITIAL, es[..0]) == INITIAL;
    assert Run(INITIAL, es[..1]) == INITIAL.(watchdog := Allowed(0));
    assert Run(INITIAL, es[..2]) == inhibited.(watchdog := Allowed(0));
    assert Run(INITIAL, es[..3]) == inhibited.(watchdog := ServiceDown(0));
    assert Run(INITIAL, es[..4]) == inhibited.(watchdog := NoProcess(0));
  }

  // ---- What every start rests on ----

  /** The step at which the watchdog run under way reached its present stage. */
  lemma {:induction false} LastMove(s: State, es: seq<Event>) returns (k: nat)
    requires s.watchdog.Idle? && Checked(Run(s, es).watchdog)
    ensures k < |es| && Run(s, es[..k]).watchdog != Run(s, es).watchdog
    ensures Step(Run(s, es[..k]), es[k]).watchdog == Run(s, es).watchdog
  {
    var n := |es| - 1;
    var p := Run(s, es[..n]);
    if p.watchdog == Run(s, es).watchdog {
      k := LastMove(s, es[..n]);
      assert es[..n][..k] == es[..k];
    } else {
      k := n;
    }
  }

  lemma MoveKinds(p: State, e: Event)
    requires Step(p, e).watchdog != p.watchdog
    ensures Step(p, e).watchdog.NoProcess? ==>
            e == ProcessAnswers(false) && p.watchdog == ServiceDown(Step(p, e).watchdog.at)
    ensures Step(p, e).watchdog.ServiceDown? ==>
            e == ServiceAnswers(false, false) && p.watchdog == Allowed(Step(p, e).watchdog.at)
    ensures Step(p, e).watchdog.Allowed? ==>
            e == WatchdogReads(Step(p, e).watchdog.at) && !Inhibits(p.file.inhibit, e.now)
  {
  }

  /** Whatever happens in between, a start follows an answer that no agent process runs, which
      follows an answer that the service is down, which follows a check that found no inhibit. */
  lemma StartEvidence(s: State, es: seq<Event>) returns (m: nat, j: nat, k: nat)
    requires s.watchdog.Idle? && Run(s, es).watchdog.NoProcess?
    ensures m < j < k < |es|
    ensures es[m] == WatchdogReads(Run(s, es).watchdog.at) && !Inhibits(Run(s, es[..m]).file.inhibit, es[m].now)
    ensures es[j] == ServiceAnswers(false, false) && es[k] == ProcessAnswers(false)
  {
    hide Step, Run;
    k := LastMove(s, es);
    MoveKinds(Run(s, es[..k]), es[k]);
    j := LastMove(s, es[..k]);
    assert es[..k][..j] == es[..j];
    MoveKinds(Run(s, es[..j]), es[j]);
    m := LastMove(s, es[..j]);
    assert es[..j][..m] == es[..m];
    MoveKinds(Run(s, es[..m]), es[m]);
  }
}
