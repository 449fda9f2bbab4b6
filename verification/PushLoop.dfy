/**
 The push loop: how an HTTP reply changes the polling interval and the back-off, and when the main
 loop starts the next push. Clock readings are milliseconds since the epoch.
 */
module PushLoop {
  import opened Text

  const BACKOFF_STEPS: seq<int> := [5 * 60, 10 * 60, 30 * 60, 60 * 60]

  datatype ServerConfig = ServerConfig(pushInterval: int, checkInterval: int)
  datatype Response = Response(status: int, nextPollIn: int, config: Option<ServerConfig>)

  /** The configuration fields and the level that a push updates. */
  datatype Pace = Pace(interval: int, until: int, level: nat)

  // ---- One reply ----

  /** The seconds to wait after the 401 that finds this level. */
  function Delay(level: nat): (d: int)
    ensures 300 <= d <= 3600
  {
    match level
    case 0 => 300
    case 1 => 600
    case 2 => 1800
    case _ => 3600
  }

  /** The configuration's interval: the push interval, or the check interval where that is zero. */
  function Fallback(r: Response): int {
    if r.config.None? then 0
    else if r.config.value.pushInterval != 0 then r.config.value.pushInterval
    else r.config.value.checkInterval
  }

  /** The interval after a 200 or a 202. */
  function NewInterval(interval: int, r: Response): int {
    if r.nextPollIn > 0 && r.nextPollIn != interval then r.nextPollIn
    else if Fallback(r) > 0 then Fallback(r)
    else interval
  }

  function Replied(p: Pace, r: Response, now: int): Pace {
    match r.status
    case 200 => Pace(NewInterval(p.interval, r), 0, 0)
    case 202 => p.(interval := NewInterval(p.interval, r))
    case 401 => Pace(p.interval, now + Delay(p.level) * 1000, p.level + 1)
    case _ => p
  }

  class Agent {
    var checkInterval: int
    var backoffUntil: int
    var backoffLevel: nat

    constructor (interval: int)
      ensures Value() == Pace(interval, 0, 0)
    {
      checkInterval, backoffUntil, backoffLevel := interval, 0, 0;
    }

    ghost function Value(): Pace
      reads this
    {
      Pace(checkInterval, backoffUntil, backoffLevel)
    }

    method UpdateInterval(r: Response)
      modifies this`checkInterval
      ensures checkInterval == NewInterval(old(checkInterval), r)
    {
      if r.nextPollIn > 0 && r.nextPollIn != checkInterval {
        checkInterval := r.nextPollIn;
      } else if r.config.Some? {
        var interval := r.config.value.pushInterval;
        if interval == 0 {
          interval := r.config.value.checkInterval;
        }
        if interval > 0 && interval != checkInterval {
          checkInterval := interval;
        }
      }
    }

    /** The switch on the status of a reply. */
    method OnReply(r: Response, now: int)
      modifies this
      ensures Value() == Replied(old(Value()), r, now)
      ensures r.status == 401 ==>
                && checkInterval == old(checkInterval) && backoffLevel == old(backoffLevel) + 1
                && backoffUntil - now ==
                   if old(backoffLevel) == 0 then 5 * 60 * 1000
                   else if old(backoffLevel) == 1 then 10 * 60 * 1000
                   else if old(backoffLevel) == 2 then 30 * 60 * 1000
                   else 60 * 60 * 1000
      ensures r.status == 200 ==> backoffLevel == 0 && backoffUntil == 0
      ensures r.status != 200 && r.status != 401 ==>
                backoffLevel == old(backoffLevel) && backoffUntil == old(backoffUntil)
      ensures r.status == 200 || r.status == 202 ==>
                var given := if r.config.None? then 0
                             else if r.config.value.pushInterval == 0 then r.config.value.checkInterval
                             else r.config.value.pushInterval;
                && (r.nextPollIn > 0 && r.nextPollIn != old(checkInterval) ==> checkInterval == r.nextPollIn)
                && (r.nextPollIn <= 0 || r.nextPollIn == old(checkInterval) ==>
                      checkInterval == if given > 0 then given else old(checkInterval))
      ensures r.status != 200 && r.status != 202 ==> checkInterval == old(checkInterval)
    {
      if r.status == 200 {
        backoffLevel := 0;
        backoffUntil := 0;
        UpdateInterval(r);
      } else if r.status == 202 {
        UpdateInterval(r);
      } else if r.status == 401 {
        var idx := backoffLevel;
        if idx >= |BACKOFF_STEPS| {
          idx := |BACKOFF_STEPS| - 1;
        }
        var backoffSecs := BACKOFF_STEPS[idx];
        backoffLevel := backoffLevel + 1;
        backoffUntil := now + backoffSecs * 1000;
      }
    }

    /** The top of the main loop: how many seconds to sleep before looking again, or none to push.
        A sleep never reaches past the end of the back-off. */
    method NextWait(now: int) returns (wait: Option<int>)
      ensures wait.Some? <==> MustWait(Value(), now)
      ensures wait.Some? ==> 0 <= wait.value <= 60 && now + wait.value * 1000 <= backoffUntil
      ensures wait.Some? && wait.value < 60 ==> backoffUntil < now + wait.value * 1000 + 1000
    {
      if backoffUntil > 0 && now < backoffUntil {
        var waitSec := (backoffUntil - now) / 1000;
        if waitSec > 60 {
          waitSec := 60;
        }
        return Some(waitSec);
      }
      return None;
    }
  }

  predicate MustWait(p: Pace, now: int) {
    p.until > 0 && now < p.until
  }

  // ---- The interval ----

  /** Two positive intervals that differ. */
  predicate Disagrees(r: Response) {
    r.nextPollIn > 0 && Fallback(r) > 0 && r.nextPollIn != Fallback(r)
  }

  /** The same reply again leaves the interval alone exactly when its two intervals do not disagree:
      otherwise the interval swings between them from one push to the next. */
  lemma IntervalSettles(r: Response)
    ensures (forall i :: NewInterval(NewInterval(i, r), r) == NewInterval(i, r)) <==> !Disagrees(r)
    ensures Disagrees(r) ==> NewInterval(r.nextPollIn, r) == Fallback(r) && NewInterval(Fallback(r), r) == r.nextPollIn
  {
    if Disagrees(r) {
      assert NewInterval(NewInterval(Fallback(r), r), r) != NewInterval(Fallback(r), r);
    }
  }

  // ---- The loop ----

  /** One turn of the loop: the clock at its top and, if it pushes, the clock at the reply and the
      reply, or none where the push failed or panicked. Or a restart of the agent: the interval
      was saved, the back-off and its level were not. */
  datatype Turn = Turn(now: int, done: int, reply: Option<Response>) | Restart(now: int)

  function End(t: Turn): int {
    if t.Turn? then t.done else t.now
  }

  /** The pace, and the turns that pushed, and the restarts. */
  datatype State = State(pace: Pace, log: seq<Turn>)

  function Step(s: State, t: Turn): State {
    if t.Restart? then State(Pace(s.pace.interval, 0, 0), s.log + [t])
    else if MustWait(s.pace, t.now) then s
    else State(if t.reply.None? then s.pace else Replied(s.pace, t.reply.value, t.done), s.log + [t])
  }

  function Run(s: State, ts: seq<Turn>): State {
    if ts == [] then s else Step(Run(s, ts[..|ts| - 1]), ts[|ts| - 1])
  }

  function Start(interval: int): State {
    State(Pace(interval, 0, 0), [])
  }

  predicate Got(t: Turn, status: int) {
    t.Turn? && t.reply.Some? && t.reply.value.status == status
  }

  /** What makes the agent forget the refusals so far: a 200, or a restart. */
  predicate Forgets(t: Turn) {
    t.Restart? || Got(t, 200)
  }

  /** The number of 401 replies since the last 200 or restart. */
  function Refusals(log: seq<Turn>): nat {
    if log == [] then 0
    else
      var t := log[|log| - 1];
      if Forgets(t) then 0 else Refusals(log[..|log| - 1]) + if Got(t, 401) then 1 else 0
  }

  lemma RefusalsSnoc(log: seq<Turn>, t: Turn)
    ensures Refusals(log + [t]) == if Forgets(t) then 0 else Refusals(log) + if Got(t, 401) then 1 else 0
  {
    assert (log + [t])[..|log|] == log;
  }

  lemma StepLevel(s: State, t: Turn)
    requires s.pace.level == Refusals(s.log)
    ensures Step(s, t).pace.level == Refusals(Step(s, t).log)
  {
    hide Refusals, NewInterval, Delay;
    RefusalsSnoc(s.log, t);
  }

  /** The level counts the 401 replies since the last 200 or restart, whatever else comes in between. */
  lemma {:induction false} LevelCountsRefusals(interval: int, ts: seq<Turn>)
    ensures var s := Run(Start(interval), ts); s.pace.level == Refusals(s.log)
  {
    hide Refusals, Step;
    if ts == [] {
      NoRefusals();
    } else {
      LevelCountsRefusals(interval, ts[..|ts| - 1]);
      StepLevel(Run(Start(interval), ts[..|ts| - 1]), ts[|ts| - 1]);
    }
  }

  lemma NoRefusals()
    ensures Refusals([]) == 0
  {
  }

  /** A positive interval stays positive. */
  lemma {:induction false} IntervalStaysPositive(interval: int, ts: seq<Turn>)
    requires interval > 0
    ensures Run(Start(interval), ts).pace.interval > 0
  {
    if ts != [] {
      IntervalStaysPositive(interval, ts[..|ts| - 1]);
    }
  }

  /** Every clock reading is at least the one before. */
  predicate Clocked(ts: seq<Turn>) {
    && (forall i | 0 <= i < |ts| :: 0 <= ts[i].now <= End(ts[i]))
    && forall i, j | 0 <= i < j < |ts| :: End(ts[i]) <= ts[j].now
  }

  /** The end of the back-off that the i-th entry brought, if it was a push that got a 401. */
  function Deadline(log: seq<Turn>, i: nat): int
    requires i < |log|
  {
    End(log[i]) + Delay(Refusals(log[..i])) * 1000
  }

  predicate RestartBetween(log: seq<Turn>, i: nat, j: nat)
    requires j <= |log|
  {
    exists k | i < k < j :: log[k].Restart?
  }

  /** Every push after a 401 starts when the back-off of that 401 is over, or after a restart. */
  ghost predicate Spaced(log: seq<Turn>) {
    forall i, j | 0 <= i < j < |log| && Got(log[i], 401) && log[j].Turn? ::
      Deadline(log, i) <= log[j].now || RestartBetween(log, i, j)
  }

  /** Back-offs that are not over yet, nor forgotten, are those the agent still waits for. */
  ghost predicate Waiting(s: State, last: int) {
    forall i | 0 <= i < |s.log| && Got(s.log[i], 401) ::
      Deadline(s.log, i) <= s.pace.until || Deadline(s.log, i) <= last || RestartBetween(s.log, i, |s.log|)
  }

  lemma DeadlineStays(log: seq<Turn>, t: Turn, i: nat)
    requires i < |log|
    ensures Deadline(log + [t], i) == Deadline(log, i)
  {
    assert (log + [t])[..i] == log[..i];
  }

  lemma BetweenStays(log: seq<Turn>, t: Turn, i: nat, j: nat)
    requires j <= |log|
    ensures RestartBetween(log + [t], i, j) <==> RestartBetween(log, i, j)
    ensures i < |log| ==> (RestartBetween(log + [t], i, |log| + 1) <==> RestartBetween(log, i, |log|) || t.Restart?)
  {
    var more := log + [t];
    assert forall k | 0 <= k < |log| :: more[k] == log[k];
    assert more[|log|] == t;
  }

  /** When the loop pushes, every back-off so far is over or forgotten. */
  lemma AllOver(s: State, t: Turn, last: int, i: nat)
    requires Waiting(s, last) && 0 <= t.now && last <= t.now && !MustWait(s.pace, t.now)
    requires i < |s.log| && Got(s.log[i], 401)
    ensures Deadline(s.log + [t], i) <= t.now || RestartBetween(s.log + [t], i, |s.log|)
  {
    hide Deadline, RestartBetween;
    DeadlineStays(s.log, t, i);
    BetweenStays(s.log, t, i, |s.log|);
  }

  /** The back-off that a 401 brings is the one the agent then waits for. */
  lemma NewDeadline(s: State, t: Turn)
    requires s.pace.level == Refusals(s.log) && t.Turn? && !MustWait(s.pace, t.now) && Got(t, 401)
    ensures Deadline(s.log + [t], |s.log|) == Step(s, t).pace.until
  {
    hide Refusals, NewInterval;
    assert (s.log + [t])[..|s.log|] == s.log;
  }

  lemma SpacedSnoc(log: seq<Turn>, t: Turn)
    requires Spaced(log)
    requires t.Turn? ==> forall i | 0 <= i < |log| && Got(log[i], 401) ::
                           Deadline(log + [t], i) <= t.now || RestartBetween(log + [t], i, |log|)
    ensures Spaced(log + [t])
  {
    hide Deadline, RestartBetween, Got;
    var more := log + [t];
    forall i, j | 0 <= i < j < |more| && Got(more[i], 401) && more[j].Turn?
      ensures Deadline(more, i) <= more[j].now || RestartBetween(more, i, j)
    {
      DeadlineStays(log, t, i);
      if j < |log| {
        BetweenStays(log, t, i, j);
      }
    }
  }

  lemma PushSpaces(s: State, t: Turn, last: int)
    requires Spaced(s.log) && Waiting(s, last) && 0 <= t.now && last <= t.now
    requires s.pace.level == Refusals(s.log) && t.Turn? && !MustWait(s.pace, t.now)
    ensures Spaced(Step(s, t).log) && Waiting(Step(s, t), t.now)
  {
    assert Step(s, t).log == s.log + [t];
    if Got(t, 401) {
      NewDeadline(s, t);
    }
    hide Deadline, Replied, Refusals, RestartBetween;
    var log := s.log + [t];
    forall i | 0 <= i < |s.log| && Got(s.log[i], 401)
      ensures Deadline(log, i) <= t.now || RestartBetween(log, i, |s.log|)
      ensures Deadline(log, i) <= t.now || RestartBetween(log, i, |log|)
    {
      AllOver(s, t, last, i);
      BetweenStays(s.log, t, i, |s.log|);
    }
    SpacedSnoc(s.log, t);
  }

  lemma RestartSpaces(s: State, t: Turn)
    requires Spaced(s.log) && t.Restart?
    ensures Spaced(Step(s, t).log) && Waiting(Step(s, t), t.now)
  {
    SpacedSnoc(s.log, t);
    forall i | 0 <= i < |s.log| && Got(s.log[i], 401)
      ensures RestartBetween(s.log + [t], i, |s.log| + 1)
    {
      BetweenStays(s.log, t, i, |s.log|);
    }
    hide Deadline, RestartBetween;
  }

  lemma StepSpaces(s: State, t: Turn, last: int)
    requires Spaced(s.log) && Waiting(s, last) && 0 <= t.now && last <= t.now
    requires s.pace.level == Refusals(s.log)
    ensures Spaced(Step(s, t).log) && Waiting(Step(s, t), t.now)
  {
    if t.Restart? {
      RestartSpaces(s, t);
    } else if !MustWait(s.pace, t.now) {
      PushSpaces(s, t, last);
    }
    hide Deadline, RestartBetween, Spaced;
  }

  /** In every run no push starts before the back-off of an earlier 401 is over, unless the agent was
      restarted in between; the k-th 401 since the last 200 or restart brings the k-th step of
      300, 600, 1800, 3600, 3600, ... seconds. */
  lemma {:induction false} NoPushDuringBackoff(interval: int, ts: seq<Turn>)
    requires Clocked(ts)
    ensures Spaced(Run(Start(interval), ts).log)
    ensures Waiting(Run(Start(interval), ts), if ts == [] then 0 else ts[|ts| - 1].now)
  {
    if ts != [] {
      var n := |ts| - 1;
      var most := ts[..n];
      NoPushDuringBackoff(interval, most);
      LevelCountsRefusals(interval, most);
      if most != [] {
        assert ts[n - 1].now <= End(ts[n - 1]) <= ts[n].now;
      }
      hide Spaced, Waiting, Step;
      StepSpaces(Run(Start(interval), most), ts[n], if most == [] then 0 else ts[n - 1].now);
    }
  }

  /** A restart does end a back-off: the agent pushes at once. */
  lemma RestartEndsBackoff(s: State, t: Turn, now: int)
    requires t.Restart?
    ensures !MustWait(Step(s, t).pace, now)
  {
  }

  // ---- How back-offs add up ----

  /** The seconds the first n back-offs take together. */
  function Waits(n: nat): int {
    if n == 0 then 0 else Waits(n - 1) + Delay(n - 1)
  }

  lemma {:induction false} PushesAreTurns(interval: int, ts: seq<Turn>)
    requires Clocked(ts)
    ensures var log := Run(Start(interval), ts).log;
            && Clocked(log)
            && (log != [] ==> ts != [] && End(log[|log| - 1]) <= End(ts[|ts| - 1]))
  {
    if ts != [] {
      var most, t := ts[..|ts| - 1], ts[|ts| - 1];
      PushesAreTurns(interval, most);
      var log := Run(Start(interval), most).log;
      forall i | 0 <= i < |log|
        ensures End(log[i]) <= t.now
      {
        assert End(log[i]) <= End(log[|log| - 1]);
      }
    }
  }

  lemma {:induction false} BackoffsAddUp(log: seq<Turn>, i: nat, j: nat)
    requires i < j < |log| && Clocked(log) && Spaced(log)
    requires Got(log[i], 401) && log[j].Turn? && forall k | i < k < j :: !Forgets(log[k])
    ensures log[j].now >= End(log[i]) + (Waits(Refusals(log[..j])) - Waits(Refusals(log[..i]))) * 1000
    decreases j
  {
    hide Delay;
    var k := j - 1;
    assert log[..j][..k] == log[..k] && log[..j][k] == log[k];
    if k > i {
      BackoffsAddUp(log, i, k);
    }
    if Got(log[k], 401) {
      assert Deadline(log, k) <= log[j].now;
    }
  }

  /** A device that keeps being refused: between two pushes with no 200 and no restart from the first
      on, the back-offs of all the 401 replies in between have run in full. */
  lemma RefusedDeviceSlowsDown(interval: int, ts: seq<Turn>, i: nat, j: nat)
    requires Clocked(ts)
    requires var log := Run(Start(interval), ts).log;
             i < j < |log| && Got(log[i], 401) && log[j].Turn? && forall k | i < k < j :: !Forgets(log[k])
    ensures var log := Run(Start(interval), ts).log;
            log[j].now - End(log[i]) >= (Waits(Refusals(log[..j])) - Waits(Refusals(log[..i]))) * 1000
  {
    NoPushDuringBackoff(interval, ts);
    PushesAreTurns(interval, ts);
    BackoffsAddUp(Run(Start(interval), ts).log, i, j);
  }
}
