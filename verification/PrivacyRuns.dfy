/**
 Runs of the privacy gate. Each command runs in a goroutine of its own, and no lock is held from an
 operation's checks to its write: the mode, the record and the sessions are read and written one
 at a time. A run interleaves these steps in any order with purges and changes of the mode.
 */
module PrivacyRuns {
  import opened PrivacyGate
  import opened Filters

  // ---- The steps of one goroutine ----

  /** How far an operation has come: begun; found privacy mode off; found a password stored (or, for
      a gate, found that it has to look at the token); ready to write; sessions cleared; over. */
  datatype Phase = Begun | ModeSeen | Present | Ready | Cleared | Finished(answer: Answer)

  datatype Task = Task(op: Op, phase: Phase)

  function End(t: Task, a: Answer): Task {
    t.(phase := Finished(a))
  }

  function Reach(t: Task, p: Phase): Task {
    t.(phase := p)
  }

  /** A gate that looks a token up, and is over. */
  function LookUp(g: Gate, t: Task, token: string, feature: string, now: int): (Gate, Task) {
    var (u, ok) := Checked(g.unlocks, token, feature, now);
    (g.(unlocks := u), End(t, Allowed(ok)))
  }

  /** The next step of an operation. */
  function Advance(kdf: Kdf, g: Gate, t: Task, now: int): (Gate, Task) {
    match t.phase
    case Begun => FirstStep(g, t, now)
    case ModeSeen => (g, SecondStep(g, t))
    case Present => ThirdStep(kdf, g, t, now)
    case Ready => WriteStep(kdf, g, t, now)
    case Cleared =>
      if t.op.RemovePassword? && !t.op.ioError then (g.(blob := Absent), End(t, Done)) else (g, End(t, Refused))
    case Finished(_) => (g, t)
  }

  function FirstStep(g: Gate, t: Task, now: int): (Gate, Task) {
    match t.op
    case VerifyPassword(_, _, _) => (g, if IsSet(g.blob) then Reach(t, Present) else End(t, Refused))
    case CheckToken(token, feature) => LookUp(g, t, token, feature, now)
    case Admit(_, _, _, _) => (g, if Consults(g, t.op) then Reach(t, Present) else End(t, Allowed(true)))
    case _ => (g, if g.mode then End(t, Refused) else Reach(t, ModeSeen))
  }

  function SecondStep(g: Gate, t: Task): Task {
    match t.op
    case SetPassword(password, _, _) => if IsSet(g.blob) || password == "" then End(t, Refused) else Reach(t, Ready)
    case ChangePassword(_, _, _, _) => if IsSet(g.blob) then Reach(t, Present) else End(t, Refused)
    case _ => if IsSet(g.blob) then Reach(t, Present) else End(t, Done)
  }

  function ThirdStep(kdf: Kdf, g: Gate, t: Task, now: int): (Gate, Task) {
    match t.op
    case ChangePassword(was, next, _, _) =>
      (g, if Matches(kdf, g.blob, was) && next != "" then Reach(t, Ready) else End(t, Refused))
    case RemovePassword(password, _) => (g, if Matches(kdf, g.blob, password) then Reach(t, Ready) else End(t, Refused))
    case VerifyPassword(password, _, _) =>
      (g, if Matches(kdf, g.blob, password) then Reach(t, Ready) else End(t, Refused))
    case Admit(_, cmdType, token, _) => LookUp(g, t, token, Feature(cmdType), now)
    case _ => (g, End(t, Refused))
  }

  function WriteStep(kdf: Kdf, g: Gate, t: Task, now: int): (Gate, Task) {
    match t.op
    case SetPassword(_, _, ioError) =>
      if ioError then (g, End(t, Refused)) else (g.(blob := NewRecord(kdf, t.op)), End(t, Done))
    case ChangePassword(_, _, _, ioError) =>
      if ioError then (g, End(t, Refused)) else (g.(blob := NewRecord(kdf, t.op)), End(t, Done))
    case RemovePassword(_, _) => (g.(unlocks := map[]), Reach(t, Cleared))
    case VerifyPassword(_, feature, token) =>
      (g.(unlocks := g.unlocks[token := Session(feature, now, now)]), End(t, Unlocked(token)))
    case _ => (g, End(t, Refused))
  }

  /** What an operation on the record writes. */
  function NewRecord(kdf: Kdf, op: Op): Blob {
    match op
    case SetPassword(password, salt, _) => Record(salt, kdf(password, salt))
    case ChangePassword(_, next, salt, _) => Record(salt, kdf(next, salt))
    case _ => Absent
  }

  /** The operations that are goroutines here; purges and mode changes are single steps. */
  predicate IsTask(op: Op) {
    !op.Purge? && !op.SetMode?
  }

  function Drive(kdf: Kdf, g: Gate, t: Task, now: int, n: nat): (Gate, Task) {
    if n == 0 then (g, t)
    else
      var (g', t') := Drive(kdf, g, t, now, n - 1);
      Advance(kdf, g', t', now)
  }

  /** The steps of an operation that nothing interrupts are the whole operation. */
  lemma Uninterrupted(kdf: Kdf, g: Gate, op: Op, now: int)
    requires IsTask(op)
    ensures var (g', a) := Step(kdf, g, At(now, op));
            Drive(kdf, g, Task(op, Begun), now, 5) == (g', Task(op, Finished(a)))
  {
    var t := Task(op, Begun);
    assert Drive(kdf, g, t, now, 1) == Advance(kdf, g, t, now);
    var (g1, t1) := Drive(kdf, g, t, now, 1);
    assert Drive(kdf, g, t, now, 2) == Advance(kdf, g1, t1, now);
    var (g2, t2) := Drive(kdf, g, t, now, 2);
    assert Drive(kdf, g, t, now, 3) == Advance(kdf, g2, t2, now);
    var (g3, t3) := Drive(kdf, g, t, now, 3);
    assert Drive(kdf, g, t, now, 4) == Advance(kdf, g3, t3, now);
  }

  // ---- Runs ----

  datatype World = World(gate: Gate, tasks: map<nat, Task>)

  datatype Move = Begin(id: nat, op: Op) | Go(id: nat) | Purging | ModeTo(on: bool)

  datatype Event = Event(now: int, move: Move)

  function Next(kdf: Kdf, w: World, e: Event): World {
    match e.move
    case Begin(id, op) => if id in w.tasks || !IsTask(op) then w else w.(tasks := w.tasks[id := Task(op, Begun)])
    case Go(id) =>
      if id !in w.tasks then w
      else
        var (g, t) := Advance(kdf, w.gate, w.tasks[id], e.now);
        World(g, w.tasks[id := t])
    case Purging => w.(gate := Step(kdf, w.gate, At(e.now, Purge)).0)
    case ModeTo(on) => w.(gate := Step(kdf, w.gate, At(e.now, SetMode(on))).0)
  }

  /** A run: the gate the process starts with, without sessions, and the events in order. */
  datatype History = History(kdf: Kdf, mode: bool, blob: Blob, es: seq<Event>)

  /** The state before event i. */
  function StateAt(h: History, i: nat): World
    requires i <= |h.es|
  {
    if i == 0 then World(Gate(h.mode, h.blob, map[]), map[]) else Next(h.kdf, StateAt(h, i - 1), h.es[i - 1])
  }

  function GateAt(h: History, i: nat): Gate
    requires i <= |h.es|
  {
    StateAt(h, i).gate
  }

  function Front(h: History): History
    requires h.es != []
  {
    h.(es := h.es[..|h.es| - 1])
  }

  lemma {:induction false} FrontStates(h: History, i: nat)
    requires i < |h.es|
    ensures StateAt(Front(h), i) == StateAt(h, i)
  {
    if i > 0 {
      FrontStates(h, i - 1);
    }
  }

  predicate NonDecreasing(h: History) {
    forall i, j | 0 <= i < j < |h.es| :: h.es[i].now <= h.es[j].now
  }

  // ---- Purging is invisible ----

  function NotPurge(): Event -> bool {
    (e: Event) => !e.move.Purging?
  }

  function WithoutPurges(h: History): History {
    h.(es := Filter(NotPurge(), h.es))
  }

  function Final(h: History): World {
    StateAt(h, |h.es|)
  }

  /** `b` is `a` with some sessions missing that are expired at time `now`. */
  predicate PurgedMap(a: map<string, Session>, b: map<string, Session>, now: int) {
    && (forall k | k in b :: k in a && a[k] == b[k])
    && (forall k | k in a && k !in b :: Expired(a[k], now))
  }

  /** Equal but for such sessions; in particular every task has come as far, with the same answer. */
  predicate Purged(a: World, b: World, now: int) {
    && a.gate.mode == b.gate.mode && a.gate.blob == b.gate.blob && a.tasks == b.tasks
    && PurgedMap(a.gate.unlocks, b.gate.unlocks, now)
  }

  lemma PurgedCheck(a: map<string, Session>, b: map<string, Session>, token: string, feature: string, now: int)
    requires PurgedMap(a, b, now)
    ensures Checked(a, token, feature, now).1 == Checked(b, token, feature, now).1
    ensures PurgedMap(Checked(a, token, feature, now).0, Checked(b, token, feature, now).0, now)
  {
  }

  lemma NothingPurged(now: int)
    ensures PurgedMap(map[], map[], now)
  {
  }

  lemma OpenedPurged(a: map<string, Session>, b: map<string, Session>, token: string, s: Session, now: int)
    requires PurgedMap(a, b, now)
    ensures PurgedMap(a[token := s], b[token := s], now)
  {
  }

  lemma PurgedAdvance(kdf: Kdf, a: Gate, b: Gate, t: Task, now: int)
    requires a.mode == b.mode && a.blob == b.blob && PurgedMap(a.unlocks, b.unlocks, now)
    ensures var ((g, u), (g', u')) := (Advance(kdf, a, t, now), Advance(kdf, b, t, now));
            u == u' && g.mode == g'.mode && g.blob == g'.blob && PurgedMap(g.unlocks, g'.unlocks, now)
  {
    hide Checked, PurgedMap;
    match t.op
    case RemovePassword(_, _) => NothingPurged(now);
    case VerifyPassword(_, feature, token) =>
      OpenedPurged(a.unlocks, b.unlocks, token, Session(feature, now, now), now);
    case CheckToken(token, feature) => PurgedCheck(a.unlocks, b.unlocks, token, feature, now);
    case Admit(_, cmdType, token, _) => PurgedCheck(a.unlocks, b.unlocks, token, Feature(cmdType), now);
    case _ =>
  }

  /** The two worlds stay related by every step and answer it alike. */
  lemma PurgedStep(kdf: Kdf, a: World, b: World, t: int, e: Event)
    requires Purged(a, b, t) && t <= e.now
    ensures Purged(if e.move.Purging? then a else Next(kdf, a, e), Next(kdf, b, e), e.now)
  {
    assert PurgedMap(a.gate.unlocks, b.gate.unlocks, e.now);
    if e.move.Go? && e.move.id in a.tasks {
      PurgedAdvance(kdf, a.gate, b.gate, a.tasks[e.move.id], e.now);
    }
  }

  lemma FinalStep(h: History)
    requires h.es != []
    ensures Final(h) == Next(h.kdf, Final(Front(h)), h.es[|h.es| - 1])
  {
    FrontStates(h, |h.es| - 1);
  }

  /** Inserting purges anywhere into a run with a non-decreasing clock changes no answer. */
  lemma {:induction false} PurgesAreInvisible(h: History)
    requires NonDecreasing(h)
    ensures Final(WithoutPurges(h)).tasks == Final(h).tasks
    ensures h.es != [] ==> Purged(Final(WithoutPurges(h)), Final(h), h.es[|h.es| - 1].now)
    decreases |h.es|
  {
    if h.es == [] {
      assert WithoutPurges(h) == h;
    } else {
      var n := |h.es| - 1;
      var e, rest := h.es[n], Front(h);
      PurgesAreInvisible(rest);
      FinalStep(h);
      hide StateAt, Final, Next;
      PurgedStep(h.kdf, Final(WithoutPurges(rest)), Final(rest), if n == 0 then e.now else h.es[n - 1].now, e);
      var q := WithoutPurges(h);
      if e.move.Purging? {
        assert q == WithoutPurges(rest);
      } else {
        assert q.es == WithoutPurges(rest).es + [e];
        assert Front(q) == WithoutPurges(rest);
        FinalStep(q);
      }
    }
  }

  // ---- What an event does ----

  /** The operation that takes a step at event i. */
  function Actor(h: History, i: nat): (t: Task)
    requires i < |h.es|
  {
    var w := StateAt(h, i);
    if h.es[i].move.Go? && h.es[i].move.id in w.tasks then w.tasks[h.es[i].move.id]
    else Task(Purge, Finished(Done))
  }

  /** A set or change that writes its record. */
  predicate Writes(h: History, i: nat)
    requires i < |h.es|
  {
    var t := Actor(h, i);
    t.phase.Ready? && (t.op.SetPassword? || t.op.ChangePassword?) && !t.op.ioError
  }

  /** A removal that clears the sessions. */
  predicate Clears(h: History, i: nat)
    requires i < |h.es|
  {
    Actor(h, i).phase.Ready? && Actor(h, i).op.RemovePassword?
  }

  /** A removal that deletes the record. */
  predicate Deletes(h: History, i: nat)
    requires i < |h.es|
  {
    Actor(h, i).phase.Cleared? && Actor(h, i).op.RemovePassword? && !Actor(h, i).op.ioError
  }

  /** A verification that opens a session. */
  predicate Opens(h: History, i: nat, token: string)
    requires i < |h.es|
  {
    Actor(h, i).phase.Ready? && Actor(h, i).op.VerifyPassword? && Actor(h, i).op.token == token
  }

  /** A token is looked up. */
  predicate LooksUp(h: History, i: nat, token: string)
    requires i < |h.es|
  {
    var t := Actor(h, i);
    match t.op
    case CheckToken(k, _) => t.phase.Begun? && k == token
    case Admit(_, _, k, _) => t.phase.Present? && k == token
    case _ => false
  }

  /** The feature it is looked up for. */
  function LookedUp(h: History, i: nat): string
    requires i < |h.es|
  {
    var t := Actor(h, i);
    match t.op
    case CheckToken(_, f) => f
    case Admit(_, cmdType, _, _) => Feature(cmdType)
    case _ => ""
  }

  /** A token is looked up and accepted. */
  predicate Uses(h: History, i: nat, token: string)
    requires i < |h.es|
  {
    LooksUp(h, i, token) && Checked(GateAt(h, i).unlocks, token, LookedUp(h, i), h.es[i].now).1
  }

  /** The record moves only by writes and deletions. */
  lemma RecordStep(h: History, i: nat)
    requires i < |h.es|
    ensures GateAt(h, i + 1).blob ==
              if Writes(h, i) || Deletes(h, i) then NewRecord(h.kdf, Actor(h, i).op) else GateAt(h, i).blob
    ensures GateAt(h, i + 1).mode == if h.es[i].move.ModeTo? then h.es[i].move.on else GateAt(h, i).mode
  {
  }

  /** Where a session comes from, one step at a time. */
  lemma SessionStep(h: History, i: nat, token: string)
    requires i < |h.es| && token in GateAt(h, i + 1).unlocks
    ensures var was, s, now := GateAt(h, i).unlocks, GateAt(h, i + 1).unlocks[token], h.es[i].now;
            if Opens(h, i, token) then Actor(h, i).op.VerifyPassword? && s == Session(Actor(h, i).op.feature, now, now)
            else
              && token in was && !Clears(h, i)
              && if Uses(h, i, token) then s == was[token].(lastUsed := now) && !Expired(was[token], now)
                 else s == was[token]
  {
  }

  lemma UseOfSession(h: History, i: nat, token: string)
    requires i < |h.es| && Uses(h, i, token)
    ensures var was := GateAt(h, i).unlocks;
            token in was && !Expired(was[token], h.es[i].now) && InScope(was[token], LookedUp(h, i))
    ensures !Clears(h, i) && !Opens(h, i, token)
    ensures GateAt(h, i + 1).unlocks ==
            GateAt(h, i).unlocks[token := GateAt(h, i).unlocks[token].(lastUsed := h.es[i].now)]
  {
  }

  // ---- Admission needs a live chain of uses ----

  /** The password an operation has to know. */
  function Given(op: Op): string
    requires op.VerifyPassword? || op.ChangePassword? || op.RemovePassword?
  {
    match op
    case VerifyPassword(password, _, _) => password
    case ChangePassword(was, _, _, _) => was
    case RemovePassword(password, _) => password
  }

  predicate NeedsPassword(op: Op) {
    op.VerifyPassword? || op.ChangePassword? || op.RemovePassword?
  }

  /** At event m the operation that acts at v read a record whose hash its password reproduces. */
  predicate ReadAt(h: History, m: nat, v: nat)
    requires v < |h.es|
  {
    && m < v && h.es[m].move == h.es[v].move && NeedsPassword(Actor(h, v).op)
    && Actor(h, m) == Task(Actor(h, v).op, Present)
    && var r := GateAt(h, m).blob;
       r.Record? && h.kdf(Given(Actor(h, v).op), r.salt) == r.hash
  }

  predicate PasswordRead(h: History, v: nat)
    requires v < |h.es|
  {
    exists m | 0 <= m < v :: ReadAt(h, m, v)
  }

  /** In every interleaving, whatever opens a session, clears the sessions, deletes the record or
      replaces it as a change has earlier read a record whose hash its own password reproduces. */
  lemma WriteNeedsPassword(h: History, v: nat)
    requires v < |h.es| && NeedsPassword(Actor(h, v).op) && (Actor(h, v).phase.Ready? || Actor(h, v).phase.Cleared?)
    ensures PasswordRead(h, v)
  {
    var m := LastMove(h, v, h.es[v].move.id);
    if Actor(h, v).phase.Cleared? {
      m := LastMove(h, m, h.es[v].move.id);
    }
    assert ReadAt(h, m, v);
  }

  /** The look at the record decides: with a password that reproduces its hash the operation goes on
      (a change if its new password is not empty), with any other it is refused; the gate stays
      as it is. */
  lemma PasswordDecides(h: History, m: nat)
    requires m < |h.es| && NeedsPassword(Actor(h, m).op) && Actor(h, m).phase.Present?
    ensures var op, r := Actor(h, m).op, GateAt(h, m).blob;
            var right := r.Record? && h.kdf(Given(op), r.salt) == r.hash;
            var go := right && (op.ChangePassword? ==> op.newPassword != "");
            && GateAt(h, m + 1) == GateAt(h, m)
            && h.es[m].move.Go? && h.es[m].move.id in StateAt(h, m + 1).tasks
            && StateAt(h, m + 1).tasks[h.es[m].move.id] == Task(op, if go then Ready else Finished(Refused))
  {
  }

  /** And a refusal is the end: the operation never takes effect afterwards. */
  lemma {:induction false} RefusedStays(h: History, m: nat, n: nat, id: nat)
    requires m <= n <= |h.es| && id in StateAt(h, m).tasks && StateAt(h, m).tasks[id].phase.Finished?
    ensures id in StateAt(h, n).tasks && StateAt(h, n).tasks[id] == StateAt(h, m).tasks[id]
    decreases n
  {
    if m < n {
      RefusedStays(h, m, n - 1, id);
    }
  }

  /** A wrong password has no effect at any time: after the look at the record that it does not
      match, the operation writes nothing, clears nothing and deletes nothing. */
  lemma WrongPasswordHasNoEffect(h: History, m: nat, n: nat)
    requires m < n < |h.es| && NeedsPassword(Actor(h, m).op) && Actor(h, m).phase.Present?
    requires var r := GateAt(h, m).blob; r.Record? ==> h.kdf(Given(Actor(h, m).op), r.salt) != r.hash
    requires h.es[n].move == h.es[m].move
    ensures Actor(h, n).phase == Finished(Refused)
    ensures GateAt(h, n + 1) == GateAt(h, n) && GateAt(h, m + 1) == GateAt(h, m)
  {
    PasswordDecides(h, m);
    RefusedStays(h, m + 1, n, h.es[m].move.id);
  }

  /** Where a record comes from: it was there at the start, or it is what the latest set or change
      wrote, the hash of that operation's new password under a salt of its own. */
  lemma {:induction false} RecordOrigin(h: History, n: nat) returns (s: nat)
    requires n <= |h.es| && GateAt(h, n).blob.Record?
    ensures s <= n && forall j | s < j < n :: !Writes(h, j) && !Deletes(h, j)
    ensures if s == n then GateAt(h, n).blob == h.blob && forall j | 0 <= j < n :: !Writes(h, j) && !Deletes(h, j)
            else
              && Writes(h, s)
              && var op, r := Actor(h, s).op, GateAt(h, n).blob;
                 if op.SetPassword? then r.salt == op.salt && r.hash == h.kdf(op.password, op.salt)
                 else op.ChangePassword? && r.salt == op.salt && r.hash == h.kdf(op.newPassword, op.salt)
    decreases n
  {
    if n == 0 {
      s := 0;
    } else {
      RecordStep(h, n - 1);
      if Writes(h, n - 1) {
        s := n - 1;
      } else {
        s := RecordOrigin(h, n - 1);
        if s == n - 1 {
          s := n;
        }
      }
    }
  }

  /** The chain starts with the step of a verification that opened the token, having read a record
      that its password matches; it goes on with accepted uses of the token, each within the sliding
      window of the one before and within the absolute limit of the first; and no removal has
      cleared the sessions since its start. */
  predicate IsChain(h: History, n: nat, token: string, chain: seq<nat>)
    requires n <= |h.es|
  {
    && chain != []
    && (forall j | 0 <= j < |chain| :: chain[j] < n)
    && Opens(h, chain[0], token) && PasswordRead(h, chain[0])
    && (forall j | 0 < j < |chain| ::
          && chain[j - 1] < chain[j] && Uses(h, chain[j], token)
          && h.es[chain[j]].now - h.es[chain[j - 1]].now <= UNLOCK_TTL
          && h.es[chain[j]].now - h.es[chain[0]].now <= UNLOCK_MAX)
    && (forall m | chain[0] < m < n :: !Clears(h, m))
  }

  predicate Describes(h: History, chain: seq<nat>, s: Session) {
    && chain != [] && chain[0] < |h.es| && chain[|chain| - 1] < |h.es|
    && Actor(h, chain[0]).op.VerifyPassword? && Actor(h, chain[0]).op.feature == s.feature
    && h.es[chain[0]].now == s.created && h.es[chain[|chain| - 1]].now == s.lastUsed
  }

  lemma ExtendChain(h: History, n: nat, token: string, chain: seq<nat>, s: Session)
    requires n < |h.es| && IsChain(h, n, token, chain) && Describes(h, chain, s)
    requires Uses(h, n, token) && !Expired(s, h.es[n].now) && !Clears(h, n)
    ensures IsChain(h, n + 1, token, chain + [n])
  {
    hide Opens, Uses, Clears, Actor, StateAt, PasswordRead;
    var longer := chain + [n];
    forall j | 0 < j < |longer|
      ensures longer[j - 1] < longer[j] && Uses(h, longer[j], token)
      ensures h.es[longer[j]].now - h.es[longer[j - 1]].now <= UNLOCK_TTL
      ensures h.es[longer[j]].now - h.es[longer[0]].now <= UNLOCK_MAX
    {
      if j < |chain| {
        assert longer[j] == chain[j] && longer[j - 1] == chain[j - 1];
      }
    }
  }

  lemma NoSessionsAtStart(h: History)
    ensures GateAt(h, 0).unlocks == map[]
  {
  }

  lemma OpeningReadsPassword(h: History, v: nat, token: string)
    requires v < |h.es| && Opens(h, v, token)
    ensures PasswordRead(h, v)
  {
    WriteNeedsPassword(h, v);
  }

  /** Every session of every reachable state is the end of a chain. */
  lemma {:induction false} SessionHasChain(h: History, n: nat, token: string) returns (chain: seq<nat>)
    requires n <= |h.es| && token in GateAt(h, n).unlocks
    ensures IsChain(h, n, token, chain) && Describes(h, chain, GateAt(h, n).unlocks[token])
  {
    NoSessionsAtStart(h);
    hide Opens, Uses, Clears, Actor, StateAt, PasswordRead;
    var i := n - 1;
    SessionStep(h, i, token);
    if Opens(h, i, token) {
      OpeningReadsPassword(h, i, token);
      chain := [i];
    } else {
      chain := SessionHasChain(h, i, token);
      if Uses(h, i, token) {
        ExtendChain(h, i, token, chain, GateAt(h, i).unlocks[token]);
        chain := chain + [i];
      }
    }
  }

  /** A token is accepted only at the end of a chain whose scope covers the feature. */
  lemma AcceptedUseHasChain(h: History, n: nat, token: string) returns (chain: seq<nat>)
    requires n < |h.es| && Uses(h, n, token)
    ensures IsChain(h, n + 1, token, chain)
    ensures |chain| > 1 && chain[|chain| - 1] == n && Actor(h, chain[0]).op.VerifyPassword?
    ensures LookedUp(h, n) == "" || Actor(h, chain[0]).op.feature in {LookedUp(h, n), ""}
  {
    UseOfSession(h, n, token);
    chain := SessionHasChain(h, n, token);
    ExtendChain(h, n, token, chain, GateAt(h, n).unlocks[token]);
    chain := chain + [n];
  }

  /** What a task is at a later moment it came to by a step of its own. */
  lemma {:induction false} LastMove(h: History, n: nat, id: nat) returns (m: nat)
    requires n <= |h.es| && id in StateAt(h, n).tasks && !StateAt(h, n).tasks[id].phase.Begun?
    ensures m < n && h.es[m].move == Go(id) && id in StateAt(h, m).tasks
    ensures StateAt(h, m).tasks[id].phase != StateAt(h, n).tasks[id].phase
    ensures StateAt(h, m).tasks[id].op == StateAt(h, n).tasks[id].op
    ensures Advance(h.kdf, GateAt(h, m), StateAt(h, m).tasks[id], h.es[m].now).1 == StateAt(h, n).tasks[id]
  {
    var i := n - 1;
    if id in StateAt(h, i).tasks && StateAt(h, i).tasks[id] == StateAt(h, n).tasks[id] {
      m := LastMove(h, i, id);
    } else {
      m := i;
    }
  }

  /** A privacy-blocked command whose gate saw privacy mode on and no bypass it honours is let through
      only at the end of such a chain, opened for the command's own feature or for all. */
  lemma BlockedCommandNeedsUnlock(h: History, n: nat, id: nat) returns (m: nat, chain: seq<nat>)
    requires n <= |h.es| && id in StateAt(h, n).tasks
    requires var t := StateAt(h, n).tasks[id];
             t.op.Admit? && Blocked(t.op.cmdType) && t.phase == Finished(Allowed(true))
    ensures m < n && h.es[m].move == Go(id)
    ensures var op := StateAt(h, n).tasks[id].op;
            var read := Actor(h, m).phase.Begun?;
            && Actor(h, m).op == op
            && (read ==> !GateAt(h, m).mode || (op.bypass && op.kind != Hub))
            && (!read ==>
                  && IsChain(h, m + 1, op.token, chain) && chain[|chain| - 1] == m
                  && Actor(h, chain[0]).op.VerifyPassword?
                  && Actor(h, chain[0]).op.feature in {Feature(op.cmdType), ""})
  {
    m := LastMove(h, n, id);
    var op := StateAt(h, n).tasks[id].op;
    BlockedTypesAreScoped(op.cmdType);
    chain := [];
    if !Actor(h, m).phase.Begun? {
      chain := AcceptedUseHasChain(h, m, op.token);
    }
  }

  // ---- From one gate to the next ----

  /** A session goes only by a removal, or because it has expired. */
  lemma SessionLost(h: History, i: nat, token: string)
    requires i < |h.es| && token in GateAt(h, i).unlocks && token !in GateAt(h, i + 1).unlocks
    ensures Clears(h, i) || Expired(GateAt(h, i).unlocks[token], h.es[i].now)
  {
  }

  /** The time of the last accepted use of the token at or after event i and before event n. */
  function LastUse(h: History, i: nat, n: nat, token: string): int
    requires i < n <= |h.es|
  {
    if n == i + 1 || Uses(h, n - 1, token) then h.es[n - 1].now else LastUse(h, i, n - 1, token)
  }

  predicate ClearedSince(h: History, i: nat, n: nat)
    requires n <= |h.es|
  {
    exists m | i < m < n :: Clears(h, m)
  }

  /** Event i opens or uses the token, which then has a session of that moment. */
  lemma Touched(h: History, i: nat, token: string)
    requires i < |h.es| && (Opens(h, i, token) || Uses(h, i, token))
    ensures token in GateAt(h, i + 1).unlocks && GateAt(h, i + 1).unlocks[token].lastUsed == h.es[i].now
    ensures Opens(h, i, token) ==>
              && Actor(h, i).op.VerifyPassword?
              && GateAt(h, i + 1).unlocks[token] == Session(Actor(h, i).op.feature, h.es[i].now, h.es[i].now)
  {
    if Uses(h, i, token) {
      UseOfSession(h, i, token);
    }
  }

  /** What has become of a session since it was opened or used at event i. */
  lemma {:induction false} SessionSince(h: History, i: nat, n: nat, token: string)
    requires i < n <= |h.es| && NonDecreasing(h) && (Opens(h, i, token) || Uses(h, i, token))
    requires forall m | i < m < n :: !Opens(h, m, token)
    ensures token in GateAt(h, i + 1).unlocks
    ensures var s, u := GateAt(h, i + 1).unlocks[token].(lastUsed := LastUse(h, i, n, token)), GateAt(h, n).unlocks;
            if ClearedSince(h, i, n) then token !in u
            else if token in u then u[token] == s else Expired(s, h.es[n - 1].now)
  {
    Touched(h, i, token);
    hide Opens, Clears, Actor, StateAt, Uses, Checked;
    var k := n - 1;
    if k > i {
      SessionSince(h, i, k, token);
      if token in GateAt(h, n).unlocks {
        SessionStep(h, k, token);
      } else if token in GateAt(h, k).unlocks {
        SessionLost(h, k, token);
      }
      if Uses(h, k, token) {
        UseOfSession(h, k, token);
      }
      assert h.es[k - 1].now <= h.es[k].now;
    }
  }

  /** Event v is the latest before event n that opens the token. */
  predicate OpenedAt(h: History, v: nat, n: nat, token: string)
    requires n <= |h.es|
  {
    v < n && Opens(h, v, token) && forall m | v < m < n :: !Opens(h, m, token)
  }

  lemma {:induction false} OpeningOf(h: History, n: nat, token: string) returns (v: nat)
    requires n <= |h.es| && token in GateAt(h, n).unlocks
    ensures OpenedAt(h, v, n, token)
  {
    NoSessionsAtStart(h);
    hide Opens, Uses, Clears, Actor, StateAt;
    v := n - 1;
    SessionStep(h, v, token);
    if !Opens(h, v, token) {
      v := OpeningOf(h, n - 1, token);
    }
  }

  /** Read off the events: the session opened at v has not been cleared before event n, and at time
      `now` its last accepted use and its opening are within the two windows. */
  predicate Alive(h: History, v: nat, n: nat, token: string, now: int)
    requires n <= |h.es|
  {
    && OpenedAt(h, v, n, token) && !ClearedSince(h, v, n)
    && now - LastUse(h, v, n, token) <= UNLOCK_TTL && now - h.es[v].now <= UNLOCK_MAX
  }

  predicate LiveSession(u: map<string, Session>, token: string, now: int) {
    token in u && !Expired(u[token], now)
  }

  /** A token has a live session exactly if the session of its latest opening is alive. */
  lemma AliveIff(h: History, v: nat, n: nat, token: string, now: int)
    requires n <= |h.es| && NonDecreasing(h) && OpenedAt(h, v, n, token) && h.es[n - 1].now <= now
    ensures LiveSession(GateAt(h, n).unlocks, token, now) <==> Alive(h, v, n, token, now)
    ensures Actor(h, v).op.VerifyPassword?
    ensures LiveSession(GateAt(h, n).unlocks, token, now) ==>
              GateAt(h, n).unlocks[token].feature == Actor(h, v).op.feature
  {
    Touched(h, v, token);
    SessionSince(h, v, n, token);
    hide StateAt, Actor, LastUse, ClearedSince, Opens;
  }

  /** The token of a look-up at event n was opened at v, is alive, and its scope covers the feature. */
  predicate AcceptedFrom(h: History, v: nat, n: nat, token: string)
    requires n < |h.es|
  {
    && token != "" && Alive(h, v, n, token, h.es[n].now) && Actor(h, v).op.VerifyPassword?
    && (LookedUp(h, n) == "" || Actor(h, v).op.feature in {LookedUp(h, n), ""})
  }

  /** In every interleaving, a look-up accepts a token exactly if its latest opening is alive and in
      scope. */
  lemma AcceptedIff(h: History, n: nat, token: string)
    requires n < |h.es| && NonDecreasing(h) && LooksUp(h, n, token)
    ensures Uses(h, n, token) <==> exists v :: AcceptedFrom(h, v, n, token)
  {
    if Uses(h, n, token) {
      UseOfSession(h, n, token);
      var v := OpeningOf(h, n, token);
      AliveIff(h, v, n, token, h.es[n].now);
      assert AcceptedFrom(h, v, n, token);
    }
    if v :| AcceptedFrom(h, v, n, token) {
      AliveIff(h, v, n, token, h.es[n].now);
      hide StateAt, Alive, Actor, OpenedAt;
    }
  }

  /** After the hub gate has accepted a command's token, whatever else happens, the token check of
      ExecuteSync for the same command says yes exactly when no removal has cleared the sessions,
      the last accepted use is within the sliding window and the session within the absolute
      limit. Tokens are random, so no other verification opens the same one. */
  lemma HubAdmissionCarriesOver(h: History, i: nat, n: nat, now: int, sync: Task)
    requires i < n <= |h.es| && NonDecreasing(h) && h.es[n - 1].now <= now
    requires Actor(h, i).op.Admit? && Uses(h, i, Actor(h, i).op.token)
    requires sync == Task(Actor(h, i).op.(kind := Sync), Present)
    requires forall m | i < m < n :: !Opens(h, m, sync.op.token)
    ensures Advance(h.kdf, GateAt(h, n), sync, now).1.phase ==
              Finished(Allowed(&& !ClearedSince(h, i, n)
                               && now - LastUse(h, i, n, sync.op.token) <= UNLOCK_TTL
                               && now - GateAt(h, i).unlocks[sync.op.token].created <= UNLOCK_MAX))
  {
    UseOfSession(h, i, sync.op.token);
    SessionSince(h, i, n, sync.op.token);
    hide StateAt, LastUse, ClearedSince, Opens;
  }

  /** In particular at the same instant: whatever the hub gate has just let through, looking at the
      token or not, the gate of ExecuteSync lets through too. */
  lemma SameInstant(h: History, i: nat)
    requires i < |h.es| && NonDecreasing(h)
    requires Actor(h, i).op.Admit? && Actor(h, i).op.kind == Hub && !Actor(h, i).phase.Finished?
    requires Advance(h.kdf, GateAt(h, i), Actor(h, i), h.es[i].now).1.phase == Finished(Allowed(true))
    ensures var sync := Task(Actor(h, i).op.(kind := Sync), Begun);
            Drive(h.kdf, GateAt(h, i + 1), sync, h.es[i].now, 2).1.phase == Finished(Allowed(true))
  {
    var sync := Task(Actor(h, i).op.(kind := Sync), Begun);
    assert Drive(h.kdf, GateAt(h, i + 1), sync, h.es[i].now, 1) == Advance(h.kdf, GateAt(h, i + 1), sync, h.es[i].now);
    if Actor(h, i).phase.Present? {
      HubAdmissionCarriesOver(h, i, i + 1, h.es[i].now, Reach(sync, Present));
      UseOfSession(h, i, sync.op.token);
    }
  }

  // ---- The record and privacy mode ----

  /** The step with which an operation that is under way began. */
  lemma {:induction false} FirstMove(h: History, n: nat, id: nat) returns (m: nat)
    requires n <= |h.es| && id in StateAt(h, n).tasks
    requires !StateAt(h, n).tasks[id].phase.Begun? && !StateAt(h, n).tasks[id].phase.Finished?
    ensures m < n && h.es[m].move == Go(id) && Actor(h, m) == Task(StateAt(h, n).tasks[id].op, Begun)
    ensures !Advance(h.kdf, GateAt(h, m), Actor(h, m), h.es[m].now).1.phase.Finished?
  {
    m := LastMove(h, n, id);
    if !Actor(h, m).phase.Begun? {
      m := FirstMove(h, m, id);
    }
  }

  predicate OnRecord(op: Op) {
    op.SetPassword? || op.ChangePassword? || op.RemovePassword?
  }

  /** An operation on the record finds privacy mode off. */
  predicate SeesModeOff(h: History, i: nat)
    requires i < |h.es|
  {
    Actor(h, i).phase.Begun? && OnRecord(Actor(h, i).op) && !GateAt(h, i).mode
  }

  /** Event k turns privacy mode on, and nothing changes the mode from there to event n. */
  predicate TurnedOn(h: History, k: nat, n: nat)
    requires k < n <= |h.es|
  {
    h.es[k].move == ModeTo(true) && forall j | k < j < n :: !h.es[j].move.ModeTo?
  }

  lemma {:induction false} ModeTurnedOn(h: History, m: nat, n: nat) returns (k: nat)
    requires m <= n <= |h.es| && !GateAt(h, m).mode && GateAt(h, n).mode
    ensures m <= k < n && TurnedOn(h, k, n)
    decreases n
  {
    k := n - 1;
    RecordStep(h, k);
    if !h.es[k].move.ModeTo? {
      k := ModeTurnedOn(h, m, n - 1);
    }
  }

  lemma {:induction false} ModeStaysOn(h: History, k: nat, n: nat)
    requires k < n <= |h.es| && TurnedOn(h, k, n)
    ensures GateAt(h, n).mode
    decreases n
  {
    RecordStep(h, n - 1);
    if k < n - 1 {
      ModeStaysOn(h, k, n - 1);
    }
  }

  /** The operation that acts at event n found the mode off at m, before it was turned on at k. */
  predicate Overtaken(h: History, m: nat, k: nat, n: nat)
    requires n < |h.es|
  {
    m < k < n && h.es[m].move == h.es[n].move && SeesModeOff(h, m) && TurnedOn(h, k, n)
  }

  /** In every interleaving, the record changes in privacy mode exactly by a write or deletion of
      another record whose own check of the mode came before the mode was turned on. */
  lemma RecordChangesInPrivacyMode(h: History, n: nat)
    requires n < |h.es|
    ensures GateAt(h, n).mode && GateAt(h, n + 1).blob != GateAt(h, n).blob <==>
              && (Writes(h, n) || Deletes(h, n)) && NewRecord(h.kdf, Actor(h, n).op) != GateAt(h, n).blob
              && exists m, k :: Overtaken(h, m, k, n)
  {
    RecordStep(h, n);
    if Writes(h, n) || Deletes(h, n) {
      var m := FirstMove(h, n, h.es[n].move.id);
      assert SeesModeOff(h, m);
      hide Actor, StateAt, Writes, Deletes;
      if GateAt(h, n).mode {
        var k := ModeTurnedOn(h, m, n);
        assert k != m;
        assert Overtaken(h, m, k, n);
      }
      if m', k :| Overtaken(h, m', k, n) {
        ModeStaysOn(h, k, n);
      }
    }
  }

  // ---- Sessions and the password ----

  /** Hashes and salts are never empty. */
  ghost predicate Sound(h: History) {
    && (forall p, s :: h.kdf(p, s) != "")
    && (forall i | 0 <= i < |h.es| :: h.es[i].move.Begin? ==> Salted(h.es[i].move.op))
  }

  predicate Salted(op: Op) {
    op.SetPassword? || op.ChangePassword? ==> op.salt != ""
  }

  lemma AdvanceKeepsOp(kdf: Kdf, g: Gate, t: Task, now: int)
    ensures Advance(kdf, g, t, now).1.op == t.op
  {
  }

  lemma {:induction false} TasksAreSalted(h: History, n: nat, id: nat)
    requires Sound(h) && n <= |h.es| && id in StateAt(h, n).tasks
    ensures Salted(StateAt(h, n).tasks[id].op)
  {
    var w, e := StateAt(h, n - 1), h.es[n - 1];
    if id in w.tasks {
      TasksAreSalted(h, n - 1, id);
      AdvanceKeepsOp(h.kdf, w.gate, w.tasks[id], e.now);
    }
    hide Advance, Step;
  }

  /** What one event does to whether a password is stored. */
  lemma PasswordStep(h: History, i: nat)
    requires Sound(h) && i < |h.es|
    ensures IsSet(GateAt(h, i + 1).blob) <==> Writes(h, i) || (IsSet(GateAt(h, i).blob) && !Deletes(h, i))
  {
    RecordStep(h, i);
    if Writes(h, i) {
      TasksAreSalted(h, i, h.es[i].move.id);
    }
  }

  predicate NoWrites(h: History, i: nat, j: nat)
    requires j <= |h.es|
  {
    forall s | i < s < j :: !Writes(h, s)
  }

  /** A password that is gone was deleted in between, and not written again. */
  lemma {:induction false} PasswordLost(h: History, i: nat, j: nat) returns (d: nat)
    requires Sound(h) && i <= j <= |h.es| && IsSet(GateAt(h, i).blob) && !IsSet(GateAt(h, j).blob)
    ensures i <= d < j && Deletes(h, d) && NoWrites(h, d, j)
    decreases j
  {
    hide Deletes, Writes, StateAt;
    d := j - 1;
    PasswordStep(h, d);
    if !Deletes(h, d) {
      d := PasswordLost(h, i, j - 1);
    }
  }

  lemma {:induction false} StaysUnset(h: History, i: nat, j: nat)
    requires Sound(h) && i < j <= |h.es| && !IsSet(GateAt(h, i + 1).blob) && NoWrites(h, i, j)
    ensures !IsSet(GateAt(h, j).blob)
    decreases j
  {
    if i + 1 < j {
      StaysUnset(h, i, j - 1);
      PasswordStep(h, j - 1);
    }
  }

  /** A verification finds a password stored. */
  predicate SeesPassword(h: History, i: nat)
    requires i < |h.es|
  {
    Actor(h, i).phase.Begun? && Actor(h, i).op.VerifyPassword? && IsSet(GateAt(h, i).blob)
  }

  /** The verification that opened the token at v found a password stored at c. */
  predicate Verified(h: History, token: string, c: nat, v: nat) {
    c < v < |h.es| && h.es[c].move == h.es[v].move && SeesPassword(h, c) && Opens(h, v, token)
  }

  /** The removal that deleted the record at d cleared the sessions at k. */
  predicate RemovedBy(h: History, k: nat, d: nat) {
    k < d < |h.es| && h.es[k].move == h.es[d].move && Clears(h, k) && Deletes(h, d)
  }

  lemma CheckOf(h: History, v: nat, token: string) returns (c: nat)
    requires v < |h.es| && Opens(h, v, token)
    ensures Verified(h, token, c, v)
  {
    c := FirstMove(h, v, h.es[v].move.id);
  }

  lemma ClearOf(h: History, d: nat) returns (k: nat)
    requires d < |h.es| && Deletes(h, d)
    ensures RemovedBy(h, k, d)
  {
    k := LastMove(h, d, h.es[d].move.id);
  }

  /** A session, alive at time `now`, whose verification overlaps a removal: opened after the removal
      cleared the sessions, checked before it deleted the record, with nothing written since. */
  predicate Orphan(h: History, n: nat, now: int, token: string, c: nat, v: nat, k: nat, d: nat)
    requires n <= |h.es|
  {
    && Verified(h, token, c, v) && Alive(h, v, n, token, now)
    && RemovedBy(h, k, d) && d < n && NoWrites(h, d, n)
    && k < v && c < d
  }

  /** In every interleaving, there is a live session without a stored password exactly if the events
      contain such an overlap. */
  lemma SessionsWithoutPassword(h: History, n: nat, now: int)
    requires Sound(h) && NonDecreasing(h) && 0 < n <= |h.es| && h.es[n - 1].now <= now
    ensures (exists token :: LiveSession(GateAt(h, n).unlocks, token, now)) && !IsSet(GateAt(h, n).blob) <==>
              exists token, c, v, k, d :: Orphan(h, n, now, token, c, v, k, d)
  {
    if !IsSet(GateAt(h, n).blob) {
      if token :| LiveSession(GateAt(h, n).unlocks, token, now) {
        var c, v, k, d := OrphanOf(h, n, now, token);
      }
    }
    if token, c, v, k, d :| Orphan(h, n, now, token, c, v, k, d) {
      AliveIff(h, v, n, token, now);
      PasswordStep(h, d);
      DeleteIsNoWrite(h, d);
      StaysUnset(h, d, n);
    }
  }

  lemma DeleteIsNoWrite(h: History, d: nat)
    requires d < |h.es| && Deletes(h, d)
    ensures !Writes(h, d)
  {
  }

  lemma OrphanOf(h: History, n: nat, now: int, token: string) returns (c: nat, v: nat, k: nat, d: nat)
    requires Sound(h) && NonDecreasing(h) && 0 < n <= |h.es| && h.es[n - 1].now <= now
    requires LiveSession(GateAt(h, n).unlocks, token, now) && !IsSet(GateAt(h, n).blob)
    ensures Orphan(h, n, now, token, c, v, k, d)
  {
    v := OpeningOf(h, n, token);
    AliveIff(h, v, n, token, now);
    c := CheckOf(h, v, token);
    d := PasswordLost(h, c, n);
    assert d != c;
    k := ClearOf(h, d);
    assert k != v;
    assert k < v by {
      assert !ClearedSince(h, v, n);
    }
  }

  /** A removal that ends with success: it deleted the record, or there was none. */
  predicate Removed(h: History, d: nat)
    requires d < |h.es|
  {
    var t := Actor(h, d);
    && t.op.RemovePassword? && !t.phase.Finished?
    && Advance(h.kdf, GateAt(h, d), t, h.es[d].now).1.phase == Finished(Done)
  }

  /** The token of a look-up at event n comes from a verification that looked at the record before the
      end of the removal at d. */
  predicate Stale(h: History, d: nat, n: nat, token: string, c: nat, v: nat)
    requires n < |h.es|
  {
    Verified(h, token, c, v) && c < d && AcceptedFrom(h, v, n, token)
  }

  /** In every interleaving, until a password is written anew, a look-up after a successful removal
      accepts a token exactly if a verification that overlaps the removal has opened it: one that
      looked at the record before the removal ended, and whose session is alive, so that it was
      opened after any clearing. */
  lemma RemovalInvalidatesTokens(h: History, d: nat, n: nat, token: string)
    requires Sound(h) && NonDecreasing(h) && d < n < |h.es| && Removed(h, d)
    requires LooksUp(h, n, token) && NoWrites(h, d, n)
    ensures Uses(h, n, token) <==> exists c, v :: Stale(h, d, n, token, c, v)
  {
    AcceptedIff(h, n, token);
    if v :| AcceptedFrom(h, v, n, token) {
      var c := CheckOf(h, v, token);
      assert c != d;
      RemovedUnset(h, d);
      if d < c {
        StaysUnset(h, d, c);
      }
      assert Stale(h, d, n, token, c, v);
    }
  }

  /** Once a password has been written anew, the tokens accepted are those and the ones verified
      after it. */
  lemma TokensAfterRemoval(h: History, d: nat, n: nat, token: string)
    requires Sound(h) && NonDecreasing(h) && d < n < |h.es| && Removed(h, d) && LooksUp(h, n, token)
    ensures Uses(h, n, token) <==>
              || (exists c, v :: Stale(h, d, n, token, c, v))
              || (exists c, v :: Renewed(h, d, n, token, c, v))
  {
    AcceptedIff(h, n, token);
    if v :| AcceptedFrom(h, v, n, token) {
      var c := CheckOf(h, v, token);
      assert c != d;
      RemovedUnset(h, d);
      if d < c && NoWrites(h, d, c) {
        StaysUnset(h, d, c);
      }
      assert Stale(h, d, n, token, c, v) || Renewed(h, d, n, token, c, v);
    }
  }

  /** The token of a look-up at event n comes from a verification that looked at the record after the
      removal at d, when a password had been written anew. */
  predicate Renewed(h: History, d: nat, n: nat, token: string, c: nat, v: nat)
    requires n < |h.es|
  {
    Verified(h, token, c, v) && d < c && !NoWrites(h, d, c) && AcceptedFrom(h, v, n, token)
  }

  lemma RemovedUnset(h: History, d: nat)
    requires Sound(h) && d < |h.es| && Removed(h, d)
    ensures !IsSet(GateAt(h, d + 1).blob)
  {
  }

  /** How the password comes back after a removal: by a set, or by a change whose own look at the
      stored password came before the end of the removal. */
  lemma PasswordComesBack(h: History, d: nat, s: nat) returns (p: nat)
    requires Sound(h) && d < s < |h.es| && Removed(h, d) && Writes(h, s) && NoWrites(h, d, s)
    ensures p < s && h.es[p].move == h.es[s].move && Actor(h, p) == Task(Actor(h, s).op, ModeSeen)
    ensures Actor(h, s).op.ChangePassword? <==> IsSet(GateAt(h, p).blob)
    ensures Actor(h, s).op.ChangePassword? ==> p < d
  {
    var id := h.es[s].move.id;
    p := LastMove(h, s, id);
    if Actor(h, s).op.ChangePassword? {
      p := LastMove(h, p, id);
    }
    assert p != d;
    RemovedUnset(h, d);
    if d < p && IsSet(GateAt(h, p).blob) {
      StaysUnset(h, d, p);
    }
  }

  // ---- Such runs exist ----

  const VERIFY := VerifyPassword("p", "", "t")
  const REMOVE := RemovePassword("p", false)

  /** A verification that looks at the record before a removal and writes its session after it. */
  function EarlyCheck(): seq<Move> {
    [Begin(1, VERIFY), Begin(2, REMOVE), Go(1), Go(1), Go(2), Go(2), Go(2), Go(2), Go(2), Go(1)]
  }

  /** A whole verification between the two writes of a removal. */
  function InBetween(): seq<Move> {
    [Begin(1, VERIFY), Begin(2, REMOVE), Go(2), Go(2), Go(2), Go(2), Go(1), Go(1), Go(1), Go(2)]
  }

  /** A set that privacy mode overtakes. */
  function LateSet(salt: string): seq<Move> {
    [Begin(1, SetPassword("p", salt, false)), Go(1), Go(1), ModeTo(true), Go(1)]
  }

  function Instantly(kdf: Kdf, blob: Blob, ms: seq<Move>): History {
    History(kdf, false, blob, seq(|ms|, i requires 0 <= i < |ms| => Event(0, ms[i])))
  }

  function Two(g: Gate, v: Phase, r: Phase): World {
    World(g, map[1 := Task(VERIFY, v), 2 := Task(REMOVE, r)])
  }

  lemma Moves(h: History, i: nat, g: Gate, v: Phase, r: Phase)
    requires i < |h.es| && StateAt(h, i) == Two(g, v, r) && h.es[i].move in {Go(1), Go(2)}
    ensures var task := if h.es[i].move == Go(1) then Task(VERIFY, v) else Task(REMOVE, r);
            var (g', t) := Advance(h.kdf, g, task, h.es[i].now);
            StateAt(h, i + 1) == if h.es[i].move == Go(1) then Two(g', t.phase, r) else Two(g', v, t.phase)
  {
    hide Advance;
    AdvanceKeepsOp(h.kdf, g, Task(VERIFY, v), h.es[i].now);
    AdvanceKeepsOp(h.kdf, g, Task(REMOVE, r), h.es[i].now);
    var t := StateAt(h, i + 1).tasks;
    assert t.Keys == {1, 2};
  }

  /** The steps of both while the record is there. */
  lemma Phases(kdf: Kdf, g: Gate)
    requires !g.mode && IsSet(g.blob) && Matches(kdf, g.blob, "p")
    ensures Advance(kdf, g, Task(VERIFY, Begun), 0) == (g, Task(VERIFY, Present))
    ensures Advance(kdf, g, Task(VERIFY, Present), 0) == (g, Task(VERIFY, Ready))
    ensures Advance(kdf, g, Task(REMOVE, Begun), 0) == (g, Task(REMOVE, ModeSeen))
    ensures Advance(kdf, g, Task(REMOVE, ModeSeen), 0) == (g, Task(REMOVE, Present))
    ensures Advance(kdf, g, Task(REMOVE, Present), 0) == (g, Task(REMOVE, Ready))
  {
  }

  lemma LastPhases(kdf: Kdf, g: Gate)
    ensures Advance(kdf, g, Task(VERIFY, Ready), 0) ==
            (g.(unlocks := g.unlocks["t" := Session("", 0, 0)]), Task(VERIFY, Finished(Unlocked("t"))))
    ensures Advance(kdf, g, Task(REMOVE, Ready), 0) == (g.(unlocks := map[]), Task(REMOVE, Cleared))
    ensures Advance(kdf, g, Task(REMOVE, Cleared), 0) == (g.(blob := Absent), Task(REMOVE, Finished(Done)))
  {
  }

  /** After it the removal has succeeded, no password is stored, and the token still works. */
  ghost predicate TokenOutlivesRemoval(h: History) {
    var w := Final(h);
    && !IsSet(w.gate.blob) && 2 in w.tasks && w.tasks[2].phase == Finished(Done)
    && Checked(w.gate.unlocks, "t", "", 0).1
  }

  lemma BothBegun(h: History)
    requires |h.es| >= 2 && h.es[0].move == Begin(1, VERIFY) && h.es[1].move == Begin(2, REMOVE)
    ensures StateAt(h, 2) == Two(Gate(h.mode, h.blob, map[]), Begun, Begun)
  {
    assert StateAt(h, 1) == World(Gate(h.mode, h.blob, map[]), map[1 := Task(VERIFY, Begun)]);
  }

  lemma EarlyCheckOutlives(kdf: Kdf, salt: string)
    requires salt != "" && kdf("p", salt) != ""
    ensures TokenOutlivesRemoval(Instantly(kdf, Record(salt, kdf("p", salt)), EarlyCheck()))
  {
    var h := Instantly(kdf, Record(salt, kdf("p", salt)), EarlyCheck());
    var g := Gate(false, h.blob, map[]);
    BothBegun(h);
    Phases(kdf, g);
    LastPhases(kdf, g);
    LastPhases(kdf, g.(blob := Absent));
    hide StateAt, Checked, Advance, Two, TokenOutlivesRemoval;
    Moves(h, 2, g, Begun, Begun);
    Moves(h, 3, g, Present, Begun);
    Moves(h, 4, g, Ready, Begun);
    Moves(h, 5, g, Ready, ModeSeen);
    Moves(h, 6, g, Ready, Present);
    Moves(h, 7, g, Ready, Ready);
    Moves(h, 8, g, Ready, Cleared);
    Moves(h, 9, g.(blob := Absent), Ready, Finished(Done));
    Outlives(h);
  }

  lemma InBetweenOutlives(kdf: Kdf, salt: string)
    requires salt != "" && kdf("p", salt) != ""
    ensures TokenOutlivesRemoval(Instantly(kdf, Record(salt, kdf("p", salt)), InBetween()))
  {
    var h := Instantly(kdf, Record(salt, kdf("p", salt)), InBetween());
    var g := Gate(false, h.blob, map[]);
    BothBegun(h);
    Phases(kdf, g);
    LastPhases(kdf, g);
    LastPhases(kdf, g.(unlocks := map["t" := Session("", 0, 0)]));
    hide StateAt, Checked, Advance, Two, TokenOutlivesRemoval;
    Moves(h, 2, g, Begun, Begun);
    Moves(h, 3, g, Begun, ModeSeen);
    Moves(h, 4, g, Begun, Present);
    Moves(h, 5, g, Begun, Ready);
    Moves(h, 6, g, Begun, Cleared);
    Moves(h, 7, g, Present, Cleared);
    Moves(h, 8, g, Ready, Cleared);
    Moves(h, 9, g.(unlocks := map["t" := Session("", 0, 0)]), Finished(Unlocked("t")), Cleared);
    Outlives(h);
  }

  lemma Outlives(h: History)
    requires Final(h) ==
             Two(Gate(false, Absent, map["t" := Session("", 0, 0)]), Finished(Unlocked("t")), Finished(Done))
    ensures TokenOutlivesRemoval(h)
  {
  }

  lemma OvertakenSet(kdf: Kdf, salt: string)
    ensures var h := Instantly(kdf, Absent, LateSet(salt));
            GateAt(h, 4).mode && GateAt(h, 4).blob == Absent && GateAt(h, 5).blob.Record?
  {
    var h := Instantly(kdf, Absent, LateSet(salt));
    var op := SetPassword("p", salt, false);
    assert StateAt(h, 1) == World(Gate(false, Absent, map[]), map[1 := Task(op, Begun)]);
    assert StateAt(h, 2) == World(Gate(false, Absent, map[]), map[1 := Task(op, ModeSeen)]);
    assert StateAt(h, 3) == World(Gate(false, Absent, map[]), map[1 := Task(op, Ready)]);
    assert StateAt(h, 4) == World(Gate(true, Absent, map[]), map[1 := Task(op, Ready)]);
  }
}
