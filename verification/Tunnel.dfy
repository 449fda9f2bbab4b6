/**
 The life of a remote-access tunnel: three relay goroutines and any number of close commands
 share one channel, two connections and an entry in the registry. Every interleaving of their
 steps is a run of this state machine.
 */
module Tunnel {

  /** The most frames that can wait in the connection's read buffer: 65536 bytes of at least two
      bytes each. */
  const MAX_BUFFERED: nat := 32768

  /** A TCP relay has a service connection; a shell tunnel has a shell instead. */
  datatype Kind = Tcp | Shell

  /** The keepalive, the relay towards the server, the relay from the server, and the goroutine of
      the close command that obtained the tunnel. */
  datatype Thread = Keep | Up | Down | Taker

  /** Where a goroutine is: in its relay loop, about to leave the registry, inside the closing
      sequence (the once-guarded channel close, then the WebSocket, then the other end), or done. */
  datatype Pc = Looping | Removing | Once | ClosingWs | ClosingSvc | ClosingShell | Ended

  datatype Pcs = Pcs(keep: Pc, up: Pc, down: Pc, taker: Pc)

  /** What the goroutines share. `chCloses` and `shellCloses` count how often the channel and the
      shell were really closed; `listed` says whether the registry still holds the tunnel, and
      `takes` how often a close command obtained it. */
  datatype Conn = Conn(kind: Kind, listed: bool, takes: nat, once: bool, chCloses: nat, wsClosed: bool,
                       svcClosed: bool, shellOnce: bool, shellCloses: nat, buffered: nat)

  datatype Tun = Tun(c: Conn, p: Pcs)

  function Fresh(kind: Kind): Tun {
    Tun(Conn(kind, true, 0, false, 0, false, false, false, 0, 0), Pcs(Looping, Looping, Looping, Ended))
  }

  function Get(p: Pcs, th: Thread): Pc {
    match th
    case Keep => p.keep
    case Up => p.up
    case Down => p.down
    case Taker => p.taker
  }

  function Set(p: Pcs, th: Thread, pc: Pc): (r: Pcs)
    ensures forall other :: Get(r, other) == if other == th then pc else Get(p, other)
  {
    match th
    case Keep => p.(keep := pc)
    case Up => p.(up := pc)
    case Down => p.(down := pc)
    case Taker => p.(taker := pc)
  }

  datatype Step =
    | KeepTick(ok: bool)
    | KeepSeesClosed
    | UpCopies
    | UpExits
    | DownReads(more: nat)
    | DownExits
    | Advance(th: Thread)
    | Take

  predicate Closing(pc: Pc) {
    !pc.Looping? && !pc.Ended?
  }

  /** Whether a step can happen. A write or read may fail at any time; it can succeed only on an
      open connection, or from what is still buffered. */
  predicate Enabled(t: Tun, s: Step) {
    match s
    case KeepTick(ok) => t.p.keep.Looping? && (ok ==> !t.c.wsClosed)
    case KeepSeesClosed => t.p.keep.Looping? && t.c.chCloses > 0
    case UpCopies =>
      t.p.up.Looping? && (if t.c.kind.Tcp? then !t.c.svcClosed && !t.c.wsClosed else !t.c.shellOnce)
    case UpExits => t.p.up.Looping?
    case DownReads(more) =>
      t.p.down.Looping? && if t.c.wsClosed then t.c.buffered > 0 else more <= MAX_BUFFERED
    case DownExits => t.p.down.Looping?
    case Advance(th) => Closing(Get(t.p, th))
    case Take => t.c.listed
  }

  /** What one step of the closing sequence does to the shared state. */
  function Closed(c: Conn, pc: Pc): Conn {
    match pc
    case Removing => c.(listed := false)
    case Once => if c.once then c else c.(once := true, chCloses := c.chCloses + 1)
    case ClosingWs => c.(wsClosed := true)
    case ClosingSvc => c.(svcClosed := true)
    case ClosingShell => if c.shellOnce then c else c.(shellOnce := true, shellCloses := c.shellCloses + 1)
    case _ => c
  }

  /** Where the goroutine is after it. A close command does not touch the shell. */
  function After(kind: Kind, pc: Pc, th: Thread): Pc {
    match pc
    case Removing => Once
    case Once => ClosingWs
    case ClosingWs => if kind.Tcp? then ClosingSvc else if th.Taker? then Ended else ClosingShell
    case _ => Ended
  }

  function Effect(t: Tun, s: Step): Tun {
    match s
    case KeepTick(ok) => if ok then t else t.(p := Set(t.p, Keep, Once))
    case KeepSeesClosed => t.(p := Set(t.p, Keep, Ended))
    case UpCopies => t
    case UpExits => t.(p := Set(t.p, Up, Removing))
    case DownReads(more) =>
      t.(c := t.c.(buffered := if !t.c.wsClosed then more else if t.c.buffered > 0 then t.c.buffered - 1 else 0))
    case DownExits => t.(p := Set(t.p, Down, Once))
    case Advance(th) =>
      var pc := Get(t.p, th);
      Tun(Closed(t.c, pc), Set(t.p, th, After(t.c.kind, pc, th)))
    case Take => Tun(t.c.(listed := false, takes := t.c.takes + 1), Set(t.p, Taker, Once))
  }

  function Next(t: Tun, s: Step): Tun {
    if Enabled(t, s) then Effect(t, s) else t
  }

  // ---- What every step keeps ----

  predicate Finished(c: Conn) {
    c.once && c.wsClosed && (c.kind.Tcp? ==> c.svcClosed)
  }

  /** What the place of a goroutine says about what is closed already. */
  predicate ThreadInv(c: Conn, th: Thread, pc: Pc) {
    match pc
    case Looping => !th.Taker?
    case Removing => th.Up?
    case Once => (th.Up? || th.Taker? ==> !c.listed) && (th.Taker? ==> c.takes > 0)
    case ClosingWs => c.once && (th.Up? || th.Taker? ==> !c.listed) && (th.Taker? ==> c.takes > 0)
    case ClosingSvc =>
      && c.kind.Tcp? && c.once && c.wsClosed
      && (th.Up? || th.Taker? ==> !c.listed) && (th.Taker? ==> c.takes > 0)
    case ClosingShell => c.kind.Shell? && c.once && c.wsClosed && !th.Taker? && (th.Up? ==> !c.listed)
    case Ended =>
      match th
      case Keep => c.once
      case Up => !c.listed && Finished(c) && (c.kind.Shell? ==> c.shellOnce)
      case Down => Finished(c) && (c.kind.Shell? ==> c.shellOnce)
      case Taker => true
  }

  predicate ConnInv(c: Conn) {
    && c.chCloses == (if c.once then 1 else 0)
    && c.shellCloses == (if c.shellOnce then 1 else 0)
    && c.takes <= 1 && (c.listed ==> c.takes == 0)
    && c.buffered <= MAX_BUFFERED && (c.wsClosed ==> c.once)
  }

  predicate Someone(p: Pcs, pc: Pc) {
    p.keep == pc || p.up == pc || p.down == pc || p.taker == pc
  }

  /** Whoever closed the channel goes on to close the connections. */
  predicate Obligations(t: Tun) {
    && (t.c.once && !t.c.wsClosed ==> Someone(t.p, ClosingWs))
    && (t.c.kind.Tcp? && t.c.wsClosed && !t.c.svcClosed ==> Someone(t.p, ClosingSvc))
  }

  predicate Inv(t: Tun) {
    && ConnInv(t.c) && Obligations(t)
    && ThreadInv(t.c, Keep, t.p.keep) && ThreadInv(t.c, Up, t.p.up)
    && ThreadInv(t.c, Down, t.p.down) && ThreadInv(t.c, Taker, t.p.taker)
  }

  lemma FreshInv(kind: Kind)
    ensures Inv(Fresh(kind))
  {
  }

  /** What is closed stays closed, and a tunnel that has left the registry does not return. */
  predicate Grows(c: Conn, d: Conn) {
    && d.kind == c.kind && (d.listed ==> c.listed) && c.takes <= d.takes && c.chCloses <= d.chCloses
    && (c.once ==> d.once) && (c.wsClosed ==> d.wsClosed)
    && (c.svcClosed ==> d.svcClosed) && (c.shellOnce ==> d.shellOnce)
  }

  lemma ThreadInvIsStable(c: Conn, d: Conn, th: Thread, pc: Pc)
    requires ThreadInv(c, th, pc) && Grows(c, d)
    ensures ThreadInv(d, th, pc)
  {
  }

  lemma ClosedGrows(c: Conn, pc: Pc)
    requires ConnInv(c) && (pc.ClosingWs? ==> c.once)
    ensures Grows(c, Closed(c, pc)) && ConnInv(Closed(c, pc))
  {
  }

  lemma AdvancedThread(c: Conn, th: Thread, pc: Pc)
    requires ConnInv(c) && ThreadInv(c, th, pc) && Closing(pc)
    ensures ThreadInv(Closed(c, pc), th, After(c.kind, pc, th))
  {
  }

  /** One goroutine moves, the shared state grows: the others keep what they know. */
  lemma ThreadsKeepInv(t: Tun, d: Conn, th: Thread, pc: Pc)
    requires Inv(t) && Grows(t.c, d) && ThreadInv(d, th, pc)
    ensures var p := Set(t.p, th, pc);
            && ThreadInv(d, Keep, p.keep) && ThreadInv(d, Up, p.up)
            && ThreadInv(d, Down, p.down) && ThreadInv(d, Taker, p.taker)
  {
    ThreadInvIsStable(t.c, d, Keep, t.p.keep);
    ThreadInvIsStable(t.c, d, Up, t.p.up);
    ThreadInvIsStable(t.c, d, Down, t.p.down);
    ThreadInvIsStable(t.c, d, Taker, t.p.taker);
  }

  lemma AdvanceKeepsObligations(t: Tun, th: Thread)
    requires Inv(t) && Closing(Get(t.p, th))
    ensures Obligations(Effect(t, Advance(th)))
  {
    var u := Effect(t, Advance(th));
    assert Get(u.p, th) == After(t.c.kind, Get(t.p, th), th);
    assert forall o | o != th :: Get(u.p, o) == Get(t.p, o);
    assert Get(u.p, Keep) == u.p.keep && Get(u.p, Up) == u.p.up;
    assert Get(u.p, Down) == u.p.down && Get(u.p, Taker) == u.p.taker;
  }

  lemma AdvanceKeepsInv(t: Tun, th: Thread)
    requires Inv(t) && Closing(Get(t.p, th))
    ensures Inv(Effect(t, Advance(th))) && Grows(t.c, Effect(t, Advance(th)).c)
  {
    var pc := Get(t.p, th);
    ClosedGrows(t.c, pc);
    AdvancedThread(t.c, th, pc);
    ThreadsKeepInv(t, Closed(t.c, pc), th, After(t.c.kind, pc, th));
    AdvanceKeepsObligations(t, th);
  }

  lemma LoopStepKeepsInv(t: Tun, s: Step)
    requires Inv(t) && Enabled(t, s) && !s.Advance? && !s.Take?
    ensures Inv(Effect(t, s)) && Grows(t.c, Effect(t, s).c)
  {
    match s
    case DownReads(_) => ThreadsKeepInv(t, Effect(t, s).c, Down, Looping);
    case _ =>
  }

  lemma TakeKeepsInv(t: Tun)
    requires Inv(t) && t.c.listed
    ensures Inv(Effect(t, Take)) && Grows(t.c, Effect(t, Take).c)
  {
    ThreadsKeepInv(t, Effect(t, Take).c, Taker, Once);
  }

  lemma NextKeepsInv(t: Tun, s: Step)
    requires Inv(t)
    ensures Inv(Next(t, s)) && Grows(t.c, Next(t, s).c)
  {
    assert Grows(t.c, t.c);
    hide Inv, Grows, Effect;
    if Enabled(t, s) {
      match s
      case Advance(th) => AdvanceKeepsInv(t, th);
      case Take => TakeKeepsInv(t);
      case _ => LoopStepKeepsInv(t, s);
    }
  }

  // ---- Progress ----

  function Rank(pc: Pc): nat {
    match pc
    case Looping => 6
    case Removing => 5
    case Once => 4
    case ClosingWs => 3
    case ClosingSvc => 1
    case ClosingShell => 1
    case Ended => 0
  }

  function Ranks(p: Pcs): nat {
    Rank(p.keep) + Rank(p.up) + Rank(p.down) + Rank(p.taker)
  }

  /** No step raises this. A listed tunnel may still give rise to one close command. */
  function Work(t: Tun): nat {
    Ranks(t.p) + (if t.c.listed then 5 else 0) + (if t.c.wsClosed then t.c.buffered else MAX_BUFFERED + 1)
  }

  /** The goroutine that takes a step; a close command is a new goroutine. */
  predicate By(s: Step, th: Thread) {
    match s
    case KeepTick(_) => th.Keep?
    case KeepSeesClosed => th.Keep?
    case UpCopies => th.Up?
    case UpExits => th.Up?
    case DownReads(_) => th.Down?
    case DownExits => th.Down?
    case Advance(t) => th == t
    case Take => false
  }

  /** The goroutine is not blocked for good: what it waits for is there. */
  predicate Ready(t: Tun, th: Thread) {
    var pc := Get(t.p, th);
    || Closing(pc)
    || (pc.Looping? && match th
                       case Keep => t.c.chCloses > 0
                       case Up => if t.c.kind.Tcp? then t.c.svcClosed else t.c.shellOnce
                       case Down => t.c.wsClosed
                       case Taker => false)
  }

  /** Whatever step the goroutine takes next, it gets closer to its end. */
  predicate Decisive(t: Tun, th: Thread) {
    var pc := Get(t.p, th);
    || Closing(pc)
    || (pc.Looping? && match th
                       case Keep => t.c.wsClosed
                       case Up => if t.c.kind.Tcp? then t.c.svcClosed || t.c.wsClosed else t.c.shellOnce
                       case Down => t.c.wsClosed
                       case Taker => false)
  }

  predicate Quiet(t: Tun) {
    t.p.keep.Ended? && t.p.up.Ended? && t.p.down.Ended? && t.p.taker.Ended?
  }

  lemma SetLowersRanks(p: Pcs, th: Thread, pc: Pc)
    ensures Ranks(Set(p, th, pc)) == Ranks(p) - Rank(Get(p, th)) + Rank(pc)
  {
  }

  lemma AdvanceLowersWork(t: Tun, th: Thread)
    requires Inv(t) && Closing(Get(t.p, th))
    ensures Work(Effect(t, Advance(th))) < Work(t)
  {
    var pc := Get(t.p, th);
    SetLowersRanks(t.p, th, After(t.c.kind, pc, th));
  }

  /** No step adds work, and a step of a decisive goroutine takes some away. */
  lemma WorkNeverGrows(t: Tun, s: Step)
    requires Inv(t)
    ensures Work(Next(t, s)) <= Work(t)
    ensures forall th | By(s, th) && Enabled(t, s) && Decisive(t, th) :: Work(Next(t, s)) < Work(t)
  {
    if Enabled(t, s) {
      match s
      case Advance(th) => AdvanceLowersWork(t, th);
      case Take => SetLowersRanks(t.p, Taker, Once);
      case KeepTick(_) => SetLowersRanks(t.p, Keep, Once);
      case KeepSeesClosed => SetLowersRanks(t.p, Keep, Ended);
      case UpExits => SetLowersRanks(t.p, Up, Removing);
      case DownExits => SetLowersRanks(t.p, Down, Once);
      case _ =>
    }
  }

  /** A goroutine moves only by its own steps. */
  lemma OthersDoNotMove(t: Tun, s: Step, th: Thread)
    requires !By(s, th) && !(s.Take? && th.Taker?)
    ensures Get(Next(t, s).p, th) == Get(t.p, th)
  {
  }

  /** A decisive goroutine stays so until it takes a step itself. */
  lemma DecisiveIsStable(t: Tun, s: Step, th: Thread)
    requires Inv(t) && Decisive(t, th) && (By(s, th) ==> !Enabled(t, s))
    ensures Decisive(Next(t, s), th)
  {
    if Enabled(t, s) {
      NextKeepsInv(t, s);
      OthersDoNotMove(t, s, th);
    }
  }

  function WhoIsAt(p: Pcs, pc: Pc): (th: Thread)
    requires Someone(p, pc)
    ensures Get(p, th) == pc
  {
    if p.keep == pc then Keep else if p.up == pc then Up else if p.down == pc then Down else Taker
  }

  /** Once the channel is closed, until everything has ended, some goroutine is ready and decisive. */
  lemma SomeoneIsDecisive(t: Tun) returns (th: Thread)
    requires Inv(t) && t.c.chCloses > 0 && !Quiet(t)
    ensures Ready(t, th) && Decisive(t, th)
  {
    if !t.c.wsClosed {
      th := WhoIsAt(t.p, ClosingWs);
    } else if t.c.kind.Tcp? && !t.c.svcClosed {
      th := WhoIsAt(t.p, ClosingSvc);
    } else {
      th := if !t.p.down.Ended? then Down else if !t.p.keep.Ended? then Keep else if !t.p.up.Ended? then Up else Taker;
    }
  }

  /** When all goroutines have ended, the channel was closed exactly once, the connections are
      closed, the entry is gone and a shell was closed exactly once. */
  lemma QuietIsClean(t: Tun)
    requires Inv(t) && Quiet(t)
    ensures t.c.chCloses == 1 && t.c.wsClosed && (t.c.kind.Tcp? ==> t.c.svcClosed)
    ensures !t.c.listed && (t.c.kind.Shell? ==> t.c.shellCloses == 1)
  {
  }

  // ---- All tunnels ----

  type Token = string

  /** The registry's map and the session file it writes. */
  datatype State = State(tunnels: map<Token, Tun>, registry: set<Token>, fileActive: bool, fileCount: nat)

  /** Opening a tunnel under a token that was never used before, or a step in some tunnel. */
  datatype Event = Open(token: Token, kind: Kind) | At(token: Token, step: Step)

  const START := State(map[], {}, false, 0)

  function Written(s: State): State {
    s.(fileActive := s.registry != {}, fileCount := |s.registry|)
  }

  function Apply(s: State, e: Event): State {
    match e
    case Open(token, kind) =>
      if token in s.tunnels then s
      else Written(s.(tunnels := s.tunnels[token := Fresh(kind)], registry := s.registry + {token}))
    case At(token, step) =>
      if token !in s.tunnels then s else Put(s, token, Next(s.tunnels[token], step))
  }

  /** A tunnel that is no longer listed leaves the registry, and the session file follows. */
  function Put(s: State, token: Token, u: Tun): State {
    var s' := s.(tunnels := s.tunnels[token := u]);
    if u.c.listed then s' else Written(s'.(registry := s.registry - {token}))
  }

  function Run(s: State, es: seq<Event>): State
    decreases |es|
  {
    if es == [] then s else Run(Apply(s, es[0]), es[1..])
  }

  ghost predicate Consistent(s: State) {
    && (forall k | k in s.tunnels :: Inv(s.tunnels[k]))
    && (forall k :: k in s.registry <==> k in s.tunnels && s.tunnels[k].c.listed)
    && s.fileCount == |s.registry| && (s.fileActive <==> s.registry != {})
  }

  /** An event takes one tunnel one step further and leaves the others alone. */
  lemma ApplyAt(s: State, e: Event, token: Token)
    requires token in s.tunnels
    ensures var u := Apply(s, e);
            token in u.tunnels &&
            u.tunnels[token] == if e.At? && e.token == token then Next(s.tunnels[token], e.step) else s.tunnels[token]
  {
    hide Next;
  }

  lemma ApplyKeepsConsistent(s: State, e: Event)
    requires Consistent(s)
    ensures Consistent(Apply(s, e))
  {
    match e
    case Open(_, kind) =>
      FreshInv(kind);
    case At(token, step) =>
      if token in s.tunnels {
        NextKeepsInv(s.tunnels[token], step);
        PutKeepsConsistent(s, token, Next(s.tunnels[token], step));
      }
  }

  lemma PutKeepsConsistent(s: State, token: Token, u: Tun)
    requires Consistent(s) && token in s.tunnels
    requires Inv(u) && (u.c.listed ==> s.tunnels[token].c.listed)
    ensures Consistent(Put(s, token, u))
  {
    hide Inv, Put;
    PutWrites(s, token, u);
    var r := Put(s, token, u);
    forall k
      ensures k in r.tunnels ==> Inv(r.tunnels[k])
      ensures k in r.registry <==> k in r.tunnels && r.tunnels[k].c.listed
    {
      PutAt(s, token, u, k);
    }
  }

  /** What it leaves under each token. */
  lemma PutAt(s: State, token: Token, u: Tun, k: Token)
    requires token in s.tunnels
    ensures var r := Put(s, token, u);
            && (k in r.tunnels <==> k in s.tunnels)
            && (k in r.tunnels ==> r.tunnels[k] == if k == token then u else s.tunnels[k])
            && (k in r.registry <==> k in s.registry && (k != token || u.c.listed))
  {
  }

  lemma PutWrites(s: State, token: Token, u: Tun)
    requires s.fileCount == |s.registry| && (s.fileActive <==> s.registry != {})
    ensures var r := Put(s, token, u); r.fileCount == |r.registry| && (r.fileActive <==> r.registry != {})
  {
  }

  /** In every interleaving, every tunnel's channel is closed at most once and at most one close
      command obtains it, a shell is closed at most once, and the session file tells the number
      of registered tunnels. */
  lemma {:induction false} EveryRunIsConsistent(s: State, es: seq<Event>)
    requires Consistent(s)
    ensures Consistent(Run(s, es))
    decreases |es|
  {
    if es != [] {
      ApplyKeepsConsistent(s, es[0]);
      EveryRunIsConsistent(Apply(s, es[0]), es[1..]);
    }
  }

  /** Read out for one tunnel of a run from the start. */
  lemma AtMostOnce(es: seq<Event>, token: Token)
    requires token in Run(START, es).tunnels
    ensures var s := Run(START, es);
            var c := s.tunnels[token].c;
            && c.chCloses <= 1 && c.takes <= 1 && c.shellCloses <= 1
            && (token in s.registry <==> c.listed) && s.fileCount == |s.registry|
  {
    EveryRunIsConsistent(START, es);
  }

  /** The goroutine takes an enabled step somewhere in the schedule. */
  predicate Moves(s: State, es: seq<Event>, token: Token, th: Thread)
    decreases |es|
  {
    es != [] &&
    ((&& es[0].At? && es[0].token == token && token in s.tunnels
      && By(es[0].step, th) && Enabled(s.tunnels[token], es[0].step))
     || Moves(Apply(s, es[0]), es[1..], token, th))
  }

  lemma {:induction false} WorkInRun(s: State, es: seq<Event>, token: Token)
    requires Consistent(s) && token in s.tunnels
    ensures token in Run(s, es).tunnels && Work(Run(s, es).tunnels[token]) <= Work(s.tunnels[token])
    ensures s.tunnels[token].c.chCloses <= Run(s, es).tunnels[token].c.chCloses
    decreases |es|
  {
    if es != [] {
      StepWork(s, es[0], token);
      WorkInRun(Apply(s, es[0]), es[1..], token);
    }
  }

  /** What one event does to the work and the channel of a tunnel. */
  lemma StepWork(s: State, e: Event, token: Token)
    requires Consistent(s) && token in s.tunnels
    ensures Consistent(Apply(s, e)) && token in Apply(s, e).tunnels
    ensures Work(Apply(s, e).tunnels[token]) <= Work(s.tunnels[token])
    ensures s.tunnels[token].c.chCloses <= Apply(s, e).tunnels[token].c.chCloses
  {
    ApplyKeepsConsistent(s, e);
    ApplyAt(s, e, token);
    if e.At? && e.token == token {
      WorkNeverGrows(s.tunnels[token], e.step);
      NextKeepsInv(s.tunnels[token], e.step);
    }
    hide Next, Apply, Inv, Work;
  }

  lemma {:induction false} DecisiveMoveLowersWork(s: State, es: seq<Event>, token: Token, th: Thread)
    requires Consistent(s) && token in s.tunnels && Decisive(s.tunnels[token], th)
    requires Moves(s, es, token, th)
    ensures token in Run(s, es).tunnels && Work(Run(s, es).tunnels[token]) < Work(s.tunnels[token])
    decreases |es|
  {
    var t, e := s.tunnels[token], es[0];
    StepWork(s, e, token);
    ApplyAt(s, e, token);
    WorkInRun(Apply(s, e), es[1..], token);
    if e.At? && e.token == token {
      WorkNeverGrows(t, e.step);
      if !(By(e.step, th) && Enabled(t, e.step)) {
        DecisiveIsStable(t, e.step, th);
        DecisiveMoveLowersWork(Apply(s, e), es[1..], token, th);
      }
    } else {
      DecisiveMoveLowersWork(Apply(s, e), es[1..], token, th);
    }
    hide Next, Apply, Inv, Work, Decisive, By, Enabled;
  }

  /** A stretch of the schedule in which every goroutine of the tunnel that is not blocked gets to
      take a step. Other goroutines, and other tunnels, may do anything. */
  predicate FairRound(s: State, es: seq<Event>, token: Token) {
    token in s.tunnels && forall th | Ready(s.tunnels[token], th) :: Moves(s, es, token, th)
  }

  predicate FairRounds(s: State, rounds: seq<seq<Event>>, token: Token)
    decreases |rounds|
  {
    rounds == [] || (FairRound(s, rounds[0], token) && FairRounds(Run(s, rounds[0]), rounds[1..], token))
  }

  function RunRounds(s: State, rounds: seq<seq<Event>>): State
    decreases |rounds|
  {
    if rounds == [] then s else RunRounds(Run(s, rounds[0]), rounds[1..])
  }

  lemma RoundLowersWork(s: State, es: seq<Event>, token: Token)
    requires Consistent(s) && FairRound(s, es, token)
    requires s.tunnels[token].c.chCloses > 0 && !Quiet(s.tunnels[token])
    ensures token in Run(s, es).tunnels && Work(Run(s, es).tunnels[token]) < Work(s.tunnels[token])
  {
    var th := SomeoneIsDecisive(s.tunnels[token]);
    DecisiveMoveLowersWork(s, es, token, th);
  }

  lemma QuietStaysQuiet(t: Tun, s: Step)
    requires Inv(t) && Quiet(t)
    ensures Next(t, s) == t
  {
  }

  lemma {:induction false} QuietRun(s: State, es: seq<Event>, token: Token)
    requires Consistent(s) && token in s.tunnels && Quiet(s.tunnels[token])
    ensures token in Run(s, es).tunnels && Run(s, es).tunnels[token] == s.tunnels[token]
    decreases |es|
  {
    if es != [] {
      ApplyKeepsConsistent(s, es[0]);
      ApplyAt(s, es[0], token);
      if es[0].At? && es[0].token == token {
        QuietStaysQuiet(s.tunnels[token], es[0].step);
      }
      hide Next, Apply, Inv, Quiet;
      QuietRun(Apply(s, es[0]), es[1..], token);
    }
  }

  /** Once a tunnel's channel is closed, every fair schedule ends it within as many rounds as there
      is work left: all its goroutines have ended, its entry is gone from the registry, its
      connections are closed and its shell, if it had one, was closed exactly once. */
  lemma {:induction false} ClosedTunnelsEnd(s: State, rounds: seq<seq<Event>>, token: Token)
    requires Consistent(s) && token in s.tunnels && s.tunnels[token].c.chCloses > 0
    requires FairRounds(s, rounds, token) && |rounds| >= Work(s.tunnels[token])
    ensures var end := RunRounds(s, rounds);
            && token in end.tunnels && token !in end.registry
            && Quiet(end.tunnels[token])
            && var c := end.tunnels[token].c;
               c.chCloses == 1 && c.wsClosed && (c.kind.Tcp? ==> c.svcClosed) && (c.kind.Shell? ==> c.shellCloses == 1)
    decreases |rounds|
  {
    var t := s.tunnels[token];
    if rounds == [] {
      NoWorkIsQuiet(t);
      QuietIsClean(t);
    } else {
      var u := Run(s, rounds[0]);
      EveryRunIsConsistent(s, rounds[0]);
      WorkInRun(s, rounds[0], token);
      if Quiet(t) {
        QuietRun(s, rounds[0], token);
        QuietRounds(u, rounds[1..], token);
        QuietIsClean(t);
      } else {
        RoundLowersWork(s, rounds[0], token);
        ClosedTunnelsEnd(u, rounds[1..], token);
      }
    }
  }

  lemma NoWorkIsQuiet(t: Tun)
    requires Work(t) == 0
    ensures Quiet(t)
  {
  }

  lemma {:induction false} QuietRounds(s: State, rounds: seq<seq<Event>>, token: Token)
    requires Consistent(s) && token in s.tunnels && Quiet(s.tunnels[token])
    ensures Consistent(RunRounds(s, rounds))
    ensures token in RunRounds(s, rounds).tunnels && RunRounds(s, rounds).tunnels[token] == s.tunnels[token]
    decreases |rounds|
  {
    if rounds != [] {
      QuietRun(s, rounds[0], token);
      EveryRunIsConsistent(s, rounds[0]);
      QuietRounds(Run(s, rounds[0]), rounds[1..], token);
    }
  }

  // ---- The registry and the close method, uninterrupted ----

  /** The part of the shared state that tunnelState.close goes through. */
  function Shut(c: Conn): Conn {
    var d := Closed(Closed(c, Once), ClosingWs);
    if c.kind.Tcp? then Closed(d, ClosingSvc) else d
  }

  /** Without interference, the steps of a close command from the take on are one call of close. */
  lemma TakerShuts(t: Tun)
    requires t.c.listed
    ensures var taken := Next(t, Take);
            var first := Next(Next(taken, Advance(Taker)), Advance(Taker));
            var end := if t.c.kind.Tcp? then Next(first, Advance(Taker)) else first;
            end == Tun(Shut(taken.c), Set(t.p, Taker, Ended))
  {
  }

  class TunnelState {
    const kind: Kind
    var once: bool
    var chCloses: nat
    var wsClosed: bool
    var svcClosed: bool

    constructor (kind: Kind)
      ensures Shows(Fresh(kind).c)
    {
      this.kind, once, chCloses, wsClosed, svcClosed := kind, false, 0, false, false;
    }

    predicate Shows(c: Conn)
      reads this
    {
      c.kind == kind && c.once == once && c.chCloses == chCloses && c.wsClosed == wsClosed && c.svcClosed == svcClosed
    }

    /** tunnelState.close */
    method Close(ghost c: Conn)
      requires Shows(c)
      modifies this
      ensures Shows(Shut(c))
    {
      if !once {
        once := true;
        chCloses := chCloses + 1;
      }
      wsClosed := true;
      if kind.Tcp? {
        svcClosed := true;
      }
    }
  }

  class Registry {
    var tunnels: map<Token, TunnelState>
    var fileActive: bool
    var fileCount: nat

    constructor ()
      ensures tunnels == map[]
    {
      tunnels := map[];
    }

    /** The session file tells the number of registered tunnels. */
    predicate FileAgrees()
      reads this
    {
      fileCount == |tunnels| && (fileActive <==> tunnels.Keys != {})
    }

    method WriteSessionFile()
      modifies this`fileActive, this`fileCount
      ensures FileAgrees()
    {
      fileActive, fileCount := |tunnels| > 0, |tunnels|;
      assert tunnels.Keys == {} <==> |tunnels.Keys| == 0;
    }

    method Add(token: Token, ts: TunnelState)
      modifies this
      ensures FileAgrees() && tunnels == old(tunnels)[token := ts]
    {
      tunnels := tunnels[token := ts];
      WriteSessionFile();
    }

    method Remove(token: Token)
      modifies this
      ensures FileAgrees() && tunnels == old(tunnels) - {token}
    {
      tunnels := tunnels - {token};
      WriteSessionFile();
    }

    /** Looks a tunnel up and unlists it in one step, so that no later taker obtains it. */
    method Take(token: Token) returns (ts: TunnelState?)
      modifies this
      ensures ts == if token in old(tunnels) then old(tunnels)[token] else null
      ensures tunnels == old(tunnels) - {token}
      ensures ts != null || old(FileAgrees()) ==> FileAgrees()
    {
      ts := null;
      if token in tunnels {
        ts := tunnels[token];
        tunnels := tunnels - {token};
        WriteSessionFile();
      } else {
        assert tunnels == tunnels - {token};
      }
    }

    /** handleCloseRemoteTunnel; the answer tells whether the tunnel was found. */
    method CloseRemoteTunnel(token: Token, ghost c: Conn) returns (found: bool)
      requires token in tunnels ==> tunnels[token].Shows(c)
      modifies this, if token in tunnels then {tunnels[token]} else {}
      ensures found <==> token in old(tunnels)
      ensures found ==> old(tunnels)[token].Shows(Shut(c))
      ensures tunnels == old(tunnels) - {token}
      ensures old(FileAgrees()) ==> FileAgrees()
    {
      var ts := Take(token);
      found := ts != null;
      if found {
        ts.Close(c);
      }
    }
  }
}
